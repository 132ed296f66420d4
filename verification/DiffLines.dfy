/**
 * Line diff by dynamic programming: a table of longest-common-subsequence
 * lengths, and a walk through it that emits an edit script.
 */
module DiffLines {
  import Text

  datatype Op = Context | Added | Removed
  datatype DiffLine = DiffLine(op: Op, text: string)

  const MAX_DIFF_LINES := 2000

  // ----- Edit scripts: what a diff means -----

  /** The old side of a script: its context and removed lines. */
  function Before(script: seq<DiffLine>): seq<string> {
    if script == [] then []
    else (if script[0].op.Added? then [] else [script[0].text]) + Before(script[1..])
  }

  /** The new side of a script: its context and added lines. */
  function After(script: seq<DiffLine>): seq<string> {
    if script == [] then []
    else (if script[0].op.Removed? then [] else [script[0].text]) + After(script[1..])
  }

  /** How many lines a script adds or removes. */
  function Cost(script: seq<DiffLine>): nat {
    if script == [] then 0
    else (if script[0].op.Context? then 0 else 1) + Cost(script[1..])
  }

  ghost predicate Rebuilds(script: seq<DiffLine>, a: seq<string>, b: seq<string>) {
    Before(script) == a && After(script) == b
  }

  predicate HasChanges(lines: seq<DiffLine>) {
    exists k :: 0 <= k < |lines| && !lines[k].op.Context?
  }

  /** Within a run of changed lines, removals come before additions. */
  ghost predicate RemovalsFirst(script: seq<DiffLine>) {
    forall k :: 0 < k < |script| && script[k].op.Removed? ==> !script[k - 1].op.Added?
  }

  // ----- Longest common subsequence -----

  function Max(x: nat, y: nat): nat { if x >= y then x else y }

  /** Length of a longest common subsequence of two line lists. */
  function Lcs(a: seq<string>, b: seq<string>): nat
    decreases |a| + |b|
  {
    if a == [] || b == [] then 0
    else if a[0] == b[0] then Lcs(a[1..], b[1..]) + 1
    else Max(Lcs(a[1..], b), Lcs(a, b[1..]))
  }

  /** Dropping one head line loses at most one common line and never gains any. */
  lemma {:induction false} LcsDropHead(a: seq<string>, b: seq<string>)
    ensures a != [] ==> Lcs(a[1..], b) <= Lcs(a, b) <= Lcs(a[1..], b) + 1
    ensures b != [] ==> Lcs(a, b[1..]) <= Lcs(a, b) <= Lcs(a, b[1..]) + 1
    decreases |a| + |b|
  {
    if a != [] && b != [] {
      LcsDropHead(a[1..], b);
      LcsDropHead(a, b[1..]);
      LcsDropHead(a[1..], b[1..]);
    }
  }

  /** No script can keep more lines than the longest common subsequence has. */
  lemma {:induction false} ScriptCostAtLeast(script: seq<DiffLine>, a: seq<string>, b: seq<string>)
    requires Rebuilds(script, a, b)
    ensures Cost(script) >= |a| + |b| - 2 * Lcs(a, b)
    decreases |script|
  {
    if script != [] {
      var rest := script[1..];
      LcsDropHead(a, b);
      match script[0].op {
        case Context =>
          assert a[1..] == Before(rest) && b[1..] == After(rest);
          ScriptCostAtLeast(rest, a[1..], b[1..]);
        case Removed =>
          assert a[1..] == Before(rest) && b == After(rest);
          ScriptCostAtLeast(rest, a[1..], b);
        case Added =>
          assert a == Before(rest) && b[1..] == After(rest);
          ScriptCostAtLeast(rest, a, b[1..]);
      }
    }
  }

  // ----- The walk -----

  function AllOf(op: Op, lines: seq<string>): (r: seq<DiffLine>)
    ensures |r| == |lines|
    ensures forall k :: 0 <= k < |lines| ==> r[k] == DiffLine(op, lines[k])
  {
    seq(|lines|, k requires 0 <= k < |lines| => DiffLine(op, lines[k]))
  }

  lemma {:induction false} AllOfSides(op: Op, lines: seq<string>)
    ensures Before(AllOf(op, lines)) == if op.Added? then [] else lines
    ensures After(AllOf(op, lines)) == if op.Removed? then [] else lines
    ensures Cost(AllOf(op, lines)) == if op.Context? then 0 else |lines|
  {
    if lines != [] {
      AllOfSides(op, lines[1..]);
      assert AllOf(op, lines)[1..] == AllOf(op, lines[1..]);
    }
  }

  lemma {:induction false} BeforeConcat(s: seq<DiffLine>, t: seq<DiffLine>)
    ensures Before(s + t) == Before(s) + Before(t)
  {
    if s == [] {
      assert s + t == t;
    } else {
      assert (s + t)[1..] == s[1..] + t;
      BeforeConcat(s[1..], t);
    }
  }

  lemma {:induction false} AfterConcat(s: seq<DiffLine>, t: seq<DiffLine>)
    ensures After(s + t) == After(s) + After(t)
  {
    if s == [] {
      assert s + t == t;
    } else {
      assert (s + t)[1..] == s[1..] + t;
      AfterConcat(s[1..], t);
    }
  }

  /** The script the walk emits: keep equal heads, otherwise drop the old line
      unless dropping the new one keeps strictly more in common. */
  function Script(a: seq<string>, b: seq<string>): seq<DiffLine>
    decreases |a| + |b|
  {
    if a == [] then AllOf(Added, b)
    else if b == [] then AllOf(Removed, a)
    else if a[0] == b[0] then [DiffLine(Context, a[0])] + Script(a[1..], b[1..])
    else if Lcs(a[1..], b) >= Lcs(a, b[1..]) then [DiffLine(Removed, a[0])] + Script(a[1..], b)
    else [DiffLine(Added, b[0])] + Script(a, b[1..])
  }

  lemma Prepend(head: DiffLine, rest: seq<DiffLine>)
    ensures Before([head] + rest) == (if head.op.Added? then [] else [head.text]) + Before(rest)
    ensures After([head] + rest) == (if head.op.Removed? then [] else [head.text]) + After(rest)
    ensures Cost([head] + rest) == (if head.op.Context? then 0 else 1) + Cost(rest)
  {
    assert ([head] + rest)[1..] == rest;
  }

  /** The walk's script rebuilds both sides and keeps a longest common subsequence. */
  lemma {:induction false} ScriptRebuilds(a: seq<string>, b: seq<string>)
    ensures Rebuilds(Script(a, b), a, b)
    ensures Cost(Script(a, b)) == |a| + |b| - 2 * Lcs(a, b)
    decreases |a| + |b|
  {
    if a == [] {
      AllOfSides(Added, b);
    } else if b == [] {
      AllOfSides(Removed, a);
    } else if a[0] == b[0] {
      ScriptRebuilds(a[1..], b[1..]);
      Prepend(DiffLine(Context, a[0]), Script(a[1..], b[1..]));
    } else if Lcs(a[1..], b) >= Lcs(a, b[1..]) {
      ScriptRebuilds(a[1..], b);
      Prepend(DiffLine(Removed, a[0]), Script(a[1..], b));
    } else {
      ScriptRebuilds(a, b[1..]);
      Prepend(DiffLine(Added, b[0]), Script(a, b[1..]));
    }
  }

  /** Minimality: no script that rebuilds both sides adds and removes fewer lines. */
  lemma ScriptIsMinimal(a: seq<string>, b: seq<string>, other: seq<DiffLine>)
    requires Rebuilds(other, a, b)
    ensures Cost(Script(a, b)) <= Cost(other)
  {
    ScriptRebuilds(a, b);
    ScriptCostAtLeast(other, a, b);
  }

  /** The tie-break puts the removals of a changed block before its additions. */
  lemma {:induction false} ScriptRemovalsFirst(a: seq<string>, b: seq<string>)
    ensures RemovalsFirst(Script(a, b))
    decreases |a| + |b|
  {
    if a == [] || b == [] {
    } else if a[0] == b[0] {
      ScriptRemovalsFirst(a[1..], b[1..]);
    } else if Lcs(a[1..], b) >= Lcs(a, b[1..]) {
      ScriptRemovalsFirst(a[1..], b);
    } else {
      var rest := Script(a, b[1..]);
      ScriptRemovalsFirst(a, b[1..]);
      if rest != [] && rest[0].op.Removed? {
        // The rest drops a[0], so Lcs(a, b[1..]) == Lcs(a[1..], b[1..]) <= Lcs(a[1..], b).
        LcsDropHead(a[1..], b);
        assert false;
      }
    }
  }

  lemma {:induction false} CostZero(script: seq<DiffLine>)
    ensures Cost(script) == 0 <==> !HasChanges(script)
    ensures !HasChanges(script) ==> Before(script) == After(script)
  {
    if script != [] {
      CostZero(script[1..]);
      assert HasChanges(script) <==> !script[0].op.Context? || HasChanges(script[1..]) by {
        if HasChanges(script) {
          var k :| 0 <= k < |script| && !script[k].op.Context?;
          assert k > 0 ==> script[1..][k - 1] == script[k];
        }
        if HasChanges(script[1..]) {
          var k :| 0 <= k < |script[1..]| && !script[1..][k].op.Context?;
          assert script[k + 1] == script[1..][k];
        }
      }
    }
  }

  /** Scripts without changes exist only between equal sides. */
  lemma NoChangesIffEqual(a: seq<string>, b: seq<string>)
    ensures !HasChanges(Script(a, b)) <==> a == b
  {
    ScriptRebuilds(a, b);
    CostZero(Script(a, b));
    if a == b {
      AllOfSides(Context, a);
      ScriptIsMinimal(a, b, AllOf(Context, a));
    }
  }

  // ----- Lines of a text -----

  const CRLF: string := "\r\n"

  /** Every CRLF becomes LF, in one left-to-right pass. */
  function Normalize(text: string): string {
    if |text| >= 2 && text[0] == '\r' && text[1] == '\n' then "\n" + Normalize(text[2..])
    else if text == "" then ""
    else [text[0]] + Normalize(text[1..])
  }

  lemma NormalizeStep(c: char, rest: string)
    requires !(c == '\r' && rest != "" && rest[0] == '\n')
    ensures Normalize([c] + rest) == [c] + Normalize(rest)
  {
    assert ([c] + rest)[1..] == rest;
  }

  lemma NormalizeCrlf(rest: string)
    ensures Normalize(CRLF + rest) == "\n" + Normalize(rest)
  {
    assert (CRLF + rest)[2..] == rest;
  }

  /** A leading CRLF, or a leading character that starts none, passes over `x + y`. */
  lemma NormalizeHead(c: char, x: string, y: string, z: string)
    requires Normalize(x + y) == Normalize(x) + z && !(y != "" && y[0] == '\n')
    ensures !(c == '\r' && x != "" && x[0] == '\n') ==> Normalize([c] + x + y) == Normalize([c] + x) + z
    ensures Normalize(CRLF + x + y) == Normalize(CRLF + x) + z
  {
    hide Normalize;
    assert [c] + x + y == [c] + (x + y);
    assert CRLF + x + y == CRLF + (x + y);
    NormalizeCrlf(x + y);
    NormalizeCrlf(x);
    if !(c == '\r' && x != "" && x[0] == '\n') {
      NormalizeStep(c, x + y);
      NormalizeStep(c, x);
    }
  }

  /** Normalising works on both sides of a CRLF independently and puts LF there. */
  lemma {:induction false} NormalizeAtCrlf(a: string, b: string)
    ensures Normalize(a + (CRLF + b)) == Normalize(a) + ("\n" + Normalize(b))
  {
    NormalizeCrlf(b);
    if a == "" {
      assert a + (CRLF + b) == CRLF + b;
    } else if CRLF <= a {
      NormalizeAtCrlf(a[2..], b);
      hide Normalize;
      NormalizeHead('\n', a[2..], CRLF + b, "\n" + Normalize(b));
      assert a == CRLF + a[2..];
    } else {
      NormalizeAtCrlf(a[1..], b);
      hide Normalize;
      NormalizeHead(a[0], a[1..], CRLF + b, "\n" + Normalize(b));
      assert a == [a[0]] + a[1..];
    }
  }

  /** A text without CRLF is left alone; with the law above this settles every text. */
  lemma {:induction false} NormalizePlain(text: string)
    requires forall k :: 0 <= k < |text| - 1 ==> !(text[k] == '\r' && text[k + 1] == '\n')
    ensures Normalize(text) == text
  {
    if text != "" {
      forall k | 0 <= k < |text[1..]| - 1 ensures !(text[1..][k] == '\r' && text[1..][k + 1] == '\n') {
        assert text[1..][k] == text[k + 1] && text[1..][k + 1] == text[k + 2];
      }
      NormalizePlain(text[1..]);
    }
  }

  function SplitLines(text: string): seq<string> {
    Text.Split(Normalize(text), '\n')
  }

  lemma SplitLinesInjective(s: string, t: string)
    ensures SplitLines(s) == SplitLines(t) <==> Normalize(s) == Normalize(t)
  {
    Text.JoinSplit(Normalize(s), '\n');
    Text.JoinSplit(Normalize(t), '\n');
  }

  // ----- The algorithm -----

  /** The table entry for the suffixes that start at lines `i` and `j`. */
  ghost function SuffixLcs(a: seq<string>, b: seq<string>, i: nat, j: nat): nat
    requires i <= |a| && j <= |b|
  {
    Lcs(a[i..], b[j..])
  }

  lemma SuffixLcsStep(a: seq<string>, b: seq<string>, i: nat, j: nat)
    requires i < |a| && j < |b|
    ensures SuffixLcs(a, b, i, j) ==
      if a[i] == b[j] then SuffixLcs(a, b, i + 1, j + 1) + 1
      else Max(SuffixLcs(a, b, i + 1, j), SuffixLcs(a, b, i, j + 1))
  {
    assert a[i..][1..] == a[i + 1..] && b[j..][1..] == b[j + 1..];
  }

  /** Row `i` of the table is right from column `from` on. */
  ghost predicate RowFilled(lcs: array2<nat>, a: seq<string>, b: seq<string>, i: nat, from: nat)
    reads lcs
    requires lcs.Length0 == |a| + 1 && lcs.Length1 == |b| + 1 && i <= |a|
  {
    forall j: nat :: from <= j <= |b| ==> lcs[i, j] == SuffixLcs(a, b, i, j)
  }

  /** Fills row `i` from the right, given the row below. */
  method FillRow(a: seq<string>, b: seq<string>, lcs: array2<nat>, i: nat)
    requires lcs.Length0 == |a| + 1 && lcs.Length1 == |b| + 1 && i < |a|
    requires RowFilled(lcs, a, b, i + 1, 0)
    requires lcs[i, |b|] == 0
    modifies lcs
    ensures RowFilled(lcs, a, b, i, 0)
    ensures forall r, c :: 0 <= r <= |a| && r != i && 0 <= c <= |b| ==> lcs[r, c] == old(lcs[r, c])
    ensures forall r: nat :: r <= |a| && r != i && old(RowFilled(lcs, a, b, r, 0)) ==> RowFilled(lcs, a, b, r, 0)
  {
    var j := |b|;
    while j > 0
      invariant 0 <= j <= |b|
      invariant forall r, c :: 0 <= r <= |a| && r != i && 0 <= c <= |b| ==> lcs[r, c] == old(lcs[r, c])
      invariant RowFilled(lcs, a, b, i, j)
    {
      j := j - 1;
      SuffixLcsStep(a, b, i, j);
      assert lcs[i + 1, j] == SuffixLcs(a, b, i + 1, j);
      assert lcs[i + 1, j + 1] == SuffixLcs(a, b, i + 1, j + 1);
      lcs[i, j] := if a[i] == b[j] then lcs[i + 1, j + 1] + 1 else Max(lcs[i + 1, j], lcs[i, j + 1]);
    }
  }

  /** Fills the table from the last row to the first. */
  method FillTable(a: seq<string>, b: seq<string>) returns (lcs: array2<nat>)
    ensures fresh(lcs) && lcs.Length0 == |a| + 1 && lcs.Length1 == |b| + 1
    ensures forall i: nat :: i <= |a| ==> RowFilled(lcs, a, b, i, 0)
  {
    lcs := new nat[|a| + 1, |b| + 1]((_, _) => 0);
    var i := |a|;
    while i > 0
      invariant 0 <= i <= |a|
      invariant forall r, c :: 0 <= r < i && 0 <= c <= |b| ==> lcs[r, c] == 0
      invariant forall r: nat :: i <= r <= |a| ==> RowFilled(lcs, a, b, r, 0)
    {
      i := i - 1;
      FillRow(a, b, lcs, i);
    }
  }

  /** The script for the suffixes that start at lines `i` and `j`. */
  ghost function SuffixScript(a: seq<string>, b: seq<string>, i: nat, j: nat): seq<DiffLine>
    requires i <= |a| && j <= |b|
  {
    Script(a[i..], b[j..])
  }

  lemma SuffixScriptStep(a: seq<string>, b: seq<string>, i: nat, j: nat)
    requires i < |a| && j < |b|
    ensures SuffixScript(a, b, i, j) ==
      if a[i] == b[j] then [DiffLine(Context, a[i])] + SuffixScript(a, b, i + 1, j + 1)
      else if SuffixLcs(a, b, i + 1, j) >= SuffixLcs(a, b, i, j + 1)
        then [DiffLine(Removed, a[i])] + SuffixScript(a, b, i + 1, j)
      else [DiffLine(Added, b[j])] + SuffixScript(a, b, i, j + 1)
  {
    assert a[i..][1..] == a[i + 1..] && b[j..][1..] == b[j + 1..];
  }

  lemma MoveHead(out: seq<DiffLine>, line: DiffLine, rest: seq<DiffLine>)
    ensures out + ([line] + rest) == (out + [line]) + rest
  {
  }

  /** Walks the table; the three loops together emit `Script(a, b)`. */
  method Walk(a: seq<string>, b: seq<string>, lcs: array2<nat>) returns (out: seq<DiffLine>)
    requires lcs.Length0 == |a| + 1 && lcs.Length1 == |b| + 1
    requires forall i: nat :: i <= |a| ==> RowFilled(lcs, a, b, i, 0)
    ensures out == Script(a, b)
  {
    out := [];
    var i, j := 0, 0;
    ghost var script := SuffixScript(a, b, 0, 0);
    assert script == Script(a, b) by { assert a[0..] == a && b[0..] == b; }
    while i < |a| && j < |b|
      invariant 0 <= i <= |a| && 0 <= j <= |b|
      invariant script == out + SuffixScript(a, b, i, j)
      decreases |a| - i + |b| - j
    {
      SuffixScriptStep(a, b, i, j);
      assert RowFilled(lcs, a, b, i, 0) && RowFilled(lcs, a, b, i + 1, 0);
      if a[i] == b[j] {
        MoveHead(out, DiffLine(Context, a[i]), SuffixScript(a, b, i + 1, j + 1));
        out := out + [DiffLine(Context, a[i])];
        i, j := i + 1, j + 1;
      } else if lcs[i + 1, j] >= lcs[i, j + 1] {
        MoveHead(out, DiffLine(Removed, a[i]), SuffixScript(a, b, i + 1, j));
        out := out + [DiffLine(Removed, a[i])];
        i := i + 1;
      } else {
        MoveHead(out, DiffLine(Added, b[j]), SuffixScript(a, b, i, j + 1));
        out := out + [DiffLine(Added, b[j])];
        j := j + 1;
      }
    }
    var tail := Drain(a, b, i, j);
    out := out + tail;
  }

  /** The lines left over once one side is exhausted. */
  method Drain(a: seq<string>, b: seq<string>, i0: nat, j0: nat) returns (out: seq<DiffLine>)
    requires i0 <= |a| && j0 <= |b| && (i0 == |a| || j0 == |b|)
    ensures out == SuffixScript(a, b, i0, j0)
  {
    out := [];
    var i, j := i0, j0;
    while i < |a|
      invariant i0 <= i <= |a| && (i < |a| ==> j == |b|)
      invariant out == AllOf(Removed, a[i0..i])
    {
      out := out + [DiffLine(Removed, a[i])];
      i := i + 1;
    }
    while j < |b|
      invariant j0 <= j <= |b| && (j0 < j ==> i0 == |a|)
      invariant out == AllOf(Removed, a[i0..]) + AllOf(Added, b[j0..j])
    {
      out := out + [DiffLine(Added, b[j])];
      j := j + 1;
    }
  }

  /** What the diff does past the line limit. */
  lemma ReplaceAll(a: seq<string>, b: seq<string>)
    requires a != [] || b != []
    ensures var out := AllOf(Removed, a) + AllOf(Added, b); Rebuilds(out, a, b) && RemovalsFirst(out) && HasChanges(out)
  {
    AllOfSides(Removed, a);
    AllOfSides(Added, b);
    BeforeConcat(AllOf(Removed, a), AllOf(Added, b));
    AfterConcat(AllOf(Removed, a), AllOf(Added, b));
    hide Before, After, Cost;
    var out := AllOf(Removed, a) + AllOf(Added, b);
    assert !out[0].op.Context?;
  }

  /** When a diff shows no change: the texts agree up to line endings and are within
      the line limit. */
  predicate ShowsNoChange(before: string, after: string) {
    && |SplitLines(before)| <= MAX_DIFF_LINES && |SplitLines(after)| <= MAX_DIFF_LINES
    && Normalize(before) == Normalize(after)
  }

  lemma {:induction false} LinesOfNewlines(n: nat)
    ensures |Text.Split(seq(n, _ => '\n'), '\n')| == n + 1
  {
    if n > 0 {
      LinesOfNewlines(n - 1);
      assert seq(n, _ => '\n')[1..] == seq(n - 1, _ => '\n');
    }
  }

  /** A text of 2001 lines is shown as changed even against itself; one of 2000 is not. */
  lemma LongTextDiffersFromItself()
    ensures var text := seq(2000, _ => '\n'); !ShowsNoChange(text, text)
    ensures var text := seq(1999, _ => '\n'); ShowsNoChange(text, text)
  {
    NormalizePlain(seq(2000, _ => '\n'));
    NormalizePlain(seq(1999, _ => '\n'));
    LinesOfNewlines(2000);
    LinesOfNewlines(1999);
  }

  /**
   * The diff of two texts. It always rebuilds both sides; within the line limit
   * it is a minimal script with removals first, and it shows no change exactly
   * when the texts agree up to line endings. Over the limit it removes all old
   * lines and adds all new ones.
   */
  method Diff(before: string, after: string) returns (out: seq<DiffLine>)
    ensures Rebuilds(out, SplitLines(before), SplitLines(after))
    ensures RemovalsFirst(out)
    ensures |SplitLines(before)| <= MAX_DIFF_LINES && |SplitLines(after)| <= MAX_DIFF_LINES ==>
      forall other :: Rebuilds(other, SplitLines(before), SplitLines(after)) ==> Cost(out) <= Cost(other)
    ensures |SplitLines(before)| > MAX_DIFF_LINES || |SplitLines(after)| > MAX_DIFF_LINES ==>
      && |out| == |SplitLines(before)| + |SplitLines(after)|
      && forall k :: 0 <= k < |out| ==>
           out[k].op == if k < |SplitLines(before)| then Removed else Added
    ensures !HasChanges(out) <==> ShowsNoChange(before, after)
  {
    hide SplitLines, Normalize, Rebuilds, Cost, HasChanges, RemovalsFirst, Script;
    var a, b := SplitLines(before), SplitLines(after);
    SplitLinesInjective(before, after);
    if |a| > MAX_DIFF_LINES || |b| > MAX_DIFF_LINES {
      ReplaceAll(a, b);
      out := AllOf(Removed, a) + AllOf(Added, b);
      return;
    }
    var lcs := FillTable(a, b);
    out := Walk(a, b, lcs);
    ScriptRebuilds(a, b);
    ScriptRemovalsFirst(a, b);
    NoChangesIffEqual(a, b);
    forall other | Rebuilds(other, a, b) ensures Cost(out) <= Cost(other) {
      ScriptIsMinimal(a, b, other);
    }
  }
}
