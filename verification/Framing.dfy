/**
 * Neutralising the framing tags that untrusted text might contain: every `<` in
 * something that reads as a reserved tag becomes `&lt;`.
 */
module Framing {
  import opened Text

  const RESERVED: seq<string> := ["data", "tool_result", "company_context", "source_page", "quoted_history"]

  predicate IsWord(c: char) {
    'a' <= c <= 'z' || 'A' <= c <= 'Z' || '0' <= c <= '9' || c == '_'
  }

  /** Word characters: three ranges and the underscore, and nothing next to them. */
  lemma WordRanges(c: char)
    ensures IsWord('a') && IsWord('z') && IsWord('A') && IsWord('Z') && IsWord('0') && IsWord('9') && IsWord('_')
    ensures IsWord(c) <==> '/' < c < ':' || '@' < c < '[' || c == '_' || '`' < c < '{'
  {
  }

  // ----- The tag pattern, declaratively -----

  predicate SpaceIn(text: string, lo: nat, hi: nat) {
    hi <= |text| && forall k :: lo <= k < hi ==> IsSpace(text[k])
  }

  /** A reserved name, in any case, stands at `k` and ends at `h` at a word boundary. */
  predicate NameAt(text: string, k: nat, h: nat) {
    k <= h <= |text| && Lower(text[k..h]) in RESERVED && (h == |text| || !IsWord(text[h]))
  }

  /** `<`, white space, perhaps a slash and more white space, then a reserved name. */
  ghost predicate IsHead(text: string, i: nat, h: nat) {
    exists j: nat, k: nat :: HeadParts(text, i, j, k, h)
  }

  predicate HeadParts(text: string, i: nat, j: nat, k: nat, h: nat) {
    && i < j <= k <= h <= |text| && text[i] == '<' && SpaceIn(text, i + 1, j)
    && (j == k || (text[j] == '/' && SpaceIn(text, j + 1, k)))
    && NameAt(text, k, h)
  }

  /** A framing tag: a head, then anything up to the first `>`. */
  ghost predicate IsTag(text: string, i: nat, e: nat) {
    exists h: nat :: IsHead(text, i, h) && Closes(text, h, e)
  }

  /** The first `>` at or after `h` is the last character before `e`. */
  predicate Closes(text: string, h: nat, e: nat) {
    h < e <= |text| && text[e - 1] == '>' && '>' !in text[h..e - 1]
  }

  ghost predicate TagFree(text: string) {
    forall i: nat, e: nat :: !IsTag(text, i, e)
  }

  // ----- Matching at a position -----

  function SkipSpace(text: string, i: nat): (j: nat)
    requires i <= |text|
    ensures i <= j <= |text| && SpaceIn(text, i, j) && (j < |text| ==> !IsSpace(text[j]))
    decreases |text| - i
  {
    if i < |text| && IsSpace(text[i]) then SkipSpace(text, i + 1) else i
  }

  /** End of the reserved name at `k`, or -1. */
  function NameEnd(text: string, k: nat): (h: int)
    requires k <= |text|
    ensures h >= 0 ==> NameAt(text, k, h)
  {
    if k + 4 <= |text| && NameAt(text, k, k + 4) then k + 4
    else if k + 11 <= |text| && NameAt(text, k, k + 11) then k + 11
    else if k + 15 <= |text| && NameAt(text, k, k + 15) then k + 15
    else if k + 14 <= |text| && NameAt(text, k, k + 14) then k + 14
    else -1
  }

  function HeadEnd(text: string, i: nat): int
    requires i < |text|
  {
    if text[i] != '<' then -1
    else
      var j := SkipSpace(text, i + 1);
      NameEnd(text, if j < |text| && text[j] == '/' then SkipSpace(text, j + 1) else j)
  }

  function TagEnd(text: string, i: nat): int
    requires i < |text|
  {
    var h := HeadEnd(text, i);
    if h < 0 then -1
    else
      var close := IndexOf(text, ">", h);
      if close < 0 then -1 else close + 1
  }

  lemma NameLengths(text: string, k: nat, h: nat)
    requires NameAt(text, k, h)
    ensures h == k + 4 || h == k + 11 || h == k + 14 || h == k + 15
    ensures !IsSpace(text[k]) && text[k] != '/'
    ensures forall m :: k <= m < h ==> IsWord(text[m])
  {
    var name := Lower(text[k..h]);
    assert forall m :: 0 <= m < |name| ==> name[m] == LowerChar(text[k + m]);
    NameChars(name);
    forall m | k <= m < h ensures IsWord(text[m]) {
      assert IsWord(name[m - k]);
    }
  }

  lemma NameChars(name: string)
    requires name in RESERVED
    ensures |name| == 4 || |name| == 11 || |name| == 14 || |name| == 15
    ensures forall m :: 0 <= m < |name| ==> 'a' <= name[m] <= 'z' || name[m] == '_'
  {
  }

  lemma NameUnique(text: string, k: nat, h: nat)
    requires NameAt(text, k, h)
    ensures NameEnd(text, k) == h
  {
    NameLengths(text, k, h);
    var e := NameEnd(text, k);
    NameLengths(text, k, e);
  }

  lemma SkipSpaceUnique(text: string, i: nat, j: nat)
    requires i <= j < |text| && SpaceIn(text, i, j) && !IsSpace(text[j])
    ensures SkipSpace(text, i) == j
  {
  }

  lemma HeadFound(text: string, i: nat, j: nat, k: nat, h: nat)
    requires HeadParts(text, i, j, k, h)
    ensures HeadEnd(text, i) == h
  {
    hide NameAt, Lower;
    NameLengths(text, k, h);
    NameUnique(text, k, h);
    SkipSpaceUnique(text, i + 1, j);
    if j < k { SkipSpaceUnique(text, j + 1, k); }
  }

  lemma HeadSound(text: string, i: nat)
    requires i < |text| && HeadEnd(text, i) >= 0
    ensures IsHead(text, i, HeadEnd(text, i))
  {
    var j := SkipSpace(text, i + 1);
    var k := if j < |text| && text[j] == '/' then SkipSpace(text, j + 1) else j;
    assert HeadParts(text, i, j, k, HeadEnd(text, i));
  }

  /** The matcher finds the one head that starts at `i`, if there is one. */
  lemma HeadUnique(text: string, i: nat, h: nat)
    requires i < |text|
    ensures IsHead(text, i, h) <==> HeadEnd(text, i) == h
  {
    if IsHead(text, i, h) {
      var j: nat, k: nat :| HeadParts(text, i, j, k, h);
      HeadFound(text, i, j, k, h);
    } else if HeadEnd(text, i) == h {
      HeadSound(text, i);
    }
  }

  lemma ClosesIsFirst(text: string, h: nat, e: nat)
    requires h <= |text|
    ensures Closes(text, h, e) <==> e > 0 && IndexOf(text, ">", h) == e - 1
  {
    var k := IndexOf(text, ">", h);
    if Closes(text, h, e) {
      assert OccursAt(text, ">", e - 1);
      assert text[k] == text[k..k + 1][0] == '>';
    } else if e > 0 && k == e - 1 {
      assert text[k] == text[k..k + 1][0] == '>';
      forall j | h <= j < k ensures text[j] != '>' {
        assert text[j] == '>' ==> OccursAt(text, ">", j);
      }
    }
  }

  /** The matcher finds the one tag that starts at `i`, if there is one. */
  lemma TagUnique(text: string, i: nat, e: nat)
    requires i < |text|
    ensures IsTag(text, i, e) <==> TagEnd(text, i) == e
  {
    if IsTag(text, i, e) {
      var h: nat :| IsHead(text, i, h) && Closes(text, h, e);
      HeadUnique(text, i, h);
      ClosesIsFirst(text, h, e);
    } else if TagEnd(text, i) == e {
      var h := HeadEnd(text, i);
      HeadUnique(text, i, h);
      HeadBounds(text, i, h);
      ClosesIsFirst(text, h, e);
    }
  }

  lemma HeadBounds(text: string, i: nat, h: nat)
    requires IsHead(text, i, h)
    ensures i < h <= |text| && text[i] == '<'
  {
  }

  lemma TagBounds(text: string, i: nat)
    requires i < |text| && TagEnd(text, i) >= 0
    ensures i < TagEnd(text, i) <= |text| && text[i] == '<'
  {
    TagUnique(text, i, TagEnd(text, i));
  }

  // ----- Neutralising -----

  function Escape(s: string): string {
    if s == "" then "" else (if s[0] == '<' then "&lt;" else [s[0]]) + Escape(s[1..])
  }

  /** Replaces, from left to right, each tag by its escaped form. */
  function NeutralizeFrom(text: string, i: nat): string
    requires i <= |text|
    decreases |text| - i
  {
    if i == |text| then ""
    else
      var e := TagEnd(text, i);
      if e < 0 then [text[i]] + NeutralizeFrom(text, i + 1)
      else
        TagBounds(text, i);
        Escape(text[i..e]) + NeutralizeFrom(text, e)
  }

  function NeutralizeFraming(text: string): string {
    NeutralizeFrom(text, 0)
  }

  /** How a tag can be written: white space around an optional slash, one of the
      five names in any case, then anything that ends the word, up to the first `>`. */
  lemma TagWritten(before: string, slash: string, after: string, spelled: string, name: string, rest: string)
    requires SpaceIn(before, 0, |before|) && SpaceIn(after, 0, |after|) && (slash == "/" || (slash == "" && after == ""))
    requires name in {"data", "tool_result", "company_context", "source_page", "quoted_history"} && Spells(spelled, name)
    requires '>' !in rest && (rest == "" || !IsWord(rest[0]))
    ensures var text := "<" + before + slash + after + spelled + rest + ">";
      IsTag(text, 0, |text|) && NeutralizeFraming(text) == Escape(text)
  {
    var text := "<" + before + slash + after + spelled + rest + ">";
    var j := 1 + |before|;
    var k := j + |slash| + |after|;
    var h := k + |spelled|;
    NameSpelled(text, k, h, spelled, name, rest);
    hide NameAt, Spells, IsSpace, NeutralizeFraming, Escape;
    FrontParts(before, slash, after, spelled + rest + ">");
    assert "<" + before + slash + after + (spelled + rest + ">") == text;
    assert HeadParts(text, 0, j, k, h);
    assert text[h..|text| - 1] == rest;
    assert Closes(text, h, |text|);
    assert IsTag(text, 0, |text|);
    TagUnique(text, 0, |text|);
    WholeTag(text);
  }

  lemma FrontParts(before: string, slash: string, after: string, tail: string)
    requires SpaceIn(before, 0, |before|) && SpaceIn(after, 0, |after|) && (slash == "/" || (slash == "" && after == ""))
    ensures var text, j := "<" + before + slash + after + tail, 1 + |before|;
      && text[0] == '<' && SpaceIn(text, 1, j)
      && (slash == "/" ==> text[j] == '/' && SpaceIn(text, j + 1, j + 1 + |after|))
  {
    hide IsSpace;
    var text, j := "<" + before + slash + after + tail, 1 + |before|;
    assert forall m :: 1 <= m < j ==> text[m] == before[m - 1];
    assert forall m :: j + |slash| <= m < j + |slash| + |after| ==> text[m] == after[m - j - |slash|];
  }

  lemma WholeTag(text: string)
    requires text != "" && TagEnd(text, 0) == |text|
    ensures NeutralizeFraming(text) == Escape(text)
  {
    hide TagEnd, Escape;
    assert text[0..|text|] == text && NeutralizeFrom(text, |text|) == "";
    assert NeutralizeFrom(text, 0) == Escape(text[0..|text|]) + NeutralizeFrom(text, |text|);
  }

  lemma NameSpelled(text: string, k: nat, h: nat, spelled: string, name: string, rest: string)
    requires name in {"data", "tool_result", "company_context", "source_page", "quoted_history"} && Spells(spelled, name)
    requires k <= h < |text| && text[k..h] == spelled
    requires text[h] == if rest == "" then '>' else rest[0]
    requires rest == "" || !IsWord(rest[0])
    ensures NameAt(text, k, h)
  {
    assert name in RESERVED;
    NameChars(name);
    SpelledLower(spelled, name);
  }

  // ----- The result holds no tag -----

  lemma {:induction false} EscapeChars(s: string)
    ensures '<' !in Escape(s)
    ensures '>' in Escape(s) ==> '>' in s
  {
    if s != "" { EscapeChars(s[1..]); }
  }

  /** `parts.join(sep)` for a string separator. */
  function JoinWith(parts: seq<string>, sep: string): string {
    if parts == [] then "" else if |parts| == 1 then parts[0] else parts[0] + sep + JoinWith(parts[1..], sep)
  }

  /** Escaping puts `&lt;` for every `<` and changes nothing else. */
  lemma {:induction false} EscapeReplacesBrackets(s: string)
    ensures Escape(s) == JoinWith(Split(s, '<'), "&lt;")
  {
    if s != "" {
      EscapeReplacesBrackets(s[1..]);
      var rest := Split(s[1..], '<');
      if s[0] == '<' {
        assert Split(s, '<')[1..] == rest;
      } else {
        var parts := Split(s, '<');
        assert parts[0] == [s[0]] + rest[0] && parts[1..] == rest[1..];
        PrefixFirst([s[0]], rest, "&lt;");
      }
    }
  }

  lemma PrefixFirst(c: string, parts: seq<string>, sep: string)
    requires parts != []
    ensures JoinWith([c + parts[0]] + parts[1..], sep) == c + JoinWith(parts, sep)
  {
    var more := [c + parts[0]] + parts[1..];
    assert more[1..] == parts[1..];
    if |parts| > 1 {
      assert c + parts[0] + sep + JoinWith(parts[1..], sep) == c + (parts[0] + sep + JoinWith(parts[1..], sep));
    }
  }

  /** As long as no `&` shows up, the result repeats the text. */
  lemma {:induction false} Verbatim(text: string, i: nat, n: nat)
    requires i <= |text| && n <= |NeutralizeFrom(text, i)| && '&' !in NeutralizeFrom(text, i)[..n]
    ensures i + n <= |text| && NeutralizeFrom(text, i) == text[i..i + n] + NeutralizeFrom(text, i + n)
    decreases n
  {
    hide TagEnd;
    if n > 0 {
      var out, rest := NeutralizeFrom(text, i), NeutralizeFrom(text, i + 1);
      PlainStep(text, i, n);
      ShorterPrefix(text[i], rest, n);
      Verbatim(text, i + 1, n - 1);
      PrependSlice(text, i, n, NeutralizeFrom(text, i + n));
    }
  }

  /** A character other than `&` was copied, not escaped. */
  lemma PlainStep(text: string, i: nat, n: nat)
    requires i <= |text| && 0 < n <= |NeutralizeFrom(text, i)| && '&' !in NeutralizeFrom(text, i)[..n]
    ensures i < |text| && TagEnd(text, i) < 0
    ensures NeutralizeFrom(text, i) == [text[i]] + NeutralizeFrom(text, i + 1)
  {
    var out := NeutralizeFrom(text, i);
    assert out[0] == out[..n][0];
    if i < |text| && TagEnd(text, i) >= 0 { TagBounds(text, i); }
  }

  lemma ShorterPrefix(c: char, rest: string, n: nat)
    requires 0 < n <= |rest| + 1 && '&' !in ([c] + rest)[..n]
    ensures '&' !in rest[..n - 1]
  {
    assert ([c] + rest)[..n] == [c] + rest[..n - 1];
  }

  lemma PrependSlice(text: string, i: nat, n: nat, tail: string)
    requires 0 < n && i + n <= |text|
    ensures [text[i]] + (text[i + 1..i + 1 + (n - 1)] + tail) == text[i..i + n] + tail
  {
    assert text[i..i + n] == [text[i]] + text[i + 1..i + n];
  }

  lemma TagNeedsCloser(text: string, i: nat)
    requires i < |text| && '>' !in text[i..]
    ensures TagEnd(text, i) < 0
  {
    var e := TagEnd(text, i);
    if e >= 0 {
      TagUnique(text, i, e);
    }
  }

  /** Without a closing bracket ahead nothing changes. */
  lemma {:induction false} UnclosedVerbatim(text: string, i: nat)
    requires i <= |text| && '>' !in text[i..]
    ensures NeutralizeFrom(text, i) == text[i..]
    decreases |text| - i
  {
    if i < |text| {
      TagNeedsCloser(text, i);
      assert text[i..][1..] == text[i + 1..];
      UnclosedVerbatim(text, i + 1);
    }
  }

  /** If the result starts with a tag, so does the text it was made from. */
  lemma FrontTag(text: string, i: nat, e: nat)
    requires i < |text| && IsTag(NeutralizeFrom(text, i), 0, e)
    ensures TagEnd(text, i) >= 0
  {
    hide NeutralizeFrom, TagEnd, IsHead;
    var out := NeutralizeFrom(text, i);
    var h: nat :| IsHead(out, 0, h) && Closes(out, h, e);
    HeadVerbatim(text, i, h);
    var rest := NeutralizeFrom(text, i + h);
    CloserBehind(text[i..i + h], rest, e);
    HeadMoves(text, i, out, rest, h);
    CloserKept(text, i + h);
    OpenTag(text, i, i + h);
  }

  lemma CloserBehind(front: string, rest: string, e: nat)
    requires Closes(front + rest, |front|, e)
    ensures '>' in rest
  {
    assert rest[e - 1 - |front|] == (front + rest)[e - 1];
  }

  lemma OpenTag(text: string, i: nat, h: nat)
    requires i < |text| && IsHead(text, i, h) && h <= |text| && '>' in text[h..]
    ensures TagEnd(text, i) >= 0
  {
    hide TagEnd, IsHead, Closes;
    FirstCloser(text, h);
    TagUnique(text, i, IndexOf(text, ">", h) + 1);
  }

  /** Closing brackets in the result come from the text. */
  lemma CloserKept(text: string, i: nat)
    requires i <= |text| && '>' in NeutralizeFrom(text, i)
    ensures '>' in text[i..]
  {
    if '>' !in text[i..] { UnclosedVerbatim(text, i); }
  }

  lemma FirstCloser(text: string, h: nat)
    requires h <= |text| && '>' in text[h..]
    ensures IndexOf(text, ">", h) >= 0 && Closes(text, h, IndexOf(text, ">", h) + 1)
  {
    var k :| 0 <= k < |text[h..]| && text[h..][k] == '>';
    assert OccursAt(text, ">", h + k);
    ClosesIsFirst(text, h, IndexOf(text, ">", h) + 1);
  }

  lemma NoAmpersand(out: string, j: nat, k: nat, h: nat)
    requires HeadParts(out, 0, j, k, h)
    ensures '&' !in out[..h]
  {
    NameLengths(out, k, h);
    forall m | 0 <= m < h ensures out[m] != '&' {
    }
  }

  /** A head depends only on its own characters and the word boundary behind it. */
  lemma PartsShift(s: string, i: nat, j: nat, k: nat, h: nat, t: string, at: nat)
    requires HeadParts(s, i, j, k, h)
    requires at + h - i <= |t| && t[at..at + h - i] == s[i..h]
    requires at + h - i == |t| || !IsWord(t[at + h - i])
    ensures HeadParts(t, at, at + j - i, at + k - i, at + h - i)
  {
    forall x | at <= x < at + h - i ensures t[x] == s[x - at + i] {
      assert t[at..at + h - i][x - at] == s[i..h][x - at];
    }
    assert t[at + k - i..at + h - i] == s[k..h];
    assert j < k ==> t[at + j - i] == '/' && SpaceIn(t, at + j - i + 1, at + k - i);
  }

  lemma HeadVerbatim(text: string, i: nat, h: nat)
    requires i <= |text| && IsHead(NeutralizeFrom(text, i), 0, h)
    ensures i + h <= |text| && NeutralizeFrom(text, i) == text[i..i + h] + NeutralizeFrom(text, i + h)
  {
    hide NeutralizeFrom;
    var out := NeutralizeFrom(text, i);
    var j: nat, k: nat :| HeadParts(out, 0, j, k, h);
    NoAmpersand(out, j, k, h);
    Verbatim(text, i, h);
  }

  lemma HeadShift(out: string, h: nat, text: string, i: nat)
    requires IsHead(out, 0, h) && i + h <= |text| && h <= |out| && out[..h] == text[i..i + h]
    requires i + h == |text| || !IsWord(text[i + h])
    ensures IsHead(text, i, i + h)
  {
    hide HeadParts;
    var j: nat, k: nat :| HeadParts(out, 0, j, k, h);
    assert out[0..h] == text[i..i + h];
    PartsShift(out, 0, j, k, h, text, i);
  }

  lemma HeadBoundary(out: string, h: nat)
    requires IsHead(out, 0, h)
    ensures h <= |out| && (h == |out| || !IsWord(out[h]))
  {
  }

  /** A head at the front of the result is a head of the text: it has no `&`. */
  lemma HeadMoves(text: string, i: nat, out: string, rest: string, h: nat)
    requires i <= |text| && out == NeutralizeFrom(text, i) && IsHead(out, 0, h)
    requires i + h <= |text| && rest == NeutralizeFrom(text, i + h) && out == text[i..i + h] + rest
    ensures IsHead(text, i, i + h)
  {
    hide NeutralizeFrom, IsHead;
    HeadBoundary(out, h);
    BoundaryMoves(text, i, h);
    assert out[..h] == text[i..i + h];
    HeadShift(out, h, text, i);
  }

  lemma BoundaryMoves(text: string, i: nat, h: nat)
    requires i + h <= |text| && NeutralizeFrom(text, i) == text[i..i + h] + NeutralizeFrom(text, i + h)
    requires var out := NeutralizeFrom(text, i); h == |out| || !IsWord(out[h])
    ensures i + h == |text| || !IsWord(text[i + h])
  {
    hide NeutralizeFrom, TagEnd;
    if i + h < |text| {
      ProgressFrom(text, i + h);
      NextChar(text, i + h);
    }
  }

  lemma ProgressFrom(text: string, i: nat)
    requires i < |text|
    ensures NeutralizeFrom(text, i) != ""
  {
    if TagEnd(text, i) >= 0 { TagBounds(text, i); }
  }

  /** The next character of the result stands for itself or for an escaped `<`. */
  lemma NextChar(text: string, i: nat)
    requires i <= |text| && NeutralizeFrom(text, i) != ""
    ensures i < |text|
    ensures NeutralizeFrom(text, i)[0] == text[i] || text[i] == '<'
  {
    if i < |text| && TagEnd(text, i) >= 0 { TagBounds(text, i); }
  }

  lemma TagInSuffix(a: string, b: string, i: nat, e: nat)
    requires IsTag(a + b, i, e) && i >= |a|
    ensures e >= |a| && IsTag(b, i - |a|, e - |a|)
  {
    var h: nat :| IsHead(a + b, i, h) && Closes(a + b, h, e);
    HeadInSuffix(a, b, i, h);
    ClosesInSuffix(a, b, h, e);
  }

  lemma ClosesInSuffix(a: string, b: string, h: nat, e: nat)
    requires Closes(a + b, h, e) && h >= |a|
    ensures Closes(b, h - |a|, e - |a|)
  {
    assert b[h - |a|..e - 1 - |a|] == (a + b)[h..e - 1];
  }

  lemma HeadInSuffix(a: string, b: string, i: nat, h: nat)
    requires IsHead(a + b, i, h) && i >= |a|
    ensures h >= |a| && IsHead(b, i - |a|, h - |a|)
  {
    hide Lower, SpaceIn;
    var s, n := a + b, |a|;
    var j: nat, k: nat :| HeadParts(s, i, j, k, h);
    assert b[i - n..h - n] == s[i..h];
    PartsShift(s, i, j, k, h, b, i - n);
  }

  lemma {:induction false} TailTagFree(text: string, i: nat)
    requires i <= |text|
    ensures TagFree(NeutralizeFrom(text, i))
    decreases |text| - i
  {
    var out := NeutralizeFrom(text, i);
    if i < |text| {
      var e := TagEnd(text, i);
      var a, next := if e < 0 then [text[i]] else Escape(text[i..e]), if e < 0 then i + 1 else e;
      if e >= 0 {
        TagBounds(text, i);
        EscapeChars(text[i..e]);
      }
      TailTagFree(text, next);
      var b := NeutralizeFrom(text, next);
      forall p: nat, q: nat ensures !IsTag(out, p, q) {
        if IsTag(out, p, q) {
          StepTag(text, i, a, b, p, q);
        }
      }
    }
  }

  /** A tag in the result starts behind the piece just written. */
  lemma StepTag(text: string, i: nat, a: string, b: string, p: nat, q: nat)
    requires i < |text| && NeutralizeFrom(text, i) == a + b
    requires if TagEnd(text, i) < 0 then |a| == 1 else '<' !in a
    requires IsTag(a + b, p, q)
    ensures p >= |a| && IsTag(b, p - |a|, q - |a|)
  {
    hide NeutralizeFrom, TagEnd, Closes, IsHead;
    if p < |a| {
      var h: nat :| IsHead(a + b, p, h) && Closes(a + b, h, q);
      HeadBounds(a + b, p, h);
      assert a[p] == '<';
      FrontTag(text, i, q);
    } else {
      TagInSuffix(a, b, p, q);
    }
  }

  /** The result of neutralising holds no framing tag. */
  lemma NeutralizedTagFree(text: string)
    ensures TagFree(NeutralizeFraming(text))
  {
    TailTagFree(text, 0);
  }

  lemma {:induction false} TagFreeVerbatim(text: string, i: nat)
    requires i <= |text| && TagFree(text)
    ensures NeutralizeFrom(text, i) == text[i..]
    decreases |text| - i
  {
    if i < |text| {
      var e := TagEnd(text, i);
      if e >= 0 { TagUnique(text, i, e); }
      hide TagEnd, Escape, TagFree;
      TagFreeVerbatim(text, i + 1);
      assert text[i..] == [text[i]] + text[i + 1..];
    }
  }

  /** Tag-free text is left alone, so neutralising twice is neutralising once. */
  lemma NeutralizeIdempotent(text: string)
    ensures TagFree(text) ==> NeutralizeFraming(text) == text
    ensures NeutralizeFraming(NeutralizeFraming(text)) == NeutralizeFraming(text)
  {
    if TagFree(text) {
      TagFreeVerbatim(text, 0);
      assert text[0..] == text;
    }
    NeutralizedTagFree(text);
    var out := NeutralizeFraming(text);
    TagFreeVerbatim(out, 0);
    assert out[0..] == out;
  }

  // ----- What changes -----

  /** The tags the scan meets from `i` on, and the text between them. */
  function TagsFrom(text: string, i: nat): (r: (seq<string>, seq<string>))
    requires i <= |text|
    ensures |r.0| == |r.1| + 1
    decreases |text| - i
  {
    if i == |text| then ([""], [])
    else
      var e := TagEnd(text, i);
      if e < 0 then
        var r := TagsFrom(text, i + 1);
        (r.0[0 := [text[i]] + r.0[0]], r.1)
      else
        TagBounds(text, i);
        var r := TagsFrom(text, e);
        ([""] + r.0, [text[i..e]] + r.1)
  }

  function EscapeAll(tags: seq<string>): (r: seq<string>)
    ensures |r| == |tags|
    ensures forall k :: 0 <= k < |tags| ==> r[k] == Escape(tags[k])
  {
    seq(|tags|, k requires 0 <= k < |tags| => Escape(tags[k]))
  }

  lemma WeaveHead(c: string, gaps: seq<string>, between: seq<string>)
    requires |gaps| == |between| + 1
    ensures Weave(gaps[0 := c + gaps[0]], between) == c + Weave(gaps, between)
  {
    if between != [] {
      assert gaps[0 := c + gaps[0]][1..] == gaps[1..];
      assert c + (gaps[0] + between[0] + Weave(gaps[1..], between[1..]))
          == (c + gaps[0]) + between[0] + Weave(gaps[1..], between[1..]);
    }
  }

  lemma {:induction false} OnlyTagsChangeFrom(text: string, i: nat)
    requires i <= |text|
    ensures var (gaps, tags) := TagsFrom(text, i);
      && text[i..] == Weave(gaps, tags)
      && NeutralizeFrom(text, i) == Weave(gaps, EscapeAll(tags))
    decreases |text| - i
  {
    hide TagEnd, Escape;
    if i < |text| {
      var e := TagEnd(text, i);
      if e < 0 {
        OnlyTagsChangeFrom(text, i + 1);
        var (gaps, tags) := TagsFrom(text, i + 1);
        WeaveHead([text[i]], gaps, tags);
        WeaveHead([text[i]], gaps, EscapeAll(tags));
        assert text[i..] == [text[i]] + text[i + 1..];
      } else {
        TagBounds(text, i);
        OnlyTagsChangeFrom(text, e);
        var (gaps, tags) := TagsFrom(text, e);
        WeaveTag(text[i..e], gaps, tags);
        WeaveTag(Escape(text[i..e]), gaps, EscapeAll(tags));
        assert EscapeAll([text[i..e]] + tags) == [Escape(text[i..e])] + EscapeAll(tags);
        assert text[i..] == text[i..e] + text[e..];
      }
    }
  }

  lemma WeaveTag(tag: string, gaps: seq<string>, tags: seq<string>)
    requires |gaps| == |tags| + 1
    ensures Weave([""] + gaps, [tag] + tags) == tag + Weave(gaps, tags)
  {
    var g, b := [""] + gaps, [tag] + tags;
    assert g[0] == "" && b[0] == tag && g[1..] == gaps && b[1..] == tags;
    assert g[0] + b[0] == tag;
  }

  lemma {:induction false} ScannedTags(text: string, i: nat)
    requires i <= |text|
    ensures forall tag :: tag in TagsFrom(text, i).1 ==> exists s: nat, e: nat :: IsTag(text, s, e) && tag == text[s..e]
    decreases |text| - i
  {
    hide TagEnd, IsTag;
    if i < |text| {
      var e := TagEnd(text, i);
      if e < 0 {
        ScannedTags(text, i + 1);
      } else {
        TagBounds(text, i);
        TagUnique(text, i, e);
        ScannedTags(text, e);
      }
    }
  }

  /** Text and result are the same gaps, woven with tags of the text in one and
      with the same tags, `<` escaped, in the other. */
  lemma OnlyTagsChange(text: string)
    ensures var (gaps, tags) := TagsFrom(text, 0);
      && text == Weave(gaps, tags)
      && NeutralizeFraming(text) == Weave(gaps, EscapeAll(tags))
      && forall tag :: tag in tags ==> exists s: nat, e: nat :: IsTag(text, s, e) && tag == text[s..e]
  {
    OnlyTagsChangeFrom(text, 0);
    ScannedTags(text, 0);
    assert text[0..] == text;
  }
}
