/**
 * The string primitives of the host language that the modelled code relies on:
 * white space, trimming, searching, splitting and joining. Strings are sequences
 * of characters.
 */
module Text {

  /** White space in the sense of `\s` and `trim`. */
  predicate IsSpace(c: char) {
    || c == ' ' || '\t' <= c <= '\r' || c == '\U{00A0}' || c == '\U{1680}'
    || '\U{2000}' <= c <= '\U{200A}' || c == '\U{2028}' || c == '\U{2029}' || c == '\U{202F}'
    || c == '\U{205F}' || c == '\U{3000}' || c == '\U{FEFF}'
  }

  /** The characters that `.` does not match in a regular expression. */
  predicate IsLineTerminator(c: char) {
    c == '\n' || c == '\r' || c == '\U{2028}' || c == '\U{2029}'
  }

  predicate IsDigit(c: char) {
    '0' <= c <= '9'
  }

  /** The same classes by code point: the 25 white-space characters of the language,
      the four that end a line, the ten digits. */
  lemma CharacterClasses(c: char)
    ensures IsSpace(c) <==> c as int in {9, 10, 11, 12, 13, 32, 160, 5760, 8192, 8193, 8194, 8195, 8196, 8197, 8198, 8199,
      8200, 8201, 8202, 8232, 8233, 8239, 8287, 12288, 65279}
    ensures IsLineTerminator(c) <==> c as int in {10, 13, 8232, 8233}
    ensures IsDigit(c) <==> 48 <= c as int <= 57
  {
  }

  predicate AllSpace(s: string) {
    forall k :: 0 <= k < |s| ==> IsSpace(s[k])
  }

  /** Number of leading white-space characters. */
  function Lead(s: string): (n: nat)
    ensures n <= |s|
    ensures AllSpace(s[..n])
    ensures n < |s| ==> !IsSpace(s[n])
  {
    if s == "" || !IsSpace(s[0]) then 0 else
      var m := Lead(s[1..]);
      assert forall k :: 0 <= k < m ==> s[1..][..m][k] == s[k + 1];
      1 + m
  }

  /** Number of trailing white-space characters. */
  function Trail(s: string): (n: nat)
    ensures n <= |s|
    ensures AllSpace(s[|s| - n..])
    ensures n < |s| ==> !IsSpace(s[|s| - n - 1])
  {
    if s == "" || !IsSpace(s[|s| - 1]) then 0 else 1 + Trail(s[..|s| - 1])
  }

  lemma {:induction false} TrailStops(s: string, k: nat)
    requires k < |s| && !IsSpace(s[k])
    ensures k < |s| - Trail(s)
  {
    if IsSpace(s[|s| - 1]) { TrailStops(s[..|s| - 1], k); }
  }

  /** Where the trimmed text sits inside `s`, as a half-open range. */
  function TrimRange(s: string): (r: (nat, nat))
    ensures r.0 <= r.1 <= |s|
    ensures AllSpace(s[..r.0]) && AllSpace(s[r.1..])
    ensures r.0 < r.1 ==> !IsSpace(s[r.0]) && !IsSpace(s[r.1 - 1])
    ensures r.0 == r.1 <==> AllSpace(s)
    ensures r.0 == Lead(s)
  {
    var lo := Lead(s);
    if lo == |s| then
      (lo, lo)
    else
      TrailStops(s, lo);
      (lo, |s| - Trail(s))
  }

  /** `s.trim()` */
  function Trim(s: string): (t: string) {
    var r := TrimRange(s);
    s[r.0..r.1]
  }

  /** A visible character lies inside the trimmed range. */
  lemma VisibleInside(s: string, k: nat)
    requires k < |s| && !IsSpace(s[k])
    ensures TrimRange(s).0 <= k < TrimRange(s).1
  {
    var r := TrimRange(s);
    forall j | 0 <= j < r.0 ensures IsSpace(s[j]) {
      assert s[..r.0][j] == s[j];
    }
    forall j | r.1 <= j < |s| ensures IsSpace(s[j]) {
      assert s[r.1..][j - r.1] == s[j];
    }
  }

  lemma TrimOfTrimmed(s: string)
    requires s == "" || (!IsSpace(s[0]) && !IsSpace(s[|s| - 1]))
    ensures Trim(s) == s
  {
    if s != "" {
      assert Lead(s) == 0;
      assert Trail(s) == 0;
    }
  }

  lemma {:induction false} TrailAt(s: string, k: nat)
    requires 0 < k <= |s| && AllSpace(s[k..]) && !IsSpace(s[k - 1])
    ensures |s| - Trail(s) == k
  {
    if k < |s| {
      assert IsSpace(s[k..][|s| - 1 - k]);
      assert forall j :: 0 <= j < |s| - 1 - k ==> s[..|s| - 1][k..][j] == s[k..][j];
      TrailAt(s[..|s| - 1], k);
    }
  }

  /** White space around a text that neither starts nor ends with any is trimmed. */
  lemma TrimPadded(pad: string, s: string, after: string)
    requires AllSpace(pad) && AllSpace(after) && (s == "" || (!IsSpace(s[0]) && !IsSpace(s[|s| - 1])))
    ensures Trim(pad + s + after) == s
  {
    var t := pad + s + after;
    if s == "" {
      assert AllSpace(t);
    } else {
      assert t[|pad|] == s[0] && t[|pad| + |s| - 1] == s[|s| - 1];
      assert t[..|pad|] == pad && t[|pad| + |s|..] == after;
      hide IsSpace, AllSpace;
      LeadAt(t, |pad|);
      TrailAt(t, |pad| + |s|);
      TrimmedAs(t, |pad|, |pad| + |s|);
      assert t[|pad|..|pad| + |s|] == s;
    }
  }

  lemma TrimmedAs(t: string, lo: nat, hi: nat)
    requires lo < hi <= |t| && Lead(t) == lo && |t| - Trail(t) == hi
    ensures Trim(t) == t[lo..hi]
  {
  }

  lemma {:induction false} LeadAt(s: string, k: nat)
    requires k < |s| && AllSpace(s[..k]) && !IsSpace(s[k])
    ensures Lead(s) == k
  {
    if k > 0 {
      assert s[1..][..k - 1] == s[..k][1..];
      assert IsSpace(s[..k][0]);
      LeadAt(s[1..], k - 1);
    }
  }

  /** Trimming stops at the first visible character. */
  lemma TrimAt(s: string, k: nat)
    requires k < |s| && AllSpace(s[..k]) && !IsSpace(s[k])
    ensures Trim(s) != "" && Trim(s)[0] == s[k]
  {
    LeadAt(s, k);
    assert !AllSpace(s);
  }

  /** Where an index points in a text of `n` characters: negative ones count from
      the end, and all are clamped. */
  function Position(n: nat, i: int): (r: nat)
    ensures r <= n && (0 <= i <= n ==> r == i)
  {
    if i > n then n else if i >= 0 then i else if n + i >= 0 then n + i else 0
  }

  /** `s.slice(i, j)` */
  function Slice(s: string, i: int, j: int): (r: string)
    ensures |r| <= |s| && (0 <= i <= j <= |s| ==> r == s[i..j])
  {
    var lo, hi := Position(|s|, i), Position(|s|, j);
    if lo < hi then s[lo..hi] else ""
  }

  predicate StartsWith(s: string, p: string) {
    |p| <= |s| && s[..|p|] == p
  }

  predicate EndsWith(s: string, p: string) {
    |p| <= |s| && s[|s| - |p|..] == p
  }

  /** `p` occurs in `s` at index `k`. */
  predicate OccursAt(s: string, p: string, k: int) {
    0 <= k <= |s| - |p| && s[k..k + |p|] == p
  }

  /** `s.indexOf(p, from)`: the leftmost occurrence at or after `from`, or -1. */
  function IndexOf(s: string, p: string, from: nat): (k: int)
    ensures k == -1 || (from <= k && OccursAt(s, p, k))
    ensures forall j :: from <= j && OccursAt(s, p, j) ==> 0 <= k <= j
    decreases |s| - from
  {
    if from + |p| > |s| then -1
    else if OccursAt(s, p, from) then from
    else IndexOf(s, p, from + 1)
  }

  /** `s.lastIndexOf(p, from)`: the rightmost occurrence at or before `from`, or -1. */
  function LastIndexOf(s: string, p: string, from: int): (k: int)
    requires from <= |s|
    ensures k == -1 || (0 <= k <= from && OccursAt(s, p, k))
    ensures forall j :: j <= from && OccursAt(s, p, j) ==> j <= k
    decreases from + 1
  {
    if from < 0 then -1
    else if OccursAt(s, p, from) then from
    else LastIndexOf(s, p, from - 1)
  }

  /** `s.split(sep)` for a one-character separator. */
  function Split(s: string, sep: char): (parts: seq<string>)
    ensures |parts| >= 1
    ensures forall k :: 0 <= k < |parts| ==> sep !in parts[k]
  {
    if s == "" then [""]
    else
      var rest := Split(s[1..], sep);
      if s[0] == sep then [""] + rest
      else [[s[0]] + rest[0]] + rest[1..]
  }

  /** `parts.join(sep)` */
  function Join(parts: seq<string>, sep: char): string {
    if parts == [] then ""
    else if |parts| == 1 then parts[0]
    else parts[0] + [sep] + Join(parts[1..], sep)
  }

  lemma {:induction false} JoinSplit(s: string, sep: char)
    ensures Join(Split(s, sep), sep) == s
  {
    if s != "" {
      JoinSplit(s[1..], sep);
      var rest := Split(s[1..], sep);
      if s[0] != sep {
        var parts := Split(s, sep);
        assert parts[1..] == rest[1..];
      }
    }
  }

  /** A text without the separator is one part; otherwise parts concatenate. */
  lemma {:induction false} SplitConcat(s: string, t: string, sep: char)
    ensures Split(s + [sep] + t, sep) == Split(s, sep) + Split(t, sep)
  {
    var whole := s + [sep] + t;
    if s == "" {
      assert whole[1..] == t;
    } else {
      assert whole[1..] == s[1..] + [sep] + t;
      SplitConcat(s[1..], t, sep);
    }
  }

  lemma {:induction false} SplitWhole(s: string, sep: char)
    requires sep !in s
    ensures Split(s, sep) == [s]
  {
    if s != "" {
      assert sep !in s[1..];
      SplitWhole(s[1..], sep);
      assert [s[0]] + s[1..] == s;
    }
  }

  /** Pieces of text with other pieces between them. */
  function Weave(gaps: seq<string>, between: seq<string>): string
    requires |gaps| == |between| + 1
  {
    if between == [] then gaps[0] else gaps[0] + between[0] + Weave(gaps[1..], between[1..])
  }

  lemma SliceOfSlice(s: string, a: nat, b: nat, i: nat, j: nat)
    requires a <= b <= |s| && i <= j <= b - a
    ensures s[a..b][i..j] == s[a + i..a + j]
  {
    var left, right := s[a..b][i..j], s[a + i..a + j];
    assert |left| == |right|;
    forall k | 0 <= k < |left| ensures left[k] == right[k] {}
  }

  /** ASCII part of `toLowerCase`. */
  function LowerChar(c: char): char {
    if 'A' <= c <= 'Z' then ((c as int) + 32) as char else c
  }

  function UpperChar(c: char): char {
    if 'a' <= c <= 'z' then ((c as int) - 32) as char else c
  }

  /** `s` spells the lower-case `name`, each letter small or capital. */
  predicate Spells(s: string, name: string) {
    |s| == |name| && forall k :: 0 <= k < |s| ==> s[k] == name[k] || s[k] == UpperChar(name[k])
  }

  lemma LowerConcat(s: string, t: string)
    ensures Lower(s + t) == Lower(s) + Lower(t)
  {
  }

  /** A spelling in any case is recognised by its lower-case form. */
  lemma {:induction false} SpelledLower(s: string, name: string)
    requires Spells(s, name) && forall k :: 0 <= k < |name| ==> !('A' <= name[k] <= 'Z')
    ensures Lower(s) == name
  {
    if s != "" {
      SpelledLower(s[1..], name[1..]);
      assert name == [name[0]] + name[1..];
    }
  }

  function Lower(s: string): (r: string)
    ensures |r| == |s|
    ensures forall k :: 0 <= k < |s| ==> r[k] == LowerChar(s[k])
  {
    if s == "" then "" else [LowerChar(s[0])] + Lower(s[1..])
  }
}
