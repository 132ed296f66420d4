/**
 * Rewriting a text so that no national identity number is left in it.
 */
module Redaction {
  import opened Text
  import opened NationalId
  import StableSort

  function Marker(detector: Detector): string {
    match detector
    case NoFnr => "[f\U{00F8}dselsnummer fjernet]"
    case SePnr => "[personnummer borttaget]"
    case DkCpr => "[CPR-nummer fjernet]"
  }

  /** The digits of a text, in order. */
  function OnlyDigits(s: string): (r: string)
    ensures |r| <= |s| && DigitsIn(r, 0, |r|)
  {
    if s == "" then ""
    else if IsDigit(s[0]) then [s[0]] + OnlyDigits(s[1..])
    else OnlyDigits(s[1..])
  }

  function Replacement(original: string, detector: Detector, mode: Mode): string {
    if mode == Remove then Marker(detector)
    else
      var digits := OnlyDigits(original);
      if detector == NoFnr then Slice(digits, 0, 6) + "*****"
      else Slice(digits, 0, |digits| - 4) + "-****"
  }

  predicate StartLe(a: Match, b: Match) { a.start <= b.start }

  ghost predicate Inside(text: string, ms: seq<Match>) {
    forall m :: m in ms ==> m.start <= m.end <= |text|
  }

  /** The text from `cursor` on with the matches replaced, skipping any match that
      starts before the end of the one before it. Positions need not lie inside. */
  function Redacted(text: string, ordered: seq<Match>, cursor: nat, mode: Mode): string {
    if ordered == [] then Slice(text, cursor, |text|)
    else
      var m := ordered[0];
      if m.start < cursor then Redacted(text, ordered[1..], cursor, mode)
      else
        Slice(text, cursor, m.start) + Replacement(Slice(text, m.start, m.end), m.detector, mode)
        + Redacted(text, ordered[1..], m.end, mode)
  }

  method RedactNationalIds(text: string, matches: seq<Match>, mode: Mode) returns (out: string)
    ensures out == Redacted(text, StableSort.Sort(matches, StartLe), 0, mode)
  {
    hide Replacement, Slice;
    var ordered := StableSort.Sort(matches, StartLe);
    if matches == [] { return text; }
    out := "";
    var cursor := 0;
    ghost var whole := Redacted(text, ordered, 0, mode);
    assert ordered[0..] == ordered;
    for i := 0 to |ordered|
      invariant cursor >= 0 && whole == out + Redacted(text, ordered[i..], cursor, mode)
    {
      var m := ordered[i];
      RedactedStep(text, ordered, i, cursor, mode);
      if m.start >= cursor {
        var replacement := Replacement(Slice(text, m.start, m.end), m.detector, mode);
        MovePieces(out, Slice(text, cursor, m.start), replacement, Redacted(text, ordered[i + 1..], m.end, mode));
        out := out + Slice(text, cursor, m.start);
        out := out + replacement;
        cursor := m.end;
      }
    }
    out := out + Slice(text, cursor, |text|);
  }

  lemma MovePieces(out: string, a: string, b: string, rest: string)
    ensures out + (a + b + rest) == out + a + b + rest
  {
  }

  lemma RedactedStep(text: string, ordered: seq<Match>, i: nat, cursor: nat, mode: Mode)
    requires i < |ordered|
    ensures Redacted(text, ordered[i..], cursor, mode) ==
      var m := ordered[i];
      if m.start < cursor then Redacted(text, ordered[i + 1..], cursor, mode)
      else
        Slice(text, cursor, m.start) + Replacement(Slice(text, m.start, m.end), m.detector, mode)
        + Redacted(text, ordered[i + 1..], m.end, mode)
  {
    assert ordered[i..][1..] == ordered[i + 1..];
  }

  // ----- What survives -----

  ghost predicate Follows(text: string, ms: seq<Match>, cursor: nat) {
    && cursor <= |text| && Inside(text, ms) && InOrder(ms)
    && forall k :: 0 <= k < |ms| ==> cursor <= ms[k].start <= ms[k].end <= |text|
  }

  lemma FollowsTail(text: string, ms: seq<Match>, cursor: nat)
    requires Follows(text, ms, cursor) && ms != []
    ensures Follows(text, ms[1..], ms[0].end)
  {
    forall k | 0 <= k < |ms[1..]| ensures ms[0].end <= ms[1..][k].start <= ms[1..][k].end <= |text| {
      assert ms[1..][k] == ms[k + 1];
    }
  }

  function Gaps(text: string, ms: seq<Match>, cursor: nat): (r: seq<string>)
    requires Follows(text, ms, cursor)
    ensures |r| == |ms| + 1
    decreases |ms|
  {
    if ms == [] then [text[cursor..]]
    else
      FollowsTail(text, ms, cursor);
      [text[cursor..ms[0].start]] + Gaps(text, ms[1..], ms[0].end)
  }

  ghost function Spans(text: string, ms: seq<Match>): (r: seq<string>)
    requires Inside(text, ms)
    ensures |r| == |ms|
  {
    seq(|ms|, k requires 0 <= k < |ms| => assert ms[k] in ms; text[ms[k].start..ms[k].end])
  }

  ghost function Replacements(text: string, ms: seq<Match>, mode: Mode): (r: seq<string>)
    requires Inside(text, ms)
    ensures |r| == |ms|
  {
    seq(|ms|, k requires 0 <= k < |ms| =>
      assert ms[k] in ms; Replacement(text[ms[k].start..ms[k].end], ms[k].detector, mode))
  }

  lemma {:induction false} WovenTail(text: string, ms: seq<Match>, cursor: nat)
    requires Follows(text, ms, cursor)
    ensures text[cursor..] == Weave(Gaps(text, ms, cursor), Spans(text, ms))
    decreases |ms|
  {
    if ms != [] {
      FollowsTail(text, ms, cursor);
      WovenTail(text, ms[1..], ms[0].end);
      assert Gaps(text, ms, cursor)[1..] == Gaps(text, ms[1..], ms[0].end);
      assert Spans(text, ms)[1..] == Spans(text, ms[1..]);
      CutTwice(text, cursor, ms[0].start, ms[0].end);
    }
  }

  lemma CutTwice(text: string, a: nat, b: nat, c: nat)
    requires a <= b <= c <= |text|
    ensures text[a..] == text[a..b] + text[b..c] + text[c..]
  {
  }

  lemma ReplacementsStep(text: string, ms: seq<Match>, mode: Mode)
    requires ms != [] && Inside(text, ms)
    ensures ms[0].start <= ms[0].end <= |text| && Inside(text, ms[1..])
    ensures var between := Replacements(text, ms, mode);
      && between[0] == Replacement(text[ms[0].start..ms[0].end], ms[0].detector, mode)
      && between[1..] == Replacements(text, ms[1..], mode)
  {
    hide Replacement;
    assert ms[0] in ms;
    assert Replacements(text, ms, mode)[1..] == Replacements(text, ms[1..], mode);
  }

  lemma {:induction false} WovenRedaction(text: string, ms: seq<Match>, cursor: nat, mode: Mode)
    requires Follows(text, ms, cursor)
    ensures Redacted(text, ms, cursor, mode) == Weave(Gaps(text, ms, cursor), Replacements(text, ms, mode))
    decreases |ms|
  {
    hide Replacement, Slice, InOrder;
    if ms != [] {
      FollowsTail(text, ms, cursor);
      WovenRedaction(text, ms[1..], ms[0].end, mode);
      ReplacementsStep(text, ms, mode);
      hide Replacements;
      var gaps := Gaps(text, ms, cursor);
      assert gaps[1..] == Gaps(text, ms[1..], ms[0].end);
    }
  }

  /** The text between the matches survives unchanged and in order: text and
      result weave the same gaps, one with the matches, one with their replacements. */
  lemma OutsideSurvives(text: string, ms: seq<Match>, mode: Mode)
    requires Follows(text, ms, 0)
    ensures text == Weave(Gaps(text, ms, 0), Spans(text, ms))
    ensures Redacted(text, ms, 0, mode) == Weave(Gaps(text, ms, 0), Replacements(text, ms, mode))
  {
    WovenTail(text, ms, 0);
    WovenRedaction(text, ms, 0, mode);
    assert text[0..] == text;
  }

  // ----- What a replacement looks like -----

  predicate NoDigits(s: string) {
    forall k :: 0 <= k < |s| ==> !IsDigit(s[k])
  }

  /** A marker: no digits, and nothing a pattern accepts as a separator in front. */
  predicate IsMarker(s: string) {
    s != "" && s[0] == '[' && NoDigits(s)
  }

  /** Six or eight digits that nothing continues. */
  predicate IsMask(s: string, n: nat) {
    && (n == 6 || n == 8) && n + 1 < |s| && DigitsIn(s, 0, n) && NoDigits(s[n..])
    && (s[n] == '*' || (s[n] == '-' && s[n + 1] == '*'))
  }

  lemma MarkerIsMarker(detector: Detector)
    ensures IsMarker(Marker(detector))
  {
  }

  lemma {:induction false} OnlyDigitsConcat(s: string, t: string)
    ensures OnlyDigits(s + t) == OnlyDigits(s) + OnlyDigits(t)
  {
    if s == "" {
      assert s + t == t;
    } else {
      assert (s + t)[1..] == s[1..] + t;
      OnlyDigitsConcat(s[1..], t);
    }
  }

  lemma {:induction false} OnlyDigitsOfDigits(s: string)
    requires DigitsIn(s, 0, |s|)
    ensures OnlyDigits(s) == s
  {
    if s != "" { OnlyDigitsOfDigits(s[1..]); }
  }

  lemma OnlyDigitsSkip(c: char, s: string)
    requires !IsDigit(c)
    ensures OnlyDigits([c] + s) == OnlyDigits(s)
  {
    assert ([c] + s)[1..] == s;
  }

  /** A shape with a separator, taken apart. */
  lemma Separated(s: string, p: Pattern)
    requires Shape(s, p) && |s| != p.First() + p.Second()
    ensures var a, b, sep := s[..p.First()], s[|s| - p.Second()..], s[p.First()]; s == a + ([sep] + b) && !IsDigit(sep)
  {
  }

  lemma ShapeDigits(s: string, p: Pattern)
    requires Shape(s, p)
    ensures OnlyDigits(s) == GroupDigits(s, p)
  {
    hide OnlyDigits;
    var a, b := s[..p.First()], s[|s| - p.Second()..];
    OnlyDigitsOfDigits(a);
    OnlyDigitsOfDigits(b);
    if |s| == p.First() + p.Second() {
      OnlyDigitsConcat(a, b);
      assert s == a + b;
    } else {
      Separated(s, p);
      OnlyDigitsConcat(a, [s[p.First()]] + b);
      OnlyDigitsSkip(s[p.First()], b);
    }
  }

  /** Masking keeps exactly the digits of the first group, which hold the date of
      birth, and hides the rest; removing leaves the detector's marker. */
  lemma MaskKeepsFirstGroup(text: string, m: Match, p: Pattern)
    requires IsCandidate(text, m) && IsWindow(text, p, m.start, m.end) && (m.detector == NoFnr <==> p == No)
    ensures Replacement(text[m.start..m.end], m.detector, Mask) ==
      text[m.start..m.start + p.First()] + (if m.detector == NoFnr then "*****" else "-****")
    ensures Replacement(text[m.start..m.end], m.detector, Remove) == Marker(m.detector)
  {
    hide OnlyDigits, IsCandidate, Marker;
    var s := text[m.start..m.end];
    ShapeDigits(s, p);
    FirstGroup(text, m.start, m.end, p);
  }

  lemma FirstGroup(text: string, start: nat, end: nat, p: Pattern)
    requires start <= end <= |text| && Shape(text[start..end], p)
    ensures var digits := GroupDigits(text[start..end], p);
      Slice(digits, 0, p.First()) == text[start..start + p.First()] && p.First() == if p == No then 6 else |digits| - 4
  {
    var s := text[start..end];
    SliceOfSlice(text, start, end, 0, p.First());
    assert GroupDigits(s, p)[..p.First()] == s[..p.First()];
  }

  lemma ReplacementShape(text: string, m: Match, mode: Mode)
    requires IsCandidate(text, m)
    ensures var r := Replacement(text[m.start..m.end], m.detector, mode); IsMarker(r) || IsMask(r, 6) || IsMask(r, 8)
  {
    hide Shape, IsMarker, IsMask, OnlyDigits, IsWindow;
    if mode == Remove {
      MarkerIsMarker(m.detector);
    } else {
      var p := CandidateWindow(text, m);
      var s := text[m.start..m.end];
      ShapeDigits(s, p);
      MaskShape(GroupDigits(s, p), p);
    }
  }

  lemma MaskShape(digits: string, p: Pattern)
    requires |digits| == p.First() + p.Second() && DigitsIn(digits, 0, |digits|)
    ensures p.No? ==> IsMask(Slice(digits, 0, 6) + "*****", 6)
    ensures !p.No? ==> IsMask(Slice(digits, 0, |digits| - 4) + "-****", p.First())
  {
    var n := p.First();
    var stars := if p.No? then "*****" else "-****";
    var r := digits[..n] + stars;
    assert r[n..] == stars;
    assert DigitsIn(r, 0, n);
  }

  // ----- No match reaches into a replacement -----

  ghost predicate Placed(out: string, g: nat, r: string) {
    g + |r| <= |out| && out[g..g + |r|] == r && NoDigitAt(out, g - 1)
  }

  lemma NotIntoMarker(out: string, g: nat, r: string, p: Pattern, s: nat, e: nat)
    requires Placed(out, g, r) && IsMarker(r) && IsWindow(out, p, s, e)
    ensures e <= g || g + |r| <= s
  {
    if s <= g < e {
      assert out[g] == r[0];
      WindowDigits(out, p, s, e, g);
    } else if g < s < g + |r| {
      assert out[s] == r[s - g];
      WindowDigits(out, p, s, e, s);
    }
  }

  lemma NotIntoMask(out: string, g: nat, r: string, n: nat, p: Pattern, s: nat, e: nat)
    requires Placed(out, g, r) && IsMask(r, n) && IsWindow(out, p, s, e)
    ensures e <= g || g + |r| <= s
  {
    forall k | 0 <= k < |r| ensures out[g + k] == r[k] {
      assert out[g..g + |r|][k] == r[k];
    }
    if s < g < e {
      // Only a separator can stand at g - 1; the second group would be a run of `n` digits.
      WindowDigits(out, p, s, e, g - 1);
    } else if g <= s < g + |r| && s < e {
      WindowDigits(out, p, s, e, s);
      assert out[s] == r[s - g];
      if s == g {
        assert out[g + n] == r[n] && out[g + n + 1] == r[n + 1];
        WindowDigits(out, p, s, e, g + n);
        WindowDigits(out, p, s, e, g + n + 1);
      }
    }
  }

  // ----- The fixpoint -----

  lemma SubSlice(text: string, part: string, at: nat, i: nat, j: nat)
    requires at + |part| <= |text| && text[at..at + |part|] == part && i <= j <= |part|
    ensures text[at + i..at + j] == part[i..j]
  {
    SliceOfSlice(text, at, at + |part|, i, j);
  }

  lemma Shift(text: string, part: string, at: nat, m: Match)
    requires at + |part| <= |text| && text[at..at + |part|] == part
    requires IsCandidate(part, m)
    requires m.start == 0 ==> NoDigitAt(text, at - 1)
    requires m.end == |part| ==> NoDigitAt(text, at + |part|)
    ensures IsCandidate(text, m.(start := at + m.start, end := at + m.end))
  {
    hide Detects;
    SubSlice(text, part, at, m.start, m.end);
    assert m.start > 0 ==> text[at + m.start - 1] == part[m.start - 1];
    assert m.end < |part| ==> text[at + m.end] == part[m.end];
  }

  /** Part of a candidate's surroundings: the part holding it keeps it. */
  lemma Unshift(text: string, part: string, at: nat, m: Match)
    requires at + |part| <= |text| && text[at..at + |part|] == part
    requires IsCandidate(text, m) && at <= m.start && m.end <= at + |part|
    ensures IsCandidate(part, m.(start := m.start - at, end := m.end - at))
  {
    hide Detects;
    SubSlice(text, part, at, m.start - at, m.end - at);
    assert m.start > at ==> text[m.start - 1] == part[m.start - at - 1];
    assert m.end < at + |part| ==> text[m.end] == part[m.end - at];
  }

  /** A gap holds no wanted candidate: it would stand in the text, outside every match. */
  lemma GapClean(text: string, lo: nat, hi: nat, detectors: seq<Detector>, floor: Confidence, r: seq<Match>)
    requires Found(text, detectors, floor, r) && lo <= hi <= |text|
    requires forall a :: a in r ==> a.end <= lo || hi <= a.start
    requires lo == 0 || NoDigitAt(text, lo)
    requires hi == |text| || NoDigitAt(text, hi - 1)
    ensures Clean(text[lo..hi], detectors, floor)
  {
    hide IsCandidate, RankLe, InOrder;
    forall m | Wanted(detectors, floor, m) ensures !IsCandidate(text[lo..hi], m) {
      if IsCandidate(text[lo..hi], m) {
        GapCandidate(text, lo, hi, m);
      }
    }
  }

  lemma GapCandidate(text: string, lo: nat, hi: nat, m: Match)
    requires lo <= hi <= |text| && IsCandidate(text[lo..hi], m)
    requires lo == 0 || NoDigitAt(text, lo)
    requires hi == |text| || NoDigitAt(text, hi - 1)
    ensures m.start < m.end <= hi - lo && IsCandidate(text, m.(start := lo + m.start, end := lo + m.end))
  {
    var gap := text[lo..hi];
    CandidateEnds(gap, m);
    assert gap[m.start] == text[lo + m.start] && gap[m.end - 1] == text[lo + m.end - 1];
    Shift(text, gap, lo, m);
  }

  lemma CandidateEnds(text: string, m: Match)
    requires IsCandidate(text, m)
    ensures m.start < m.end && IsDigit(text[m.start]) && IsDigit(text[m.end - 1])
  {
    var p := CandidateWindow(text, m);
    WindowDigits(text, p, m.start, m.end, m.start);
    WindowDigits(text, p, m.start, m.end, m.end - 1);
  }

  /** Clean pieces around a replacement make a clean whole. */
  lemma JoinClean(gap: string, r: string, tail: string, detectors: seq<Detector>, floor: Confidence)
    requires Clean(gap, detectors, floor) && Clean(tail, detectors, floor)
    requires IsMarker(r) || IsMask(r, 6) || IsMask(r, 8)
    requires NoDigitAt(gap, |gap| - 1)
    ensures Clean(gap + r + tail, detectors, floor)
  {
    hide Detects, IsMarker, Shape;
    var out, g := gap + r + tail, |gap|;
    assert out[..g] == gap && out[g..g + |r|] == r && out[g + |r|..] == tail;
    assert g > 0 ==> out[g - 1] == gap[g - 1];
    forall m | Wanted(detectors, floor, m) ensures !IsCandidate(out, m) {
      if IsCandidate(out, m) {
        var p := CandidateWindow(out, m);
        if IsMarker(r) {
          NotIntoMarker(out, g, r, p, m.start, m.end);
        } else {
          NotIntoMask(out, g, r, if IsMask(r, 6) then 6 else 8, p, m.start, m.end);
        }
        if m.end <= g {
          assert out[0..0 + g] == gap;
          Unshift(out, gap, 0, m);
        } else {
          var at := g + |r|;
          assert out[at..at + |tail|] == tail;
          assert Wanted(detectors, floor, m.(start := m.start - at, end := m.end - at));
          Unshift(out, tail, at, m);
        }
      }
    }
  }

  ghost predicate BetweenMatches(text: string, ms: seq<Match>, cursor: nat, r: seq<Match>) {
    && Follows(text, ms, cursor) && (cursor == 0 || NoDigitAt(text, cursor))
    && forall a :: a in r ==> a in ms || a.end <= cursor
  }

  lemma BetweenStep(text: string, ms: seq<Match>, cursor: nat, r: seq<Match>)
    requires BetweenMatches(text, ms, cursor, r) && ms != [] && IsCandidate(text, ms[0])
    ensures BetweenMatches(text, ms[1..], ms[0].end, r)
    ensures forall a :: a in r ==> a.end <= cursor || ms[0].start <= a.start
  {
    FollowsTail(text, ms, cursor);
    forall a | a in r ensures a in ms[1..] || a.end <= ms[0].end {
      if a in ms {
        var k :| 0 <= k < |ms| && ms[k] == a;
        assert k > 0 ==> ms[1..][k - 1] == a;
      }
    }
  }

  lemma {:induction false} TailClean(text: string, ms: seq<Match>, cursor: nat, mode: Mode,
                                     detectors: seq<Detector>, floor: Confidence, r: seq<Match>)
    requires Found(text, detectors, floor, r)
    requires forall a :: a in ms ==> a in r
    requires BetweenMatches(text, ms, cursor, r)
    ensures Clean(Redacted(text, ms, cursor, mode), detectors, floor)
    decreases |ms|
  {
    if ms == [] {
      GapClean(text, cursor, |text|, detectors, floor, r);
      assert text[cursor..|text|] == text[cursor..];
    } else {
      var m := ms[0];
      BetweenStep(text, ms, cursor, r);
      TailClean(text, ms[1..], m.end, mode, detectors, floor, r);
      MatchClean(text, m, cursor, Redacted(text, ms[1..], m.end, mode), mode, detectors, floor, r);
    }
  }

  lemma MatchClean(text: string, m: Match, cursor: nat, tail: string, mode: Mode,
                   detectors: seq<Detector>, floor: Confidence, r: seq<Match>)
    requires Found(text, detectors, floor, r) && m in r && cursor <= m.start
    requires cursor == 0 || NoDigitAt(text, cursor)
    requires forall a :: a in r ==> a.end <= cursor || m.start <= a.start
    requires Clean(tail, detectors, floor)
    ensures m.start <= m.end <= |text|
    ensures Clean(text[cursor..m.start] + Replacement(text[m.start..m.end], m.detector, mode) + tail, detectors, floor)
  {
    hide Clean, Replacement, Detects, IsMarker, IsMask, Accepted, Shape;
    GapClean(text, cursor, m.start, detectors, floor, r);
    ReplacementShape(text, m, mode);
    JoinClean(text[cursor..m.start], Replacement(text[m.start..m.end], m.detector, mode), tail, detectors, floor);
  }

  /** Redaction is complete: after the found numbers are rewritten, in either
      mode, the same search has nothing left to find. */
  lemma RedactionIsClean(text: string, detectors: seq<Detector>, floor: Confidence, r: seq<Match>, mode: Mode)
    requires Found(text, detectors, floor, r)
    ensures Follows(text, r, 0)
    ensures Clean(Redacted(text, r, 0, mode), detectors, floor)
  {
    TailClean(text, r, 0, mode, detectors, floor, r);
  }

  /** Find, redact, find again: the second search comes back empty. */
  method RedactText(text: string, detectors: seq<Detector>, floor: Confidence, mode: Mode)
      returns (out: string, again: seq<Match>)
    ensures again == []
    ensures exists r :: Found(text, detectors, floor, r) && Follows(text, r, 0) && out == Redacted(text, r, 0, mode)
  {
    var r := FindNationalIds(text, detectors, floor);
    RedactionIsClean(text, detectors, floor, r, mode);
    InOrderSorted(text, r);
    StableSort.SortIdentity(r, StartLe);
    out := RedactNationalIds(text, r, mode);
    again := FindNationalIds(out, detectors, floor);
    FoundNothing(out, detectors, floor, again);
  }

  lemma FoundNothing(text: string, detectors: seq<Detector>, floor: Confidence, r: seq<Match>)
    requires Found(text, detectors, floor, r) && Clean(text, detectors, floor)
    ensures r == []
  {
    Inhabited(r);
  }

  lemma Inhabited(r: seq<Match>)
    ensures r == [] || exists a :: a in r
  {
    if r != [] { assert r[0] in r; }
  }

  lemma InOrderSorted(text: string, r: seq<Match>)
    requires Follows(text, r, 0)
    ensures StableSort.Sorted(r, StartLe)
  {
  }
}
