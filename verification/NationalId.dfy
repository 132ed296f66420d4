/**
 * Finding national identity numbers in a text, resolving overlaps between the
 * detectors, and rewriting the text without them.
 */
module NationalId {
  import opened Text
  import opened CheckDigits
  import StableSort

  datatype Detector = NoFnr | SePnr | DkCpr
  datatype Confidence = High | Medium
  datatype Match = Match(detector: Detector, confidence: Confidence, start: nat, end: nat)
  datatype Mode = Mask | Remove

  // ----- Shapes: the three regular expressions -----

  /** `first` digits, an optional separator, `second` digits. */
  datatype Pattern = No | Short | Long {
    function First(): nat { if this.Long? then 8 else 6 }
    function Second(): nat { if this.No? then 5 else 4 }
    predicate Separator(c: char) {
      c == '-' || (if this.No? then c == ' ' else c == '+')
    }
  }

  predicate DigitsIn(s: string, lo: nat, hi: nat) {
    hi <= |s| && forall k :: lo <= k < hi ==> IsDigit(s[k])
  }

  predicate Shape(s: string, p: Pattern) {
    || (|s| == p.First() + p.Second() && DigitsIn(s, 0, |s|))
    || (|s| == p.First() + 1 + p.Second() && DigitsIn(s, 0, p.First()) && p.Separator(s[p.First()])
        && DigitsIn(s, p.First() + 1, |s|))
  }

  predicate NoDigitAt(text: string, i: int) {
    i < 0 || i >= |text| || !IsDigit(text[i])
  }

  /** The pattern matches exactly `text[start..end]`; a match touches no other digit. */
  predicate IsWindow(text: string, p: Pattern, start: nat, end: nat) {
    start <= end <= |text| && Shape(text[start..end], p) && NoDigitAt(text, start - 1) && NoDigitAt(text, end)
  }

  /** The digits of the two groups, without the separator. */
  function GroupDigits(s: string, p: Pattern): (r: string)
    requires Shape(s, p)
    ensures |r| == p.First() + p.Second() && DigitsIn(r, 0, |r|)
  {
    s[..p.First()] + s[|s| - p.Second()..]
  }

  // ----- Detectors -----

  /** Which patterns a detector looks for. */
  predicate Uses(detector: Detector, p: Pattern) {
    if detector.NoFnr? then p.No? else p.Short? || (detector.SePnr? && p.Long?)
  }

  function ConfidenceOf(detector: Detector, p: Pattern, s: string): Confidence
    requires Shape(s, p)
  {
    if !p.Short? || (|s| == 11 && (detector.SePnr? || s[6] == '-')) then High else Medium
  }

  predicate PassesCheck(detector: Detector, p: Pattern, s: string)
    requires Uses(detector, p) && Shape(s, p)
  {
    var digits := ToDigits(GroupDigits(s, p));
    match detector
    case NoFnr => ValidNoFnr(digits)
    case SePnr => ValidSePnr(if p.Long? then digits[2..] else digits)
    case DkCpr => ValidDkCpr(digits)
  }

  predicate DetectsAs(detector: Detector, p: Pattern, confidence: Confidence, s: string) {
    Uses(detector, p) && Shape(s, p) && confidence == ConfidenceOf(detector, p, s) && PassesCheck(detector, p, s)
  }

  /** A detector accepts the characters `s` with this confidence. */
  predicate Detects(detector: Detector, confidence: Confidence, s: string) {
    exists p :: DetectsAs(detector, p, confidence, s)
  }

  /** A number as it is written: the first group, perhaps a separator, the second group. */
  lemma WrittenShape(a: string, sep: string, b: string, p: Pattern)
    requires |a| == p.First() && |b| == p.Second() && DigitsIn(a, 0, |a|) && DigitsIn(b, 0, |b|)
    requires sep == "" || (|sep| == 1 && p.Separator(sep[0]))
    ensures Shape(a + sep + b, p) && GroupDigits(a + sep + b, p) == a + b
  {
    var s := a + sep + b;
    assert s[..|a|] == a && s[|s| - |b|..] == b;
    assert forall k :: 0 <= k < |a| ==> s[k] == a[k];
    assert forall k :: 0 <= k < |b| ==> s[|a| + |sep| + k] == b[k];
  }

  /** The shape of a text leaves only one pattern. */
  lemma PatternUnique(s: string, p: Pattern, q: Pattern)
    requires Shape(s, p) && Shape(s, q) && (p == No <==> q == No)
    ensures p == q
  {
  }

  /** Norwegian numbers, with or without space or hyphen, are sure. */
  lemma NoFnrWritten(a: string, sep: string, b: string, confidence: Confidence)
    requires |a| == 6 && |b| == 5 && DigitsIn(a, 0, 6) && DigitsIn(b, 0, 5) && sep in {"", " ", "-"}
    ensures Detects(NoFnr, confidence, a + sep + b) <==> confidence == High && ValidNoFnr(ToDigits(a + b))
  {
    hide Shape, ValidNoFnr;
    WrittenShape(a, sep, b, No);
    assert Detects(NoFnr, confidence, a + sep + b) ==> DetectsAs(NoFnr, No, confidence, a + sep + b);
    assert DetectsAs(NoFnr, No, confidence, a + sep + b) <==> confidence == High && ValidNoFnr(ToDigits(a + b));
  }

  /** Swedish numbers are sure with a separator, and less so without one. */
  lemma SePnrWritten(a: string, sep: string, b: string, confidence: Confidence)
    requires |a| == 6 && |b| == 4 && DigitsIn(a, 0, 6) && DigitsIn(b, 0, 4) && sep in {"", "-", "+"}
    ensures Detects(SePnr, confidence, a + sep + b) <==>
      confidence == (if sep == "" then Medium else High) && ValidSePnr(ToDigits(a + b))
  {
    hide ValidSePnr;
    WrittenShape(a, sep, b, Short);
    var s := a + sep + b;
    forall p | DetectsAs(SePnr, p, confidence, s) ensures p == Short { PatternUnique(s, p, Short); }
    assert DetectsAs(SePnr, Short, confidence, s) <==>
      confidence == (if sep == "" then Medium else High) && ValidSePnr(ToDigits(a + b));
  }

  /** With the century written out they are always sure; it does not enter the check. */
  lemma SePnrLongWritten(century: string, a: string, sep: string, b: string, confidence: Confidence)
    requires |century| == 2 && |a| == 6 && |b| == 4 && DigitsIn(century, 0, 2) && DigitsIn(a, 0, 6) && DigitsIn(b, 0, 4)
    requires sep in {"", "-", "+"}
    ensures Detects(SePnr, confidence, century + a + sep + b) <==> confidence == High && ValidSePnr(ToDigits(a + b))
  {
    hide ValidSePnr, Detects;
    assert DigitsIn(century + a, 0, 8);
    LongDetects(century + a, sep, b, confidence);
    assert ToDigits(century + a + b)[2..] == ToDigits(a + b);
  }

  lemma LongDetects(a: string, sep: string, b: string, confidence: Confidence)
    requires |a| == 8 && |b| == 4 && DigitsIn(a, 0, 8) && DigitsIn(b, 0, 4) && sep in {"", "-", "+"}
    ensures Detects(SePnr, confidence, a + sep + b) <==> confidence == High && ValidSePnr(ToDigits(a + b)[2..])
  {
    hide ValidSePnr, ToDigits;
    WrittenShape(a, sep, b, Long);
    var s := a + sep + b;
    forall p | DetectsAs(SePnr, p, confidence, s) ensures p == Long { PatternUnique(s, p, Long); }
    assert DetectsAs(SePnr, Long, confidence, s) <==> confidence == High && ValidSePnr(ToDigits(a + b)[2..]);
  }

  /** Danish numbers are sure only with a hyphen. */
  lemma DkCprWritten(a: string, sep: string, b: string, confidence: Confidence)
    requires |a| == 6 && |b| == 4 && DigitsIn(a, 0, 6) && DigitsIn(b, 0, 4) && sep in {"", "-", "+"}
    ensures Detects(DkCpr, confidence, a + sep + b) <==>
      confidence == (if sep == "-" then High else Medium) && ValidDkCpr(ToDigits(a + b))
  {
    hide ValidDkCpr;
    WrittenShape(a, sep, b, Short);
    var s := a + sep + b;
    assert |sep| == 1 ==> s[6] == sep[0];
    forall p | DetectsAs(DkCpr, p, confidence, s) ensures p == Short { PatternUnique(s, p, Short); }
    assert DetectsAs(DkCpr, Short, confidence, s) <==>
      confidence == (if sep == "-" then High else Medium) && ValidDkCpr(ToDigits(a + b));
  }

  function RankOf(c: Confidence): int { if c.High? then 2 else 1 }

  ghost predicate IsCandidate(text: string, m: Match) {
    && m.start <= m.end <= |text|
    && NoDigitAt(text, m.start - 1) && NoDigitAt(text, m.end)
    && Detects(m.detector, m.confidence, text[m.start..m.end])
  }

  ghost predicate Wanted(detectors: seq<Detector>, floor: Confidence, m: Match) {
    m.detector in detectors && RankOf(m.confidence) >= RankOf(floor)
  }

  /** No detector finds anything in the text. */
  ghost predicate Clean(text: string, detectors: seq<Detector>, floor: Confidence) {
    forall m :: Wanted(detectors, floor, m) ==> !IsCandidate(text, m)
  }

  lemma CandidateWindow(text: string, m: Match) returns (p: Pattern)
    requires IsCandidate(text, m)
    ensures IsWindow(text, p, m.start, m.end)
    ensures m.detector == NoFnr <==> p == No
  {
    p :| DetectsAs(m.detector, p, m.confidence, text[m.start..m.end]);
  }

  /** Inside a match only the digit after the separator follows a non-digit. */
  lemma WindowDigits(text: string, p: Pattern, start: nat, end: nat, k: nat)
    requires IsWindow(text, p, start, end) && start <= k < end
    ensures IsDigit(text[k]) || (k == start + p.First() && end == k + 1 + p.Second() && p.Separator(text[k]))
  {
    assert text[k] == text[start..end][k - start];
  }

  /** Matches, of the same or of different patterns, never overlap partially. */
  lemma WindowsApart(text: string, p: Pattern, q: Pattern, s: nat, e: nat, s': nat, e': nat)
    requires IsWindow(text, p, s, e) && IsWindow(text, q, s', e') && s < s'
    ensures e <= s'
  {
    if s' < e {
      WindowDigits(text, p, s, e, s' - 1);
      // So s' starts the second group of the first match, which is too short for a first group.
      assert s' + p.Second() == e;
      WindowDigits(text, q, s', e', e);
    }
  }

  /** Two matches that start at the same place are the same stretch of text. */
  lemma WindowsCoincide(text: string, p: Pattern, q: Pattern, s: nat, e: nat, e': nat)
    requires IsWindow(text, p, s, e) && IsWindow(text, q, s, e') && e <= e'
    ensures e == e'
  {
    if e < e' {
      WindowDigits(text, q, s, e', e);
    }
  }

  // ----- Scanning -----

  /** Where the match that starts at `i` ends, or -1; the separator is tried first. */
  function MatchEnd(text: string, p: Pattern, i: nat): (e: int)
    ensures e >= 0 ==> IsWindow(text, p, i, e)
    ensures e < 0 ==> forall k: nat :: !IsWindow(text, p, i, k)
  {
    var short, long := i + p.First() + p.Second(), i + p.First() + 1 + p.Second();
    if long <= |text| && IsWindow(text, p, i, long) then long
    else if short <= |text| && IsWindow(text, p, i, short) then short
    else -1
  }

  /** Left-to-right, non-overlapping scan; it finds every match of the pattern. */
  method ScanAll(text: string, p: Pattern) returns (windows: seq<(nat, nat)>)
    ensures forall s: nat, e: nat :: (s, e) in windows <==> IsWindow(text, p, s, e)
    ensures forall i, j :: 0 <= i < j < |windows| ==> windows[i].1 <= windows[j].0
  {
    windows := [];
    var i := 0;
    while i < |text|
      invariant 0 <= i <= |text|
      invariant forall s: nat, e: nat :: (s, e) in windows <==> IsWindow(text, p, s, e) && s < i
      invariant forall k :: 0 <= k < |windows| ==> windows[k].1 <= i
      invariant forall k, l :: 0 <= k < l < |windows| ==> windows[k].1 <= windows[l].0
    {
      var e := MatchEnd(text, p, i);
      if e >= 0 {
        forall s: nat, f: nat | IsWindow(text, p, s, f) && i <= s < e
          ensures s == i && f == e
        {
          if s > i { WindowsApart(text, p, p, i, e, s, f); }
          else if f <= e { WindowsCoincide(text, p, p, i, f, e); }
          else { WindowsCoincide(text, p, p, i, e, f); }
        }
        windows := windows + [(i, e)];
        i := e;
      } else {
        i := i + 1;
      }
    }
  }

  // ----- Candidates -----

  /** The detector finds `m` with the pattern. */
  ghost predicate FoundWith(text: string, detector: Detector, p: Pattern, m: Match) {
    && IsWindow(text, p, m.start, m.end) && m.detector == detector
    && DetectsAs(detector, p, m.confidence, text[m.start..m.end])
  }

  /** Every candidate is found with a pattern its detector uses. */
  lemma CandidateFound(text: string, m: Match)
    ensures IsCandidate(text, m) <==>
      || FoundWith(text, NoFnr, No, m) || FoundWith(text, SePnr, Long, m)
      || FoundWith(text, SePnr, Short, m) || FoundWith(text, DkCpr, Short, m)
    ensures forall d, p :: FoundWith(text, d, p, m) ==> m.detector == d
  {
    hide Shape, ConfidenceOf, PassesCheck;
  }

  /** All candidates one detector finds with one pattern. */
  method Collect(text: string, detector: Detector, p: Pattern) returns (found: seq<Match>)
    requires Uses(detector, p)
    ensures forall m :: m in found <==> FoundWith(text, detector, p, m)
  {
    var windows := ScanAll(text, p);
    found := [];
    for i := 0 to |windows|
      invariant forall m :: m in found <==>
        && (m.start, m.end) in windows[..i] && m.detector == detector
        && m.start <= m.end <= |text|
        && DetectsAs(detector, p, m.confidence, text[m.start..m.end])
    {
      var (start, end) := windows[i];
      assert (start, end) in windows;
      assert windows[..i + 1] == windows[..i] + [(start, end)];
      var s := text[start..end];
      if PassesCheck(detector, p, s) {
        found := found + [Match(detector, ConfidenceOf(detector, p, s), start, end)];
      }
    }
    assert windows[..|windows|] == windows;
  }

  function AtLeast(ms: seq<Match>, floor: Confidence): (r: seq<Match>)
    ensures forall m :: m in r <==> m in ms && RankOf(m.confidence) >= RankOf(floor)
  {
    if ms == [] then []
    else (if RankOf(ms[0].confidence) >= RankOf(floor) then [ms[0]] else []) + AtLeast(ms[1..], floor)
  }

  // ----- Overlaps -----

  /** Position of a detector in the caller's list; the last one counts, 0 if absent. */
  function Priority(detectors: seq<Detector>, d: Detector): nat {
    if detectors == [] then 0
    else if detectors[|detectors| - 1] == d then |detectors| - 1
    else Priority(detectors[..|detectors| - 1], d)
  }

  lemma {:induction false} PriorityIs(detectors: seq<Detector>, d: Detector)
    ensures var p := Priority(detectors, d);
      if d in detectors then p < |detectors| && detectors[p] == d && forall j :: p < j < |detectors| ==> detectors[j] != d
      else p == 0
  {
    if detectors != [] && detectors[|detectors| - 1] != d {
      var front := detectors[..|detectors| - 1];
      assert detectors == front + [detectors[|detectors| - 1]];
      PriorityIs(front, d);
    }
  }

  /** Earlier start first, then higher confidence, earlier detector, later end. */
  predicate RankLe(detectors: seq<Detector>, a: Match, b: Match) {
    if a.start != b.start then a.start < b.start
    else if a.confidence != b.confidence then RankOf(a.confidence) > RankOf(b.confidence)
    else if Priority(detectors, a.detector) != Priority(detectors, b.detector)
      then Priority(detectors, a.detector) < Priority(detectors, b.detector)
    else a.end >= b.end
  }

  ghost predicate InOrder(ms: seq<Match>) {
    forall i, j :: 0 <= i < j < |ms| ==> ms[i].end <= ms[j].start
  }

  /** Some accepted match takes the place where `c` starts, and ranks no lower if
      it starts there too. */
  ghost predicate TakenBy(accepted: seq<Match>, detectors: seq<Detector>, c: Match) {
    exists a :: a in accepted && a.start <= c.start < a.end && (a.start == c.start ==> RankLe(detectors, a, c))
  }

  lemma TakenStays(accepted: seq<Match>, x: Match, detectors: seq<Detector>, c: Match)
    requires TakenBy(accepted, detectors, c)
    ensures TakenBy(accepted + [x], detectors, c)
  {
    var a :| a in accepted && a.start <= c.start < a.end && (a.start == c.start ==> RankLe(detectors, a, c));
    assert a in accepted + [x];
  }

  /** One pass over ranked candidates, skipping what starts before the last end. */
  method Sweep(ranked: seq<Match>, detectors: seq<Detector>) returns (accepted: seq<Match>)
    requires forall k :: 0 <= k < |ranked| ==> ranked[k].start < ranked[k].end
    requires forall i, j :: 0 <= i < j < |ranked| ==> RankLe(detectors, ranked[i], ranked[j])
    ensures forall k :: 0 <= k < |accepted| ==> accepted[k] in ranked
    ensures InOrder(accepted)
    ensures forall k :: 0 <= k < |ranked| ==> TakenBy(accepted, detectors, ranked[k])
  {
    hide RankLe, TakenBy, InOrder, Swept;
    accepted := [];
    var lastEnd: int := -1;
    SweptNone(ranked, detectors);
    for i := 0 to |ranked|
      invariant Swept(ranked, detectors, i, accepted)
      invariant lastEnd == if accepted == [] then -1 else accepted[|accepted| - 1].end
    {
      var candidate := ranked[i];
      if candidate.start < lastEnd {
        SweepSkips(ranked, detectors, i, accepted);
      } else {
        SweepTakes(ranked, detectors, i, accepted);
        accepted := accepted + [candidate];
        lastEnd := candidate.end;
      }
    }
    SweptAll(ranked, detectors, accepted);
  }

  lemma SweptNone(ranked: seq<Match>, detectors: seq<Detector>)
    ensures Swept(ranked, detectors, 0, [])
  {
  }

  lemma SweptAll(ranked: seq<Match>, detectors: seq<Detector>, accepted: seq<Match>)
    requires Swept(ranked, detectors, |ranked|, accepted)
    ensures forall k :: 0 <= k < |accepted| ==> accepted[k] in ranked
    ensures InOrder(accepted)
    ensures forall k :: 0 <= k < |ranked| ==> TakenBy(accepted, detectors, ranked[k])
  {
    hide RankLe, TakenBy, InOrder;
  }

  /** After `i` ranked candidates: what is accepted, and that the rest ranks behind it. */
  ghost predicate Swept(ranked: seq<Match>, detectors: seq<Detector>, i: nat, accepted: seq<Match>)
    requires i <= |ranked|
  {
    && (forall k :: 0 <= k < |accepted| ==> accepted[k] in ranked && accepted[k].start < accepted[k].end)
    && InOrder(accepted)
    && (accepted != [] ==> forall k :: i <= k < |ranked| ==> RankLe(detectors, accepted[|accepted| - 1], ranked[k]))
    && (forall k :: 0 <= k < i ==> TakenBy(accepted, detectors, ranked[k]))
  }

  lemma SweepSkips(ranked: seq<Match>, detectors: seq<Detector>, i: nat, accepted: seq<Match>)
    requires i < |ranked| && Swept(ranked, detectors, i, accepted)
    requires accepted != [] && ranked[i].start < accepted[|accepted| - 1].end
    ensures Swept(ranked, detectors, i + 1, accepted)
  {
    assert accepted[|accepted| - 1] in accepted;
    assert TakenBy(accepted, detectors, ranked[i]);
  }

  lemma SweepTakes(ranked: seq<Match>, detectors: seq<Detector>, i: nat, accepted: seq<Match>)
    requires i < |ranked| && Swept(ranked, detectors, i, accepted) && ranked[i].start < ranked[i].end
    requires accepted != [] ==> accepted[|accepted| - 1].end <= ranked[i].start
    requires forall j :: i < j < |ranked| ==> RankLe(detectors, ranked[i], ranked[j])
    ensures Swept(ranked, detectors, i + 1, accepted + [ranked[i]])
  {
    var more := accepted + [ranked[i]];
    forall k | 0 <= k < i ensures TakenBy(more, detectors, ranked[k]) {
      TakenStays(accepted, ranked[i], detectors, ranked[k]);
    }
    assert more[|accepted|] in more;
    assert TakenBy(more, detectors, ranked[i]) by { RankReflexive(detectors, ranked[i]); }
    OrderGrows(accepted, ranked[i]);
  }

  /** Who wins a place: higher confidence; then the detector listed earlier, by its
      last mention; then the longer match. */
  lemma RankMeans(detectors: seq<Detector>, a: Match, b: Match, i: nat, j: nat)
    requires a.start == b.start && RankLe(detectors, a, b)
    requires i < |detectors| && detectors[i] == a.detector && j < |detectors| && detectors[j] == b.detector
    requires forall k :: i < k < |detectors| ==> detectors[k] != a.detector
    requires forall k :: j < k < |detectors| ==> detectors[k] != b.detector
    ensures b.confidence == High ==> a.confidence == High
    ensures a.confidence == b.confidence ==> i <= j
    ensures a.confidence == b.confidence && a.detector == b.detector ==> a.end >= b.end
  {
    PriorityIs(detectors, a.detector);
    PriorityIs(detectors, b.detector);
  }

  lemma RankReflexive(detectors: seq<Detector>, m: Match)
    ensures RankLe(detectors, m, m)
  {
  }

  lemma OrderGrows(accepted: seq<Match>, m: Match)
    requires InOrder(accepted) && forall k :: 0 <= k < |accepted| ==> accepted[k].start < accepted[k].end
    requires accepted != [] ==> accepted[|accepted| - 1].end <= m.start
    ensures InOrder(accepted + [m])
  {
    var more := accepted + [m];
    forall i, j | 0 <= i < j < |more| ensures more[i].end <= more[j].start {
      if j == |accepted| && i < |accepted| - 1 {
        assert accepted[i].end <= accepted[|accepted| - 1].start;
      }
    }
  }

  lemma RankIsPreorder(detectors: seq<Detector>)
    ensures StableSort.TotalPreorder((a, b) => RankLe(detectors, a, b))
  {
  }

  /** Keeps a best-ranked, non-overlapping choice that leaves no candidate's place free. */
  method ResolveOverlaps(candidates: seq<Match>, detectors: seq<Detector>) returns (accepted: seq<Match>)
    requires forall c :: c in candidates ==> c.start < c.end
    ensures forall a :: a in accepted ==> a in candidates
    ensures InOrder(accepted)
    ensures forall c :: c in candidates ==> TakenBy(accepted, detectors, c)
  {
    var le := (a, b) => RankLe(detectors, a, b);
    var ranked := StableSort.Sort(candidates, le);
    RankIsPreorder(detectors);
    StableSort.SortSorted(candidates, le);
    StableSort.SortMembers(candidates, le);
    assert forall i, j :: 0 <= i < j < |ranked| ==> le(ranked[i], ranked[j]) ==> RankLe(detectors, ranked[i], ranked[j]);
    assert forall k :: 0 <= k < |ranked| ==> ranked[k] in candidates;
    accepted := Sweep(ranked, detectors);
    forall a | a in accepted ensures a in candidates {
      var k :| 0 <= k < |accepted| && accepted[k] == a;
      assert accepted[k] in ranked;
    }
    forall c | c in candidates ensures TakenBy(accepted, detectors, c) {
      assert c in ranked;
    }
  }

  // ----- Finding -----

  /** The outcome of a search: wanted candidates only, in text order without
      overlap, one for every place where a wanted candidate stands, and never a
      lower-ranked one than another candidate for the same place. */
  ghost predicate Found(text: string, detectors: seq<Detector>, floor: Confidence, r: seq<Match>) {
    && (forall a :: a in r ==> IsCandidate(text, a) && Wanted(detectors, floor, a))
    && InOrder(r)
    && (forall c :: IsCandidate(text, c) && Wanted(detectors, floor, c) ==> Accepted(r, detectors, c))
  }

  ghost predicate Accepted(r: seq<Match>, detectors: seq<Detector>, c: Match) {
    exists a :: a in r && a.start == c.start && a.end == c.end && RankLe(detectors, a, c)
  }

  /** A candidate's place can only be taken by a match of the same stretch. */
  lemma TakenMeansAccepted(text: string, r: seq<Match>, detectors: seq<Detector>, c: Match)
    requires IsCandidate(text, c) && TakenBy(r, detectors, c)
    requires forall a :: a in r ==> IsCandidate(text, a)
    ensures Accepted(r, detectors, c)
  {
    var a :| a in r && a.start <= c.start < a.end && (a.start == c.start ==> RankLe(detectors, a, c));
    var p := CandidateWindow(text, a);
    var q := CandidateWindow(text, c);
    if a.start < c.start {
      WindowsApart(text, p, q, a.start, a.end, c.start, c.end);
    } else if a.end <= c.end {
      WindowsCoincide(text, p, q, a.start, a.end, c.end);
    } else {
      WindowsCoincide(text, q, p, a.start, c.end, a.end);
    }
  }

  /** Every candidate of the enabled detectors. */
  method Candidates(text: string, detectors: seq<Detector>) returns (candidates: seq<Match>)
    ensures forall m :: m in candidates <==> IsCandidate(text, m) && m.detector in detectors
  {
    hide IsCandidate, FoundWith;
    forall m ensures IsCandidate(text, m) <==>
      || FoundWith(text, NoFnr, No, m) || FoundWith(text, SePnr, Long, m)
      || FoundWith(text, SePnr, Short, m) || FoundWith(text, DkCpr, Short, m)
    {
      CandidateFound(text, m);
    }
    forall m, d, p | FoundWith(text, d, p, m) ensures m.detector == d {
      CandidateFound(text, m);
    }
    candidates := [];
    if NoFnr in detectors {
      candidates := Collect(text, NoFnr, No);
    }
    if SePnr in detectors {
      var long := Collect(text, SePnr, Long);
      var short := Collect(text, SePnr, Short);
      candidates := candidates + long + short;
    }
    if DkCpr in detectors {
      var short := Collect(text, DkCpr, Short);
      candidates := candidates + short;
    }
  }

  method FindNationalIds(text: string, detectors: seq<Detector>, floor: Confidence) returns (r: seq<Match>)
    ensures Found(text, detectors, floor, r)
  {
    if text == "" || detectors == [] {
      return [];
    }
    var candidates := Candidates(text, detectors);
    var filtered := AtLeast(candidates, floor);
    r := ResolveOverlaps(filtered, detectors);
    forall c | IsCandidate(text, c) && Wanted(detectors, floor, c) ensures Accepted(r, detectors, c) {
      assert c in filtered;
      TakenMeansAccepted(text, r, detectors, c);
    }
  }
}
