/**
 * Splitting a document into overlapping chunks of bounded size that end at a
 * paragraph, sentence or word boundary where one is near.
 */
module Chunker {
  import opened Text

  datatype Chunk = Chunk(index: nat, content: string, tokenCount: nat)
  datatype Window = Window(start: nat, cut: nat)
  datatype Outcome = Chunks(chunks: seq<Chunk>) | OverlapTooLarge

  const CHARS_PER_TOKEN := 4

  function EstimateTokens(text: string): nat {
    if |text| == 0 then 1 else (|text| + CHARS_PER_TOKEN - 1) / CHARS_PER_TOKEN
  }

  /** A token for every four characters begun, and at least one. */
  lemma TokensCover(text: string)
    ensures var n := EstimateTokens(text);
      n >= 1 && |text| <= 4 * n && (n > 1 ==> 4 * (n - 1) < |text|)
  {
  }

  // ----- Boundaries -----

  predicate IsEnder(c: char) { c == '.' || c == '!' || c == '?' }

  /** A sentence ends at `k`: an ender, then white space. */
  predicate SentenceAt(s: string, k: int) {
    0 <= k && k + 1 < |s| && IsEnder(s[k]) && IsSpace(s[k + 1])
  }

  /** The last sentence end, as a right-to-left search, or -1. */
  function LastSentence(s: string, k: nat): (r: int)
    requires k <= |s|
    ensures r == -1 || (0 <= r < k && SentenceAt(s, r))
    ensures forall j :: j < k && SentenceAt(s, j) ==> j <= r
  {
    if k == 0 then -1 else if SentenceAt(s, k - 1) then k - 1 else LastSentence(s, k - 1)
  }

  /** Where the last sentence of a stretch of text stops, or -1. */
  function SentenceCut(text: string, minCut: int, end: int): int {
    var slice := Slice(text, minCut, end);
    var last := LastSentence(slice, |slice|);
    if last == -1 then -1 else minCut + last + 2
  }

  /** The source's left-to-right scan finds the same place. */
  method LastSentenceEnd(text: string, minCut: int, end: int) returns (r: int)
    ensures r == SentenceCut(text, minCut, end)
  {
    var slice := Slice(text, minCut, end);
    var last: int := -1;
    var i := 0;
    while i < |slice|
      invariant 0 <= i <= |slice|
      invariant last == -1 || (last + 1 < i && SentenceAt(slice, last))
      invariant forall k :: k < i && SentenceAt(slice, k) ==> k <= last
    {
      if SentenceAt(slice, i) {
        last := i;
        i := i + 2;
      } else {
        i := i + 1;
      }
    }
    r := if last == -1 then -1 else minCut + last + 2;
  }

  /** 60% of the way from the start of a window to its end. */
  function MinCut(start: int, end: int): int {
    start + (end - start) * 3 / 5
  }

  /** `text.lastIndexOf(p, end)`, where a negative position counts as 0. */
  function LastBefore(text: string, p: string, end: int): int
    requires end < |text|
  {
    LastIndexOf(text, p, if end < 0 then 0 else end)
  }

  /** Where to cut a window that does not reach the end of the text. */
  function CutPoint(text: string, start: nat, end: int): (cut: int)
    requires end < |text|
  {
    var minCut := MinCut(start, end);
    var para := LastBefore(text, "\n\n", end);
    if para > minCut then para + 2
    else
      var sentence := SentenceCut(text, minCut, end);
      if sentence != -1 then sentence
      else
        var space := LastBefore(text, " ", end);
        if space > minCut then space + 1 else end
  }

  lemma SentenceShift(text: string, minCut: nat, end: nat, k: int)
    requires minCut <= end <= |text|
    ensures SentenceAt(Slice(text, minCut, end), k - minCut) <==>
      minCut <= k && k + 1 < end && SentenceAt(text, k)
  {
  }

  /** The end of a sentence in range, in terms of the whole text. */
  lemma SentenceCutIs(text: string, minCut: nat, end: nat)
    requires minCut <= end <= |text|
    ensures var r := SentenceCut(text, minCut, end);
      && (r == -1 || (minCut + 2 <= r <= end && SentenceAt(text, r - 2)))
      && forall k :: minCut <= k && k + 1 < end && SentenceAt(text, k) ==> k + 2 <= r
  {
    var slice := Slice(text, minCut, end);
    var last := LastSentence(slice, |slice|);
    SentenceShift(text, minCut, end, minCut + last);
    forall k | minCut <= k && k + 1 < end && SentenceAt(text, k) ensures k - minCut <= last {
      SentenceShift(text, minCut, end, k);
    }
  }

  /** A cut lies past 60% of the window and at most two characters beyond its end,
      and what lies beyond is white space. */
  lemma CutWithin(text: string, start: nat, end: nat)
    requires start < end < |text|
    ensures var cut := CutPoint(text, start, end);
      && MinCut(start, end) < cut <= |text| && cut <= end + 2
      && (cut > end ==> AllSpace(text[end..cut]))
  {
    hide SentenceCut;
    SentenceCutIs(text, MinCut(start, end), end);
    var para, space := LastBefore(text, "\n\n", end), LastBefore(text, " ", end);
    if para >= 0 {
      assert text[para] == text[para..para + 2][0] && text[para + 1] == text[para..para + 2][1];
    }
    if space >= 0 {
      assert text[space] == text[space..space + 1][0];
    }
  }

  /** `p` stands at `k`, past `minCut` and not past `end`. */
  ghost predicate BreakAt(text: string, p: string, minCut: int, end: int, k: int) {
    minCut < k <= end && OccursAt(text, p, k)
  }

  ghost predicate SentenceIn(text: string, minCut: int, end: int, k: int) {
    minCut <= k && k + 1 < end <= |text| && 0 <= k && text[k] in {'.', '!', '?'} && IsSpace(text[k + 1])
  }

  lemma SentenceInIs(text: string, minCut: nat, end: nat, k: int)
    requires end <= |text|
    ensures SentenceIn(text, minCut, end, k) <==> minCut <= k && k + 1 < end && SentenceAt(text, k)
  {
  }

  /** Which boundary wins: the last paragraph break past 60% of the window; without
      one the last sentence end; without that the last space; else the window end. */
  ghost predicate Preferred(text: string, start: nat, end: nat, cut: int) {
    var minCut := start + (end - start) * 3 / 5;
    if exists k :: BreakAt(text, "\n\n", minCut, end, k) then
      BreakAt(text, "\n\n", minCut, end, cut - 2) && forall k :: BreakAt(text, "\n\n", minCut, end, k) ==> k <= cut - 2
    else if exists k :: SentenceIn(text, minCut, end, k) then
      SentenceIn(text, minCut, end, cut - 2) && forall k :: SentenceIn(text, minCut, end, k) ==> k <= cut - 2
    else if exists k :: BreakAt(text, " ", minCut, end, k) then
      BreakAt(text, " ", minCut, end, cut - 1) && forall k :: BreakAt(text, " ", minCut, end, k) ==> k <= cut - 1
    else cut == end
  }

  /** The last break before the end is the last one past `minCut`, if any is. */
  lemma LastBreak(text: string, p: string, minCut: nat, end: nat)
    requires end < |text|
    ensures var last := LastBefore(text, p, end);
      && ((exists k :: BreakAt(text, p, minCut, end, k)) <==> last > minCut)
      && (last > minCut ==> BreakAt(text, p, minCut, end, last))
      && (forall k :: BreakAt(text, p, minCut, end, k) ==> k <= last)
  {
    hide OccursAt;
    var last := LastBefore(text, p, end);
    assert last > minCut ==> BreakAt(text, p, minCut, end, last);
  }

  lemma LastSentenceIn(text: string, minCut: nat, end: nat)
    requires minCut <= end <= |text|
    ensures var cut := SentenceCut(text, minCut, end);
      && ((exists k :: SentenceIn(text, minCut, end, k)) <==> cut != -1)
      && (cut != -1 ==> SentenceIn(text, minCut, end, cut - 2))
      && (forall k :: SentenceIn(text, minCut, end, k) ==> k + 2 <= cut)
  {
    hide SentenceCut, SentenceAt, SentenceIn;
    SentenceCutIs(text, minCut, end);
    var cut := SentenceCut(text, minCut, end);
    forall k ensures SentenceIn(text, minCut, end, k) <==> minCut <= k && k + 1 < end && SentenceAt(text, k) {
      SentenceInIs(text, minCut, end, k);
    }
  }

  lemma CutPrefers(text: string, start: nat, end: nat)
    requires start < end < |text|
    ensures Preferred(text, start, end, CutPoint(text, start, end))
  {
    hide SentenceCut, LastBefore, BreakAt, SentenceIn;
    var minCut := MinCut(start, end);
    LastBreak(text, "\n\n", minCut, end);
    LastSentenceIn(text, minCut, end);
    LastBreak(text, " ", minCut, end);
  }

  method PreferBoundary(text: string, start: nat, end: int) returns (cut: int)
    requires end < |text|
    ensures cut == CutPoint(text, start, end)
  {
    var minCut := MinCut(start, end);
    var para := LastBefore(text, "\n\n", end);
    if para > minCut { return para + 2; }
    var sentence := LastSentenceEnd(text, minCut, end);
    if sentence != -1 { return sentence; }
    var space := LastBefore(text, " ", end);
    if space > minCut { return space + 1; }
    return end;
  }

  // ----- Windows -----

  function WindowEnd(text: string, start: nat, target: int): (cut: int)
    requires start < |text|
    ensures target >= 1 ==> start < cut <= |text|
  {
    if start + target < |text| then
      assert target >= 1 ==> start < CutPoint(text, start, start + target) <= |text| by {
        if target >= 1 { CutWithin(text, start, start + target); }
      }
      CutPoint(text, start, start + target)
    else |text|
  }

  /** The next window starts the overlap before the cut, but always further on. */
  function NextStart(start: nat, cut: int, overlap: int): (next: nat)
    ensures next > start
  {
    if cut - overlap > start + 1 then cut - overlap else start + 1
  }

  /** The windows a document is read through, each a start and a cut. */
  function Windows(text: string, start: nat, target: nat, overlap: int): seq<Window>
    requires target >= 1
    decreases |text| - start
  {
    if start >= |text| then []
    else
      var cut := WindowEnd(text, start, target);
      [Window(start, cut)] + if cut >= |text| then [] else Windows(text, NextStart(start, cut, overlap), target, overlap)
  }

  /** Consecutive windows leave no gap and share exactly the overlap wherever that
      still moves on; all but the last get past 60% of the target; each is cut at the
      preferred boundary, and the last one ends the text. */
  ghost predicate Seamless(text: string, ws: seq<Window>, start: nat, target: nat, overlap: int) {
    && ws != [] && ws[0].start == start && ws[|ws| - 1].cut == |text|
    && (forall k :: 0 <= k < |ws| ==> WellCut(text, ws[k], target))
    && (forall k :: 0 <= k < |ws| - 1 ==> Joins(ws[k], ws[k + 1], target, overlap))
  }

  ghost predicate WellCut(text: string, w: Window, target: nat) {
    && w.start < w.cut <= |text| && w.cut <= w.start + target + 2
    && if w.start + target < |text| then Preferred(text, w.start, w.start + target, w.cut) else w.cut == |text|
  }

  predicate Joins(w: Window, next: Window, target: nat, overlap: int) {
    && w.start < next.start <= w.cut
    && (w.cut - next.start == overlap || (next.start == w.start + 1 && w.cut - next.start < overlap))
    && w.cut > w.start + target * 3 / 5
  }

  lemma PrependWindow(text: string, w: Window, rest: seq<Window>, next: nat, target: nat, overlap: int)
    requires Seamless(text, rest, next, target, overlap)
    requires WellCut(text, w, target) && Joins(w, rest[0], target, overlap)
    ensures Seamless(text, [w] + rest, w.start, target, overlap)
  {
    var ws := [w] + rest;
    hide Joins, WellCut;
    forall k | 0 <= k < |ws| - 1 ensures Joins(ws[k], ws[k + 1], target, overlap) {
      assert ws[k + 1] == rest[k];
      assert k > 0 ==> ws[k] == rest[k - 1] && Joins(rest[k - 1], rest[k], target, overlap);
    }
  }

  /** What one window looks like, and where the next begins: the overlap before the
      cut or, if that does not move on, one character further; so without a gap
      exactly when the overlap is not negative. */
  lemma WindowStep(text: string, start: nat, target: nat, overlap: int)
    requires start < |text| && target >= 1
    ensures var cut := WindowEnd(text, start, target);
      && WellCut(text, Window(start, cut), target)
      && (cut < |text| ==> cut > start + target * 3 / 5)
      && (NextStart(start, cut, overlap) <= cut <==> overlap >= 0)
      && var next := NextStart(start, cut, overlap);
      next > start && (cut - next == overlap || (next == start + 1 && cut - next < overlap))
  {
    hide CutPoint, AllSpace, Preferred;
    if start + target < |text| {
      CutWithin(text, start, start + target);
      CutPrefers(text, start, start + target);
    }
  }

  lemma {:induction false} WindowsSeamless(text: string, start: nat, target: nat, overlap: int)
    requires start < |text| && target >= 1 && overlap >= 0
    ensures Seamless(text, Windows(text, start, target, overlap), start, target, overlap)
    decreases |text| - start
  {
    hide WindowEnd, Seamless, WellCut;
    WindowStep(text, start, target, overlap);
    var cut := WindowEnd(text, start, target);
    if cut < |text| {
      var next := NextStart(start, cut, overlap);
      WindowsSeamless(text, next, target, overlap);
      FirstWindow(text, next, target, overlap);
      PrependWindow(text, Window(start, cut), Windows(text, next, target, overlap), next, target, overlap);
    } else {
      OnlyWindow(text, start, target, overlap);
      assert Windows(text, start, target, overlap) == [Window(start, |text|)];
    }
  }

  lemma FirstWindow(text: string, start: nat, target: nat, overlap: int)
    requires start < |text| && target >= 1
    ensures var ws := Windows(text, start, target, overlap); ws != [] && ws[0].start == start
  {
  }

  lemma OnlyWindow(text: string, start: nat, target: nat, overlap: int)
    requires WellCut(text, Window(start, |text|), target)
    ensures Seamless(text, [Window(start, |text|)], start, target, overlap)
  {
  }

  /** Each window moves on by 60% of the target less the overlap, or by one. */
  function Stride(target: nat, overlap: int): nat {
    if target * 3 / 5 + 1 - overlap > 1 then target * 3 / 5 + 1 - overlap else 1
  }

  lemma {:induction false} WindowCount(text: string, start: nat, target: nat, overlap: int)
    requires start < |text| && target >= 1
    ensures (|Windows(text, start, target, overlap)| - 1) * Stride(target, overlap) <= |text| - 1 - start
    decreases |text| - start
  {
    hide WindowEnd, Preferred;
    WindowStep(text, start, target, overlap);
    var cut := WindowEnd(text, start, target);
    var next := NextStart(start, cut, overlap);
    if cut < |text| && next < |text| {
      WindowCount(text, next, target, overlap);
      var n, d := |Windows(text, next, target, overlap)|, Stride(target, overlap);
      assert next >= start + d;
      OneMoreStride(n, d, |text| - 1 - next);
    }
  }

  lemma OneMoreStride(n: int, d: int, room: int)
    requires (n - 1) * d <= room
    ensures n * d <= room + d
  {
    assert n * d == (n - 1) * d + d;
  }

  // ----- Chunks -----

  /** What is visible of each window, in order; blank windows leave nothing. */
  function Texts(text: string, start: nat, target: int, overlap: int): seq<string>
    decreases |text| - start
  {
    if start >= |text| then []
    else
      var cut := WindowEnd(text, start, target);
      Visible(text, start, cut) +
      if cut >= |text| then [] else Texts(text, NextStart(start, cut, overlap), target, overlap)
  }

  function Visible(text: string, start: nat, cut: int): (r: seq<string>)
    ensures |r| <= 1
  {
    var slice := Trim(Slice(text, start, cut));
    if slice != "" then [slice] else []
  }

  function VisibleAll(text: string, ws: seq<Window>): seq<string>
    requires forall k :: 0 <= k < |ws| ==> ws[k].start <= ws[k].cut <= |text|
  {
    if ws == [] then [] else Visible(text, ws[0].start, ws[0].cut) + VisibleAll(text, ws[1..])
  }

  /** The chunk texts are the visible parts of the windows, in order. */
  lemma {:induction false} TextsOfWindows(text: string, start: nat, target: nat, overlap: int)
    requires target >= 1
    ensures var ws := Windows(text, start, target, overlap);
      && (forall k :: 0 <= k < |ws| ==> ws[k].start <= ws[k].cut <= |text|)
      && Texts(text, start, target, overlap) == VisibleAll(text, ws)
    decreases |text| - start
  {
    if start < |text| {
      var cut := WindowEnd(text, start, target);
      if cut < |text| {
        var next := NextStart(start, cut, overlap);
        TextsOfWindows(text, next, target, overlap);
        assert Windows(text, start, target, overlap)[1..] == Windows(text, next, target, overlap);
      } else {
        assert Windows(text, start, target, overlap)[1..] == [];
      }
    }
  }

  /** Trailing white space does not survive the trimming. */
  lemma TrimmedShort(s: string, n: nat)
    requires n <= |s| && AllSpace(s[n..])
    ensures |Trim(s)| <= n
  {
    var r := TrimRange(s);
    if r.1 > n {
      assert s[n..][r.1 - 1 - n] == s[r.1 - 1];
    }
  }

  /** White space past the window end is trimmed away again. */
  lemma TrimmedFits(text: string, start: nat, target: nat)
    requires start < |text| && target >= 1
    ensures |Trim(text[start..WindowEnd(text, start, target)])| <= target
  {
    hide CutPoint, Trim, TrimRange, AllSpace, IsSpace;
    var cut, end := WindowEnd(text, start, target), start + target;
    TrimmedNoLonger(text[start..cut]);
    if end < |text| {
      CutWithin(text, start, end);
      if cut > end {
        SliceOfSlice(text, start, cut, target, cut - start);
        assert text[start..cut][target..] == text[end..cut];
        TrimmedShort(text[start..cut], target);
      }
    }
  }

  lemma TrimmedNoLonger(s: string)
    ensures |Trim(s)| <= |s|
  {
  }

  /** The chunk texts found so far hold position `k` of the text. */
  ghost predicate Holds(text: string, contents: seq<string>, k: nat) {
    exists c: string, lo: nat :: c in contents && OccursAt(text, c, lo) && lo <= k < lo + |c|
  }

  /** A visible character of a window survives the trimming. */
  lemma WindowHolds(text: string, start: nat, cut: nat, k: nat)
    requires start <= k < cut <= |text| && !IsSpace(text[k])
    ensures Holds(text, Visible(text, start, cut), k)
  {
    hide TrimRange, IsSpace;
    var slice := text[start..cut];
    assert slice[k - start] == text[k];
    VisibleInside(slice, k - start);
    var r := TrimRange(slice);
    SliceOfSlice(text, start, cut, r.0, r.1);
    var c := Trim(slice);
    assert OccursAt(text, c, start + r.0);
    assert c in Visible(text, start, cut);
  }

  lemma HoldsMore(text: string, some: seq<string>, all: seq<string>, k: nat)
    requires Holds(text, some, k) && forall c :: c in some ==> c in all
    ensures Holds(text, all, k)
  {
    var c: string, lo: nat :| c in some && OccursAt(text, c, lo) && lo <= k < lo + |c|;
    assert c in all;
  }

  /** With a non-negative overlap every visible character lies in some chunk. */
  lemma {:induction false} EveryCharacterKept(text: string, start: nat, target: nat, overlap: int, k: nat)
    requires target >= 1 && overlap >= 0 && start <= k < |text| && !IsSpace(text[k])
    ensures Holds(text, Texts(text, start, target, overlap), k)
    decreases |text| - start
  {
    var cut := WindowEnd(text, start, target);
    if k < cut {
      WindowHolds(text, start, cut, k);
      HoldsMore(text, Visible(text, start, cut), Texts(text, start, target, overlap), k);
    } else {
      var next := NextStart(start, cut, overlap);
      EveryCharacterKept(text, next, target, overlap, k);
      HoldsMore(text, Texts(text, next, target, overlap), Texts(text, start, target, overlap), k);
    }
  }

  lemma {:induction false} TextsCount(text: string, start: nat, target: nat, overlap: int)
    requires target >= 1
    ensures |Texts(text, start, target, overlap)| <= |Windows(text, start, target, overlap)|
    decreases |text| - start
  {
    if start < |text| {
      var cut := WindowEnd(text, start, target);
      if cut < |text| { TextsCount(text, NextStart(start, cut, overlap), target, overlap); }
    }
  }

  /** Whatever the sizes: no chunk is blank, and each takes at least one character
      of the text to itself. */
  lemma {:induction false} TextsNotBlank(text: string, start: nat, target: int, overlap: int)
    ensures "" !in Texts(text, start, target, overlap)
    ensures |Texts(text, start, target, overlap)| <= if start < |text| then |text| - start else 0
    decreases |text| - start
  {
    hide WindowEnd, Trim;
    if start < |text| {
      var cut := WindowEnd(text, start, target);
      if cut < |text| { TextsNotBlank(text, NextStart(start, cut, overlap), target, overlap); }
    }
  }

  predicate Numbered(chunks: seq<Chunk>) {
    forall k :: 0 <= k < |chunks| ==> chunks[k].index == k && chunks[k].tokenCount == EstimateTokens(chunks[k].content)
  }

  function ContentsOf(chunks: seq<Chunk>): (r: seq<string>)
    ensures |r| == |chunks| && forall k :: 0 <= k < |chunks| ==> r[k] == chunks[k].content
  {
    seq(|chunks|, k requires 0 <= k < |chunks| => chunks[k].content)
  }

  /** One window: its cut and its trimmed text. */
  method ReadWindow(text: string, start: nat, target: int) returns (cut: int, slice: string)
    requires start < |text|
    ensures cut == WindowEnd(text, start, target)
    ensures Visible(text, start, cut) == if slice != "" then [slice] else []
    ensures target >= 1 ==> |slice| <= target
  {
    hide Trim, CutPoint;
    var end := if start + target < |text| then start + target else |text|;
    cut := end;
    if end < |text| {
      cut := PreferBoundary(text, start, end);
    }
    slice := Trim(Slice(text, start, cut));
    if target >= 1 { TrimmedFits(text, start, target); }
  }

  predicate Within(chunks: seq<Chunk>, target: int) {
    target >= 1 ==> forall k :: 0 <= k < |chunks| ==> |chunks[k].content| <= target
  }

  /** Appends a chunk under the next index, unless it is blank. */
  method PushChunk(chunks: seq<Chunk>, slice: string, target: int) returns (more: seq<Chunk>)
    requires Numbered(chunks) && Within(chunks, target) && (target >= 1 ==> |slice| <= target)
    ensures Numbered(more) && Within(more, target)
    ensures ContentsOf(more) == ContentsOf(chunks) + if slice != "" then [slice] else []
  {
    more := chunks;
    if slice != "" {
      more := more + [Chunk(|chunks|, slice, EstimateTokens(slice))];
    }
  }

  /** Reads the trimmed text through its windows and keeps what is not blank. */
  method ReadWindows(text: string, target: int, overlap: int) returns (chunks: seq<Chunk>)
    ensures ContentsOf(chunks) == Texts(text, 0, target, overlap)
    ensures Numbered(chunks) && Within(chunks, target)
  {
    chunks := [];
    var start := 0;
    ghost var all := Texts(text, 0, target, overlap);
    while start < |text|
      invariant Numbered(chunks) && Within(chunks, target)
      invariant ContentsOf(chunks) + Texts(text, start, target, overlap) == all
      decreases |text| - start
    {
      var cut, slice := ReadWindow(text, start, target);
      ghost var before := ContentsOf(chunks);
      chunks := PushChunk(chunks, slice, target);
      TextsStep(text, start, target, overlap, before, ContentsOf(chunks));
      if cut >= |text| { return; }
      start := NextStart(start, cut, overlap);
    }
  }

  lemma TextsStep(text: string, start: nat, target: int, overlap: int, before: seq<string>, after: seq<string>)
    requires start < |text|
    requires after == before + Visible(text, start, WindowEnd(text, start, target))
    ensures var cut := WindowEnd(text, start, target);
      before + Texts(text, start, target, overlap) ==
        if cut >= |text| then after else after + Texts(text, NextStart(start, cut, overlap), target, overlap)
  {
    hide WindowEnd, Visible;
  }

  /** Every visible character of the text lies in some chunk. */
  ghost predicate Complete(text: string, contents: seq<string>) {
    forall k: nat :: k < |text| && !IsSpace(text[k]) ==> Holds(text, contents, k)
  }

  /** Number of chunks against the length of the text, given the stride. */
  predicate Few(text: string, chunks: nat, stride: nat) {
    chunks > 1 ==> (chunks - 1) * stride < |text|
  }

  lemma FewerStrides(a: nat, b: nat, d: nat)
    requires a <= b
    ensures (a - 1) * d <= (b - 1) * d
  {
    assert (b - 1) * d == (a - 1) * d + (b - a) * d;
  }

  lemma WindowedFew(text: string, target: nat, overlap: int)
    requires text != "" && target >= 1
    ensures Few(text, |Texts(text, 0, target, overlap)|, Stride(target, overlap))
  {
    hide Texts, Windows, Stride;
    WindowCount(text, 0, target, overlap);
    TextsCount(text, 0, target, overlap);
    FewerStrides(|Texts(text, 0, target, overlap)|, |Windows(text, 0, target, overlap)|, Stride(target, overlap));
  }

  /** The texts of a document's chunks. */
  function ChunkTexts(text: string, targetTokens: int, overlapTokens: int): seq<string> {
    var target, trimmed := targetTokens * CHARS_PER_TOKEN, Trim(text);
    if trimmed == "" then []
    else if |trimmed| <= target then [trimmed]
    else Texts(trimmed, 0, target, overlapTokens * CHARS_PER_TOKEN)
  }

  lemma ChunksComplete(text: string, targetTokens: int, overlapTokens: int)
    requires 0 <= overlapTokens < targetTokens
    ensures Complete(Trim(text), ChunkTexts(text, targetTokens, overlapTokens))
  {
    hide Texts, Holds, Trim;
    var trimmed, contents := Trim(text), ChunkTexts(text, targetTokens, overlapTokens);
    forall k: nat | k < |trimmed| && !IsSpace(trimmed[k]) ensures Holds(trimmed, contents, k) {
      if |trimmed| <= targetTokens * CHARS_PER_TOKEN {
        WholeHolds(trimmed, k);
      } else {
        EveryCharacterKept(trimmed, 0, targetTokens * CHARS_PER_TOKEN, overlapTokens * CHARS_PER_TOKEN, k);
      }
    }
  }

  /** The chunks are what is visible of a seamless row of windows over the text. */
  ghost predicate ReadThrough(text: string, contents: seq<string>, target: nat, overlap: int) {
    exists ws :: Seamless(text, ws, 0, target, overlap) && IsVisibleOf(text, ws, contents)
  }

  ghost predicate IsVisibleOf(text: string, ws: seq<Window>, contents: seq<string>) {
    && (forall k :: 0 <= k < |ws| ==> ws[k].start <= ws[k].cut <= |text|)
    && contents == VisibleAll(text, ws)
  }

  lemma ChunksReadThrough(text: string, targetTokens: int, overlapTokens: int)
    requires 0 <= overlapTokens < targetTokens && |Trim(text)| > targetTokens * CHARS_PER_TOKEN
    ensures ReadThrough(Trim(text), ChunkTexts(text, targetTokens, overlapTokens),
      targetTokens * CHARS_PER_TOKEN, overlapTokens * CHARS_PER_TOKEN)
  {
    hide Trim, Seamless, Windows, Texts, VisibleAll;
    var trimmed, target, overlap := Trim(text), targetTokens * CHARS_PER_TOKEN, overlapTokens * CHARS_PER_TOKEN;
    WindowsSeamless(trimmed, 0, target, overlap);
    TextsOfWindows(trimmed, 0, target, overlap);
    assert IsVisibleOf(trimmed, Windows(trimmed, 0, target, overlap), ChunkTexts(text, targetTokens, overlapTokens));
  }

  lemma WholeHolds(text: string, k: nat)
    requires k < |text|
    ensures Holds(text, [text], k)
  {
    assert text in [text] && OccursAt(text, text, 0);
  }

  lemma ChunksFew(text: string, targetTokens: int, overlapTokens: int)
    ensures "" !in ChunkTexts(text, targetTokens, overlapTokens)
    ensures |ChunkTexts(text, targetTokens, overlapTokens)| <= |Trim(text)|
    ensures targetTokens >= 1 ==>
      Few(Trim(text), |ChunkTexts(text, targetTokens, overlapTokens)|,
        Stride(targetTokens * CHARS_PER_TOKEN, overlapTokens * CHARS_PER_TOKEN))
  {
    hide Texts, Stride, Trim;
    var trimmed, target, overlap := Trim(text), targetTokens * CHARS_PER_TOKEN, overlapTokens * CHARS_PER_TOKEN;
    if trimmed != "" && |trimmed| > target {
      TextsNotBlank(trimmed, 0, target, overlap);
      if target >= 1 { WindowedFew(trimmed, target, overlap); }
    }
  }

  /**
   * The chunks of a document. An overlap that is not below the target is an
   * error. Otherwise chunks are numbered in order and not blank; with a positive
   * target each fits it and there are few; and with a non-negative overlap no
   * visible character is lost, and a text longer than the target is read through
   * windows that share exactly the overlap wherever that still moves on.
   */
  method ChunkDocument(text: string, targetTokens: int, overlapTokens: int) returns (r: Outcome)
    ensures r.OverlapTooLarge? <==> overlapTokens >= targetTokens
    ensures r.Chunks? ==> Numbered(r.chunks) && ContentsOf(r.chunks) == ChunkTexts(text, targetTokens, overlapTokens)
    ensures r.Chunks? ==> |r.chunks| <= |Trim(text)| && forall k :: 0 <= k < |r.chunks| ==> r.chunks[k].content != ""
    ensures r.Chunks? ==> Within(r.chunks, targetTokens * CHARS_PER_TOKEN)
    ensures r.Chunks? && overlapTokens >= 0 ==> Complete(Trim(text), ContentsOf(r.chunks))
    ensures r.Chunks? && overlapTokens >= 0 && |Trim(text)| > targetTokens * CHARS_PER_TOKEN ==>
      ReadThrough(Trim(text), ContentsOf(r.chunks), targetTokens * CHARS_PER_TOKEN, overlapTokens * CHARS_PER_TOKEN)
    ensures r.Chunks? && |Trim(text)| <= targetTokens * CHARS_PER_TOKEN ==>
      ContentsOf(r.chunks) == if Trim(text) == "" then [] else [Trim(text)]
    ensures r.Chunks? && targetTokens >= 1 ==>
      Few(Trim(text), |r.chunks|, Stride(targetTokens * CHARS_PER_TOKEN, overlapTokens * CHARS_PER_TOKEN))
  {
    hide Texts, Complete, Few, Stride, Trim, EstimateTokens, ReadThrough;
    if overlapTokens >= targetTokens { return OverlapTooLarge; }
    var target, overlap := targetTokens * CHARS_PER_TOKEN, overlapTokens * CHARS_PER_TOKEN;
    if overlapTokens >= 0 { ChunksComplete(text, targetTokens, overlapTokens); }
    ChunksFew(text, targetTokens, overlapTokens);
    if overlapTokens >= 0 && |Trim(text)| > target { ChunksReadThrough(text, targetTokens, overlapTokens); }
    var trimmed := Trim(text);
    var chunks: seq<Chunk>;
    if trimmed == "" {
      chunks := [];
    } else if |trimmed| <= target {
      chunks := [Chunk(0, trimmed, EstimateTokens(trimmed))];
    } else {
      chunks := ReadWindows(trimmed, target, overlap);
    }
    assert forall k :: 0 <= k < |chunks| ==> ContentsOf(chunks)[k] in ContentsOf(chunks);
    r := Chunks(chunks);
  }

  // ----- When characters are lost -----

  predicate Plain(text: string) {
    forall k :: 0 <= k < |text| ==> text[k] == 'a' || text[k] == 'b'
  }

  /** Without boundaries the window is cut at its end. */
  lemma PlainCut(text: string, start: nat, end: nat)
    requires Plain(text) && start < end < |text|
    ensures CutPoint(text, start, end) == end
  {
    hide SentenceCut;
    SentenceCutIs(text, MinCut(start, end), end);
    Occurrence(text, "\n\n");
    Occurrence(text, " ");
  }

  /** What occurs in a text has its first character there. */
  lemma Occurrence(text: string, p: string)
    requires p != ""
    ensures (exists k :: OccursAt(text, p, k)) ==> p[0] in text
  {
    if k :| OccursAt(text, p, k) { InWindow(text, k, k + |p|, 0); }
  }

  lemma InWindow(text: string, lo: nat, hi: nat, i: nat)
    requires lo <= hi <= |text| && i < hi - lo
    ensures text[lo..hi][i] in text && text[lo..hi][i] == text[lo + i]
  {
  }

  /** A chunk without `b` does not hold a `b` of the text. */
  lemma NotHeld(text: string, contents: seq<string>, k: nat)
    requires k < |text| && text[k] == 'b'
    requires forall c :: c in contents ==> 'b' !in c
    ensures !Holds(text, contents, k)
  {
    forall c: string, lo: nat | OccursAt(text, c, lo) && lo <= k < lo + |c| ensures 'b' in c {
      InWindow(text, lo, lo + |c|, k - lo);
    }
  }

  lemma VisibleWithout(text: string, start: nat, cut: int)
    requires 'b' !in Slice(text, start, cut)
    ensures forall c :: c in Visible(text, start, cut) ==> 'b' !in c
  {
  }

  /** A text that loses its `b`s: one window of `a`s, the stretch a negative overlap
      skips, and one more `a`; for a target below one, two characters suffice. */
  function LossyText(target: int, overlap: int): string
    requires overlap < 0
  {
    if target >= 1 then seq(target, _ => 'a') + seq(-overlap, _ => 'b') + "a" else "ab"
  }

  lemma LossyWindows(target: nat, overlap: int)
    requires target >= 1 && overlap < 0
    ensures forall c :: c in Texts(LossyText(target, overlap), 0, target, overlap) ==> 'b' !in c
  {
    var text := LossyText(target, overlap);
    PlainCut(text, 0, target);
    hide CutPoint, Trim;
    assert WindowEnd(text, 0, target) == target;
    assert Slice(text, 0, target) == text[..target];
    VisibleWithout(text, 0, target);
    var next := NextStart(0, target, overlap);
    assert next == |text| - 1 && WindowEnd(text, next, target) == |text|;
    assert Slice(text, next, |text|) == "a";
    VisibleWithout(text, next, |text|);
    hide Visible, LossyText, WindowEnd;
    assert Texts(text, next, target, overlap) == Visible(text, next, |text|);
  }

  lemma TinyCut(target: int)
    requires target <= 0 && target % CHARS_PER_TOKEN == 0
    ensures WindowEnd("ab", 0, target) == if target == 0 then 0 else 1
  {
    Occurrence("ab", "\n\n");
    Occurrence("ab", " ");
    hide OccursAt;
    assert SentenceCut("ab", MinCut(0, 0), 0) == -1;
  }

  /** With a target below one no window reaches the second character. */
  lemma LossyTiny(target: int, overlap: int)
    requires target <= 0 && overlap < 0 && target % CHARS_PER_TOKEN == 0 && overlap % CHARS_PER_TOKEN == 0
    ensures forall c :: c in Texts("ab", 0, target, overlap) ==> 'b' !in c
  {
    hide WindowEnd, Trim, Visible;
    var text := "ab";
    TinyCut(target);
    var cut := WindowEnd(text, 0, target);
    assert 'b' !in Slice(text, 0, cut) by {
      assert text[0..1] == "a" && text[0..0] == "";
    }
    VisibleWithout(text, 0, cut);
    assert Texts(text, NextStart(0, cut, overlap), target, overlap) == [];
  }

  lemma LossyChunks(target: int, overlap: int)
    requires overlap < 0 && target % CHARS_PER_TOKEN == 0 && overlap % CHARS_PER_TOKEN == 0
    ensures forall c :: c in Texts(LossyText(target, overlap), 0, target, overlap) ==> 'b' !in c
  {
    hide Texts;
    if target >= 1 { LossyWindows(target, overlap); } else { LossyTiny(target, overlap); }
  }

  lemma LossyShape(target: int, overlap: int)
    requires overlap < 0
    ensures var text := LossyText(target, overlap);
      && |text| > target && text != "" && !IsSpace(text[0]) && !IsSpace(text[|text| - 1])
      && exists k: nat :: k < |text| && text[k] == 'b'
  {
    var text := LossyText(target, overlap);
    assert text[if target >= 1 then target else 1] == 'b';
  }

  /** Some text loses a character for every target and every negative overlap. */
  lemma NegativeOverlapLoses(targetTokens: int, overlapTokens: int)
    requires overlapTokens < targetTokens && overlapTokens < 0
    ensures var text := LossyText(targetTokens * CHARS_PER_TOKEN, overlapTokens * CHARS_PER_TOKEN);
      !Complete(Trim(text), ChunkTexts(text, targetTokens, overlapTokens))
  {
    hide Texts, Trim, LossyText, Holds, IsSpace;
    var target, overlap := targetTokens * CHARS_PER_TOKEN, overlapTokens * CHARS_PER_TOKEN;
    var text := LossyText(target, overlap);
    LossyChunks(target, overlap);
    LossyShape(target, overlap);
    TrimOfTrimmed(text);
    var k: nat :| k < |text| && text[k] == 'b';
    NotHeld(text, Texts(text, 0, target, overlap), k);
    assert !IsSpace('b') by { VisibleB(); }
  }

  lemma VisibleB()
    ensures !IsSpace('b')
  {
  }

  /** Chunking keeps every visible character of every text exactly when the overlap
      is not negative. */
  lemma CompleteIff(targetTokens: int, overlapTokens: int)
    requires overlapTokens < targetTokens
    ensures (forall text :: Complete(Trim(text), ChunkTexts(text, targetTokens, overlapTokens))) <==> overlapTokens >= 0
  {
    hide Trim, Complete, ChunkTexts, LossyText;
    if overlapTokens >= 0 {
      forall text ensures Complete(Trim(text), ChunkTexts(text, targetTokens, overlapTokens)) {
        ChunksComplete(text, targetTokens, overlapTokens);
      }
    } else {
      NegativeOverlapLoses(targetTokens, overlapTokens);
    }
  }
}
