/**
 * Packing messages for translation: consecutive batches under a size limit, and
 * the window of recent messages given as context.
 */
module TranslationBatches {
  import opened Text

  datatype Message = Message(id: string, body: string)

  function Size(ms: seq<Message>): nat {
    if ms == [] then 0 else Size(ms[..|ms| - 1]) + |ms[|ms| - 1].body|
  }

  lemma {:induction false} SizeConcat(a: seq<Message>, b: seq<Message>)
    ensures Size(a + b) == Size(a) + Size(b)
  {
    if b == [] {
      assert a + b == a;
    } else {
      assert (a + b)[..|a + b| - 1] == a + b[..|b| - 1];
      SizeConcat(a, b[..|b| - 1]);
    }
  }

  /** A stretch of messages is no larger than a stretch around it. */
  lemma SizeWithin(ms: seq<Message>, lo: nat, i: nat, j: nat, hi: nat)
    requires lo <= i <= j <= hi <= |ms|
    ensures Size(ms[i..j]) <= Size(ms[lo..hi])
  {
    assert ms[lo..hi] == ms[lo..i] + (ms[i..j] + ms[j..hi]);
    SizeConcat(ms[lo..i], ms[i..j] + ms[j..hi]);
    SizeConcat(ms[i..j], ms[j..hi]);
  }

  // ----- Batches -----

  function Flatten(batches: seq<seq<Message>>): seq<Message> {
    if batches == [] then [] else Flatten(batches[..|batches| - 1]) + batches[|batches| - 1]
  }

  /** A batch may go over the limit only if it is a single message. */
  predicate Fits(batch: seq<Message>, maxChars: int) {
    |batch| == 1 || (|batch| > 1 && Size(batch) <= maxChars)
  }

  /** The messages cut into consecutive batches that each fit. */
  ghost predicate IsSplit(batches: seq<seq<Message>>, messages: seq<Message>, maxChars: int) {
    Flatten(batches) == messages && forall k :: 0 <= k < |batches| ==> Fits(batches[k], maxChars)
  }

  /** No batch has room for the first message of the next one. */
  ghost predicate Tight(batches: seq<seq<Message>>, maxChars: int) {
    forall k :: 0 <= k < |batches| - 1 && batches[k + 1] != [] ==>
      Size(batches[k]) + |batches[k + 1][0].body| > maxChars
  }

  /** Where the first `k` batches end. */
  function Cut(batches: seq<seq<Message>>, k: nat): nat
    requires k <= |batches|
  {
    if k == 0 then 0 else Cut(batches, k - 1) + |batches[k - 1]|
  }

  lemma {:induction false} CutFlatten(batches: seq<seq<Message>>, k: nat)
    requires k <= |batches|
    ensures Cut(batches, k) <= |Flatten(batches)|
    ensures Flatten(batches)[..Cut(batches, k)] == Flatten(batches[..k])
    decreases |batches|
  {
    if k == |batches| {
      CutIsLength(batches);
      assert batches[..k] == batches;
    } else {
      var front := batches[..|batches| - 1];
      CutFlatten(front, k);
      CutPrefix(batches, k);
      assert front[..k] == batches[..k];
    }
  }

  lemma {:induction false} CutIsLength(batches: seq<seq<Message>>)
    ensures Cut(batches, |batches|) == |Flatten(batches)|
  {
    if batches != [] {
      CutIsLength(batches[..|batches| - 1]);
      CutPrefix(batches, |batches| - 1);
    }
  }

  lemma {:induction false} CutPrefix(batches: seq<seq<Message>>, k: nat)
    requires batches != [] && k <= |batches| - 1
    ensures Cut(batches, k) == Cut(batches[..|batches| - 1], k)
  {
    if k > 0 { CutPrefix(batches, k - 1); }
  }

  /** Batch `k` is the stretch between two cuts. */
  lemma BatchIsStretch(batches: seq<seq<Message>>, k: nat)
    requires k < |batches|
    ensures Cut(batches, k) + |batches[k]| == Cut(batches, k + 1) <= |Flatten(batches)|
    ensures Flatten(batches)[Cut(batches, k)..Cut(batches, k + 1)] == batches[k]
  {
    CutFlatten(batches, k);
    CutFlatten(batches, k + 1);
    var all, upto := Flatten(batches), Flatten(batches[..k + 1]);
    assert batches[..k + 1][..k] == batches[..k];
    assert upto == Flatten(batches[..k]) + batches[k];
    assert all[..Cut(batches, k + 1)] == upto;
    assert all[Cut(batches, k)..Cut(batches, k + 1)] == upto[Cut(batches, k)..];
  }

  /** A tight split is never behind: after `k` batches it has covered at least as much. */
  lemma {:induction false} StaysAhead(tight: seq<seq<Message>>, other: seq<seq<Message>>, messages: seq<Message>, maxChars: int, k: nat)
    requires IsSplit(tight, messages, maxChars) && Tight(tight, maxChars)
    requires IsSplit(other, messages, maxChars)
    requires k <= |tight| && k <= |other|
    ensures Cut(tight, k) >= Cut(other, k)
  {
    if k > 0 {
      StaysAhead(tight, other, messages, maxChars, k - 1);
      BatchIsStretch(tight, k - 1);
      BatchIsStretch(other, k - 1);
      if Cut(tight, k) < Cut(other, k) {
        CutIsLength(tight);
        assert k < |tight|;
        Overfull(tight, other, messages, maxChars, k);
      }
    }
  }

  /** A batch reaching past a tight one would hold that batch and one message more. */
  lemma Overfull(tight: seq<seq<Message>>, other: seq<seq<Message>>, messages: seq<Message>, maxChars: int, k: nat)
    requires IsSplit(tight, messages, maxChars) && Tight(tight, maxChars)
    requires IsSplit(other, messages, maxChars)
    requires 0 < k < |tight| && k <= |other|
    requires Cut(tight, k - 1) >= Cut(other, k - 1)
    ensures Cut(tight, k) >= Cut(other, k)
  {
    hide Flatten, Cut, Size;
    BatchIsStretch(tight, k - 1);
    BatchIsStretch(tight, k);
    BatchIsStretch(other, k - 1);
    assert Fits(tight[k - 1], maxChars) && Fits(tight[k], maxChars);
    assert tight[k][0] == messages[Cut(tight, k)];
    NoReach(messages, Cut(other, k - 1), Cut(tight, k - 1), Cut(tight, k), Cut(other, k), maxChars);
  }

  lemma NoReach(messages: seq<Message>, lo: nat, i: nat, j: nat, hi: nat, maxChars: int)
    requires lo <= i < j < |messages| && lo <= hi <= |messages|
    requires Fits(messages[lo..hi], maxChars) && Size(messages[i..j]) + |messages[j].body| > maxChars
    ensures hi <= j
  {
    if j < hi { OneMore(messages, lo, i, j, hi); }
  }

  lemma OneMore(messages: seq<Message>, lo: nat, i: nat, j: nat, hi: nat)
    requires lo <= i <= j < hi <= |messages|
    ensures Size(messages[i..j]) + |messages[j].body| <= Size(messages[lo..hi])
  {
    assert messages[i..j + 1][..j - i] == messages[i..j];
    SizeWithin(messages, lo, i, j + 1, hi);
  }

  /** No split of the same messages uses fewer batches than a tight one. */
  lemma TightIsMinimal(tight: seq<seq<Message>>, other: seq<seq<Message>>, messages: seq<Message>, maxChars: int)
    requires IsSplit(tight, messages, maxChars) && Tight(tight, maxChars)
    requires IsSplit(other, messages, maxChars)
    ensures |tight| <= |other|
  {
    if |other| < |tight| {
      StaysAhead(tight, other, messages, maxChars, |other|);
      CutIsLength(other);
      BatchIsStretch(tight, |other|);
    }
  }

  /** Greedy packing; the result is a split with the fewest batches possible. */
  method BatchMessages(messages: seq<Message>, maxChars: int) returns (batches: seq<seq<Message>>)
    ensures IsSplit(batches, messages, maxChars)
    ensures forall other :: IsSplit(other, messages, maxChars) ==> |batches| <= |other|
  {
    hide Size, Tight, Fits, Flatten;
    batches := [];
    var current: seq<Message> := [];
    var size := 0;
    SizeEmpty();
    for i := 0 to |messages|
      invariant batches == [] || current != []
      invariant Flatten(batches) + current == messages[..i]
      invariant forall k :: 0 <= k < |batches| ==> Fits(batches[k], maxChars)
      invariant size == Size(current)
      invariant current == [] ==> i == 0 && batches == []
      invariant current != [] ==> Fits(current, maxChars) && Tight(batches + [current], maxChars)
    {
      var message := messages[i];
      assert messages[..i + 1] == messages[..i] + [message];
      if |current| > 0 && size + |message.body| > maxChars {
        TightGrows(batches, current, message, maxChars);
        FlattenAppend(batches, current);
        batches := batches + [current];
        current := [];
        size := 0;
        SizeEmpty();
        assert current + [message] == [message];
      } else {
        TightExtends(batches, current, message, maxChars);
      }
      PushFits(current, message, maxChars);
      current := current + [message];
      size := size + |message.body|;
    }
    assert messages[..|messages|] == messages;
    if |current| > 0 {
      FlattenAppend(batches, current);
      batches := batches + [current];
    } else {
      NoBatches(maxChars);
    }
    forall other | IsSplit(other, messages, maxChars) ensures |batches| <= |other| {
      TightIsMinimal(batches, other, messages, maxChars);
    }
  }

  lemma SizeEmpty()
    ensures Size([]) == 0 && Flatten([]) == []
  {
  }

  lemma NoBatches(maxChars: int)
    ensures Tight([], maxChars)
  {
  }

  lemma FlattenAppend(batches: seq<seq<Message>>, batch: seq<Message>)
    ensures Flatten(batches + [batch]) == Flatten(batches) + batch
  {
    assert (batches + [batch])[..|batches|] == batches;
  }

  lemma PushFits(current: seq<Message>, message: Message, maxChars: int)
    ensures Size(current + [message]) == Size(current) + |message.body|
    ensures current == [] || Size(current) + |message.body| <= maxChars ==> Fits(current + [message], maxChars)
  {
    assert (current + [message])[..|current|] == current;
  }

  lemma TightGrows(batches: seq<seq<Message>>, current: seq<Message>, message: Message, maxChars: int)
    requires current != [] && Tight(batches + [current], maxChars) && Size(current) + |message.body| > maxChars
    ensures Tight(batches + [current] + [[message]], maxChars)
  {
    var was: seq<seq<Message>> := batches + [current];
    var now: seq<seq<Message>> := was + [[message]];
    forall k | 0 <= k < |now| - 1 && now[k + 1] != [] ensures Size(now[k]) + |now[k + 1][0].body| > maxChars {
      if k + 1 < |was| { assert was[k] == now[k] && was[k + 1] == now[k + 1]; }
    }
  }

  lemma TightExtends(batches: seq<seq<Message>>, current: seq<Message>, message: Message, maxChars: int)
    requires if current == [] then batches == [] else Tight(batches + [current], maxChars)
    ensures Tight(batches + [current + [message]], maxChars)
  {
    var was: seq<seq<Message>> := batches + [current];
    var now: seq<seq<Message>> := batches + [current + [message]];
    forall k | 0 <= k < |now| - 1 && now[k + 1] != [] ensures Size(now[k]) + |now[k + 1][0].body| > maxChars {
      assert was[k] == now[k] && now[k + 1][0] == was[k + 1][0];
    }
  }

  // ----- Context window -----

  /** The last `maxChars` characters as `slice(-maxChars)` gives them: all of them for 0. */
  function Clip(m: Message, maxChars: int): Message {
    if |m.body| > maxChars then m.(body := Slice(m.body, -maxChars, |m.body|)) else m
  }

  /** A clipped body is the end of the whole one, as much of it as the limit allows. */
  lemma ClipKeepsEnd(m: Message, maxChars: int)
    requires maxChars >= 1
    ensures var clipped := Clip(m, maxChars);
      && clipped.id == m.id && EndsWith(m.body, clipped.body)
      && |clipped.body| == if |m.body| <= maxChars then |m.body| else maxChars
  {
    assert m.body[0..] == m.body;
  }

  function ClipAll(ms: seq<Message>, maxChars: int): (r: seq<Message>)
    ensures |r| == |ms|
    ensures forall k :: 0 <= k < |ms| ==> r[k] == Clip(ms[k], maxChars)
  {
    seq(|ms|, k requires 0 <= k < |ms| => Clip(ms[k], maxChars))
  }

  /** `n` messages at the end are the longest run the limits allow: the newest one
      always, more only while their bodies stay within the limit together. */
  ghost predicate LongestRun(messages: seq<Message>, n: nat, maxMessages: int, maxChars: int) {
    && n <= |messages| && (n > 0 ==> n <= maxMessages)
    && (n >= 2 ==> Size(messages[|messages| - n..]) <= maxChars)
    && (n == |messages| || n >= maxMessages || (n >= 1 && Size(messages[|messages| - n - 1..]) > maxChars))
  }

  lemma SizePrepend(m: Message, ms: seq<Message>)
    ensures Size([m] + ms) == |m.body| + Size(ms)
  {
    SizeConcat([m], ms);
    assert [m][..0] == [];
  }

  /** With a positive limit the clipped run stays within it. */
  lemma {:induction false} ClippedFits(ms: seq<Message>, maxChars: int)
    requires maxChars >= 1 && (|ms| >= 2 ==> Size(ms) <= maxChars)
    ensures Size(ClipAll(ms, maxChars)) <= maxChars
  {
    if |ms| == 1 {
      assert ClipAll(ms, maxChars)[..0] == [];
    } else if |ms| >= 2 {
      forall k | 0 <= k < |ms| ensures Clip(ms[k], maxChars) == ms[k] {
        assert ms[0..|ms|] == ms;
        assert ms[k..k + 1] == [ms[k]] && [ms[k]][..0] == [];
        SizeWithin(ms, 0, k, k + 1, |ms|);
      }
      assert ClipAll(ms, maxChars) == ms;
    }
  }

  /** The context window: the longest run the limits allow, each message clipped. */
  ghost predicate IsWindow(window: seq<Message>, messages: seq<Message>, maxMessages: int, maxChars: int) {
    && LongestRun(messages, |window|, maxMessages, maxChars)
    && window == ClipAll(messages[|messages| - |window|..], maxChars)
  }

  /** Nothing to show, or a newest message without text. */
  predicate NothingToClip(messages: seq<Message>, maxMessages: int) {
    messages == [] || maxMessages <= 0 || messages[|messages| - 1].body == ""
  }

  /** With a limit of zero nothing is clipped, so the newest message goes out whole. */
  lemma ZeroLimitWindow(messages: seq<Message>, maxMessages: int, window: seq<Message>)
    requires IsWindow(window, messages, maxMessages, 0)
    ensures Size(window) == 0 <==> NothingToClip(messages, maxMessages)
  {
    hide Size, ClipAll, Clip;
    ClippedAtZero(messages[|messages| - |window|..]);
    assert window == messages[|messages| - |window|..];
    if window == [] {
      SizeEmpty();
    } else {
      assert window[|window| - 1] == messages[|messages| - 1];
      SizeLast(window);
    }
  }

  lemma ClippedAtZero(ms: seq<Message>)
    ensures ClipAll(ms, 0) == ms
  {
    forall k | 0 <= k < |ms| ensures Clip(ms[k], 0) == ms[k] {
      assert ms[k].body[0..|ms[k].body|] == ms[k].body;
    }
  }

  lemma SizeLast(ms: seq<Message>)
    requires ms != []
    ensures Size(ms) >= |ms[|ms| - 1].body|
    ensures |ms| == 1 ==> Size(ms) == |ms[0].body|
  {
    assert |ms| == 1 ==> ms[..0] == [];
  }

  /** Exactly when the window keeps its character limit: always for a positive
      one, never for a negative one, and for zero only with nothing to clip. */
  lemma WindowFitsIff(messages: seq<Message>, maxMessages: int, maxChars: int, window: seq<Message>)
    requires IsWindow(window, messages, maxMessages, maxChars)
    ensures Size(window) <= maxChars <==> maxChars >= 1 || (maxChars == 0 && NothingToClip(messages, maxMessages))
  {
    if maxChars >= 1 {
      ClippedFits(messages[|messages| - |window|..], maxChars);
    } else if maxChars == 0 {
      ZeroLimitWindow(messages, maxMessages, window);
    }
  }

  /** A limit of zero characters lets a whole message through. */
  lemma ZeroLimitExceeded()
    ensures var m := Message("1", "hello"); IsWindow([m], [m], 6, 0) && Size([m]) == 5 > 0
  {
    var m := Message("1", "hello");
    assert [m][..0] == [] && [m][0..] == [m];
    ClippedAtZero([m]);
  }

  lemma SuffixStep(messages: seq<Message>, i: nat, maxChars: int)
    requires i < |messages|
    ensures Size(messages[i..]) == |messages[i].body| + Size(messages[i + 1..])
    ensures ClipAll(messages[i..], maxChars) == [Clip(messages[i], maxChars)] + ClipAll(messages[i + 1..], maxChars)
  {
    hide Size, Clip;
    assert messages[i..] == [messages[i]] + messages[i + 1..];
    SizePrepend(messages[i], messages[i + 1..]);
    ClipStep(messages[i], messages[i + 1..], maxChars);
  }

  lemma ClipStep(m: Message, ms: seq<Message>, maxChars: int)
    ensures ClipAll([m] + ms, maxChars) == [Clip(m, maxChars)] + ClipAll(ms, maxChars)
  {
    hide Clip;
  }

  /** The newest `n` messages have been gathered into the window. */
  ghost predicate Gathered(messages: seq<Message>, n: nat, window: seq<Message>, size: nat, maxMessages: int, maxChars: int) {
    && n <= |messages| && |window| == n && (n > 0 ==> n <= maxMessages)
    && window == ClipAll(messages[|messages| - n..], maxChars)
    && size == Size(messages[|messages| - n..]) && (n >= 2 ==> size <= maxChars)
  }

  lemma GatherMore(messages: seq<Message>, n: nat, window: seq<Message>, size: nat, maxMessages: int, maxChars: int)
    requires Gathered(messages, n, window, size, maxMessages, maxChars) && n < |messages| && n < maxMessages
    requires var m := messages[|messages| - 1 - n]; n == 0 || size + |m.body| <= maxChars
    ensures var m := messages[|messages| - 1 - n];
      Gathered(messages, n + 1, [Clip(m, maxChars)] + window, size + |m.body|, maxMessages, maxChars)
  {
    hide Clip, Size;
    SuffixStep(messages, |messages| - 1 - n, maxChars);
  }

  lemma GatherDone(messages: seq<Message>, n: nat, window: seq<Message>, size: nat, maxMessages: int, maxChars: int)
    requires Gathered(messages, n, window, size, maxMessages, maxChars)
    requires n == |messages| || n >= maxMessages || (n >= 1 && size + |messages[|messages| - 1 - n].body| > maxChars)
    ensures IsWindow(window, messages, maxMessages, maxChars)
  {
    hide Clip, Size, ClipAll;
    if n < |messages| { SuffixStep(messages, |messages| - 1 - n, maxChars); }
  }

  lemma GatherNone(messages: seq<Message>, maxMessages: int, maxChars: int)
    ensures Gathered(messages, 0, [], 0, maxMessages, maxChars)
  {
    assert messages[|messages|..] == [];
  }

  method ContextWindow(messages: seq<Message>, maxMessages: int, maxChars: int) returns (window: seq<Message>)
    ensures IsWindow(window, messages, maxMessages, maxChars)
    ensures Size(window) <= maxChars <==> maxChars >= 1 || (maxChars == 0 && NothingToClip(messages, maxMessages))
  {
    hide Size, ClipAll, Clip, IsWindow;
    window := [];
    var size := 0;
    var i := |messages| - 1;
    GatherNone(messages, maxMessages, maxChars);
    while i >= 0 && |window| < maxMessages
      invariant -1 <= i < |messages| && |window| == |messages| - 1 - i && size >= 0
      invariant Gathered(messages, |window|, window, size, maxMessages, maxChars)
    {
      var message := messages[i];
      if |window| > 0 && size + |message.body| > maxChars { break; }
      GatherMore(messages, |window|, window, size, maxMessages, maxChars);
      size := size + |message.body|;
      window := [Clip(message, maxChars)] + window;
      i := i - 1;
    }
    GatherDone(messages, |window|, window, size, maxMessages, maxChars);
    WindowFitsIff(messages, maxMessages, maxChars, window);
  }
}
