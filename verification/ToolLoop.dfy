/**
 * The agent's tool loop: the transcript handed to the provider, the eviction of
 * old tool results, and the compaction of the conversation history.
 */
module ToolLoop {
  import opened Options
  import opened Text
  import DiffLines

  datatype Role = System | User | Assistant | Tool
  datatype Call = Call(id: string, name: string)
  datatype ChatMessage = ChatMessage(role: Role, content: Option<string>, calls: seq<Call>, callId: string)

  const MAX_TOTAL_TOOL_RESULT_CHARS := 160_000

  // ----- Pairing of calls and results -----

  /** Tool messages that answer the calls one by one, in order. */
  predicate Answers(ms: seq<ChatMessage>, calls: seq<Call>) {
    |ms| == |calls| && forall k :: 0 <= k < |calls| ==>
      ms[k].role == Tool && ms[k].calls == [] && ms[k].callId == calls[k].id
  }

  /** Each message with calls is followed at once by exactly its answers, and tool
      messages stand nowhere else. */
  predicate Paired(ms: seq<ChatMessage>)
    decreases |ms|
  {
    if ms == [] then true
    else
      var n := |ms[0].calls|;
      && ms[0].role != Tool && (n > 0 ==> ms[0].role == Assistant)
      && n < |ms| && Answers(ms[1..1 + n], ms[0].calls) && Paired(ms[1 + n..])
  }

  lemma {:induction false} PairedConcat(a: seq<ChatMessage>, b: seq<ChatMessage>)
    requires Paired(a) && Paired(b)
    ensures Paired(a + b)
    decreases |a|
  {
    hide Answers;
    if a == [] {
      assert a + b == b;
    } else {
      var n := |a[0].calls|;
      assert (a + b)[1..1 + n] == a[1..1 + n];
      assert (a + b)[1 + n..] == a[1 + n..] + b;
      PairedConcat(a[1 + n..], b);
    }
  }

  lemma FirstAnswers(ms: seq<ChatMessage>, k: nat)
    requires Paired(ms) && ms != [] && k < |ms[0].calls|
    ensures ms[0].role == Assistant && 1 + k < |ms|
    ensures ms[1 + k].role == Tool && ms[1 + k].calls == [] && ms[1 + k].callId == ms[0].calls[k].id
  {
    assert ms[1..1 + |ms[0].calls|][k] == ms[1 + k];
  }

  /** In a paired list the calls of a message are answered by the messages right after it. */
  lemma {:induction false} PairedAt(ms: seq<ChatMessage>, j: nat, k: nat)
    requires Paired(ms) && j < |ms| && k < |ms[j].calls|
    ensures ms[j].role == Assistant && j + 1 + k < |ms|
    ensures ms[j + 1 + k].role == Tool && ms[j + 1 + k].calls == [] && ms[j + 1 + k].callId == ms[j].calls[k].id
    decreases |ms|
  {
    hide Answers;
    var n := |ms[0].calls|;
    if j == 0 {
      FirstAnswers(ms, k);
    } else {
      forall i | 1 <= i <= n ensures ms[i].calls == [] {
        FirstAnswers(ms, i - 1);
      }
      assert j > n;
      var rest := ms[1 + n..];
      assert rest[j - 1 - n] == ms[j];
      PairedAt(rest, j - 1 - n, k);
      assert rest[j - 1 - n + 1 + k] == ms[j + 1 + k];
    }
  }

  /** And every tool message answers a call of the last message before it that made any. */
  lemma {:induction false} ToolAnswers(ms: seq<ChatMessage>, i: nat) returns (j: nat)
    requires Paired(ms) && i < |ms| && ms[i].role == Tool
    ensures j < i <= j + |ms[j].calls| && ms[i].callId == ms[j].calls[i - j - 1].id
    decreases |ms|
  {
    hide Answers;
    var n := |ms[0].calls|;
    if i <= n {
      j := 0;
      FirstAnswers(ms, i - 1);
    } else {
      var rest := ms[1 + n..];
      assert rest[i - 1 - n] == ms[i];
      var r := ToolAnswers(rest, i - 1 - n);
      j := r + 1 + n;
      assert rest[r] == ms[j];
    }
  }

  /** Only contents differ. */
  ghost predicate SameSkeleton(a: seq<ChatMessage>, b: seq<ChatMessage>) {
    |a| == |b| && forall k :: 0 <= k < |a| ==>
      a[k].role == b[k].role && a[k].calls == b[k].calls && a[k].callId == b[k].callId
  }

  lemma {:induction false} SkeletonPaired(a: seq<ChatMessage>, b: seq<ChatMessage>)
    requires SameSkeleton(a, b) && Paired(a)
    ensures Paired(b)
    decreases |a|
  {
    if a != [] {
      var n := |a[0].calls|;
      var x, y := a[1..1 + n], b[1..1 + n];
      forall k | 0 <= k < n ensures y[k].role == x[k].role && y[k].calls == x[k].calls && y[k].callId == x[k].callId {
      }
      SkeletonPaired(a[1 + n..], b[1 + n..]);
    }
  }

  // ----- Eviction -----

  predicate NameChar(c: char) {
    'A' <= c <= 'Z' || 'a' <= c <= 'z' || '0' <= c <= '9' || c == '_' || c == '.' || c == ':' || c == '-'
  }

  function Cleaned(name: string): string {
    if name == "" then "" else (if NameChar(name[0]) then [name[0]] else "") + Cleaned(name[1..])
  }

  function SanitizeToolName(name: string): string {
    var cleaned := Cleaned(name);
    var cut := if |cleaned| > 64 then cleaned[..64] else cleaned;
    if cut == "" then "unknown" else cut
  }

  /** Letters, digits and four signs, no more: each range with its ends, and what
      stands next to them. */
  lemma NameCharRanges(c: char)
    ensures NameChar('A') && NameChar('Z') && NameChar('a') && NameChar('z') && NameChar('0') && NameChar('9')
    ensures NameChar('_') && NameChar('.') && NameChar(':') && NameChar('-')
    ensures 'A' < c < 'Z' || 'a' < c < 'z' || '0' < c < '9' ==> NameChar(c)
    ensures c < '-' || c > 'z' || c == '/' || ('9' < c < 'A' && c != ':') || ('Z' < c < 'a' && c != '_') ==> !NameChar(c)
  {
  }

  lemma {:induction false} CleanedChars(name: string)
    ensures |Cleaned(name)| <= |name| && forall k :: 0 <= k < |Cleaned(name)| ==> NameChar(Cleaned(name)[k])
    ensures (forall k :: 0 <= k < |name| ==> NameChar(name[k])) ==> Cleaned(name) == name
    ensures (forall k :: 0 <= k < |name| ==> !NameChar(name[k])) ==> Cleaned(name) == ""
  {
    if name != "" {
      CleanedChars(name[1..]);
      assert name == [name[0]] + name[1..];
      assert forall k :: 0 <= k < |name[1..]| ==> name[1..][k] == name[k + 1];
    }
  }

  /** A tool name in a note is never empty, never longer than 64 characters and holds
      nothing but name characters; a name that is so already is kept, up to that
      length, and one without any is called unknown. */
  lemma SanitizedName(name: string)
    ensures var r := SanitizeToolName(name);
      && 1 <= |r| <= 64 && (forall k :: 0 <= k < |r| ==> NameChar(r[k]))
      && (name != "" && (forall k :: 0 <= k < |name| ==> NameChar(name[k])) ==>
            r == if |name| <= 64 then name else name[..64])
      && ((forall k :: 0 <= k < |name| ==> !NameChar(name[k])) ==> r == "unknown")
  {
    CleanedChars(name);
    hide Cleaned;
  }

  function ElidedNote(name: string): string {
    "<tool_result tool=\"" + SanitizeToolName(name)
    + "\">[Earlier result omitted to stay inside the context window. Call the tool again if you still need it.]</tool_result>"
  }

  predicate IsResult(m: ChatMessage) {
    m.role == Tool && m.content.Some?
  }

  function Length(m: ChatMessage): nat {
    if IsResult(m) then |m.content.value| else 0
  }

  function Total(ms: seq<ChatMessage>): nat {
    if ms == [] then 0 else Total(ms[..|ms| - 1]) + Length(ms[|ms| - 1])
  }

  function NoteFor(m: ChatMessage, names: map<string, string>): string {
    ElidedNote(if m.callId in names then names[m.callId] else "unknown")
  }

  /** The note that would replace a message. */
  type Note = ChatMessage -> string

  function Notes(names: map<string, string>): Note {
    m => NoteFor(m, names)
  }

  /** A result shrinks to its note when the note is shorter. */
  function Shrunk(m: ChatMessage, note: Note): ChatMessage {
    if IsResult(m) && |note(m)| < |m.content.value| then m.(content := Some(note(m))) else m
  }

  /** The transcript with every result before position `p` shrunk. */
  function ShrunkBefore(ms: seq<ChatMessage>, note: Note, p: nat): (r: seq<ChatMessage>)
    requires p <= |ms|
    ensures |r| == |ms|
    ensures forall k :: 0 <= k < |ms| ==> r[k] == if k < p then Shrunk(ms[k], note) else ms[k]
  {
    seq(|ms|, k requires 0 <= k < |ms| => if k < p then Shrunk(ms[k], note) else ms[k])
  }

  /** Positions of the tool results among the first `n` messages, in order. */
  function ResultPositions(ms: seq<ChatMessage>, n: nat): seq<nat>
    requires n <= |ms|
  {
    if n == 0 then [] else ResultPositions(ms, n - 1) + if IsResult(ms[n - 1]) then [n - 1] else []
  }

  ghost predicate NoResult(ms: seq<ChatMessage>, lo: nat, hi: nat) {
    forall i :: lo <= i < hi && i < |ms| ==> !IsResult(ms[i])
  }

  /** Each position is a result, and no result stands between neighbours, before
      the first or after the last. */
  lemma {:induction false} PositionsExact(ms: seq<ChatMessage>, n: nat, k: nat)
    requires n <= |ms| && k < |ResultPositions(ms, n)|
    ensures var idx := ResultPositions(ms, n);
      && idx[k] < n && IsResult(ms[idx[k]])
      && (k == 0 ==> NoResult(ms, 0, idx[0]))
      && (k + 1 < |idx| ==> idx[k] < idx[k + 1] && NoResult(ms, idx[k] + 1, idx[k + 1]))
      && (k + 1 == |idx| ==> NoResult(ms, idx[k] + 1, n))
  {
    var idx := ResultPositions(ms, n);
    if IsResult(ms[n - 1]) {
      var before := ResultPositions(ms, n - 1);
      if k < |before| {
        PositionsExact(ms, n - 1, k);
      } else if |before| == 0 {
        NoPositions(ms, n - 1);
      }
    } else {
      PositionsExact(ms, n - 1, k);
    }
  }

  lemma {:induction false} NoPositions(ms: seq<ChatMessage>, n: nat)
    requires n <= |ms| && ResultPositions(ms, n) == []
    ensures NoResult(ms, 0, n)
  {
    if n > 0 { NoPositions(ms, n - 1); }
  }

  /** `p` is the newest tool result's position, or 0 if there is none. */
  ghost predicate Newest(ms: seq<ChatMessage>, p: nat) {
    && (p > 0 ==> p < |ms| && IsResult(ms[p]))
    && (forall k :: p < k < |ms| ==> !IsResult(ms[k]))
  }

  /**
   * What eviction leaves: results shrunk from the oldest on, up to a position `p`
   * that never passes the newest result; it stops as soon as the budget is met.
   */
  ghost predicate Evicted(was: seq<ChatMessage>, now: seq<ChatMessage>, note: Note, budget: int, p: nat) {
    && p <= |was| && now == ShrunkBefore(was, note, p)
    && (exists last: nat :: Newest(was, last) && p <= last && (Total(now) <= budget || p == last))
    && (p > 0 ==> Total(ShrunkBefore(was, note, p - 1)) > budget)
  }

  lemma {:induction false} TotalUpdate(ms: seq<ChatMessage>, i: nat, m: ChatMessage)
    requires i < |ms|
    ensures Total(ms[i := m]) == Total(ms) - Length(ms[i]) + Length(m)
  {
    var front := ms[..|ms| - 1];
    if i == |ms| - 1 {
      assert ms[i := m][..|ms| - 1] == front;
    } else {
      assert ms[i := m][..|ms| - 1] == front[i := m];
      TotalUpdate(front, i, m);
    }
  }

  /** Moving the position over other messages changes nothing. */
  lemma ShrunkSkip(ms: seq<ChatMessage>, note: Note, p: nat, q: nat)
    requires p <= q <= |ms| && forall k :: p <= k < q ==> !IsResult(ms[k])
    ensures ShrunkBefore(ms, note, p) == ShrunkBefore(ms, note, q)
  {
  }

  lemma ShrunkNext(ms: seq<ChatMessage>, note: Note, p: nat)
    requires p < |ms|
    ensures ShrunkBefore(ms, note, p + 1) == ShrunkBefore(ms, note, p)[p := Shrunk(ms[p], note)]
    ensures Total(ShrunkBefore(ms, note, p + 1)) ==
      Total(ShrunkBefore(ms, note, p)) - Length(ms[p]) + Length(Shrunk(ms[p], note))
  {
    TotalUpdate(ShrunkBefore(ms, note, p), p, Shrunk(ms[p], note));
  }

  /** Eviction keeps calls and results paired. */
  lemma EvictionKeepsPairing(was: seq<ChatMessage>, now: seq<ChatMessage>, note: Note, budget: int, p: nat)
    requires Evicted(was, now, note, budget, p)
    ensures SameSkeleton(was, now)
    ensures Paired(was) ==> Paired(now)
  {
    if Paired(was) { SkeletonPaired(was, now); }
  }

  /** Afterwards the results fit the budget, or no older result is longer than
      its note; the newest result is as it was. */
  lemma EvictionOutcome(was: seq<ChatMessage>, now: seq<ChatMessage>, note: Note, budget: int, p: nat, last: nat)
    requires Evicted(was, now, note, budget, p) && Newest(was, last)
    ensures last < |was| ==> now[last] == was[last]
    ensures forall k :: 0 <= k < |was| && now[k] != was[k] ==>
      k < last && IsResult(was[k]) && |note(was[k])| < |was[k].content.value| && now[k] == was[k].(content := Some(note(was[k])))
    ensures Total(now) <= budget ||
      forall k :: 0 <= k < last && IsResult(now[k]) ==> |now[k].content.value| <= |note(was[k])|
  {
  }

  // ----- The transcript -----

  class Transcript {
    var messages: seq<ChatMessage>

    constructor (messages: seq<ChatMessage>)
      ensures this.messages == messages
    {
      this.messages := messages;
    }

    method Push(m: ChatMessage)
      modifies this
      ensures messages == old(messages) + [m]
    {
      messages := messages + [m];
    }

    /** Shrinks old results in place, oldest first, until the budget is met. */
    method EvictOldToolResults(names: map<string, string>, budget: int)
      modifies this
      ensures exists p: nat :: Evicted(old(messages), messages, Notes(names), budget, p)
    {
      EvictWith(Notes(names), budget);
    }

    method EvictWith(note: Note, budget: int)
      modifies this
      ensures exists p: nat :: Evicted(old(messages), messages, note, budget, p)
    {
      ghost var was := messages;
      var toolIndexes, total := CollectResults(messages);
      hide Partial, Evicted, ResultPositions, Total;
      if |toolIndexes| == 0 {
        NothingToEvict(was, note, budget, toolIndexes);
        return;
      }
      PartialStart(was, note, budget, toolIndexes);
      ghost var p := 0;
      for k := 0 to |toolIndexes| - 1
        invariant Partial(was, messages, note, budget, p, toolIndexes[k])
        invariant total == Total(messages)
      {
        if total <= budget {
          PartialDone(was, messages, note, budget, p, toolIndexes, k);
          return;
        }
        PartialBounds(was, messages, note, budget, p, toolIndexes[k]);
        PartialStep(was, messages, note, budget, p, toolIndexes, k);
        total := ShrinkAt(toolIndexes[k], note, total);
        p := toolIndexes[k] + 1;
      }
      PartialDone(was, messages, note, budget, p, toolIndexes, |toolIndexes| - 1);
    }

    /** Shrinks one result, if its note is shorter, and adjusts the total. */
    method ShrinkAt(index: nat, note: Note, total: int) returns (left: int)
      requires index < |messages| && IsResult(messages[index]) && total == Total(messages)
      modifies this
      ensures messages == old(messages)[index := Shrunk(old(messages)[index], note)]
      ensures left == Total(messages)
    {
      left := total;
      var msg := messages[index];
      var short := note(msg);
      TotalUpdate(messages, index, Shrunk(msg, note));
      if |short| < |msg.content.value| {
        left := left - (|msg.content.value| - |short|);
        messages := messages[index := msg.(content := Some(short))];
      }
    }
  }

  /** Eviction under way: everything before `p` is shrunk, no result stands
      between `p` and `at`, and the budget was still exceeded just before `p`. */
  ghost predicate Partial(was: seq<ChatMessage>, now: seq<ChatMessage>, note: Note, budget: int, p: nat, at: nat) {
    && p <= at < |was| && IsResult(was[at])
    && NoResult(was, p, at)
    && now == ShrunkBefore(was, note, p)
    && (p > 0 ==> Total(ShrunkBefore(was, note, p - 1)) > budget)
  }

  lemma NothingToEvict(was: seq<ChatMessage>, note: Note, budget: int, idx: seq<nat>)
    requires idx == ResultPositions(was, |was|) && idx == []
    ensures Evicted(was, was, note, budget, 0)
  {
    NoPositions(was, |was|);
    assert Newest(was, 0);
    assert was == ShrunkBefore(was, note, 0);
  }

  lemma PartialStart(was: seq<ChatMessage>, note: Note, budget: int, idx: seq<nat>)
    requires idx == ResultPositions(was, |was|) && idx != []
    ensures Partial(was, was, note, budget, 0, idx[0])
  {
    PositionsExact(was, |was|, 0);
    assert was == ShrunkBefore(was, note, 0);
  }

  lemma PartialBounds(was: seq<ChatMessage>, now: seq<ChatMessage>, note: Note, budget: int, p: nat, at: nat)
    requires Partial(was, now, note, budget, p, at)
    ensures |now| == |was| && at < |now| && IsResult(now[at])
  {
  }

  lemma PartialStep(was: seq<ChatMessage>, now: seq<ChatMessage>, note: Note, budget: int, p: nat, idx: seq<nat>, k: nat)
    requires idx == ResultPositions(was, |was|) && k + 1 < |idx|
    requires Partial(was, now, note, budget, p, idx[k]) && Total(now) > budget
    ensures IsResult(now[idx[k]])
    ensures Partial(was, now[idx[k] := Shrunk(now[idx[k]], note)], note, budget, idx[k] + 1, idx[k + 1])
  {
    hide Shrunk, ResultPositions, Total;
    ShrunkSkip(was, note, p, idx[k]);
    ShrunkNext(was, note, idx[k]);
    PositionsExact(was, |was|, k);
    PositionsExact(was, |was|, k + 1);
  }

  lemma LastIsNewest(was: seq<ChatMessage>, idx: seq<nat>, k: nat, p: nat)
    requires idx == ResultPositions(was, |was|) && k < |idx| && p <= idx[k]
    ensures Newest(was, idx[|idx| - 1]) && p <= idx[|idx| - 1] < |was|
    decreases |idx| - k
  {
    PositionsExact(was, |was|, |idx| - 1);
    PositionsExact(was, |was|, k);
    if k + 1 < |idx| { LastIsNewest(was, idx, k + 1, p); }
  }

  lemma PartialDone(was: seq<ChatMessage>, now: seq<ChatMessage>, note: Note, budget: int, p: nat, idx: seq<nat>, k: nat)
    requires idx == ResultPositions(was, |was|) && k < |idx|
    requires Partial(was, now, note, budget, p, idx[k]) && (Total(now) <= budget || k == |idx| - 1)
    ensures exists q: nat :: Evicted(was, now, note, budget, q)
  {
    hide ShrunkBefore, Shrunk, Total, ResultPositions;
    var last := idx[|idx| - 1];
    LastIsNewest(was, idx, k, p);
    if Total(now) <= budget || p == last {
      assert Evicted(was, now, note, budget, p);
    } else {
      ShrunkSkip(was, note, p, last);
      ShrunkSkip(was, note, p, last - 1);
      assert Evicted(was, now, note, budget, last);
    }
  }

  lemma TotalStep(ms: seq<ChatMessage>, i: nat)
    requires i < |ms|
    ensures Total(ms[..i + 1]) == Total(ms[..i]) + Length(ms[i])
  {
    assert ms[..i + 1][..i] == ms[..i];
  }

  method CollectResults(messages: seq<ChatMessage>) returns (toolIndexes: seq<nat>, total: nat)
    ensures toolIndexes == ResultPositions(messages, |messages|)
    ensures total == Total(messages)
  {
    toolIndexes, total := [], 0;
    for i := 0 to |messages|
      invariant toolIndexes == ResultPositions(messages, i)
      invariant total == Total(messages[..i])
    {
      hide Total;
      TotalStep(messages, i);
      if IsResult(messages[i]) {
        toolIndexes := toolIndexes + [i];
        total := total + |messages[i].content.value|;
      }
    }
    assert messages[..|messages|] == messages;
  }

  // ----- The loop -----

  /** No elision note is longer than this: 64 characters of tool name in a fixed frame. */
  const MAX_NOTE_CHARS := 200

  lemma NoteBound(names: map<string, string>)
    ensures forall m :: |Notes(names)(m)| <= MAX_NOTE_CHARS
  {
  }

  /** The tool results fit the budget, or all but the newest are down to note size. */
  ghost predicate Settled(ms: seq<ChatMessage>) {
    || Total(ms) <= MAX_TOTAL_TOOL_RESULT_CHARS
    || exists last: nat :: Newest(ms, last) &&
         forall k :: 0 <= k < last && k < |ms| && IsResult(ms[k]) ==> |ms[k].content.value| <= MAX_NOTE_CHARS
  }

  lemma EvictionSettles(was: seq<ChatMessage>, now: seq<ChatMessage>, note: Note, p: nat)
    requires Evicted(was, now, note, MAX_TOTAL_TOOL_RESULT_CHARS, p)
    requires forall m :: |note(m)| <= MAX_NOTE_CHARS
    ensures Settled(now)
  {
    var last: nat :| Newest(was, last) && p <= last && (Total(now) <= MAX_TOTAL_TOOL_RESULT_CHARS || p == last);
    EvictionOutcome(was, now, note, MAX_TOTAL_TOOL_RESULT_CHARS, p, last);
    forall k | 0 <= k < |was| ensures IsResult(now[k]) == IsResult(was[k]) {
    }
    assert Newest(now, last);
  }

  /** What the provider may answer; `imageTrouble` marks an error worth a retry without images. */
  datatype Response =
    | Replied(content: Option<string>, calls: seq<Call>, finishedForTools: bool)
    | Failed(imageTrouble: bool)

  datatype Outcome = Answer(body: string) | IterationLimit | Aborted | ProviderFailed | ToolFailed

  /** History and system messages carry no calls and no results. */
  predicate IsPrelude(ms: seq<ChatMessage>) {
    forall k :: 0 <= k < |ms| ==> ms[k].role != Tool && ms[k].calls == []
  }

  lemma {:induction false} PreludePaired(ms: seq<ChatMessage>)
    requires IsPrelude(ms)
    ensures Paired(ms) && Total(ms) == 0
  {
    if ms != [] {
      PreludePaired(ms[1..]);
      assert ms[1..1] == [];
      PreludeTotal(ms);
    }
  }

  lemma {:induction false} PreludeTotal(ms: seq<ChatMessage>)
    requires IsPrelude(ms)
    ensures Total(ms) == 0
  {
    if ms != [] { PreludeTotal(ms[..|ms| - 1]); }
  }

  lemma RoundPaired(ms: seq<ChatMessage>, request: ChatMessage, answers: seq<ChatMessage>)
    requires Paired(ms) && request.role == Assistant && Answers(answers, request.calls)
    ensures Paired(ms + [request] + answers)
  {
    hide Paired, Answers;
    OneRoundPaired(request, answers);
    PairedConcat(ms, [request] + answers);
    assert ms + ([request] + answers) == ms + [request] + answers;
  }

  lemma OneRoundPaired(request: ChatMessage, answers: seq<ChatMessage>)
    requires request.role == Assistant && Answers(answers, request.calls)
    ensures Paired([request] + answers)
  {
    var round, n := [request] + answers, |request.calls|;
    assert round[1..1 + n] == answers;
    assert round[1 + n..] == [];
    hide Answers;
  }

  // ----- The reply text -----

  /** Three or more line feeds in a row become two. */
  function Collapse(s: string): string {
    if s == "" then ""
    else if |s| >= 3 && s[0] == s[1] == s[2] == '\n' then Collapse(s[1..])
    else [s[0]] + Collapse(s[1..])
  }

  function NormalizeReplyBody(content: Option<string>): string {
    if content.None? then "" else Trim(Collapse(DiffLines.Normalize(content.value)))
  }

  predicate Tripled(s: string, k: nat) {
    k + 2 < |s| && s[k] == s[k + 1] == s[k + 2] == '\n'
  }

  /** What is left has no three line feeds in a row, starts as before, and keeps
      every other character in place. */
  lemma {:induction false} CollapseSound(s: string)
    ensures var r := Collapse(s);
      && (forall k: nat :: !Tripled(r, k))
      && (s != "" ==> r != "" && r[0] == s[0])
      && (|s| >= 2 && s[0] == s[1] == '\n' ==> |r| >= 2 && r[1] == '\n')
      && (|s| >= 2 && s[1] != '\n' ==> |r| >= 2 && r[1] == s[1])
      && Visible(r) == Visible(s)
  {
    if s != "" {
      CollapseSound(s[1..]);
      var r, rest := Collapse(s), Collapse(s[1..]);
      if !(|s| >= 3 && s[0] == s[1] == s[2] == '\n') {
        assert r[1..] == rest;
        forall k: nat ensures !Tripled(r, k) {
          if k > 0 { assert Tripled(r, k) <==> Tripled(rest, k - 1); }
        }
      }
    }
  }

  /** Everything but the line feeds. */
  function Visible(s: string): string {
    if s == "" then "" else (if s[0] == '\n' then "" else [s[0]]) + Visible(s[1..])
  }

  /** A text without three line feeds in a row is left alone. */
  lemma {:induction false} CollapsePlain(s: string)
    requires forall k: nat :: !Tripled(s, k)
    ensures Collapse(s) == s
  {
    if s != "" {
      assert !Tripled(s, 0);
      forall k: nat ensures !Tripled(s[1..], k) {
        assert Tripled(s[1..], k) <==> Tripled(s, k + 1);
      }
      CollapsePlain(s[1..]);
    }
  }

  // ----- What a run of the loop is -----

  /** One request to the provider: when, with what, under which tool names, and what came back. */
  datatype Exchange = Exchange(tick: nat, messages: seq<ChatMessage>, names: map<string, string>, response: Response)

  type Tool = (nat, Call) -> Option<string>

  predicate WantsTools(r: Response) {
    r.Replied? && r.finishedForTools && r.calls != []
  }

  function Request(r: Response): ChatMessage
    requires r.Replied?
  {
    ChatMessage(Assistant, r.content, r.calls, "")
  }

  /** The names of the calls made so far, by call id; a later call replaces an earlier one. */
  function Named(names: map<string, string>, calls: seq<Call>): map<string, string> {
    if calls == [] then names
    else Named(names, calls[..|calls| - 1])[calls[|calls| - 1].id := calls[|calls| - 1].name]
  }

  /** The first `n` calls have been answered with what the tool returned, none after an abort. */
  ghost predicate Answered(answers: seq<ChatMessage>, calls: seq<Call>, n: nat, callTool: Tool, aborted: nat -> bool, tick: nat) {
    && |answers| == n <= |calls|
    && forall k :: 0 <= k < n ==>
         && !aborted(tick + k) && callTool(tick + k, calls[k]).Some?
         && answers[k] == ChatMessage(Role.Tool, callTool(tick + k, calls[k]), [], calls[k].id)
  }

  /** The list after an exchange that wanted tools: the list before, the request and
      the answers, with old results evicted. */
  ghost predicate ToolStep(x: Exchange, callTool: Tool, aborted: nat -> bool, tick: nat,
                           names: map<string, string>, messages: seq<ChatMessage>) {
    && x.response.Replied? && x.response.finishedForTools && x.response.calls != []
    && tick == x.tick + 1 + |x.response.calls| && names == Named(x.names, x.response.calls)
    && exists answers ::
         && Answered(answers, x.response.calls, |x.response.calls|, callTool, aborted, x.tick + 1)
         && AfterEviction(x.messages + [Request(x.response)] + answers, messages, Notes(names))
  }

  ghost predicate AfterEviction(was: seq<ChatMessage>, now: seq<ChatMessage>, note: Note) {
    exists p: nat :: Evicted(was, now, note, MAX_TOTAL_TOOL_RESULT_CHARS, p)
  }

  /** The first request failed over its images and is repeated without them. */
  predicate Retried(x: Exchange, y: Exchange, textOnly: seq<ChatMessage>) {
    && x.response == Failed(true)
    && y.tick == x.tick + 1 && y.names == x.names && y.messages == textOnly
  }

  /** The exchanges so far: the first with the prelude, each further one after the
      tools the last one wanted, but for one retry right at the start. */
  ghost predicate Course(sent: seq<Exchange>, prelude: seq<ChatMessage>, textOnly: seq<ChatMessage>,
                         provider: (nat, seq<ChatMessage>) -> Response, callTool: Tool, aborted: nat -> bool) {
    && (forall k :: 0 <= k < |sent| ==> sent[k].response == provider(sent[k].tick, sent[k].messages))
    && (sent != [] ==> !aborted(0) && sent[0].tick == 0 && sent[0].messages == prelude && sent[0].names == map[])
    && (forall k :: 0 <= k < |sent| - 1 ==> Next(sent[k], sent[k + 1], k, textOnly, callTool, aborted))
  }

  ghost predicate Next(x: Exchange, y: Exchange, k: nat, textOnly: seq<ChatMessage>, callTool: Tool, aborted: nat -> bool) {
    || (ToolStep(x, callTool, aborted, y.tick, y.names, y.messages) && !aborted(y.tick))
    || (k == 0 && Retried(x, y, textOnly))
  }

  /** Iterations used: the retry belongs to the first one. */
  function Iterations(sent: seq<Exchange>): nat {
    if sent != [] && sent[0].response == Failed(true) && |sent| > 1 then |sent| - 1 else |sent|
  }

  /** Why the loop ended, after these exchanges. */
  ghost predicate Ends(outcome: Outcome, sent: seq<Exchange>, maxIterations: nat, callTool: Tool, aborted: nat -> bool) {
    if sent == [] then
      if maxIterations == 0 then outcome == IterationLimit else outcome == Aborted && aborted(0)
    else
      var last := sent[|sent| - 1];
      match last.response
      case Failed(imageTrouble) => outcome == ProviderFailed && (imageTrouble ==> |sent| > 1)
      case Replied(content, calls, finishedForTools) =>
        if !finishedForTools || calls == [] then outcome == Answer(NormalizeReplyBody(content))
        else
          || (outcome == IterationLimit && Iterations(sent) == maxIterations)
          || (outcome == Aborted && AllAnswered(last, |calls|, callTool, aborted) && aborted(last.tick + 1 + |calls|))
          || StoppedEarly(outcome, last, callTool, aborted)
  }

  /** The run stopped among the calls of the exchange, after answering those before. */
  ghost predicate StoppedEarly(o: Outcome, x: Exchange, callTool: Tool, aborted: nat -> bool) {
    exists n: nat :: AllAnswered(x, n, callTool, aborted) && StoppedAt(o, x, n, callTool, aborted)
  }

  /** Before call `n` the run was aborted, or that call's tool failed. */
  predicate StoppedAt(o: Outcome, x: Exchange, n: nat, callTool: Tool, aborted: nat -> bool) {
    && x.response.Replied? && n < |x.response.calls|
    && if aborted(x.tick + 1 + n) then o == Aborted else o == ToolFailed && callTool(x.tick + 1 + n, x.response.calls[n]).None?
  }

  ghost predicate AllAnswered(x: Exchange, n: nat, callTool: Tool, aborted: nat -> bool) {
    x.response.Replied? && HasAnswers(x.response.calls, n, callTool, aborted, x.tick + 1)
  }

  ghost predicate HasAnswers(calls: seq<Call>, n: nat, callTool: Tool, aborted: nat -> bool, tick: nat) {
    exists answers :: Answered(answers, calls, n, callTool, aborted, tick)
  }

  /** Runs the calls of one response in order and appends what each tool returned;
      stops early on an abort or a tool error. */
  method AnswerCalls(transcript: Transcript, x: Exchange, callTool: Tool, aborted: nat -> bool)
      returns (stopped: Option<Outcome>, named: map<string, string>, ghost answers: seq<ChatMessage>)
    requires x.response.Replied?
    modifies transcript
    ensures var calls, n := x.response.calls, |answers|;
      && Answered(answers, calls, n, callTool, aborted, x.tick + 1)
      && match stopped {
           case None => n == |calls| && named == Named(x.names, calls)
           case Some(o) => StoppedAt(o, x, n, callTool, aborted)
         }
    ensures transcript.messages == old(transcript.messages) + [Request(x.response)] + answers
  {
    var calls, tick := x.response.calls, x.tick + 1;
    named := x.names;
    ghost var base := transcript.messages;
    transcript.Push(Request(x.response));
    answers := [];
    for k := 0 to |calls|
      invariant transcript.messages == base + [Request(x.response)] + answers
      invariant Answered(answers, calls, k, callTool, aborted, tick)
      invariant named == Named(x.names, calls[..k])
    {
      hide Answered, Named;
      if aborted(tick + k) { return Some(Aborted), named, answers; }
      var call := calls[k];
      var result := callTool(tick + k, call);
      if result.None? { return Some(ToolFailed), named, answers; }
      NamedStep(x.names, calls, k);
      named := named[call.id := call.name];
      transcript.Push(ChatMessage(Role.Tool, result, [], call.id));
      AnsweredGrows(answers, calls, k, callTool, aborted, tick);
      answers := answers + [ChatMessage(Role.Tool, result, [], call.id)];
    }
    assert calls[..|calls|] == calls;
    stopped := None;
  }

  lemma AnsweredGrows(answers: seq<ChatMessage>, calls: seq<Call>, n: nat, callTool: Tool, aborted: nat -> bool, tick: nat)
    requires Answered(answers, calls, n, callTool, aborted, tick) && n < |calls|
    requires !aborted(tick + n) && callTool(tick + n, calls[n]).Some?
    ensures Answered(answers + [ChatMessage(Role.Tool, callTool(tick + n, calls[n]), [], calls[n].id)], calls, n + 1, callTool, aborted, tick)
  {
    var more := answers + [ChatMessage(Role.Tool, callTool(tick + n, calls[n]), [], calls[n].id)];
    forall k | 0 <= k < n + 1
      ensures !aborted(tick + k) && callTool(tick + k, calls[k]).Some?
      ensures more[k] == ChatMessage(Role.Tool, callTool(tick + k, calls[k]), [], calls[k].id)
    {
      assert k < n ==> more[k] == answers[k];
    }
  }

  lemma NamedStep(names: map<string, string>, calls: seq<Call>, k: nat)
    requires k < |calls|
    ensures Named(names, calls[..k + 1]) == Named(names, calls[..k])[calls[k].id := calls[k].name]
  {
    assert calls[..k + 1][..k] == calls[..k];
  }

  lemma AnsweredAnswers(answers: seq<ChatMessage>, calls: seq<Call>, callTool: Tool, aborted: nat -> bool, tick: nat)
    requires Answered(answers, calls, |calls|, callTool, aborted, tick)
    ensures Answers(answers, calls)
  {
  }

  /** One round: the request, its answers, then eviction. */
  method Round(transcript: Transcript, x: Exchange, callTool: Tool, aborted: nat -> bool)
      returns (stopped: Option<Outcome>, named: map<string, string>)
    requires WantsTools(x.response) && transcript.messages == x.messages && Paired(x.messages)
    modifies transcript
    ensures stopped.None? ==>
      && ToolStep(x, callTool, aborted, x.tick + 1 + |x.response.calls|, named, transcript.messages)
      && AllAnswered(x, |x.response.calls|, callTool, aborted)
      && Paired(transcript.messages) && Settled(transcript.messages)
    ensures stopped.Some? ==> StoppedEarly(stopped.value, x, callTool, aborted)
  {
    hide Paired, Settled, Evicted, Answers, Notes, Answered, Named;
    ghost var answers;
    stopped, named, answers := AnswerCalls(transcript, x, callTool, aborted);
    assert AllAnswered(x, |answers|, callTool, aborted);
    if stopped.Some? { return; }
    AnsweredAnswers(answers, x.response.calls, callTool, aborted, x.tick + 1);
    RoundPaired(x.messages, Request(x.response), answers);
    ghost var was := transcript.messages;
    transcript.EvictOldToolResults(named, MAX_TOTAL_TOOL_RESULT_CHARS);
    ghost var p: nat :| Evicted(was, transcript.messages, Notes(named), MAX_TOTAL_TOOL_RESULT_CHARS, p);
    EvictionKeepsPairing(was, transcript.messages, Notes(named), MAX_TOTAL_TOOL_RESULT_CHARS, p);
    NoteBound(named);
    EvictionSettles(was, transcript.messages, Notes(named), p);
  }

  /** The next list stands ready: the prelude, or what followed the last exchange. */
  ghost predicate Ready(sent: seq<Exchange>, prelude: seq<ChatMessage>, callTool: Tool, aborted: nat -> bool,
                        tick: nat, names: map<string, string>, messages: seq<ChatMessage>) {
    if sent == [] then tick == 0 && names == map[] && messages == prelude
    else ToolStep(sent[|sent| - 1], callTool, aborted, tick, names, messages)
         && AllAnswered(sent[|sent| - 1], |sent[|sent| - 1].response.calls|, callTool, aborted)
  }

  lemma CourseGrows(sent: seq<Exchange>, y: Exchange, prelude: seq<ChatMessage>, textOnly: seq<ChatMessage>,
                    provider: (nat, seq<ChatMessage>) -> Response, callTool: Tool, aborted: nat -> bool)
    requires Course(sent, prelude, textOnly, provider, callTool, aborted)
    requires y.response == provider(y.tick, y.messages)
    requires sent == [] ==> !aborted(0) && y.tick == 0 && y.messages == prelude && y.names == map[]
    requires sent != [] ==> Next(sent[|sent| - 1], y, |sent| - 1, textOnly, callTool, aborted)
    ensures Course(sent + [y], prelude, textOnly, provider, callTool, aborted)
  {
    hide Next;
    var more := sent + [y];
    forall k | 0 <= k < |more| - 1 ensures Next(more[k], more[k + 1], k, textOnly, callTool, aborted) {
      assert more[k] == sent[k];
      if k < |sent| - 1 { assert more[k + 1] == sent[k + 1]; }
    }
  }

  ghost predicate AllFit(sent: seq<Exchange>) {
    forall k :: 0 <= k < |sent| ==> Paired(sent[k].messages) && Settled(sent[k].messages)
  }

  /**
   * The tool loop. Every list of messages handed to the provider has its calls
   * and results paired and its tool results settled; each is the one before with
   * that response's request and what the tools returned, after eviction; and the
   * outcome is what the last exchange calls for.
   */
  method RunAgent(prelude: seq<ChatMessage>, textOnly: seq<ChatMessage>, provider: (nat, seq<ChatMessage>) -> Response,
                  callTool: Tool, aborted: nat -> bool, maxIterations: nat)
      returns (outcome: Outcome, sent: seq<Exchange>)
    requires IsPrelude(prelude) && IsPrelude(textOnly)
    ensures AllFit(sent)
    ensures Course(sent, prelude, textOnly, provider, callTool, aborted)
    ensures Ends(outcome, sent, maxIterations, callTool, aborted)
    ensures Iterations(sent) <= maxIterations
  {
    PreludePaired(prelude);
    PreludePaired(textOnly);
    assert Settled(prelude) && Settled(textOnly);
    hide Paired, Settled, IsPrelude, ToolStep, AllAnswered, Course, Ready, Ends, Next, Iterations, StoppedEarly, AllFit;
    var transcript := new Transcript(prelude);
    var names: map<string, string> := map[];
    var tick: nat := 0;
    sent := [];
    CourseStarts(prelude, textOnly, provider, callTool, aborted);
    for iteration := 0 to maxIterations
      invariant Iterations(sent) == iteration && Course(sent, prelude, textOnly, provider, callTool, aborted) && AllFit(sent)
      invariant iteration == 0 <==> sent == []
      invariant Ready(sent, prelude, callTool, aborted, tick, names, transcript.messages)
      invariant Paired(transcript.messages) && Settled(transcript.messages)
    {
      if aborted(tick) {
        EndsAborted(sent, prelude, maxIterations, callTool, aborted, tick, names, transcript.messages);
        return Aborted, sent;
      }
      var x;
      sent, x := Ask(transcript, sent, prelude, textOnly, provider, callTool, aborted, tick, names);
      if x.response.Failed? {
        EndsFailed(sent, maxIterations, callTool, aborted);
        return ProviderFailed, sent;
      }
      if !WantsTools(x.response) {
        EndsAnswered(sent, maxIterations, callTool, aborted);
        return Answer(NormalizeReplyBody(x.response.content)), sent;
      }
      FitLast(sent);
      var stopped: Option<Outcome>;
      stopped, names := Round(transcript, x, callTool, aborted);
      if stopped.Some? {
        EndsStopped(stopped.value, sent, maxIterations, callTool, aborted);
        return stopped.value, sent;
      }
      tick := x.tick + 1 + |x.response.calls|;
      ReadyAgain(sent, prelude, callTool, aborted, tick, names, transcript.messages);
    }
    EndsAtLimit(sent, prelude, maxIterations, callTool, aborted, tick, names, transcript.messages);
    outcome := IterationLimit;
  }

  lemma FitLast(sent: seq<Exchange>)
    requires AllFit(sent) && sent != []
    ensures Paired(sent[|sent| - 1].messages) && Settled(sent[|sent| - 1].messages)
  {
  }

  lemma FitGrows(sent: seq<Exchange>, x: Exchange)
    requires AllFit(sent) && Paired(x.messages) && Settled(x.messages)
    ensures AllFit(sent + [x])
  {
  }

  /** Hands the list that stands ready to the provider; the very first request is
      repeated without images if they were the trouble. */
  method Ask(transcript: Transcript, sent: seq<Exchange>, prelude: seq<ChatMessage>, textOnly: seq<ChatMessage>,
             provider: (nat, seq<ChatMessage>) -> Response, callTool: Tool, aborted: nat -> bool,
             tick: nat, names: map<string, string>)
      returns (more: seq<Exchange>, x: Exchange)
    requires Course(sent, prelude, textOnly, provider, callTool, aborted) && AllFit(sent)
    requires Ready(sent, prelude, callTool, aborted, tick, names, transcript.messages) && !aborted(tick)
    requires Paired(transcript.messages) && Settled(transcript.messages) && Paired(textOnly) && Settled(textOnly)
    modifies transcript
    ensures Course(more, prelude, textOnly, provider, callTool, aborted) && AllFit(more)
    ensures Iterations(more) == Iterations(sent) + 1
    ensures more != [] && x == more[|more| - 1] && transcript.messages == x.messages
    ensures x.response.Failed? && x.response.imageTrouble ==> |more| > 1
  {
    hide Paired, Settled, Course, Ready, Next, Iterations, AllFit;
    x := Exchange(tick, transcript.messages, names, provider(tick, transcript.messages));
    CourseGoesOn(sent, x, prelude, textOnly, provider, callTool, aborted);
    FitGrows(sent, x);
    more := sent + [x];
    if x.response.Failed? && sent == [] && x.response.imageTrouble {
      transcript.messages := textOnly;
      var y := Exchange(tick + 1, textOnly, names, provider(tick + 1, textOnly));
      assert more == [x];
      CourseRetries(x, y, prelude, textOnly, provider, callTool, aborted);
      IterationsNone();
      FitGrows(more, y);
      x := y;
      more := more + [y];
    }
  }

  lemma IterationsNone()
    ensures Iterations([]) == 0
  {
  }

  lemma CourseStarts(prelude: seq<ChatMessage>, textOnly: seq<ChatMessage>,
                     provider: (nat, seq<ChatMessage>) -> Response, callTool: Tool, aborted: nat -> bool)
    ensures Course([], prelude, textOnly, provider, callTool, aborted) && Iterations([]) == 0
    ensures Ready([], prelude, callTool, aborted, 0, map[], prelude)
  {
  }

  /** Sending the list that stands ready uses one more iteration. */
  lemma CourseGoesOn(sent: seq<Exchange>, x: Exchange, prelude: seq<ChatMessage>, textOnly: seq<ChatMessage>,
                     provider: (nat, seq<ChatMessage>) -> Response, callTool: Tool, aborted: nat -> bool)
    requires Course(sent, prelude, textOnly, provider, callTool, aborted)
    requires Ready(sent, prelude, callTool, aborted, x.tick, x.names, x.messages) && !aborted(x.tick)
    requires x.response == provider(x.tick, x.messages)
    ensures Course(sent + [x], prelude, textOnly, provider, callTool, aborted)
    ensures Iterations(sent + [x]) == Iterations(sent) + 1
  {
    hide Course;
    assert sent != [] ==> Next(sent[|sent| - 1], x, |sent| - 1, textOnly, callTool, aborted);
    hide Next;
    CourseGrows(sent, x, prelude, textOnly, provider, callTool, aborted);
    assert sent != [] ==> (sent + [x])[0] == sent[0] && WantsTools(sent[|sent| - 1].response);
  }

  lemma CourseRetries(x: Exchange, y: Exchange, prelude: seq<ChatMessage>, textOnly: seq<ChatMessage>,
                      provider: (nat, seq<ChatMessage>) -> Response, callTool: Tool, aborted: nat -> bool)
    requires Course([x], prelude, textOnly, provider, callTool, aborted) && Retried(x, y, textOnly)
    requires y.response == provider(y.tick, y.messages)
    ensures Course([x] + [y], prelude, textOnly, provider, callTool, aborted) && Iterations([x] + [y]) == 1
  {
    hide Course, ToolStep;
    assert Next(x, y, 0, textOnly, callTool, aborted);
    CourseGrows([x], y, prelude, textOnly, provider, callTool, aborted);
  }

  lemma EndsAborted(sent: seq<Exchange>, prelude: seq<ChatMessage>, maxIterations: nat, callTool: Tool, aborted: nat -> bool,
                    tick: nat, names: map<string, string>, messages: seq<ChatMessage>)
    requires Ready(sent, prelude, callTool, aborted, tick, names, messages) && aborted(tick) && maxIterations > 0
    ensures Ends(Aborted, sent, maxIterations, callTool, aborted)
  {
    hide AllAnswered, StoppedEarly;
  }

  lemma EndsAtLimit(sent: seq<Exchange>, prelude: seq<ChatMessage>, maxIterations: nat, callTool: Tool, aborted: nat -> bool,
                    tick: nat, names: map<string, string>, messages: seq<ChatMessage>)
    requires Ready(sent, prelude, callTool, aborted, tick, names, messages)
    requires Iterations(sent) == maxIterations && (maxIterations == 0 <==> sent == [])
    ensures Ends(IterationLimit, sent, maxIterations, callTool, aborted)
  {
    hide AllAnswered, StoppedEarly, Iterations;
  }

  lemma EndsFailed(sent: seq<Exchange>, maxIterations: nat, callTool: Tool, aborted: nat -> bool)
    requires sent != [] && sent[|sent| - 1].response.Failed? && (sent[|sent| - 1].response.imageTrouble ==> |sent| > 1)
    ensures Ends(ProviderFailed, sent, maxIterations, callTool, aborted)
  {
  }

  lemma EndsAnswered(sent: seq<Exchange>, maxIterations: nat, callTool: Tool, aborted: nat -> bool)
    requires sent != [] && sent[|sent| - 1].response.Replied? && !WantsTools(sent[|sent| - 1].response)
    ensures Ends(Answer(NormalizeReplyBody(sent[|sent| - 1].response.content)), sent, maxIterations, callTool, aborted)
  {
  }

  lemma EndsStopped(o: Outcome, sent: seq<Exchange>, maxIterations: nat, callTool: Tool, aborted: nat -> bool)
    requires sent != [] && WantsTools(sent[|sent| - 1].response)
    requires StoppedEarly(o, sent[|sent| - 1], callTool, aborted)
    ensures Ends(o, sent, maxIterations, callTool, aborted)
  {
    hide StoppedEarly;
  }

  lemma ReadyAgain(sent: seq<Exchange>, prelude: seq<ChatMessage>, callTool: Tool, aborted: nat -> bool,
                   tick: nat, names: map<string, string>, messages: seq<ChatMessage>)
    requires sent != [] && ToolStep(sent[|sent| - 1], callTool, aborted, tick, names, messages)
    requires sent[|sent| - 1].response.Replied? && AllAnswered(sent[|sent| - 1], |sent[|sent| - 1].response.calls|, callTool, aborted)
    ensures Ready(sent, prelude, callTool, aborted, tick, names, messages)
  {
  }
}
