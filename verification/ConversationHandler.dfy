/**
 * The conversation handler: overlapping runs that supersede each other, the
 * shared claim set, and the claims the server holds, as a state machine whose
 * steps are the stretches of code between awaits.
 */
module ConversationHandler {
  import opened Options
  import opened ConversationRun

  type RunId = nat

  datatype Holder = Nobody | Us | Other

  /** A release request on its way from `stop`, outside any run. */
  datatype Release = Release(conv: Conv, processed: bool)

  datatype Entry = Entry(run: RunId, effect: Effect, aborted: bool, recorded: bool)

  datatype State = State(
    runs: map<RunId, Run>,
    inFlight: map<Conv, RunId>,
    claimsHeld: set<Conv>,
    server: map<Conv, Holder>,
    releases: map<nat, Release>,
    failed: set<Conv>,                              // conversations for which a claim or release call failed
    log: seq<Entry>)

  const INIT := State(map[], map[], {}, map[], map[], {}, [])

  datatype Event =
    | Spawn(conv: Conv, mode: Mode, id: RunId)
    | Resume(run: RunId, outcome: Outcome)          // the awaited promise of a run settles
    | ServerDecides(run: RunId)                     // the server handles a claim request
    | ClaimAnswer(run: RunId, lost: bool)           // its answer arrives, or the call fails
    | ServerReleases(run: RunId)                    // the server handles a run's release request
    | ReleaseAnswer(run: RunId, lost: bool)
    | RunEnds(run: RunId)                           // the promise of a run settles
    | StopAborts                                    // `stop` aborts the recorded runs
    | StopReleases(conv: Conv, id: nat)             // `stop` releases a claim still held
    | ServerReleasesStop(id: nat)
    | StopAnswer(id: nat, lost: bool)
    | LeaseMoves(conv: Conv, holder: Holder)        // leases expire, others claim and release

  function HolderOf(s: State, conv: Conv): Holder {
    if conv in s.server then s.server[conv] else Nobody
  }

  /** A superseded run is aborted; the new run is recorded. */
  function SpawnStep(s: State, conv: Conv, mode: Mode, id: RunId): State {
    if id in s.runs then s
    else
      var aborted := if conv in s.inFlight && s.inFlight[conv] in s.runs
                     then s.runs[s.inFlight[conv] := s.runs[s.inFlight[conv]].(aborted := true)] else s.runs;
      s.(runs := aborted[id := Run(conv, mode, Draft, false, Debouncing, false, false)],
         inFlight := s.inFlight[conv := id])
  }

  predicate Recorded(s: State, r: RunId)
    requires r in s.runs
  {
    s.runs[r].conv in s.inFlight && s.inFlight[s.runs[r].conv] == r
  }

  /** Where a run ends up when it moves on. On leaving it gives back the claim: if
      the set still has the conversation a release goes out, otherwise it is done. */
  function Landed(s: State, moved: Run): Run {
    if !moved.phase.Leaving? then moved
    else if moved.conv in s.claimsHeld then moved.(phase := Releasing(false))
    else moved.(phase := Finished)
  }

  /** A run moves on; its effect is logged, and on leaving the set loses its entry. */
  function Apply(s: State, r: RunId, moved: Run, effect: Effect): State
    requires r in s.runs
  {
    s.(runs := s.runs[r := Landed(s, moved)],
       claimsHeld := if moved.phase.Leaving? then s.claimsHeld - {moved.conv} else s.claimsHeld,
       log := if effect.NoEffect? then s.log
              else s.log + [Entry(r, effect, s.runs[r].aborted, Recorded(s, r))])
  }

  function ResumeStep(s: State, r: RunId, o: Outcome): State {
    if r !in s.runs || Next(s.runs[r], o).None? then s
    else
      var next := Next(s.runs[r], o).value;
      Apply(s, r, Moved(s.runs[r], o, next), next.1)
  }

  /** The server grants a free or own claim; it also takes over an expired lease,
      which shows as a `LeaseMoves` to nobody before. */
  function DecideStep(s: State, r: RunId): State {
    if r !in s.runs || !s.runs[r].phase.Acquiring? then s
    else
      var run := s.runs[r];
      var granted := HolderOf(s, run.conv) != Other;
      s.(runs := s.runs[r := run.(phase := Answered(granted))],
         server := if granted then s.server[run.conv := Us] else s.server)
  }

  /** A lost call may fail before or after the server has decided. */
  function ClaimAnswerStep(s: State, r: RunId, lost: bool): State {
    if r !in s.runs || !(s.runs[r].phase.Answered? || (lost && s.runs[r].phase.Acquiring?)) then s
    else
      var run := s.runs[r];
      if lost then s.(runs := s.runs[r := run.(phase := Finished)], failed := s.failed + {run.conv})
      else if !run.phase.acquired then s.(runs := s.runs[r := run.(phase := Finished)])
      else s.(runs := s.runs[r := run.(phase := Preparing)], claimsHeld := s.claimsHeld + {run.conv})
  }

  function Unclaimed(s: State, conv: Conv): map<Conv, Holder> {
    if HolderOf(s, conv) == Us then s.server[conv := Nobody] else s.server
  }

  function ServerReleasesStep(s: State, r: RunId): State {
    if r !in s.runs || s.runs[r].phase != Releasing(false) then s
    else s.(runs := s.runs[r := s.runs[r].(phase := Releasing(true))], server := Unclaimed(s, s.runs[r].conv))
  }

  function ReleaseAnswerStep(s: State, r: RunId, lost: bool): State {
    if r !in s.runs || !s.runs[r].phase.Releasing? || (!lost && !s.runs[r].phase.processed) then s
    else s.(runs := s.runs[r := s.runs[r].(phase := Finished)], failed := if lost then s.failed + {s.runs[r].conv} else s.failed)
  }

  /** The record is cleared only by the run it names. */
  function RunEndsStep(s: State, r: RunId): State {
    if r !in s.runs || !s.runs[r].phase.Finished? then s
    else s.(runs := s.runs[r := s.runs[r].(phase := Gone)],
            inFlight := if Recorded(s, r) then s.inFlight - {s.runs[r].conv} else s.inFlight)
  }

  function StopAbortsStep(s: State): State {
    s.(runs := map r | r in s.runs :: if Recorded(s, r) then s.runs[r].(aborted := true) else s.runs[r])
  }

  function StopReleasesStep(s: State, conv: Conv, id: nat): State {
    if conv !in s.claimsHeld || id in s.releases then s
    else s.(claimsHeld := s.claimsHeld - {conv}, releases := s.releases[id := Release(conv, false)])
  }

  function ServerReleasesStopStep(s: State, id: nat): State {
    if id !in s.releases || s.releases[id].processed then s
    else s.(releases := s.releases[id := s.releases[id].(processed := true)], server := Unclaimed(s, s.releases[id].conv))
  }

  function StopAnswerStep(s: State, id: nat, lost: bool): State {
    if id !in s.releases || (!lost && !s.releases[id].processed) then s
    else s.(releases := s.releases - {id}, failed := if lost then s.failed + {s.releases[id].conv} else s.failed)
  }

  /** Once a call has failed here, the server may still grant us what it asked for. */
  function LeaseStep(s: State, conv: Conv, holder: Holder): State {
    if holder == Us && conv !in s.failed then s else s.(server := s.server[conv := holder])
  }

  function Step(s: State, e: Event): State {
    match e
    case Spawn(conv, mode, id) => SpawnStep(s, conv, mode, id)
    case Resume(r, o) => ResumeStep(s, r, o)
    case ServerDecides(r) => DecideStep(s, r)
    case ClaimAnswer(r, lost) => ClaimAnswerStep(s, r, lost)
    case ServerReleases(r) => ServerReleasesStep(s, r)
    case ReleaseAnswer(r, lost) => ReleaseAnswerStep(s, r, lost)
    case RunEnds(r) => RunEndsStep(s, r)
    case StopAborts => StopAbortsStep(s)
    case StopReleases(conv, id) => StopReleasesStep(s, conv, id)
    case ServerReleasesStop(id) => ServerReleasesStopStep(s, id)
    case StopAnswer(id, lost) => StopAnswerStep(s, id, lost)
    case LeaseMoves(conv, holder) => LeaseStep(s, conv, holder)
  }

  /** The state after a whole execution. */
  function Exec(events: seq<Event>): State {
    if events == [] then INIT else Step(Exec(events[..|events| - 1]), events[|events| - 1])
  }

  // ----- Runs and their record -----

  predicate Alive(run: Run) { !run.phase.Gone? }

  ghost predicate RunsOk(s: State) {
    forall r :: r in s.runs ==> RunOk(s.runs[r]) && s.runs[r].phase != Leaving
  }

  /** Every unaborted run that has not ended is the recorded one. */
  ghost predicate OnlyRecorded(s: State) {
    forall r :: r in s.runs && Alive(s.runs[r]) && !s.runs[r].aborted ==> Recorded(s, r)
  }

  ghost predicate RecordPoints(s: State) {
    forall c :: c in s.inFlight ==> s.inFlight[c] in s.runs && s.runs[s.inFlight[c]].conv == c
  }

  ghost predicate RecordInv(s: State) {
    RunsOk(s) && OnlyRecorded(s) && RecordPoints(s)
  }

  lemma SpawnRunsOk(s: State, conv: Conv, mode: Mode, id: RunId)
    requires RunsOk(s)
    ensures RunsOk(SpawnStep(s, conv, mode, id))
  {
  }

  /** The run that was recorded is aborted, the new one takes its place. */
  lemma SpawnRecords(s: State, conv: Conv, mode: Mode, id: RunId)
    requires OnlyRecorded(s) && RecordPoints(s)
    ensures OnlyRecorded(SpawnStep(s, conv, mode, id))
  {
    var t := SpawnStep(s, conv, mode, id);
    forall r | r in t.runs && Alive(t.runs[r]) && !t.runs[r].aborted ensures Recorded(t, r) {
      assert r in s.runs ==> Recorded(s, r);
    }
  }

  lemma SpawnPoints(s: State, conv: Conv, mode: Mode, id: RunId)
    requires RecordPoints(s)
    ensures RecordPoints(SpawnStep(s, conv, mode, id))
  {
  }

  lemma RecordSpawn(s: State, conv: Conv, mode: Mode, id: RunId)
    requires RecordInv(s)
    ensures RecordInv(SpawnStep(s, conv, mode, id))
  {
    hide SpawnStep, RunsOk, OnlyRecorded, RecordPoints;
    SpawnRunsOk(s, conv, mode, id);
    SpawnRecords(s, conv, mode, id);
    SpawnPoints(s, conv, mode, id);
  }

  /** A step of one run that leaves the record alone. */
  ghost predicate OneRun(s: State, t: State, r: RunId, run: Run) {
    && r in s.runs && t.runs == s.runs[r := run] && t.inFlight == s.inFlight
    && run.conv == s.runs[r].conv && run.aborted == s.runs[r].aborted
    && RunOk(run) && run.phase != Leaving && Alive(s.runs[r])
  }

  lemma RecordOneRun(s: State, t: State, r: RunId, run: Run)
    requires RecordInv(s) && OneRun(s, t, r, run)
    ensures RecordInv(t)
  {
    forall q | q in t.runs && Alive(t.runs[q]) && !t.runs[q].aborted ensures Recorded(t, q) {
      assert Recorded(s, q);
    }
  }

  lemma RecordResume(s: State, r: RunId, o: Outcome)
    requires RecordInv(s)
    ensures RecordInv(ResumeStep(s, r, o))
  {
    hide Next, Apply;
    if r in s.runs && Next(s.runs[r], o).Some? {
      StepOk(s.runs[r], o);
      var next := Next(s.runs[r], o).value;
      RecordApply(s, r, Moved(s.runs[r], o, next), next.1);
    }
  }

  lemma RecordApply(s: State, r: RunId, moved: Run, effect: Effect)
    requires RecordInv(s) && r in s.runs && Alive(s.runs[r])
    requires RunOk(moved) && moved.conv == s.runs[r].conv && moved.aborted == s.runs[r].aborted
    ensures RecordInv(Apply(s, r, moved, effect))
  {
    RecordOneRun(s, Apply(s, r, moved, effect), r, Landed(s, moved));
  }

  lemma RecordDecide(s: State, r: RunId)
    requires RecordInv(s)
    ensures RecordInv(DecideStep(s, r))
  {
    hide Recorded;
    if r in s.runs && s.runs[r].phase.Acquiring? {
      RecordOneRun(s, DecideStep(s, r), r, s.runs[r].(phase := Answered(HolderOf(s, s.runs[r].conv) != Other)));
    }
  }

  lemma RecordClaimAnswer(s: State, r: RunId, lost: bool)
    requires RecordInv(s)
    ensures RecordInv(ClaimAnswerStep(s, r, lost))
  {
    hide Recorded;
    if r in s.runs && (s.runs[r].phase.Answered? || (lost && s.runs[r].phase.Acquiring?)) {
      var phase := if lost || s.runs[r].phase == Answered(false) then Finished else Preparing;
      RecordOneRun(s, ClaimAnswerStep(s, r, lost), r, s.runs[r].(phase := phase));
    }
  }

  lemma RecordServerReleases(s: State, r: RunId)
    requires RecordInv(s)
    ensures RecordInv(ServerReleasesStep(s, r))
  {
    if r in s.runs && s.runs[r].phase == Releasing(false) {
      RecordOneRun(s, ServerReleasesStep(s, r), r, s.runs[r].(phase := Releasing(true)));
    }
  }

  lemma RecordReleaseAnswer(s: State, r: RunId, lost: bool)
    requires RecordInv(s)
    ensures RecordInv(ReleaseAnswerStep(s, r, lost))
  {
    if r in s.runs && s.runs[r].phase.Releasing? && (lost || s.runs[r].phase.processed) {
      RecordOneRun(s, ReleaseAnswerStep(s, r, lost), r, s.runs[r].(phase := Finished));
    }
  }

  lemma RecordRunEnds(s: State, r: RunId)
    requires RecordInv(s)
    ensures RecordInv(RunEndsStep(s, r))
  {
    EndsRunsOk(s, r);
    var t := RunEndsStep(s, r);
    hide RunsOk;
    forall q | q in t.runs && Alive(t.runs[q]) && !t.runs[q].aborted ensures Recorded(t, q) {
      assert Recorded(s, q);
    }
  }

  lemma EndsRunsOk(s: State, r: RunId)
    requires RunsOk(s)
    ensures RunsOk(RunEndsStep(s, r))
  {
    hide Recorded;
  }

  lemma RecordStopAborts(s: State)
    requires RecordInv(s)
    ensures RecordInv(StopAbortsStep(s))
  {
  }

  lemma RecordElsewhere(s: State, t: State)
    requires RecordInv(s) && t.runs == s.runs && t.inFlight == s.inFlight
    ensures RecordInv(t)
  {
    assert forall r :: r in s.runs ==> Recorded(t, r) == Recorded(s, r);
  }

  lemma RecordStep(s: State, e: Event)
    requires RecordInv(s)
    ensures RecordInv(Step(s, e))
  {
    hide SpawnStep, ResumeStep, DecideStep, ClaimAnswerStep, ServerReleasesStep, ReleaseAnswerStep, RunEndsStep, StopAbortsStep, RecordInv;
    match e
    case Spawn(conv, mode, id) => RecordSpawn(s, conv, mode, id);
    case Resume(r, o) => RecordResume(s, r, o);
    case ServerDecides(r) => RecordDecide(s, r);
    case ClaimAnswer(r, lost) => RecordClaimAnswer(s, r, lost);
    case ServerReleases(r) => RecordServerReleases(s, r);
    case ReleaseAnswer(r, lost) => RecordReleaseAnswer(s, r, lost);
    case RunEnds(r) => RecordRunEnds(s, r);
    case StopAborts => RecordStopAborts(s);
    case StopReleases(conv, id) => RecordElsewhere(s, StopReleasesStep(s, conv, id));
    case ServerReleasesStop(id) => RecordElsewhere(s, ServerReleasesStopStep(s, id));
    case StopAnswer(id, lost) => RecordElsewhere(s, StopAnswerStep(s, id, lost));
    case LeaseMoves(conv, holder) => RecordElsewhere(s, LeaseStep(s, conv, holder));
  }

  // ----- Posts -----

  predicate ChangesThread(e: Effect) {
    e.Dispatched? && ClosesThread(e.action)
  }

  predicate Replies(e: Effect) {
    e.PostSent? || e.PostOk?
  }

  /** One of the first `n` entries is this effect of the run. */
  ghost predicate LoggedBy(log: seq<Entry>, r: RunId, effect: Effect, n: nat)
    requires n <= |log|
  {
    exists i :: 0 <= i < n && log[i].run == r && log[i].effect == effect
  }

  /** Replies are sent by unaborted, recorded runs only. */
  ghost predicate SentByNewest(log: seq<Entry>) {
    forall i :: 0 <= i < |log| && log[i].effect.PostSent? ==> !log[i].aborted && log[i].recorded
  }

  /** After its success a run posts no more and marks no spam. */
  ghost predicate PostsOnce(log: seq<Entry>) {
    forall j :: 0 <= j < |log| && (Replies(log[j].effect) || log[j].effect == Dispatched(MarkSpam)) ==>
      !LoggedBy(log, log[j].run, PostOk, j)
  }

  /** After marking spam a run does not reply. */
  ghost predicate SpamSilences(log: seq<Entry>) {
    forall j :: 0 <= j < |log| && Replies(log[j].effect) ==> !LoggedBy(log, log[j].run, Dispatched(MarkSpam), j)
  }

  /** Threads change only after the run's own success. */
  ghost predicate ThreadsLast(log: seq<Entry>) {
    forall j :: 0 <= j < |log| && ChangesThread(log[j].effect) ==> LoggedBy(log, log[j].run, PostOk, j)
  }

  /** The flags of the runs tell what the log says. */
  ghost predicate FlagsTell(log: seq<Entry>, runs: map<RunId, Run>) {
    && (forall r :: r in runs ==> (runs[r].posted <==> LoggedBy(log, r, PostOk, |log|)))
    && (forall r :: r in runs ==> (runs[r].marked <==> LoggedBy(log, r, Dispatched(MarkSpam), |log|)))
    && (forall i :: 0 <= i < |log| ==> log[i].run in runs)
  }

  ghost predicate LogInv(s: State) {
    SentByNewest(s.log) && PostsOnce(s.log) && SpamSilences(s.log) && ThreadsLast(s.log) && FlagsTell(s.log, s.runs)
  }

  /** The step logs nothing and changes no run's posting and marking flags. */
  ghost predicate NoPost(s: State, t: State) {
    && t.log == s.log && s.runs.Keys <= t.runs.Keys
    && (forall r :: r in s.runs ==> t.runs[r].posted == s.runs[r].posted && t.runs[r].marked == s.runs[r].marked)
    && (forall r :: r in t.runs && r !in s.runs ==> !t.runs[r].posted && !t.runs[r].marked)
  }

  lemma LogElsewhere(s: State, t: State)
    requires LogInv(s) && NoPost(s, t)
    ensures LogInv(t)
  {
    hide SentByNewest, PostsOnce, SpamSilences, ThreadsLast;
  }

  /** Appending an entry leaves earlier stretches alone and adds that entry. */
  lemma LoggedStep(log: seq<Entry>, e: Entry, r: RunId, effect: Effect, n: nat)
    requires n <= |log|
    ensures LoggedBy(log + [e], r, effect, n) <==> LoggedBy(log, r, effect, n)
    ensures LoggedBy(log + [e], r, effect, |log| + 1) <==> LoggedBy(log, r, effect, |log|) || (e.run == r && e.effect == effect)
  {
    var more := log + [e];
    assert forall i :: 0 <= i < |log| ==> more[i] == log[i];
    assert more[|log|] == e;
  }

  lemma AppendPost(log: seq<Entry>, e: Entry)
    requires PostsOnce(log)
    requires Replies(e.effect) || e.effect == Dispatched(MarkSpam) ==> !LoggedBy(log, e.run, PostOk, |log|)
    ensures PostsOnce(log + [e])
  {
    hide LoggedBy, Replies;
    var more := log + [e];
    forall j | 0 <= j < |more| && (Replies(more[j].effect) || more[j].effect == Dispatched(MarkSpam))
      ensures !LoggedBy(more, more[j].run, PostOk, j)
    {
      LoggedStep(log, e, more[j].run, PostOk, j);
    }
  }

  lemma AppendSpam(log: seq<Entry>, e: Entry)
    requires SpamSilences(log)
    requires Replies(e.effect) ==> !LoggedBy(log, e.run, Dispatched(MarkSpam), |log|)
    ensures SpamSilences(log + [e])
  {
    hide LoggedBy, Replies;
    var more := log + [e];
    forall j | 0 <= j < |more| && Replies(more[j].effect) ensures !LoggedBy(more, more[j].run, Dispatched(MarkSpam), j) {
      LoggedStep(log, e, more[j].run, Dispatched(MarkSpam), j);
    }
  }

  lemma AppendThread(log: seq<Entry>, e: Entry)
    requires ThreadsLast(log) && (ChangesThread(e.effect) ==> LoggedBy(log, e.run, PostOk, |log|))
    ensures ThreadsLast(log + [e])
  {
    hide LoggedBy, ChangesThread;
    var more := log + [e];
    forall j | 0 <= j < |more| && ChangesThread(more[j].effect) ensures LoggedBy(more, more[j].run, PostOk, j) {
      LoggedStep(log, e, more[j].run, PostOk, j);
    }
  }

  lemma AppendFlags(log: seq<Entry>, runs: map<RunId, Run>, e: Entry, run: Run)
    requires FlagsTell(log, runs) && e.run in runs
    requires run.posted == (runs[e.run].posted || e.effect.PostOk?)
    requires run.marked == (runs[e.run].marked || e.effect == Dispatched(MarkSpam))
    ensures FlagsTell(log + [e], runs[e.run := run])
  {
    hide LoggedBy;
    forall r {:trigger runs[r]} | r in runs
      ensures LoggedBy(log + [e], r, PostOk, |log| + 1) <==> runs[r].posted || (e.run == r && e.effect == PostOk)
      ensures LoggedBy(log + [e], r, Dispatched(MarkSpam), |log| + 1) <==>
        runs[r].marked || (e.run == r && e.effect == Dispatched(MarkSpam))
    {
      LoggedStep(log, e, r, PostOk, 0);
      LoggedStep(log, e, r, Dispatched(MarkSpam), 0);
    }
  }

  /** Appending an effect the run was entitled to. */
  lemma LogAppend(s: State, t: State, e: Entry, run: Run)
    requires LogInv(s) && e.run in s.runs && t.log == s.log + [e] && t.runs == s.runs[e.run := run]
    requires run.posted == (s.runs[e.run].posted || e.effect.PostOk?)
    requires run.marked == (s.runs[e.run].marked || e.effect == Dispatched(MarkSpam))
    requires e.effect.PostSent? ==> !e.aborted && e.recorded
    requires Replies(e.effect) ==> !s.runs[e.run].posted && !s.runs[e.run].marked
    requires ChangesThread(e.effect) ==> s.runs[e.run].posted
    requires e.effect == Dispatched(MarkSpam) ==> !s.runs[e.run].posted
    ensures LogInv(t)
  {
    AppendFlags(s.log, s.runs, e, run);
    hide LoggedBy, PostsOnce, SpamSilences, ThreadsLast, Replies, ChangesThread;
    AppendPost(s.log, e);
    AppendSpam(s.log, e);
    AppendThread(s.log, e);
    hide FlagsTell;
  }

  lemma LogResume(s: State, r: RunId, o: Outcome)
    requires RecordInv(s) && LogInv(s)
    ensures LogInv(ResumeStep(s, r, o))
  {
    hide Next, Apply, LogInv;
    if r in s.runs && Next(s.runs[r], o).Some? {
      StepOk(s.runs[r], o);
      assert !s.runs[r].aborted ==> Recorded(s, r);
      var next := Next(s.runs[r], o).value;
      LogApply(s, r, Moved(s.runs[r], o, next), next.1);
    }
  }

  lemma LogApply(s: State, r: RunId, moved: Run, effect: Effect)
    requires LogInv(s) && r in s.runs && (!s.runs[r].aborted ==> Recorded(s, r))
    requires moved.posted == (s.runs[r].posted || effect.PostOk?)
    requires moved.marked == (s.runs[r].marked || effect == Dispatched(MarkSpam))
    requires effect.PostSent? ==> !s.runs[r].aborted
    requires Replies(effect) ==> !s.runs[r].posted && !s.runs[r].marked
    requires ChangesThread(effect) ==> s.runs[r].posted
    requires effect == Dispatched(MarkSpam) ==> !s.runs[r].posted
    ensures LogInv(Apply(s, r, moved, effect))
  {
    hide LogInv, Replies, ChangesThread, Recorded, NoPost;
    var t := Apply(s, r, moved, effect);
    if effect.NoEffect? {
      NoPostApply(s, r, moved);
      LogElsewhere(s, t);
    } else {
      LogAppend(s, t, Entry(r, effect, s.runs[r].aborted, Recorded(s, r)), Landed(s, moved));
    }
  }

  lemma NoPostApply(s: State, r: RunId, moved: Run)
    requires r in s.runs && moved.posted == s.runs[r].posted && moved.marked == s.runs[r].marked
    ensures NoPost(s, Apply(s, r, moved, NoEffect))
  {
    hide Recorded;
  }

  lemma NoPostSpawn(s: State, conv: Conv, mode: Mode, id: RunId)
    ensures NoPost(s, SpawnStep(s, conv, mode, id))
  {
    hide HolderOf;
  }

  lemma NoPostDecide(s: State, r: RunId)
    ensures NoPost(s, DecideStep(s, r))
  {
  }

  lemma NoPostClaimAnswer(s: State, r: RunId, lost: bool)
    ensures NoPost(s, ClaimAnswerStep(s, r, lost))
  {
    hide HolderOf, LoggedBy;
  }

  lemma NoPostServerReleases(s: State, r: RunId)
    ensures NoPost(s, ServerReleasesStep(s, r))
  {
    hide HolderOf;
  }

  lemma NoPostReleaseAnswer(s: State, r: RunId, lost: bool)
    ensures NoPost(s, ReleaseAnswerStep(s, r, lost))
  {
  }

  lemma NoPostRunEnds(s: State, r: RunId)
    ensures NoPost(s, RunEndsStep(s, r))
  {
  }

  lemma NoPostStopAborts(s: State)
    ensures NoPost(s, StopAbortsStep(s))
  {
  }

  lemma NoPostStep(s: State, e: Event)
    requires !e.Resume?
    ensures NoPost(s, Step(s, e))
  {
    hide SpawnStep, ResumeStep, DecideStep, ClaimAnswerStep, ServerReleasesStep, ReleaseAnswerStep, RunEndsStep, StopAbortsStep;
    match e
    case Spawn(conv, mode, id) => NoPostSpawn(s, conv, mode, id);
    case ServerDecides(r) => NoPostDecide(s, r);
    case ClaimAnswer(r, lost) => NoPostClaimAnswer(s, r, lost);
    case ServerReleases(r) => NoPostServerReleases(s, r);
    case ReleaseAnswer(r, lost) => NoPostReleaseAnswer(s, r, lost);
    case RunEnds(r) => NoPostRunEnds(s, r);
    case StopAborts => NoPostStopAborts(s);
    case StopReleases(_, _) =>
    case ServerReleasesStop(_) =>
    case StopAnswer(_, _) =>
    case LeaseMoves(_, _) =>
  }

  lemma LogStep(s: State, e: Event)
    requires RecordInv(s) && LogInv(s)
    ensures LogInv(Step(s, e))
  {
    hide SpawnStep, ResumeStep, DecideStep, ClaimAnswerStep, ServerReleasesStep, ReleaseAnswerStep, RunEndsStep, StopAbortsStep;
    hide LogInv, RecordInv, NoPost;
    if e.Resume? {
      LogResume(s, e.run, e.outcome);
    } else {
      NoPostStep(s, e);
      LogElsewhere(s, Step(s, e));
    }
  }

  // ----- Claims -----

  ghost predicate Held(s: State, c: Conv) {
    exists r :: r in s.runs && s.runs[r].conv == c && Holding(s.runs[r].phase)
  }

  /** A run still owes the set an entry, or the server a release. */
  predicate Owes(run: Run) {
    run.phase == Answered(true) || run.phase == Releasing(false)
  }

  ghost predicate Owing(s: State, c: Conv) {
    || (exists r :: r in s.runs && s.runs[r].conv == c && Owes(s.runs[r]))
    || (exists id :: id in s.releases && s.releases[id] == Release(c, false))
  }

  /** A set entry belongs to a run before its release; a claim on the server is in
      the set, about to enter it, or about to be released. */
  ghost predicate ClaimInv(s: State) {
    && (forall c :: c in s.claimsHeld ==> Held(s, c))
    && (forall c :: c !in s.failed && HolderOf(s, c) == Us ==> c in s.claimsHeld || Owing(s, c))
  }

  lemma HeldKept(s: State, t: State, r: RunId, run: Run, c: Conv)
    requires Held(s, c) && r in s.runs && t.runs == s.runs[r := run] && run.conv == s.runs[r].conv
    requires c == run.conv && Holding(s.runs[r].phase) ==> Holding(run.phase)
    ensures Held(t, c)
  {
    var q :| q in s.runs && s.runs[q].conv == c && Holding(s.runs[q].phase);
    assert q in t.runs && t.runs[q].conv == c && Holding(t.runs[q].phase);
  }

  lemma OwingKept(s: State, t: State, r: RunId, run: Run, c: Conv)
    requires Owing(s, c) && r in s.runs && t.runs == s.runs[r := run] && t.releases == s.releases && !Owes(s.runs[r])
    ensures Owing(t, c)
  {
    if exists q :: q in s.runs && s.runs[q].conv == c && Owes(s.runs[q]) {
      var q :| q in s.runs && s.runs[q].conv == c && Owes(s.runs[q]);
      assert q in t.runs && t.runs[q] == s.runs[q];
    }
  }

  lemma ClaimApply(s: State, r: RunId, moved: Run, effect: Effect)
    requires ClaimInv(s) && r in s.runs && moved.conv == s.runs[r].conv && !Owes(s.runs[r])
    requires Holding(s.runs[r].phase) ==> Holding(moved.phase) || moved.phase.Leaving?
    ensures ClaimInv(Apply(s, r, moved, effect))
  {
    var t, run := Apply(s, r, moved, effect), Landed(s, moved);
    assert t.runs[r] == run;
    forall c | c in t.claimsHeld ensures Held(t, c) {
      HeldKept(s, t, r, run, c);
    }
    forall c | c !in t.failed && HolderOf(t, c) == Us ensures c in t.claimsHeld || Owing(t, c) {
      if c in s.claimsHeld {
        assert c !in t.claimsHeld ==> r in t.runs && t.runs[r].conv == c && Owes(t.runs[r]);
      } else {
        OwingKept(s, t, r, run, c);
      }
    }
  }

  lemma ClaimResume(s: State, r: RunId, o: Outcome)
    requires RecordInv(s) && ClaimInv(s)
    ensures ClaimInv(ResumeStep(s, r, o))
  {
    hide Next, Apply, ClaimInv;
    if r in s.runs && Next(s.runs[r], o).Some? {
      StepOk(s.runs[r], o);
      var next := Next(s.runs[r], o).value;
      ClaimApply(s, r, Moved(s.runs[r], o, next), next.1);
    }
  }

  lemma ClaimSpawn(s: State, conv: Conv, mode: Mode, id: RunId)
    requires RecordInv(s) && ClaimInv(s)
    ensures ClaimInv(SpawnStep(s, conv, mode, id))
  {
    hide ClaimInv;
    SamePhases(s, SpawnStep(s, conv, mode, id));
  }

  /** Steps that change no phase, no claim and no release keep the claims in order. */
  lemma SamePhases(s: State, t: State)
    requires ClaimInv(s)
    requires t.claimsHeld == s.claimsHeld && t.releases == s.releases && t.failed == s.failed
    requires forall c :: c !in s.failed && HolderOf(t, c) == Us ==> HolderOf(s, c) == Us
    requires forall r :: r in s.runs ==> r in t.runs && t.runs[r].conv == s.runs[r].conv
    requires forall r :: r in s.runs ==> t.runs[r].phase == s.runs[r].phase || (s.runs[r].phase.Finished? && t.runs[r].phase.Gone?)
    ensures ClaimInv(t)
  {
    forall c | Held(s, c) ensures Held(t, c) {
      HeldSame(s, t, c);
    }
    forall c | Owing(s, c) ensures Owing(t, c) {
      OwingSame(s, t, c);
    }
    hide Held, Owing;
  }

  lemma HeldSame(s: State, t: State, c: Conv)
    requires Held(s, c)
    requires forall r :: r in s.runs ==> r in t.runs && t.runs[r].conv == s.runs[r].conv
    requires forall r :: r in s.runs ==> t.runs[r].phase == s.runs[r].phase || (s.runs[r].phase.Finished? && t.runs[r].phase.Gone?)
    ensures Held(t, c)
  {
    var q :| q in s.runs && s.runs[q].conv == c && Holding(s.runs[q].phase);
    assert q in t.runs && Holding(t.runs[q].phase);
  }

  lemma OwingSame(s: State, t: State, c: Conv)
    requires Owing(s, c) && t.releases == s.releases
    requires forall r :: r in s.runs ==> r in t.runs && t.runs[r].conv == s.runs[r].conv
    requires forall r :: r in s.runs ==> t.runs[r].phase == s.runs[r].phase || (s.runs[r].phase.Finished? && t.runs[r].phase.Gone?)
    ensures Owing(t, c)
  {
    if exists q :: q in s.runs && s.runs[q].conv == c && Owes(s.runs[q]) {
      var q :| q in s.runs && s.runs[q].conv == c && Owes(s.runs[q]);
      assert q in t.runs && Owes(t.runs[q]);
    }
  }

  /** The server's grant is owed to the set until the answer arrives. */
  lemma ClaimDecide(s: State, r: RunId)
    requires ClaimInv(s)
    ensures ClaimInv(DecideStep(s, r))
  {
    if r in s.runs && s.runs[r].phase.Acquiring? {
      var t := DecideStep(s, r);
      var run := t.runs[r];
      forall c | c in t.claimsHeld ensures Held(t, c) {
        HeldKept(s, t, r, run, c);
      }
      forall c | c !in t.failed && HolderOf(t, c) == Us ensures c in t.claimsHeld || Owing(t, c) {
        if run.phase.acquired && c == run.conv {
          assert r in t.runs && t.runs[r].conv == c && Owes(t.runs[r]);
        } else if c !in s.claimsHeld {
          OwingKept(s, t, r, run, c);
        }
      }
    }
  }

  /** On the answer the run enters the set, and holds its claim there. */
  lemma ClaimAnswered(s: State, r: RunId, lost: bool)
    requires ClaimInv(s)
    ensures ClaimInv(ClaimAnswerStep(s, r, lost))
  {
    if r in s.runs && (s.runs[r].phase.Answered? || (lost && s.runs[r].phase.Acquiring?)) {
      var t := ClaimAnswerStep(s, r, lost);
      var run := t.runs[r];
      forall c | c in t.claimsHeld ensures Held(t, c) {
        if c in s.claimsHeld {
          HeldKept(s, t, r, run, c);
        } else {
          assert r in t.runs && t.runs[r].conv == c && Holding(t.runs[r].phase);
        }
      }
      forall c | c !in t.failed && HolderOf(t, c) == Us ensures c in t.claimsHeld || Owing(t, c) {
        if c !in t.claimsHeld {
          OwingOther(s, t, r, run, c);
        }
      }
    }
  }

  /** A run that owes for another conversation, or not at all, does not matter. */
  lemma OwingOther(s: State, t: State, r: RunId, run: Run, c: Conv)
    requires Owing(s, c) && r in s.runs && t.runs == s.runs[r := run] && t.releases == s.releases
    requires s.runs[r].conv != c || !Owes(s.runs[r])
    ensures Owing(t, c)
  {
    if exists q :: q in s.runs && s.runs[q].conv == c && Owes(s.runs[q]) {
      var q :| q in s.runs && s.runs[q].conv == c && Owes(s.runs[q]);
      assert q in t.runs && t.runs[q] == s.runs[q];
    }
  }

  lemma ClaimServerReleases(s: State, r: RunId)
    requires ClaimInv(s)
    ensures ClaimInv(ServerReleasesStep(s, r))
  {
    if r in s.runs && s.runs[r].phase == Releasing(false) {
      var t := ServerReleasesStep(s, r);
      var run := t.runs[r];
      forall c | c in t.claimsHeld ensures Held(t, c) {
        HeldKept(s, t, r, run, c);
      }
      forall c | c !in t.failed && HolderOf(t, c) == Us ensures c in t.claimsHeld || Owing(t, c) {
        assert c != run.conv && HolderOf(s, c) == Us;
        if c !in s.claimsHeld { OwingOther(s, t, r, run, c); }
      }
    }
  }

  lemma ClaimReleaseAnswer(s: State, r: RunId, lost: bool)
    requires ClaimInv(s)
    ensures ClaimInv(ReleaseAnswerStep(s, r, lost))
  {
    if r in s.runs && s.runs[r].phase.Releasing? && (lost || s.runs[r].phase.processed) {
      var t := ReleaseAnswerStep(s, r, lost);
      var run := t.runs[r];
      forall c | c in t.claimsHeld ensures Held(t, c) {
        HeldKept(s, t, r, run, c);
      }
      forall c | c !in t.failed && HolderOf(t, c) == Us ensures c in t.claimsHeld || Owing(t, c) {
        assert HolderOf(s, c) == Us;
        if c !in s.claimsHeld { OwingOther(s, t, r, run, c); }
      }
    }
  }

  lemma ClaimStopReleases(s: State, conv: Conv, id: nat)
    requires ClaimInv(s)
    ensures ClaimInv(StopReleasesStep(s, conv, id))
  {
    if conv in s.claimsHeld && id !in s.releases {
      var t := StopReleasesStep(s, conv, id);
      forall c | c in t.claimsHeld ensures Held(t, c) {
        assert Held(s, c);
      }
      forall c | c !in t.failed && HolderOf(t, c) == Us ensures c in t.claimsHeld || Owing(t, c) {
        if c == conv {
          assert t.releases[id] == Release(c, false);
        } else if c !in s.claimsHeld {
          ReleasesGrow(s, t, id, c);
        }
      }
    }
  }

  /** Releases for other conversations do not matter. */
  lemma ReleasesGrow(s: State, t: State, id: nat, c: Conv)
    requires Owing(s, c) && t.runs == s.runs
    requires id in s.releases ==> s.releases[id] != Release(c, false)
    requires forall i :: i in s.releases && i != id ==> i in t.releases && t.releases[i] == s.releases[i]
    ensures Owing(t, c)
  {
    if exists i :: i in s.releases && s.releases[i] == Release(c, false) {
      var i :| i in s.releases && s.releases[i] == Release(c, false);
      assert i in t.releases && t.releases[i] == Release(c, false);
    }
  }

  lemma ClaimStopDone(s: State, id: nat, lost: bool)
    requires ClaimInv(s)
    ensures ClaimInv(ServerReleasesStopStep(s, id)) && ClaimInv(StopAnswerStep(s, id, lost))
  {
    if id in s.releases && !s.releases[id].processed {
      var t := ServerReleasesStopStep(s, id);
      forall c | c in t.claimsHeld ensures Held(t, c) {
        assert Held(s, c);
      }
      forall c | c !in t.failed && HolderOf(t, c) == Us ensures c in t.claimsHeld || Owing(t, c) {
        assert c != s.releases[id].conv && HolderOf(s, c) == Us;
        if c !in s.claimsHeld { ReleasesGrow(s, t, id, c); }
      }
    }
    if id in s.releases && (lost || s.releases[id].processed) {
      var t := StopAnswerStep(s, id, lost);
      forall c | c in t.claimsHeld ensures Held(t, c) {
        assert Held(s, c);
      }
      forall c | c !in t.failed && HolderOf(t, c) == Us ensures c in t.claimsHeld || Owing(t, c) {
        assert HolderOf(s, c) == Us;
        if c !in s.claimsHeld { ReleasesGrow(s, t, id, c); }
      }
    }
  }

  lemma ClaimRunEnds(s: State, r: RunId)
    requires ClaimInv(s)
    ensures ClaimInv(RunEndsStep(s, r))
  {
    hide ClaimInv, Recorded;
    SamePhases(s, RunEndsStep(s, r));
  }

  lemma ClaimStopAborts(s: State)
    requires ClaimInv(s)
    ensures ClaimInv(StopAbortsStep(s))
  {
    hide ClaimInv, Recorded;
    SamePhases(s, StopAbortsStep(s));
  }

  lemma ClaimLease(s: State, conv: Conv, holder: Holder)
    requires ClaimInv(s)
    ensures ClaimInv(LeaseStep(s, conv, holder))
  {
    hide ClaimInv;
    SamePhases(s, LeaseStep(s, conv, holder));
  }

  lemma ClaimStep(s: State, e: Event)
    requires RecordInv(s) && ClaimInv(s)
    ensures ClaimInv(Step(s, e))
  {
    hide SpawnStep, ResumeStep, DecideStep, ClaimAnswerStep, ServerReleasesStep, ReleaseAnswerStep, RunEndsStep, StopAbortsStep, StopReleasesStep, ServerReleasesStopStep, StopAnswerStep, LeaseStep, ClaimInv, RecordInv;
    match e
    case Spawn(conv, mode, id) => ClaimSpawn(s, conv, mode, id);
    case Resume(r, o) => ClaimResume(s, r, o);
    case ServerDecides(r) => ClaimDecide(s, r);
    case ClaimAnswer(r, lost) => ClaimAnswered(s, r, lost);
    case ServerReleases(r) => ClaimServerReleases(s, r);
    case ReleaseAnswer(r, lost) => ClaimReleaseAnswer(s, r, lost);
    case RunEnds(r) => ClaimRunEnds(s, r);
    case StopAborts => ClaimStopAborts(s);
    case StopReleases(conv, id) => ClaimStopReleases(s, conv, id);
    case ServerReleasesStop(id) => ClaimStopDone(s, id, false);
    case StopAnswer(id, lost) => ClaimStopDone(s, id, lost);
    case LeaseMoves(conv, holder) => ClaimLease(s, conv, holder);
  }

  // ----- Every execution -----

  lemma {:induction false} EveryExecution(events: seq<Event>)
    ensures var s := Exec(events); RecordInv(s) && LogInv(s) && ClaimInv(s)
  {
    if events != [] {
      EveryExecution(events[..|events| - 1]);
      var s, e := Exec(events[..|events| - 1]), events[|events| - 1];
      RecordStep(s, e);
      LogStep(s, e);
      ClaimStep(s, e);
    }
  }

  /** Two unaborted runs of one conversation that have not ended are the same run,
      and it is the recorded one. */
  lemma OneUnabortedRun(events: seq<Event>, r: RunId, q: RunId)
    requires var s := Exec(events);
      && r in s.runs && Alive(s.runs[r]) && !s.runs[r].aborted
      && q in s.runs && Alive(s.runs[q]) && !s.runs[q].aborted && s.runs[r].conv == s.runs[q].conv
    ensures r == q && Recorded(Exec(events), r)
  {
    EveryExecution(events);
    assert Recorded(Exec(events), r) && Recorded(Exec(events), q);
  }

  /** A generated reply is sent only by the unaborted, recorded run of its
      conversation, and succeeds at most once per run. */
  lemma PostsAreFromTheNewestRun(events: seq<Event>)
    ensures var log := Exec(events).log;
      && (forall i :: 0 <= i < |log| && log[i].effect.PostSent? ==> !log[i].aborted && log[i].recorded)
      && (forall i, j :: 0 <= i < j < |log| && log[i].run == log[j].run && log[i].effect.PostOk? ==>
            !Replies(log[j].effect))
  {
    EveryExecution(events);
  }

  /** A run that has marked its conversation as spam sends no reply, and one that
      has replied marks no spam. */
  lemma SpamIsNotAnswered(events: seq<Event>, i: nat, j: nat)
    requires i < |Exec(events).log| && j < |Exec(events).log| && Exec(events).log[i].run == Exec(events).log[j].run
    requires Exec(events).log[i].effect == Dispatched(MarkSpam)
    ensures !Exec(events).log[j].effect.PostOk?
    ensures i < j ==> !Exec(events).log[j].effect.PostSent?
  {
    EveryExecution(events);
    hide Exec;
  }

  /** A run closes or snoozes a thread only after its own successful post. */
  lemma ThreadsChangeAfterPost(events: seq<Event>, j: nat)
    requires j < |Exec(events).log| && ChangesThread(Exec(events).log[j].effect)
    ensures LoggedBy(Exec(events).log, Exec(events).log[j].run, PostOk, j)
  {
    EveryExecution(events);
  }

  /** No run of the conversation is under way and no release is on its way. */
  ghost predicate Quiet(s: State, c: Conv) {
    && (forall r :: r in s.runs && s.runs[r].conv == c ==> s.runs[r].phase.Finished? || s.runs[r].phase.Gone?)
    && (forall id :: id in s.releases ==> s.releases[id].conv != c)
  }

  /** However runs overlapped: once a conversation is quiet the set has no entry
      for it, and unless a claim or release call for it failed the server holds no
      claim for us. */
  lemma QuietMeansReleased(events: seq<Event>, c: Conv)
    requires Quiet(Exec(events), c)
    ensures c !in Exec(events).claimsHeld
    ensures c !in Exec(events).failed ==> HolderOf(Exec(events), c) != Us
  {
    EveryExecution(events);
  }

  // ----- Superseded and stopped runs -----

  /** These runs are there, and each is aborted or gone. */
  ghost predicate Silenced(s: State, earlier: set<RunId>) {
    forall r :: r in earlier ==> r in s.runs && (s.runs[r].aborted || s.runs[r].phase.Gone?)
  }

  /** A step adds at most one entry, and no post of a silenced run. */
  ghost predicate QuietLog(s: State, t: State, earlier: set<RunId>) {
    || t.log == s.log
    || exists e :: t.log == s.log + [e] && (e.effect.PostSent? ==> e.run !in earlier)
  }

  lemma SilencedStep(s: State, e: Event, earlier: set<RunId>)
    requires RecordInv(s) && Silenced(s, earlier)
    ensures Silenced(Step(s, e), earlier) && QuietLog(s, Step(s, e), earlier)
  {
    hide SpawnStep, ResumeStep, DecideStep, ClaimAnswerStep, ServerReleasesStep, ReleaseAnswerStep, RunEndsStep, StopAbortsStep, RecordInv;
    if e.Resume? {
      SilencedResume(s, e.run, e.outcome, earlier);
    } else {
      NoPostStep(s, e);
      SilencedElsewhere(s, e, earlier);
    }
  }

  lemma SilencedResume(s: State, r: RunId, o: Outcome, earlier: set<RunId>)
    requires RecordInv(s) && Silenced(s, earlier)
    ensures Silenced(ResumeStep(s, r, o), earlier) && QuietLog(s, ResumeStep(s, r, o), earlier)
  {
    hide Next, RunOk, OnlyRecorded, RecordPoints, Recorded;
    if r in s.runs && Next(s.runs[r], o).Some? {
      StepOk(s.runs[r], o);
      hide RunsOk;
      var t := ResumeStep(s, r, o);
      if t.log != s.log {
        assert t.log == s.log + [Entry(r, Next(s.runs[r], o).value.1, s.runs[r].aborted, Recorded(s, r))];
      }
    }
  }

  lemma SilencedElsewhere(s: State, e: Event, earlier: set<RunId>)
    requires Silenced(s, earlier) && !e.Resume?
    ensures Silenced(Step(s, e), earlier)
  {
    hide HolderOf, Recorded, Unclaimed;
  }

  /** From a state on, silenced runs send nothing. */
  lemma {:induction false} SilencedThroughout(start: seq<Event>, events: seq<Event>, earlier: set<RunId>, i: nat)
    requires Silenced(Exec(start), earlier)
    ensures Silenced(Exec(start + events), earlier) && Exec(start).log <= Exec(start + events).log
    ensures |Exec(start).log| <= i < |Exec(start + events).log| && Exec(start + events).log[i].effect.PostSent? ==>
      Exec(start + events).log[i].run !in earlier
    decreases |events|
  {
    hide Silenced, RecordInv, LogInv, ClaimInv, Step;
    if events == [] {
      assert start + events == start;
    } else {
      var front := events[..|events| - 1];
      assert (start + events)[..|start + events| - 1] == start + front;
      SilencedThroughout(start, front, earlier, i);
      EveryExecution(start + front);
      SilencedStep(Exec(start + front), events[|events| - 1], earlier);
    }
  }

  /** Once `stop` has aborted the recorded runs, no run of that time sends a reply. */
  lemma StopSilences(prefix: seq<Event>, events: seq<Event>, i: nat)
    requires var log := Exec(prefix + [StopAborts] + events).log;
      |Exec(prefix).log| <= i < |log| && log[i].effect.PostSent?
    ensures Exec(prefix + [StopAborts] + events).log[i].run !in Exec(prefix).runs
  {
    hide LogInv, ClaimInv, Step;
    EveryExecution(prefix);
    assert (prefix + [StopAborts])[..|prefix|] == prefix;
    assert Exec(prefix + [StopAborts]) == Step(Exec(prefix), StopAborts);
    StoppedSilenced(Exec(prefix));
    SilencedThroughout(prefix + [StopAborts], events, Exec(prefix).runs.Keys, i);
  }

  lemma StoppedSilenced(s: State)
    requires RecordInv(s)
    ensures Silenced(Step(s, StopAborts), s.runs.Keys) && Step(s, StopAborts).log == s.log
  {
    hide RunsOk;
  }

  /** Once a run of a conversation is superseded, it sends no reply. */
  lemma SupersededSilent(prefix: seq<Event>, conv: Conv, mode: Mode, id: RunId, events: seq<Event>, i: nat)
    requires id !in Exec(prefix).runs
    requires var log := Exec(prefix + [Spawn(conv, mode, id)] + events).log;
      |Exec(prefix).log| <= i < |log| && log[i].effect.PostSent?
    ensures var r := Exec(prefix + [Spawn(conv, mode, id)] + events).log[i].run;
      r in Exec(prefix).runs ==> Exec(prefix).runs[r].conv != conv
  {
    hide LogInv, ClaimInv, Step;
    EveryExecution(prefix);
    var s, start := Exec(prefix), prefix + [Spawn(conv, mode, id)];
    assert start[..|prefix|] == prefix;
    assert Exec(start) == Step(s, Spawn(conv, mode, id));
    var earlier := set r | r in s.runs && s.runs[r].conv == conv;
    SpawnSilences(s, conv, mode, id, earlier);
    SilencedThroughout(start, events, earlier, i);
  }

  lemma SpawnSilences(s: State, conv: Conv, mode: Mode, id: RunId, earlier: set<RunId>)
    requires RecordInv(s) && id !in s.runs
    requires forall r :: r in earlier <==> r in s.runs && s.runs[r].conv == conv
    ensures Silenced(Step(s, Spawn(conv, mode, id)), earlier) && Step(s, Spawn(conv, mode, id)).log == s.log
  {
    hide RunsOk;
  }

  // ----- Giving back, and leases -----

  /** `stop` gives a held claim back once: entry and request, server, answer. */
  lemma StopGivesBack(s: State, conv: Conv, id: nat)
    requires conv in s.claimsHeld && id !in s.releases
    ensures var t := Step(s, StopReleases(conv, id));
      && t.claimsHeld == s.claimsHeld - {conv} && t.releases == s.releases[id := Release(conv, false)]
      && (forall other :: Step(t, StopReleases(conv, other)) == t)
      && var u := Step(Step(t, ServerReleasesStop(id)), StopAnswer(id, false));
      u.releases == s.releases && HolderOf(u, conv) != Us && u.claimsHeld == t.claimsHeld && u.failed == s.failed
  {
  }

  /** Anyone else may take or leave a claim at any time. */
  lemma LeasesMove(s: State, conv: Conv, holder: Holder)
    ensures holder != Us ==> HolderOf(Step(s, LeaseMoves(conv, holder)), conv) == holder
    ensures conv in s.failed ==> HolderOf(Step(s, LeaseMoves(conv, holder)), conv) == holder
  {
  }
}
