/**
 * What a run does, told as a whole: given how each promise it waits for settles,
 * the effects it has, attempt by attempt. The step-by-step machine, with all other
 * runs interleaved, produces exactly these effects.
 */
module ConversationPlan {
  import opened Options
  import opened ConversationRun
  import opened ConversationHandler

  /** How one attempt goes: whether the tools open, how the provider, the audit, the
      post and the parking of a draft settle (`None` is success), what the reply and
      the verdict are. */
  datatype Attempt = Attempt(
    opens: bool, generated: Option<Trouble>, empty: bool, audited: Option<Trouble>,
    actions: seq<Action>, handoverCalled: bool, posted: Option<Trouble>, parked: Option<Trouble>)

  datatype Gate = Open | Shut(notice: bool)

  /** How everything a run waits for settles. */
  datatype Plan = Plan(mode: Mode, delivery: Option<Delivery>, prepared: bool, gate: Gate, attempts: nat -> Attempt)

  // ----- The effects, as a whole -----

  /** Actions that go out before the reply, and those that wait for it. */
  predicate GoesFirst(a: Action, mode: Mode, handoverCalled: bool) {
    match a
    case CloseThread => false
    case SnoozeThread => false
    case RequestHandover => !handoverCalled && mode != DraftRequest
    case MarkSpam => true
    case SetTopic(known) => known
  }

  predicate GoesLast(a: Action) {
    a == CloseThread || a == SnoozeThread
  }

  function First(actions: seq<Action>, mode: Mode, handoverCalled: bool): seq<Effect> {
    if actions == [] then []
    else
      var last := actions[|actions| - 1];
      First(actions[..|actions| - 1], mode, handoverCalled)
      + if GoesFirst(last, mode, handoverCalled) then [Dispatched(last)] else []
  }

  function Last(actions: seq<Action>): seq<Effect> {
    if actions == [] then []
    else
      var last := actions[|actions| - 1];
      Last(actions[..|actions| - 1]) + if GoesLast(last) then [Dispatched(last)] else []
  }

  /** Attempt `k` and what comes after it; after the third the run falls back. */
  function Effects(p: Plan, delivery: Delivery, k: nat): seq<Effect>
    decreases 3 - k, 5
  {
    if k >= 3 then [FellBack]
    else if !p.attempts(k).opens then []
    else AfterOpening(p, delivery, k)
  }

  function AfterOpening(p: Plan, delivery: Delivery, k: nat): seq<Effect>
    requires k < 3
    decreases 3 - k, 4
  {
    if p.attempts(k).generated.Some? then AfterTrouble(p, delivery, k, p.attempts(k).generated.value)
    else AfterReply(p, delivery, k)
  }

  function AfterReply(p: Plan, delivery: Delivery, k: nat): seq<Effect>
    requires k < 3
    decreases 3 - k, 3
  {
    if p.attempts(k).empty then Effects(p, delivery, k + 1)
    else if p.mode == Greet then Conclusion(p, delivery, k)
    else WithAudit(p, delivery, k)
  }

  function WithAudit(p: Plan, delivery: Delivery, k: nat): seq<Effect>
    requires k < 3
    decreases 3 - k, 2
  {
    var a := p.attempts(k);
    if a.audited.Some? then AfterTrouble(p, delivery, k, a.audited.value)
    else First(a.actions, p.mode, a.handoverCalled) + Conclusion(p, delivery, k)
  }

  predicate IsSpam(p: Plan, k: nat) {
    p.mode != Greet && MarkSpam in p.attempts(k).actions
  }

  /** A spam verdict parks the reply for good; a draft is parked; a reply is posted. */
  function Conclusion(p: Plan, delivery: Delivery, k: nat): seq<Effect>
    requires k < 3
    decreases 3 - k, 1
  {
    if IsSpam(p, k) then [DraftParked]
    else if delivery == Draft then [DraftParked] + AfterParking(p, delivery, k)
    else [PostSent] + AfterPost(p, delivery, k)
  }

  function AfterPost(p: Plan, delivery: Delivery, k: nat): seq<Effect>
    requires k < 3
    decreases 3 - k, 0, 2
  {
    match p.attempts(k).posted
    case None => [PostOk] + if p.mode == Greet then [] else Last(p.attempts(k).actions)
    case Some(trouble) =>
      if trouble == SendNotAuto then [DraftParked] + AfterParking(p, delivery, k)
      else AfterTrouble(p, delivery, k, trouble)
  }

  function AfterParking(p: Plan, delivery: Delivery, k: nat): seq<Effect>
    requires k < 3
    decreases 3 - k, 0, 1
  {
    if p.attempts(k).parked.Some? then AfterTrouble(p, delivery, k, p.attempts(k).parked.value) else []
  }

  /** A superseded reply ends the run; a provider that will not recover, or a history
      too long for it, makes it fall back; anything else is tried again. */
  function AfterTrouble(p: Plan, delivery: Delivery, k: nat, trouble: Trouble): seq<Effect>
    requires k < 3
    decreases 3 - k, 0, 0
  {
    match trouble
    case TerminalSkip => []
    case FastFail => [FellBack]
    case ContextLength => [FellBack]
    case Ordinary => Effects(p, delivery, k + 1)
    case SendNotAuto => Effects(p, delivery, k + 1)
  }

  function AfterGate(p: Plan, delivery: Delivery): seq<Effect> {
    match p.gate
    case Open => Effects(p, delivery, 0)
    case Shut(notice) => if notice then [FellBack] else []
  }

  /** Everything the run will have done when it leaves. */
  function Whole(p: Plan): seq<Effect> {
    if p.delivery.None? || !p.prepared then [] else AfterGate(p, p.delivery.value)
  }

  // ----- The run's own log -----

  function Own(log: seq<Entry>, r: RunId): seq<Effect> {
    if log == [] then []
    else Own(log[..|log| - 1], r) + if log[|log| - 1].run == r then [log[|log| - 1].effect] else []
  }

  lemma OwnStep(log: seq<Entry>, e: Entry, r: RunId)
    ensures Own(log + [e], r) == Own(log, r) + if e.run == r then [e.effect] else []
  {
    assert (log + [e])[..|log|] == log;
  }

  lemma {:induction false} OwnNone(log: seq<Entry>, r: RunId)
    requires forall i :: 0 <= i < |log| ==> log[i].run != r
    ensures Own(log, r) == []
  {
    if log != [] { OwnNone(log[..|log| - 1], r); }
  }

  // ----- On the way -----

  /** The awaited promise settles as planned. */
  predicate AsPlanned(phase: Phase, o: Outcome, p: Plan) {
    match phase
    case Debouncing => o.Fulfilled?
    case Fetching => o == Fetched(p.delivery)
    case Preparing => if p.prepared then o.Fulfilled? else o.Rejected?
    case Gating => if p.gate.Open? then o.Fulfilled? || (o.Verdict? && o.allowed) else o == Verdict(false, p.gate.notice)
    case Opening(k) => if p.attempts(k).opens then o.Fulfilled? else o.Rejected?
    case Generating(k) =>
      if p.attempts(k).generated.Some? then o == Rejected(p.attempts(k).generated.value)
      else o.Generated? && (o.empty == p.attempts(k).empty || (p.mode == DraftRequest && o.rewrite && !o.empty))
    case Rewriting(k) => o.Generated? && o.empty == p.attempts(k).empty
    case Auditing(k) =>
      if p.attempts(k).audited.Some? then o == Rejected(p.attempts(k).audited.value)
      else o == Audited(p.attempts(k).actions, p.attempts(k).handoverCalled)
    case Posting(k, _) => o == Settled(p.attempts(k).posted)
    case Parking(k, _) => o == Settled(p.attempts(k).parked)
    case BackingOff(_) => o.Fulfilled?
    case _ => true
  }

  function Settled(trouble: Option<Trouble>): Outcome {
    if trouble.None? then Fulfilled else Rejected(trouble.value)
  }

  /** Events under which the run goes as planned: its promises settle so, its calls
      are not lost, nobody else takes the conversation's claim, and the run is not
      superseded or stopped. All other runs may do anything. */
  predicate Planned(s: State, e: Event, id: RunId, conv: Conv, p: Plan) {
    match e
    case Spawn(c, _, i) => c != conv || i == id
    case Resume(r, o) => r == id && id in s.runs ==> AsPlanned(s.runs[id].phase, o, p)
    case ClaimAnswer(r, lost) => r == id ==> !lost
    case StopAborts => false
    case LeaseMoves(c, holder) => c == conv ==> holder != Other
    case _ => true
  }

  predicate Left(phase: Phase) {
    phase.Leaving? || phase.Releasing? || phase.Finished? || phase.Gone?
  }

  /** What dispatching actions in order leaves on the log. */
  function EffectsOf(actions: seq<Action>): seq<Effect> {
    if actions == [] then [] else Single(EffectOf(actions[0])) + EffectsOf(actions[1..])
  }

  function Single(e: Effect): seq<Effect> {
    if e.NoEffect? then [] else [e]
  }

  /** Where a run that goes as planned can be. */
  predicate Possible(run: Run, conv: Conv, p: Plan) {
    && run.conv == conv && run.mode == p.mode && !run.aborted
    && (run.phase.Debouncing? || run.phase.Fetching? || Left(run.phase) || p.delivery == Some(run.delivery))
    && match run.phase
       case Answered(acquired) => acquired
       case Gating => p.prepared
       case Opening(k) => k < 3
       case Generating(k) => k < 3
       case Rewriting(k) => k < 3 && p.mode == DraftRequest && p.attempts(k).generated.None?
       case Auditing(k) => k < 3 && p.mode != Greet
       case Dispatching(k, _, spam, held) =>
         && k < 3 && p.mode != Greet && spam == IsSpam(p, k)
         && (run.delivery == Send ==> EffectsOf(held) == Last(p.attempts(k).actions))
       case Parking(k, guarded) => k < 3 && guarded == IsSpam(p, k)
       case Posting(k, held) =>
         && k < 3 && run.delivery == Send && !IsSpam(p, k)
         && EffectsOf(held) == if p.mode == Greet then [] else Last(p.attempts(k).actions)
       case ClosingTools(next) => next.Retry? ==> next.attempt < 3
       case BackingOff(k) => k < 3
       case _ => true
  }

  /** What a run in this phase will still do. */
  function Rest(phase: Phase, p: Plan, delivery: Delivery): seq<Effect> {
    match phase
    case Debouncing => Whole(p)
    case Fetching => Whole(p)
    case Acquiring => Whole(p)
    case Answered(_) => Whole(p)
    case Preparing => Whole(p)
    case Gating => AfterGate(p, delivery)
    case Opening(k) => Effects(p, delivery, k)
    case Generating(k) => if k < 3 then AfterOpening(p, delivery, k) else []
    case Rewriting(k) => if k < 3 then AfterReply(p, delivery, k) else []
    case Auditing(k) => if k < 3 then WithAudit(p, delivery, k) else []
    case Dispatching(k, rest, _, _) => EffectsOf(rest) + if k < 3 then Conclusion(p, delivery, k) else []
    case Parking(k, guarded) => if k < 3 && !guarded then AfterParking(p, delivery, k) else []
    case Posting(k, _) => if k < 3 then AfterPost(p, delivery, k) else []
    case Settling(held) => EffectsOf(held)
    case ClosingTools(next) =>
      (match next
       case Leave => []
       case GiveUp => [FellBack]
       case Retry(k) => Effects(p, delivery, k + 1))
    case BackingOff(k) => Effects(p, delivery, k + 1)
    case _ => []
  }

  lemma SingleIs(e: Effect, tail: seq<Effect>)
    ensures Single(e) + tail == if e.NoEffect? then tail else [e] + tail
  {
  }

  lemma {:induction false} EffectsConcat(actions: seq<Action>, a: Action)
    ensures EffectsOf(actions + [a]) == EffectsOf(actions) + Single(EffectOf(a))
  {
    if actions == [] {
      assert ([] + [a])[1..] == [] && EffectsOf([a]) == Single(EffectOf(a)) + [];
    } else {
      EffectsConcat(actions[1..], a);
      assert (actions + [a])[1..] == actions[1..] + [a];
    }
  }

  /** The filtered actions, dispatched in order, have the effects described above. */
  lemma {:induction false} FirstEffects(actions: seq<Action>, mode: Mode, handoverCalled: bool)
    ensures EffectsOf(AtOnce(actions, mode, handoverCalled)) == First(actions, mode, handoverCalled)
  {
    NothingNow(mode, handoverCalled);
    hide AtOnce, AfterSend, EffectsOf, EffectOf;
    if actions != [] {
      var front, last := actions[..|actions| - 1], actions[|actions| - 1];
      FirstEffects(front, mode, handoverCalled);
      assert actions == front + [last];
      SplitStep(front, last, Send, mode, handoverCalled);
      var now := AtOnce(front, mode, handoverCalled);
      EffectsConcat(now, last);
      EffectOfAction(last);
      FirstStep(last, mode, handoverCalled);
      NoTail(EffectsOf(now));
      assert now + [] == now;
    }
  }

  lemma NothingNow(mode: Mode, handoverCalled: bool)
    ensures EffectsOf(AtOnce([], mode, handoverCalled)) == []
  {
  }

  /** One action's part. */
  lemma FirstStep(a: Action, mode: Mode, handoverCalled: bool)
    ensures ClosesThread(a) || Superfluous(a, mode, handoverCalled) ==> !GoesFirst(a, mode, handoverCalled)
    ensures !ClosesThread(a) && !Superfluous(a, mode, handoverCalled) ==>
      Single(EffectOf(a)) == if GoesFirst(a, mode, handoverCalled) then [Dispatched(a)] else []
  {
  }

  lemma {:induction false} LastEffects(actions: seq<Action>)
    ensures EffectsOf(AfterSend(actions, Send)) == Last(actions)
  {
    NothingLater();
    hide AtOnce, AfterSend, EffectsOf, EffectOf;
    if actions != [] {
      var front, last := actions[..|actions| - 1], actions[|actions| - 1];
      LastEffects(front);
      assert actions == front + [last];
      SplitStep(front, last, Send, Reply, false);
      EffectsConcat(AfterSend(front, Send), last);
      EffectOfAction(last);
      var later := AfterSend(front, Send);
      assert later + [] == later;
    }
  }

  lemma NothingLater()
    ensures EffectsOf(AfterSend([], Send)) == []
  {
  }

  /** The step does the beginning of what was still to come, and stays possible. */
  ghost predicate StepsOn(run: Run, o: Outcome, conv: Conv, p: Plan)
    requires Next(run, o).Some?
  {
    var (phase, effect) := Next(run, o).value;
    var moved := Moved(run, o, (phase, effect));
    Possible(moved, conv, p) && Rest(run.phase, p, run.delivery) == Single(effect) + Rest(phase, p, moved.delivery)
  }

  lemma StepsBefore(run: Run, o: Outcome, conv: Conv, p: Plan)
    requires Possible(run, conv, p) && AsPlanned(run.phase, o, p) && Next(run, o).Some?
    requires run.phase.Debouncing? || run.phase.Fetching? || run.phase.Preparing? || run.phase.Gating? || run.phase.Opening?
    ensures StepsOn(run, o, conv, p)
  {
    hide AfterOpening, EffectsOf, IsSpam, Last;
  }

  lemma StepsGenerating(run: Run, o: Outcome, conv: Conv, p: Plan)
    requires Possible(run, conv, p) && AsPlanned(run.phase, o, p) && Next(run, o).Some?
    requires run.phase.Generating? || run.phase.Rewriting?
    ensures StepsOn(run, o, conv, p)
  {
    hide Effects, AfterReply, AfterTrouble, WithReply, Catch, Last, EffectsOf, IsSpam;
    var k := run.phase.attempt;
    ReplyRest(run, conv, p, k);
    TroubleRest(run, p, k, if o.Rejected? then o.trouble else Ordinary);
  }

  /** What becomes of a reply, or of an empty one. */
  lemma ReplyRest(run: Run, conv: Conv, p: Plan, k: nat)
    requires run.conv == conv && run.mode == p.mode && !run.aborted && p.delivery == Some(run.delivery) && k < 3
    ensures var (phase, effect) := WithReply(run, k, p.attempts(k).empty);
      && Possible(run.(phase := phase), conv, p) && !phase.Fetching?
      && AfterReply(p, run.delivery, k) == Single(effect) + Rest(phase, p, run.delivery)
  {
    NoActions();
    hide Effects, WithAudit, AfterPost, AfterParking, Last, EffectsOf;
  }

  lemma NoActions()
    ensures Last([]) == [] && EffectsOf([]) == []
  {
  }

  /** After trouble the tools are closed, and what follows is what `Catch` decides. */
  lemma TroubleRest(run: Run, p: Plan, k: nat, trouble: Trouble)
    requires k < 3 && !run.aborted
    ensures Rest(Catch(run, k, trouble), p, run.delivery) == AfterTrouble(p, run.delivery, k, trouble)
    ensures Catch(run, k, trouble).ClosingTools?
    ensures Catch(run, k, trouble).after.Retry? ==> Catch(run, k, trouble).after.attempt == k
  {
    hide Effects;
  }

  lemma StepsAuditing(run: Run, o: Outcome, conv: Conv, p: Plan)
    requires Possible(run, conv, p) && AsPlanned(run.phase, o, p) && Next(run, o).Some? && run.phase.Auditing?
    ensures StepsOn(run, o, conv, p)
  {
    hide Conclusion, First, Last, EffectsOf, Catch, AtOnce, AfterSend;
    var k := run.phase.attempt;
    if o.Rejected? {
      TroubleRest(run, p, k, o.trouble);
      hide AfterTrouble;
    } else {
      AuditPlans(run, o);
      FirstEffects(o.actions, run.mode, o.handoverCalled);
      LastEffects(o.actions);
    }
  }

  lemma StepsDispatching(run: Run, o: Outcome, conv: Conv, p: Plan)
    requires Possible(run, conv, p) && AsPlanned(run.phase, o, p) && Next(run, o).Some? && run.phase.Dispatching?
    ensures StepsOn(run, o, conv, p)
  {
    hide Next, Last, EffectOf, EffectsOf, Conclusion, AfterAudit, Possible, Rest, Single;
    NextDispatch(run, o);
    DispatchingIs(run, conv, p);
    var todo, k := run.phase.rest, run.phase.attempt;
    if todo != [] {
      HeadFirst(todo, Conclusion(p, run.delivery, k));
      DispatchingIs(Moved(run, o, Next(run, o).value), conv, p);
    } else {
      NoActions();
      ConclusionRest(run, conv, p, k, run.phase.held);
      NoHead(Conclusion(p, run.delivery, k));
    }
  }

  lemma DispatchingIs(run: Run, conv: Conv, p: Plan)
    requires run.phase.Dispatching?
    ensures Possible(run, conv, p) <==>
      && run.conv == conv && run.mode == p.mode && !run.aborted && p.delivery == Some(run.delivery)
      && run.phase.attempt < 3 && p.mode != Greet && run.phase.spam == IsSpam(p, run.phase.attempt)
      && (run.delivery == Send ==> EffectsOf(run.phase.held) == Last(p.attempts(run.phase.attempt).actions))
    ensures run.phase.attempt < 3 ==>
      Rest(run.phase, p, run.delivery) == EffectsOf(run.phase.rest) + Conclusion(p, run.delivery, run.phase.attempt)
  {
    hide EffectsOf, Last, IsSpam, Conclusion;
  }

  lemma StepsSettling(run: Run, o: Outcome, conv: Conv, p: Plan)
    requires Possible(run, conv, p) && AsPlanned(run.phase, o, p) && Next(run, o).Some? && run.phase.Settling?
    ensures StepsOn(run, o, conv, p)
  {
    hide Next, Last, EffectOf, EffectsOf, IsSpam, Single, Conclusion, Whole, Effects;
    NextDispatch(run, o);
    NoActions();
    var todo := run.phase.held;
    if todo != [] {
      HeadFirst(todo, []);
      NoTail(EffectsOf(todo));
      NoTail(EffectsOf(todo[1..]));
    } else {
      OneEffect(NoEffect);
    }
  }

  lemma HeadFirst(todo: seq<Action>, tail: seq<Effect>)
    requires todo != []
    ensures EffectsOf(todo) + tail == Single(EffectOf(todo[0])) + (EffectsOf(todo[1..]) + tail)
  {
    hide EffectOf;
  }

  lemma NoTail(effects: seq<Effect>)
    ensures effects + [] == effects
  {
  }

  lemma NoHead(effects: seq<Effect>)
    ensures [] + effects == effects
  {
  }

  /** What happens once everything that goes first is dispatched. */
  lemma ConclusionRest(run: Run, conv: Conv, p: Plan, k: nat, held: seq<Action>)
    requires Possible(run, conv, p) && k < 3 && p.delivery == Some(run.delivery) && p.mode != Greet
    requires run.delivery == Send ==> EffectsOf(held) == Last(p.attempts(k).actions)
    ensures var (phase, effect) := AfterAudit(run, k, IsSpam(p, k), held);
      && Possible(run.(phase := phase), conv, p) && !effect.PostOk? && !effect.Dispatched?
      && Conclusion(p, run.delivery, k) == Single(effect) + Rest(phase, p, run.delivery)
  {
    hide AfterPost, AfterParking, Last, EffectsOf, IsSpam;
  }

  /** What a dispatching run does next. */
  lemma NextDispatch(run: Run, o: Outcome)
    requires run.phase.Dispatching? || run.phase.Settling?
    ensures Next(run, o) == Some(
      if run.phase.Settling? then
        if run.phase.held == [] then (NotePosting, NoEffect)
        else (Settling(run.phase.held[1..]), EffectOf(run.phase.held[0]))
      else if run.phase.rest != [] then
        (Dispatching(run.phase.attempt, run.phase.rest[1..], run.phase.spam, run.phase.held), EffectOf(run.phase.rest[0]))
      else if run.aborted then (ClosingTools(Leave), NoEffect)
      else AfterAudit(run, run.phase.attempt, run.phase.spam, run.phase.held))
  {
  }

  lemma StepsPosting(run: Run, o: Outcome, conv: Conv, p: Plan)
    requires Possible(run, conv, p) && AsPlanned(run.phase, o, p) && Next(run, o).Some?
    requires run.phase.Posting? || run.phase.Parking?
    ensures StepsOn(run, o, conv, p)
  {
    hide AfterTrouble, EffectsOf, Last, Catch, IsSpam;
    TroubleRest(run, p, run.phase.attempt, if o.Rejected? then o.trouble else Ordinary);
  }

  lemma StepsAfter(run: Run, o: Outcome, conv: Conv, p: Plan)
    requires Possible(run, conv, p) && AsPlanned(run.phase, o, p) && Next(run, o).Some?
    requires run.phase.NotePosting? || run.phase.ClosingTools? || run.phase.BackingOff? || run.phase.FallingBack?
    ensures StepsOn(run, o, conv, p)
  {
    hide AfterOpening, EffectsOf, IsSpam, Last;
  }

  /** Every step of the run does the beginning of what was still to come. */
  lemma RestStep(run: Run, o: Outcome, conv: Conv, p: Plan)
    requires Possible(run, conv, p) && AsPlanned(run.phase, o, p) && Next(run, o).Some?
    ensures StepsOn(run, o, conv, p)
  {
    NextPhases(run, o);
    hide Next, StepsOn, Possible, AsPlanned;
    var phase := run.phase;
    if phase.Debouncing? || phase.Fetching? || phase.Preparing? || phase.Gating? || phase.Opening? {
      StepsBefore(run, o, conv, p);
    } else if phase.Generating? || phase.Rewriting? {
      StepsGenerating(run, o, conv, p);
    } else if phase.Auditing? {
      StepsAuditing(run, o, conv, p);
    } else if phase.Dispatching? {
      StepsDispatching(run, o, conv, p);
    } else if phase.Settling? {
      StepsSettling(run, o, conv, p);
    } else if phase.Posting? || phase.Parking? {
      StepsPosting(run, o, conv, p);
    } else {
      StepsAfter(run, o, conv, p);
    }
  }

  lemma NextPhases(run: Run, o: Outcome)
    ensures Next(run, o).Some? ==>
      !run.phase.Acquiring? && !run.phase.Answered? && !Left(run.phase)
  {
  }

  // ----- The run among all others -----

  /** What the run has logged and what it will still do make up the whole plan, and
      its claim is not anybody else's. */
  ghost predicate Tracked(s: State, id: RunId, conv: Conv, p: Plan) {
    && id in s.runs && Possible(s.runs[id], conv, p) && HolderOf(s, conv) != Other
    && Own(s.log, id) + Rest(s.runs[id].phase, p, s.runs[id].delivery) == Whole(p)
  }

  lemma Shifted(own: seq<Effect>, e: Effect, rest: seq<Effect>)
    ensures own + (Single(e) + rest) == own + Single(e) + rest
    ensures own + Single(NoEffect) == own
  {
  }

  lemma TrackOwnStep(s: State, o: Outcome, id: RunId, conv: Conv, p: Plan)
    requires Tracked(s, id, conv, p) && AsPlanned(s.runs[id].phase, o, p)
    ensures Tracked(ResumeStep(s, id, o), id, conv, p)
  {
    hide Next, Possible, AsPlanned, Own, Rest, Whole, Landed, Single;
    if Next(s.runs[id], o).Some? {
      var next, own := Next(s.runs[id], o).value, Own(s.log, id);
      RestStep(s.runs[id], o, conv, p);
      var moved := Moved(s.runs[id], o, next);
      TrackLanded(s, moved, conv, p);
      OwnStep(s.log, Entry(id, next.1, s.runs[id].aborted, Recorded(s, id)), id);
      Shifted(own, next.1, Rest(moved.phase, p, moved.delivery));
      OneEffect(next.1);
      var t := ResumeStep(s, id, o);
      assert t.runs[id] == Landed(s, moved) && Own(t.log, id) == own + Single(next.1);
    }
  }

  lemma OneEffect(e: Effect)
    ensures Single(e) == if e.NoEffect? then [] else [e]
  {
  }

  lemma TrackLanded(s: State, moved: Run, conv: Conv, p: Plan)
    requires Possible(moved, conv, p)
    ensures Possible(Landed(s, moved), conv, p)
    ensures Rest(Landed(s, moved).phase, p, Landed(s, moved).delivery) == Rest(moved.phase, p, moved.delivery)
  {
    hide Whole, AfterGate, Effects;
  }

  /** Steps of other runs leave this one and its own log alone. */
  lemma TrackOtherStep(s: State, r: RunId, o: Outcome, id: RunId, conv: Conv, p: Plan)
    requires Tracked(s, id, conv, p) && r != id
    ensures Tracked(ResumeStep(s, r, o), id, conv, p)
  {
    hide Next, Possible, Own, Rest, Whole;
    if r in s.runs && Next(s.runs[r], o).Some? {
      var next, own := Next(s.runs[r], o).value, Own(s.log, id);
      OwnStep(s.log, Entry(r, next.1, s.runs[r].aborted, Recorded(s, r)), id);
      NoTail(own);
      var t := ResumeStep(s, r, o);
      assert t.runs[id] == s.runs[id] && Own(t.log, id) == own;
    }
  }

  /** Steps that log nothing, keep this run where it is and give the claim to nobody else. */
  lemma TrackKept(s: State, t: State, id: RunId, conv: Conv, p: Plan)
    requires Tracked(s, id, conv, p) && t.log == s.log && id in t.runs && t.runs[id] == s.runs[id]
    requires HolderOf(t, conv) != Other
    ensures Tracked(t, id, conv, p)
  {
  }

  lemma TrackSpawn(s: State, c: Conv, mode: Mode, i: RunId, id: RunId, conv: Conv, p: Plan)
    requires Tracked(s, id, conv, p) && RecordPoints(s) && (c != conv || i == id)
    ensures Tracked(SpawnStep(s, c, mode, i), id, conv, p)
  {
    hide Possible, Rest, Own, Whole;
    TrackConv(s, id, conv, p);
    TrackKept(s, SpawnStep(s, c, mode, i), id, conv, p);
  }

  lemma TrackConv(s: State, id: RunId, conv: Conv, p: Plan)
    requires Tracked(s, id, conv, p)
    ensures s.runs[id].conv == conv
  {
  }

  /** The run a claim or release step is about. */
  function About(e: Event): RunId
    requires e.ServerDecides? || e.ClaimAnswer? || e.ServerReleases? || e.ReleaseAnswer? || e.RunEnds?
  {
    e.run
  }

  /** The claim and release steps of this run, and of the others. */
  lemma TrackClaims(s: State, e: Event, id: RunId, conv: Conv, p: Plan)
    requires Tracked(s, id, conv, p) && Planned(s, e, id, conv, p)
    requires e.ServerDecides? || e.ClaimAnswer? || e.ServerReleases? || e.ReleaseAnswer? || e.RunEnds?
    ensures Tracked(Step(s, e), id, conv, p)
  {
    hide Tracked, Planned, Step;
    if About(e) != id {
      TrackOtherClaims(s, e, id, conv, p);
    } else {
      TrackOwnClaims(s, e, id, conv, p);
    }
  }

  lemma TrackOtherClaims(s: State, e: Event, id: RunId, conv: Conv, p: Plan)
    requires Tracked(s, id, conv, p) && Planned(s, e, id, conv, p)
    requires e.ServerDecides? || e.ClaimAnswer? || e.ServerReleases? || e.ReleaseAnswer? || e.RunEnds?
    requires About(e) != id
    ensures Tracked(Step(s, e), id, conv, p)
  {
    hide Own, Recorded, AsPlanned, Whole, Rest, Possible;
    TrackKept(s, Step(s, e), id, conv, p);
  }

  lemma TrackOwnClaims(s: State, e: Event, id: RunId, conv: Conv, p: Plan)
    requires Tracked(s, id, conv, p) && Planned(s, e, id, conv, p)
    requires e.ServerDecides? || e.ClaimAnswer? || e.ServerReleases? || e.ReleaseAnswer? || e.RunEnds?
    requires About(e) == id
    ensures Tracked(Step(s, e), id, conv, p)
  {
    hide Own, Recorded, AsPlanned, Whole, Rest, Possible;
    Granted(s.runs[id], conv, p);
    OwnClaims(s.runs[id], Step(s, e).runs[id], conv, p);
  }

  lemma Granted(run: Run, conv: Conv, p: Plan)
    requires Possible(run, conv, p)
    ensures run.phase.Answered? ==> run.phase == Answered(true) && run.conv == conv
    ensures run.conv == conv
  {
  }

  /** On the way to the claim and from the release on nothing is done. */
  lemma OwnClaims(run: Run, moved: Run, conv: Conv, p: Plan)
    requires Possible(run, conv, p) && moved == run.(phase := moved.phase)
    requires moved.phase == run.phase
      || (run.phase.Acquiring? && moved.phase == Answered(true)) || (run.phase == Answered(true) && moved.phase.Preparing?)
      || (run.phase == Releasing(false) && moved.phase == Releasing(true))
      || (run.phase.Releasing? && moved.phase.Finished?) || (run.phase.Finished? && moved.phase.Gone?)
    ensures Possible(moved, conv, p) && Rest(moved.phase, p, moved.delivery) == Rest(run.phase, p, run.delivery)
  {
    hide EffectsOf, Whole, AfterGate, Effects, AfterOpening, IsSpam, Last;
  }

  lemma TrackStops(s: State, e: Event, id: RunId, conv: Conv, p: Plan)
    requires Tracked(s, id, conv, p) && Planned(s, e, id, conv, p)
    requires e.StopReleases? || e.ServerReleasesStop? || e.StopAnswer? || e.LeaseMoves?
    ensures Tracked(Step(s, e), id, conv, p)
  {
    hide Possible, Rest, Own, Whole;
    TrackKept(s, Step(s, e), id, conv, p);
  }

  lemma TrackStep(s: State, e: Event, id: RunId, conv: Conv, p: Plan)
    requires Tracked(s, id, conv, p) && RecordInv(s) && Planned(s, e, id, conv, p)
    ensures Tracked(Step(s, e), id, conv, p)
  {
    hide RunsOk, OnlyRecorded, RecordPoints, AsPlanned, SpawnStep, ResumeStep, DecideStep, ClaimAnswerStep,
      ServerReleasesStep, ReleaseAnswerStep, RunEndsStep, Possible, Rest, Own, Whole;
    match e
    case Spawn(c, mode, i) => TrackSpawn(s, c, mode, i, id, conv, p);
    case Resume(r, o) => if r == id { TrackOwnStep(s, o, id, conv, p); } else { TrackOtherStep(s, r, o, id, conv, p); }
    case StopReleases(_, _) => TrackStops(s, e, id, conv, p);
    case ServerReleasesStop(_) => TrackStops(s, e, id, conv, p);
    case StopAnswer(_, _) => TrackStops(s, e, id, conv, p);
    case LeaseMoves(_, _) => TrackStops(s, e, id, conv, p);
    case _ => TrackClaims(s, e, id, conv, p);
  }

  // ----- Whole executions -----

  /** Every event goes as planned for the run, in the state it meets. */
  ghost predicate GoesAsPlanned(start: seq<Event>, events: seq<Event>, id: RunId, conv: Conv, p: Plan) {
    forall k :: 0 <= k < |events| ==> Planned(Exec(start + events[..k]), events[k], id, conv, p)
  }

  lemma PlannedFront(start: seq<Event>, events: seq<Event>, e: Event, id: RunId, conv: Conv, p: Plan)
    ensures GoesAsPlanned(start, events + [e], id, conv, p) <==>
      GoesAsPlanned(start, events, id, conv, p) && Planned(Exec(start + events), e, id, conv, p)
  {
    hide Planned, Exec;
    var more := events + [e];
    assert forall k :: 0 <= k < |events| ==> more[..k] == events[..k] && more[k] == events[k];
    assert more[..|events|] == events && more[|events|] == e;
  }

  lemma ExecStep(start: seq<Event>, events: seq<Event>, e: Event)
    ensures Exec(start + (events + [e])) == Step(Exec(start + events), e)
  {
    hide Step;
    var all := start + (events + [e]);
    assert all[..|all| - 1] == start + events && all[|all| - 1] == e;
  }

  /** The spawn of the run, then events as planned, after any execution at all. */
  lemma {:induction false} TrackedThroughout(prefix: seq<Event>, events: seq<Event>, id: RunId, conv: Conv, p: Plan)
    requires id !in Exec(prefix).runs && HolderOf(Exec(prefix), conv) != Other
    requires GoesAsPlanned(prefix + [Spawn(conv, p.mode, id)], events, id, conv, p)
    ensures Tracked(Exec(prefix + [Spawn(conv, p.mode, id)] + events), id, conv, p)
    decreases |events|
  {
    hide Tracked, RecordInv, LogInv, ClaimInv, Planned, Exec, Step, GoesAsPlanned;
    var start := prefix + [Spawn(conv, p.mode, id)];
    if events == [] {
      assert start + events == start;
      TrackedAtStart(prefix, id, conv, p);
    } else {
      var front, last := events[..|events| - 1], events[|events| - 1];
      assert events == front + [last];
      PlannedFront(start, front, last, id, conv, p);
      TrackedThroughout(prefix, front, id, conv, p);
      EveryExecution(start + front);
      ExecStep(start, front, last);
      TrackStep(Exec(start + front), last, id, conv, p);
    }
  }

  lemma TrackedAtStart(prefix: seq<Event>, id: RunId, conv: Conv, p: Plan)
    requires id !in Exec(prefix).runs && HolderOf(Exec(prefix), conv) != Other
    ensures Tracked(Exec(prefix + [Spawn(conv, p.mode, id)]), id, conv, p)
  {
    hide RecordInv, ClaimInv, Exec, Tracked, SpawnStep;
    EveryExecution(prefix);
    OwnNone(Exec(prefix).log, id);
    TrackStart(Exec(prefix), id, conv, p);
    ExecStep(prefix, [], Spawn(conv, p.mode, id));
    assert [] + [Spawn(conv, p.mode, id)] == [Spawn(conv, p.mode, id)] && prefix + [] == prefix;
  }

  lemma TrackStart(s: State, id: RunId, conv: Conv, p: Plan)
    requires id !in s.runs && HolderOf(s, conv) != Other && Own(s.log, id) == []
    ensures Tracked(SpawnStep(s, conv, p.mode, id), id, conv, p)
  {
    hide Own, Whole;
    NoHead(Whole(p));
  }

  /** However the other runs interleave: what a run has logged is always the
      beginning of what its plan calls for, and all of it once the run has left. */
  lemma RunFollowsPlan(prefix: seq<Event>, events: seq<Event>, id: RunId, conv: Conv, p: Plan)
    requires id !in Exec(prefix).runs && HolderOf(Exec(prefix), conv) != Other
    requires GoesAsPlanned(prefix + [Spawn(conv, p.mode, id)], events, id, conv, p)
    ensures var s := Exec(prefix + [Spawn(conv, p.mode, id)] + events);
      && id in s.runs && Own(s.log, id) <= Whole(p)
      && (Left(s.runs[id].phase) ==> Own(s.log, id) == Whole(p))
  {
    TrackedThroughout(prefix, events, id, conv, p);
    var s := Exec(prefix + [Spawn(conv, p.mode, id)] + events);
    hide Exec;
    NoTail(Own(s.log, id));
    LeftRest(s.runs[id].phase, p, s.runs[id].delivery);
    hide Rest, Whole, Own, Possible;
    assert Own(s.log, id) <= Own(s.log, id) + Rest(s.runs[id].phase, p, s.runs[id].delivery);
  }

  lemma LeftRest(phase: Phase, p: Plan, delivery: Delivery)
    ensures Left(phase) ==> Rest(phase, p, delivery) == []
  {
  }

  // ----- It can always finish -----

  /** The next thing the run waits for, settling as planned. */
  function Awaited(phase: Phase, id: RunId, p: Plan): Event {
    match phase
    case Acquiring => ServerDecides(id)
    case Answered(_) => ClaimAnswer(id, false)
    case Releasing(processed) => if processed then ReleaseAnswer(id, false) else ServerReleases(id)
    case Finished => RunEnds(id)
    case _ => Resume(id, Due(phase, p))
  }

  function Due(phase: Phase, p: Plan): Outcome {
    match phase
    case Fetching => Fetched(p.delivery)
    case Preparing => if p.prepared then Fulfilled else Rejected(Ordinary)
    case Gating => if p.gate.Open? then Fulfilled else Verdict(false, p.gate.notice)
    case Opening(k) => if p.attempts(k).opens then Fulfilled else Rejected(Ordinary)
    case Generating(k) =>
      if p.attempts(k).generated.Some? then Rejected(p.attempts(k).generated.value) else Generated(p.attempts(k).empty, false)
    case Rewriting(k) => Generated(p.attempts(k).empty, false)
    case Auditing(k) =>
      if p.attempts(k).audited.Some? then Rejected(p.attempts(k).audited.value)
      else Audited(p.attempts(k).actions, p.attempts(k).handoverCalled)
    case Posting(k, _) => Settled(p.attempts(k).posted)
    case Parking(k, _) => Settled(p.attempts(k).parked)
    case _ => Fulfilled
  }

  /** A bound on the awaits of the attempts from `k` on. */
  function Bound(p: Plan, k: nat): nat
    decreases 3 - k
  {
    if k >= 3 then 6 else 20 + 2 * |p.attempts(k).actions| + Bound(p, k + 1)
  }

  /** Awaits left before the run is gone, at most. */
  function Remaining(phase: Phase, p: Plan): nat {
    match phase
    case Debouncing => Bound(p, 0) + 15
    case Fetching => Bound(p, 0) + 14
    case Acquiring => Bound(p, 0) + 13
    case Answered(_) => Bound(p, 0) + 12
    case Preparing => Bound(p, 0) + 11
    case Gating => Bound(p, 0) + 10
    case Opening(k) => Bound(p, k)
    case Generating(k) => Bound(p, k + 1) + 19 + 2 * |p.attempts(k).actions|
    case Rewriting(k) => Bound(p, k + 1) + 18 + 2 * |p.attempts(k).actions|
    case Auditing(k) => Bound(p, k + 1) + 17 + 2 * |p.attempts(k).actions|
    case Dispatching(k, rest, _, held) => Bound(p, k + 1) + 12 + |rest| + |held|
    case Posting(k, held) => Bound(p, k + 1) + 11 + |held|
    case Parking(k, _) => Bound(p, k + 1) + 10
    case ClosingTools(next) => (match next case Retry(k) => Bound(p, k + 1) + 9 case _ => 7)
    case BackingOff(k) => Bound(p, k + 1) + 8
    case Settling(held) => 9 + |held|
    case NotePosting => 8
    case FallingBack => 6
    case Releasing(processed) => if processed then 2 else 3
    case Finished => 1
    case _ => 0
  }

  function RemainingIn(s: State, id: RunId, p: Plan): nat {
    if id in s.runs then Remaining(s.runs[id].phase, p) else 0
  }

  lemma {:induction false} OnlyShorter(actions: seq<Action>, keep: Action -> bool)
    ensures |Only(actions, keep)| <= |actions|
  {
    if actions != [] { OnlyShorter(actions[..|actions| - 1], keep); }
  }

  lemma PlanShorter(actions: seq<Action>, mode: Mode, delivery: Delivery, handoverCalled: bool)
    ensures |AtOnce(actions, mode, handoverCalled)| <= |actions| && |AfterSend(actions, delivery)| <= |actions|
  {
    hide Only;
    OnlyShorter(actions, a => !ClosesThread(a) && !Superfluous(a, mode, handoverCalled));
    OnlyShorter(actions, a => ClosesThread(a) && delivery == Send);
  }

  lemma BoundPositive(p: Plan, k: nat)
    ensures Bound(p, k) >= 6
    ensures k < 3 ==> Bound(p, k) == 20 + 2 * |p.attempts(k).actions| + Bound(p, k + 1)
  {
  }

  /** The awaited settling moves the run on, and there is less left after it. */
  ghost predicate MovesOn(run: Run, p: Plan) {
    && Next(run, Due(run.phase, p)).Some? && Remaining(run.phase, p) > 3
    && var next := Next(run, Due(run.phase, p)).value.0;
    next == Leaving || Remaining(next, p) < Remaining(run.phase, p)
  }

  lemma MovesBefore(run: Run, conv: Conv, p: Plan)
    requires Possible(run, conv, p)
    requires run.phase.Debouncing? || run.phase.Fetching? || run.phase.Preparing? || run.phase.Gating?
    ensures MovesOn(run, p)
  {
    BoundPositive(p, 0);
    hide Bound, EffectsOf, Last, IsSpam;
  }

  lemma MovesAttempt(run: Run, conv: Conv, p: Plan)
    requires Possible(run, conv, p)
    requires run.phase.Opening? || run.phase.Generating? || run.phase.Rewriting?
    ensures MovesOn(run, p)
  {
    hide Bound, EffectsOf, Last, IsSpam, AtOnce, AfterSend, Possible;
    AttemptCounts(run, conv, p);
    BoundPositive(p, run.phase.attempt);
    BoundPositive(p, run.phase.attempt + 1);
  }

  lemma MovesAudit(run: Run, conv: Conv, p: Plan)
    requires Possible(run, conv, p) && run.phase.Auditing?
    ensures MovesOn(run, p)
  {
    hide Bound, EffectsOf, Last, IsSpam, AtOnce, AfterSend, Possible;
    BoundPositive(p, run.phase.attempt + 1);
    var a := p.attempts(run.phase.attempt);
    PlanShorter(a.actions, run.mode, run.delivery, a.handoverCalled);
  }

  lemma AttemptCounts(run: Run, conv: Conv, p: Plan)
    requires Possible(run, conv, p)
    ensures run.phase.Opening? || run.phase.Generating? || run.phase.Rewriting? || run.phase.Auditing? ==> run.phase.attempt < 3
    ensures run.phase.Dispatching? || run.phase.Posting? || run.phase.Parking? || run.phase.BackingOff? ==> run.phase.attempt < 3
    ensures !run.aborted
  {
  }

  lemma MovesReply(run: Run, conv: Conv, p: Plan)
    requires Possible(run, conv, p)
    requires run.phase.Dispatching? || run.phase.Posting? || run.phase.Parking? || run.phase.Settling?
    ensures MovesOn(run, p)
  {
    hide Bound, EffectsOf, Last, IsSpam, Possible;
    AttemptCounts(run, conv, p);
    if !run.phase.Settling? { BoundPositive(p, run.phase.attempt + 1); }
  }

  lemma MovesAfter(run: Run, conv: Conv, p: Plan)
    requires Possible(run, conv, p)
    requires run.phase.NotePosting? || run.phase.ClosingTools? || run.phase.BackingOff? || run.phase.FallingBack?
    ensures MovesOn(run, p)
  {
    hide Bound, EffectsOf, Last, IsSpam, Possible;
    AttemptCounts(run, conv, p);
    if run.phase.BackingOff? { BoundPositive(p, run.phase.attempt + 1); }
    if run.phase.ClosingTools? && run.phase.after.Retry? { BoundPositive(p, run.phase.after.attempt + 1); }
  }

  lemma NextShorter(run: Run, conv: Conv, p: Plan)
    requires Possible(run, conv, p) && Awaited(run.phase, 0, p).Resume? && run.phase != Leaving && !run.phase.Gone?
    ensures MovesOn(run, p)
  {
    hide Possible, MovesOn, Due;
    var phase := run.phase;
    if phase.Debouncing? || phase.Fetching? || phase.Preparing? || phase.Gating? {
      MovesBefore(run, conv, p);
    } else if phase.Opening? || phase.Generating? || phase.Rewriting? {
      MovesAttempt(run, conv, p);
    } else if phase.Auditing? {
      MovesAudit(run, conv, p);
    } else if phase.Dispatching? || phase.Posting? || phase.Parking? || phase.Settling? {
      MovesReply(run, conv, p);
    } else {
      MovesAfter(run, conv, p);
    }
  }

  lemma DuePlanned(phase: Phase, p: Plan)
    ensures AsPlanned(phase, Due(phase, p), p)
  {
  }

  lemma LandedShorter(s: State, moved: Run, p: Plan)
    ensures moved.phase != Leaving ==> Landed(s, moved) == moved
    ensures moved.phase == Leaving ==> Remaining(Landed(s, moved).phase, p) <= 3
  {
    hide Bound;
  }

  lemma ResumeShorter(s: State, id: RunId, conv: Conv, p: Plan)
    requires Tracked(s, id, conv, p) && !s.runs[id].phase.Gone? && s.runs[id].phase != Leaving
    requires Awaited(s.runs[id].phase, id, p).Resume?
    ensures var e := Awaited(s.runs[id].phase, id, p);
      Planned(s, e, id, conv, p) && id in Step(s, e).runs
      && Remaining(Step(s, e).runs[id].phase, p) < Remaining(s.runs[id].phase, p)
  {
    hide Next, Possible, Own, Rest, Whole, Recorded, Remaining, Landed, AsPlanned, Due;
    var run := s.runs[id];
    var o := Due(run.phase, p);
    DuePlanned(run.phase, p);
    assert Awaited(run.phase, id, p) == Resume(id, o) && Awaited(run.phase, 0, p).Resume?;
    hide Awaited;
    NextShorter(run, conv, p);
    var moved := Moved(run, o, Next(run, o).value);
    LandedShorter(s, moved, p);
    assert Step(s, Resume(id, o)).runs[id] == Landed(s, moved);
  }

  /** The awaited claim or release step, and the phase after it. */
  lemma ClaimsMove(s: State, id: RunId, conv: Conv, p: Plan)
    requires id in s.runs && (s.runs[id].phase.Answered? ==> s.runs[id].phase.acquired)
    requires !Awaited(s.runs[id].phase, id, p).Resume?
    ensures var e := Awaited(s.runs[id].phase, id, p);
      Planned(s, e, id, conv, p) && id in Step(s, e).runs && ClaimsFollow(s.runs[id].phase, Step(s, e).runs[id].phase)
  {
    hide HolderOf, Recorded, Unclaimed, Due;
  }

  predicate ClaimsFollow(before: Phase, after: Phase) {
    match before
    case Acquiring => after.Answered?
    case Answered(_) => after.Preparing?
    case Releasing(processed) => if processed then after.Finished? else after == Releasing(true)
    case Finished => after.Gone?
    case _ => false
  }

  lemma ClaimsCount(before: Phase, after: Phase, p: Plan)
    requires ClaimsFollow(before, after)
    ensures Remaining(after, p) < Remaining(before, p)
  {
    hide Bound;
  }

  lemma ClaimsShorter(s: State, id: RunId, conv: Conv, p: Plan)
    requires Tracked(s, id, conv, p) && !s.runs[id].phase.Gone? && s.runs[id].phase != Leaving
    requires !Awaited(s.runs[id].phase, id, p).Resume?
    ensures var e := Awaited(s.runs[id].phase, id, p);
      Planned(s, e, id, conv, p) && id in Step(s, e).runs
      && Remaining(Step(s, e).runs[id].phase, p) < Remaining(s.runs[id].phase, p)
  {
    hide Own, Rest, Whole, HolderOf, Possible, Step, Remaining, Awaited, Planned, ClaimsFollow;
    Granted(s.runs[id], conv, p);
    ClaimsMove(s, id, conv, p);
    ClaimsCount(s.runs[id].phase, Step(s, Awaited(s.runs[id].phase, id, p)).runs[id].phase, p);
  }

  lemma AwaitedHappens(s: State, id: RunId, conv: Conv, p: Plan)
    requires Tracked(s, id, conv, p) && !s.runs[id].phase.Gone? && s.runs[id].phase != Leaving
    ensures var e := Awaited(s.runs[id].phase, id, p);
      Planned(s, e, id, conv, p) && id in Step(s, e).runs
      && Remaining(Step(s, e).runs[id].phase, p) < Remaining(s.runs[id].phase, p)
  {
    hide Possible, Own, Rest, Whole, HolderOf, Planned, Step, Remaining, Awaited;
    if Awaited(s.runs[id].phase, id, p).Resume? {
      ResumeShorter(s, id, conv, p);
    } else {
      ClaimsShorter(s, id, conv, p);
    }
  }

  lemma NeverLeaving(events: seq<Event>, id: RunId)
    ensures id in Exec(events).runs ==> Exec(events).runs[id].phase != Leaving
  {
    EveryExecution(events);
  }

  /** Events as planned can always carry the run to its end. */
  lemma {:induction false} CanFinish(prefix: seq<Event>, events: seq<Event>, id: RunId, conv: Conv, p: Plan) returns (more: seq<Event>)
    requires id !in Exec(prefix).runs && HolderOf(Exec(prefix), conv) != Other
    requires GoesAsPlanned(prefix + [Spawn(conv, p.mode, id)], events, id, conv, p)
    ensures GoesAsPlanned(prefix + [Spawn(conv, p.mode, id)], events + more, id, conv, p)
    ensures var s := Exec(prefix + [Spawn(conv, p.mode, id)] + (events + more));
      id in s.runs && s.runs[id].phase.Gone? && Own(s.log, id) == Whole(p)
    decreases RemainingIn(Exec(prefix + [Spawn(conv, p.mode, id)] + events), id, p)
  {
    hide Planned, GoesAsPlanned, Possible, Own, Rest, Whole, Awaited, Remaining, Exec, Step;
    var start := prefix + [Spawn(conv, p.mode, id)];
    TrackedThroughout(prefix, events, id, conv, p);
    var s := Exec(start + events);
    if s.runs[id].phase.Gone? {
      more := [];
      assert events + more == events;
      RunFollowsPlan(prefix, events, id, conv, p);
    } else {
      NeverLeaving(start + events, id);
      AwaitedHappens(s, id, conv, p);
      var e := Awaited(s.runs[id].phase, id, p);
      ExecStep(start, events, e);
      PlannedFront(start, events, e, id, conv, p);
      var rest := CanFinish(prefix, events + [e], id, conv, p);
      more := [e] + rest;
      assert events + [e] + rest == events + more;
    }
  }
}
