/**
 * One run of the conversation handler, from await to await: what a run does next
 * when the promise it waits for settles.
 */
module ConversationRun {
  import opened Options

  type Conv = string

  datatype Mode = Reply | Greet | DraftRequest
  datatype Delivery = Send | Draft

  /** What an audit verdict may ask for; a topic is set only if its slug is known. */
  datatype Action = RequestHandover | CloseThread | SnoozeThread | MarkSpam | SetTopic(known: bool)

  /** Why a promise was rejected, as far as the run tells rejections apart. */
  datatype Trouble = Ordinary | TerminalSkip | SendNotAuto | FastFail | ContextLength

  /** Where a run goes once the tool connection of an attempt is closed. */
  datatype Then = Leave | Retry(attempt: nat) | GiveUp

  /** The await a run stands at. */
  datatype Phase =
    | Debouncing
    | Fetching
    | Acquiring                                    // claim requested, not yet decided by the server
    | Answered(acquired: bool)                     // decided, answer on its way
    | Preparing
    | Gating
    | Opening(attempt: nat)
    | Generating(attempt: nat)
    | Rewriting(attempt: nat)
    | Auditing(attempt: nat)
    | Dispatching(attempt: nat, rest: seq<Action>, spam: bool, held: seq<Action>)
    | Parking(attempt: nat, guarded: bool)
    | Posting(attempt: nat, held: seq<Action>)
    | Settling(held: seq<Action>)
    | NotePosting
    | ClosingTools(after: Then)
    | BackingOff(attempt: nat)
    | FallingBack
    | Leaving                                      // reaches the final release without waiting
    | Releasing(processed: bool)
    | Finished
    | Gone

  datatype Run = Run(conv: Conv, mode: Mode, delivery: Delivery, aborted: bool, phase: Phase, posted: bool, marked: bool)

  /** How the awaited promise settled, with everything the environment decides. */
  datatype Outcome =
    | Fulfilled
    | Rejected(trouble: Trouble)
    | Fetched(delivery: Option<Delivery>)
    | Verdict(allowed: bool, notice: bool)
    | Generated(empty: bool, rewrite: bool)
    | Audited(actions: seq<Action>, handoverCalled: bool)

  /** What others can observe of a run. */
  datatype Effect = NoEffect | PostSent | PostOk | Dispatched(action: Action) | DraftParked | FellBack

  const MAX_RETRIES := 3

  // ----- The audit verdict -----

  predicate ClosesThread(a: Action) {
    a.CloseThread? || a.SnoozeThread?
  }

  /** The agent, or the human who asked for a draft, has already taken this over. */
  predicate Superfluous(a: Action, mode: Mode, handoverCalled: bool) {
    a.RequestHandover? && (handoverCalled || mode == DraftRequest)
  }

  /** The actions that satisfy a condition, in order. */
  function Only(actions: seq<Action>, keep: Action -> bool): (r: seq<Action>)
    ensures forall a :: a in r <==> a in actions && keep(a)
  {
    if actions == [] then []
    else
      var front, last := actions[..|actions| - 1], actions[|actions| - 1];
      assert actions == front + [last];
      Only(front, keep) + if keep(last) then [last] else []
  }

  /** Actions that go out before the reply. */
  function AtOnce(actions: seq<Action>, mode: Mode, handoverCalled: bool): seq<Action> {
    Only(actions, a => !ClosesThread(a) && !Superfluous(a, mode, handoverCalled))
  }

  /** Actions that wait for the reply to be sent. */
  function AfterSend(actions: seq<Action>, delivery: Delivery): seq<Action> {
    Only(actions, a => ClosesThread(a) && delivery == Send)
  }

  lemma OnlyStep(actions: seq<Action>, a: Action, keep: Action -> bool)
    ensures Only(actions + [a], keep) == Only(actions, keep) + if keep(a) then [a] else []
  {
    assert (actions + [a])[..|actions|] == actions;
  }

  lemma SplitStep(actions: seq<Action>, a: Action, delivery: Delivery, mode: Mode, handoverCalled: bool)
    ensures AtOnce(actions + [a], mode, handoverCalled) ==
      AtOnce(actions, mode, handoverCalled) + if ClosesThread(a) || Superfluous(a, mode, handoverCalled) then [] else [a]
    ensures AfterSend(actions + [a], delivery) ==
      AfterSend(actions, delivery) + if ClosesThread(a) && delivery == Send then [a] else []
  {
    hide Only;
    OnlyStep(actions, a, x => !ClosesThread(x) && !Superfluous(x, mode, handoverCalled));
    OnlyStep(actions, a, x => ClosesThread(x) && delivery == Send);
  }

  /** Two conditions that share a third between them share its actions. */
  lemma {:induction false} OnlyShared(actions: seq<Action>, left: Action -> bool, right: Action -> bool, both: Action -> bool)
    requires forall a :: both(a) <==> left(a) || right(a)
    requires forall a :: !(left(a) && right(a))
    ensures multiset(Only(actions, left)) + multiset(Only(actions, right)) == multiset(Only(actions, both))
  {
    if actions != [] {
      OnlyShared(actions[..|actions| - 1], left, right, both);
    }
  }

  /** Nothing that goes out at once closes the thread, everything held back does;
      spam is marked exactly when the verdict asks for it; and a verdict on a reply
      that will be sent loses nothing but superfluous handovers. */
  lemma VerdictSplit(actions: seq<Action>, delivery: Delivery, mode: Mode, handoverCalled: bool)
    ensures var now, later := AtOnce(actions, mode, handoverCalled), AfterSend(actions, delivery);
      && (forall a :: a in now ==> a in actions && a != CloseThread && a != SnoozeThread)
      && (forall a :: a in later ==> (a == CloseThread || a == SnoozeThread) && delivery == Send)
      && (MarkSpam in now <==> MarkSpam in actions)
      && (forall known :: SetTopic(known) in now <==> SetTopic(known) in actions)
      && (RequestHandover in now <==> RequestHandover in actions && !handoverCalled && mode != DraftRequest)
      && (forall a :: a == CloseThread || a == SnoozeThread ==> (a in later <==> a in actions && delivery == Send))
      && (delivery == Send ==>
            multiset(now) + multiset(later) == multiset(Only(actions, a => !Superfluous(a, mode, handoverCalled))))
  {
    hide Only;
    if delivery == Send {
      OnlyShared(actions,
        a => !ClosesThread(a) && !Superfluous(a, mode, handoverCalled),
        a => ClosesThread(a) && delivery == Send,
        a => !Superfluous(a, mode, handoverCalled));
    }
  }

  /** Both filters over a verdict in one pass: superfluous handovers are dropped,
      closing actions set aside, the rest goes out at once. */
  method SplitVerdict(actions: seq<Action>, delivery: Delivery, mode: Mode, handoverCalled: bool)
      returns (dispatched: seq<Action>, held: seq<Action>)
    ensures dispatched == AtOnce(actions, mode, handoverCalled) && held == AfterSend(actions, delivery)
  {
    dispatched, held := [], [];
    for i := 0 to |actions|
      invariant dispatched == AtOnce(actions[..i], mode, handoverCalled) && held == AfterSend(actions[..i], delivery)
    {
      hide Only, AtOnce, AfterSend;
      var action := actions[i];
      assert actions[..i + 1] == actions[..i] + [action];
      SplitStep(actions[..i], action, delivery, mode, handoverCalled);
      if action.RequestHandover? && handoverCalled { continue; }
      if mode == DraftRequest && action.RequestHandover? { continue; }
      if !ClosesThread(action) {
        dispatched := dispatched + [action];
      } else if delivery == Send {
        held := held + [action];
      }
    }
    assert actions[..|actions|] == actions;
  }

  function EffectOf(a: Action): Effect {
    if a == SetTopic(false) then NoEffect else Dispatched(a)
  }

  // ----- Straight-line pieces of the run -----

  /** A greeting, handover or note in place of a reply; only the greeting minds an abort. */
  function FallBack(run: Run): (Phase, Effect) {
    if run.mode == Greet && run.aborted then (Leaving, NoEffect) else (FallingBack, FellBack)
  }

  /** The head of the retry loop. */
  function LoopHead(run: Run, attempt: nat): (Phase, Effect) {
    if attempt >= MAX_RETRIES then FallBack(run)
    else if run.aborted then (Leaving, NoEffect)
    else (Opening(attempt), NoEffect)
  }

  /** The catch block of an attempt; its finally block closes the tools. */
  function Catch(run: Run, attempt: nat, trouble: Trouble): Phase {
    if run.aborted || trouble == TerminalSkip then ClosingTools(Leave)
    else if trouble == FastFail || trouble == ContextLength then ClosingTools(GiveUp)
    else ClosingTools(Retry(attempt))
  }

  function AfterAudit(run: Run, attempt: nat, spam: bool, held: seq<Action>): (Phase, Effect) {
    if spam then (Parking(attempt, true), DraftParked)
    else if run.delivery == Draft then (Parking(attempt, false), DraftParked)
    else (Posting(attempt, held), PostSent)
  }

  function WithReply(run: Run, attempt: nat, empty: bool): (Phase, Effect) {
    if empty then (ClosingTools(Retry(attempt)), NoEffect)
    else if run.mode == Greet then AfterAudit(run, attempt, false, [])
    else (Auditing(attempt), NoEffect)
  }

  function AfterClose(run: Run, next: Then): (Phase, Effect) {
    match next
    case Leave => (Leaving, NoEffect)
    case GiveUp => FallBack(run)
    case Retry(attempt) =>
      if attempt + 1 < MAX_RETRIES then (BackingOff(attempt), NoEffect) else LoopHead(run, attempt + 1)
  }

  /**
   * The next await of a run, and what it does on the way there. Nothing happens
   * (`None`) when the outcome does not belong to the await. The claim and the
   * run's end involve shared state and are not decided here.
   */
  function Next(run: Run, o: Outcome): Option<(Phase, Effect)> {
    match run.phase
    case Debouncing =>
      if o.Fulfilled? then Some((if run.aborted then Finished else Fetching, NoEffect))
      else if o.Rejected? then Some((Finished, NoEffect)) else None
    case Fetching =>
      if o.Fetched? then Some((if o.delivery.None? || run.aborted then Finished else Acquiring, NoEffect))
      else if o.Rejected? then Some((Finished, NoEffect)) else None
    case Preparing =>
      if o.Fulfilled? then Some((Gating, NoEffect))
      else if o.Rejected? then Some((Leaving, NoEffect)) else None
    case Gating =>
      if o.Fulfilled? then Some(LoopHead(run, 0))
      else if o.Verdict? then
        Some(if o.allowed then LoopHead(run, 0) else if o.notice then FallBack(run) else (Leaving, NoEffect))
      else None
    case Opening(attempt) =>
      if o.Fulfilled? then Some((Generating(attempt), NoEffect))
      else if o.Rejected? then Some((Leaving, NoEffect)) else None
    case Generating(attempt) =>
      if o.Generated? then
        if run.aborted then Some((ClosingTools(Leave), NoEffect))
        else if run.mode == DraftRequest && o.rewrite && !o.empty then Some((Rewriting(attempt), NoEffect))
        else Some(WithReply(run, attempt, o.empty))
      else if o.Rejected? then Some((Catch(run, attempt, o.trouble), NoEffect)) else None
    case Rewriting(attempt) =>
      if o.Generated? then
        if run.aborted then Some((ClosingTools(Leave), NoEffect)) else Some(WithReply(run, attempt, o.empty))
      else None
    case Auditing(attempt) =>
      if o.Audited? then
        var now := AtOnce(o.actions, run.mode, o.handoverCalled);
        Some((Dispatching(attempt, now, MarkSpam in now, AfterSend(o.actions, run.delivery)), NoEffect))
      else if o.Rejected? then Some((Catch(run, attempt, o.trouble), NoEffect)) else None
    case Dispatching(attempt, rest, spam, held) =>
      if rest != [] then Some((Dispatching(attempt, rest[1..], spam, held), EffectOf(rest[0])))
      else if run.aborted then Some((ClosingTools(Leave), NoEffect))
      else Some(AfterAudit(run, attempt, spam, held))
    case Parking(attempt, guarded) =>
      if o.Fulfilled? || (o.Rejected? && guarded) then Some((ClosingTools(Leave), NoEffect))
      else if o.Rejected? then Some((Catch(run, attempt, o.trouble), NoEffect)) else None
    case Posting(attempt, held) =>
      if o.Fulfilled? then Some((Settling(held), PostOk))
      else if o.Rejected? then
        Some(if o.trouble == SendNotAuto then (Parking(attempt, false), DraftParked)
             else (Catch(run, attempt, o.trouble), NoEffect))
      else None
    case Settling(held) =>
      if held == [] then Some((NotePosting, NoEffect)) else Some((Settling(held[1..]), EffectOf(held[0])))
    case NotePosting => Some((ClosingTools(Leave), NoEffect))
    case ClosingTools(next) => Some(AfterClose(run, next))
    case BackingOff(attempt) =>
      if o.Fulfilled? then Some(LoopHead(run, attempt + 1))
      else if o.Rejected? then Some((Leaving, NoEffect)) else None
    case FallingBack => Some((Leaving, NoEffect))
    case _ => None
  }

  // ----- What a run keeps -----

  /** The run has its claim and has not come to its final release. */
  predicate Holding(p: Phase) {
    || p.Preparing? || p.Gating? || p.Opening? || p.Generating? || p.Rewriting? || p.Auditing? || p.Dispatching?
    || p.Parking? || p.Posting? || p.Settling? || p.NotePosting? || p.ClosingTools? || p.BackingOff? || p.FallingBack?
  }

  /** Phases a run can be in once its reply is out. */
  predicate AfterPost(p: Phase) {
    p.Settling? || p.NotePosting? || p == ClosingTools(Leave) || p.Leaving? || p.Releasing? || p.Finished? || p.Gone?
  }

  /** Phases a run can be in once it has marked its conversation as spam. */
  predicate AfterMark(p: Phase) {
    || (p.Dispatching? && p.spam) || (p.Parking? && p.guarded) || p == ClosingTools(Leave)
    || p.Leaving? || p.Releasing? || p.Finished? || p.Gone?
  }

  predicate AllClose(actions: seq<Action>) {
    forall a :: a in actions ==> ClosesThread(a)
  }

  /** What waits for the reply only closes; what goes out before it never does, and
      marks spam only when the verdict says so. */
  predicate PlanOk(p: Phase) {
    && (p.Dispatching? ==> forall a :: a in p.rest ==> !ClosesThread(a) && (a.MarkSpam? ==> p.spam))
    && (p.Dispatching? ==> AllClose(p.held))
    && (p.Posting? ==> AllClose(p.held))
    && (p.Settling? ==> AllClose(p.held))
  }

  predicate RunOk(run: Run) {
    && (run.posted ==> AfterPost(run.phase))
    && (run.marked ==> AfterMark(run.phase) && !run.posted)
    && (run.phase.Settling? || run.phase.NotePosting? ==> run.posted)
    && (run.phase.Posting? ==> run.delivery == Send)
    && PlanOk(run.phase)
  }

  function Delivered(run: Run, o: Outcome): Delivery {
    if run.phase.Fetching? && o.Fetched? && o.delivery.Some? then o.delivery.value else run.delivery
  }

  function Moved(run: Run, o: Outcome, next: (Phase, Effect)): Run {
    run.(phase := next.0, posted := run.posted || next.1.PostOk?, marked := run.marked || next.1 == Dispatched(MarkSpam),
         delivery := Delivered(run, o))
  }

  /**
   * Every step of a run: a reply is sent only by an unaborted run that has not
   * posted yet, has not marked spam and may send; success is recorded once;
   * threads are closed or snoozed only after it, spam is marked only without it;
   * and a run keeps its claim until it leaves.
   */
  lemma StepOk(run: Run, o: Outcome)
    requires RunOk(run) && Next(run, o).Some?
    ensures var next := Next(run, o).value;
      && !run.phase.Answered? && !run.phase.Releasing? && !run.phase.Gone?
      && RunOk(Moved(run, o, next))
      && (next.1.PostSent? ==> !run.aborted && !run.posted && !run.marked && run.delivery == Send && next.0.Posting?)
      && (next.1.PostOk? ==> !run.posted && !run.marked && run.phase.Posting?)
      && (next.1.Dispatched? && ClosesThread(next.1.action) ==> run.posted)
      && (next.1 == Dispatched(MarkSpam) ==> !run.posted)
      && (Holding(run.phase) ==> Holding(next.0) || next.0.Leaving?)
      && (!Holding(run.phase) ==> next.0.Finished? || next.0.Fetching? || next.0.Acquiring?)
  {
    hide Only, AtOnce, AfterSend, AllClose, PlanOk;
    StepPlanOk(run, o);
  }

  /** The plan of a run stays sound, and its effects follow the plan. */
  lemma StepPlanOk(run: Run, o: Outcome)
    requires PlanOk(run.phase) && Next(run, o).Some?
    ensures var next := Next(run, o).value;
      && PlanOk(next.0)
      && (next.1.Dispatched? && ClosesThread(next.1.action) ==> run.phase.Settling?)
      && (next.1 == Dispatched(MarkSpam) ==> run.phase.Dispatching? && run.phase.spam)
  {
    hide Only, AtOnce, AfterSend;
    if run.phase.Dispatching? && run.phase.rest != [] {
      assert run.phase.rest[0] in run.phase.rest;
    } else if run.phase.Settling? && run.phase.held != [] {
      assert run.phase.held[0] in run.phase.held;
    } else if run.phase.Auditing? && o.Audited? {
      VerdictSplit(o.actions, run.delivery, run.mode, o.handoverCalled);
    }
  }

  /** Exactly when a step sends the reply: an unaborted run that may send ends the
      dispatch of a verdict without spam, or has a greeting to send. */
  lemma PostSentIff(run: Run, o: Outcome)
    requires Next(run, o).Some?
    ensures Next(run, o).value.1.PostSent? <==>
      && !run.aborted && run.delivery == Send
      && ((run.phase.Dispatching? && run.phase.rest == [] && !run.phase.spam)
          || ((run.phase.Generating? || run.phase.Rewriting?) && run.mode == Greet && o.Generated? && !o.empty))
  {
  }

  /** Exactly when a step learns that the reply is out, and what waits for it. */
  lemma PostOkIff(run: Run, o: Outcome)
    requires Next(run, o).Some?
    ensures Next(run, o).value.1.PostOk? <==> run.phase.Posting? && o.Fulfilled?
    ensures Next(run, o).value.1.PostOk? ==> Next(run, o).value.0 == Settling(run.phase.held)
  {
  }

  /** The end of an audit: the verdict's actions are lined up, in order. */
  lemma AuditPlans(run: Run, o: Outcome)
    requires run.phase.Auditing? && o.Audited?
    ensures Next(run, o).Some?
    ensures var next := Next(run, o).value.0;
      && next.Dispatching? && next.rest == AtOnce(o.actions, run.mode, o.handoverCalled)
      && (next.spam <==> MarkSpam in o.actions) && next.held == AfterSend(o.actions, run.delivery)
  {
  }

  /** Exactly when a step falls back: a greeting run that is not aborted, or any other
      run, is denied with a notice, gives up, or has used its third attempt. */
  lemma FellBackIff(run: Run, o: Outcome)
    requires Next(run, o).Some?
    ensures Next(run, o).value.1.FellBack? <==>
      && (run.mode != Greet || !run.aborted)
      && ((run.phase.Gating? && o.Verdict? && !o.allowed && o.notice)
          || run.phase == ClosingTools(GiveUp)
          || (run.phase.ClosingTools? && run.phase.after.Retry? && run.phase.after.attempt >= 2)
          || (run.phase.BackingOff? && o.Fulfilled? && run.phase.attempt >= 2))
  {
  }

  /** Exactly when a step parks the reply as a draft. */
  lemma DraftParkedIff(run: Run, o: Outcome)
    requires Next(run, o).Some?
    ensures Next(run, o).value.1.DraftParked? <==>
      || (run.phase.Posting? && o == Rejected(SendNotAuto))
      || (!run.aborted && run.phase.Dispatching? && run.phase.rest == [] && (run.phase.spam || run.delivery == Draft))
      || (!run.aborted && (run.phase.Generating? || run.phase.Rewriting?) && run.mode == Greet && o.Generated? && !o.empty
          && run.delivery == Draft)
  {
  }

  /** Every action but a topic nobody knows reaches the log. */
  lemma EffectOfAction(a: Action)
    ensures EffectOf(a) == match a
      case SetTopic(known) => if known then Dispatched(SetTopic(true)) else NoEffect
      case _ => Dispatched(a)
  {
  }

  /** An aborted run starts nothing new: no attempt, no reply, no audit, no draft but
      one that a refused post turns into. */
  lemma AbortedStartsNothing(run: Run, o: Outcome)
    requires run.aborted && Next(run, o).Some?
    ensures var next := Next(run, o).value.0;
      && !next.Fetching? && !next.Acquiring? && !next.Opening? && !next.Auditing? && !next.Posting?
      && (next.Generating? ==> run.phase.Opening?)
      && (next.Dispatching? ==> run.phase.Auditing? || run.phase.Dispatching?)
      && (next.Parking? ==> run.phase.Posting?)
  {
  }

  /** A rejection before the claim ends the run at once; one outside the attempts'
      own troubles makes it leave. */
  lemma RejectedEnds(run: Run, trouble: Trouble)
    ensures run.phase.Debouncing? || run.phase.Fetching? ==> Next(run, Rejected(trouble)) == Some((Finished, NoEffect))
    ensures run.phase.Preparing? || run.phase.Opening? || run.phase.BackingOff? ==>
      Next(run, Rejected(trouble)) == Some((Leaving, NoEffect))
  {
  }

  /** Between attempts the run backs off, and then makes the next one. */
  lemma RetriesBackOff(run: Run, o: Outcome, k: nat)
    requires k < 2
    ensures run.phase == ClosingTools(Retry(k)) ==> Next(run, o) == Some((BackingOff(k), NoEffect))
    ensures run.phase == BackingOff(k) && !run.aborted ==> Next(run, Fulfilled) == Some((Opening(k + 1), NoEffect))
  {
  }
}
