/**
 The conversation step executor (`src/extension/executor.ts`) as a state machine: every
 call and callback is one step. Callbacks handed out earlier (`onSent`, abort listeners,
 timers, validations) may come at any later time, or never.
 */
module StepExecutor {
  import opened Options

  type StepId = nat
  type SubmitId = nat

  /** The three retry budgets. */
  datatype Limits = Limits(nudges: int, provider: int, activation: int)

  /** The pending step; `timer` is the generation its activation timer was armed for, `resumes` counts user resumes. */
  datatype Pending = Pending(id: StepId, node: string, attempt: string, nudges: nat, provider: nat, activation: nat,
                             generation: nat, delivered: bool, timer: Option<nat>, seen: bool, resumes: nat)

  datatype Settlement = Resolved(submit: SubmitId) | Rejected

  /** `Awaiting` is a submit whose validation is still running; `Failed` one that threw. */
  datatype SubmitState = Awaiting | Accepted | Refused | Failed

  datatype Submit = Submit(step: Option<StepId>, state: SubmitState)

  /** `settled` holds what each step's promise received; `orphaned` the steps whose slot cleared without settling it. */
  datatype Exec = Exec(pending: Option<Pending>, streaming: bool, held: bool, needsPrompt: bool, nextStep: StepId,
                       settled: map<StepId, seq<Settlement>>, submits: map<SubmitId, Submit>, orphaned: set<StepId>)

  /** How one delivery goes: hooks and `sendPrompt` may throw, and `onSent` may be called before it returns. */
  datatype Send = Send(hookThrows: bool, throws: bool, sentNow: Option<bool>)

  datatype TurnOutcome = SemanticSettle | UserAbort | ProviderRetryable | ProviderTerminal | ContextOverflow

  datatype Verdict = Valid | Invalid | ValidationThrows

  datatype Action =
    | SetStreaming(on: bool)
    | Hold(interrupted: bool)
    | Release(send: Send)
    | Run(node: string, attempt: string, aborted: bool, send: Send)
    | OnSent(step: StepId, generation: nat, active: bool)
    | TimerFires(send: Send)
    | AgentSettled(outcome: TurnOutcome, send: Send)
    | Abort(step: StepId)
    | SubmitCall(submit: SubmitId, node: string, attempt: string)
    | SubmitVerdict(submit: SubmitId, verdict: Verdict, rangeThrows: bool)

  function Settled(s: Exec, id: StepId): seq<Settlement> {
    if id in s.settled then s.settled[id] else []
  }

  function Settle(s: Exec, id: StepId, how: Settlement): Exec {
    s.(settled := s.settled[id := Settled(s, id) + [how]])
  }

  /** `clearPending` followed by `reject`. */
  function Fail(s: Exec): Exec
    requires s.pending.Some?
  {
    Settle(s.(pending := None), s.pending.value.id, Rejected)
  }

  function Put(s: Exec, p: Pending): Exec {
    s.(pending := Some(p))
  }

  /** `handlePromptSent`: only the current, not yet delivered generation of the pending step counts. */
  function AfterSent(s: Exec, id: StepId, generation: nat, active: bool): Exec {
    if s.pending.None? then s
    else
      var p := s.pending.value;
      if p.id != id || p.generation != generation || p.delivered then s
      else if s.held then Put(s, p.(delivered := true))
      else if active || s.streaming then Put(s, p.(delivered := true, seen := true))
      else Put(s, p.(delivered := true, timer := Some(generation)))
  }

  /** `deliverPrompt` up to the return of `sendPrompt`. */
  function Delivering(s: Exec, send: Send): Exec
    requires s.pending.Some?
  {
    var p := s.pending.value;
    var g := p.generation + 1;
    var s' := Put(s, p.(generation := g, delivered := false, seen := false, timer := None));
    if send.sentNow.Some? then AfterSent(s', p.id, g, send.sentNow.value) else s'
  }

  /** A re-delivery with its hook; any throw fails the step. */
  function Redeliver(s: Exec, send: Send): Exec
    requires s.pending.Some?
  {
    if send.hookThrows then Fail(s)
    else if send.throws then Fail(Delivering(s, send))
    else Delivering(s, send)
  }

  /** Another delivery for `p`, or the end of the step when its budget is spent. */
  function Retry(s: Exec, spent: bool, p: Pending, send: Send): Exec
    requires s.pending.Some?
  {
    if spent then Fail(s) else Redeliver(Put(s, p), send)
  }

  function AfterStreaming(s: Exec, on: bool): Exec {
    var s' := s.(streaming := on);
    if on && s.pending.Some? && s.pending.value.delivered then
      Put(s', s.pending.value.(seen := true, timer := None))
    else s'
  }

  function AfterHold(s: Exec, interrupted: bool): Exec {
    var s' := s.(held := true, needsPrompt := s.needsPrompt || interrupted);
    if s.pending.Some? then Put(s', s.pending.value.(timer := None)) else s'
  }

  function AfterRelease(s: Exec, send: Send): Exec {
    if !s.held then s
    else
      var s' := s.(held := false, needsPrompt := false);
      if s.pending.None? then s'
      else
        var p := s.pending.value;
        if s.needsPrompt then Redeliver(Put(s', p.(resumes := p.resumes + 1)), send)
        else if !p.seen && p.delivered then Put(s', p.(timer := Some(p.generation)))
        else s'
  }

  /** `runAgentStep`: the second call is refused while a step is pending; a throwing hook leaves nothing installed. */
  function AfterRun(s: Exec, node: string, attempt: string, aborted: bool, send: Send): Exec {
    var id := s.nextStep;
    var s' := s.(nextStep := id + 1);
    if s.pending.Some? || send.hookThrows then Settle(s', id, Rejected)
    else
      var installed := Put(s', Pending(id, node, attempt, 0, 0, 0, 0, false, None, false, 0));
      if aborted then Fail(installed)
      else if send.throws then Fail(Delivering(installed, send))
      else Delivering(installed, send)
  }

  function AfterTimer(s: Exec, send: Send, limits: Limits): Exec
    requires s.pending.Some? && s.pending.value.timer.Some?
  {
    var p := s.pending.value;
    var generation := p.timer.value;
    var fired := Put(s, p.(timer := None));
    if s.held || p.generation != generation || p.seen || !p.delivered then fired
    else Retry(fired, limits.activation <= p.activation, p.(timer := None, activation := p.activation + 1), send)
  }

  function Nudged(s: Exec, send: Send, limits: Limits): Exec
    requires s.pending.Some?
  {
    var p := s.pending.value;
    Retry(s, limits.nudges <= p.nudges, p.(nudges := p.nudges + 1), send)
  }

  function RetriedProvider(s: Exec, send: Send, limits: Limits): Exec
    requires s.pending.Some?
  {
    var p := s.pending.value;
    Retry(s, limits.provider <= p.provider, p.(provider := p.provider + 1), send)
  }

  function AfterSettled(s: Exec, outcome: TurnOutcome, send: Send, limits: Limits): Exec {
    if s.pending.None? || !s.pending.value.seen then s
    else if s.held then (if outcome.UserAbort? then s else s.(needsPrompt := true))
    else
      match outcome
      case UserAbort => s
      case ProviderTerminal => Fail(s)
      case SemanticSettle => Nudged(s, send, limits)
      case _ => RetriedProvider(s, send, limits)
  }

  function AfterAbort(s: Exec, id: StepId): Exec {
    if s.pending.Some? && s.pending.value.id == id then Fail(s) else s
  }

  function AfterSubmit(s: Exec, submit: SubmitId, node: string, attempt: string): Exec {
    var ours := s.pending.Some? && s.pending.value.node == node && s.pending.value.attempt == attempt;
    s.(submits := s.submits[submit := if ours then Submit(Some(s.pending.value.id), Awaiting)
                                      else Submit(None, Refused)])
  }

  function Close(s: Exec, submit: SubmitId, state: SubmitState): Exec
    requires submit in s.submits
  {
    s.(submits := s.submits[submit := s.submits[submit].(state := state)])
  }

  /** Validation ends, and the submit goes on: the slot may have been cleared or taken over meanwhile. */
  function AfterVerdict(s: Exec, submit: SubmitId, verdict: Verdict, rangeThrows: bool): Exec
    requires submit in s.submits
  {
    var id := s.submits[submit].step;
    if verdict.ValidationThrows? then Close(s, submit, Failed)
    else if s.pending.None? || Some(s.pending.value.id) != id || verdict.Invalid? then Close(s, submit, Refused)
    else if rangeThrows then Close(s.(pending := None, orphaned := s.orphaned + {s.pending.value.id}), submit, Failed)
    else Close(Settle(s.(pending := None), s.pending.value.id, Resolved(submit)), submit, Accepted)
  }

  predicate Enabled(s: Exec, a: Action) {
    match a
    case TimerFires(_) => s.pending.Some? && s.pending.value.timer.Some?
    case SubmitCall(submit, _, _) => submit !in s.submits
    case SubmitVerdict(submit, _, _) => submit in s.submits && s.submits[submit].state == Awaiting
    case _ => true
  }

  function Next(s: Exec, a: Action, limits: Limits): Exec
    requires Enabled(s, a)
  {
    match a
    case SetStreaming(on) => AfterStreaming(s, on)
    case Hold(interrupted) => AfterHold(s, interrupted)
    case Release(send) => AfterRelease(s, send)
    case Run(node, attempt, aborted, send) => AfterRun(s, node, attempt, aborted, send)
    case OnSent(id, generation, active) => AfterSent(s, id, generation, active)
    case TimerFires(send) => AfterTimer(s, send, limits)
    case AgentSettled(outcome, send) => AfterSettled(s, outcome, send, limits)
    case Abort(id) => AfterAbort(s, id)
    case SubmitCall(submit, node, attempt) => AfterSubmit(s, submit, node, attempt)
    case SubmitVerdict(submit, verdict, rangeThrows) => AfterVerdict(s, submit, verdict, rangeThrows)
  }

  predicate ValidRun(s: Exec, run: seq<Action>, limits: Limits)
    decreases |run|
  {
    run == [] || (Enabled(s, run[0]) && ValidRun(Next(s, run[0], limits), run[1..], limits))
  }

  function After(s: Exec, run: seq<Action>, limits: Limits): Exec
    requires ValidRun(s, run, limits)
    decreases |run|
  {
    if run == [] then s else After(Next(s, run[0], limits), run[1..], limits)
  }

  function Start(): Exec {
    Exec(None, false, false, false, 0, map[], map[], {})
  }

  // ----------------------------------------------------------------- the invariants

  /** The timer is armed, for the current generation, exactly while nothing but it can move a delivered step on. */
  predicate Waked(s: Exec) {
    s.pending.Some? ==>
      var p := s.pending.value;
      && (p.timer.Some? <==> !s.held && p.delivered && !p.seen)
      && (p.timer.Some? ==> p.timer == Some(p.generation))
      && (p.seen ==> p.delivered)
  }

  function Cap(limit: int): nat { if limit < 0 then 0 else limit }

  predicate WithinBudget(s: Exec, limits: Limits) {
    s.pending.Some? ==>
      var p := s.pending.value;
      && p.generation == 1 + p.nudges + p.provider + p.activation + p.resumes
      && p.nudges <= Cap(limits.nudges) && p.provider <= Cap(limits.provider) && p.activation <= Cap(limits.activation)
  }

  /**
   A step that has started is pending and unsettled, or settled once, or its slot cleared under a
   throwing range lookup.
   */
  predicate StepOk(s: Exec, id: StepId) {
    if s.nextStep <= id then Settled(s, id) == [] && id !in s.orphaned && (s.pending.Some? ==> s.pending.value.id != id)
    else if s.pending.Some? && s.pending.value.id == id then Settled(s, id) == [] && id !in s.orphaned
    else |Settled(s, id)| == if id in s.orphaned then 0 else 1
  }

  /** A promise that was resolved was resolved by a submit for this step, and that submit reported success. */
  predicate AnswerOk(s: Exec, id: StepId) {
    Settled(s, id) != [] && Settled(s, id)[0].Resolved? ==>
      var submit := Settled(s, id)[0].submit;
      submit in s.submits && s.submits[submit] == Submit(Some(id), Accepted)
  }

  predicate SubmitOk(s: Exec, submit: SubmitId) {
    submit in s.submits ==>
      var x := s.submits[submit];
      && (x.state == Awaiting ==> x.step.Some? && x.step.value < s.nextStep)
      && (x.state == Accepted ==> x.step.Some? && Settled(s, x.step.value) == [Resolved(submit)])
  }

  ghost predicate SlotsOk(s: Exec) {
    (forall id :: StepOk(s, id) && AnswerOk(s, id)) && (forall submit :: SubmitOk(s, submit))
  }

  ghost predicate Inv(s: Exec, limits: Limits) {
    Waked(s) && WithinBudget(s, limits) && SlotsOk(s)
  }

  // ---------------------------------------------------------------- wake and budgets

  predicate ReadyToSend(p: Pending, limits: Limits) {
    && p.generation == p.nudges + p.provider + p.activation + p.resumes
    && p.nudges <= Cap(limits.nudges) && p.provider <= Cap(limits.provider) && p.activation <= Cap(limits.activation)
  }

  /** A delivery raises the generation by one and leaves the timer right, whenever `onSent` is called. */
  lemma DeliveringKeeps(s: Exec, send: Send, limits: Limits)
    requires s.pending.Some? && ReadyToSend(s.pending.value, limits)
    ensures Waked(Delivering(s, send)) && WithinBudget(Delivering(s, send), limits)
  {
  }

  lemma RedeliverKeeps(s: Exec, send: Send, limits: Limits)
    requires s.pending.Some? && ReadyToSend(s.pending.value, limits)
    ensures Waked(Redeliver(s, send)) && WithinBudget(Redeliver(s, send), limits)
  {
    DeliveringKeeps(s, send, limits);
  }

  lemma RetryKeeps(s: Exec, spent: bool, p: Pending, send: Send, limits: Limits)
    requires s.pending.Some? && (!spent ==> ReadyToSend(p, limits))
    ensures Waked(Retry(s, spent, p, send)) && WithinBudget(Retry(s, spent, p, send), limits)
  {
    if !spent { RedeliverKeeps(Put(s, p), send, limits); }
  }

  lemma CallbackKeeps(s: Exec, a: Action, limits: Limits)
    requires Waked(s) && WithinBudget(s, limits) && Enabled(s, a)
    requires a.SetStreaming? || a.Hold? || a.OnSent? || a.Abort? || a.SubmitCall? || a.SubmitVerdict?
    ensures Waked(Next(s, a, limits)) && WithinBudget(Next(s, a, limits), limits)
  {
  }

  lemma ReleaseKeeps(s: Exec, send: Send, limits: Limits)
    requires Waked(s) && WithinBudget(s, limits)
    ensures Waked(AfterRelease(s, send)) && WithinBudget(AfterRelease(s, send), limits)
  {
    if s.held && s.pending.Some? && s.needsPrompt {
      var p := s.pending.value;
      RedeliverKeeps(Put(s.(held := false, needsPrompt := false), p.(resumes := p.resumes + 1)), send, limits);
    }
  }

  lemma RunKeeps(s: Exec, node: string, attempt: string, aborted: bool, send: Send, limits: Limits, s': Exec)
    requires Waked(s) && WithinBudget(s, limits) && s' == AfterRun(s, node, attempt, aborted, send)
    ensures Waked(s') && WithinBudget(s', limits)
  {
    if s.pending.None? {
      var p := Pending(s.nextStep, node, attempt, 0, 0, 0, 0, false, None, false, 0);
      DeliveringKeeps(Put(s.(nextStep := s.nextStep + 1), p), send, limits);
    }
  }

  lemma TimerKeeps(s: Exec, send: Send, limits: Limits)
    requires Waked(s) && WithinBudget(s, limits) && s.pending.Some? && s.pending.value.timer.Some?
    ensures Waked(AfterTimer(s, send, limits)) && WithinBudget(AfterTimer(s, send, limits), limits)
  {
    var p := s.pending.value;
    RetryKeeps(Put(s, p.(timer := None)), limits.activation <= p.activation,
               p.(timer := None, activation := p.activation + 1), send, limits);
  }

  lemma NudgeKeeps(s: Exec, send: Send, limits: Limits, s': Exec)
    requires WithinBudget(s, limits) && s.pending.Some? && s' == Nudged(s, send, limits)
    ensures Waked(s') && WithinBudget(s', limits)
  {
    var p := s.pending.value;
    RetryKeeps(s, limits.nudges <= p.nudges, p.(nudges := p.nudges + 1), send, limits);
  }

  lemma ProviderKeeps(s: Exec, send: Send, limits: Limits, s': Exec)
    requires WithinBudget(s, limits) && s.pending.Some? && s' == RetriedProvider(s, send, limits)
    ensures Waked(s') && WithinBudget(s', limits)
  {
    var p := s.pending.value;
    RetryKeeps(s, limits.provider <= p.provider, p.(provider := p.provider + 1), send, limits);
  }

  lemma SettledKeeps(s: Exec, outcome: TurnOutcome, send: Send, limits: Limits, s': Exec)
    requires Waked(s) && WithinBudget(s, limits) && s' == AfterSettled(s, outcome, send, limits)
    ensures Waked(s') && WithinBudget(s', limits)
  {
    if s.pending.Some? && s.pending.value.seen && !s.held {
      if outcome.SemanticSettle? {
        NudgeKeeps(s, send, limits, s');
      } else if outcome.ProviderRetryable? || outcome.ContextOverflow? {
        ProviderKeeps(s, send, limits, s');
      }
    }
  }

  lemma WakeStep(s: Exec, a: Action, limits: Limits)
    requires Waked(s) && WithinBudget(s, limits) && Enabled(s, a)
    ensures Waked(Next(s, a, limits)) && WithinBudget(Next(s, a, limits), limits)
  {
    if a.Release? {
      ReleaseKeeps(s, a.send, limits);
    } else if a.Run? {
      RunKeeps(s, a.node, a.attempt, a.aborted, a.send, limits, Next(s, a, limits));
    } else if a.TimerFires? {
      TimerKeeps(s, a.send, limits);
    } else if a.AgentSettled? {
      SettledKeeps(s, a.outcome, a.send, limits, Next(s, a, limits));
    } else {
      CallbackKeeps(s, a, limits);
    }
  }

  // ------------------------------------------------------------- slots and promises

  predicate SameBooks(s: Exec, s': Exec) {
    s'.settled == s.settled && s'.submits == s.submits && s'.orphaned == s.orphaned && s'.nextStep == s.nextStep
  }

  /** Nothing was settled and the slot holds the same step. */
  predicate SameSlot(s: Exec, s': Exec) {
    && SameBooks(s, s')
    && (s'.pending.Some? <==> s.pending.Some?)
    && (s.pending.Some? ==> s'.pending.value.id == s.pending.value.id)
  }

  /** The slot was cleared and its promise rejected, in one step. */
  predicate Rejects(s: Exec, s': Exec) {
    && s.pending.Some? && s'.pending.None?
    && s'.settled == s.settled[s.pending.value.id := Settled(s, s.pending.value.id) + [Rejected]]
    && s'.submits == s.submits && s'.orphaned == s.orphaned && s'.nextStep == s.nextStep
  }

  lemma SameSlotKeeps(s: Exec, s': Exec)
    requires SlotsOk(s) && SameSlot(s, s')
    ensures SlotsOk(s')
  {
    forall id ensures StepOk(s', id) && AnswerOk(s', id) { assert StepOk(s, id) && AnswerOk(s, id); }
    forall submit ensures SubmitOk(s', submit) { assert SubmitOk(s, submit); }
  }

  lemma RejectsKeeps(s: Exec, s': Exec)
    requires SlotsOk(s) && Rejects(s, s')
    ensures SlotsOk(s')
  {
    assert StepOk(s, s.pending.value.id);
    forall id ensures StepOk(s', id) && AnswerOk(s', id) { assert StepOk(s, id) && AnswerOk(s, id); }
    forall submit ensures SubmitOk(s', submit) { assert SubmitOk(s, submit); }
  }

  lemma DeliveringShape(s: Exec, send: Send)
    requires s.pending.Some?
    ensures SameSlot(s, Delivering(s, send))
  {
  }

  predicate SlotOrReject(s: Exec, s': Exec) { SameSlot(s, s') || Rejects(s, s') }

  lemma RedeliverShape(s: Exec, send: Send)
    requires s.pending.Some?
    ensures SlotOrReject(s, Redeliver(s, send))
  {
    DeliveringShape(s, send);
  }

  /** Bookkeeping before a delivery does not change its shape. */
  lemma Prepended(s: Exec, s1: Exec, s': Exec)
    requires SameSlot(s, s1) && SlotOrReject(s1, s')
    ensures SlotOrReject(s, s')
  {
  }

  lemma ReleaseShape(s: Exec, send: Send)
    ensures SlotOrReject(s, AfterRelease(s, send))
  {
    if s.held && s.pending.Some? && s.needsPrompt {
      var s1 := Put(s.(held := false, needsPrompt := false), s.pending.value.(resumes := s.pending.value.resumes + 1));
      RedeliverShape(s1, send);
      Prepended(s, s1, Redeliver(s1, send));
    }
  }

  lemma RetryShape(s: Exec, spent: bool, p: Pending, send: Send, s': Exec)
    requires s.pending.Some? && p.id == s.pending.value.id && s' == Retry(s, spent, p, send)
    ensures SlotOrReject(s, s')
  {
    if !spent {
      RedeliverShape(Put(s, p), send);
      Prepended(s, Put(s, p), s');
    }
  }

  lemma TimerShape(s: Exec, send: Send, limits: Limits, s': Exec)
    requires s.pending.Some? && s.pending.value.timer.Some? && s' == AfterTimer(s, send, limits)
    ensures SlotOrReject(s, s')
  {
    var p := s.pending.value;
    var fired := Put(s, p.(timer := None));
    if s' != fired {
      RetryShape(fired, limits.activation <= p.activation, p.(timer := None, activation := p.activation + 1), send, s');
      Prepended(s, fired, s');
    }
  }

  lemma NudgeShape(s: Exec, send: Send, limits: Limits, s': Exec)
    requires s.pending.Some? && s' == Nudged(s, send, limits)
    ensures SlotOrReject(s, s')
  {
    var p := s.pending.value;
    RetryShape(s, limits.nudges <= p.nudges, p.(nudges := p.nudges + 1), send, s');
  }

  lemma ProviderShape(s: Exec, send: Send, limits: Limits, s': Exec)
    requires s.pending.Some? && s' == RetriedProvider(s, send, limits)
    ensures SlotOrReject(s, s')
  {
    var p := s.pending.value;
    RetryShape(s, limits.provider <= p.provider, p.(provider := p.provider + 1), send, s');
  }

  lemma SettledShape(s: Exec, outcome: TurnOutcome, send: Send, limits: Limits, s': Exec)
    requires s' == AfterSettled(s, outcome, send, limits)
    ensures SlotOrReject(s, s')
  {
    if s.pending.Some? && s.pending.value.seen && !s.held {
      if outcome.SemanticSettle? {
        NudgeShape(s, send, limits, s');
      } else if outcome.ProviderRetryable? || outcome.ContextOverflow? {
        ProviderShape(s, send, limits, s');
      }
    }
  }

  lemma CallbackShape(s: Exec, a: Action, limits: Limits)
    requires Enabled(s, a) && (a.SetStreaming? || a.Hold? || a.OnSent? || a.Abort?)
    ensures SlotOrReject(s, Next(s, a, limits))
  {
  }

  /** A call of `runAgentStep`: refused, or failed at once, or installed. */
  lemma RunKeepsSlots(s: Exec, node: string, attempt: string, aborted: bool, send: Send)
    requires SlotsOk(s)
    ensures SlotsOk(AfterRun(s, node, attempt, aborted, send))
  {
    var id := s.nextStep;
    assert StepOk(s, id);
    var s1 := s.(nextStep := id + 1);
    if s.pending.Some? || send.hookThrows {
      RefusedStep(s);
    } else {
      var installed := Put(s1, Pending(id, node, attempt, 0, 0, 0, 0, false, None, false, 0));
      InstalledStep(s, installed);
      DeliveringShape(installed, send);
      SameSlotKeeps(installed, Delivering(installed, send));
      if aborted {
        RejectsKeeps(installed, Fail(installed));
      } else if send.throws {
        RejectsKeeps(Delivering(installed, send), Fail(Delivering(installed, send)));
      }
    }
  }

  lemma RefusedStep(s: Exec)
    requires SlotsOk(s)
    ensures SlotsOk(Settle(s.(nextStep := s.nextStep + 1), s.nextStep, Rejected))
  {
    var s' := Settle(s.(nextStep := s.nextStep + 1), s.nextStep, Rejected);
    assert StepOk(s, s.nextStep);
    forall id ensures StepOk(s', id) && AnswerOk(s', id) { assert StepOk(s, id) && AnswerOk(s, id); }
    forall submit ensures SubmitOk(s', submit) { assert SubmitOk(s, submit); }
  }

  lemma InstalledStep(s: Exec, s': Exec)
    requires SlotsOk(s) && s.pending.None? && s'.pending.Some? && s'.pending.value.id == s.nextStep
    requires s'.settled == s.settled && s'.submits == s.submits && s'.orphaned == s.orphaned
    requires s'.nextStep == s.nextStep + 1
    ensures SlotsOk(s')
  {
    forall id ensures StepOk(s', id) && AnswerOk(s', id) { assert StepOk(s, id) && AnswerOk(s, id); }
    forall submit ensures SubmitOk(s', submit) { assert SubmitOk(s, submit); }
  }

  lemma SubmitKeepsSlots(s: Exec, submit: SubmitId, node: string, attempt: string)
    requires SlotsOk(s) && submit !in s.submits
    ensures SlotsOk(AfterSubmit(s, submit, node, attempt))
  {
    var s' := AfterSubmit(s, submit, node, attempt);
    if s.pending.Some? { assert StepOk(s, s.pending.value.id); }
    forall id ensures StepOk(s', id) && AnswerOk(s', id) { assert StepOk(s, id) && AnswerOk(s, id); }
    forall x ensures SubmitOk(s', x) { assert SubmitOk(s, x); }
  }

  lemma CloseKeepsSlots(s: Exec, submit: SubmitId, state: SubmitState)
    requires SlotsOk(s) && submit in s.submits && s.submits[submit].state == Awaiting
    requires state == Refused || state == Failed
    ensures SlotsOk(Close(s, submit, state))
  {
    var s' := Close(s, submit, state);
    forall id ensures StepOk(s', id) && AnswerOk(s', id) { assert StepOk(s, id) && AnswerOk(s, id); }
    forall x ensures SubmitOk(s', x) { assert SubmitOk(s, x); }
  }

  /** `rangeSince` throws: the slot is clear and nobody will settle the promise. */
  lemma OrphanKeepsSlots(s: Exec)
    requires SlotsOk(s) && s.pending.Some?
    ensures SlotsOk(s.(pending := None, orphaned := s.orphaned + {s.pending.value.id}))
  {
    var s' := s.(pending := None, orphaned := s.orphaned + {s.pending.value.id});
    assert StepOk(s, s.pending.value.id);
    forall id ensures StepOk(s', id) && AnswerOk(s', id) { assert StepOk(s, id) && AnswerOk(s, id); }
    forall x ensures SubmitOk(s', x) { assert SubmitOk(s, x); }
  }

  lemma AcceptKeepsSlots(s: Exec, submit: SubmitId)
    requires SlotsOk(s) && submit in s.submits && s.submits[submit].state == Awaiting
    requires s.pending.Some? && Some(s.pending.value.id) == s.submits[submit].step
    ensures SlotsOk(Close(Settle(s.(pending := None), s.pending.value.id, Resolved(submit)), submit, Accepted))
  {
    var s' := Close(Settle(s.(pending := None), s.pending.value.id, Resolved(submit)), submit, Accepted);
    assert StepOk(s, s.pending.value.id);
    forall id ensures StepOk(s', id) && AnswerOk(s', id) { assert StepOk(s, id) && AnswerOk(s, id); }
    forall x ensures SubmitOk(s', x) { assert SubmitOk(s, x); }
  }

  lemma VerdictKeepsSlots(s: Exec, submit: SubmitId, verdict: Verdict, rangeThrows: bool)
    requires SlotsOk(s) && submit in s.submits && s.submits[submit].state == Awaiting
    ensures SlotsOk(AfterVerdict(s, submit, verdict, rangeThrows))
  {
    var ours := s.pending.Some? && Some(s.pending.value.id) == s.submits[submit].step;
    if verdict.Valid? && ours {
      if rangeThrows {
        OrphanKeepsSlots(s);
        CloseKeepsSlots(s.(pending := None, orphaned := s.orphaned + {s.pending.value.id}), submit, Failed);
      } else {
        AcceptKeepsSlots(s, submit);
      }
    } else {
      CloseKeepsSlots(s, submit, if verdict.ValidationThrows? then Failed else Refused);
    }
  }

  lemma SlotShape(s: Exec, a: Action, limits: Limits)
    requires Enabled(s, a) && !a.Run? && !a.SubmitCall? && !a.SubmitVerdict?
    ensures SlotOrReject(s, Next(s, a, limits))
  {
    if a.Release? {
      ReleaseShape(s, a.send);
    } else if a.TimerFires? {
      TimerShape(s, a.send, limits, Next(s, a, limits));
    } else if a.AgentSettled? {
      SettledShape(s, a.outcome, a.send, limits, Next(s, a, limits));
    } else {
      CallbackShape(s, a, limits);
    }
  }

  lemma SlotStep(s: Exec, a: Action, limits: Limits)
    requires SlotsOk(s) && Enabled(s, a)
    ensures SlotsOk(Next(s, a, limits))
  {
    if a.Run? {
      RunKeepsSlots(s, a.node, a.attempt, a.aborted, a.send);
    } else if a.SubmitCall? {
      SubmitKeepsSlots(s, a.submit, a.node, a.attempt);
    } else if a.SubmitVerdict? {
      VerdictKeepsSlots(s, a.submit, a.verdict, a.rangeThrows);
    } else {
      var s' := Next(s, a, limits);
      SlotShape(s, a, limits);
      if SameSlot(s, s') { SameSlotKeeps(s, s'); } else { RejectsKeeps(s, s'); }
    }
  }

  lemma {:induction false} RunInv(s: Exec, run: seq<Action>, limits: Limits)
    requires Inv(s, limits) && ValidRun(s, run, limits)
    ensures Inv(After(s, run, limits), limits)
    decreases |run|
  {
    if run != [] {
      WakeStep(s, run[0], limits);
      SlotStep(s, run[0], limits);
      RunInv(Next(s, run[0], limits), run[1..], limits);
    }
  }

  lemma StartInv(limits: Limits)
    ensures Inv(Start(), limits)
  {
  }

  // ----------------------------------------------------------------- the promises

  predicate Waiting(s: Exec) {
    s.pending.Some? && !s.held && s.pending.value.delivered && !s.pending.value.seen
  }

  /**
   After every operation a delivered step that nobody holds and no agent has picked up has its timer
   armed, and only such a step.
   */
  lemma TimerArmedExactly(run: seq<Action>, limits: Limits)
    requires ValidRun(Start(), run, limits)
    ensures var s := After(Start(), run, limits);
      && ((s.pending.Some? && s.pending.value.timer.Some?) <==> Waiting(s))
      && (Waiting(s) ==> s.pending.value.timer == Some(s.pending.value.generation))
  {
    StartInv(limits);
    RunInv(Start(), run, limits);
  }

  /** A timer that fires always acts: its early-return guard is never taken. */
  lemma TimeoutAlwaysActs(run: seq<Action>, send: Send, limits: Limits)
    requires ValidRun(Start(), run, limits) && Enabled(After(Start(), run, limits), TimerFires(send))
    ensures var s := After(Start(), run, limits);
      var p := s.pending.value;
      Next(s, TimerFires(send), limits)
      == Retry(Put(s, p.(timer := None)), limits.activation <= p.activation,
               p.(timer := None, activation := p.activation + 1), send)
  {
    StartInv(limits);
    RunInv(Start(), run, limits);
  }

  /** Every pending step has been delivered once, plus once for each retry and each user resume. */
  lemma DeliveriesAreCounted(run: seq<Action>, limits: Limits)
    requires ValidRun(Start(), run, limits)
    ensures var s := After(Start(), run, limits);
      s.pending.Some? ==>
        var p := s.pending.value;
        && p.generation == 1 + p.nudges + p.provider + p.activation + p.resumes
        && p.generation <= 1 + Cap(limits.nudges) + Cap(limits.provider) + Cap(limits.activation) + p.resumes
  {
    StartInv(limits);
    RunInv(Start(), run, limits);
  }

  predicate SameStep(p: Pending, q: Pending) { q.id == p.id && q.node == p.node && q.attempt == p.attempt }

  /** One more delivery for `p`, unless it is spent or the delivery throws: then the step is rejected. */
  predicate Redelivered(s: Exec, p: Pending, fails: bool, s': Exec) {
    && (s'.pending.None? <==> fails)
    && (s'.pending.None? ==> Settled(s', p.id) == Settled(s, p.id) + [Rejected])
    && (s'.pending.Some? ==>
          && SameStep(p, s'.pending.value) && s'.settled == s.settled
          && s'.pending.value.nudges == p.nudges && s'.pending.value.provider == p.provider
          && s'.pending.value.activation == p.activation && s'.pending.value.generation == p.generation + 1)
  }

  lemma DeliveringCounts(s: Exec, send: Send)
    requires s.pending.Some?
    ensures Redelivered(s, s.pending.value, false, Delivering(s, send))
  {
  }

  lemma RetryCounts(s: Exec, spent: bool, p: Pending, send: Send, s': Exec)
    requires s.pending.Some? && p.id == s.pending.value.id && s' == Retry(s, spent, p, send)
    ensures Redelivered(s, p, spent || send.hookThrows || send.throws, s')
  {
    DeliveringCounts(Put(s, p), send);
  }

  /** A turn that ended without an answer draws on the nudges: one more, or the step is rejected. */
  lemma SemanticSettleNudges(s: Exec, send: Send, limits: Limits)
    requires s.pending.Some? && s.pending.value.seen && !s.held
    ensures var p := s.pending.value;
      Redelivered(s, p.(nudges := p.nudges + 1), limits.nudges <= p.nudges || send.hookThrows || send.throws,
                  AfterSettled(s, SemanticSettle, send, limits))
  {
    var p := s.pending.value;
    RetryCounts(s, limits.nudges <= p.nudges, p.(nudges := p.nudges + 1), send,
                AfterSettled(s, SemanticSettle, send, limits));
  }

  /** A provider error that may pass, or an overflow, draws on the provider retries. */
  lemma ProviderErrorsRetry(s: Exec, outcome: TurnOutcome, send: Send, limits: Limits)
    requires s.pending.Some? && s.pending.value.seen && !s.held
    requires outcome.ProviderRetryable? || outcome.ContextOverflow?
    ensures var p := s.pending.value;
      Redelivered(s, p.(provider := p.provider + 1), limits.provider <= p.provider || send.hookThrows || send.throws,
                  AfterSettled(s, outcome, send, limits))
  {
    var p := s.pending.value;
    RetryCounts(s, limits.provider <= p.provider, p.(provider := p.provider + 1), send,
                AfterSettled(s, outcome, send, limits));
  }

  /** A prompt that no agent picks up in time draws on the activation retries. */
  lemma TimeoutsRetry(s: Exec, send: Send, limits: Limits)
    requires Waked(s) && s.pending.Some? && s.pending.value.timer.Some?
    ensures var p := s.pending.value;
      Redelivered(s, p.(activation := p.activation + 1),
                  limits.activation <= p.activation || send.hookThrows || send.throws, AfterTimer(s, send, limits))
  {
    var p := s.pending.value;
    RetryCounts(Put(s, p.(timer := None)), limits.activation <= p.activation,
                p.(timer := None, activation := p.activation + 1), send, AfterTimer(s, send, limits));
  }

  /** What the user aborted, or does not let go on, spends nothing; what the provider refused for good ends the step. */
  lemma OtherOutcomes(s: Exec, outcome: TurnOutcome, send: Send, limits: Limits)
    requires s.pending.Some?
    ensures !s.pending.value.seen || outcome.UserAbort? ==> AfterSettled(s, outcome, send, limits) == s
    ensures s.pending.value.seen && s.held && !outcome.UserAbort? ==>
      AfterSettled(s, outcome, send, limits) == s.(needsPrompt := true)
    ensures s.pending.value.seen && !s.held && outcome.ProviderTerminal? ==>
      Rejects(s, AfterSettled(s, outcome, send, limits))
  {
  }

  /** A step's promise settles at most once, and is settled exactly when its slot is clear, unless it was orphaned. */
  lemma SettledExactlyOnce(run: seq<Action>, id: StepId, limits: Limits)
    requires ValidRun(Start(), run, limits) && id < After(Start(), run, limits).nextStep
    ensures var s := After(Start(), run, limits);
      && |Settled(s, id)| <= 1
      && (Settled(s, id) == [] <==> (s.pending.Some? && s.pending.value.id == id) || id in s.orphaned)
  {
    StartInv(limits);
    RunInv(Start(), run, limits);
    assert StepOk(After(Start(), run, limits), id);
  }

  /** A submit reports success exactly when it is the one that resolved its step. */
  lemma AcceptedMeansResolved(run: seq<Action>, submit: SubmitId, limits: Limits)
    requires ValidRun(Start(), run, limits) && submit in After(Start(), run, limits).submits
    ensures var s := After(Start(), run, limits);
      s.submits[submit].state == Accepted <==> exists id :: Settled(s, id) == [Resolved(submit)]
  {
    StartInv(limits);
    RunInv(Start(), run, limits);
    var s := After(Start(), run, limits);
    assert SubmitOk(s, submit);
    if id :| Settled(s, id) == [Resolved(submit)] { assert AnswerOk(s, id); }
  }

  // ------------------------------------------------------ which submit resolves which step

  /** How many steps a run has begun. */
  function Begun(run: seq<Action>): nat {
    if run == [] then 0 else Begun(run[..|run| - 1]) + if run[|run| - 1].Run? then 1 else 0
  }

  predicate Begins(a: Action, node: string, attempt: string) { a.Run? && a.node == node && a.attempt == attempt }

  /** The step `id` was begun for this node and attempt. */
  ghost predicate BegunAs(run: seq<Action>, id: StepId, node: string, attempt: string) {
    exists i :: 0 <= i < |run| && Begins(run[i], node, attempt) && Begun(run[..i]) == id
  }

  ghost predicate SubmittedAs(run: seq<Action>, submit: SubmitId, node: string, attempt: string) {
    SubmitCall(submit, node, attempt) in run
  }

  /** The submit named the node and attempt that the step was begun for. */
  ghost predicate NamesStep(run: seq<Action>, submit: SubmitId, id: StepId) {
    exists node, attempt :: SubmittedAs(run, submit, node, attempt) && BegunAs(run, id, node, attempt)
  }

  ghost predicate Named(run: seq<Action>, s: Exec) {
    && s.nextStep == Begun(run)
    && (s.pending.Some? ==> BegunAs(run, s.pending.value.id, s.pending.value.node, s.pending.value.attempt))
    && (forall x | x in s.submits && s.submits[x].step.Some? :: NamesStep(run, x, s.submits[x].step.value))
    && (forall id | id in s.settled :: forall r | r in s.settled[id] && r.Resolved? ::
          NamesStep(run, r.submit, id) && SubmitVerdict(r.submit, Valid, false) in run)
  }

  lemma BegunStays(run: seq<Action>, a: Action, id: StepId, node: string, attempt: string)
    requires BegunAs(run, id, node, attempt)
    ensures BegunAs(run + [a], id, node, attempt)
  {
    var i :| 0 <= i < |run| && Begins(run[i], node, attempt) && Begun(run[..i]) == id;
    assert (run + [a])[i] == run[i] && (run + [a])[..i] == run[..i];
  }

  lemma NamesStays(run: seq<Action>, a: Action, submit: SubmitId, id: StepId)
    requires NamesStep(run, submit, id)
    ensures NamesStep(run + [a], submit, id)
  {
    var node, attempt :| SubmittedAs(run, submit, node, attempt) && BegunAs(run, id, node, attempt);
    BegunStays(run, a, id, node, attempt);
    assert SubmittedAs(run + [a], submit, node, attempt);
  }

  /** Nothing about steps and submits was said that the run does not say already. */
  ghost predicate NoNewNames(s: Exec, s': Exec) {
    && s'.submits == s.submits && s'.nextStep == s.nextStep
    && (s'.pending.Some? ==> s.pending.Some? && SameStep(s.pending.value, s'.pending.value))
    && (forall id | id in s'.settled :: forall r | r in s'.settled[id] && r.Resolved? ::
          id in s.settled && r in s.settled[id])
  }

  lemma SameNames(run: seq<Action>, s: Exec, a: Action, s': Exec)
    requires Named(run, s) && NoNewNames(s, s') && !a.Run?
    ensures Named(run + [a], s')
  {
    assert (run + [a])[..|run|] == run;
    if s'.pending.Some? {
      BegunStays(run, a, s.pending.value.id, s.pending.value.node, s.pending.value.attempt);
    }
    forall x | x in s'.submits && s'.submits[x].step.Some? ensures NamesStep(run + [a], x, s'.submits[x].step.value) {
      NamesStays(run, a, x, s.submits[x].step.value);
    }
    forall id, r | id in s'.settled && r in s'.settled[id] && r.Resolved? ensures
      NamesStep(run + [a], r.submit, id) && SubmitVerdict(r.submit, Valid, false) in run + [a]
    {
      NamesStays(run, a, r.submit, id);
    }
  }

  lemma DeliveringNames(s: Exec, send: Send)
    requires s.pending.Some?
    ensures NoNewNames(s, Delivering(s, send))
    ensures Delivering(s, send).pending.Some? && SameStep(s.pending.value, Delivering(s, send).pending.value)
  {
  }

  lemma RedeliverNames(s: Exec, send: Send)
    requires s.pending.Some?
    ensures NoNewNames(s, Redeliver(s, send))
  {
    DeliveringNames(s, send);
  }

  lemma RetryNames(s: Exec, spent: bool, p: Pending, send: Send)
    requires s.pending.Some? && SameStep(s.pending.value, p)
    ensures NoNewNames(s, Retry(s, spent, p, send))
  {
    if !spent { RedeliverNames(Put(s, p), send); }
  }

  lemma TimerNames(s: Exec, send: Send, limits: Limits)
    requires s.pending.Some? && s.pending.value.timer.Some?
    ensures NoNewNames(s, AfterTimer(s, send, limits))
  {
    var p := s.pending.value;
    RetryNames(Put(s, p.(timer := None)), limits.activation <= p.activation,
               p.(timer := None, activation := p.activation + 1), send);
  }

  lemma NudgeNames(s: Exec, send: Send, limits: Limits, s': Exec)
    requires s.pending.Some? && (s' == Nudged(s, send, limits) || s' == RetriedProvider(s, send, limits))
    ensures NoNewNames(s, s')
  {
    var p := s.pending.value;
    if s' == Nudged(s, send, limits) {
      RetryNames(s, limits.nudges <= p.nudges, p.(nudges := p.nudges + 1), send);
    } else {
      RetryNames(s, limits.provider <= p.provider, p.(provider := p.provider + 1), send);
    }
  }

  lemma SettledNames(s: Exec, outcome: TurnOutcome, send: Send, limits: Limits, s': Exec)
    requires s' == AfterSettled(s, outcome, send, limits)
    ensures NoNewNames(s, s')
  {
    if s.pending.Some? && s.pending.value.seen && !s.held && !outcome.UserAbort? && !outcome.ProviderTerminal? {
      NudgeNames(s, send, limits, s');
    }
  }

  lemma ReleaseNames(s: Exec, send: Send)
    ensures NoNewNames(s, AfterRelease(s, send))
  {
    if s.held && s.pending.Some? && s.needsPrompt {
      RedeliverNames(Put(s.(held := false, needsPrompt := false),
                         s.pending.value.(resumes := s.pending.value.resumes + 1)), send);
    }
  }

  lemma CallbackNames(s: Exec, a: Action, limits: Limits)
    requires Enabled(s, a) && !a.Run? && !a.SubmitCall? && !a.SubmitVerdict?
    ensures NoNewNames(s, Next(s, a, limits))
  {
    if a.Release? {
      ReleaseNames(s, a.send);
    } else if a.TimerFires? {
      TimerNames(s, a.send, limits);
    } else if a.AgentSettled? {
      SettledNames(s, a.outcome, a.send, limits, Next(s, a, limits));
    }
  }

  /** The call that begins a step is where its node and attempt come from. */
  lemma RunNames(run: seq<Action>, s: Exec, a: Action)
    requires Named(run, s) && a.Run?
    ensures Named(run + [a], AfterRun(s, a.node, a.attempt, a.aborted, a.send))
  {
    var s' := AfterRun(s, a.node, a.attempt, a.aborted, a.send);
    assert (run + [a])[..|run|] == run;
    RunShape(s, a);
    if s'.pending.Some? {
      if s.pending.Some? {
        BegunStays(run, a, s.pending.value.id, s.pending.value.node, s.pending.value.attempt);
      } else {
        assert (run + [a])[|run|] == a && BegunAs(run + [a], s.nextStep, a.node, a.attempt);
      }
    }
    forall x | x in s'.submits && s'.submits[x].step.Some? ensures NamesStep(run + [a], x, s'.submits[x].step.value) {
      NamesStays(run, a, x, s.submits[x].step.value);
    }
    forall id, r | id in s'.settled && r in s'.settled[id] && r.Resolved? ensures
      NamesStep(run + [a], r.submit, id) && SubmitVerdict(r.submit, Valid, false) in run + [a]
    {
      NamesStays(run, a, r.submit, id);
    }
  }

  predicate InstalledAs(s: Exec, a: Action, s': Exec)
    requires a.Run?
  {
    s'.pending.Some? ==>
      if s.pending.Some? then s'.pending == s.pending
      else s'.pending.value.id == s.nextStep && Begins(a, s'.pending.value.node, s'.pending.value.attempt)
  }

  ghost predicate NoNewAnswers(s: Exec, s': Exec) {
    forall id | id in s'.settled :: forall r | r in s'.settled[id] && r.Resolved? ::
      id in s.settled && r in s.settled[id]
  }

  function Installed(s: Exec, a: Action): Exec
    requires a.Run?
  {
    Put(s.(nextStep := s.nextStep + 1), Pending(s.nextStep, a.node, a.attempt, 0, 0, 0, 0, false, None, false, 0))
  }

  lemma InstalledNames(s: Exec, a: Action, s': Exec)
    requires a.Run? && s.pending.None? && NoNewNames(Installed(s, a), s')
    ensures s'.nextStep == s.nextStep + 1 && s'.submits == s.submits && InstalledAs(s, a, s') && NoNewAnswers(s, s')
  {
  }

  lemma FailNames(s: Exec, s': Exec)
    requires s'.pending.Some? && NoNewNames(s, s')
    ensures NoNewNames(s, Fail(s'))
  {
  }

  lemma RunCases(s: Exec, a: Action)
    requires a.Run? && s.pending.None? && !a.send.hookThrows
    ensures var (s1, s') := (Installed(s, a), AfterRun(s, a.node, a.attempt, a.aborted, a.send));
      s' == Fail(s1) || s' == Delivering(s1, a.send) ||
      (Delivering(s1, a.send).pending.Some? && s' == Fail(Delivering(s1, a.send)))
  {
  }

  lemma RunShape(s: Exec, a: Action)
    requires a.Run?
    ensures var s' := AfterRun(s, a.node, a.attempt, a.aborted, a.send);
      s'.nextStep == s.nextStep + 1 && s'.submits == s.submits && InstalledAs(s, a, s') && NoNewAnswers(s, s')
  {
    if s.pending.None? && !a.send.hookThrows {
      var s1 := Installed(s, a);
      RunCases(s, a);
      DeliveringNames(s1, a.send);
      FailNames(s1, s1);
      FailNames(s1, Delivering(s1, a.send));
      InstalledNames(s, a, AfterRun(s, a.node, a.attempt, a.aborted, a.send));
    }
  }

  /** A submit is for the pending step only if it names that step's node and attempt. */
  lemma SubmitNames(run: seq<Action>, s: Exec, a: Action)
    requires Named(run, s) && a.SubmitCall? && a.submit !in s.submits
    ensures Named(run + [a], AfterSubmit(s, a.submit, a.node, a.attempt))
  {
    var s' := AfterSubmit(s, a.submit, a.node, a.attempt);
    assert (run + [a])[..|run|] == run;
    if s.pending.Some? {
      BegunStays(run, a, s.pending.value.id, s.pending.value.node, s.pending.value.attempt);
    }
    forall x | x in s'.submits && s'.submits[x].step.Some? ensures NamesStep(run + [a], x, s'.submits[x].step.value) {
      if x == a.submit {
        assert a in run + [a];
        assert SubmittedAs(run + [a], x, a.node, a.attempt);
      } else {
        NamesStays(run, a, x, s.submits[x].step.value);
      }
    }
    forall id, r | id in s'.settled && r in s'.settled[id] && r.Resolved? ensures
      NamesStep(run + [a], r.submit, id) && SubmitVerdict(r.submit, Valid, false) in run + [a]
    {
      NamesStays(run, a, r.submit, id);
    }
  }

  /** A verdict resolves the submit's own step, and only a valid one does. */
  lemma VerdictNames(run: seq<Action>, s: Exec, a: Action, limits: Limits, s': Exec)
    requires Named(run, s) && Enabled(s, a) && a.SubmitVerdict? && s' == Next(s, a, limits)
    ensures Named(run + [a], s')
  {
    VerdictKeeps(s, a, limits);
    assert (run + [a])[..|run|] == run && a in run + [a];
    if s'.pending.Some? {
      BegunStays(run, a, s.pending.value.id, s.pending.value.node, s.pending.value.attempt);
    }
    forall x | x in s'.submits && s'.submits[x].step.Some? ensures NamesStep(run + [a], x, s'.submits[x].step.value) {
      NamesStays(run, a, x, s.submits[x].step.value);
    }
    forall id, r | id in s'.settled && r in s'.settled[id] && r.Resolved? ensures
      NamesStep(run + [a], r.submit, id) && SubmitVerdict(r.submit, Valid, false) in run + [a]
    {
      if id in s.settled && r in s.settled[id] {
        NamesStays(run, a, r.submit, id);
      } else {
        VerdictResolves(s, a, limits, id, r);
        NamesStays(run, a, a.submit, id);
      }
    }
  }

  lemma VerdictKeeps(s: Exec, a: Action, limits: Limits)
    requires Enabled(s, a) && a.SubmitVerdict?
    ensures var s' := Next(s, a, limits);
      && s'.nextStep == s.nextStep && s'.submits.Keys == s.submits.Keys
      && (s'.pending.Some? ==> s'.pending == s.pending)
      && forall x | x in s.submits :: s'.submits[x].step == s.submits[x].step
  {
  }

  lemma VerdictResolves(s: Exec, a: Action, limits: Limits, id: StepId, r: Settlement)
    requires Enabled(s, a) && a.SubmitVerdict?
    requires id in Next(s, a, limits).settled && r in Next(s, a, limits).settled[id] && r !in Settled(s, id)
    ensures r == Resolved(a.submit) && s.submits[a.submit].step == Some(id) && a.verdict == Valid && !a.rangeThrows
  {
  }

  lemma {:induction false} RunExtend(s: Exec, run: seq<Action>, a: Action, limits: Limits)
    requires ValidRun(s, run + [a], limits)
    ensures ValidRun(s, run, limits) && Enabled(After(s, run, limits), a)
    ensures After(s, run + [a], limits) == Next(After(s, run, limits), a, limits)
    decreases |run|
  {
    if run != [] {
      assert (run + [a])[1..] == run[1..] + [a];
      RunExtend(Next(s, run[0], limits), run[1..], a, limits);
    }
  }

  lemma {:induction false} RunIsNamed(run: seq<Action>, limits: Limits)
    requires ValidRun(Start(), run, limits)
    ensures Named(run, After(Start(), run, limits))
    decreases |run|
  {
    if run != [] {
      var front, a := run[..|run| - 1], run[|run| - 1];
      assert run == front + [a];
      RunExtend(Start(), front, a, limits);
      RunIsNamed(front, limits);
      var s := After(Start(), front, limits);
      if a.Run? {
        RunNames(front, s, a);
      } else if a.SubmitCall? {
        SubmitNames(front, s, a);
      } else if a.SubmitVerdict? {
        VerdictNames(front, s, a, limits, Next(s, a, limits));
      } else {
        CallbackNames(s, a, limits);
        SameNames(front, s, a, Next(s, a, limits));
      }
    }
  }

  /**
   Main result: a step is resolved only by a submit that named exactly its node and attempt and whose output was
   judged valid; a submit of an earlier attempt, or one judged invalid, never resolves it.
   */
  lemma ResolvedByItsOwn(run: seq<Action>, id: StepId, submit: SubmitId, limits: Limits)
    requires ValidRun(Start(), run, limits) && Resolved(submit) in Settled(After(Start(), run, limits), id)
    ensures exists node, attempt :: SubmitCall(submit, node, attempt) in run && BegunAs(run, id, node, attempt)
    ensures SubmitVerdict(submit, Valid, false) in run
  {
    RunIsNamed(run, limits);
    var node, attempt :| SubmittedAs(run, submit, node, attempt) && BegunAs(run, id, node, attempt);
    assert SubmitCall(submit, node, attempt) in run && BegunAs(run, id, node, attempt);
  }

  predicate Orphans(s: Exec, a: Action)
    requires Enabled(s, a)
  {
    && a.SubmitVerdict? && a.verdict == Valid && a.rangeThrows
    && s.pending.Some? && s.submits[a.submit].step == Some(s.pending.value.id)
  }

  /** A slot clears without a settlement in one way only: a valid answer whose conversation range cannot be read. */
  lemma OrphanedExactly(s: Exec, a: Action, id: StepId, limits: Limits)
    requires Inv(s, limits) && Enabled(s, a) && s.pending.Some? && s.pending.value.id == id
    ensures var s' := Next(s, a, limits);
      (s'.pending.None? && Settled(s', id) == [])
      <==> Orphans(s, a)
  {
    assert StepOk(s, id);
    SlotStep(s, a, limits);
    assert StepOk(Next(s, a, limits), id);
    OrphansStay(s, a, limits);
  }

  lemma OrphansStay(s: Exec, a: Action, limits: Limits)
    requires Enabled(s, a)
    ensures Orphans(s, a) || Next(s, a, limits).orphaned == s.orphaned
    ensures Next(s, a, limits).nextStep >= s.nextStep
  {
    if !a.SubmitVerdict? && !a.SubmitCall? && !a.Run? {
      SlotShape(s, a, limits);
    }
  }

  lemma Prepend(s: Exec, a: Action, run: seq<Action>, limits: Limits)
    requires Enabled(s, a) && ValidRun(Next(s, a, limits), run, limits)
    ensures ValidRun(s, [a] + run, limits) && After(s, [a] + run, limits) == After(Next(s, a, limits), run, limits)
  {
    assert ([a] + run)[1..] == run;
  }

  /** Three calls that leave a step's promise open for ever. */
  lemma RangeThrowOrphansStep(limits: Limits)
    ensures var run := [Run("n", "a", false, Send(false, false, Some(true)))]
                     + ([SubmitCall(7, "n", "a")] + ([SubmitVerdict(7, Valid, true)] + []));
      && ValidRun(Start(), run, limits)
      && var s := After(Start(), run, limits); s.pending.None? && s.nextStep == 1 && Settled(s, 0) == []
  {
    var a, b := Run("n", "a", false, Send(false, false, Some(true))), SubmitCall(7, "n", "a");
    var c := SubmitVerdict(7, Valid, true);
    var s1 := Next(Start(), a, limits);
    var s2 := Next(s1, b, limits);
    assert s2.submits[7] == Submit(Some(0), Awaiting);
    Prepend(s2, c, [], limits);
    Prepend(s1, b, [c] + [], limits);
    Prepend(Start(), a, [b] + ([c] + []), limits);
  }
}
