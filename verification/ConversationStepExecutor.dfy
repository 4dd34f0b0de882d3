/**
 The executor object itself: its fields, and the pending step it shares with the
 callbacks it hands out. Every method does to the fields what one step of
 `StepExecutor` does to the state.
 */
module ConversationStepExecutor {
  import opened Options
  import opened StepExecutor

  class PendingStep {
    const id: StepId
    const node: string
    const attempt: string
    var nudgesSent: nat
    var providerRetriesSent: nat
    var activationRetriesSent: nat
    var deliveryGeneration: nat
    var delivered: bool
    var activationTimer: Option<nat>
    var seenAgentStart: bool
    ghost var resumes: nat

    constructor (id: StepId, node: string, attempt: string)
      ensures this.id == id && View() == Pending(id, node, attempt, 0, 0, 0, 0, false, None, false, 0)
    {
      this.id, this.node, this.attempt := id, node, attempt;
      nudgesSent, providerRetriesSent, activationRetriesSent, deliveryGeneration := 0, 0, 0, 0;
      delivered, activationTimer, seenAgentStart, resumes := false, None, false, 0;
    }

    ghost function View(): Pending
      reads this
    {
      Pending(id, node, attempt, nudgesSent, providerRetriesSent, activationRetriesSent, deliveryGeneration,
              delivered, activationTimer, seenAgentStart, resumes)
    }
  }

  class Executor {
    const limits: Limits
    var pending: PendingStep?
    var streaming: bool
    var heldByUser: bool
    var resumeRequiresPrompt: bool
    var nextStep: StepId
    var settled: map<StepId, seq<Settlement>>
    var submits: map<SubmitId, Submit>
    ghost var orphaned: set<StepId>

    constructor (limits: Limits)
      ensures this.limits == limits && View() == Start() && pending == null
    {
      this.limits := limits;
      pending := null;
      streaming, heldByUser, resumeRequiresPrompt := false, false, false;
      nextStep, settled, submits, orphaned := 0, map[], map[], {};
    }

    ghost function View(): Exec
      reads this, pending
    {
      Exec(if pending == null then None else Some(pending.View()), streaming, heldByUser, resumeRequiresPrompt,
           nextStep, settled, submits, orphaned)
    }

    /** The delivery generation of the pending step, 0 when there is none. */
    function Generation(): nat
      reads this, pending
    {
      if pending == null then 0 else pending.deliveryGeneration
    }

    method Settle(id: StepId, how: Settlement)
      modifies this`settled
      ensures settled == old(settled)[id := (if id in old(settled) then old(settled)[id] else []) + [how]]
    {
      settled := settled[id := (if id in settled then settled[id] else []) + [how]];
    }

    /** `clearPending` and the rejection that follows it. */
    method FailPending()
      requires pending != null
      modifies this`pending, this`settled, pending
      ensures View() == Fail(old(View())) && pending == null
    {
      var id := pending.id;
      pending.activationTimer := None;
      pending := null;
      Settle(id, Rejected);
    }

    method SetStreaming(on: bool)
      modifies this`streaming, pending
      ensures View() == AfterStreaming(old(View()), on) && pending == old(pending)
      ensures streaming == on
      ensures pending != null ==>
        && pending.seenAgentStart == (old(pending.seenAgentStart) || (on && pending.delivered))
        && pending.activationTimer == if on && pending.delivered then None else old(pending.activationTimer)
    {
      streaming := on;
      if on && pending != null && pending.delivered {
        pending.seenAgentStart := true;
        pending.activationTimer := None;
      }
    }

    method Hold(interrupted: bool)
      modifies this`heldByUser, this`resumeRequiresPrompt, pending
      ensures View() == AfterHold(old(View()), interrupted) && pending == old(pending)
      ensures heldByUser && resumeRequiresPrompt == (old(resumeRequiresPrompt) || interrupted)
      ensures pending != null ==> pending.activationTimer == None
    {
      heldByUser := true;
      if interrupted { resumeRequiresPrompt := true; }
      if pending != null { pending.activationTimer := None; }
    }

    /** The callback compares the step it was made for with the pending one. */
    method HandlePromptSent(step: PendingStep, generation: nat, active: bool)
      requires pending != null && pending.id == step.id ==> pending == step
      modifies pending
      ensures View() == AfterSent(old(View()), step.id, generation, active) && pending == old(pending)
      ensures var counts := pending == step && old(step.deliveryGeneration) == generation && !old(step.delivered);
        && (!counts ==> View() == old(View()))
        && (counts ==> step.delivered)
        && (counts ==> step.seenAgentStart == (old(step.seenAgentStart) || (!heldByUser && (active || streaming))))
        && (counts && !heldByUser && !active && !streaming ==> step.activationTimer == Some(generation))
    {
      if pending != step || step.deliveryGeneration != generation || step.delivered { return; }
      step.delivered := true;
      if heldByUser { return; }
      if active || streaming {
        step.seenAgentStart := true;
        return;
      }
      step.activationTimer := Some(generation);
    }

    method DeliverPrompt(send: Send)
      requires pending != null
      modifies pending
      ensures View() == Delivering(old(View()), send) && pending == old(pending)
      ensures pending.deliveryGeneration == old(pending.deliveryGeneration) + 1
      ensures pending.delivered == send.sentNow.Some?
      ensures send.sentNow.None? ==> !pending.seenAgentStart && pending.activationTimer == None
    {
      pending.activationTimer := None;
      pending.deliveryGeneration := pending.deliveryGeneration + 1;
      pending.delivered := false;
      pending.seenAgentStart := false;
      if send.sentNow.Some? { HandlePromptSent(pending, pending.deliveryGeneration, send.sentNow.value); }
    }

    /** Begin an attempt and deliver; any throw clears the slot and rejects. */
    method Redeliver(send: Send) returns (ok: bool)
      requires pending != null
      modifies this`pending, this`settled, pending
      ensures View() == StepExecutor.Redeliver(old(View()), send)
      ensures ok == !(send.hookThrows || send.throws)
      ensures ok ==> pending == old(pending) && pending.deliveryGeneration == old(pending.deliveryGeneration) + 1
    {
      if send.hookThrows {
        FailPending();
        return false;
      }
      DeliverPrompt(send);
      if send.throws {
        FailPending();
        return false;
      }
      return true;
    }

    /** Deliver once more after a hold. */
    method Resume(send: Send) returns (ok: bool)
      requires pending != null
      modifies this`pending, this`settled, pending
      ensures var p := old(pending.View());
        View() == StepExecutor.Redeliver(Put(old(View()), p.(resumes := p.resumes + 1)), send)
      ensures ok == !(send.hookThrows || send.throws)
      ensures ok ==> pending == old(pending) && pending.deliveryGeneration == old(pending.deliveryGeneration) + 1
    {
      pending.resumes := pending.resumes + 1;
      ok := Redeliver(send);
    }

    method Release(send: Send)
      modifies this`heldByUser, this`resumeRequiresPrompt, this`pending, this`settled, pending
      ensures View() == AfterRelease(old(View()), send)
      ensures !old(heldByUser) ==> View() == old(View())
      ensures old(heldByUser) ==> !heldByUser && !resumeRequiresPrompt
      ensures old(heldByUser) && old(resumeRequiresPrompt) && old(pending) != null ==>
        if send.hookThrows || send.throws then pending == null
        else pending == old(pending) && pending.deliveryGeneration == old(Generation()) + 1
      ensures old(heldByUser) && !old(resumeRequiresPrompt) && old(pending) != null ==>
        pending == old(pending) && pending.deliveryGeneration == old(Generation())
    {
      if !heldByUser { return; }
      heldByUser := false;
      var redeliver := resumeRequiresPrompt;
      resumeRequiresPrompt := false;
      if pending == null { return; }
      if !redeliver {
        if !pending.seenAgentStart && pending.delivered {
          pending.activationTimer := Some(pending.deliveryGeneration);
        }
        return;
      }
      var _ := Resume(send);
    }

    method RunAgentStep(node: string, attempt: string, aborted: bool, send: Send) returns (step: PendingStep?)
      modifies this`pending, this`nextStep, this`settled
      ensures View() == AfterRun(old(View()), node, attempt, aborted, send)
      ensures old(pending) == null && pending != null ==> pending == step && fresh(step)
      ensures nextStep == old(nextStep) + 1
      ensures old(pending) != null ==> pending == old(pending) && step == null
      ensures old(pending) == null ==> (pending != null <==> !send.hookThrows && !aborted && !send.throws)
      ensures old(pending) == null && pending != null ==>
        pending.id == old(nextStep) && pending.node == node && pending.attempt == attempt &&
        pending.deliveryGeneration == 1 && settled == old(settled)
      ensures old(pending) != null || pending == null ==>
        settled == old(settled)[old(nextStep) := old(StepExecutor.Settled(View(), nextStep)) + [Rejected]]
    {
      var id := nextStep;
      nextStep := nextStep + 1;
      if pending != null || send.hookThrows {
        Settle(id, Rejected);
        return null;
      }
      step := new PendingStep(id, node, attempt);
      pending := step;
      if aborted {
        FailPending();
        return;
      }
      DeliverPrompt(send);
      if send.throws { FailPending(); }
    }

    method HandleActivationTimeout(send: Send)
      requires pending != null && pending.activationTimer.Some?
      modifies this`pending, this`settled, pending
      ensures View() == AfterTimer(old(View()), send, limits)
      ensures old(!heldByUser && pending.deliveryGeneration == pending.activationTimer.value &&
                  !pending.seenAgentStart && pending.delivered) ==>
        if limits.activation <= old(pending.activationRetriesSent) || send.hookThrows || send.throws then
          pending == null
        else
          && pending == old(pending) && pending.deliveryGeneration == old(pending.deliveryGeneration) + 1
          && pending.activationRetriesSent == old(pending.activationRetriesSent) + 1
          && pending.nudgesSent == old(pending.nudgesSent)
          && pending.providerRetriesSent == old(pending.providerRetriesSent)
    {
      var generation := pending.activationTimer.value;
      pending.activationTimer := None;
      if heldByUser || pending.deliveryGeneration != generation || pending.seenAgentStart || !pending.delivered {
        return;
      }
      if limits.activation <= pending.activationRetriesSent {
        FailPending();
        return;
      }
      pending.activationRetriesSent := pending.activationRetriesSent + 1;
      var _ := Redeliver(send);
    }

    method RetryProvider(send: Send) returns (again: bool)
      requires pending != null
      modifies this`pending, this`settled, pending
      ensures View() == RetriedProvider(old(View()), send, limits)
      ensures again <==> old(pending.providerRetriesSent) < limits.provider && !send.hookThrows && !send.throws
      ensures again ==> pending == old(pending) && pending.deliveryGeneration == old(pending.deliveryGeneration) + 1
    {
      if limits.provider <= pending.providerRetriesSent {
        FailPending();
        return false;
      }
      pending.providerRetriesSent := pending.providerRetriesSent + 1;
      again := Redeliver(send);
    }

    method Nudge(send: Send) returns (again: bool)
      requires pending != null
      modifies this`pending, this`settled, pending
      ensures View() == Nudged(old(View()), send, limits)
      ensures again <==> old(pending.nudgesSent) < limits.nudges && !send.hookThrows && !send.throws
      ensures again ==> pending == old(pending) && pending.deliveryGeneration == old(pending.deliveryGeneration) + 1
    {
      if limits.nudges <= pending.nudgesSent {
        FailPending();
        return false;
      }
      pending.nudgesSent := pending.nudgesSent + 1;
      again := Redeliver(send);
    }

    /** True only when another delivery went out. */
    method HandleAgentSettled(outcome: TurnOutcome, send: Send) returns (again: bool)
      modifies this, pending
      ensures View() == AfterSettled(old(View()), outcome, send, limits)
      ensures again <==>
        && old(pending != null && pending.seenAgentStart && !heldByUser) && !send.hookThrows && !send.throws
        && ((outcome.SemanticSettle? && old(pending.nudgesSent) < limits.nudges) ||
            ((outcome.ProviderRetryable? || outcome.ContextOverflow?) &&
             old(pending.providerRetriesSent) < limits.provider))
      ensures old(pending != null && pending.seenAgentStart && heldByUser) ==>
        pending == old(pending) && resumeRequiresPrompt == (old(resumeRequiresPrompt) || !outcome.UserAbort?)
      ensures again ==>
        && old(pending) != null && pending == old(pending)
        && pending.deliveryGeneration == old(if pending == null then 0 else pending.deliveryGeneration) + 1
    {
      if pending == null || !pending.seenAgentStart { return false; }
      if heldByUser {
        if !outcome.UserAbort? { resumeRequiresPrompt := true; }
        return false;
      }
      if outcome.UserAbort? { return false; }
      if outcome.ProviderTerminal? {
        FailPending();
        return false;
      }
      if outcome.SemanticSettle? {
        again := Nudge(send);
      } else {
        again := RetryProvider(send);
      }
    }

    /** The abort listener of one request. */
    method OnAbort(id: StepId)
      modifies this`pending, this`settled, pending
      ensures View() == AfterAbort(old(View()), id)
      ensures old(pending == null || pending.id != id) ==> View() == old(View())
      ensures old(pending != null && pending.id == id) ==>
        pending == null && settled == old(settled)[id := old(StepExecutor.Settled(View(), id)) + [Rejected]]
    {
      if pending == null || pending.id != id { return; }
      FailPending();
    }

    /** `submit` up to the start of validation. */
    method Submit(submit: SubmitId, node: string, attempt: string) returns (awaiting: bool)
      modifies this`submits
      ensures View() == AfterSubmit(old(View()), submit, node, attempt)
      ensures awaiting <==> pending != null && pending.node == node && pending.attempt == attempt
      ensures submits == old(submits)[submit :=
        if awaiting then StepExecutor.Submit.Submit(Some(pending.id), Awaiting)
        else StepExecutor.Submit.Submit(None, Refused)]
    {
      awaiting := pending != null && pending.node == node && pending.attempt == attempt;
      submits := submits[submit := if awaiting then StepExecutor.Submit.Submit(Some(pending.id), Awaiting)
                                   else StepExecutor.Submit.Submit(None, Refused)];
    }

    /** `submit` once its validation has ended or the step was cleared. */
    method FinishSubmit(submit: SubmitId, verdict: Verdict, rangeThrows: bool) returns (accepted: bool)
      requires submit in submits
      modifies this`pending, this`settled, this`submits, this`orphaned, pending
      ensures View() == AfterVerdict(old(View()), submit, verdict, rangeThrows)
      ensures var ours := old(pending != null && Some(pending.id) == submits[submit].step);
        && (accepted <==> ours && verdict == Valid && !rangeThrows)
        && (pending == null <==> old(pending) == null || (ours && verdict == Valid))
        && (accepted ==>
              settled == old(settled)[old(submits)[submit].step.value :=
                old(StepExecutor.Settled(View(), submits[submit].step.value)) + [Resolved(submit)]])
        && (!accepted ==> settled == old(settled))
        && submits == old(submits)[submit := StepExecutor.Submit.Submit(old(submits)[submit].step,
             if accepted then Accepted
             else if verdict == ValidationThrows || (ours && verdict == Valid) then SubmitState.Failed
             else Refused)]
    {
      if verdict.ValidationThrows? {
        submits := submits[submit := submits[submit].(state := SubmitState.Failed)];
        return false;
      }
      if pending == null || Some(pending.id) != submits[submit].step || verdict.Invalid? {
        submits := submits[submit := submits[submit].(state := Refused)];
        return false;
      }
      var id := pending.id;
      pending.activationTimer := None;
      pending := null;
      if rangeThrows {
        orphaned := orphaned + {id};
        submits := submits[submit := submits[submit].(state := SubmitState.Failed)];
        return false;
      }
      Settle(id, Resolved(submit));
      submits := submits[submit := submits[submit].(state := Accepted)];
      return true;
    }
  }
}
