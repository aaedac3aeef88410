/** What each step of Dispatch, Poll, Cancel and HandleCallback goes on to, by what the repository and the agent answered. */
module ExecutionSteps {
  import opened Wrappers
  import opened Text
  import opened ExecutionCell
  import opened ExecutionRepository
  import opened ExecutionService

  /** An accepted request whose agent reports the execution pending or running. */
  predicate TakenUp(w: World) {
    w.created.Some? && w.created.value.accepted && w.created.value.live
  }

  /**
   Dispatch prepares an attempt, activates it under the lease it reserved, and records that the agent was
   asked; only a definite refusal fails the attempt, a failed call leaves it for redelivery.
   */
  lemma {:induction false} DispatchGoesOn(s: State, id: string, attempt: Attempt, w: World)
    ensures var (t, next, settled) := Run(s, DispatchPrepare(id), w); var (u, r) := On(s, id, c => Prepare(c, id, w.now));
      t == u && settled.None? && (if r.Success? then next == DispatchActivate(id, r.value.0) else next == Done)
    ensures var (t, next, settled) := Run(s, DispatchActivate(id, attempt), w);
      if w.lease.Some? then
        var (u, r) := On(s, id, c => Activate(c, attempt.number, w.lease.value, w.nonceHash, w.keyVersion, w.now));
        t == u && settled.None? && (if r.Success? then next == DispatchRecord(id, r.value) else next == Done)
      else t == s && next == Done && settled.None?
    ensures var (t, next, settled) := Run(s, DispatchRecord(id, attempt), w); var (u, r) := On(s, id, c => RecordDispatch(c, attempt.number));
      && t == u && settled.None?
      && (next == DispatchFail(id, attempt) <==> r.Success? && w.created.Some? && !TakenUp(w))
      && (next == DispatchGet(id) <==> r.Success? && TakenUp(w))
      && (next.DispatchFail? || next.DispatchGet? || next == Done)
    ensures Run(s, DispatchFail(id, attempt), w) == (On(s, id, c => Fail(c, attempt.number, attempt.fencingToken)).0, Done, None)
    ensures Run(s, DispatchGet(id), w) == (s, Done, None)
  {
    hide Prepare, Activate, RecordDispatch, Fail;
  }

  /** Cancel completes at once without an attempt; otherwise it needs a fence to ask with and the agent's consent, unless already cancelled. */
  lemma {:induction false} CancelGoesOn(s: State, id: string, number: int, token: int, w: World)
    ensures var (t, next, settled) := Run(s, Thread.CancelRequested(id), w); var (u, r) := On(s, id, c => RequestCancel(c));
      && t == u && settled.None?
      && (r.Failure? ==> next == Done)
      && (r.Success? && r.value.0.None? ==> next == CancelComplete(id, 0, 0))
      && (r.Success? && r.value.0.Some? ==>
            var attempt := r.value.0.value;
            if attempt.fencingToken > 0 && id in u.executions
               && (w.cancelled == Some(true) || u.executions[id].status == ExecutionStatus.Cancelled)
            then next == CancelComplete(id, attempt.number, attempt.fencingToken) else next == Done)
    ensures Run(s, CancelComplete(id, number, token), w) == (On(s, id, c => CompleteCancel(c, number, token)).0, Done, None)
  {
    hide RequestCancel, CompleteCancel;
  }

  /** Poll asks about the last attempt, if that has a fence to ask with, and with the execution it read first. */
  lemma {:induction false} PollAsks(s: State, id: string, execution: Execution, w: World)
    ensures Run(s, PollGet(id), w) == (s, if id in s.executions then PollCurrent(id, s.executions[id]) else Done, None)
    ensures var (t, next, settled) := Run(s, PollCurrent(id, execution), w);
      && t == s && settled.None?
      && if id in s.attempts && |s.attempts[id]| > 0 && s.attempts[id][|s.attempts[id]| - 1].fencingToken > 0
         then next == PollUsage(execution, s.attempts[id][|s.attempts[id]| - 1]) else next == Done
    ensures Run(s, PollStale(id), w) == (s, Done, None)
  {
  }

  predicate Final(status: ExecutionStatus) {
    status in {Succeeded, ExecutionStatus.Failed, ExecutionStatus.Cancelled}
  }

  predicate Deliverables(w: World) {
    w.deliverable.Some? && ValidDigest(w.deliverable.value.contentHash) && !Blank(w.deliverable.value.deliverableRef)
  }

  /** Poll goes on to observe exactly a final status, once its cost was recorded without a stop, and a success only with its deliverable. */
  lemma {:induction false} PollGoesOn(s: State, execution: Execution, attempt: Attempt, w: World)
    requires w.status.Some? && w.status.value.usedCost.Some? && w.status.value.status in {Running, Succeeded, ExecutionStatus.Failed, ExecutionStatus.Cancelled}
    ensures var (t, next, settled) := Run(s, PollUsage(execution, attempt), w); var id := execution.spec.logicalId;
      var (u, r) := On(s, id, c => RecordUsage(c, attempt.number, attempt.fencingToken, w.status.value.usedCost));
      && t == u
      && (next.PollObserve? <==> r == Success(false) && Final(w.status.value.status) && (w.status.value.status == Succeeded ==> Deliverables(w)))
      && (next == PollStale(id) <==> r == Failure(StaleFence))
      && (next.PollObserve? || next.PollStale? || next == Done)
      && (settled == if r == Success(true) then Some(AttemptId(id, attempt.number)) else None)
  {
    hide On, RecordUsage, ValidDigest, Blank;
  }

  /** An observation and a callback are applied as they are; a first acceptance or cost stop settles their attempt. */
  lemma {:induction false} ReportsGoOn(s: State, o: Observation, callback: Callback, id: string, w: World)
    ensures var (t, next, settled) := Run(s, PollObserve(o), w); var (u, r) := ApplyTerminalObservation(s, o);
      && t == u && next == Done
      && (settled == if r.Success? && !r.value.replay && (r.value.outcome == Accepted || r.value.outcome == CostStop) then Some(o.attemptId) else None)
    ensures var (t, next, settled) := Run(s, CallbackApply(callback), w); var (u, r) := ApplyCallback(s, callback, w.now);
      && t == u
      && if r.Success? && !r.value.replay && (r.value.outcome == Accepted || r.value.outcome == CostStop)
         then next == CallbackCurrent(callback.logicalId) && settled == Some(callback.attemptId)
         else next == Done && settled.None?
    ensures Run(s, CallbackCurrent(id), w) == (s, Done, None) && Run(s, Done, w) == (s, Done, None)
  {
    hide ApplyCallback, ApplyTerminalObservation;
  }

  /** A call from outside starts at its first step, and a callback only after its verification. */
  lemma {:induction false} RequestIff(sys: System, t: Thread)
    ensures Enabled(sys, Start(t)) <==>
      match t
      case Create(_) => true
      case DispatchPrepare(_) => true
      case PollGet(_) => true
      case CancelRequested(_) => true
      case CallbackApply(callback) => Verified(callback)
      case DispatchActivate(_, _) => false
      case DispatchRecord(_, _) => false
      case DispatchFail(_, _) => false
      case DispatchGet(_) => false
      case PollCurrent(_, _) => false
      case PollUsage(_, _) => false
      case PollStale(_) => false
      case PollObserve(_) => false
      case CancelComplete(_, _, _) => false
      case CallbackCurrent(_) => false
      case Done => false
  {
    hide Verified;
  }
}
