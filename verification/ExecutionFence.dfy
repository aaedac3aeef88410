/**
 Who may settle an attempt: a callback or an observation that carries the fence the attempt was
 activated with, a callback only while its lease lasts, and what settling then stores.
 */
module ExecutionFence {
  import opened Wrappers
  import opened Text
  import opened ExecutionCell
  import opened ExecutionRepository
  import opened ExecutionService
  import opened ExecutionInvariant
  import opened ExecutionRuns

  /** The last attempt of this execution is the named one, active under this fence and held by this agent. */
  predicate HeldBy(c: Cell, attemptId: AttemptId, agentId: string, token: int) {
    && c.attempts != [] && Last(c).attemptId == attemptId && Last(c).status == Active
    && Last(c).fencingToken == token && c.execution.spec.agentId == agentId
  }

  lemma FindLast(items: seq<Attempt>, attemptId: AttemptId)
    requires Find(items, attemptId) == |items| - 1
    ensures items != [] && items[|items| - 1].attemptId == attemptId
  {
  }

  /** A callback settles an attempt only with its nonce and its fence, and before its lease ends. */
  lemma CallbackNeedsItsFence(s: State, callback: Callback, now: int)
    requires First(ApplyCallback(s, callback, now).1)
    ensures callback.nonceHash !in s.callbacks && callback.logicalId in s.executions
    ensures var c := CellOf(s, callback.logicalId);
      && HeldBy(c, callback.attemptId, callback.agentId, callback.fencingToken)
      && Last(c).nonceHash == callback.nonceHash && now < Last(c).leaseExpiresAt
  {
    hide Settle, Find;
    FindLast(CellOf(s, callback.logicalId).attempts, callback.attemptId);
  }

  lemma ObservationNeedsItsFence(s: State, o: Observation)
    requires First(ApplyTerminalObservation(s, o).1)
    ensures o.attemptId !in s.reconciled && o.logicalId in s.executions
    ensures HeldBy(CellOf(s, o.logicalId), o.attemptId, o.agentId, o.fencingToken)
  {
    hide Settle, Find;
    FindLast(CellOf(s, o.logicalId).attempts, o.attemptId);
  }

  /** The k-th attempt is the one a report names. */
  predicate Names(c: Cell, k: nat, attemptId: AttemptId) {
    k < |c.attempts| && c.attempts[k].attemptId == attemptId
  }

  lemma {:induction false} FoundAt(c: Cell, id: string, k: nat, attemptId: AttemptId)
    requires Numbered(c, id) && Names(c, k, attemptId)
    ensures Find(c.attempts, attemptId) == k
  {
    var i := Find(c.attempts, attemptId);
    assert i <= k && c.attempts[k].attemptId == AttemptId(id, k + 1);
    assert c.attempts[i].attemptId == AttemptId(id, i + 1);
  }

  /** An attempt can no longer be settled by this report: another one followed, or it carries another fence. */
  predicate Outrun(c: Cell, k: nat, token: int)
    requires k < |c.attempts|
  {
    k != |c.attempts| - 1 || c.attempts[k].fencingToken != token
  }

  /** Settled for the first time, with the remote execution to be stopped exactly when the cost went over the cap. */
  predicate Settles(r: Result<Settled, Error>, outcome: Outcome) {
    r.Success? && r.value.outcome == outcome && !r.value.replay && (r.value.shouldCancel <==> outcome == CostStop)
  }

  /**
   What a callback with a new nonce is told. An expired lease or a foreign fence makes it stale, a
   cancelled or ended execution late; cost that falls is invalid, cost over the cap stops the execution.
   */
  lemma {:induction false} CallbackIsTold(s: State, callback: Callback, now: int, k: nat)
    requires StateOk(s) && Verified(callback) && callback.nonceHash !in s.callbacks && callback.logicalId in s.executions
    requires var c := CellOf(s, callback.logicalId); Names(c, k, callback.attemptId) && callback.agentId == c.execution.spec.agentId
    ensures var c := CellOf(s, callback.logicalId); var (e, a) := (c.execution, c.attempts[k]);
      var r := ApplyCallback(s, callback, now).1;
      if a.nonceHash != callback.nonceHash then r == Failure(CallbackReplay)
      else if Outrun(c, k, callback.fencingToken) || now >= a.leaseExpiresAt then r.Success? && r.value.outcome == StaleFenced
      else if e.status in {ExecutionStatus.CancelRequested, ExecutionStatus.Cancelled, CostStopped} || a.status != Active then
        r.Success? && r.value.outcome == Late
      else if callback.report.usedCost < e.usedCost then r == Failure(InvalidCallback)
      else Settles(r, if callback.report.usedCost > e.spec.costCap then CostStop else Accepted)
  {
    hide Settle, Find, KeysOk;
    var id := callback.logicalId;
    FoundAt(CellOf(s, id), id, k, callback.attemptId);
    hide Numbered, Fits;
    assert CellOk(CellOf(s, id), id);
    ReceiveKeeps(CellOf(s, id), id, callback, now);
  }

  /** Which reports are let through to the repository: a success with checked content, or a failure without any. */
  lemma VerifiedIff(callback: Callback)
    ensures Verified(callback) <==>
      && (callback.report.succeeded ==> ValidDigest(callback.report.contentHash) && !Blank(callback.report.deliverableRef))
      && (!callback.report.succeeded ==> |callback.report.contentHash| + |callback.report.deliverableRef| == 0)
  {
    hide Blank, ValidDigest;
    var r := callback.report;
    if |r.contentHash| == 0 && |r.deliverableRef| == 0 {
      assert r.contentHash == "" && r.deliverableRef == "";
    }
  }

  /** A callback about an unknown execution, an unknown attempt or from another agent. */
  lemma StrangersAreRefused(s: State, callback: Callback, now: int)
    requires callback.nonceHash !in s.callbacks
    ensures callback.logicalId !in s.executions ==> ApplyCallback(s, callback, now) == (s, Failure(NotFound))
    ensures callback.logicalId in s.executions
         && (callback.agentId != s.executions[callback.logicalId].spec.agentId
             || (forall k: nat :: !Names(CellOf(s, callback.logicalId), k, callback.attemptId)))
         ==> ApplyCallback(s, callback, now) == (s, Failure(InvalidCallback))
  {
    hide Settle;
    if callback.logicalId in s.executions {
      var c := CellOf(s, callback.logicalId);
      var i := Find(c.attempts, callback.attemptId);
      assert i < |c.attempts| ==> Names(c, i, callback.attemptId);
    }
  }

  /** What an observation of an attempt that was not reconciled before is told. */
  lemma {:induction false} ObservationIsTold(s: State, o: Observation, k: nat)
    requires StateOk(s) && Observed(o) && o.attemptId !in s.reconciled && o.logicalId in s.executions
    requires var c := CellOf(s, o.logicalId); Names(c, k, o.attemptId) && o.agentId == c.execution.spec.agentId
    ensures var c := CellOf(s, o.logicalId); var (e, a) := (c.execution, c.attempts[k]);
      var r := ApplyTerminalObservation(s, o).1;
      if Outrun(c, k, o.fencingToken) then r.Success? && r.value.outcome == StaleFenced
      else if e.status in {Succeeded, ExecutionStatus.Failed, ExecutionStatus.Cancelled, CostStopped} || a.status != Active then
        if o.report.usedCost == e.usedCost
           && (if o.status == Succeeded then
                 e.status == Succeeded && e.contentHash == o.report.contentHash && e.deliverableRef == o.report.deliverableRef
               else e.status == ExecutionStatus.Failed)
        then r.Success? && r.value.outcome == AlreadyTerminal else r == Failure(ContentConflict)
      else if e.status == ExecutionStatus.CancelRequested then r.Success? && r.value.outcome == Late
      else if o.report.usedCost < e.usedCost then r == Failure(InvalidInput)
      else Settles(r, if o.report.usedCost > e.spec.costCap then CostStop else Accepted)
  {
    hide Settle, Find, KeysOk;
    var id := o.logicalId;
    FoundAt(CellOf(s, id), id, k, o.attemptId);
  }

  // ---- what settling stores ----

  /** Only the last attempt and the execution changed. */
  predicate OthersStay(c: Cell, d: Cell) {
    && |d.attempts| == |c.attempts| >= 1 && d.attempts[..|d.attempts| - 1] == c.attempts[..|c.attempts| - 1]
    && d.execution.spec == c.execution.spec && d.execution.currentAttempt == c.execution.currentAttempt
  }

  /** The outcome of an attempt as it is reported is what the execution and its attempt show from then on. */
  predicate Shows(c: Cell, d: Cell, report: Report) {
    && OthersStay(c, d)
    && (if report.usedCost > c.execution.spec.costCap then
          && d.execution.status == CostStopped && d.execution.usedCost == c.execution.spec.costCap
          && d.execution.contentHash == c.execution.contentHash && d.execution.deliverableRef == c.execution.deliverableRef
          && Last(d) == Last(c).(status := AttemptStatus.Failed)
        else if report.succeeded then
          && d.execution.status == Succeeded && d.execution.usedCost == report.usedCost
          && d.execution.contentHash == report.contentHash && d.execution.deliverableRef == report.deliverableRef
          && Last(d) == Last(c).(status := Completed)
        else
          && d.execution.status == ExecutionStatus.Failed && d.execution.usedCost == report.usedCost
          && d.execution.contentHash == c.execution.contentHash && d.execution.deliverableRef == c.execution.deliverableRef
          && Last(d) == Last(c).(status := AttemptStatus.Failed))
  }

  /** A settling callback stores exactly its report, answers with it, and touches no other execution. */
  lemma {:induction false} CallbackStores(s: State, callback: Callback, now: int)
    requires First(ApplyCallback(s, callback, now).1)
    ensures var (t, r) := ApplyCallback(s, callback, now); var id := callback.logicalId;
      && id in s.executions && id in t.executions && Shows(CellOf(s, id), CellOf(t, id), callback.report)
      && r.value.execution == t.executions[id]
      && t.executions.Keys == s.executions.Keys
      && forall other :: other in s.executions && other != id ==> CellOf(t, other) == CellOf(s, other)
  {
    hide Find;
    CallbackNeedsItsFence(s, callback, now);
  }

  lemma {:induction false} ObservationStores(s: State, o: Observation)
    requires First(ApplyTerminalObservation(s, o).1)
    ensures var (t, r) := ApplyTerminalObservation(s, o); var id := o.logicalId;
      && id in s.executions && id in t.executions && Shows(CellOf(s, id), CellOf(t, id), o.report)
      && r.value.execution == t.executions[id]
      && t.executions.Keys == s.executions.Keys
      && forall other :: other in s.executions && other != id ==> CellOf(t, other) == CellOf(s, other)
  {
    hide Find;
    ObservationNeedsItsFence(s, o);
  }

  // ---- over runs ----

  /** The fence that a settling thread carries. */
  function FenceOf(t: Thread): int {
    match t
    case CallbackApply(callback) => callback.fencingToken
    case PollObserve(o) => o.fencingToken
    case PollUsage(_, attempt) => attempt.fencingToken
    case _ => 0
  }

  /** The attempt that a step settles is active under the fence that its thread carries. */
  lemma {:induction false} SettlesUnderFence(s: State, t: Thread, w: World, attemptId: AttemptId)
    requires StateOk(s) && Run(s, t, w).2 == Some(attemptId)
    ensures var items := AttemptsOf(s, attemptId.logicalId);
      && attemptId.number == |items| >= 1
      && items[|items| - 1].status == Active && items[|items| - 1].fencingToken == FenceOf(t)
      && (t.CallbackApply? ==>
            w.now < items[|items| - 1].leaseExpiresAt && items[|items| - 1].nonceHash == t.callback.nonceHash)
  {
    hide ApplyCallback, ApplyTerminalObservation, KeysOk, StopForCost, PollStep;
    match t
    case CallbackApply(callback) =>
      CallbackNeedsItsFence(s, callback, w.now);
      assert Numbered(CellOf(s, callback.logicalId), callback.logicalId);
    case PollObserve(o) =>
      ObservationNeedsItsFence(s, o);
      assert Numbered(CellOf(s, o.logicalId), o.logicalId);
    case PollUsage(execution, attempt) => UsageUnderFence(s, execution, attempt, w, attemptId);
    case _ =>
  }

  lemma {:induction false} UsageUnderFence(s: State, execution: Execution, attempt: Attempt, w: World, attemptId: AttemptId)
    requires StateOk(s) && PollStep(s, execution, attempt, w).2 == Some(attemptId)
    ensures var items := AttemptsOf(s, attemptId.logicalId);
      && attemptId.number == |items| >= 1
      && items[|items| - 1].status == Active && items[|items| - 1].fencingToken == attempt.fencingToken
  {
    hide KeysOk, StopForCost, Observe;
    var id := execution.spec.logicalId;
    assert id in s.executions ==> Numbered(CellOf(s, id), id);
  }

  predicate EndsIn(items: seq<Attempt>, status: AttemptStatus) {
    items != [] && items[|items| - 1].status == status
  }

  /** An activation that took effect wrote the lease, the nonce and the fence of its world into the attempt. */
  lemma {:induction false} ActivatedWith(s: State, t: Thread, w: World)
    requires StateOk(s) && t.DispatchActivate?
    requires EndsIn(AttemptsOf(s, t.id), Prepared) && EndsIn(AttemptsOf(Run(s, t, w).0, t.id), Active)
    ensures var after := AttemptsOf(Run(s, t, w).0, t.id);
      && w.lease.Some? && |after| == |AttemptsOf(s, t.id)|
      && after[|after| - 1].fencingToken == w.lease.value.fencingToken >= 1
      && after[|after| - 1].leaseExpiresAt == w.lease.value.expiresAt > w.now
      && after[|after| - 1].nonceHash == w.nonceHash
  {
    hide KeysOk, ValidDigest;
    assert t.id in s.executions ==> Numbered(CellOf(s, t.id), t.id);
  }

  /**
   On every schedule, whatever settles an attempt carries the fence of the lease it was activated with,
   and a callback that does comes before that lease ends and with the nonce handed out then.
   */
  lemma {:induction false} SettledUnderItsLease(actions: seq<Action>, i: nat, w: World, more: seq<Action>, j: nat, u: World)
    requires var sys := Execute(INITIAL, actions); i < |sys.threads| && sys.threads[i].DispatchActivate?
    requires var sys := Execute(INITIAL, actions); var id := sys.threads[i].id; var act := Step(sys, Resume(i, w)).0;
      && EndsIn(AttemptsOf(sys.state, id), Prepared) && EndsIn(AttemptsOf(act.state, id), Active)
    requires var sys := Execute(INITIAL, actions); var id := sys.threads[i].id;
      var later := Execute(Step(sys, Resume(i, w)).0, more);
      j < |later.threads| && Step(later, Resume(j, u)).1 == Some(AttemptId(id, |AttemptsOf(sys.state, id)|))
    ensures var t := Execute(Step(Execute(INITIAL, actions), Resume(i, w)).0, more).threads[j];
      && w.lease.Some? && FenceOf(t) == w.lease.value.fencingToken
      && (t.CallbackApply? ==> u.now < w.lease.value.expiresAt && t.callback.nonceHash == w.nonceHash)
  {
    hide Run, StateOk, ThreadOk, KeysOk;
    InitialOk();
    RunsKeep(INITIAL, actions);
    var sys := Execute(INITIAL, actions);
    var act := Step(sys, Resume(i, w)).0;
    StepKeeps(sys, Resume(i, w));
    RunsKeep(act, more);
    var later := Execute(act, more);
    var id := sys.threads[i].id;
    var n := |AttemptsOf(sys.state, id)|;
    ActivatedWith(sys.state, sys.threads[i], w);
    SettlesUnderFence(later.state, later.threads[j], u, AttemptId(id, n));
    AttemptLeads(act.state, later.state, id, n);
  }

  lemma AttemptLeads(s: State, t: State, id: string, n: nat)
    requires StateOk(s) && Leads(s, t) && 1 <= n <= |AttemptsOf(s, id)|
    ensures n <= |AttemptsOf(t, id)| && AttemptAdvances(AttemptsOf(s, id)[n - 1], AttemptsOf(t, id)[n - 1])
  {
    assert id in s.attempts && id in s.executions;
    assert Advances(CellOf(s, id), CellOf(t, id));
  }
}
