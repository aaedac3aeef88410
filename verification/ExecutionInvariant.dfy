/**
 What every operation keeps of one logical execution, and how an execution and its
 attempts may change from one state to a later one.
 */
module ExecutionInvariant {
  import opened Wrappers
  import opened Text
  import opened ExecutionCell

  predicate Ended(status: AttemptStatus) {
    status !in {Prepared, Active}
  }

  predicate Final(status: ExecutionStatus) {
    status in {Succeeded, ExecutionStatus.Cancelled, CostStopped}
  }

  /** Attempts are numbered 1, 2, ... and all but the last one failed or expired. */
  ghost predicate Numbered(c: Cell, id: string) {
    && c.execution.currentAttempt == |c.attempts|
    && (forall i :: 0 <= i < |c.attempts| ==>
          && c.attempts[i].number == i + 1
          && c.attempts[i].attemptId == c.attempts[i].reservationId == AttemptId(id, i + 1)
          && (c.attempts[i].status == Prepared ==> c.attempts[i].fencingToken == 0)
          && (c.attempts[i].status == Active ==> c.attempts[i].fencingToken >= 1))
    && (forall i :: 0 <= i < |c.attempts| - 1 ==> c.attempts[i].status in {AttemptStatus.Failed, Expired})
  }

  /** The execution status determines what the last attempt may be. */
  predicate Fits(c: Cell) {
    match c.execution.status
    case Pending => c.attempts == [] || Last(c).status == Prepared
    case Running => c.attempts != [] && Last(c).status == Active
    case CancelRequested => c.attempts == [] || Last(c).status in {Prepared, Active, AttemptStatus.Failed}
    case Cancelled => c.attempts == [] || Last(c).status == AttemptStatus.Cancelled
    case Succeeded => c.attempts != [] && Last(c).status == Completed
    case Failed => c.attempts != [] && Last(c).status == AttemptStatus.Failed
    case CostStopped => c.attempts != [] && Last(c).status == AttemptStatus.Failed
  }

  /** Content is set exactly when the execution succeeded. */
  predicate Content(e: Execution) {
    && (e.contentHash != "" <==> e.status == Succeeded)
    && (e.deliverableRef != "" <==> e.status == Succeeded)
    && (e.status == Succeeded ==> ValidDigest(e.contentHash))
  }

  predicate Capped(e: Execution) {
    e.usedCost <= e.spec.costCap && (e.status == CostStopped ==> e.usedCost == e.spec.costCap)
  }

  ghost predicate CellOk(c: Cell, id: string) {
    && c.execution.spec.logicalId == id
    && Numbered(c, id) && Fits(c) && Content(c.execution) && Capped(c.execution)
  }

  /** A cancellation recorded before any attempt exists: no attempt can be created any more. */
  predicate Barred(c: Cell) {
    c.attempts == [] && c.execution.status in {CancelRequested, ExecutionStatus.Cancelled}
  }

  /** An attempt keeps its identity, moves forward only, and once ended keeps its status and its fence. */
  predicate AttemptAdvances(a: Attempt, b: Attempt) {
    && b.number == a.number && b.attemptId == a.attemptId && b.dispatchCount >= a.dispatchCount
    && (Ended(a.status) ==> b.status == a.status)
    && (a.status == Active ==> b.status != Prepared)
    && (a.status != Prepared ==> b.fencingToken == a.fencingToken && b.nonceHash == a.nonceHash && b.leaseExpiresAt == a.leaseExpiresAt)
  }

  ghost predicate Advances(c: Cell, d: Cell) {
    && d.execution.spec == c.execution.spec
    && c.execution.usedCost <= d.execution.usedCost
    && (Final(c.execution.status) ==> d == c || (d.execution == c.execution && |d.attempts| == |c.attempts|))
    && |c.attempts| <= |d.attempts|
    && (forall i :: 0 <= i < |c.attempts| ==> AttemptAdvances(c.attempts[i], d.attempts[i]))
    && (Barred(c) ==> Barred(d))
  }

  lemma AdvancesReflexive(c: Cell)
    ensures Advances(c, c)
  {
  }

  lemma AdvancesTransitive(c: Cell, d: Cell, e: Cell)
    requires Advances(c, d) && Advances(d, e)
    ensures Advances(c, e)
  {
    forall i | 0 <= i < |c.attempts|
      ensures AttemptAdvances(c.attempts[i], e.attempts[i])
    {
      assert AttemptAdvances(c.attempts[i], d.attempts[i]) && AttemptAdvances(d.attempts[i], e.attempts[i]);
    }
  }

  /** Rewriting the last attempt forward keeps the list. */
  lemma ReplaceKeeps(c: Cell, id: string, attempt: Attempt)
    requires Numbered(c, id) && c.attempts != [] && AttemptAdvances(Last(c), attempt)
    requires attempt.reservationId == Last(c).reservationId
    requires attempt.status != Prepared && (attempt.status == Active ==> attempt.fencingToken >= 1)
    ensures var d := Replace(c, |c.attempts|, attempt);
      && Numbered(d, id) && Last(d) == attempt
      && forall i :: 0 <= i < |c.attempts| ==> AttemptAdvances(c.attempts[i], d.attempts[i])
  {
  }

  lemma PrepareKeeps(c: Cell, id: string, now: int)
    requires CellOk(c, id)
    ensures CellOk(Prepare(c, id, now).0, id) && Advances(c, Prepare(c, id, now).0)
  {
  }

  lemma ActivateKeeps(c: Cell, id: string, number: int, lease: Lease, nonceHash: string, keyVersion: string, now: int)
    requires CellOk(c, id)
    ensures var d := Activate(c, number, lease, nonceHash, keyVersion, now).0; CellOk(d, id) && Advances(c, d)
  {
    var (d, r) := Activate(c, number, lease, nonceHash, keyVersion, now);
    if r.Success? {
      ReplaceKeeps(c, id, r.value);
    }
  }

  lemma RecordDispatchKeeps(c: Cell, id: string, number: int)
    requires CellOk(c, id)
    ensures var d := RecordDispatch(c, number).0; CellOk(d, id) && Advances(c, d)
  {
  }

  lemma FailKeeps(c: Cell, id: string, number: int, token: int)
    requires CellOk(c, id)
    ensures var d := Fail(c, number, token).0; CellOk(d, id) && Advances(c, d)
  {
  }

  lemma RequestCancelKeeps(c: Cell, id: string)
    requires CellOk(c, id)
    ensures var (d, r) := RequestCancel(c);
      && CellOk(d, id) && Advances(c, d)
      && (r.Success? && r.value.0.None? ==> Barred(d))
      && (r.Success? && r.value.0.Some? ==> d.attempts != [] && r.value.0.value == Last(d) && Last(d).number >= 1)
  {
  }

  /** The precondition is what Cancel guarantees: it passes 0 only when it was given no attempt. */
  lemma CompleteCancelKeeps(c: Cell, id: string, number: int, token: int)
    requires CellOk(c, id) && (number >= 1 || Barred(c))
    ensures var d := CompleteCancel(c, number, token).0; CellOk(d, id) && Advances(c, d)
  {
  }

  lemma RecordUsageKeeps(c: Cell, id: string, number: int, token: int, used: Option<nat>)
    requires CellOk(c, id)
    ensures var (d, r) := RecordUsage(c, number, token, used);
      && CellOk(d, id) && Advances(c, d)
      && (r == Success(true) ==> 1 <= number <= |c.attempts| && Leaves(c, d, number))
  {
  }

  /** The step took this attempt out of `active`. */
  predicate Leaves(c: Cell, d: Cell, number: int)
    requires 1 <= number <= |c.attempts|
  {
    |d.attempts| >= number && c.attempts[number - 1].status == Active && Ended(d.attempts[number - 1].status)
  }

  lemma SettleKeeps(c: Cell, id: string, number: int, report: Report)
    requires CellOk(c, id) && number == |c.attempts| >= 1 && Last(c).status == Active
    requires c.execution.status in {Running, CancelRequested} && report.usedCost >= c.execution.usedCost
    requires report.succeeded ==> ValidDigest(report.contentHash) && !Blank(report.deliverableRef)
    ensures var d := Settle(c, number, report); CellOk(d, id) && Advances(c, d) && Leaves(c, d, number)
  {
    ReplaceKeeps(c, id, Last(Settle(c, number, report)));
  }

  /** Found attempts carry the number that follows their position. */
  lemma FindNumber(c: Cell, id: string, attemptId: AttemptId)
    requires CellOk(c, id)
    ensures var i := Find(c.attempts, attemptId); i < |c.attempts| ==> attemptId == AttemptId(id, i + 1)
  {
  }

  /**
   An accepted or cost-stopping callback takes exactly the attempt it names out of `active`,
   and the branch that reports conflicting content is never reached.
   */
  lemma {:induction false} ReceiveKeeps(c: Cell, id: string, callback: Callback, now: int)
    requires CellOk(c, id) && Verified(callback)
    ensures var (d, r) := Receive(c, callback, now);
      && CellOk(d, id) && Advances(c, d)
      && r != Failure(ContentConflict)
      && (r.Success? && r.value in {Accepted, CostStop} ==>
            callback.attemptId == AttemptId(id, |c.attempts|) && |c.attempts| >= 1 && Leaves(c, d, |c.attempts|))
      && (!(r.Success? && r.value in {Accepted, CostStop}) ==> d == c)
  {
    FindNumber(c, id, callback.attemptId);
    var (d, r) := Receive(c, callback, now);
    if r.Success? && r.value in {Accepted, CostStop} {
      SettleKeeps(c, id, |c.attempts|, callback.report);
    }
  }

  lemma ReconcileKeeps(c: Cell, id: string, o: Observation)
    requires CellOk(c, id) && Observed(o)
    ensures var (d, r) := Reconcile(c, o);
      && CellOk(d, id) && Advances(c, d)
      && (r.Success? && r.value in {Accepted, CostStop} ==>
            o.attemptId == AttemptId(id, |c.attempts|) && |c.attempts| >= 1 && Leaves(c, d, |c.attempts|))
      && (!(r.Success? && r.value in {Accepted, CostStop}) ==> d == c)
  {
    FindNumber(c, id, o.attemptId);
    var (d, r) := Reconcile(c, o);
    if r.Success? && r.value in {Accepted, CostStop} {
      SettleKeeps(c, id, |c.attempts|, o.report);
    }
  }
}
