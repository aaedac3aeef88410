/**
 When each operation of the execution repository answers what, and what it leaves: the guards and the
 effects of the operations on one execution, and what Poll makes of the agent's replies.
 */
module ExecutionOutcomes {
  import opened Wrappers
  import opened Text
  import opened ExecutionCell
  import opened ExecutionRepository
  import opened ExecutionService
  import opened ExecutionInvariant

  /** Nothing about the attempts changed. */
  predicate SameAttempts(c: Cell, d: Cell) {
    d.attempts == c.attempts && d.execution.currentAttempt == c.execution.currentAttempt
  }

  /** Only the status of the execution changed, to this one. */
  predicate BecomesOnly(e: Execution, f: Execution, status: ExecutionStatus) {
    && f.status == status && f.spec == e.spec && f.currentAttempt == e.currentAttempt && f.usedCost == e.usedCost
    && f.contentHash == e.contentHash && f.deliverableRef == e.deliverableRef
  }

  /** Of the attempts only the last one changed. */
  predicate LastChanges(c: Cell, d: Cell) {
    |d.attempts| == |c.attempts| >= 1 && forall i :: 0 <= i < |c.attempts| - 1 ==> d.attempts[i] == c.attempts[i]
  }

  /** The last attempt can still be used: it waits for its lease or holds one that lasts. */
  predicate Usable(c: Cell, now: int) {
    c.attempts != [] &&
    match Last(c).status
    case Prepared => true
    case Active => now < Last(c).leaseExpiresAt
    case _ => false
  }

  /** A usable attempt is handed out again; otherwise the next one starts blank, unless the execution takes none. */
  lemma {:induction false} PrepareOutcome(c: Cell, id: string, now: int)
    requires CellOk(c, id)
    ensures var (d, r) := Prepare(c, id, now);
      && (r.Failure? <==> c.execution.status in {Succeeded, ExecutionStatus.Cancelled, ExecutionStatus.CancelRequested, CostStopped})
      && (r.Failure? ==> r.error == InvalidState && d == c)
      && (r.Success? && Usable(c, now) ==> d == c && r.value == (c.attempts[|c.attempts| - 1], true))
      && (r.Success? && !Usable(c, now) ==>
            && !r.value.1 && |d.attempts| == |c.attempts| + 1 && r.value.0 == d.attempts[|c.attempts|]
            && BecomesOnly(c.execution.(currentAttempt := |c.attempts| + 1), d.execution, Pending)
            && var a := r.value.0;
               a.number == |c.attempts| + 1 && a.attemptId == a.reservationId == AttemptId(id, a.number) && a.status == Prepared
               && a.fencingToken == 0 && a.leaseExpiresAt == 0 && a.nonceHash == "" && a.nonceKeyVersion == "" && a.dispatchCount == 0)
      && (r.Success? && !Usable(c, now) ==>
            forall i :: 0 <= i < |c.attempts| ==>
              d.attempts[i] == if c.attempts[i].status == Active then c.attempts[i].(status := Expired) else c.attempts[i])
  {
  }

  /** The operation names the current attempt. */
  predicate Current(c: Cell, number: int) {
    c.attempts != [] && number == |c.attempts|
  }

  predicate LeaseFits(c: Cell, lease: Lease, nonceHash: string, keyVersion: string, now: int)
    requires c.attempts != []
  {
    && lease.agentId == c.execution.spec.agentId && lease.reservationId == Last(c).reservationId && lease.fencingToken >= 1
    && now < lease.expiresAt && ValidDigest(nonceHash) && keyVersion != ""
  }

  /** A fitting lease fences the prepared attempt, and the active one answers again only to the very same fence, nonce and key. */
  lemma {:induction false} ActivateOutcome(c: Cell, id: string, number: int, lease: Lease, nonceHash: string, keyVersion: string, now: int)
    requires CellOk(c, id)
    ensures var (d, r) := Activate(c, number, lease, nonceHash, keyVersion, now);
      && (!Current(c, number) ==> r == Failure(StaleFence))
      && (Current(c, number) && !LeaseFits(c, lease, nonceHash, keyVersion, now) ==> r == Failure(InvalidInput))
      && (Current(c, number) && LeaseFits(c, lease, nonceHash, keyVersion, now) ==>
            match Last(c).status
            case Prepared => r == Success(d.attempts[|d.attempts| - 1]) && LastChanges(c, d)
                && BecomesOnly(c.execution, d.execution, Running)
                && Last(d).status == Active && Last(d).fencingToken == lease.fencingToken && Last(d).leaseExpiresAt == lease.expiresAt
                && Last(d).nonceHash == nonceHash && Last(d).nonceKeyVersion == keyVersion && Last(d).number == number
                && Last(d).attemptId == Last(c).attemptId && Last(d).reservationId == Last(c).reservationId
                && Last(d).dispatchCount == Last(c).dispatchCount
            case Active =>
              r == if Last(c).fencingToken == lease.fencingToken && Last(c).nonceHash == nonceHash && Last(c).nonceKeyVersion == keyVersion
                   then Success(Last(c)) else Failure(StaleFence)
            case _ => r == Failure(InvalidState))
      && (d != c ==> Current(c, number) && Last(c).status == Prepared && r.Success?)
  {
    hide ValidDigest;
  }

  /** A dispatch is counted on the active current attempt. */
  lemma {:induction false} RecordDispatchOutcome(c: Cell, id: string, number: int)
    requires CellOk(c, id)
    ensures var (d, r) := RecordDispatch(c, number);
      && (r.Success? <==> Current(c, number) && Last(c).status == Active)
      && (r.Success? ==> LastChanges(c, d) && d.execution == c.execution
                         && Last(d) == Last(c).(dispatchCount := Last(c).dispatchCount + 1))
      && (r.Failure? ==> d == c && r.error == if Current(c, number) then InvalidState else StaleFence)
  {
  }

  /** Only the holder of the fence fails its attempt, and failing it again changes nothing. */
  lemma {:induction false} FailOutcome(c: Cell, id: string, number: int, token: int)
    requires CellOk(c, id)
    ensures var (d, r) := Fail(c, number, token); var mine := Current(c, number) && Last(c).fencingToken == token;
      && (r.Success? <==> mine && Last(c).status in {Active, AttemptStatus.Failed})
      && (r.Failure? ==> r.error == if mine then InvalidState else StaleFence)
      && (d != c <==> mine && Last(c).status == Active)
      && (d != c ==> LastChanges(c, d) && BecomesOnly(c.execution, d.execution, ExecutionStatus.Failed)
                     && Last(d) == Last(c).(status := AttemptStatus.Failed))
  {
  }

  /** A cancellation is recorded on everything that has not ended otherwise, and answers with the last attempt. */
  lemma {:induction false} RequestCancelOutcome(c: Cell)
    ensures var (d, r) := RequestCancel(c);
      && (r.Failure? <==> c.execution.status in {Succeeded, CostStopped})
      && (r.Failure? ==> r.error == InvalidState && d == c)
      && (r.Success? ==>
            && SameAttempts(c, d)
            && (r.value.0.None? <==> c.attempts == []) && (r.value.0.Some? ==> r.value.0.value == c.attempts[|c.attempts| - 1])
            && (r.value.1 <==> c.execution.status in {ExecutionStatus.Cancelled, ExecutionStatus.CancelRequested})
            && BecomesOnly(c.execution, d.execution,
                           if c.execution.status == ExecutionStatus.Cancelled then ExecutionStatus.Cancelled
                           else ExecutionStatus.CancelRequested))
  {
  }

  /** A requested cancellation is completed without an attempt, or by the fence of a current attempt that did not end otherwise. */
  lemma {:induction false} CompleteCancelOutcome(c: Cell, id: string, number: int, token: int)
    requires CellOk(c, id)
    ensures var (d, r) := CompleteCancel(c, number, token); var e := c.execution;
      && (e.status == ExecutionStatus.Cancelled ==> d == c && r == Success(()))
      && (e.status !in {ExecutionStatus.Cancelled, ExecutionStatus.CancelRequested} ==> d == c && r == Failure(InvalidState))
      && (e.status == ExecutionStatus.CancelRequested && number <= 0 ==>
            r == Success(()) && SameAttempts(c, d) && BecomesOnly(e, d.execution, ExecutionStatus.Cancelled))
      && (e.status == ExecutionStatus.CancelRequested && number >= 1 ==>
            if !(Current(c, number) && Last(c).fencingToken == token) then d == c && r == Failure(StaleFence)
            else if Last(c).status == AttemptStatus.Failed then d == c && r == Failure(InvalidState)
            else r == Success(()) && LastChanges(c, d) && BecomesOnly(e, d.execution, ExecutionStatus.Cancelled)
                 && Last(d) == Last(c).(status := AttemptStatus.Cancelled))
  {
  }

  /** Cost is charged to the active attempt under its fence; over the cap the execution stops at exactly the cap. */
  lemma {:induction false} RecordUsageOutcome(c: Cell, id: string, number: int, token: int, used: Option<nat>)
    requires CellOk(c, id)
    ensures var (d, r) := RecordUsage(c, number, token, used); var e := c.execution;
      var mine := Current(c, number) && Last(c).fencingToken == token && Last(c).status == Active;
      && (!mine && (used.Some? || !Current(c, number)) ==> r == Failure(StaleFence))
      && (used.None? && Current(c, number) ==> r == Failure(InvalidInput))
      && (mine && used.Some? && used.value < e.usedCost ==> r == Failure(InvalidInput))
      && (r.Failure? ==> d == c)
      && (mine && used.Some? && e.usedCost <= used.value <= e.spec.costCap ==>
            && r == Success(false) && SameAttempts(c, d)
            && d.execution.usedCost == used.value && BecomesOnly(e, d.execution.(usedCost := e.usedCost), e.status))
      && (mine && used.Some? && used.value > e.spec.costCap ==>
            && r == Success(true) && LastChanges(c, d) && Last(d) == Last(c).(status := AttemptStatus.Failed)
            && d.execution.usedCost == e.spec.costCap && BecomesOnly(e, d.execution.(usedCost := e.usedCost), CostStopped))
  {
  }

  /** One execution per logical id, one logical id per idempotency key, and a repeated request only with the same specification. */
  lemma {:induction false} CreateOutcome(s: State, spec: Spec)
    ensures var (t, r) := GetOrCreate(s, spec); var id := spec.logicalId; var key := spec.idempotencyKey;
      && (key in s.idempotency && s.idempotency[key] != id ==> t == s && r == Failure(ContentConflict))
      && (!(key in s.idempotency && s.idempotency[key] != id) && id in s.executions ==>
            t == s && r == if s.executions[id].spec == spec then Success((s.executions[id], true)) else Failure(ContentConflict))
      && (!(key in s.idempotency && s.idempotency[key] != id) && id !in s.executions ==>
            && r.Success? && !r.value.1 && id in t.executions && t.executions[id] == r.value.0
            && r.value.0.spec == spec && r.value.0.status == Pending && r.value.0.currentAttempt == 0 && r.value.0.usedCost == 0
            && r.value.0.contentHash == "" && r.value.0.deliverableRef == ""
            && t.executions == s.executions[id := r.value.0] && t.idempotency == s.idempotency[key := id]
            && t.attempts == s.attempts && t.callbacks == s.callbacks && t.reconciled == s.reconciled)
  {
  }

  // ---- what Poll makes of the replies ----

  /** A final status becomes an observation under the fence that was asked with, and a success only with checked content. */
  lemma {:induction false} PollObserves(s: State, execution: Execution, attempt: Attempt, w: World)
    ensures var (t, thread, settled) := PollStep(s, execution, attempt, w);
      thread.PollObserve? ==>
        && w.status.Some? && w.status.value.usedCost.Some?
        && w.status.value.status in {Succeeded, ExecutionStatus.Failed, ExecutionStatus.Cancelled}
        && var o := thread.observation; var reply := w.status.value;
           && o.logicalId == execution.spec.logicalId && o.attemptId == attempt.attemptId && o.agentId == execution.spec.agentId
           && o.fencingToken == attempt.fencingToken && o.status == reply.status && o.payloadHash == w.payloadHash
           && o.report.usedCost == reply.usedCost.value && (o.report.succeeded <==> reply.status == Succeeded)
           && (if reply.status == Succeeded then
                 && w.deliverable.Some? && ValidDigest(w.deliverable.value.contentHash) && !Blank(w.deliverable.value.deliverableRef)
                 && o.report.contentHash == w.deliverable.value.contentHash
                 && o.report.deliverableRef == w.deliverable.value.deliverableRef
               else o.report.contentHash == "" && o.report.deliverableRef == "")
  {
    hide ValidDigest, Blank, RecordUsage, On;
  }

  /** Poll charges the reported cost first: nothing is observed, and nothing stored, when the reply is not usable. */
  lemma {:induction false} PollCharges(s: State, execution: Execution, attempt: Attempt, w: World)
    ensures var (t, thread, settled) := PollStep(s, execution, attempt, w); var id := execution.spec.logicalId;
      if w.status.Some? && w.status.value.usedCost.Some?
         && w.status.value.status in {Running, Succeeded, ExecutionStatus.Failed, ExecutionStatus.Cancelled} && id in s.executions then
        && t == Put(s, id, RecordUsage(CellOf(s, id), attempt.number, attempt.fencingToken, w.status.value.usedCost).0)
        && (settled == Some(AttemptId(id, attempt.number))
            <==> RecordUsage(CellOf(s, id), attempt.number, attempt.fencingToken, w.status.value.usedCost).1 == Success(true))
      else t == s && settled.None? && !thread.PollObserve?
  {
    hide ValidDigest, Blank, RecordUsage, Observe;
  }
}
