/**
 The fenced execution records of services/engine/internal/execution/memory.go as
 operations on values. A cell is one logical execution with its attempts; every
 operation looks one cell up, works on it and puts it back, as one atomic step.
 */
module ExecutionCell {
  import opened Wrappers
  import opened Text

  datatype Error =
    | InvalidInput | NotFound | InvalidState | StaleFence
    | InvalidCallback | CallbackReplay | ContentConflict

  datatype ExecutionStatus = Pending | Running | CancelRequested | Cancelled | Succeeded | Failed | CostStopped

  datatype AttemptStatus = Prepared | Active | Completed | Failed | Expired | Cancelled

  // the attempt number is appended to the logical id after a separator, which is injective
  datatype AttemptId = AttemptId(logicalId: string, number: int)

  // rest stands for the fields that are only compared as a whole
  datatype Spec = Spec(logicalId: string, idempotencyKey: string, agentId: string, costCap: nat, rest: string)

  datatype Execution = Execution(
    spec: Spec, status: ExecutionStatus, currentAttempt: int, usedCost: nat, contentHash: string, deliverableRef: string)

  datatype Attempt = Attempt(
    number: int, attemptId: AttemptId, reservationId: AttemptId, status: AttemptStatus,
    fencingToken: int, leaseExpiresAt: int, nonceHash: string, nonceKeyVersion: string, dispatchCount: nat)

  datatype Lease = Lease(agentId: string, reservationId: AttemptId, fencingToken: int, expiresAt: int)

  datatype Cell = Cell(execution: Execution, attempts: seq<Attempt>)

  function Last(c: Cell): Attempt
    requires c.attempts != []
  {
    c.attempts[|c.attempts| - 1]
  }

  /** The attempt of this number, if it is the current one (lockedAttempt). */
  predicate IsCurrent(c: Cell, number: int) {
    1 <= number <= |c.attempts| && c.execution.currentAttempt == number
  }

  function Replace(c: Cell, number: int, attempt: Attempt): Cell
    requires 1 <= number <= |c.attempts|
  {
    c.(attempts := c.attempts[number - 1 := attempt])
  }

  function SetStatus(c: Cell, status: ExecutionStatus): Cell {
    c.(execution := c.execution.(status := status))
  }

  // ---- attempts ----

  function NewAttempt(logicalId: string, number: int): Attempt {
    Attempt(number, AttemptId(logicalId, number), AttemptId(logicalId, number), AttemptStatus.Prepared, 0, 0, "", "", 0)
  }

  /** PrepareAttempt: the live attempt again, or a new one after the current one ended or expired. */
  function Prepare(c: Cell, logicalId: string, now: int): (Cell, Result<(Attempt, bool), Error>) {
    if c.execution.status in {Succeeded, ExecutionStatus.Cancelled, CancelRequested, CostStopped} then
      (c, Failure(InvalidState))
    else if c.attempts != [] && (Last(c).status == Prepared || (Last(c).status == Active && Last(c).leaseExpiresAt > now)) then
      (c, Success((Last(c), true)))
    else
      var n := |c.attempts|;
      var items := if n > 0 && Last(c).status == Active then c.attempts[n - 1 := Last(c).(status := Expired)] else c.attempts;
      var attempt := NewAttempt(logicalId, n + 1);
      (Cell(c.execution.(status := Pending, currentAttempt := n + 1), items + [attempt]), Success((attempt, false)))
  }

  function Activate(c: Cell, number: int, lease: Lease, nonceHash: string, keyVersion: string, now: int): (Cell, Result<Attempt, Error>) {
    if !IsCurrent(c, number) then (c, Failure(StaleFence))
    else
      var attempt := c.attempts[number - 1];
      if lease.agentId != c.execution.spec.agentId || lease.reservationId != attempt.reservationId
         || lease.fencingToken < 1 || lease.expiresAt <= now || !ValidDigest(nonceHash) || keyVersion == "" then
        (c, Failure(InvalidInput))
      else if attempt.status == Active then
        if attempt.fencingToken != lease.fencingToken || attempt.nonceHash != nonceHash || attempt.nonceKeyVersion != keyVersion then
          (c, Failure(StaleFence))
        else (c, Success(attempt))
      else if attempt.status != Prepared then (c, Failure(InvalidState))
      else
        var active := attempt.(status := Active, fencingToken := lease.fencingToken, leaseExpiresAt := lease.expiresAt,
                               nonceHash := nonceHash, nonceKeyVersion := keyVersion);
        (SetStatus(Replace(c, number, active), Running), Success(active))
  }

  function RecordDispatch(c: Cell, number: int): (Cell, Result<(), Error>) {
    if !IsCurrent(c, number) then (c, Failure(StaleFence))
    else
      var attempt := c.attempts[number - 1];
      if attempt.status != Active then (c, Failure(InvalidState))
      else (Replace(c, number, attempt.(dispatchCount := attempt.dispatchCount + 1)), Success(()))
  }

  function Fail(c: Cell, number: int, token: int): (Cell, Result<(), Error>) {
    if !IsCurrent(c, number) then (c, Failure(StaleFence))
    else
      var attempt := c.attempts[number - 1];
      if attempt.fencingToken != token then (c, Failure(StaleFence))
      else if attempt.status == AttemptStatus.Failed then (c, Success(()))
      else if attempt.status != Active then (c, Failure(InvalidState))
      else (SetStatus(Replace(c, number, attempt.(status := AttemptStatus.Failed)), ExecutionStatus.Failed), Success(()))
  }

  // ---- cancellation ----

  /** RequestCancel answers with the current attempt, or none, and whether this is a replay. */
  function RequestCancel(c: Cell): (Cell, Result<(Option<Attempt>, bool), Error>) {
    var current := if c.attempts == [] then None else Some(Last(c));
    if c.execution.status == Succeeded || c.execution.status == CostStopped then (c, Failure(InvalidState))
    else if c.execution.status == ExecutionStatus.Cancelled then (c, Success((current, true)))
    else (SetStatus(c, CancelRequested), Success((current, c.execution.status == CancelRequested)))
  }

  /** CompleteCancel; number 0 stands for "there was no attempt". */
  function CompleteCancel(c: Cell, number: int, token: int): (Cell, Result<(), Error>) {
    if c.execution.status == ExecutionStatus.Cancelled then (c, Success(()))
    else if c.execution.status != CancelRequested then (c, Failure(InvalidState))
    else if number <= 0 then (SetStatus(c, ExecutionStatus.Cancelled), Success(()))
    else if !IsCurrent(c, number) then (c, Failure(StaleFence))
    else
      var attempt := c.attempts[number - 1];
      if attempt.fencingToken != token then (c, Failure(StaleFence))
      else if attempt.status !in {Active, Prepared, AttemptStatus.Cancelled} then (c, Failure(InvalidState))
      else (SetStatus(Replace(c, number, attempt.(status := AttemptStatus.Cancelled)), ExecutionStatus.Cancelled), Success(()))
  }

  // ---- cost and outcomes ----

  /** The cell after an attempt overran the cost cap. */
  function StopForCost(c: Cell, number: int): Cell
    requires 1 <= number <= |c.attempts|
  {
    var stopped := Replace(c, number, c.attempts[number - 1].(status := AttemptStatus.Failed));
    stopped.(execution := c.execution.(usedCost := c.execution.spec.costCap, status := CostStopped))
  }

  /** RecordUsage; None stands for an amount that is not a canonical decimal. */
  function RecordUsage(c: Cell, number: int, token: int, used: Option<nat>): (Cell, Result<bool, Error>) {
    if !IsCurrent(c, number) then (c, Failure(StaleFence))
    else if used.None? then (c, Failure(InvalidInput))
    else
      var attempt := c.attempts[number - 1];
      if attempt.fencingToken != token || attempt.status != Active then (c, Failure(StaleFence))
      else if used.value < c.execution.usedCost then (c, Failure(InvalidInput))
      else if used.value > c.execution.spec.costCap then (StopForCost(c, number), Success(true))
      else (c.(execution := c.execution.(usedCost := used.value)), Success(false))
  }

  /** What a finished attempt reports, in a callback or in an observation. */
  datatype Report = Report(succeeded: bool, usedCost: nat, contentHash: string, deliverableRef: string)

  /** The common last step of ApplyCallback and ApplyTerminalObservation on an active current attempt. */
  function Settle(c: Cell, number: int, report: Report): Cell
    requires 1 <= number <= |c.attempts|
  {
    if report.usedCost > c.execution.spec.costCap then StopForCost(c, number)
    else
      var attempt := c.attempts[number - 1];
      if report.succeeded then
        Replace(c, number, attempt.(status := Completed))
          .(execution := c.execution.(usedCost := report.usedCost, status := Succeeded,
                                      contentHash := report.contentHash, deliverableRef := report.deliverableRef))
      else
        Replace(c, number, attempt.(status := AttemptStatus.Failed))
          .(execution := c.execution.(usedCost := report.usedCost, status := ExecutionStatus.Failed))
  }

  /** Position of the first attempt with this id, the number of attempts if there is none. */
  function Find(items: seq<Attempt>, attemptId: AttemptId): (i: nat)
    ensures i <= |items|
    ensures forall k :: 0 <= k < i ==> items[k].attemptId != attemptId
    ensures i < |items| ==> items[i].attemptId == attemptId
  {
    if items == [] || items[0].attemptId == attemptId then 0 else 1 + Find(items[1..], attemptId)
  }

  datatype Outcome = Accepted | Late | StaleFenced | CostStop | AlreadyTerminal

  datatype Callback = Callback(
    logicalId: string, attemptId: AttemptId, agentId: string, fencingToken: int, report: Report,
    nonceHash: string, payloadHash: string)

  /** The verifier lets a callback through only if its content fields fit its status. */
  predicate Verified(callback: Callback) {
    var r := callback.report;
    if r.succeeded then ValidDigest(r.contentHash) && !Blank(r.deliverableRef) else r.contentHash == "" && r.deliverableRef == ""
  }

  /** ApplyCallback behind its replay table. */
  function Receive(c: Cell, callback: Callback, now: int): (Cell, Result<Outcome, Error>) {
    var i := Find(c.attempts, callback.attemptId);
    if i == |c.attempts| || callback.agentId != c.execution.spec.agentId then (c, Failure(InvalidCallback))
    else
      var attempt := c.attempts[i];
      if attempt.nonceHash != callback.nonceHash then (c, Failure(CallbackReplay))
      else if attempt.fencingToken != callback.fencingToken || i != |c.attempts| - 1 || attempt.leaseExpiresAt <= now then
        (c, Success(StaleFenced))
      else if c.execution.status in {CancelRequested, ExecutionStatus.Cancelled, CostStopped} || attempt.status != Active then
        (c, Success(Late))
      else if callback.report.usedCost < c.execution.usedCost then (c, Failure(InvalidCallback))
      else if callback.report.usedCost <= c.execution.spec.costCap && callback.report.succeeded
              && c.execution.contentHash != "" && c.execution.contentHash != callback.report.contentHash then
        (c, Failure(ContentConflict))
      else
        (Settle(c, i + 1, callback.report),
         Success(if callback.report.usedCost > c.execution.spec.costCap then CostStop else Accepted))
  }

  datatype Observation = Observation(
    logicalId: string, attemptId: AttemptId, agentId: string, fencingToken: int, status: ExecutionStatus, report: Report,
    payloadHash: string)

  /** Poll builds an observation only from a final status, with checked content when it is a success. */
  predicate Observed(o: Observation) {
    && o.status in {Succeeded, ExecutionStatus.Failed, ExecutionStatus.Cancelled}
    && (o.report.succeeded <==> o.status == Succeeded)
    && (o.status == Succeeded ==> ValidDigest(o.report.contentHash) && !Blank(o.report.deliverableRef))
  }

  predicate Terminal(status: ExecutionStatus) {
    status in {Succeeded, ExecutionStatus.Failed, ExecutionStatus.Cancelled, CostStopped}
  }

  predicate Matches(o: Observation, e: Execution) {
    if o.status == Succeeded then
      e.status == Succeeded && e.contentHash == o.report.contentHash && e.deliverableRef == o.report.deliverableRef
      && e.usedCost == o.report.usedCost
    else
      (o.status == ExecutionStatus.Failed || o.status == ExecutionStatus.Cancelled)
      && e.status == ExecutionStatus.Failed && e.usedCost == o.report.usedCost
  }

  /** ApplyTerminalObservation behind its replay table. */
  function Reconcile(c: Cell, o: Observation): (Cell, Result<Outcome, Error>) {
    var i := Find(c.attempts, o.attemptId);
    if i == |c.attempts| || o.agentId != c.execution.spec.agentId then (c, Failure(InvalidInput))
    else
      var attempt := c.attempts[i];
      if attempt.fencingToken != o.fencingToken || i != |c.attempts| - 1 || c.execution.currentAttempt != attempt.number then
        (c, Success(StaleFenced))
      else if Terminal(c.execution.status) || attempt.status != Active then
        if !Matches(o, c.execution) then (c, Failure(ContentConflict)) else (c, Success(AlreadyTerminal))
      else if c.execution.status == CancelRequested then (c, Success(Late))
      else if o.report.usedCost < c.execution.usedCost then (c, Failure(InvalidInput))
      else
        (Settle(c, i + 1, o.report),
         Success(if o.report.usedCost > c.execution.spec.costCap then CostStop else Accepted))
  }
}
