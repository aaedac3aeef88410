/**
 The execution repository: its maps as one value, its operations on that value, and
 the class whose fields the operations update under the repository's mutex.
 */
module ExecutionRepository {
  import opened Wrappers
  import opened Text
  import opened ExecutionCell

  datatype Settled = Settled(execution: Execution, outcome: Outcome, replay: bool, shouldCancel: bool)

  // a consumed callback nonce or a reconciled attempt, with the payload it was consumed by
  datatype Record = Record(payloadHash: string, result: Settled)

  datatype State = State(
    executions: map<string, Execution>,
    attempts: map<string, seq<Attempt>>,
    idempotency: map<string, string>,
    callbacks: map<string, Record>,
    reconciled: map<AttemptId, Record>)

  const EMPTY := State(map[], map[], map[], map[], map[])

  function AttemptsOf(s: State, id: string): seq<Attempt> {
    if id in s.attempts then s.attempts[id] else []
  }

  function CellOf(s: State, id: string): Cell
    requires id in s.executions
  {
    Cell(s.executions[id], AttemptsOf(s, id))
  }

  function Put(s: State, id: string, c: Cell): State {
    s.(executions := s.executions[id := c.execution],
       attempts := if c.attempts == [] then s.attempts else s.attempts[id := c.attempts])
  }

  /** Writing back what was read changes nothing. */
  lemma PutBack(s: State, id: string)
    requires id in s.executions
    ensures s.executions[id := s.executions[id]] == s.executions
    ensures id in s.attempts ==> s.attempts[id := s.attempts[id]] == s.attempts
    ensures Put(s, id, CellOf(s, id)) == s
  {
  }

  /** An operation on one cell as an operation on the repository. */
  function On<T>(s: State, id: string, work: Cell -> (Cell, Result<T, Error>)): (State, Result<T, Error>) {
    if id !in s.executions then (s, Failure(NotFound))
    else
      var (c, r) := work(CellOf(s, id));
      (Put(s, id, c), r)
  }

  /** GetOrCreate: one execution per id, one id per idempotency key. */
  function GetOrCreate(s: State, spec: Spec): (State, Result<(Execution, bool), Error>) {
    if spec.idempotencyKey in s.idempotency && s.idempotency[spec.idempotencyKey] != spec.logicalId then
      (s, Failure(ContentConflict))
    else if spec.logicalId in s.executions then
      var existing := s.executions[spec.logicalId];
      if existing.spec != spec then (s, Failure(ContentConflict)) else (s, Success((existing, true)))
    else
      var created := Execution(spec, Pending, 0, 0, "", "");
      (s.(executions := s.executions[spec.logicalId := created],
          idempotency := s.idempotency[spec.idempotencyKey := spec.logicalId]),
       Success((created, false)))
  }

  /** What an operation answers with: the outcome and the execution as it is after the step. */
  function Answer(c: Cell, outcome: Outcome): Settled {
    Settled(c.execution, outcome, false, outcome == CostStop)
  }

  /** A consumed key replays its stored result, or conflicts when the payload differs. */
  function Replayed(record: Record, payloadHash: string): Result<Settled, Error> {
    if record.payloadHash != payloadHash then Failure(ContentConflict) else Success(record.result.(replay := true))
  }

  function ApplyCallback(s: State, callback: Callback, now: int): (State, Result<Settled, Error>) {
    if callback.nonceHash in s.callbacks then (s, Replayed(s.callbacks[callback.nonceHash], callback.payloadHash))
    else if callback.logicalId !in s.executions then (s, Failure(NotFound))
    else
      var (c, r) := Receive(CellOf(s, callback.logicalId), callback, now);
      match r
      case Failure(e) => (s, Failure(e))
      case Success(outcome) =>
        var result := Answer(c, outcome);
        (Put(s, callback.logicalId, c).(callbacks := s.callbacks[callback.nonceHash := Record(callback.payloadHash, result)]),
         Success(result))
  }

  function ApplyTerminalObservation(s: State, o: Observation): (State, Result<Settled, Error>) {
    if o.attemptId in s.reconciled then (s, Replayed(s.reconciled[o.attemptId], o.payloadHash))
    else if o.logicalId !in s.executions then (s, Failure(NotFound))
    else
      var (c, r) := Reconcile(CellOf(s, o.logicalId), o);
      match r
      case Failure(e) => (s, Failure(e))
      case Success(outcome) =>
        var result := Answer(c, outcome);
        (Put(s, o.logicalId, c).(reconciled := s.reconciled[o.attemptId := Record(o.payloadHash, result)]),
         Success(result))
  }

  class MemoryRepository {
    var executions: map<string, Execution>
    var attempts: map<string, seq<Attempt>>
    var idempotency: map<string, string>
    var callbacks: map<string, Record>
    var reconciled: map<AttemptId, Record>

    constructor ()
      ensures Value() == EMPTY
    {
      executions, attempts, idempotency, callbacks, reconciled := map[], map[], map[], map[], map[];
    }

    function Value(): State
      reads this
    {
      State(executions, attempts, idempotency, callbacks, reconciled)
    }

    function Items(id: string): seq<Attempt>
      reads this
    {
      if id in attempts then attempts[id] else []
    }

    method Create(spec: Spec) returns (r: Result<(Execution, bool), Error>)
      modifies this
      ensures (Value(), r) == GetOrCreate(old(Value()), spec)
    {
      if spec.idempotencyKey in idempotency && idempotency[spec.idempotencyKey] != spec.logicalId {
        return Failure(ContentConflict);
      }
      if spec.logicalId in executions {
        var existing := executions[spec.logicalId];
        return if existing.spec != spec then Failure(ContentConflict) else Success((existing, true));
      }
      var created := Execution(spec, Pending, 0, 0, "", "");
      executions := executions[spec.logicalId := created];
      idempotency := idempotency[spec.idempotencyKey := spec.logicalId];
      return Success((created, false));
    }

    method PrepareAttempt(id: string, now: int) returns (r: Result<(Attempt, bool), Error>)
      modifies this
      ensures (Value(), r) == On(old(Value()), id, c => Prepare(c, id, now))
    {
      if id !in executions {
        return Failure(NotFound);
      }
      PutBack(Value(), id);
      var execution := executions[id];
      if execution.status in {Succeeded, ExecutionStatus.Cancelled, CancelRequested, CostStopped} {
        return Failure(InvalidState);
      }
      var items := Items(id);
      if |items| > 0 {
        var current := items[|items| - 1];
        if current.status == Prepared || (current.status == Active && current.leaseExpiresAt > now) {
          return Success((current, true));
        }
        if current.status == Active {
          items := items[|items| - 1 := current.(status := Expired)];
        }
      }
      var attempt := NewAttempt(id, |items| + 1);
      attempts := attempts[id := items + [attempt]];
      executions := executions[id := execution.(status := Pending, currentAttempt := |items| + 1)];
      return Success((attempt, false));
    }

    method ActivateAttempt(id: string, number: int, lease: Lease, nonceHash: string, keyVersion: string, now: int)
      returns (r: Result<Attempt, Error>)
      modifies this
      ensures (Value(), r) == On(old(Value()), id, c => Activate(c, number, lease, nonceHash, keyVersion, now))
    {
      if id !in executions {
        return Failure(NotFound);
      }
      PutBack(Value(), id);
      var execution, items := executions[id], Items(id);
      if number < 1 || number > |items| || execution.currentAttempt != number {
        return Failure(StaleFence);
      }
      var attempt := items[number - 1];
      if lease.agentId != execution.spec.agentId || lease.reservationId != attempt.reservationId
         || lease.fencingToken < 1 || lease.expiresAt <= now || !ValidDigest(nonceHash) || keyVersion == "" {
        return Failure(InvalidInput);
      }
      if attempt.status == Active {
        if attempt.fencingToken != lease.fencingToken || attempt.nonceHash != nonceHash || attempt.nonceKeyVersion != keyVersion {
          return Failure(StaleFence);
        }
        return Success(attempt);
      }
      if attempt.status != Prepared {
        return Failure(InvalidState);
      }
      attempt := attempt.(status := Active, fencingToken := lease.fencingToken, leaseExpiresAt := lease.expiresAt,
                          nonceHash := nonceHash, nonceKeyVersion := keyVersion);
      attempts := attempts[id := items[number - 1 := attempt]];
      executions := executions[id := execution.(status := Running)];
      return Success(attempt);
    }

    method CountDispatch(id: string, number: int) returns (r: Result<(), Error>)
      modifies this
      ensures (Value(), r) == On(old(Value()), id, c => RecordDispatch(c, number))
    {
      if id !in executions {
        return Failure(NotFound);
      }
      PutBack(Value(), id);
      var items := Items(id);
      if number < 1 || number > |items| || executions[id].currentAttempt != number {
        return Failure(StaleFence);
      }
      var attempt := items[number - 1];
      if attempt.status != Active {
        return Failure(InvalidState);
      }
      attempts := attempts[id := items[number - 1 := attempt.(dispatchCount := attempt.dispatchCount + 1)]];
      return Success(());
    }

    method FailAttempt(id: string, number: int, token: int) returns (r: Result<(), Error>)
      modifies this
      ensures (Value(), r) == On(old(Value()), id, c => Fail(c, number, token))
    {
      if id !in executions {
        return Failure(NotFound);
      }
      PutBack(Value(), id);
      var execution, items := executions[id], Items(id);
      if number < 1 || number > |items| || execution.currentAttempt != number {
        return Failure(StaleFence);
      }
      var attempt := items[number - 1];
      if attempt.fencingToken != token {
        return Failure(StaleFence);
      }
      if attempt.status == AttemptStatus.Failed {
        return Success(());
      }
      if attempt.status != Active {
        return Failure(InvalidState);
      }
      attempts := attempts[id := items[number - 1 := attempt.(status := AttemptStatus.Failed)]];
      executions := executions[id := execution.(status := ExecutionStatus.Failed)];
      return Success(());
    }

    method AskCancel(id: string) returns (r: Result<(Option<Attempt>, bool), Error>)
      modifies this
      ensures (Value(), r) == On(old(Value()), id, c => RequestCancel(c))
    {
      if id !in executions {
        return Failure(NotFound);
      }
      PutBack(Value(), id);
      var execution, items := executions[id], Items(id);
      if execution.status == Succeeded || execution.status == CostStopped {
        return Failure(InvalidState);
      }
      var current := if |items| > 0 then Some(items[|items| - 1]) else None;
      if execution.status == ExecutionStatus.Cancelled {
        return Success((current, true));
      }
      var replay := execution.status == CancelRequested;
      executions := executions[id := execution.(status := CancelRequested)];
      return Success((current, replay));
    }

    method FinishCancel(id: string, number: int, token: int) returns (r: Result<(), Error>)
      modifies this
      ensures (Value(), r) == On(old(Value()), id, c => CompleteCancel(c, number, token))
    {
      if id !in executions {
        return Failure(NotFound);
      }
      PutBack(Value(), id);
      var execution, items := executions[id], Items(id);
      if execution.status == ExecutionStatus.Cancelled {
        return Success(());
      }
      if execution.status != CancelRequested {
        return Failure(InvalidState);
      }
      if number > 0 {
        if number > |items| || execution.currentAttempt != number {
          return Failure(StaleFence);
        }
        var attempt := items[number - 1];
        if attempt.fencingToken != token {
          return Failure(StaleFence);
        }
        if attempt.status != Active && attempt.status != Prepared && attempt.status != AttemptStatus.Cancelled {
          return Failure(InvalidState);
        }
        attempts := attempts[id := items[number - 1 := attempt.(status := AttemptStatus.Cancelled)]];
      }
      executions := executions[id := execution.(status := ExecutionStatus.Cancelled)];
      return Success(());
    }

    method Charge(id: string, number: int, token: int, used: Option<nat>) returns (r: Result<bool, Error>)
      modifies this
      ensures (Value(), r) == On(old(Value()), id, c => RecordUsage(c, number, token, used))
    {
      if id !in executions {
        return Failure(NotFound);
      }
      PutBack(Value(), id);
      var execution, items := executions[id], Items(id);
      if number < 1 || number > |items| || execution.currentAttempt != number {
        return Failure(StaleFence);
      }
      if used.None? {
        return Failure(InvalidInput);
      }
      var attempt := items[number - 1];
      if attempt.fencingToken != token || attempt.status != Active {
        return Failure(StaleFence);
      }
      if used.value < execution.usedCost {
        return Failure(InvalidInput);
      }
      var stop := used.value > execution.spec.costCap;
      if stop {
        execution := execution.(usedCost := execution.spec.costCap, status := CostStopped);
        attempts := attempts[id := items[number - 1 := attempt.(status := AttemptStatus.Failed)]];
      } else {
        execution := execution.(usedCost := used.value);
      }
      executions := executions[id := execution];
      return Success(stop);
    }

    /** The search loop of both settlement operations. */
    method IndexOf(items: seq<Attempt>, attemptId: AttemptId) returns (i: nat)
      ensures i == Find(items, attemptId)
    {
      i := 0;
      while i < |items| && items[i].attemptId != attemptId
        invariant i <= |items|
        invariant Find(items, attemptId) == i + Find(items[i..], attemptId)
      {
        i := i + 1;
      }
    }

    /** Write back the outcome of the attempt at this position. */
    method SettleAt(id: string, index: nat, report: Report)
      requires id in executions && index < |Items(id)|
      modifies this
      ensures Value() == Put(old(Value()), id, Settle(CellOf(old(Value()), id), index + 1, report))
    {
      var execution, items := executions[id], Items(id);
      var attempt := items[index];
      execution := execution.(usedCost := report.usedCost);
      if report.usedCost > execution.spec.costCap {
        execution := execution.(usedCost := execution.spec.costCap, status := CostStopped);
        attempt := attempt.(status := AttemptStatus.Failed);
      } else if report.succeeded {
        execution := execution.(status := Succeeded, contentHash := report.contentHash, deliverableRef := report.deliverableRef);
        attempt := attempt.(status := Completed);
      } else {
        execution := execution.(status := ExecutionStatus.Failed);
        attempt := attempt.(status := AttemptStatus.Failed);
      }
      executions := executions[id := execution];
      attempts := attempts[id := items[index := attempt]];
    }

    method HandleCallback(callback: Callback, now: int) returns (r: Result<Settled, Error>)
      modifies this
      ensures (Value(), r) == ApplyCallback(old(Value()), callback, now)
    {
      if callback.nonceHash in callbacks {
        var previous := callbacks[callback.nonceHash];
        if previous.payloadHash != callback.payloadHash {
          return Failure(ContentConflict);
        }
        return Success(previous.result.(replay := true));
      }
      var id := callback.logicalId;
      if id !in executions {
        return Failure(NotFound);
      }
      PutBack(Value(), id);
      var execution, items := executions[id], Items(id);
      var index := IndexOf(items, callback.attemptId);
      if index == |items| || callback.agentId != execution.spec.agentId {
        return Failure(InvalidCallback);
      }
      var attempt := items[index];
      if attempt.nonceHash != callback.nonceHash {
        return Failure(CallbackReplay);
      }
      var outcome := Accepted;
      if attempt.fencingToken != callback.fencingToken || index != |items| - 1 || attempt.leaseExpiresAt <= now {
        outcome := StaleFenced;
      } else if execution.status in {CancelRequested, ExecutionStatus.Cancelled, CostStopped} || attempt.status != Active {
        outcome := Late;
      } else {
        if callback.report.usedCost < execution.usedCost {
          return Failure(InvalidCallback);
        }
        if callback.report.usedCost > execution.spec.costCap {
          outcome := CostStop;
        } else if callback.report.succeeded && execution.contentHash != "" && execution.contentHash != callback.report.contentHash {
          return Failure(ContentConflict);
        }
        SettleAt(id, index, callback.report);
      }
      var result := Settled(executions[id], outcome, false, outcome == CostStop);
      callbacks := callbacks[callback.nonceHash := Record(callback.payloadHash, result)];
      return Success(result);
    }

    method Observe(o: Observation) returns (r: Result<Settled, Error>)
      modifies this
      ensures (Value(), r) == ApplyTerminalObservation(old(Value()), o)
    {
      if o.attemptId in reconciled {
        var previous := reconciled[o.attemptId];
        if previous.payloadHash != o.payloadHash {
          return Failure(ContentConflict);
        }
        return Success(previous.result.(replay := true));
      }
      var id := o.logicalId;
      if id !in executions {
        return Failure(NotFound);
      }
      PutBack(Value(), id);
      var execution, items := executions[id], Items(id);
      var index := IndexOf(items, o.attemptId);
      if index == |items| || o.agentId != execution.spec.agentId {
        return Failure(InvalidInput);
      }
      var attempt := items[index];
      var outcome := Accepted;
      if attempt.fencingToken != o.fencingToken || index != |items| - 1 || execution.currentAttempt != attempt.number {
        outcome := StaleFenced;
      } else if Terminal(execution.status) || attempt.status != Active {
        if !Matches(o, execution) {
          return Failure(ContentConflict);
        }
        outcome := AlreadyTerminal;
      } else if execution.status == CancelRequested {
        outcome := Late;
      } else if o.report.usedCost < execution.usedCost {
        return Failure(InvalidInput);
      } else {
        if o.report.usedCost > execution.spec.costCap {
          outcome := CostStop;
        }
        SettleAt(id, index, o.report);
      }
      var result := Settled(executions[id], outcome, false, outcome == CostStop);
      reconciled := reconciled[o.attemptId := Record(o.payloadHash, result)];
      return Success(result);
    }
  }
}
