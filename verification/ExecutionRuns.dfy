/** Safety of the execution protocol over every interleaving of its threads. */
module ExecutionRuns {
  import opened Wrappers
  import opened ExecutionCell
  import opened ExecutionRepository
  import opened ExecutionService
  import opened ExecutionInvariant

  ghost predicate CellsOk(s: State) {
    forall id :: id in s.executions ==> CellOk(CellOf(s, id), id)
  }

  /** Attempts belong to executions, and executions and idempotency keys name each other. */
  predicate KeysOk(s: State) {
    && s.attempts.Keys <= s.executions.Keys
    && (forall id :: id in s.executions ==>
          var key := s.executions[id].spec.idempotencyKey; key in s.idempotency && s.idempotency[key] == id)
    && (forall key :: key in s.idempotency ==>
          s.idempotency[key] in s.executions && s.executions[s.idempotency[key]].spec.idempotencyKey == key)
  }

  ghost predicate StateOk(s: State) {
    CellsOk(s) && KeysOk(s)
  }

  /** What a thread's locals guarantee about the call it is about to make. */
  ghost predicate ThreadOk(s: State, t: Thread) {
    match t
    case CancelComplete(id, number, token) => (number >= 1 && token >= 1) || (id in s.executions && Barred(CellOf(s, id)))
    case PollObserve(o) => Observed(o)
    case CallbackApply(callback) => Verified(callback)
    case _ => true
  }

  ghost predicate SystemOk(sys: System) {
    StateOk(sys.state) && forall i :: 0 <= i < |sys.threads| ==> ThreadOk(sys.state, sys.threads[i])
  }

  /** Executions are never removed and every one of them only advances. */
  ghost predicate Leads(s: State, t: State) {
    forall id :: id in s.executions ==> id in t.executions && Advances(CellOf(s, id), CellOf(t, id))
  }

  lemma LeadsTransitive(s: State, t: State, u: State)
    requires Leads(s, t) && Leads(t, u)
    ensures Leads(s, u)
  {
    forall id | id in s.executions
      ensures id in u.executions && Advances(CellOf(s, id), CellOf(u, id))
    {
      AdvancesTransitive(CellOf(s, id), CellOf(t, id), CellOf(u, id));
    }
  }

  lemma PutFrame(s: State, id: string, c: Cell)
    requires id in s.executions && |AttemptsOf(s, id)| <= |c.attempts|
    ensures Put(s, id, c).executions.Keys == s.executions.Keys
    ensures forall other :: other in s.executions ==> CellOf(Put(s, id, c), other) == if other == id then c else CellOf(s, other)
  {
  }

  lemma PutKeys(s: State, id: string, c: Cell)
    requires KeysOk(s) && id in s.executions && c.execution.spec == s.executions[id].spec
    ensures KeysOk(Put(s, id, c))
  {
  }

  /** One cell moves on, the others stay: the invariant holds again and the whole state leads on. */
  lemma PutCell(s: State, id: string, c: Cell)
    requires StateOk(s) && id in s.executions && CellOk(c, id) && Advances(CellOf(s, id), c)
    ensures StateOk(Put(s, id, c)) && Leads(s, Put(s, id, c)) && CellOf(Put(s, id, c), id) == c
  {
    PutFrame(s, id, c);
    PutKeys(s, id, c);
    var t := Put(s, id, c);
    forall other | other in s.executions
      ensures CellOk(CellOf(t, other), other) && Advances(CellOf(s, other), CellOf(t, other))
    {
      if other != id {
        assert CellOf(t, other) == CellOf(s, other);
        AdvancesReflexive(CellOf(s, other));
      }
    }
  }

  lemma LeadsReflexive(s: State)
    ensures Leads(s, s)
  {
    forall id | id in s.executions
      ensures Advances(CellOf(s, id), CellOf(s, id))
    {
      AdvancesReflexive(CellOf(s, id));
    }
  }

  lemma OnKeeps<T>(s: State, id: string, work: Cell -> (Cell, Result<T, Error>))
    requires StateOk(s)
    requires id in s.executions ==> CellOk(work(CellOf(s, id)).0, id) && Advances(CellOf(s, id), work(CellOf(s, id)).0)
    ensures StateOk(On(s, id, work).0) && Leads(s, On(s, id, work).0)
    ensures id in s.executions ==> id in On(s, id, work).0.executions && CellOf(On(s, id, work).0, id) == work(CellOf(s, id)).0
  {
    LeadsReflexive(s);
    if id in s.executions {
      PutCell(s, id, work(CellOf(s, id)).0);
    }
  }

  /** Replay tables do not matter to the invariant. */
  lemma SameCells(s: State, t: State)
    requires StateOk(s) && t.executions == s.executions && t.attempts == s.attempts && t.idempotency == s.idempotency
    ensures StateOk(t) && forall u: State :: Leads(u, s) ==> Leads(u, t)
  {
    hide CellOk, Advances;
    assert forall id :: id in s.executions ==> CellOf(t, id) == CellOf(s, id);
  }

  lemma NewCellOk(spec: Spec)
    ensures CellOk(Cell(Execution(spec, Pending, 0, 0, "", ""), []), spec.logicalId)
  {
  }

  lemma CreateKeeps(s: State, spec: Spec)
    requires StateOk(s)
    ensures StateOk(GetOrCreate(s, spec).0) && Leads(s, GetOrCreate(s, spec).0)
  {
    hide CellOk, Advances, KeysOk;
    LeadsReflexive(s);
    assert KeysOk(s) ==> s.attempts.Keys <= s.executions.Keys by { AttemptKeys(s); }
    var (t, r) := GetOrCreate(s, spec);
    if r.Success? && !r.value.1 {
      NewCellOk(spec);
      assert CellOf(t, spec.logicalId) == Cell(Execution(spec, Pending, 0, 0, "", ""), []);
      forall id | id in s.executions
        ensures CellOf(t, id) == CellOf(s, id)
      {
      }
      CreateKeys(s, spec);
    }
  }

  lemma AttemptKeys(s: State)
    ensures KeysOk(s) ==> s.attempts.Keys <= s.executions.Keys
  {
  }

  lemma CreateKeys(s: State, spec: Spec)
    requires KeysOk(s)
    ensures KeysOk(GetOrCreate(s, spec).0)
  {
  }

  /** The attempt of this id was active before the step and has ended after it. */
  ghost predicate Left(s: State, t: State, attemptId: AttemptId) {
    Lives(s, attemptId) && Dead(t, attemptId)
  }

  ghost predicate Lives(s: State, attemptId: AttemptId) {
    var items := AttemptsOf(s, attemptId.logicalId);
    1 <= attemptId.number <= |items| && items[attemptId.number - 1].status == Active
  }

  ghost predicate Dead(s: State, attemptId: AttemptId) {
    var items := AttemptsOf(s, attemptId.logicalId);
    1 <= attemptId.number <= |items| && Ended(items[attemptId.number - 1].status)
  }

  lemma CallbackKeeps(s: State, callback: Callback, now: int)
    requires StateOk(s) && Verified(callback)
    ensures var (t, r) := ApplyCallback(s, callback, now);
      StateOk(t) && Leads(s, t) && (First(r) ==> Left(s, t, callback.attemptId))
  {
    hide CellOk, Advances, Receive, KeysOk, Leads;
    LeadsReflexive(s);
    var id := callback.logicalId;
    var (t, r) := ApplyCallback(s, callback, now);
    if t != s {
      var c := Receive(CellOf(s, id), callback, now).0;
      ReceiveKeeps(CellOf(s, id), id, callback, now);
      PutCell(s, id, c);
      SameCells(Put(s, id, c), t);
    }
  }

  lemma ObservationKeeps(s: State, o: Observation)
    requires StateOk(s) && Observed(o)
    ensures var (t, r) := ApplyTerminalObservation(s, o);
      StateOk(t) && Leads(s, t) && (First(r) ==> Left(s, t, o.attemptId))
  {
    hide CellOk, Advances, Reconcile, KeysOk, Leads;
    LeadsReflexive(s);
    var id := o.logicalId;
    var (t, r) := ApplyTerminalObservation(s, o);
    if t != s {
      var c := Reconcile(CellOf(s, id), o).0;
      ReconcileKeeps(CellOf(s, id), id, o);
      PutCell(s, id, c);
      SameCells(Put(s, id, c), t);
    }
  }

  lemma DispatchKeeps(s: State, t: Thread, w: World)
    requires StateOk(s) && (t.DispatchPrepare? || t.DispatchActivate? || t.DispatchRecord? || t.DispatchFail?)
    ensures StateOk(Run(s, t, w).0) && Leads(s, Run(s, t, w).0)
  {
    hide CellOk, Advances, Prepare, Activate, RecordDispatch, Fail, Leads, KeysOk;
    LeadsReflexive(s);
    var id := t.id;
    if id in s.executions {
      var c := CellOf(s, id);
      match t
      case DispatchPrepare(_) =>
        PrepareKeeps(c, id, w.now);
        OnKeeps(s, id, c => Prepare(c, id, w.now));
      case DispatchActivate(_, attempt) =>
        if w.lease.Some? {
          ActivateKeeps(c, id, attempt.number, w.lease.value, w.nonceHash, w.keyVersion, w.now);
          OnKeeps(s, id, c => Activate(c, attempt.number, w.lease.value, w.nonceHash, w.keyVersion, w.now));
        }
      case DispatchRecord(_, attempt) =>
        RecordDispatchKeeps(c, id, attempt.number);
        OnKeeps(s, id, c => RecordDispatch(c, attempt.number));
      case DispatchFail(_, attempt) =>
        FailKeeps(c, id, attempt.number, attempt.fencingToken);
        OnKeeps(s, id, c => Fail(c, attempt.number, attempt.fencingToken));
    }
  }

  lemma CancelKeeps(s: State, t: Thread, w: World)
    requires StateOk(s) && ThreadOk(s, t) && (t.CancelRequested? || t.CancelComplete?)
    ensures StateOk(Run(s, t, w).0) && Leads(s, Run(s, t, w).0) && ThreadOk(Run(s, t, w).0, Run(s, t, w).1)
  {
    hide CellOk, Advances, RequestCancel, CompleteCancel, KeysOk, Leads;
    LeadsReflexive(s);
    var id := t.id;
    if id in s.executions {
      var c := CellOf(s, id);
      if t.CancelRequested? {
        RequestCancelKeeps(c, id);
        OnKeeps(s, id, c => RequestCancel(c));
      } else {
        CompleteCancelKeeps(c, id, t.number, t.token);
        OnKeeps(s, id, c => CompleteCancel(c, t.number, t.token));
      }
    }
  }

  lemma PollKeeps(s: State, execution: Execution, attempt: Attempt, w: World)
    requires StateOk(s)
    ensures var (t, thread, settled) := PollStep(s, execution, attempt, w);
      && StateOk(t) && Leads(s, t) && ThreadOk(t, thread)
      && (settled.Some? ==> Left(s, t, settled.value))
  {
    hide CellOk, Advances, RecordUsage, Leads, KeysOk;
    LeadsReflexive(s);
    var id := execution.spec.logicalId;
    if id in s.executions && w.status.Some? {
      RecordUsageKeeps(CellOf(s, id), id, attempt.number, attempt.fencingToken, w.status.value.usedCost);
      OnKeeps(s, id, c => RecordUsage(c, attempt.number, attempt.fencingToken, w.status.value.usedCost));
    }
  }

  lemma RunKeeps(s: State, t: Thread, w: World)
    requires StateOk(s) && ThreadOk(s, t)
    ensures var (after, thread, settled) := Run(s, t, w);
      && StateOk(after) && Leads(s, after) && ThreadOk(after, thread)
      && (settled.Some? ==> Left(s, after, settled.value))
  {
    hide StateOk, Leads, On, GetOrCreate, ApplyCallback, ApplyTerminalObservation, PollStep;
    LeadsReflexive(s);
    match t
    case Create(spec) => CreateKeeps(s, spec);
    case CallbackApply(callback) => CallbackKeeps(s, callback, w.now);
    case PollObserve(o) => ObservationKeeps(s, o);
    case PollUsage(execution, attempt) => PollKeeps(s, execution, attempt, w);
    case CancelRequested(_) => CancelKeeps(s, t, w);
    case CancelComplete(_, _, _) => CancelKeeps(s, t, w);
    case DispatchPrepare(_) => DispatchKeeps(s, t, w);
    case DispatchActivate(_, _) => DispatchKeeps(s, t, w);
    case DispatchRecord(_, _) => DispatchKeeps(s, t, w);
    case DispatchFail(_, _) => DispatchKeeps(s, t, w);
    case _ =>
  }

  lemma StepKeeps(sys: System, a: Action)
    requires SystemOk(sys) && Enabled(sys, a)
    ensures var (after, settled) := Step(sys, a);
      SystemOk(after) && Leads(sys.state, after.state) && (settled.Some? ==> Left(sys.state, after.state, settled.value))
  {
    if a.Resume? {
      RunKeeps(sys.state, sys.threads[a.thread], a.world);
      var (after, settled) := Step(sys, a);
      forall i | 0 <= i < |after.threads|
        ensures ThreadOk(after.state, after.threads[i])
      {
        assert i != a.thread ==> ThreadOk(sys.state, sys.threads[i]);
      }
    }
  }

  /** Every reachable system satisfies the invariant, and what was there only advanced. */
  lemma {:induction false} RunsKeep(sys: System, actions: seq<Action>)
    requires SystemOk(sys)
    ensures SystemOk(Execute(sys, actions)) && Leads(sys.state, Execute(sys, actions).state)
  {
    if actions != [] {
      var front, last := actions[..|actions| - 1], actions[|actions| - 1];
      RunsKeep(sys, front);
      var before := Execute(sys, front);
      if Enabled(before, last) {
        StepKeeps(before, last);
        LeadsTransitive(sys.state, before.state, Execute(sys, actions).state);
      }
    }
  }

  lemma InitialOk()
    ensures SystemOk(INITIAL)
  {
  }

  /**
   In every reachable state: the current attempt is the number of attempts, all but the last
   failed or expired, content is set exactly on success, cost never exceeds the cap, and no
   two executions share an idempotency key.
   */
  lemma {:induction false} ReachableStates(actions: seq<Action>, id: string)
    requires id in Execute(INITIAL, actions).state.executions
    ensures var s := Execute(INITIAL, actions).state;
      var (e, items) := (s.executions[id], AttemptsOf(s, id));
      && e.currentAttempt == |items|
      && (forall i :: 0 <= i < |items| - 1 ==> items[i].status in {AttemptStatus.Failed, Expired})
      && (e.contentHash != "" <==> e.status == Succeeded)
      && e.usedCost <= e.spec.costCap && (e.status == CostStopped ==> e.usedCost == e.spec.costCap)
      && (forall other :: other in s.executions && s.executions[other].spec.idempotencyKey == e.spec.idempotencyKey ==> other == id)
  {
    InitialOk();
    RunsKeep(INITIAL, actions);
    assert CellOk(CellOf(Execute(INITIAL, actions).state, id), id);
  }

  /** Later states: final statuses are absorbing, cost never falls and ended attempts stay as they are. */
  lemma {:induction false} LaterStates(actions: seq<Action>, more: seq<Action>, id: string)
    requires id in Execute(INITIAL, actions).state.executions
    ensures var s, t := Execute(INITIAL, actions).state, Execute(INITIAL, actions + more).state;
      && id in t.executions
      && s.executions[id].usedCost <= t.executions[id].usedCost
      && (Final(s.executions[id].status) ==> t.executions[id] == s.executions[id])
      && |AttemptsOf(s, id)| <= |AttemptsOf(t, id)|
      && (forall i :: 0 <= i < |AttemptsOf(s, id)| ==> AttemptAdvances(AttemptsOf(s, id)[i], AttemptsOf(t, id)[i]))
  {
    InitialOk();
    RunsKeep(INITIAL, actions);
    ExecuteSplits(INITIAL, actions, more);
    RunsKeep(Execute(INITIAL, actions), more);
    var s, t := Execute(INITIAL, actions).state, Execute(INITIAL, actions + more).state;
    assert Advances(CellOf(s, id), CellOf(t, id));
  }

  lemma {:induction false} ExecuteSplits(sys: System, first: seq<Action>, second: seq<Action>)
    ensures Execute(sys, first + second) == Execute(Execute(sys, first), second)
  {
    if second == [] {
      assert first + second == first;
    } else {
      var front := second[..|second| - 1];
      ExecuteSplits(sys, first, front);
      assert (first + second)[..|first + second| - 1] == first + front;
    }
  }

  /** At most one callback, observation or usage report settles an attempt, on every schedule. */
  lemma {:induction false} SettledAtMostOnce(actions: seq<Action>, attemptId: AttemptId)
    ensures Settlements(INITIAL, actions, attemptId) <= 1
    ensures Settlements(INITIAL, actions, attemptId) == 1 ==> Dead(Execute(INITIAL, actions).state, attemptId)
  {
    if actions != [] {
      var front, last := actions[..|actions| - 1], actions[|actions| - 1];
      SettledAtMostOnce(front, attemptId);
      InitialOk();
      RunsKeep(INITIAL, front);
      var before := Execute(INITIAL, front);
      if Enabled(before, last) {
        StepKeeps(before, last);
        if Dead(before.state, attemptId) {
          DeadStays(before.state, Step(before, last).0.state, attemptId);
        }
      }
    }
  }

  lemma DeadStays(s: State, t: State, attemptId: AttemptId)
    requires StateOk(s) && Leads(s, t) && Dead(s, attemptId)
    ensures Dead(t, attemptId)
  {
    var id := attemptId.logicalId;
    assert id in s.attempts && id in s.executions;
    assert Advances(CellOf(s, id), CellOf(t, id));
    assert AttemptAdvances(CellOf(s, id).attempts[attemptId.number - 1], CellOf(t, id).attempts[attemptId.number - 1]);
  }

  /**
   Cancel never completes a cancellation with number 0 while the execution has an attempt:
   the repository's unguarded branch is reached only with none, on every schedule.
   */
  lemma {:induction false} ZeroCancelHasNoAttempt(actions: seq<Action>, i: nat)
    requires var sys := Execute(INITIAL, actions); i < |sys.threads| && sys.threads[i].CancelComplete? && sys.threads[i].number <= 0
    ensures AttemptsOf(Execute(INITIAL, actions).state, Execute(INITIAL, actions).threads[i].id) == []
  {
    InitialOk();
    RunsKeep(INITIAL, actions);
    var sys := Execute(INITIAL, actions);
    assert ThreadOk(sys.state, sys.threads[i]);
  }

  /** Consumed nonces and reconciled attempts keep their records. */
  predicate Remembers(s: State, t: State) {
    && (forall nonce :: nonce in s.callbacks ==> nonce in t.callbacks && t.callbacks[nonce] == s.callbacks[nonce])
    && (forall attemptId :: attemptId in s.reconciled ==> attemptId in t.reconciled && t.reconciled[attemptId] == s.reconciled[attemptId])
  }

  /** Only callbacks and observations write to the replay tables. */
  lemma RunKeepsTables(s: State, t: Thread, w: World)
    requires !t.CallbackApply? && !t.PollObserve?
    ensures Run(s, t, w).0.callbacks == s.callbacks && Run(s, t, w).0.reconciled == s.reconciled
  {
    hide Prepare, Activate, RecordDispatch, Fail, RequestCancel, CompleteCancel, RecordUsage;
  }

  lemma RunRemembers(s: State, t: Thread, w: World)
    ensures Remembers(s, Run(s, t, w).0)
  {
    hide Receive, Reconcile;
    match t
    case CallbackApply(_) =>
    case PollObserve(_) =>
    case _ => RunRemembersTables(s, t, w);
  }

  lemma RunRemembersTables(s: State, t: Thread, w: World)
    requires !t.CallbackApply? && !t.PollObserve?
    ensures Remembers(s, Run(s, t, w).0)
  {
    hide Run;
    RunKeepsTables(s, t, w);
  }

  lemma {:induction false} RunsRemember(sys: System, actions: seq<Action>)
    ensures Remembers(sys.state, Execute(sys, actions).state)
  {
    if actions != [] {
      var front, last := actions[..|actions| - 1], actions[|actions| - 1];
      RunsRemember(sys, front);
      var before := Execute(sys, front);
      if Enabled(before, last) && last.Resume? {
        RunRemembers(before.state, before.threads[last.thread], last.world);
      }
    }
  }

  /** Once a nonce is consumed, every later callback that carries it gets the same result as a replay, or conflicts. */
  lemma {:induction false} ConsumedForever(s: State, threads: seq<Thread>, more: seq<Action>,
                                           callback: Callback, now: int, again: Callback, later: int)
    requires ApplyCallback(s, callback, now).1.Success? && again.nonceHash == callback.nonceHash
    ensures var (after, r) := ApplyCallback(s, callback, now);
      var t := Execute(System(after, threads), more).state;
      ApplyCallback(t, again, later)
      == (t, if again.payloadHash == callback.payloadHash then Success(r.value.(replay := true)) else Failure(ContentConflict))
  {
    hide Receive, Run;
    RunsRemember(System(ApplyCallback(s, callback, now).0, threads), more);
  }

  /** The same for an attempt that was reconciled by polling. */
  lemma {:induction false} ReconciledForever(s: State, threads: seq<Thread>, more: seq<Action>, o: Observation, again: Observation)
    requires ApplyTerminalObservation(s, o).1.Success? && again.attemptId == o.attemptId
    ensures var (after, r) := ApplyTerminalObservation(s, o);
      var t := Execute(System(after, threads), more).state;
      ApplyTerminalObservation(t, again)
      == (t, if again.payloadHash == o.payloadHash then Success(r.value.(replay := true)) else Failure(ContentConflict))
  {
    hide Reconcile, Run;
    RunsRemember(System(ApplyTerminalObservation(s, o).0, threads), more);
  }
}
