/**
 When a requested cancellation can still be completed. RequestCancel stops new attempts, and
 Cancel completes only with the fence of an attempt that was activated, so the request can be
 left with nothing that is able to finish it.
 */
module ExecutionCancel {
  import opened Wrappers
  import opened Text
  import opened ExecutionCell
  import opened ExecutionRepository
  import opened ExecutionService
  import opened ExecutionInvariant
  import opened ExecutionRuns

  /** A requested cancellation whose last attempt holds no fence any more, or none yet. */
  predicate Idle(c: Cell) {
    c.execution.status == ExecutionStatus.CancelRequested && c.attempts != [] && Last(c).status in {Prepared, AttemptStatus.Failed}
  }

  /** This thread is a Dispatch about to activate the attempt. */
  predicate Activates(t: Thread, id: string, number: int) {
    t.DispatchActivate? && t.id == id && t.attempt.number == number
  }

  predicate InFlight(sys: System, id: string, number: int) {
    exists i :: 0 <= i < |sys.threads| && Activates(sys.threads[i], id, number)
  }

  /** There is no attempt, or it is active, or the Dispatch that prepared it has yet to activate it. */
  predicate CanEnd(sys: System, id: string) {
    var items := AttemptsOf(sys.state, id);
    || items == []
    || items[|items| - 1].status == Active
    || (items[|items| - 1].status == Prepared && InFlight(sys, id, |items|))
  }

  predicate HasStatus(s: State, id: string, status: ExecutionStatus) {
    id in s.executions && s.executions[id].status == status
  }

  // ---- nothing but that activation moves an idle cancellation ----

  /** Every operation of the repository leaves an idle cancellation as it is, except the activation of its prepared attempt. */
  lemma IdleStays(c: Cell, id: string, number: int, token: int, lease: Lease, nonceHash: string, keyVersion: string,
                  used: Option<nat>, now: int)
    requires CellOk(c, id) && Idle(c)
    ensures Prepare(c, id, now) == (c, Failure(InvalidState))
    ensures !(number == |c.attempts| && Last(c).status == Prepared) ==> Activate(c, number, lease, nonceHash, keyVersion, now).0 == c
    ensures RecordDispatch(c, number).0 == c && Fail(c, number, token).0 == c
    ensures RequestCancel(c).0 == c
    ensures number >= 1 && token >= 1 ==> CompleteCancel(c, number, token).0 == c
    ensures RecordUsage(c, number, token, used).0 == c
  {
    assert SetStatus(c, ExecutionStatus.CancelRequested) == c;
  }

  lemma OnLeaves<T>(s: State, id: string, other: string, work: Cell -> (Cell, Result<T, Error>))
    requires id in s.executions && (other == id ==> work(CellOf(s, id)).0 == CellOf(s, id))
    ensures var t := On(s, other, work).0; id in t.executions && CellOf(t, id) == CellOf(s, id)
  {
  }

  /** One step of any thread, unless it is that activation, leaves the cell alone and starts no activation of it. */
  predicate Leaves(s: State, id: string, r: (State, Thread, Option<AttemptId>))
    requires id in s.executions
  {
    id in r.0.executions && CellOf(r.0, id) == CellOf(s, id) && !(r.1.DispatchActivate? && r.1.id == id)
  }

  lemma {:induction false} DispatchLeaves(s: State, t: Thread, w: World, id: string)
    requires StateOk(s) && id in s.executions && Idle(CellOf(s, id))
    requires t.DispatchPrepare? || t.DispatchActivate? || t.DispatchRecord? || t.DispatchFail?
    requires !(Activates(t, id, |AttemptsOf(s, id)|) && Last(CellOf(s, id)).status == Prepared)
    ensures Leaves(s, id, Run(s, t, w))
  {
    hide CellOk, Idle, Prepare, Activate, RecordDispatch, Fail, On, KeysOk;
    var c := CellOf(s, id);
    var number := if t.DispatchPrepare? then 0 else t.attempt.number;
    var token := if t.DispatchFail? then t.attempt.fencingToken else 0;
    var lease := if w.lease.Some? then w.lease.value else Lease("", AttemptId("", 0), 0, 0);
    IdleStays(c, id, number, token, lease, w.nonceHash, w.keyVersion, None, w.now);
    match t
    case DispatchPrepare(other) =>
      OnLeaves(s, id, other, c => Prepare(c, other, w.now));
      OnAnswers(s, other, c => Prepare(c, other, w.now));
    case DispatchActivate(other, attempt) =>
      OnLeaves(s, id, other, c => Activate(c, attempt.number, lease, w.nonceHash, w.keyVersion, w.now));
    case DispatchRecord(other, attempt) => OnLeaves(s, id, other, c => RecordDispatch(c, attempt.number));
    case DispatchFail(other, attempt) => OnLeaves(s, id, other, c => Fail(c, attempt.number, attempt.fencingToken));
  }

  lemma OnAnswers<T>(s: State, id: string, work: Cell -> (Cell, Result<T, Error>))
    ensures On(s, id, work).1 == if id in s.executions then work(CellOf(s, id)).1 else Failure(NotFound)
  {
  }

  lemma {:induction false} CancelLeaves(s: State, t: Thread, w: World, id: string)
    requires StateOk(s) && ThreadOk(s, t) && id in s.executions && Idle(CellOf(s, id))
    requires t.CancelRequested? || t.CancelComplete?
    ensures Leaves(s, id, Run(s, t, w))
  {
    hide CellOk, RequestCancel, CompleteCancel, On, KeysOk;
    var number, token := if t.CancelComplete? then t.number else 0, if t.CancelComplete? then t.token else 0;
    IdleStays(CellOf(s, id), id, number, token, Lease("", AttemptId("", 0), 0, 0), "", "", None, 0);
    match t
    case CancelRequested(other) => OnLeaves(s, id, other, c => RequestCancel(c));
    case CancelComplete(other, _, _) => OnLeaves(s, id, other, c => CompleteCancel(c, number, token));
  }

  lemma {:induction false} ReportLeaves(s: State, t: Thread, w: World, id: string)
    requires StateOk(s) && ThreadOk(s, t) && id in s.executions && Idle(CellOf(s, id))
    requires t.CallbackApply? || t.PollObserve?
    ensures Leaves(s, id, Run(s, t, w))
  {
    hide Receive, Reconcile, KeysOk, Advances, CellOk;
    assert CellOk(CellOf(s, id), id);
    if t.CallbackApply? && t.callback.logicalId == id {
      ReceiveKeeps(CellOf(s, id), id, t.callback, w.now);
    }
    if t.PollObserve? && t.observation.logicalId == id {
      ReconcileKeeps(CellOf(s, id), id, t.observation);
    }
  }

  lemma {:induction false} PollLeaves(s: State, execution: Execution, attempt: Attempt, w: World, id: string)
    requires StateOk(s) && id in s.executions && Idle(CellOf(s, id))
    ensures Leaves(s, id, PollStep(s, execution, attempt, w))
  {
    hide CellOk, Idle, RecordUsage, On, KeysOk;
    if w.status.Some? {
      var used := w.status.value.usedCost;
      IdleStays(CellOf(s, id), id, attempt.number, attempt.fencingToken, Lease("", AttemptId("", 0), 0, 0), "", "", used, 0);
      OnLeaves(s, id, execution.spec.logicalId, c => RecordUsage(c, attempt.number, attempt.fencingToken, used));
    }
  }

  lemma {:induction false} RunLeaves(s: State, t: Thread, w: World, id: string)
    requires StateOk(s) && ThreadOk(s, t) && id in s.executions && Idle(CellOf(s, id))
    requires !(Activates(t, id, |AttemptsOf(s, id)|) && Last(CellOf(s, id)).status == Prepared)
    ensures Leaves(s, id, Run(s, t, w))
  {
    hide StateOk, On, ApplyCallback, ApplyTerminalObservation, PollStep, Idle;
    match t
    case CallbackApply(_) => ReportLeaves(s, t, w, id);
    case PollObserve(_) => ReportLeaves(s, t, w, id);
    case PollUsage(execution, attempt) => PollLeaves(s, execution, attempt, w, id);
    case CancelRequested(_) => CancelLeaves(s, t, w, id);
    case CancelComplete(_, _, _) => CancelLeaves(s, t, w, id);
    case DispatchPrepare(_) => DispatchLeaves(s, t, w, id);
    case DispatchActivate(_, _) => DispatchLeaves(s, t, w, id);
    case DispatchRecord(_, _) => DispatchLeaves(s, t, w, id);
    case DispatchFail(_, _) => DispatchLeaves(s, t, w, id);
    case _ =>
  }

  /** A cancellation that cannot end any more: on every schedule its execution and attempts stay exactly as they are. */
  lemma {:induction false} StuckForGood(sys: System, more: seq<Action>, id: string)
    requires SystemOk(sys) && HasStatus(sys.state, id, ExecutionStatus.CancelRequested) && !CanEnd(sys, id)
    ensures var after := Execute(sys, more);
      id in after.state.executions && CellOf(after.state, id) == CellOf(sys.state, id) && !CanEnd(after, id)
  {
    if more != [] {
      var front, last := more[..|more| - 1], more[|more| - 1];
      StuckForGood(sys, front, id);
      RunsKeep(sys, front);
      var before := Execute(sys, front);
      if Enabled(before, last) {
        StuckStep(before, last, id);
      }
    }
  }

  lemma {:induction false} StuckStep(sys: System, a: Action, id: string)
    requires SystemOk(sys) && Enabled(sys, a) && HasStatus(sys.state, id, ExecutionStatus.CancelRequested) && !CanEnd(sys, id)
    ensures var after := Step(sys, a).0;
      id in after.state.executions && CellOf(after.state, id) == CellOf(sys.state, id) && !CanEnd(after, id)
  {
    hide KeysOk, Run, ThreadOk;
    assert CellOk(CellOf(sys.state, id), id);
    var number := |AttemptsOf(sys.state, id)|;
    var after := Step(sys, a).0;
    if a.Resume? {
      assert ThreadOk(sys.state, sys.threads[a.thread]);
      RunLeaves(sys.state, sys.threads[a.thread], a.world, id);
    }
    forall i | 0 <= i < |after.threads| && Activates(after.threads[i], id, number)
      ensures InFlight(sys, id, number)
    {
      assert after.threads[i] == sys.threads[i] || a.Start?;
      if a.Start? {
        RequestIsNoActivation(sys, a, i, id, number);
      }
    }
  }

  lemma RequestIsNoActivation(sys: System, a: Action, i: nat, id: string, number: int)
    requires Enabled(sys, a) && a.Start? && i < |Step(sys, a).0.threads| && Activates(Step(sys, a).0.threads[i], id, number)
    ensures InFlight(sys, id, number)
  {
    assert Step(sys, a).0.threads[i] == sys.threads[i];
  }

  // ---- in every other case some continuation completes it ----

  /** The two calls of Cancel on one cell: the attempt they name is the one the first call answers with. */
  lemma CellCancels(c: Cell, id: string)
    requires CellOk(c, id) && c.execution.status in {Running, ExecutionStatus.CancelRequested}
    requires c.attempts == [] || Last(c).status == Active
    ensures var (d, r) := RequestCancel(c);
      && d.execution.status == ExecutionStatus.CancelRequested && d.attempts == c.attempts && r.Success?
      && r.value.0 == (if c.attempts == [] then None else Some(Last(c)))
      && (c.attempts == [] ==> CompleteCancel(d, 0, 0).0.execution.status == ExecutionStatus.Cancelled)
      && (c.attempts != [] ==>
            && HasEnvelope(Last(c))
            && CompleteCancel(d, Last(c).number, Last(c).fencingToken).0.execution.status == ExecutionStatus.Cancelled)
  {
  }

  lemma CellActivates(c: Cell, id: string)
    requires CellOk(c, id) && c.attempts != [] && Last(c).status == Prepared
    ensures var w := Granting(c.execution.spec.agentId, id, |c.attempts|);
      var d := Activate(c, |c.attempts|, w.lease.value, w.nonceHash, w.keyVersion, w.now).0;
      d.execution.status == Running && d.attempts != [] && Last(d).status == Active
  {
    hide ValidDigest;
    DigestIsValid();
  }

  /** A world in which the lease is granted and the agent acknowledges a cancellation but accepts no execution. */
  function Granting(agentId: string, id: string, number: int): World {
    World(0, Some(Lease(agentId, AttemptId(id, number), 1, 1)), DIGEST, "v1", Some(CreateReply(false, false)), None, None, "", Some(true))
  }

  /** One call of Cancel, as thread n, that the agent acknowledges. */
  function CancelCall(n: nat, id: string): seq<Action> {
    [Start(Thread.CancelRequested(id)), Resume(n, Granting("", id, 0)), Resume(n, Granting("", id, 0))]
  }

  lemma ExecuteOne(sys: System, actions: seq<Action>, a: Action)
    ensures var before := Execute(sys, actions);
      Execute(sys, actions + [a]) == if Enabled(before, a) then Step(before, a).0 else before
  {
    assert (actions + [a])[..|actions|] == actions;
  }

  /** Three steps one after the other. */
  lemma ExecuteThree(sys: System, a: Action, b: Action, c: Action)
    requires Enabled(sys, a) && Enabled(Step(sys, a).0, b) && Enabled(Step(Step(sys, a).0, b).0, c)
    ensures Execute(sys, [a, b, c]) == Step(Step(Step(sys, a).0, b).0, c).0
  {
    hide Step, Enabled;
    ExecuteOne(sys, [], a);
    ExecuteOne(sys, [a], b);
    ExecuteOne(sys, [a, b], c);
    assert [] + [a] == [a] && [a] + [b] == [a, b] && [a, b] + [c] == [a, b, c];
  }

  lemma AskRuns(s: State, id: string)
    requires StateOk(s) && id in s.executions && s.executions[id].status in {Running, ExecutionStatus.CancelRequested}
    requires AttemptsOf(s, id) == [] || Last(CellOf(s, id)).status == Active
    ensures var (t, thread, _) := Run(s, Thread.CancelRequested(id), Granting("", id, 0));
      && id in t.executions && CellOf(t, id) == RequestCancel(CellOf(s, id)).0
      && thread == (if AttemptsOf(s, id) == [] then CancelComplete(id, 0, 0)
                    else CancelComplete(id, Last(CellOf(s, id)).number, Last(CellOf(s, id)).fencingToken))
  {
    hide CellOk, RequestCancel, CompleteCancel, KeysOk;
    assert CellOk(CellOf(s, id), id);
    CellCancels(CellOf(s, id), id);
  }

  lemma FinishRuns(s: State, id: string, number: int, token: int, w: World)
    requires id in s.executions && CompleteCancel(CellOf(s, id), number, token).0.execution.status == ExecutionStatus.Cancelled
    ensures HasStatus(Run(s, CancelComplete(id, number, token), w).0, id, ExecutionStatus.Cancelled)
  {
    hide CompleteCancel;
  }

  /** Cancel completes whenever there is no attempt or an active one, and the execution has not ended. */
  lemma {:induction false} CancelCompletes(sys: System, id: string)
    requires SystemOk(sys) && id in sys.state.executions && sys.state.executions[id].status in {Running, ExecutionStatus.CancelRequested}
    requires AttemptsOf(sys.state, id) == [] || Last(CellOf(sys.state, id)).status == Active
    ensures HasStatus(Execute(sys, CancelCall(|sys.threads|, id)).state, id, ExecutionStatus.Cancelled)
  {
    hide CellOk, RequestCancel, CompleteCancel, ThreadOk, KeysOk, Run;
    var n, c, w := |sys.threads|, CellOf(sys.state, id), Granting("", id, 0);
    assert CellOk(c, id);
    CellCancels(c, id);
    AskRuns(sys.state, id);
    var asked := Step(sys, Start(Thread.CancelRequested(id))).0;
    assert asked.threads[n] == Thread.CancelRequested(id) && asked.state == sys.state;
    var requested := Step(asked, Resume(n, w)).0;
    var t := requested.threads[n];
    FinishRuns(requested.state, id, t.number, t.token, w);
    ExecuteThree(sys, Start(Thread.CancelRequested(id)), Resume(n, w), Resume(n, w));
  }

  /** The activation in flight succeeds when its lease is granted. */
  lemma {:induction false} ActivationRuns(sys: System, id: string, i: nat)
    requires SystemOk(sys) && HasStatus(sys.state, id, ExecutionStatus.CancelRequested)
    requires AttemptsOf(sys.state, id) != [] && Last(CellOf(sys.state, id)).status == Prepared
    requires i < |sys.threads| && Activates(sys.threads[i], id, |AttemptsOf(sys.state, id)|)
    ensures var w := Granting(sys.state.executions[id].spec.agentId, id, |AttemptsOf(sys.state, id)|);
      var after := Execute(sys, [Resume(i, w)]);
      HasStatus(after.state, id, Running) && AttemptsOf(after.state, id) != [] && Last(CellOf(after.state, id)).status == Active
  {
    hide CellOk, Activate, ThreadOk, KeysOk;
    var c := CellOf(sys.state, id);
    assert CellOk(c, id);
    CellActivates(c, id);
    var w := Granting(c.execution.spec.agentId, id, |c.attempts|);
    ExecuteOne(sys, [], Resume(i, w));
    assert [] + [Resume(i, w)] == [Resume(i, w)];
  }

  lemma {:induction false} EndsBy(sys: System, id: string) returns (more: seq<Action>)
    requires SystemOk(sys) && HasStatus(sys.state, id, ExecutionStatus.CancelRequested) && CanEnd(sys, id)
    ensures HasStatus(Execute(sys, more).state, id, ExecutionStatus.Cancelled)
  {
    var items := AttemptsOf(sys.state, id);
    if items == [] || items[|items| - 1].status == Active {
      CancelCompletes(sys, id);
      more := CancelCall(|sys.threads|, id);
    } else {
      var i :| 0 <= i < |sys.threads| && Activates(sys.threads[i], id, |items|);
      var first := [Resume(i, Granting(sys.state.executions[id].spec.agentId, id, |items|))];
      ActivationRuns(sys, id, i);
      RunsKeep(sys, first);
      var later := Execute(sys, first);
      CancelCompletes(later, id);
      more := first + CancelCall(|later.threads|, id);
      ExecuteSplits(sys, first, CancelCall(|later.threads|, id));
    }
  }

  /**
   In every reachable system a requested cancellation can still be completed exactly when there is
   no attempt, the last one is active, or the last one is prepared and its Dispatch has yet to
   activate it; otherwise it stays requested on every schedule.
   */
  lemma {:induction false} CancellationEndsIff(actions: seq<Action>, id: string)
    requires HasStatus(Execute(INITIAL, actions).state, id, ExecutionStatus.CancelRequested)
    ensures var sys := Execute(INITIAL, actions);
      && (CanEnd(sys, id) <==> exists more :: HasStatus(Execute(sys, more).state, id, ExecutionStatus.Cancelled))
      && (CanEnd(sys, id) <==> exists more :: !HasStatus(Execute(sys, more).state, id, ExecutionStatus.CancelRequested))
  {
    InitialOk();
    RunsKeep(INITIAL, actions);
    var sys := Execute(INITIAL, actions);
    if CanEnd(sys, id) {
      var more := EndsBy(sys, id);
      assert !HasStatus(Execute(sys, more).state, id, ExecutionStatus.CancelRequested);
    } else {
      forall more
        ensures HasStatus(Execute(sys, more).state, id, ExecutionStatus.CancelRequested)
      {
        StuckForGood(sys, more, id);
      }
    }
  }

  // ---- steps that overwrite the request ----

  /** Activation would succeed on the last attempt. */
  predicate Activatable(c: Cell, number: int, w: World)
    requires w.lease.Some?
  {
    && IsCurrent(c, number) && Last(c).status == Prepared
    && w.lease.value.agentId == c.execution.spec.agentId && w.lease.value.reservationId == Last(c).reservationId
    && w.lease.value.fencingToken >= 1 && w.lease.value.expiresAt > w.now && ValidDigest(w.nonceHash) && w.keyVersion != ""
  }

  /** This attempt is the active one. */
  predicate Holds(c: Cell, attempt: Attempt) {
    IsCurrent(c, attempt.number) && Last(c).status == Active && Last(c).fencingToken == attempt.fencingToken
  }

  /** Activation, failure after a refused dispatch and a usage report over the cap do not look at the request. */
  predicate Overwrites(c: Cell, id: string, t: Thread, w: World) {
    match t
    case DispatchActivate(other, attempt) => other == id && w.lease.Some? && Activatable(c, attempt.number, w)
    case DispatchFail(other, attempt) => other == id && Holds(c, attempt)
    case PollUsage(execution, attempt) =>
      && execution.spec.logicalId == id && Holds(c, attempt)
      && w.status.Some? && w.status.value.usedCost.Some? && w.status.value.usedCost.value > c.execution.spec.costCap
      && w.status.value.status in {Running, Succeeded, ExecutionStatus.Failed, ExecutionStatus.Cancelled}
    case _ => false
  }

  predicate Kept(e: Execution) {
    e.status in {ExecutionStatus.CancelRequested, ExecutionStatus.Cancelled}
  }

  lemma CellKeepsRequest(c: Cell, id: string, number: int, token: int, now: int)
    requires CellOk(c, id) && c.execution.status == ExecutionStatus.CancelRequested
    ensures Kept(Prepare(c, id, now).0.execution) && Kept(RecordDispatch(c, number).0.execution)
    ensures Kept(RequestCancel(c).0.execution) && Kept(CompleteCancel(c, number, token).0.execution)
  {
  }

  lemma CellLosesRequest(c: Cell, id: string, attempt: Attempt, w: World)
    requires CellOk(c, id) && c.execution.status == ExecutionStatus.CancelRequested
    ensures w.lease.Some? ==>
      (Kept(Activate(c, attempt.number, w.lease.value, w.nonceHash, w.keyVersion, w.now).0.execution) <==> !Activatable(c, attempt.number, w))
    ensures Kept(Fail(c, attempt.number, attempt.fencingToken).0.execution) <==> !Holds(c, attempt)
    ensures w.status.Some? ==>
      (Kept(RecordUsage(c, attempt.number, attempt.fencingToken, w.status.value.usedCost).0.execution) <==>
        !(Holds(c, attempt) && w.status.value.usedCost.Some? && w.status.value.usedCost.value > c.execution.spec.costCap))
  {
    hide ValidDigest;
  }

  lemma ReceiveKeepsRequest(c: Cell, id: string, callback: Callback, now: int)
    requires CellOk(c, id) && c.execution.status == ExecutionStatus.CancelRequested
    ensures Kept(Receive(c, callback, now).0.execution)
  {
    hide ValidDigest;
  }

  lemma ReconcileKeepsRequest(c: Cell, id: string, o: Observation)
    requires CellOk(c, id) && c.execution.status == ExecutionStatus.CancelRequested
    ensures Kept(Reconcile(c, o).0.execution)
  {
    hide ValidDigest;
  }

  lemma OnKept<T>(s: State, id: string, other: string, work: Cell -> (Cell, Result<T, Error>))
    requires HasStatus(s, id, ExecutionStatus.CancelRequested)
    ensures var t := On(s, other, work).0;
      id in t.executions && (Kept(t.executions[id]) <==> other != id || Kept(work(CellOf(s, id)).0.execution))
  {
  }

  /** Whether this step overwrites the request is decided as stated. */
  predicate Decided(s: State, t: Thread, w: World, id: string)
    requires id in s.executions
  {
    var after := Run(s, t, w).0;
    id in after.executions && (Kept(after.executions[id]) <==> !Overwrites(CellOf(s, id), id, t, w))
  }

  lemma {:induction false} DispatchDecides(s: State, t: Thread, w: World, id: string)
    requires StateOk(s) && HasStatus(s, id, ExecutionStatus.CancelRequested)
    requires t.DispatchPrepare? || t.DispatchActivate? || t.DispatchRecord? || t.DispatchFail?
    ensures Decided(s, t, w, id)
  {
    hide CellOk, KeysOk, Kept, Activatable, Holds, Prepare, Activate, RecordDispatch, Fail, On;
    var c := CellOf(s, id);
    assert CellOk(c, id);
    KeptAsItIs(s.executions[id]);
    var attempt := if t.DispatchPrepare? then NewAttempt(id, 0) else t.attempt;
    CellKeepsRequest(c, id, attempt.number, 0, w.now);
    CellLosesRequest(c, id, attempt, w);
    match t
    case DispatchPrepare(other) => OnKept(s, id, other, c => Prepare(c, other, w.now));
    case DispatchActivate(other, _) =>
      if w.lease.Some? {
        OnKept(s, id, other, c => Activate(c, attempt.number, w.lease.value, w.nonceHash, w.keyVersion, w.now));
      }
    case DispatchRecord(other, _) => OnKept(s, id, other, c => RecordDispatch(c, attempt.number));
    case DispatchFail(other, _) => OnKept(s, id, other, c => Fail(c, attempt.number, attempt.fencingToken));
  }

  lemma {:induction false} PollDecides(s: State, t: Thread, w: World, id: string)
    requires StateOk(s) && HasStatus(s, id, ExecutionStatus.CancelRequested) && t.PollUsage?
    ensures Decided(s, t, w, id)
  {
    hide CellOk, KeysOk, Kept, Holds, RecordUsage, On;
    var c := CellOf(s, id);
    assert CellOk(c, id);
    KeptAsItIs(s.executions[id]);
    CellLosesRequest(c, id, t.attempt, w);
    if w.status.Some? {
      OnKept(s, id, t.execution.spec.logicalId, c => RecordUsage(c, t.attempt.number, t.attempt.fencingToken, w.status.value.usedCost));
    }
  }

  lemma {:induction false} CancelDecides(s: State, t: Thread, w: World, id: string)
    requires StateOk(s) && HasStatus(s, id, ExecutionStatus.CancelRequested) && (t.CancelRequested? || t.CancelComplete?)
    ensures Decided(s, t, w, id)
  {
    hide CellOk, KeysOk, Kept, RequestCancel, CompleteCancel, On;
    assert CellOk(CellOf(s, id), id);
    KeptAsItIs(s.executions[id]);
    var number, token := if t.CancelComplete? then t.number else 0, if t.CancelComplete? then t.token else 0;
    CellKeepsRequest(CellOf(s, id), id, number, token, 0);
    match t
    case CancelRequested(other) => OnKept(s, id, other, c => RequestCancel(c));
    case CancelComplete(other, _, _) => OnKept(s, id, other, c => CompleteCancel(c, number, token));
  }

  lemma {:induction false} ReportDecides(s: State, t: Thread, w: World, id: string)
    requires StateOk(s) && HasStatus(s, id, ExecutionStatus.CancelRequested) && (t.CallbackApply? || t.PollObserve?)
    ensures Decided(s, t, w, id)
  {
    hide CellOk, KeysOk, Kept, Receive, Reconcile;
    assert CellOk(CellOf(s, id), id);
    KeptAsItIs(s.executions[id]);
    match t
    case CallbackApply(callback) => ReceiveKeepsRequest(CellOf(s, id), id, callback, w.now);
    case PollObserve(o) => ReconcileKeepsRequest(CellOf(s, id), id, o);
  }

  lemma {:induction false} RunDecides(s: State, t: Thread, w: World, id: string)
    requires StateOk(s) && HasStatus(s, id, ExecutionStatus.CancelRequested)
    ensures Decided(s, t, w, id)
  {
    hide StateOk;
    if t.DispatchPrepare? || t.DispatchActivate? || t.DispatchRecord? || t.DispatchFail? {
      DispatchDecides(s, t, w, id);
    } else if t.PollUsage? {
      PollDecides(s, t, w, id);
    } else if t.CancelRequested? || t.CancelComplete? {
      CancelDecides(s, t, w, id);
    } else if t.CallbackApply? || t.PollObserve? {
      ReportDecides(s, t, w, id);
    } else {
      hide On, PollStep, ApplyCallback, ApplyTerminalObservation, Activatable, Holds;
    }
  }

  lemma KeptAsItIs(e: Execution)
    requires e.status == ExecutionStatus.CancelRequested
    ensures Kept(e)
  {
  }

  /**
   In every reachable system a requested cancellation is overwritten by a step, so that the execution
   is then neither requested nor cancelled, exactly when the step is one of these three.
   */
  lemma {:induction false} RequestIsLostIff(actions: seq<Action>, id: string, i: nat, w: World)
    requires var sys := Execute(INITIAL, actions);
      i < |sys.threads| && HasStatus(sys.state, id, ExecutionStatus.CancelRequested)
    ensures var sys := Execute(INITIAL, actions); var after := Step(sys, Resume(i, w)).0.state;
      && id in after.executions
      && (after.executions[id].status !in {ExecutionStatus.CancelRequested, ExecutionStatus.Cancelled}
          <==> Overwrites(CellOf(sys.state, id), id, sys.threads[i], w))
  {
    hide Overwrites, Run, StateOk;
    InitialOk();
    RunsKeep(INITIAL, actions);
    var sys := Execute(INITIAL, actions);
    RunDecides(sys.state, sys.threads[i], w, id);
  }

  // ---- both ways of being left with nothing are reachable ----

  /** Two steps one after the other. */
  lemma ExecuteTwo(sys: System, actions: seq<Action>, a: Action, b: Action)
    requires var before := Execute(sys, actions); Enabled(before, a) && Enabled(Step(before, a).0, b)
    ensures Execute(sys, actions + [a, b]) == Step(Step(Execute(sys, actions), a).0, b).0
  {
    hide Step, Enabled;
    ExecuteOne(sys, actions, a);
    ExecuteOne(sys, actions + [a], b);
    assert actions + [a] + [b] == actions + [a, b];
  }

  /** One execution is created and a Dispatch prepares its first attempt. */
  function PreparedRun(spec: Spec): seq<Action> {
    var w := Granting(spec.agentId, spec.logicalId, 1);
    [Start(Create(spec)), Resume(0, w)] + [Start(DispatchPrepare(spec.logicalId)), Resume(1, w)]
  }

  function OneExecution(e: Execution, items: seq<Attempt>): State {
    State(map[e.spec.logicalId := e], if items == [] then map[] else map[e.spec.logicalId := items],
          map[e.spec.idempotencyKey := e.spec.logicalId], map[], map[])
  }

  /** The repository with this one execution and the given attempt as its only one. */
  function WithAttempt(spec: Spec, status: ExecutionStatus, attempt: Attempt): State {
    OneExecution(Execution(spec, status, 1, 0, "", ""), [attempt])
  }

  lemma OnOne<T>(e: Execution, items: seq<Attempt>, work: Cell -> (Cell, Result<T, Error>))
    requires work(Cell(e, items)).0.execution.spec == e.spec && work(Cell(e, items)).0.attempts != []
    ensures var (c, r) := work(Cell(e, items));
      On(OneExecution(e, items), e.spec.logicalId, work) == (OneExecution(c.execution, c.attempts), r)
  {
    var s, id, c := OneExecution(e, items), e.spec.logicalId, work(Cell(e, items)).0;
    assert CellOf(s, id) == Cell(e, items);
    assert s.executions[id := c.execution] == map[id := c.execution];
    assert s.attempts[id := c.attempts] == map[id := c.attempts];
  }

  lemma PrepareRuns(spec: Spec, w: World)
    ensures var id := spec.logicalId; var a := NewAttempt(id, 1);
      Run(OneExecution(Execution(spec, Pending, 0, 0, "", ""), []), DispatchPrepare(id), w)
      == (WithAttempt(spec, Pending, a), DispatchActivate(id, a), None)
  {
    var e := Execution(spec, Pending, 0, 0, "", "");
    assert [] + [NewAttempt(spec.logicalId, 1)] == [NewAttempt(spec.logicalId, 1)];
    OnOne(e, [], c => Prepare(c, spec.logicalId, w.now));
  }

  lemma PreparedRuns(spec: Spec)
    ensures var a := NewAttempt(spec.logicalId, 1);
      Execute(INITIAL, PreparedRun(spec)) == System(WithAttempt(spec, Pending, a), [Done, DispatchActivate(spec.logicalId, a)])
  {
    hide Prepare;
    var id, w := spec.logicalId, Granting(spec.agentId, spec.logicalId, 1);
    var create := [Start(Create(spec)), Resume(0, w)];
    ExecuteTwo(INITIAL, [], Start(Create(spec)), Resume(0, w));
    assert [] + create == create;
    var empty := OneExecution(Execution(spec, Pending, 0, 0, "", ""), []);
    assert Execute(INITIAL, create) == System(empty, [Done]);
    PrepareRuns(spec, w);
    ExecuteTwo(INITIAL, create, Start(DispatchPrepare(id)), Resume(1, w));
  }

  /** The lease is refused after the attempt was prepared, and then the execution is cancelled. */
  function LostDispatch(spec: Spec): seq<Action> {
    var w := Granting(spec.agentId, spec.logicalId, 1);
    PreparedRun(spec) + [Resume(1, w.(lease := None))] + [Start(Thread.CancelRequested(spec.logicalId)), Resume(2, w)]
  }

  /** Cancel, called while the last attempt holds no fence, only records the request. */
  lemma UnfencedCancelRuns(spec: Spec, status: ExecutionStatus, attempt: Attempt, w: World)
    requires status !in {Succeeded, CostStopped, ExecutionStatus.Cancelled}
    requires w.cancelled != Some(true) || attempt.fencingToken < 1
    ensures Run(WithAttempt(spec, status, attempt), Thread.CancelRequested(spec.logicalId), w)
         == (WithAttempt(spec, ExecutionStatus.CancelRequested, attempt), Done, None)
  {
    OnOne(Execution(spec, status, 1, 0, "", ""), [attempt], c => RequestCancel(c));
  }

  lemma LostDispatchIsStuck(spec: Spec)
    ensures var sys := Execute(INITIAL, LostDispatch(spec));
      && HasStatus(sys.state, spec.logicalId, ExecutionStatus.CancelRequested) && !CanEnd(sys, spec.logicalId)
      && AttemptsOf(sys.state, spec.logicalId) == [NewAttempt(spec.logicalId, 1)]
  {
    var id, w, a := spec.logicalId, Granting(spec.agentId, spec.logicalId, 1), NewAttempt(spec.logicalId, 1);
    PreparedRuns(spec);
    var lost := PreparedRun(spec) + [Resume(1, w.(lease := None))];
    ExecuteOne(INITIAL, PreparedRun(spec), Resume(1, w.(lease := None)));
    assert Execute(INITIAL, lost) == System(WithAttempt(spec, Pending, a), [Done, Done]);
    UnfencedCancelRuns(spec, Pending, a, w);
    ExecuteTwo(INITIAL, lost, Start(Thread.CancelRequested(id)), Resume(2, w));
  }

  /** Cancelled between preparation and activation, the execution is running again after the next step. */
  lemma ActivationOverwrites(spec: Spec)
    ensures var id := spec.logicalId; var w := Granting(spec.agentId, id, 1);
      var sys := Execute(INITIAL, PreparedRun(spec) + [Start(Thread.CancelRequested(id)), Resume(2, w)]);
      && HasStatus(sys.state, id, ExecutionStatus.CancelRequested) && |sys.threads| == 3
      && Overwrites(CellOf(sys.state, id), id, sys.threads[1], w)
      && HasStatus(Step(sys, Resume(1, w)).0.state, id, Running)
  {
    hide ValidDigest;
    DigestIsValid();
    var id, w, a := spec.logicalId, Granting(spec.agentId, spec.logicalId, 1), NewAttempt(spec.logicalId, 1);
    PreparedRuns(spec);
    UnfencedCancelRuns(spec, Pending, a, w);
    ExecuteTwo(INITIAL, PreparedRun(spec), Start(Thread.CancelRequested(id)), Resume(2, w));
  }

  /** The agent refuses the activated execution, Dispatch fails the attempt, and then the execution is cancelled. */
  function RefusedDispatch(spec: Spec): seq<Action> {
    var w := Granting(spec.agentId, spec.logicalId, 1);
    PreparedRun(spec) + [Resume(1, w), Resume(1, w)] + [Resume(1, w)]
    + [Start(Thread.CancelRequested(spec.logicalId)), Resume(2, w.(cancelled := None))]
  }

  /** The attempt as the granting world activates it. */
  function Activated(id: string): Attempt {
    NewAttempt(id, 1).(status := Active, fencingToken := 1, leaseExpiresAt := 1, nonceHash := DIGEST, nonceKeyVersion := "v1")
  }

  lemma ActivateRuns(spec: Spec)
    ensures var id := spec.logicalId; var w := Granting(spec.agentId, id, 1);
      Run(WithAttempt(spec, Pending, NewAttempt(id, 1)), DispatchActivate(id, NewAttempt(id, 1)), w)
      == (WithAttempt(spec, Running, Activated(id)), DispatchRecord(id, Activated(id)), None)
  {
    hide ValidDigest;
    DigestIsValid();
    var items, w := [NewAttempt(spec.logicalId, 1)], Granting(spec.agentId, spec.logicalId, 1);
    assert items[0 := Activated(spec.logicalId)] == [Activated(spec.logicalId)];
    OnOne(Execution(spec, Pending, 1, 0, "", ""), items, c => Activate(c, 1, w.lease.value, w.nonceHash, w.keyVersion, w.now));
  }

  lemma RefusalRuns(spec: Spec)
    ensures var id := spec.logicalId; var w := Granting(spec.agentId, id, 1); var a := Activated(id);
      && Run(WithAttempt(spec, Running, a), DispatchRecord(id, a), w)
         == (WithAttempt(spec, Running, a.(dispatchCount := 1)), DispatchFail(id, a), None)
      && Run(WithAttempt(spec, Running, a.(dispatchCount := 1)), DispatchFail(id, a), w)
         == (WithAttempt(spec, ExecutionStatus.Failed, a.(dispatchCount := 1, status := AttemptStatus.Failed)), Done, None)
  {
    var a := Activated(spec.logicalId);
    var b := a.(dispatchCount := 1);
    assert [a][0 := b] == [b] && [b][0 := b.(status := AttemptStatus.Failed)] == [b.(status := AttemptStatus.Failed)];
    OnOne(Execution(spec, Running, 1, 0, "", ""), [a], c => RecordDispatch(c, 1));
    OnOne(Execution(spec, Running, 1, 0, "", ""), [b], c => Fail(c, 1, 1));
  }

  lemma RefusedDispatchIsStuck(spec: Spec)
    ensures var sys := Execute(INITIAL, RefusedDispatch(spec));
      && HasStatus(sys.state, spec.logicalId, ExecutionStatus.CancelRequested) && !CanEnd(sys, spec.logicalId)
      && AttemptsOf(sys.state, spec.logicalId) != [] && AttemptsOf(sys.state, spec.logicalId)[0].status == AttemptStatus.Failed
  {
    hide Run, DIGEST;
    var id, w, a := spec.logicalId, Granting(spec.agentId, spec.logicalId, 1), Activated(spec.logicalId);
    var b := a.(dispatchCount := 1);
    var c := b.(status := AttemptStatus.Failed);
    PreparedRuns(spec);
    ActivateRuns(spec);
    RefusalRuns(spec);
    var recorded := PreparedRun(spec) + [Resume(1, w), Resume(1, w)];
    ExecuteTwo(INITIAL, PreparedRun(spec), Resume(1, w), Resume(1, w));
    assert Execute(INITIAL, recorded) == System(WithAttempt(spec, Running, b), [Done, DispatchFail(id, a)]);
    ExecuteOne(INITIAL, recorded, Resume(1, w));
    assert Execute(INITIAL, recorded + [Resume(1, w)]) == System(WithAttempt(spec, ExecutionStatus.Failed, c), [Done, Done]);
    UnfencedCancelRuns(spec, ExecutionStatus.Failed, c, w.(cancelled := None));
    ExecuteTwo(INITIAL, recorded + [Resume(1, w)], Start(Thread.CancelRequested(id)), Resume(2, w.(cancelled := None)));
  }
}
