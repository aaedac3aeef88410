/**
 Dispatch, Poll, Cancel and HandleCallback of services/engine/internal/execution/service.go
 as threads: each step of a thread is one repository call together with the local work up
 to the next one. Threads interleave freely between steps.
 */
module ExecutionService {
  import opened Wrappers
  import opened Text
  import opened ExecutionCell
  import opened ExecutionRepository

  /** A thread by its next repository call and the locals that call needs. */
  datatype Thread =
    | Create(spec: Spec)
    | DispatchPrepare(id: string)
    | DispatchActivate(id: string, attempt: Attempt)
    | DispatchRecord(id: string, attempt: Attempt)
    | DispatchFail(id: string, attempt: Attempt)
    | DispatchGet(id: string)
    | PollGet(id: string)
    | PollCurrent(id: string, execution: Execution)
    | PollUsage(execution: Execution, attempt: Attempt)
    | PollStale(id: string)
    | PollObserve(observation: Observation)
    | CancelRequested(id: string)
    | CancelComplete(id: string, number: int, token: int)
    | CallbackApply(callback: Callback)
    | CallbackCurrent(id: string)
    | Done

  datatype CreateReply = CreateReply(accepted: bool, live: bool)

  datatype StatusReply = StatusReply(status: ExecutionStatus, usedCost: Option<nat>)

  datatype Deliverable = Deliverable(contentHash: string, deliverableRef: string)

  /** What the outside world answers around one step; None is a failed call. */
  datatype World = World(
    now: int,
    lease: Option<Lease>, nonceHash: string, keyVersion: string,
    created: Option<CreateReply>,
    status: Option<StatusReply>,
    deliverable: Option<Deliverable>, payloadHash: string,
    cancelled: Option<bool>)

  predicate Request(t: Thread) {
    t.Create? || t.DispatchPrepare? || t.PollGet? || t.CancelRequested? || (t.CallbackApply? && Verified(t.callback))
  }

  /** An envelope can be built only for an attempt that holds a fence. */
  predicate HasEnvelope(attempt: Attempt) {
    attempt.fencingToken >= 1
  }

  /** The observation Poll builds from the status reply, if the replies are acceptable. */
  function Observe(execution: Execution, attempt: Attempt, w: World): Option<Observation>
    requires w.status.Some? && w.status.value.usedCost.Some?
  {
    var used := w.status.value.usedCost.value;
    var make := (report: Report) =>
      Observation(execution.spec.logicalId, attempt.attemptId, execution.spec.agentId, attempt.fencingToken,
                  w.status.value.status, report, w.payloadHash);
    if w.status.value.status != Succeeded then Some(make(Report(false, used, "", "")))
    else if w.deliverable.None? || !ValidDigest(w.deliverable.value.contentHash) || Blank(w.deliverable.value.deliverableRef) then None
    else Some(make(Report(true, used, w.deliverable.value.contentHash, w.deliverable.value.deliverableRef)))
  }

  /** Was this answer the first acceptance or cost stop of its key? */
  predicate First(r: Result<Settled, Error>) {
    r.Success? && !r.value.replay && r.value.outcome in {Accepted, CostStop}
  }

  /** One step; the last component is the attempt that the step settled, if any. */
  function Run(s: State, t: Thread, w: World): (State, Thread, Option<AttemptId>) {
    match t
    case Create(spec) => (GetOrCreate(s, spec).0, Done, None)
    case DispatchPrepare(id) =>
      var (after, r) := On(s, id, c => Prepare(c, id, w.now));
      (after, if r.Success? then DispatchActivate(id, r.value.0) else Done, None)
    case DispatchActivate(id, attempt) =>
      if w.lease.None? then (s, Done, None)
      else
        var (after, r) := On(s, id, c => Activate(c, attempt.number, w.lease.value, w.nonceHash, w.keyVersion, w.now));
        (after, if r.Success? then DispatchRecord(id, r.value) else Done, None)
    case DispatchRecord(id, attempt) =>
      var (after, r) := On(s, id, c => RecordDispatch(c, attempt.number));
      (after,
       if w.created.None? || r.Failure? then Done
       else if !w.created.value.accepted || !w.created.value.live then DispatchFail(id, attempt)
       else DispatchGet(id),
       None)
    case DispatchFail(id, attempt) => (On(s, id, c => Fail(c, attempt.number, attempt.fencingToken)).0, Done, None)
    case DispatchGet(id) => (s, Done, None)
    case PollGet(id) => (s, if id in s.executions then PollCurrent(id, s.executions[id]) else Done, None)
    case PollCurrent(id, execution) =>
      var items := AttemptsOf(s, id);
      (s,
       if items == [] || !HasEnvelope(items[|items| - 1]) then Done else PollUsage(execution, items[|items| - 1]),
       None)
    case PollUsage(execution, attempt) => PollStep(s, execution, attempt, w)
    case PollStale(id) => (s, Done, None)
    case PollObserve(o) =>
      var (after, r) := ApplyTerminalObservation(s, o);
      (after, Done, if First(r) then Some(o.attemptId) else None)
    case CancelRequested(id) =>
      var (after, r) := On(s, id, c => RequestCancel(c));
      (after,
       if r.Failure? then Done
       else if r.value.0.None? then CancelComplete(id, 0, 0)
       else if !HasEnvelope(r.value.0.value) then Done
       else if after.executions[id].status != ExecutionStatus.Cancelled && w.cancelled != Some(true) then Done
       else CancelComplete(id, r.value.0.value.number, r.value.0.value.fencingToken),
       None)
    case CancelComplete(id, number, token) => (On(s, id, c => CompleteCancel(c, number, token)).0, Done, None)
    case CallbackApply(callback) =>
      var (after, r) := ApplyCallback(s, callback, w.now);
      (after, if First(r) then CallbackCurrent(callback.logicalId) else Done, if First(r) then Some(callback.attemptId) else None)
    case CallbackCurrent(id) => (s, Done, None)
    case Done => (s, Done, None)
  }

  /** Poll's usage step; an acceptable final status leads to the observation step. */
  function PollStep(s: State, execution: Execution, attempt: Attempt, w: World): (State, Thread, Option<AttemptId>) {
    var id := execution.spec.logicalId;
    if w.status.None? || w.status.value.usedCost.None?
       || w.status.value.status !in {Running, Succeeded, ExecutionStatus.Failed, ExecutionStatus.Cancelled} then (s, Done, None)
    else
      var (after, r) := On(s, id, c => RecordUsage(c, attempt.number, attempt.fencingToken, w.status.value.usedCost));
      match r
      case Failure(e) => (after, if e == StaleFence then PollStale(id) else Done, None)
      case Success(true) => (after, Done, Some(AttemptId(id, attempt.number)))
      case Success(false) =>
        if w.status.value.status == Running then (after, Done, None)
        else
          var o := Observe(execution, attempt, w);
          (after, if o.Some? then PollObserve(o.value) else Done, None)
  }

  datatype System = System(state: State, threads: seq<Thread>)

  datatype Action = Start(request: Thread) | Resume(thread: nat, world: World)

  predicate Enabled(sys: System, a: Action) {
    match a
    case Start(t) => Request(t)
    case Resume(i, _) => i < |sys.threads|
  }

  function Step(sys: System, a: Action): (System, Option<AttemptId>)
    requires Enabled(sys, a)
  {
    match a
    case Start(t) => (sys.(threads := sys.threads + [t]), None)
    case Resume(i, w) =>
      var (state, t, settled) := Run(sys.state, sys.threads[i], w);
      (System(state, sys.threads[i := t]), settled)
  }

  const INITIAL := System(EMPTY, [])

  /** A schedule: disabled actions are not taken. */
  function Execute(sys: System, actions: seq<Action>): System
  {
    if actions == [] then sys
    else
      var before := Execute(sys, actions[..|actions| - 1]);
      var last := actions[|actions| - 1];
      if Enabled(before, last) then Step(before, last).0 else before
  }

  /** How often a schedule settles this attempt: accepts an outcome for it or stops it for its cost. */
  function Settlements(sys: System, actions: seq<Action>, attemptId: AttemptId): nat
  {
    if actions == [] then 0
    else
      var before := Execute(sys, actions[..|actions| - 1]);
      var last := actions[|actions| - 1];
      Settlements(sys, actions[..|actions| - 1], attemptId) +
      (if Enabled(before, last) && Step(before, last).1 == Some(attemptId) then 1 else 0)
  }
}
