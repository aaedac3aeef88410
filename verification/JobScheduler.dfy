/**
 The bounded scheduler of packages/agent-runtime/src/job.ts. What runs between two awaits is one
 step: the second half of submit, a scheduled drain, a stretch of one execution, and the
 callback that releases its slot. The answers of the job store and the executor are inputs.
 */
module JobScheduler {
  import opened Sequences

  /** Where an execution stands: the await it is suspended at (Concluding for the last two), or settled and not yet released. */
  datatype Phase = Loading | Saving | Executing | Concluding | Settled

  datatype Worker = Worker(id: string, phase: Phase)

  /** The service's fields, the executions in flight, the scheduled drains, and the order of submissions and starts. */
  datatype Service = Service(
    concurrency: nat, pending: seq<string>, activeCount: int, controllers: set<string>,
    workers: seq<Worker>, drains: nat, submitted: seq<string>, started: seq<string>)

  const MAX_CONCURRENCY: nat := 100

  predicate ValidConcurrency(concurrency: int) {
    1 <= concurrency <= MAX_CONCURRENCY
  }

  function Start(s: Service): Service
    requires s.pending != []
  {
    var id := s.pending[0];
    s.(pending := s.pending[1..], activeCount := s.activeCount + 1,
       workers := s.workers + [Worker(id, Loading)], started := s.started + [id])
  }

  /** drain: start pending jobs while there is a free slot. */
  function Drain(s: Service): Service
    decreases |s.pending|
  {
    if s.activeCount >= s.concurrency || s.pending == [] then s else Drain(Start(s))
  }

  /** submit after its job has been created in the store. */
  function Enqueue(s: Service, id: string): Service {
    s.(pending := s.pending + [id], drains := s.drains + 1, submitted := s.submitted + [id])
  }

  /** How a stretch of an execution goes on: `proceed` is false when the store or the executor fails or the job is not runnable. */
  function Advance(s: Service, i: nat, proceed: bool): Service
    requires i < |s.workers|
  {
    var w := s.workers[i];
    var at := (phase: Phase) => s.workers[i := w.(phase := phase)];
    match w.phase
    case Loading => s.(workers := at(if proceed then Saving else Settled))
    case Saving => if proceed then s.(workers := at(Executing), controllers := s.controllers + {w.id}) else s.(workers := at(Settled))
    case Executing => s.(workers := at(Concluding))
    case Concluding => s.(workers := at(Settled), controllers := s.controllers - {w.id})
    case Settled => s
  }

  /** The finally callback: give the slot back and drain. */
  function Release(s: Service, i: nat): Service
    requires i < |s.workers|
  {
    Drain(s.(workers := s.workers[..i] + s.workers[i + 1..], activeCount := s.activeCount - 1))
  }

  datatype Action =
    | Submit(id: string)
    | RunDrain
    | Resume(worker: nat, proceed: bool)
    | Finish(worker: nat)

  predicate Enabled(s: Service, a: Action) {
    match a
    case Submit(id) => id != "" && id !in s.submitted
    case RunDrain => s.drains > 0
    case Resume(i, _) => i < |s.workers| && s.workers[i].phase != Settled
    case Finish(i) => i < |s.workers| && s.workers[i].phase == Settled
  }

  function Step(s: Service, a: Action): Service
    requires Enabled(s, a)
  {
    match a
    case Submit(id) => Enqueue(s, id)
    case RunDrain => Drain(s.(drains := s.drains - 1))
    case Resume(i, proceed) => Advance(s, i, proceed)
    case Finish(i) => Release(s, i)
  }

  function Idle(concurrency: nat): Service {
    Service(concurrency, [], 0, {}, [], 0, [], [])
  }

  /** A schedule: disabled actions are not taken. */
  function Run(s: Service, actions: seq<Action>): Service {
    if actions == [] then s
    else
      var before := Run(s, actions[..|actions| - 1]);
      var last := actions[|actions| - 1];
      if Enabled(before, last) then Step(before, last) else before
  }

  class AsyncJobService {
    const concurrency: nat
    var pending: seq<string>
    var controllers: set<string>
    var activeCount: int
    var workers: seq<Worker>
    var drains: nat
    ghost var submitted: seq<string>
    ghost var started: seq<string>

    ghost function Value(): Service
      reads this
    {
      Service(concurrency, pending, activeCount, controllers, workers, drains, submitted, started)
    }

    constructor (concurrency: nat)
      requires ValidConcurrency(concurrency)
      ensures Value() == Idle(concurrency)
    {
      this.concurrency, pending, controllers, activeCount, workers, drains := concurrency, [], {}, 0, [], 0;
      submitted, started := [], [];
    }

    method PushPending(id: string)
      modifies this
      ensures Value() == Enqueue(old(Value()), id)
    {
      pending := pending + [id];
      submitted := submitted + [id];
      drains := drains + 1;
    }

    method StartPending()
      modifies this
      ensures Value() == Drain(old(Value()))
    {
      while activeCount < concurrency
        invariant Drain(Value()) == Drain(old(Value()))
        decreases |pending|, concurrency - activeCount
      {
        if |pending| == 0 {
          return;
        }
        var id := pending[0];
        pending := pending[1..];
        activeCount := activeCount + 1;
        workers := workers + [Worker(id, Loading)];
        started := started + [id];
      }
    }

    method RunImmediate()
      requires drains > 0
      modifies this
      ensures Value() == Step(old(Value()), RunDrain)
    {
      drains := drains - 1;
      StartPending();
    }

    method Proceed(i: nat, proceed: bool)
      requires i < |workers|
      modifies this
      ensures Value() == Advance(old(Value()), i, proceed)
    {
      var w := workers[i];
      var next := w.phase;
      match w.phase {
        case Loading =>
          next := if proceed then Saving else Settled;
        case Saving =>
          if proceed {
            controllers := controllers + {w.id};
            next := Executing;
          } else {
            next := Settled;
          }
        case Executing =>
          next := Concluding;
        case Concluding =>
          controllers := controllers - {w.id};
          next := Settled;
        case Settled =>
          assert workers == workers[i := w];
      }
      workers := workers[i := w.(phase := next)];
    }

    method ReleaseSlot(i: nat)
      requires i < |workers|
      modifies this
      ensures Value() == Release(old(Value()), i)
    {
      workers := workers[..i] + workers[i + 1..];
      activeCount := activeCount - 1;
      StartPending();
    }
  }

  function IdsOf(workers: seq<Worker>): (ids: seq<string>) {
    seq(|workers|, i requires 0 <= i < |workers| => workers[i].id)
  }

  predicate HasController(phase: Phase) {
    phase == Executing || phase == Concluding
  }

  ghost predicate Controls(s: Service) {
    forall id :: id in s.controllers <==> exists i :: 0 <= i < |s.workers| && s.workers[i].id == id && HasController(s.workers[i].phase)
  }

  /** Slots are counted exactly and never exceeded, and starts follow submissions. */
  ghost predicate Counted(s: Service) {
    && ValidConcurrency(s.concurrency)
    && s.activeCount == |s.workers| <= s.concurrency
    && s.started + s.pending == s.submitted
    && Distinct(s.submitted)
    && Distinct(IdsOf(s.workers))
    && (forall i :: 0 <= i < |s.workers| ==> s.workers[i].id in s.started)
    && Controls(s)
  }

  /** Waiting work with a free slot has a drain scheduled. */
  ghost predicate ServiceOk(s: Service) {
    Counted(s) && (s.activeCount < s.concurrency && s.pending != [] ==> s.drains > 0)
  }

  lemma StartKeeps(s: Service)
    requires Counted(s) && s.pending != [] && s.activeCount < s.concurrency
    ensures Counted(Start(s))
  {
    var t := Start(s);
    var id := s.pending[0];
    assert t.started + t.pending == s.submitted;
    assert s.submitted[|s.started|] == id;
    assert id !in s.started by {
      assert forall k :: 0 <= k < |s.started| ==> s.submitted[k] == s.started[k];
    }
    assert IdsOf(t.workers) == IdsOf(s.workers) + [id];
    assert forall i :: 0 <= i < |s.workers| ==> IdsOf(s.workers)[i] == s.workers[i].id && t.workers[i] == s.workers[i];
    StartControls(s);
  }

  lemma StartControls(s: Service)
    requires Controls(s) && s.pending != []
    ensures Controls(Start(s))
  {
    var t := Start(s);
    forall id
      ensures id in t.controllers <==> exists i :: 0 <= i < |t.workers| && t.workers[i].id == id && HasController(t.workers[i].phase)
    {
      if id in s.controllers {
        var i :| 0 <= i < |s.workers| && s.workers[i].id == id && HasController(s.workers[i].phase);
        assert t.workers[i] == s.workers[i];
      }
      if i :| 0 <= i < |t.workers| && t.workers[i].id == id && HasController(t.workers[i].phase) {
        assert s.workers[i] == t.workers[i];
      }
    }
  }

  lemma {:induction false} DrainKeeps(s: Service)
    requires Counted(s)
    ensures ServiceOk(Drain(s)) && Drain(s).submitted == s.submitted && s.started <= Drain(s).started
    ensures Drain(s).activeCount >= s.concurrency || Drain(s).pending == []
    decreases |s.pending|
  {
    if s.activeCount < s.concurrency && s.pending != [] {
      StartKeeps(s);
      hide Distinct, IdsOf, Controls;
      DrainKeeps(Start(s));
      assert s.started <= Start(s).started;
    }
  }

  lemma EnqueueKeeps(s: Service, id: string)
    requires ServiceOk(s) && id !in s.submitted
    ensures ServiceOk(Enqueue(s, id))
  {
    hide Controls, IdsOf;
    assert s.started + (s.pending + [id]) == s.submitted + [id];
    assert Controls(Enqueue(s, id)) by { SameWorkers(s, Enqueue(s, id)); }
  }

  lemma SameWorkers(s: Service, t: Service)
    requires Controls(s) && t.workers == s.workers && t.controllers == s.controllers
    ensures Controls(t)
  {
  }

  lemma AdvanceKeeps(s: Service, i: nat, proceed: bool)
    requires ServiceOk(s) && i < |s.workers|
    ensures ServiceOk(Advance(s, i, proceed))
    ensures Advance(s, i, proceed).submitted == s.submitted && Advance(s, i, proceed).started == s.started
  {
    var t := Advance(s, i, proceed);
    assert IdsOf(t.workers) == IdsOf(s.workers);
    AdvanceControls(s, i, proceed);
    hide Controls;
    forall j | 0 <= j < |t.workers|
      ensures t.workers[j].id in t.started
    {
      assert t.workers[j].id == s.workers[j].id;
    }
  }

  lemma AdvanceControls(s: Service, i: nat, proceed: bool)
    requires Controls(s) && Distinct(IdsOf(s.workers)) && i < |s.workers|
    ensures Controls(Advance(s, i, proceed))
  {
    var t := Advance(s, i, proceed);
    var w := s.workers[i];
    assert forall j :: 0 <= j < |s.workers| && j != i ==> IdsOf(s.workers)[j] != IdsOf(s.workers)[i] && t.workers[j] == s.workers[j];
    assert t.workers[i].id == w.id;
    hide IdsOf, Distinct;
    assert w.id in s.controllers <==> HasController(w.phase);
    forall id
      ensures id in t.controllers <==> exists j :: 0 <= j < |t.workers| && t.workers[j].id == id && HasController(t.workers[j].phase)
    {
      if id == w.id {
        assert id in t.controllers <==> HasController(t.workers[i].phase);
      } else {
        assert id in t.controllers <==> id in s.controllers;
        if id in s.controllers {
          var j :| 0 <= j < |s.workers| && s.workers[j].id == id && HasController(s.workers[j].phase);
          assert t.workers[j] == s.workers[j];
        }
        if j :| 0 <= j < |t.workers| && t.workers[j].id == id && HasController(t.workers[j].phase) {
          assert t.workers[j] == s.workers[j];
        }
      }
    }
  }

  lemma ReleaseKeeps(s: Service, i: nat)
    requires ServiceOk(s) && i < |s.workers| && s.workers[i].phase == Settled
    ensures ServiceOk(Release(s, i)) && Release(s, i).submitted == s.submitted && s.started <= Release(s, i).started
  {
    var t := s.(workers := s.workers[..i] + s.workers[i + 1..], activeCount := s.activeCount - 1);
    assert forall j :: 0 <= j < |t.workers| ==> t.workers[j] == s.workers[if j < i then j else j + 1];
    assert IdsOf(t.workers) == IdsOf(s.workers)[..i] + IdsOf(s.workers)[i + 1..];
    forall id
      ensures id in t.controllers <==> exists j :: 0 <= j < |t.workers| && t.workers[j].id == id && HasController(t.workers[j].phase)
    {
      if id in s.controllers {
        var j :| 0 <= j < |s.workers| && s.workers[j].id == id && HasController(s.workers[j].phase);
        assert t.workers[if j < i then j else j - 1] == s.workers[j];
      }
    }
    DrainKeeps(t);
  }

  lemma StepKeeps(s: Service, a: Action)
    requires ServiceOk(s) && Enabled(s, a)
    ensures ServiceOk(Step(s, a)) && s.submitted <= Step(s, a).submitted && s.started <= Step(s, a).started
  {
    match a
    case Submit(id) => EnqueueKeeps(s, id);
    case RunDrain =>
      SameWorkers(s, s.(drains := s.drains - 1));
      DrainKeeps(s.(drains := s.drains - 1));
    case Resume(i, proceed) => AdvanceKeeps(s, i, proceed);
    case Finish(i) => ReleaseKeeps(s, i);
  }

  lemma {:induction false} RunKeeps(s: Service, actions: seq<Action>)
    requires ServiceOk(s)
    ensures ServiceOk(Run(s, actions)) && s.submitted <= Run(s, actions).submitted && s.started <= Run(s, actions).started
    decreases |actions|
  {
    hide ServiceOk, Enabled, Step;
    if actions != [] {
      var before := Run(s, actions[..|actions| - 1]);
      RunKeeps(s, actions[..|actions| - 1]);
      if Enabled(before, actions[|actions| - 1]) {
        StepKeeps(before, actions[|actions| - 1]);
      }
    }
  }

  lemma IdleOk(concurrency: nat)
    requires ValidConcurrency(concurrency)
    ensures ServiceOk(Idle(concurrency))
  {
  }

  /**
   At every interleaving: executions in flight are counted exactly and never exceed the limit,
   jobs start at most once and in submission order, and a free slot with waiting work has a
   drain scheduled.
   */
  lemma {:induction false} ReachableServices(concurrency: nat, actions: seq<Action>)
    requires 1 <= concurrency <= 100
    ensures var s := Run(Idle(concurrency), actions);
            && s.activeCount == |s.workers| <= s.concurrency
            && s.started <= s.submitted && Distinct(s.started) && s.pending == s.submitted[|s.started|..]
            && (s.activeCount < s.concurrency && s.pending != [] ==> s.drains > 0)
            && (forall id :: id in s.controllers ==> exists i :: 0 <= i < |s.workers| && s.workers[i].id == id)
  {
    hide Run;
    IdleOk(concurrency);
    RunKeeps(Idle(concurrency), actions);
    var s := Run(Idle(concurrency), actions);
    assert forall k :: 0 <= k < |s.started| ==> s.started[k] == s.submitted[k];
  }

  /** When nothing is scheduled and nothing is in flight, every submitted job has been started and no controller is left over. */
  lemma {:induction false} QuiescentMeansDone(concurrency: nat, actions: seq<Action>)
    requires 1 <= concurrency <= 100
    requires Run(Idle(concurrency), actions).drains == 0 && Run(Idle(concurrency), actions).workers == []
    ensures var s := Run(Idle(concurrency), actions);
            s.started == s.submitted && s.pending == [] && s.controllers == {}
  {
    hide Run;
    IdleOk(concurrency);
    RunKeeps(Idle(concurrency), actions);
  }
}
