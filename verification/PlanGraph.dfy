/**
 The two plan validators: the depth-first cycle check of services/orchestrator/src/graph.ts and
 the listing check of services/engine/internal/orchestration/service.go.
 */
module PlanGraph {
  import opened Sequences

  datatype Step = Step(id: string, title: string, objective: string, requiredCapabilities: seq<string>, dependsOn: seq<string>, output: string)

  datatype Draft = Draft(mode: string, summary: string, confidence: real, steps: seq<Step>, model: string, graphVersion: string)

  /** Dependencies by step id; when an id repeats, the last step wins. */
  type Graph = map<string, seq<string>>

  function ById(steps: seq<Step>): Graph {
    if steps == [] then map[] else ById(steps[..|steps| - 1])[steps[|steps| - 1].id := steps[|steps| - 1].dependsOn]
  }

  /** An id without a step has no dependencies. */
  function Deps(g: Graph, id: string): seq<string> {
    if id in g then g[id] else []
  }

  predicate Walk(g: Graph, p: seq<string>) {
    forall k :: 0 <= k < |p| - 1 ==> p[k + 1] in Deps(g, p[k])
  }

  predicate Cycle(g: Graph, p: seq<string>) {
    |p| >= 2 && p[0] == p[|p| - 1] && Walk(g, p)
  }

  ghost predicate HasCycle(g: Graph) {
    exists p :: Cycle(g, p)
  }

  predicate ListedBefore(order: seq<string>, i: nat, id: string)
    requires i <= |order|
  {
    exists j :: 0 <= j < i && order[j] == id
  }

  /** Every dependency of a listed id is listed before it. */
  predicate Topological(g: Graph, order: seq<string>) {
    forall i :: 0 <= i < |order| ==> forall d :: d in Deps(g, order[i]) ==> ListedBefore(order, i, d)
  }

  /** Along a walk the first listing positions strictly fall. */
  lemma {:induction false} WalkFalls(g: Graph, order: seq<string>, p: seq<string>, i: nat)
    requires Topological(g, order) && Distinct(order) && Walk(g, p) && |p| >= 2
    requires i < |order| && order[i] == p[0]
    ensures ListedBefore(order, i, p[|p| - 1])
    decreases |p|
  {
    assert p[1] in Deps(g, order[i]);
    var j :| 0 <= j < i && order[j] == p[1];
    if |p| > 2 {
      var rest := p[1..];
      forall k | 0 <= k < |rest| - 1
        ensures rest[k + 1] in Deps(g, rest[k])
      {
        assert p[k + 1 + 1] in Deps(g, p[k + 1]);
      }
      WalkFalls(g, order, rest, j);
      var k :| 0 <= k < j && order[k] == rest[|rest| - 1];
      assert order[k] == p[|p| - 1];
    }
  }

  /** A topological listing of every step rules out cycles. */
  lemma TopologicalIsAcyclic(g: Graph, order: seq<string>)
    requires Topological(g, order) && Distinct(order) && forall id :: id in g ==> id in order
    ensures !HasCycle(g)
  {
    forall p | Cycle(g, p)
      ensures false
    {
      assert p[1] in Deps(g, p[0]);
      var i :| 0 <= i < |order| && order[i] == p[0];
      WalkFalls(g, order, p, i);
    }
  }

  /** Everything a visit can reach. */
  function Universe(g: Graph): set<string> {
    g.Keys + set id, d | id in g && d in g[id] :: d
  }

  /** The stack of ids being visited: each depends on the next. */
  predicate Stacked(g: Graph, stack: seq<string>, visiting: set<string>) {
    Walk(g, stack) && Elements(stack) == visiting
  }

  /** What the search has settled: listed with dependencies first, apart from what it is visiting. */
  predicate Settled(g: Graph, order: seq<string>, visited: set<string>, visiting: set<string>) {
    Topological(g, order) && Distinct(order) && Elements(order) == visited && visited !! visiting
  }

  lemma StackCloses(g: Graph, stack: seq<string>, visiting: set<string>, id: string)
    requires Stacked(g, stack, visiting) && id in visiting && (stack != [] ==> id in Deps(g, stack[|stack| - 1]))
    ensures HasCycle(g)
  {
    var k :| 0 <= k < |stack| && stack[k] == id;
    var p := stack[k..] + [id];
    assert Cycle(g, p);
  }

  lemma Push(g: Graph, stack: seq<string>, visiting: set<string>, id: string)
    requires Stacked(g, stack, visiting) && (stack != [] ==> id in Deps(g, stack[|stack| - 1]))
    ensures Stacked(g, stack + [id], visiting + {id})
  {
  }

  lemma Finish(g: Graph, order: seq<string>, visited: set<string>, visiting: set<string>, id: string)
    requires Settled(g, order, visited, visiting) && id in visiting
    requires forall d :: d in Deps(g, id) ==> d in visited
    ensures Settled(g, order + [id], visited + {id}, visiting - {id})
  {
    var more := order + [id];
    forall i, d | 0 <= i < |more| && d in Deps(g, more[i])
      ensures ListedBefore(more, i, d)
    {
      if i < |order| {
        var j :| 0 <= j < i && order[j] == d;
        assert more[j] == d;
      } else {
        assert d in Elements(order);
        var j :| 0 <= j < |order| && order[j] == d;
        assert more[j] == d;
      }
    }
  }

  /** The closures of assertAcyclic over their two mutable sets. */
  class CycleCheck {
    const byId: Graph
    var visiting: set<string>
    var visited: set<string>
    ghost var order: seq<string>

    ghost predicate Valid(stack: seq<string>)
      reads this
    {
      Stacked(byId, stack, visiting) && Settled(byId, order, visited, visiting) && visiting <= Universe(byId)
    }

    constructor (g: Graph)
      ensures byId == g && Valid([]) && visiting == {}
    {
      byId, visiting, visited, order := g, {}, {}, [];
    }

    /** visit: false stands for the thrown error. */
    method Visit(id: string, ghost stack: seq<string>) returns (ok: bool)
      requires Valid(stack) && id in Universe(byId) && (stack != [] ==> id in Deps(byId, stack[|stack| - 1]))
      modifies this
      ensures !ok ==> HasCycle(byId)
      ensures ok ==> Valid(stack) && visiting == old(visiting) && old(visited) <= visited && id in visited
      decreases Universe(byId) - visiting
    {
      if id in visiting {
        StackCloses(byId, stack, visiting, id);
        return false;
      }
      if id in visited {
        return true;
      }
      ghost var before := visiting;
      Push(byId, stack, visiting, id);
      visiting := visiting + {id};
      var deps := Deps(byId, id);
      var i := 0;
      while i < |deps|
        invariant 0 <= i <= |deps| && Valid(stack + [id]) && visiting == before + {id} && old(visited) <= visited
        invariant forall j :: 0 <= j < i ==> deps[j] in visited
      {
        assert deps[i] in Deps(byId, (stack + [id])[|stack|]);
        ok := Visit(deps[i], stack + [id]);
        if !ok {
          return;
        }
        i := i + 1;
      }
      Finish(byId, order, visited, visiting, id);
      order := order + [id];
      visiting := visiting - {id};
      visited := visited + {id};
      assert visiting == before;
      return true;
    }
  }

  lemma ByIdHas(steps: seq<Step>)
    ensures forall id :: id in ById(steps) <==> exists i :: 0 <= i < |steps| && steps[i].id == id
  {
    if steps != [] {
      var init, last := steps[..|steps| - 1], steps[|steps| - 1];
      ByIdHas(init);
      forall id
        ensures id in ById(steps) <==> exists i :: 0 <= i < |steps| && steps[i].id == id
      {
        if i :| 0 <= i < |steps| && steps[i].id == id && id != last.id {
          assert init[i].id == id;
        }
        if j :| 0 <= j < |init| && init[j].id == id {
          assert steps[j].id == id;
        }
      }
    }
  }

  /** assertAcyclic terminates and throws exactly when the graph has a cycle. */
  method AssertAcyclic(steps: seq<Step>) returns (ok: bool)
    ensures ok <==> !HasCycle(ById(steps))
  {
    var check := new CycleCheck(ById(steps));
    ByIdHas(steps);
    var i := 0;
    while i < |steps|
      invariant 0 <= i <= |steps| && fresh(check) && check.byId == ById(steps) && check.Valid([]) && check.visiting == {}
      invariant forall j :: 0 <= j < i ==> steps[j].id in check.visited
    {
      assert steps[i].id in ById(steps);
      ok := check.Visit(steps[i].id, []);
      if !ok {
        return;
      }
      i := i + 1;
    }
    forall id | id in ById(steps)
      ensures id in check.order
    {
      var j :| 0 <= j < |steps| && steps[j].id == id;
      assert id in Elements(check.order);
    }
    TopologicalIsAcyclic(ById(steps), check.order);
    return true;
  }

  predicate ModeOk(mode: string, count: nat) {
    (mode == "single" ==> count == 1) && (mode == "multi" ==> count >= 2)
  }

  predicate HasStep(steps: seq<Step>, id: string) {
    exists i :: 0 <= i < |steps| && steps[i].id == id
  }

  predicate Known(steps: seq<Step>, step: Step) {
    forall d :: d in step.dependsOn ==> HasStep(steps, d) && d != step.id
  }

  predicate DepsKnown(steps: seq<Step>) {
    forall i :: 0 <= i < |steps| ==> Known(steps, steps[i])
  }

  /** validatePlan, after the schema has been parsed. */
  method ValidatePlan(draft: Draft) returns (ok: bool)
    ensures ok <==> ModeOk(draft.mode, |draft.steps|) && DepsKnown(draft.steps) && !HasCycle(ById(draft.steps))
  {
    if draft.mode == "single" && |draft.steps| != 1 {
      return false;
    }
    if draft.mode == "multi" && |draft.steps| < 2 {
      return false;
    }
    var ids := IdsOf(draft.steps);
    var i := 0;
    while i < |draft.steps|
      invariant 0 <= i <= |draft.steps|
      invariant forall k :: 0 <= k < i ==> Known(draft.steps, draft.steps[k])
    {
      var step := draft.steps[i];
      var j := 0;
      while j < |step.dependsOn|
        invariant 0 <= j <= |step.dependsOn|
        invariant forall k :: 0 <= k < j ==> HasStep(draft.steps, step.dependsOn[k]) && step.dependsOn[k] != step.id
      {
        if step.dependsOn[j] !in ids || step.dependsOn[j] == step.id {
          assert step.dependsOn[j] in step.dependsOn && !Known(draft.steps, draft.steps[i]);
          return false;
        }
        j := j + 1;
      }
      i := i + 1;
    }
    ok := AssertAcyclic(draft.steps);
  }

  method IdsOf(steps: seq<Step>) returns (ids: set<string>)
    ensures forall id :: id in ids <==> HasStep(steps, id)
  {
    ids := {};
    var i := 0;
    while i < |steps|
      invariant 0 <= i <= |steps|
      invariant forall id :: id in ids <==> exists k :: 0 <= k < i && steps[k].id == id
    {
      ids := ids + {steps[i].id};
      i := i + 1;
    }
  }

  // The engine's validator

  predicate Filled(s: Step) {
    s.id != "" && s.title != "" && s.objective != "" && s.output != "" && s.requiredCapabilities != []
  }

  predicate HeaderOk(d: Draft) {
    && d.mode in {"single", "multi"} && d.summary != "" && d.graphVersion != "" && d.model != ""
    && 0.0 <= d.confidence <= 1.0 && d.steps != [] && ModeOk(d.mode, |d.steps|)
  }

  function StepIds(steps: seq<Step>): (ids: seq<string>) {
    seq(|steps|, i requires 0 <= i < |steps| => steps[i].id)
  }

  predicate DependsBackwards(steps: seq<Step>, i: nat)
    requires i < |steps|
  {
    forall d :: d in steps[i].dependsOn ==> ListedBefore(StepIds(steps), i, d)
  }

  /** Filled steps with distinct ids, each listed after everything it depends on. */
  predicate Listed(steps: seq<Step>) {
    && Distinct(StepIds(steps))
    && forall i :: 0 <= i < |steps| ==> Filled(steps[i]) && DependsBackwards(steps, i)
  }

  /** validateDraft; the agents play no part in it. */
  method ValidateDraft(d: Draft) returns (ok: bool)
    ensures ok <==> HeaderOk(d) && Listed(d.steps)
  {
    if !HeaderOk(d) {
      return false;
    }
    var seen: set<string> := {};
    ghost var ids := StepIds(d.steps);
    var i := 0;
    while i < |d.steps|
      invariant 0 <= i <= |d.steps| && forall id :: id in seen <==> ListedBefore(ids, i, id)
      invariant forall j :: 0 <= j < i ==> Filled(d.steps[j]) && DependsBackwards(d.steps, j)
      invariant forall j, k :: 0 <= j < k < i ==> ids[j] != ids[k]
    {
      var s := d.steps[i];
      if s.id in seen {
        assert ListedBefore(ids, i, ids[i]);
        return false;
      }
      if s.id == "" || s.title == "" || s.objective == "" || s.output == "" || |s.requiredCapabilities| == 0 {
        return false;
      }
      var j := 0;
      while j < |s.dependsOn|
        invariant 0 <= j <= |s.dependsOn| && forall k :: 0 <= k < j ==> ListedBefore(ids, i, s.dependsOn[k])
      {
        if s.dependsOn[j] !in seen {
          assert s.dependsOn[j] in d.steps[i].dependsOn;
          return false;
        }
        j := j + 1;
      }
      seen := seen + {s.id};
      forall id
        ensures ListedBefore(ids, i + 1, id) <==> ListedBefore(ids, i, id) || id == ids[i]
      {
        assert id == ids[i] ==> ids[i] == id;
      }
      i := i + 1;
    }
    return true;
  }

  // The two validators against each other

  lemma {:induction false} ByIdOfDistinct(steps: seq<Step>)
    requires Distinct(StepIds(steps))
    ensures forall i :: 0 <= i < |steps| ==> steps[i].id in ById(steps) && ById(steps)[steps[i].id] == steps[i].dependsOn
    decreases |steps|
  {
    if steps != [] {
      var init, last := steps[..|steps| - 1], |steps| - 1;
      assert StepIds(init) == StepIds(steps)[..last];
      ByIdOfDistinct(init);
      forall i | 0 <= i < last
        ensures steps[i].id in ById(steps) && ById(steps)[steps[i].id] == steps[i].dependsOn
      {
        assert StepIds(steps)[i] != StepIds(steps)[last];
        assert init[i] == steps[i];
      }
    }
  }

  /** Every draft the engine accepts passes the orchestrator's dependency and cycle checks. */
  lemma ListedIsAcyclic(steps: seq<Step>)
    requires Listed(steps)
    ensures DepsKnown(steps) && Topological(ById(steps), StepIds(steps)) && !HasCycle(ById(steps))
  {
    var ids := StepIds(steps);
    ByIdOfDistinct(steps);
    ByIdHas(steps);
    forall i, d | 0 <= i < |steps| && d in steps[i].dependsOn
      ensures HasStep(steps, d) && d != steps[i].id
    {
      assert DependsBackwards(steps, i);
      var j :| 0 <= j < i && ids[j] == d;
      assert steps[j].id == d && ids[j] != ids[i];
    }
    forall i | 0 <= i < |ids|
      ensures forall d :: d in Deps(ById(steps), ids[i]) ==> ListedBefore(ids, i, d)
    {
      assert DependsBackwards(steps, i);
    }
    forall id | id in ById(steps)
      ensures id in ids
    {
      var i :| 0 <= i < |steps| && steps[i].id == id;
      assert ids[i] == id;
    }
    TopologicalIsAcyclic(ById(steps), ids);
  }

  function Simple(id: string, dependsOn: seq<string>): Step {
    Step(id, "t", "o", ["c"], dependsOn, "r")
  }

  /** The orchestrator accepts orders that the engine refuses: a step listed before what it depends on. */
  lemma OrderMattersToTheEngine()
    ensures var steps := [Simple("step-2", ["step-1"]), Simple("step-1", [])];
            DepsKnown(steps) && !HasCycle(ById(steps)) && !Listed(steps)
  {
    var steps := [Simple("step-2", ["step-1"]), Simple("step-1", [])];
    assert steps[..1] == [steps[0]] && steps[..1][..0] == [];
    assert ById(steps[..1]) == map["step-2" := ["step-1"]];
    var g := ById(steps);
    assert g == map["step-2" := ["step-1"], "step-1" := []];
    assert steps[0].id == "step-2" && steps[1].id == "step-1";
    assert HasStep(steps, "step-1");
    var order := ["step-1", "step-2"];
    assert order[0] == "step-1" && ListedBefore(order, 1, "step-1");
    TopologicalIsAcyclic(g, order);
    assert "step-1" in steps[0].dependsOn;
    assert !DependsBackwards(steps, 0);
  }

  // The cycle check against the steps as they are listed

  /** Step i has this id and depends on d. */
  predicate Lists(steps: seq<Step>, i: nat, id: string, d: string) {
    i < |steps| && steps[i].id == id && d in steps[i].dependsOn
  }

  /** Some step with this id depends on d, whichever of them. */
  ghost predicate DependsOn(steps: seq<Step>, id: string, d: string) {
    exists i: nat :: Lists(steps, i, id, d)
  }

  ghost predicate StepCycle(steps: seq<Step>, p: seq<string>) {
    |p| >= 2 && p[0] == p[|p| - 1] && forall k :: 0 <= k < |p| - 1 ==> DependsOn(steps, p[k], p[k + 1])
  }

  ghost predicate HasStepCycle(steps: seq<Step>) {
    exists p :: StepCycle(steps, p)
  }

  /** A later step has the same id. */
  predicate Overwritten(steps: seq<Step>, i: nat)
    requires i < |steps|
  {
    exists j :: i < j < |steps| && steps[j].id == steps[i].id
  }

  /** Only overwritten steps list this dependency. */
  ghost predicate Lost(steps: seq<Step>, id: string, d: string) {
    forall i: nat :: Lists(steps, i, id, d) ==> Overwritten(steps, i)
  }

  ghost predicate UsesLost(steps: seq<Step>, p: seq<string>) {
    exists k :: 0 <= k < |p| - 1 && Lost(steps, p[k], p[k + 1])
  }

  /** The graph by id keeps exactly the dependencies that some step lists without being overwritten. */
  lemma {:induction false} KeptDependencies(steps: seq<Step>, id: string, d: string)
    ensures d in Deps(ById(steps), id) <==> !Lost(steps, id, d)
    decreases |steps|
  {
    if steps != [] {
      var init, last := steps[..|steps| - 1], |steps| - 1;
      KeptDependencies(init, id, d);
      if steps[last].id == id {
        if d in steps[last].dependsOn {
          assert Lists(steps, last, id, d) && !Overwritten(steps, last);
        }
      } else {
        KeptInFront(steps, id, d);
      }
    }
  }

  lemma KeptInFront(steps: seq<Step>, id: string, d: string)
    requires steps != [] && steps[|steps| - 1].id != id
    ensures Lost(steps, id, d) <==> Lost(steps[..|steps| - 1], id, d)
  {
    var init := steps[..|steps| - 1];
    forall i: nat | Lists(init, i, id, d)
      ensures Lists(steps, i, id, d) && (Overwritten(init, i) <==> Overwritten(steps, i))
    {
      if Overwritten(init, i) {
        var j :| i < j < |init| && init[j].id == init[i].id;
        assert steps[j].id == steps[i].id;
      }
      if Overwritten(steps, i) {
        var j :| i < j < |steps| && steps[j].id == steps[i].id;
        assert init[j].id == init[i].id;
      }
    }
    forall i: nat | Lists(steps, i, id, d)
      ensures Lists(init, i, id, d)
    {
    }
  }

  /**
   The check rejects no plan whose listed steps are acyclic, is exact when the ids are distinct, and
   misses a cycle exactly when every cycle of the listed steps passes through a dependency that only
   overwritten steps list.
   */
  lemma CycleCheckMissesIff(steps: seq<Step>)
    ensures HasCycle(ById(steps)) ==> HasStepCycle(steps)
    ensures Distinct(StepIds(steps)) ==> (HasCycle(ById(steps)) <==> HasStepCycle(steps))
    ensures !HasCycle(ById(steps)) && HasStepCycle(steps)
       <==> HasStepCycle(steps) && forall p :: StepCycle(steps, p) ==> UsesLost(steps, p)
  {
    forall p
      ensures Cycle(ById(steps), p) <==> StepCycle(steps, p) && !UsesLost(steps, p)
    {
      CycleIsKept(steps, p);
    }
    if Distinct(StepIds(steps)) {
      forall p | StepCycle(steps, p)
        ensures !UsesLost(steps, p)
      {
        DistinctLosesNothing(steps, p);
      }
    }
  }

  lemma CycleIsKept(steps: seq<Step>, p: seq<string>)
    ensures Cycle(ById(steps), p) <==> StepCycle(steps, p) && !UsesLost(steps, p)
  {
    hide ById, Lost;
    forall k | 0 <= k < |p| - 1
      ensures p[k + 1] in Deps(ById(steps), p[k]) <==> !Lost(steps, p[k], p[k + 1])
      ensures !Lost(steps, p[k], p[k + 1]) ==> DependsOn(steps, p[k], p[k + 1])
    {
      KeptDependencies(steps, p[k], p[k + 1]);
      NotLostIsListed(steps, p[k], p[k + 1]);
    }
  }

  lemma NotLostIsListed(steps: seq<Step>, id: string, d: string)
    ensures !Lost(steps, id, d) ==> DependsOn(steps, id, d)
  {
  }

  lemma DistinctLosesNothing(steps: seq<Step>, p: seq<string>)
    requires Distinct(StepIds(steps)) && StepCycle(steps, p)
    ensures !UsesLost(steps, p)
  {
    forall k | 0 <= k < |p| - 1
      ensures !Lost(steps, p[k], p[k + 1])
    {
      var i: nat :| Lists(steps, i, p[k], p[k + 1]);
      forall j | i < j < |steps|
        ensures steps[j].id != steps[i].id
      {
        assert StepIds(steps)[i] != StepIds(steps)[j];
      }
    }
  }

  /** Such a plan: the first step-1 depends on step-2 and step-2 on step-1, but a second step-1 follows. */
  lemma RepeatedIdHidesACycle()
    ensures var steps := [Simple("step-1", ["step-2"]), Simple("step-2", ["step-1"]), Simple("step-1", [])];
            HasStepCycle(steps) && DepsKnown(steps) && !HasCycle(ById(steps))
  {
    var steps := [Simple("step-1", ["step-2"]), Simple("step-2", ["step-1"]), Simple("step-1", [])];
    assert Lists(steps, 0, "step-1", "step-2") && Lists(steps, 1, "step-2", "step-1");
    assert StepCycle(steps, ["step-1", "step-2", "step-1"]);
    assert steps[..2] == [steps[0], steps[1]] && steps[..2][..1] == [steps[0]] && steps[..2][..1][..0] == [];
    assert ById(steps[..2][..1]) == map["step-1" := ["step-2"]];
    assert ById(steps[..2]) == map["step-1" := ["step-2"], "step-2" := ["step-1"]];
    var g := ById(steps);
    assert g == map["step-1" := [], "step-2" := ["step-1"]];
    assert HasStep(steps, "step-1") by { assert steps[0].id == "step-1"; }
    assert HasStep(steps, "step-2") by { assert steps[1].id == "step-2"; }
    var order := ["step-1", "step-2"];
    assert order[0] == "step-1" && ListedBefore(order, 1, "step-1");
    TopologicalIsAcyclic(g, order);
  }
}
