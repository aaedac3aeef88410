/** What the two plan validators accept, stated on the listed steps. */
module PlanOutcomes {
  import opened Sequences
  import opened PlanGraph

  /** The step that counts for an id: the last one listed under it. */
  predicate LastUnder(steps: seq<Step>, id: string, i: nat) {
    i < |steps| && steps[i].id == id && forall j :: i < j < |steps| ==> steps[j].id != id
  }

  /** A dependency listed by the step that counts for its id. */
  predicate Depends(steps: seq<Step>, id: string, dependency: string) {
    exists i :: 0 <= i < |steps| && LastUnder(steps, id, i) && dependency in steps[i].dependsOn
  }

  lemma LastStays(steps: seq<Step>, id: string, i: nat)
    requires steps != [] && steps[|steps| - 1].id != id
    ensures LastUnder(steps, id, i) <==> LastUnder(steps[..|steps| - 1], id, i)
  {
    var init := steps[..|steps| - 1];
    assert forall j :: 0 <= j < |init| ==> init[j] == steps[j];
  }

  /** The graph lists the dependencies of the step that counts for an id. */
  lemma {:induction false} LastCounts(steps: seq<Step>, id: string, i: nat)
    requires LastUnder(steps, id, i)
    ensures id in ById(steps) && ById(steps)[id] == steps[i].dependsOn
    decreases |steps|
  {
    if i < |steps| - 1 {
      assert steps[|steps| - 1].id != id;
      LastStays(steps, id, i);
      LastCounts(steps[..|steps| - 1], id, i);
    }
  }

  lemma {:induction false} LastExists(steps: seq<Step>, id: string)
    requires id in ById(steps)
    ensures exists i: nat :: LastUnder(steps, id, i)
    decreases |steps|
  {
    if steps != [] {
      if steps[|steps| - 1].id == id {
        assert LastUnder(steps, id, |steps| - 1);
      } else {
        var init := steps[..|steps| - 1];
        LastExists(init, id);
        var i: nat :| LastUnder(init, id, i);
        LastStays(steps, id, i);
      }
    }
  }

  lemma {:induction false} DependsIs(steps: seq<Step>, id: string, dependency: string)
    ensures dependency in Deps(ById(steps), id) <==> Depends(steps, id, dependency)
  {
    hide ById;
    if id in ById(steps) {
      LastExists(steps, id);
      var i: nat :| LastUnder(steps, id, i);
      LastCounts(steps, id, i);
    }
    if i :| 0 <= i < |steps| && LastUnder(steps, id, i) && dependency in steps[i].dependsOn {
      LastCounts(steps, id, i);
    }
  }

  /** A closed chain of dependencies. */
  predicate Circle(steps: seq<Step>, p: seq<string>) {
    |p| >= 2 && p[0] == p[|p| - 1] && forall k :: 0 <= k < |p| - 1 ==> Depends(steps, p[k], p[k + 1])
  }

  lemma {:induction false} CycleIsCircle(steps: seq<Step>)
    ensures HasCycle(ById(steps)) <==> exists p :: Circle(steps, p)
  {
    forall p: seq<string>
      ensures Cycle(ById(steps), p) <==> Circle(steps, p)
    {
      forall k | 0 <= k < |p| - 1
        ensures p[k + 1] in Deps(ById(steps), p[k]) <==> Depends(steps, p[k], p[k + 1])
      {
        DependsIs(steps, p[k], p[k + 1]);
      }
      hide Deps, Depends;
    }
  }

  /** The planner accepts a plan of the right size whose steps depend on other listed steps, and not in a circle. */
  lemma {:induction false} PlanIs(draft: Draft)
    ensures ModeOk(draft.mode, |draft.steps|) && DepsKnown(draft.steps) && !HasCycle(ById(draft.steps)) <==>
      && (draft.mode == "single" ==> |draft.steps| == 1) && (draft.mode == "multi" ==> |draft.steps| > 1)
      && (forall i, d :: 0 <= i < |draft.steps| && d in draft.steps[i].dependsOn ==>
            d != draft.steps[i].id && exists j :: 0 <= j < |draft.steps| && draft.steps[j].id == d)
      && !exists p :: Circle(draft.steps, p)
  {
    CycleIsCircle(draft.steps);
    hide HasCycle, ById, Circle;
    assert DepsKnown(draft.steps) <==>
      forall i, d :: 0 <= i < |draft.steps| && d in draft.steps[i].dependsOn ==>
        d != draft.steps[i].id && exists j :: 0 <= j < |draft.steps| && draft.steps[j].id == d by {
      assert forall i :: 0 <= i < |draft.steps| ==>
        (Known(draft.steps, draft.steps[i]) <==>
          forall d :: d in draft.steps[i].dependsOn ==> d != draft.steps[i].id && exists j :: 0 <= j < |draft.steps| && draft.steps[j].id == d);
    }
  }

  /** Every text of the step is given, and some capability is asked for. */
  predicate Complete(s: Step) {
    |s.id| > 0 && |s.title| > 0 && |s.objective| > 0 && |s.output| > 0 && |s.requiredCapabilities| > 0
  }

  predicate DependsOnEarlier(steps: seq<Step>, i: nat)
    requires i < |steps|
  {
    forall k :: 0 <= k < |steps[i].dependsOn| ==> Earlier(steps, i, steps[i].dependsOn[k])
  }

  predicate Earlier(steps: seq<Step>, i: nat, id: string)
    requires i <= |steps|
  {
    exists j :: 0 <= j < i && steps[j].id == id
  }

  /** The engine accepts a complete draft whose steps have ids of their own and depend on earlier steps only. */
  lemma {:induction false} DraftIs(d: Draft)
    ensures HeaderOk(d) && Listed(d.steps) <==>
      && ((d.mode == "single" && |d.steps| == 1) || (d.mode == "multi" && |d.steps| > 1))
      && |d.summary| > 0 && |d.graphVersion| > 0 && |d.model| > 0 && !(d.confidence < 0.0) && !(d.confidence > 1.0)
      && (forall i :: 0 <= i < |d.steps| ==> Complete(d.steps[i]))
      && (forall i, j :: 0 <= i < j < |d.steps| ==> d.steps[i].id != d.steps[j].id)
      && (forall i :: 0 <= i < |d.steps| ==> DependsOnEarlier(d.steps, i))
  {
    var steps, ids := d.steps, StepIds(d.steps);
    assert forall i :: 0 <= i < |steps| ==> ids[i] == steps[i].id;
    forall i | 0 <= i < |steps|
      ensures Filled(steps[i]) <==> Complete(steps[i])
      ensures DependsBackwards(steps, i) <==> DependsOnEarlier(steps, i)
    {
      BackwardsIs(steps, i);
      FilledIs(steps[i]);
    }
    assert (|d.summary| == 0 <==> d.summary == "") && (|d.graphVersion| == 0 <==> d.graphVersion == "") && (|d.model| == 0 <==> d.model == "");
    hide Filled, Complete, DependsBackwards, DependsOnEarlier;
  }

  lemma FilledIs(s: Step)
    ensures Filled(s) <==> Complete(s)
  {
    assert (|s.id| == 0 <==> s.id == "") && (|s.title| == 0 <==> s.title == "");
    assert (|s.objective| == 0 <==> s.objective == "") && (|s.output| == 0 <==> s.output == "");
  }

  lemma BackwardsIs(steps: seq<Step>, i: nat)
    requires i < |steps|
    ensures DependsBackwards(steps, i) <==> DependsOnEarlier(steps, i)
  {
    var deps, ids := steps[i].dependsOn, StepIds(steps);
    forall id
      ensures ListedBefore(ids, i, id) <==> Earlier(steps, i, id)
    {
      EarlierIs(steps, i, id);
    }
    hide ListedBefore, Earlier;
    if DependsBackwards(steps, i) {
      forall k | 0 <= k < |deps|
        ensures Earlier(steps, i, deps[k])
      {
        assert deps[k] in deps;
      }
    }
    if DependsOnEarlier(steps, i) {
      forall id | id in deps
        ensures ListedBefore(ids, i, id)
      {
        var k :| 0 <= k < |deps| && deps[k] == id;
      }
    }
  }

  lemma EarlierIs(steps: seq<Step>, i: nat, id: string)
    requires i <= |steps|
    ensures ListedBefore(StepIds(steps), i, id) <==> Earlier(steps, i, id)
  {
    var ids := StepIds(steps);
    assert forall j :: 0 <= j < |steps| ==> ids[j] == steps[j].id;
  }
}
