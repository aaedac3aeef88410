/** The revision store of services/engine/internal/matching/snapshot_memory.go and its history over every run. */
module MatchRevisions {
  import opened Wrappers
  import opened Text
  import opened Sequences
  import opened MatchTypes
  import opened MatchFilter
  import opened MatchService
  import opened MatchSnapshot
  import opened MatchAcceptance
  import Shuffle = MatchShuffle
  import Fairness = MatchFairness

  /** The keyed and plain hashes of the service, as functions of what they hash. */
  datatype Hashes = Hashes(derive: Shuffle.Derive, snapshotId: (SnapshotKey, nat) -> string, policyHash: Shuffle.Policy -> string)

  ghost predicate HashesOk(h: Hashes, policy: Shuffle.Policy) {
    && (forall context :: Shuffle.Productive(h.derive(context, policy)) && ValidDigest(h.derive(context, policy).digest))
    && (forall key, revision: nat :: ValidDigest(h.snapshotId(key, revision)))
    && ValidDigest(h.policyHash(policy))
  }

  datatype State = State(byTask: map<string, seq<Snapshot>>, byIdentity: map<SnapshotKey, Snapshot>)

  datatype Error = InvalidDraft | Rejected

  const EMPTY := State(map[], map[])

  function History(s: State, taskId: string): seq<Snapshot> {
    if taskId in s.byTask then s.byTask[taskId] else []
  }

  /** Ranking scores small enough for their weights to add up in 64 bits. */
  predicate Bounded(draft: SnapshotDraft) {
    forall i :: 0 <= i < |draft.result.qualified| ==> draft.result.qualified[i].score.rankingScore <= Shuffle.MAX_RANKING
  }

  lemma AcceptedPool(pool: seq<ScoredCandidate>, context: Shuffle.SeedContext, policy: Shuffle.Policy)
    requires Shuffle.Validate(pool, context, policy).None?
    requires forall i :: 0 <= i < |pool| ==> pool[i].score.rankingScore <= Shuffle.MAX_RANKING
    ensures Shuffle.PoolOk(Elements(pool)) && Shuffle.LimitsOk(policy)
  {
    hide Shuffle.Best, Shuffle.FaultOf;
    Shuffle.FaultlessDiffers(pool, Shuffle.Best(pool), {});
    Shuffle.ValidPool(pool);
  }

  function Seal(h: Hashes, policy: Shuffle.Policy, draft: SnapshotDraft, revision: nat, o: Shuffle.ShuffleResult, now: int): Snapshot {
    Snapshot(h.snapshotId(draft.key, revision), draft.key, revision, draft.ruleVersion, draft.modelVersion,
             o.seedDigest, o.seedKeyVersion, h.policyHash(policy), o.triggered, draft.result, o.selections, now)
  }

  /** The snapshot a new revision consists of; None when the draft's pool is refused. */
  ghost function Build(h: Hashes, policy: Shuffle.Policy, draft: SnapshotDraft, revision: nat, now: int): Option<Snapshot>
    requires HashesOk(h, policy) && Bounded(draft)
  {
    var context := ContextOf(draft.key, revision);
    if Shuffle.Validate(draft.result.qualified, context, policy).Some? then None
    else
      AcceptedPool(draft.result.qualified, context, policy);
      var o := Shuffle.Outcome(h.derive(context, policy), Elements(draft.result.qualified), policy);
      var snapshot := Seal(h, policy, draft, revision, o, now);
      if SnapshotOk(snapshot) then Some(snapshot) else None
  }

  ghost function CreateRevision(s: State, h: Hashes, policy: Shuffle.Policy, draft: SnapshotDraft, now: int): (State, Result<(Snapshot, bool), Error>)
    requires HashesOk(h, policy) && Bounded(draft)
  {
    if !DraftOk(draft) then (s, Failure(InvalidDraft))
    else if draft.key in s.byIdentity then (s, Success((s.byIdentity[draft.key], true)))
    else
      var history := History(s, draft.key.taskId);
      var built := Build(h, policy, draft, |history| + 1, now);
      if built.None? then (s, Failure(Rejected))
      else
        (State(s.byTask[draft.key.taskId := history + [built.value]], s.byIdentity[draft.key := built.value]),
         Success((built.value, false)))
  }

  class MemorySnapshotRepository {
    var byTask: map<string, seq<Snapshot>>
    var byIdentity: map<SnapshotKey, Snapshot>

    constructor ()
      ensures Value() == EMPTY
    {
      byTask, byIdentity := map[], map[];
    }

    ghost function Value(): State
      reads this
    {
      State(byTask, byIdentity)
    }

    /** Validation, then the atomic step under the repository's lock with the builder inlined. */
    method Revise(h: Hashes, policy: Shuffle.Policy, draft: SnapshotDraft, now: int) returns (r: Result<(Snapshot, bool), Error>)
      requires HashesOk(h, policy) && Bounded(draft)
      modifies this
      ensures (Value(), r) == CreateRevision(old(Value()), h, policy, draft, now)
    {
      hide HashesOk, DraftOk, SnapshotOk, Shuffle.Validate, Shuffle.Outcome, Shuffle.PoolOk, Shuffle.Productive;
      var valid := ValidateSnapshotDraft(draft);
      if !valid {
        return Failure(InvalidDraft);
      }
      if draft.key in byIdentity {
        return Success((byIdentity[draft.key], true));
      }
      var history := if draft.key.taskId in byTask then byTask[draft.key.taskId] else [];
      var revision := |history| + 1;
      var context := ContextOf(draft.key, revision);
      assert Shuffle.Productive(h.derive(context, policy)) by { Derives(h, policy, context); }
      var shuffle := Shuffle.FairShuffle(h.derive, draft.result.qualified, context, policy);
      if shuffle.Failure? {
        return Failure(Rejected);
      }
      var created := Seal(h, policy, draft, revision, shuffle.value, now);
      var stored := ValidateSnapshot(created);
      if !stored {
        return Failure(Rejected);
      }
      byTask := byTask[draft.key.taskId := history + [created]];
      byIdentity := byIdentity[draft.key := created];
      return Success((created, false));
    }

    /** The newest snapshot of a task under a specification and an algorithm. */
    method Latest(taskId: string, taskSpecHash: string, algorithmVersion: string) returns (r: Option<Snapshot>)
      ensures var items := History(Value(), taskId);
              && (r.None? ==> forall i :: 0 <= i < |items| ==> !Fits(items[i], taskSpecHash, algorithmVersion))
              && (r.Some? ==> exists i: nat :: IsNewest(items, i, taskSpecHash, algorithmVersion) && items[i] == r.value)
    {
      var items := if taskId in byTask then byTask[taskId] else [];
      var index := |items|;
      while index > 0
        invariant 0 <= index <= |items|
        invariant forall j :: index <= j < |items| ==> !Fits(items[j], taskSpecHash, algorithmVersion)
      {
        index := index - 1;
        if Fits(items[index], taskSpecHash, algorithmVersion) {
          assert IsNewest(History(Value(), taskId), index, taskSpecHash, algorithmVersion);
          return Some(items[index]);
        }
      }
      return None;
    }
  }

  predicate Fits(s: Snapshot, taskSpecHash: string, algorithmVersion: string) {
    s.key.taskSpecHash == taskSpecHash && s.key.algorithmVersion == algorithmVersion
  }

  predicate IsNewest(items: seq<Snapshot>, i: nat, taskSpecHash: string, algorithmVersion: string) {
    && i < |items| && Fits(items[i], taskSpecHash, algorithmVersion)
    && forall j :: i < j < |items| ==> !Fits(items[j], taskSpecHash, algorithmVersion)
  }

  lemma Derives(h: Hashes, policy: Shuffle.Policy, context: Shuffle.SeedContext)
    requires HashesOk(h, policy)
    ensures Shuffle.Productive(h.derive(context, policy)) && ValidDigest(h.derive(context, policy).digest)
  {
  }

  // What sealing guarantees

  /** The selections of an accepted pool pass the snapshot's own checks. */
  lemma {:induction false} SealedIsOk(h: Hashes, policy: Shuffle.Policy, draft: SnapshotDraft, revision: nat, now: int)
    requires HashesOk(h, policy) && Bounded(draft) && revision >= 1
    requires Shuffle.Validate(draft.result.qualified, ContextOf(draft.key, revision), policy).None?
    ensures Build(h, policy, draft, revision, now).Some?
  {
    var context := ContextOf(draft.key, revision);
    var pool := draft.result.qualified;
    AcceptedPool(pool, context, policy);
    Derives(h, policy, context);
    Fairness.SelectionsAreFair(h.derive(context, policy), Elements(pool), policy);
    SelectionsAreOk(pool, Shuffle.Outcome(h.derive(context, policy), Elements(pool), policy), policy);
    hide Shuffle.Outcome, Shuffle.Validate, Shuffle.PoolOk, Shuffle.Productive, SelectionOk, PositionsDiffer, ValidDigest, Fairness.RoundsOk;
    assert Shuffle.Outcome(h.derive(context, policy), Elements(pool), policy).seedDigest == h.derive(context, policy).digest by {
      DigestOf(h.derive(context, policy), Elements(pool), policy);
    }
  }

  lemma DigestOf(seed: Shuffle.Seed, pool: set<ScoredCandidate>, policy: Shuffle.Policy)
    requires Shuffle.Productive(seed) && Shuffle.PoolOk(pool)
    ensures Shuffle.Outcome(seed, pool, policy).seedDigest == seed.digest
  {
    hide Shuffle.Productive, Shuffle.PoolOk, Shuffle.Rounds;
  }

  lemma SelectionsAreOk(pool: seq<ScoredCandidate>, o: Shuffle.ShuffleResult, policy: Shuffle.Policy)
    requires Fairness.RoundsOk(Elements(pool), o.selections, policy, o.triggered) && Shuffle.LimitsOk(policy)
    ensures forall i :: 0 <= i < |o.selections| ==> SelectionOk(o.selections[i], pool)
    ensures PositionsDiffer(o.selections)
  {
    forall i | 0 <= i < |o.selections|
      ensures SelectionOk(o.selections[i], pool)
    {
      assert o.selections[i].candidate in Elements(pool);
      var j :| 0 <= j < |pool| && pool[j] == o.selections[i].candidate;
      assert IdOf(pool[j]) == IdOf(o.selections[i].candidate);
    }
  }

  /** A match result over sound candidates is always sealed, or found sealed already. */
  lemma {:induction false} MatchIsSealed(s: State, h: Hashes, policy: Shuffle.Policy, fold: Fold, request: Request, candidates: seq<Candidate>,
                      adapters: seq<Option<Adapter>>, adjuster: Option<Adjuster>, draft: SnapshotDraft, now: int)
    requires Matches(fold, request, candidates, adapters, adjuster, draft.result) && AgentsDiffer(candidates)
    requires forall i :: 0 <= i < |candidates| ==> CountersOk(candidates[i])
    requires KeyOk(draft.key) && !Blank(draft.ruleVersion) && !Blank(draft.modelVersion)
    requires HashesOk(h, policy) && Shuffle.SecretOk(policy) && Shuffle.LimitsOk(policy)
    ensures Bounded(draft)
    ensures CreateRevision(s, h, policy, draft, now).1.Success?
  {
    hide HashesOk, Matches, DraftOk, KeyOk, Shuffle.SecretOk, Shuffle.LimitsOk, Shuffle.Validate, Build;
    var revision := |History(s, draft.key.taskId)| + 1;
    MatchIsAccepted(fold, request, candidates, adapters, adjuster, draft.result, draft.key, draft.ruleVersion, draft.modelVersion,
                    revision, policy);
    SealedIsOk(h, policy, draft, revision, now);
  }

  // Histories

  /** Revisions of a task are numbered 1..n, every one is sound and sealed under its own identity. */
  ghost predicate Numbered(s: State) {
    forall taskId :: taskId in s.byTask ==>
      forall i :: 0 <= i < |s.byTask[taskId]| ==>
        var item := s.byTask[taskId][i];
        && item.matchRevision == i + 1 && item.key.taskId == taskId && SnapshotOk(item)
        && item.key in s.byIdentity && s.byIdentity[item.key] == item
  }

  /** Every sealed identity is one revision of its task. */
  ghost predicate Filed(s: State) {
    forall key :: key in s.byIdentity ==>
      var item := s.byIdentity[key];
      && item.key == key && key.taskId in s.byTask
      && 1 <= item.matchRevision <= |s.byTask[key.taskId]| && s.byTask[key.taskId][item.matchRevision - 1] == item
  }

  /** Histories only grow and nothing sealed ever changes. */
  ghost predicate Extends(s: State, t: State) {
    && (forall taskId :: taskId in s.byTask ==> taskId in t.byTask && s.byTask[taskId] <= t.byTask[taskId])
    && (forall key :: key in s.byIdentity ==> key in t.byIdentity && t.byIdentity[key] == s.byIdentity[key])
  }

  lemma BuildIs(h: Hashes, policy: Shuffle.Policy, draft: SnapshotDraft, revision: nat, now: int)
    requires HashesOk(h, policy) && Bounded(draft) && Build(h, policy, draft, revision, now).Some?
    ensures var item := Build(h, policy, draft, revision, now).value;
            item.key == draft.key && item.matchRevision == revision && SnapshotOk(item)
  {
    hide Shuffle.Outcome, SnapshotOk, HashesOk, Shuffle.Validate;
  }

  function Added(s: State, item: Snapshot): State {
    State(s.byTask[item.key.taskId := History(s, item.key.taskId) + [item]], s.byIdentity[item.key := item])
  }

  lemma AddNumbered(s: State, item: Snapshot)
    requires Numbered(s) && item.key !in s.byIdentity && SnapshotOk(item)
    requires item.matchRevision == |History(s, item.key.taskId)| + 1
    ensures Numbered(Added(s, item))
  {
    hide SnapshotOk;
    var t := Added(s, item);
    forall taskId, i | taskId in t.byTask && 0 <= i < |t.byTask[taskId]|
      ensures var x := t.byTask[taskId][i];
              && x.matchRevision == i + 1 && x.key.taskId == taskId && SnapshotOk(x)
              && x.key in t.byIdentity && t.byIdentity[x.key] == x
    {
      assert taskId in s.byTask && i < |s.byTask[taskId]| ==> t.byTask[taskId][i] == s.byTask[taskId][i];
    }
  }

  lemma AddExtends(s: State, item: Snapshot)
    requires item.key !in s.byIdentity
    ensures Extends(s, Added(s, item))
  {
    var t := Added(s, item);
    forall taskId | taskId in s.byTask
      ensures taskId in t.byTask && s.byTask[taskId] <= t.byTask[taskId]
    {
    }
  }

  lemma AddFiled(s: State, item: Snapshot)
    requires Filed(s) && item.matchRevision == |History(s, item.key.taskId)| + 1
    ensures Filed(Added(s, item))
  {
    var t := Added(s, item);
    var history := t.byTask[item.key.taskId];
    assert history[item.matchRevision - 1] == item;
    forall key | key in t.byIdentity && key != item.key
      ensures var x := t.byIdentity[key];
              && x.key == key && key.taskId in t.byTask
              && 1 <= x.matchRevision <= |t.byTask[key.taskId]| && t.byTask[key.taskId][x.matchRevision - 1] == x
    {
      var x := s.byIdentity[key];
      assert s.byTask[key.taskId][x.matchRevision - 1] == x;
      if key.taskId == item.key.taskId {
        assert history[x.matchRevision - 1] == s.byTask[key.taskId][x.matchRevision - 1];
      }
    }
  }

  lemma CreateKeeps(s: State, h: Hashes, policy: Shuffle.Policy, draft: SnapshotDraft, now: int)
    requires HashesOk(h, policy) && Bounded(draft) && Numbered(s) && Filed(s)
    ensures var t := CreateRevision(s, h, policy, draft, now).0; Numbered(t) && Filed(t) && Extends(s, t)
    ensures var r := CreateRevision(s, h, policy, draft, now).1;
            r.Success? ==> r.value.1 == (draft.key in s.byIdentity) && r.value.0.key == draft.key
  {
    hide Build, HashesOk, DraftOk, SnapshotOk, Bounded;
    if DraftOk(draft) && draft.key !in s.byIdentity {
      var revision := |History(s, draft.key.taskId)| + 1;
      if Build(h, policy, draft, revision, now).Some? {
        BuildIs(h, policy, draft, revision, now);
        AddNumbered(s, Build(h, policy, draft, revision, now).value);
        AddFiled(s, Build(h, policy, draft, revision, now).value);
        AddExtends(s, Build(h, policy, draft, revision, now).value);
      }
    }
  }

  datatype Submission = Submission(draft: SnapshotDraft, now: int)

  ghost function Run(s: State, h: Hashes, policy: Shuffle.Policy, requests: seq<Submission>): State
    requires HashesOk(h, policy) && forall i :: 0 <= i < |requests| ==> Bounded(requests[i].draft)
  {
    if requests == [] then s
    else
      var last := requests[|requests| - 1];
      CreateRevision(Run(s, h, policy, requests[..|requests| - 1]), h, policy, last.draft, last.now).0
  }

  lemma {:induction false} RunKeeps(s: State, h: Hashes, policy: Shuffle.Policy, requests: seq<Submission>)
    requires HashesOk(h, policy) && forall i :: 0 <= i < |requests| ==> Bounded(requests[i].draft)
    requires Numbered(s) && Filed(s)
    ensures var t := Run(s, h, policy, requests); Numbered(t) && Filed(t) && Extends(s, t)
    decreases |requests|
  {
    hide Build, HashesOk, DraftOk, Bounded, Numbered, Filed, CreateRevision;
    if requests != [] {
      var last := requests[|requests| - 1];
      var before := Run(s, h, policy, requests[..|requests| - 1]);
      RunKeeps(s, h, policy, requests[..|requests| - 1]);
      CreateKeeps(before, h, policy, last.draft, last.now);
    }
  }

  /** Whatever was requested before, an identity once sealed is answered with the very same snapshot for ever. */
  lemma {:induction false} SealedForever(h: Hashes, policy: Shuffle.Policy, early: seq<Submission>, late: seq<Submission>, draft: SnapshotDraft, now: int)
    requires HashesOk(h, policy) && Bounded(draft) && DraftOk(draft)
    requires forall i :: 0 <= i < |early| ==> Bounded(early[i].draft)
    requires forall i :: 0 <= i < |late| ==> Bounded(late[i].draft)
    requires draft.key in Run(EMPTY, h, policy, early).byIdentity
    ensures var s := Run(EMPTY, h, policy, early);
            var t := Run(s, h, policy, late);
            CreateRevision(t, h, policy, draft, now) == (t, Success((s.byIdentity[draft.key], true)))
  {
    hide Build, HashesOk, DraftOk, Bounded, Run;
    RunKeeps(EMPTY, h, policy, early);
    RunKeeps(Run(EMPTY, h, policy, early), h, policy, late);
  }

  /** In every reachable store the revisions of a task are 1..n, one for each identity. */
  lemma {:induction false} RevisionsAreNumbered(h: Hashes, policy: Shuffle.Policy, requests: seq<Submission>, taskId: string, i: nat, j: nat)
    requires HashesOk(h, policy) && forall k :: 0 <= k < |requests| ==> Bounded(requests[k].draft)
    requires taskId in Run(EMPTY, h, policy, requests).byTask
    requires i < j < |Run(EMPTY, h, policy, requests).byTask[taskId]|
    ensures var items := Run(EMPTY, h, policy, requests).byTask[taskId];
            && items[i].matchRevision == i + 1 && items[j].matchRevision == j + 1
            && items[i].key != items[j].key && items[i].key.taskId == items[j].key.taskId == taskId
            && SnapshotOk(items[i]) && SnapshotOk(items[j])
  {
    hide HashesOk, Bounded, Run, SnapshotOk;
    RunKeeps(EMPTY, h, policy, requests);
  }
}
