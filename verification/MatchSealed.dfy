/** When the revision store seals a draft, and what the sealed snapshot consists of. */
module MatchSealed {
  import opened Wrappers
  import opened Text
  import opened Sequences
  import opened MatchTypes
  import opened MatchFilter
  import opened MatchService
  import opened MatchSnapshot
  import opened MatchAcceptance
  import opened MatchRevisions
  import Shuffle = MatchShuffle

  /** The revision's own shuffle: of the draft's qualified candidates, under the seed of task, specification and revision. */
  predicate SeededBy(context: Shuffle.SeedContext, key: SnapshotKey, revision: nat) {
    && context.taskId == key.taskId && context.taskSpecHash == key.taskSpecHash && context.matchRevision == revision
    && context.algorithmVersion == key.algorithmVersion
  }

  /** The snapshot holds the draft, its number and its hashes, and the outcome of the shuffle. */
  predicate Holds(s: Snapshot, h: Hashes, policy: Shuffle.Policy, draft: SnapshotDraft, revision: nat, o: Shuffle.ShuffleResult, now: int) {
    && s.key == draft.key && s.result == draft.result && s.ruleVersion == draft.ruleVersion && s.modelVersion == draft.modelVersion
    && s.matchRevision == revision && s.id == h.snapshotId(draft.key, revision) && s.policyHash == h.policyHash(policy)
    && s.seedDigest == o.seedDigest && s.seedKeyVersion == o.seedKeyVersion && s.triggered == o.triggered && s.selections == o.selections
    && s.createdAt == now
  }

  /**
   An invalid draft is refused, a sealed identity answered again. A new identity becomes the task's next
   revision exactly when the shuffle of its qualified candidates is valid.
   */
  lemma {:induction false} ReviseOutcome(s: State, h: Hashes, policy: Shuffle.Policy, draft: SnapshotDraft, now: int, context: Shuffle.SeedContext)
    requires HashesOk(h, policy) && Bounded(draft)
    requires SeededBy(context, draft.key, if draft.key.taskId in s.byTask then |s.byTask[draft.key.taskId]| + 1 else 1)
    ensures var (t, r) := CreateRevision(s, h, policy, draft, now); var task, pool := draft.key.taskId, draft.result.qualified;
      var history := if task in s.byTask then s.byTask[task] else [];
      if !DraftOk(draft) then t == s && r == Failure(InvalidDraft)
      else if draft.key in s.byIdentity then t == s && r == Success((s.byIdentity[draft.key], true))
      else if Shuffle.Validate(pool, context, policy).Some? then t == s && r == Failure(Rejected)
      else
        && Shuffle.Productive(h.derive(context, policy)) && Shuffle.PoolOk(Elements(pool))
        && r.Success? && !r.value.1
        && Holds(r.value.0, h, policy, draft, |history| + 1, Shuffle.Outcome(h.derive(context, policy), Elements(pool), policy), now)
        && t.byTask == s.byTask[task := history + [r.value.0]] && t.byIdentity == s.byIdentity[draft.key := r.value.0]
  {
    hide DraftOk, HashesOk, Bounded, Build, Shuffle.Validate, Shuffle.Outcome, Shuffle.PoolOk, Shuffle.Productive, Holds;
    var revision := |History(s, draft.key.taskId)| + 1;
    assert context == ContextOf(draft.key, revision);
    BuildOutcome(h, policy, draft, revision, now);
  }

  lemma BuildOutcome(h: Hashes, policy: Shuffle.Policy, draft: SnapshotDraft, revision: nat, now: int)
    requires HashesOk(h, policy) && Bounded(draft) && revision >= 1
    ensures var built := Build(h, policy, draft, revision, now); var context, pool := ContextOf(draft.key, revision), draft.result.qualified;
      && (built.Some? <==> Shuffle.Validate(pool, context, policy).None?)
      && (built.Some? ==>
            && Shuffle.Productive(h.derive(context, policy)) && Shuffle.PoolOk(Elements(pool))
            && Holds(built.value, h, policy, draft, revision, Shuffle.Outcome(h.derive(context, policy), Elements(pool), policy), now))
  {
    hide HashesOk, Bounded, SnapshotOk, Shuffle.Validate, Shuffle.Outcome, Shuffle.PoolOk, Shuffle.Productive;
    var context, pool := ContextOf(draft.key, revision), draft.result.qualified;
    Derives(h, policy, context);
    BoundedIs(draft);
    if Shuffle.Validate(pool, context, policy).None? {
      AcceptedPool(pool, context, policy);
      SealedIsOk(h, policy, draft, revision, now);
    }
  }

  lemma BoundedIs(draft: SnapshotDraft)
    requires Bounded(draft)
    ensures forall i :: 0 <= i < |draft.result.qualified| ==> draft.result.qualified[i].score.rankingScore <= Shuffle.MAX_RANKING
  {
  }

  predicate Among(candidates: seq<ScoredCandidate>, agentId: string) {
    exists i :: 0 <= i < |candidates| && candidates[i].candidate.agentId == agentId
  }

  /** What a draft must be to be sealed. */
  lemma {:induction false} DraftOkIff(draft: SnapshotDraft)
    ensures DraftOk(draft) <==>
      var r, key := draft.result, draft.key;
      && !Blank(key.taskId) && ValidDigest(key.taskSpecHash) && ValidDigest(key.effectiveInputHash) && key.algorithmVersion == "fair-shuffle-v1"
      && !Blank(draft.ruleVersion) && !Blank(draft.modelVersion)
      && |r.qualified| <= 20 && |r.scored| <= 100
      && (forall i, j :: 0 <= i < j < |r.scored| ==>
            r.scored[i].candidate.agentId != r.scored[j].candidate.agentId && ByScore(r.scored[i], r.scored[j]))
      && (forall i :: 0 <= i < |r.qualified| ==> r.qualified[i] in r.scored) && r.qualified == Qualified(r.scored)
      && (forall i :: 0 <= i < |r.excluded| ==>
            && r.excluded[i].candidate.agentId == r.excluded[i].agentId && |r.excluded[i].reasons| > 0
            && !Among(r.scored, r.excluded[i].agentId))
      && (forall i, j :: 0 <= i < j < |r.excluded| ==> r.excluded[i].agentId != r.excluded[j].agentId)
  {
    var r := draft.result;
    hide ByScore, Qualified, Blank, ValidDigest;
    forall id
      ensures ScoredHere(r.scored, id) <==> Among(r.scored, id)
    {
    }
    hide ScoredHere, Among;
    assert forall i :: 0 <= i < |r.excluded| ==> (r.excluded[i].reasons == [] <==> |r.excluded[i].reasons| == 0);
  }

  /** What a snapshot must be to be stored. */
  lemma {:induction false} SnapshotOkIff(s: Snapshot)
    ensures SnapshotOk(s) <==>
      && ValidDigest(s.id) && ValidDigest(s.seedDigest) && ValidDigest(s.policyHash) && s.matchRevision > 0
      && (forall i :: 0 <= i < |s.selections| ==>
            && Among(s.result.qualified, s.selections[i].candidate.candidate.agentId) && 1 <= s.selections[i].position <= 3
            && !(s.selections[i].exploration && s.selections[i].position < 3))
      && (forall i, j :: 0 <= i < j < |s.selections| ==> s.selections[i].position != s.selections[j].position)
  {
    hide ValidDigest;
    forall id
      ensures ScoredHere(s.result.qualified, id) <==> Among(s.result.qualified, id)
    {
    }
    hide ScoredHere, Among;
  }
}
