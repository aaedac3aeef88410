/** What one stage of the matching pipeline delivers, the next one accepts. */
module MatchAcceptance {
  import opened Wrappers
  import opened Text
  import opened Sequences
  import opened Ranking
  import opened MatchTypes
  import opened MatchScore
  import opened MatchFilter
  import opened MatchService
  import opened MatchSnapshot
  import Shuffle = MatchShuffle
  import Fairness = MatchFairness

  // What Match delivers

  lemma {:induction false} QualifiedFromIs(scored: seq<ScoredCandidate>, best: int, room: nat)
    ensures var q := QualifiedFrom(scored, best, room);
            && |q| <= room
            && (forall i :: 0 <= i < |q| ==> q[i] in scored && Qualifies(q[i], best))
            && (IdsDiffer(scored) ==> IdsDiffer(q))
    decreases |scored|
  {
    hide Qualifies;
    if scored != [] && room > 0 {
      var tail := scored[1..];
      assert forall x :: x in tail ==> x in scored;
      if Qualifies(scored[0], best) {
        QualifiedFromIs(tail, best, room - 1);
        var q := QualifiedFrom(tail, best, room - 1);
        if IdsDiffer(scored) {
          assert IdsDiffer(tail);
          forall i | 0 <= i < |q|
            ensures IdOf(q[i]) != IdOf(scored[0])
          {
            var j :| 0 <= j < |tail| && tail[j] == q[i];
            assert scored[j + 1] == q[i];
          }
        }
      } else {
        QualifiedFromIs(tail, best, room);
      }
    }
  }

  /** Every scored candidate is an eligible one under its own id, with a score in range. */
  lemma ScoredIs(request: Request, adjuster: Option<Adjuster>, byId: map<string, Candidate>, book: Book, c: ScoredCandidate)
    requires book.Keys <= byId.Keys && c in ScoredSet(request, adjuster, byId, book)
    requires forall id :: id in byId ==> byId[id].agentId == id
    ensures IdOf(c) in byId && IdOf(c) in book && c == ScoredOf(request, adjuster, byId[IdOf(c)], book[IdOf(c)])
    ensures 0 <= c.score.rankingScore <= 100
  {
    hide Fused, RuleScore, ApplyModelDelta;
    var id :| id in Elements(Fused(book)) && c == ScoredOf(request, adjuster, byId[id], book[id]);
    var score := RuleScore(request, byId[id], book[id]);
    ScoreBounds(request, byId[id], book[id], Delta(adjuster, byId[id], score));
  }

  lemma ScoredAreDistinct(request: Request, adjuster: Option<Adjuster>, byId: map<string, Candidate>, book: Book, scored: seq<ScoredCandidate>)
    requires book.Keys <= byId.Keys && Lists(ByScore, scored, ScoredSet(request, adjuster, byId, book))
    requires forall id :: id in byId ==> byId[id].agentId == id
    ensures IdsDiffer(scored) && |scored| <= MAX_SCORED_CANDIDATES
    ensures forall i :: 0 <= i < |scored| ==> 0 <= scored[i].score.rankingScore <= 100 && scored[i].candidate in byId.Values
  {
    OrdersAreStrict(book);
    forall i | 0 <= i < |scored|
      ensures IdOf(scored[i]) in byId && IdOf(scored[i]) in book
      ensures scored[i] == ScoredOf(request, adjuster, byId[IdOf(scored[i])], book[IdOf(scored[i])])
      ensures 0 <= scored[i].score.rankingScore <= 100
    {
      assert scored[i] in Elements(scored);
      ScoredIs(request, adjuster, byId, book, scored[i]);
    }
    forall i, j | 0 <= i < j < |scored|
      ensures IdOf(scored[i]) != IdOf(scored[j])
    {
      assert ByScore(scored[i], scored[j]);
      assert !ByScore(scored[i], scored[i]);
    }
    hide ByScore, ScoredOf, Fused;
    assert Distinct(scored);
    CountElements(scored);
    CountElements(Fused(book));
    if scored != [] {
      var any := scored[0];
      ImageSize(Elements(Fused(book)), Elements(scored), (id: string) =>
        if id in byId && id in book then ScoredOf(request, adjuster, byId[id], book[id]) else any);
    }
  }

  predicate CountersOk(c: Candidate) {
    c.exposureCount >= 0 && c.effectiveSamples >= 0
  }

  /** No qualified candidate has a fault of its own. */
  lemma QualifiedIsFaultless(scored: seq<ScoredCandidate>, c: ScoredCandidate)
    requires scored != [] && Qualifies(c, scored[0].score.rankingScore)
    requires !Blank(IdOf(c)) && !Blank(Shuffle.ProviderOf(c)) && CountersOk(c.candidate)
    requires Increasing(ByScore, scored) && scored[0].score.rankingScore >= 0
    ensures Shuffle.FaultOf(c, Shuffle.Best(Qualified(scored)), {}).None?
  {
    QualifiedFromIs(scored, scored[0].score.rankingScore, MAX_QUALIFIED_POOL);
    var q := Qualified(scored);
    forall i | 0 <= i < |q|
      ensures q[i].score.rankingScore <= scored[0].score.rankingScore
    {
      var j :| 0 <= j < |scored| && scored[j] == q[i];
      assert j > 0 ==> ByScore(scored[0], scored[j]);
    }
    assert Shuffle.Best(q) <= scored[0].score.rankingScore;
  }

  /** The parts of a match that its excluded candidates must satisfy. */
  lemma ExclusionsAccepted(fold: Fold, request: Request, candidates: seq<Candidate>, excluded: seq<Exclusion>, scored: seq<ScoredCandidate>)
    requires AgentsDiffer(candidates) && multiset(excluded) == multiset(Failing(fold, request, candidates))
    requires forall i :: 0 <= i < |scored| ==> scored[i].candidate in candidates && Passes(fold, request, scored[i].candidate)
    ensures ExclusionsDiffer(excluded)
    ensures forall i :: 0 <= i < |excluded| ==> ExclusionOk(excluded[i], scored)
  {
    hide Passes, Reasons;
    FilterMembers(fold, request, candidates);
    FilterDiffers(fold, request, candidates);
    SameElements(Failing(fold, request, candidates), excluded);
    hide Failing;
    forall i | 0 <= i < |excluded|
      ensures excluded[i] in Failing(fold, request, candidates)
      ensures ExclusionOk(excluded[i], scored)
    {
      assert excluded[i] in Elements(excluded);
      var e := excluded[i];
      IsPass(fold, request, e.candidate);
      forall j | 0 <= j < |scored|
        ensures IdOf(scored[j]) != e.agentId
      {
        if IdOf(scored[j]) == e.agentId {
          SameAgent(candidates, scored[j].candidate, e.candidate);
        }
      }
    }
    ExclusionsSeparate(Failing(fold, request, candidates));
    StaysDistinct(Failing(fold, request, candidates), excluded);
    forall i, j | 0 <= i < j < |excluded|
      ensures excluded[i].agentId != excluded[j].agentId
    {
      if excluded[i].agentId == excluded[j].agentId {
        SameAgent(candidates, excluded[i].candidate, excluded[j].candidate);
      }
    }
  }

  /**
   Whatever the channels and the model return, the result of a match over candidates with
   distinct agents and valid counters is a draft that can be sealed and a pool that FairShuffle takes.
   */
  lemma MatchIsAccepted(fold: Fold, request: Request, candidates: seq<Candidate>, adapters: seq<Option<Adapter>>,
                        adjuster: Option<Adjuster>, result: MatchResult, key: SnapshotKey, ruleVersion: string, modelVersion: string,
                        revision: nat, policy: Shuffle.Policy)
    requires Matches(fold, request, candidates, adapters, adjuster, result) && AgentsDiffer(candidates)
    requires forall i :: 0 <= i < |candidates| ==> CountersOk(candidates[i])
    requires KeyOk(key) && !Blank(ruleVersion) && !Blank(modelVersion)
    requires revision >= 1 && Shuffle.SecretOk(policy) && Shuffle.LimitsOk(policy)
    ensures DraftOk(SnapshotDraft(key, ruleVersion, modelVersion, result))
    ensures Shuffle.Validate(result.qualified, ContextOf(key, revision), policy).None?
    ensures forall i :: 0 <= i < |result.qualified| ==> 0 <= result.qualified[i].score.rankingScore <= 100
  {
    hide Matches, Reasons, Passes, Blank, ValidDigest, Failing, Passing, Increasing, ByScore, IdsDiffer, CountersOk, ExclusionOk,
         ExclusionsDiffer, AgentsDiffer, Shuffle.Validate, Qualified;
    MatchedScored(fold, request, candidates, adapters, adjuster, result);
    forall i | 0 <= i < |result.scored|
      ensures CountersOk(result.scored[i].candidate) && !Blank(IdOf(result.scored[i])) && !Blank(Shuffle.ProviderOf(result.scored[i]))
    {
      PassesHasIdentity(fold, request, result.scored[i].candidate);
    }
    ExclusionsAccepted(fold, request, candidates, result.excluded, result.scored);
    QualifiedAccepted(result.scored, key, revision, policy);
  }

  /** The scored list of a match: distinct eligible candidates in canonical order, with scores in range. */
  lemma MatchedScored(fold: Fold, request: Request, candidates: seq<Candidate>, adapters: seq<Option<Adapter>>,
                      adjuster: Option<Adjuster>, result: MatchResult)
    requires Matches(fold, request, candidates, adapters, adjuster, result)
    ensures IdsDiffer(result.scored) && |result.scored| <= MAX_SCORED_CANDIDATES && Increasing(ByScore, result.scored)
    ensures forall i :: 0 <= i < |result.scored| ==>
              && 0 <= result.scored[i].score.rankingScore <= 100
              && result.scored[i].candidate in candidates && Passes(fold, request, result.scored[i].candidate)
    ensures result.qualified == Qualified(result.scored)
    ensures multiset(result.excluded) == multiset(Failing(fold, request, candidates))
  {
    var passing := Passing(fold, request, candidates);
    var book :| Evaluates(request, adapters, adjuster, Lookup(passing), book, result);
    hide Reflects, Reasons, Passes, Blank, RecallNoted, ModelNoted, ByNotice;
    ScoredAreDistinct(request, adjuster, Lookup(passing), book, result.scored);
    FilterMembers(fold, request, candidates);
    hide Passing, ScoredSet, Failing, Increasing, IdsDiffer, AgentsDiffer;
    var byId := Lookup(passing);
    forall i | 0 <= i < |result.scored|
      ensures result.scored[i].candidate in candidates && Passes(fold, request, result.scored[i].candidate)
    {
      assert result.scored[i].candidate in byId.Values;
    }
  }

  function ContextOf(key: SnapshotKey, revision: nat): Shuffle.SeedContext {
    Shuffle.SeedContext(key.taskId, key.taskSpecHash, revision, key.algorithmVersion)
  }

  lemma QualifiedAccepted(scored: seq<ScoredCandidate>, key: SnapshotKey, revision: nat, policy: Shuffle.Policy)
    requires IdsDiffer(scored) && Increasing(ByScore, scored)
    requires forall i :: 0 <= i < |scored| ==> CountersOk(scored[i].candidate) && !Blank(IdOf(scored[i])) && !Blank(Shuffle.ProviderOf(scored[i]))
    requires forall i :: 0 <= i < |scored| ==> 0 <= scored[i].score.rankingScore <= 100
    requires KeyOk(key) && revision >= 1 && Shuffle.SecretOk(policy) && Shuffle.LimitsOk(policy)
    ensures |Qualified(scored)| <= MAX_QUALIFIED_POOL
    ensures forall i :: 0 <= i < |Qualified(scored)| ==>
              Qualified(scored)[i] in scored && 0 <= Qualified(scored)[i].score.rankingScore <= 100
    ensures Shuffle.Validate(Qualified(scored), ContextOf(key, revision), policy).None?
  {
    hide Blank, ValidDigest, Increasing, ByScore, Shuffle.FaultOf, Shuffle.Best, CountersOk;
    var q := Qualified(scored);
    if scored != [] {
      QualifiedFromIs(scored, scored[0].score.rankingScore, MAX_QUALIFIED_POOL);
      forall i | 0 <= i < |q|
        ensures q[i] in scored && Shuffle.FaultOf(q[i], Shuffle.Best(q), {}).None?
        ensures 0 <= q[i].score.rankingScore <= 100
      {
        var j :| 0 <= j < |scored| && scored[j] == q[i];
        QualifiedIsFaultless(scored, q[i]);
      }
    }
    Fairness.FaultlessIff(q, Shuffle.Best(q), {});
  }
}
