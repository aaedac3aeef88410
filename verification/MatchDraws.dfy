/** Every selection of a fair shuffle, stated by the points of those who take part in its round. */
module MatchDraws {
  import opened Wrappers
  import opened Text
  import opened Sums
  import opened Sequences
  import opened Ranking
  import opened Sampling
  import opened MatchTypes
  import opened MatchShuffle
  import opened MatchFairness

  /** A qualified candidate's points: what its ranking score exceeds 59 by. */
  ghost function PointsOf(s: set<ScoredCandidate>): int {
    Sum(s, (c: ScoredCandidate) => c.score.rankingScore - 59)
  }

  ghost predicate AllQualified(pool: set<ScoredCandidate>) {
    forall c :: c in pool ==> c.score.rankingScore >= 60
  }

  lemma TakeOut(s: set<ScoredCandidate>, c: ScoredCandidate)
    requires c in s
    ensures PointsOf(s) == c.score.rankingScore - 59 + PointsOf(s - {c})
  {
    SumTakes(s, (x: ScoredCandidate) => x.score.rankingScore - 59, c);
  }

  lemma WeightIs(c: ScoredCandidate)
    requires c.score.rankingScore >= 60
    ensures Weight(c) == c.score.rankingScore - 59
  {
  }

  lemma {:induction false} TotalIs(s: seq<ScoredCandidate>)
    requires Distinct(s) && AllQualified(Elements(s))
    ensures Total(s) == PointsOf(Elements(s))
    decreases |s|
  {
    if s != [] {
      var c := s[0];
      assert c in Elements(s) && c !in Elements(s[1..]);
      assert Elements(s) - {c} == Elements(s[1..]);
      TotalIs(s[1..]);
      WeightIs(c);
      TakeOut(Elements(s), c);
    }
  }

  lemma {:induction false} PrefixIs(s: seq<ScoredCandidate>, i: nat)
    requires Distinct(s) && AllQualified(Elements(s)) && i <= |s|
    ensures Prefix(s, i) == PointsOf(Elements(s[..i]))
  {
    PrefixTotal(s, i);
    assert forall c :: c in Elements(s[..i]) ==> c in Elements(s);
    TotalIs(s[..i]);
  }

  lemma {:induction false} PrefixTotal(s: seq<ScoredCandidate>, i: nat)
    requires i <= |s|
    ensures Prefix(s, i) == Total(s[..i])
    decreases i
  {
    if i > 0 {
      PrefixTotal(s[1..], i - 1);
      assert s[..i][1..] == s[1..][..i - 1];
    }
  }

  // ---- how many draws ----

  /** Among candidates that qualify, as many of the draws pick one as its ranking score exceeds 59 by. */
  lemma {:induction false} DrawsArePoints(s: seq<ScoredCandidate>, i: nat)
    requires i < |s| && s[i].score.rankingScore >= 60
    ensures |Picking(s, i)| == s[i].score.rankingScore - 59
  {
    ShareOfDraws(s, i);
    WeightIs(s[i]);
  }

  /** One more point of the ranking score is exactly one more draw. */
  lemma {:induction false} OneMorePoint(s: seq<ScoredCandidate>, i: nat, j: nat)
    requires i < |s| && j < |s| && s[j].score.rankingScore >= 60 && s[i].score.rankingScore == s[j].score.rankingScore + 1
    ensures |Picking(s, i)| == |Picking(s, j)| + 1
  {
    hide Picking;
    DrawsArePoints(s, i);
    DrawsArePoints(s, j);
  }

  // ---- one draw ----

  predicate Fair(word: nat, bound: nat)
    requires bound >= 1
  {
    0x1_0000_0000_0000_0000 % bound <= word < 0x1_0000_0000_0000_0000
  }

  predicate FirstFair(words: Words, bound: nat, k: nat)
    requires bound >= 1
  {
    Fair(words(k), bound) && forall j :: 0 <= j < k ==> !Fair(words(j), bound)
  }

  /** The first word of the stream that makes every remainder equally likely, reduced. */
  ghost predicate Drawn(words: Words, bound: int, draw: nat) {
    bound >= 1 && exists k: nat :: FirstFair(words, bound, k) && draw == words(k) % bound
  }

  lemma DrawIs(seed: Seed, domain: Domain, bound: nat, draw: nat)
    requires Productive(seed) && 1 <= bound < RANGE64
    ensures Drawn(seed.words(domain), bound, draw) <==> draw == Draw(seed, domain, bound)
  {
    Meets(seed, domain, bound);
    hide Productive, Threshold, Appears;
    ThresholdIsRemainder(bound);
    var words := seed.words(domain);
    var k := First(words, 0, Threshold(bound), RANGE64);
    assert forall w: nat :: Fair(w, bound) <==> Accepted(w, Threshold(bound), RANGE64);
    assert FirstFair(words, bound, k);
    assert forall i: nat :: FirstFair(words, bound, i) ==> i == k;
    assert Draw(seed, domain, bound) == words(k) % bound;
  }

  // ---- one round ----

  /** How often a provider was selected. */
  function SelectedOf(chosen: seq<Selection>, providerId: string): set<nat> {
    set i: nat | i < |chosen| && chosen[i].candidate.candidate.providerId == providerId
  }

  /** Not selected yet, and its provider is below the cap. */
  predicate Open(pool: set<ScoredCandidate>, chosen: seq<Selection>, cap: int, c: ScoredCandidate) {
    && c in pool && |SelectedOf(chosen, c.candidate.providerId)| < cap
    && forall i :: 0 <= i < |chosen| ==> chosen[i].candidate.candidate.agentId != c.candidate.agentId
  }

  /** Shown less than a hundred times or sampled less than twenty times. */
  predicate Unexplored(c: ScoredCandidate) {
    c.candidate.exposureCount < 100 || c.candidate.effectiveSamples < 20
  }

  predicate ExploresNow(pool: set<ScoredCandidate>, chosen: seq<Selection>, cap: int, triggered: bool) {
    |chosen| == 2 && triggered && exists c :: c in pool && Open(pool, chosen, cap, c) && Unexplored(c)
  }

  /** Who takes part in the round: all open candidates, or only the unexplored ones of them. */
  function Entrants(pool: set<ScoredCandidate>, chosen: seq<Selection>, cap: int, triggered: bool): set<ScoredCandidate> {
    set c | c in pool && Open(pool, chosen, cap, c) && (ExploresNow(pool, chosen, cap, triggered) ==> Unexplored(c))
  }

  lemma {:induction false} CountIs(chosen: seq<Selection>, providerId: string)
    ensures ProviderCount(chosen, providerId) == |SelectedOf(chosen, providerId)|
    decreases |chosen|
  {
    if chosen == [] {
      assert SelectedOf(chosen, providerId) == {};
    } else {
      var last := |chosen| - 1;
      CountIs(chosen[..last], providerId);
      assert SelectedOf(chosen, providerId)
          == SelectedOf(chosen[..last], providerId) + if chosen[last].candidate.candidate.providerId == providerId then {last} else {};
    }
  }

  lemma EntrantsAre(pool: set<ScoredCandidate>, chosen: seq<Selection>, cap: int, triggered: bool)
    ensures Entrants(pool, chosen, cap, triggered) == DrawPool(pool, chosen, cap, triggered)
    ensures ExploresNow(pool, chosen, cap, triggered) <==> Explores(pool, chosen, cap, triggered)
    ensures forall c :: Open(pool, chosen, cap, c) <==> c in Eligible(pool, chosen, cap)
  {
    forall c
      ensures Open(pool, chosen, cap, c) <==> c in Eligible(pool, chosen, cap)
    {
      CountIs(chosen, c.candidate.providerId);
    }
    assert forall c :: Unexplored(c) <==> IsExploration(c);
    hide Open, Eligible, Unexplored, IsExploration;
  }

  /**
   The selection of one round: its weight and its chances are points, and the draw falls into the
   stretch of its own points behind those of the entrants whose ids come before it.
   */
  ghost predicate Played(seed: Seed, pool: set<ScoredCandidate>, chosen: seq<Selection>, s: Selection, cap: int, triggered: bool) {
    var entrants := Entrants(pool, chosen, cap, triggered);
    && s.candidate in entrants && s.position == |chosen| + 1
    && s.weight == s.numerator == s.candidate.score.rankingScore - 59
    && s.denominator == PointsOf(entrants)
    && (s.exploration <==> ExploresNow(pool, chosen, cap, triggered))
    && Drawn(seed.words(PositionDomain(|chosen| + 1, s.exploration)), s.denominator, s.draw)
    && Ahead(entrants, s.candidate) <= s.draw < Ahead(entrants, s.candidate) + s.candidate.score.rankingScore - 59
  }

  ghost function Ahead(entrants: set<ScoredCandidate>, c: ScoredCandidate): int {
    PointsOf(set d | d in entrants && Before(d.candidate.agentId, c.candidate.agentId))
  }

  lemma AheadIs(pool: set<ScoredCandidate>, i: nat)
    requires PoolOk(pool) && AllQualified(pool) && i < |Stable(pool)|
    ensures Ahead(pool, Stable(pool)[i]) == Prefix(Stable(pool), i)
  {
    var s := Stable(pool);
    StableDistinct(pool);
    hide PoolOk;
    PrefixIs(s, i);
    var c := s[i];
    forall d
      ensures d in Elements(s[..i]) <==> d in pool && Before(d.candidate.agentId, c.candidate.agentId)
    {
      BeforeAt(pool, i, d);
    }
    assert Elements(s[..i]) == set d | d in pool && Before(d.candidate.agentId, c.candidate.agentId);
  }

  lemma StableDistinct(pool: set<ScoredCandidate>)
    requires PoolOk(pool)
    ensures Distinct(Stable(pool)) && Elements(Stable(pool)) == pool
  {
    var s := Stable(pool);
    ByIdIsStrict();
    forall i, j | 0 <= i < j < |s|
      ensures s[i] != s[j]
    {
      assert ById(s[i], s[j]) && !ById(s[i], s[i]);
    }
  }

  lemma NotBoth(a: ScoredCandidate, b: ScoredCandidate)
    ensures !(ById(a, b) && ById(b, a))
  {
    BeforeTotal(IdOf(a), IdOf(b));
  }

  lemma BeforeAt(pool: set<ScoredCandidate>, i: nat, d: ScoredCandidate)
    requires PoolOk(pool) && i < |Stable(pool)|
    ensures d in Elements(Stable(pool)[..i]) <==> d in pool && Before(d.candidate.agentId, Stable(pool)[i].candidate.agentId)
  {
    var s := Stable(pool);
    hide PoolOk, Stable, Before;
    if d in pool {
      assert d in Elements(s);
      var k :| 0 <= k < |s| && s[k] == d;
      NotBoth(s[k], s[i]);
      assert k < i ==> s[..i][k] == d && ById(s[k], s[i]);
      assert k > i ==> ById(s[i], s[k]);
      if d in s[..i] {
        var m :| 0 <= m < i && s[m] == d;
        assert ById(s[m], s[i]);
      }
    } else {
      assert d in Elements(s[..i]) ==> d in Elements(s);
    }
  }

  lemma {:induction false} SelectPlays(seed: Seed, pool: set<ScoredCandidate>, chosen: seq<Selection>, cap: int, triggered: bool)
    requires Productive(seed) && PoolOk(pool) && AllQualified(pool) && Eligible(pool, chosen, cap) != {}
    ensures Played(seed, pool, chosen, Select(seed, pool, chosen, cap, triggered), cap, triggered)
  {
    EntrantsAre(pool, chosen, cap, triggered);
    DrawPoolOk(pool, chosen, cap, triggered);
    hide PoolOk, Productive, Draw, Stable, Weight, Pick, Total, Drawn, Ahead, DrawPool, Entrants, Explores, ExploresNow, Eligible;
    var entrants := DrawPool(pool, chosen, cap, triggered);
    var stable := Stable(entrants);
    var s := Select(seed, pool, chosen, cap, triggered);
    var i := Pick(stable, s.draw);
    StableDistinct(entrants);
    TotalIs(stable);
    DrawIs(seed, PositionDomain(|chosen| + 1, s.exploration), s.denominator, s.draw);
    PickIff(stable, s.draw, i);
    AheadIs(entrants, i);
    WeightIs(s.candidate);
  }

  // ---- the whole shuffle ----

  /** What a pool must be to be shuffled. */
  predicate Shuffleable(pool: seq<ScoredCandidate>) {
    && |pool| <= 20
    && (forall i, j :: 0 <= i < j < |pool| ==> pool[i].candidate.agentId != pool[j].candidate.agentId)
    && (forall i, j :: 0 <= i < |pool| && 0 <= j < |pool| ==> pool[i].score.rankingScore + 10 >= pool[j].score.rankingScore)
    && (forall i :: 0 <= i < |pool| ==> Sound(pool[i]))
  }

  predicate Sound(c: ScoredCandidate) {
    && !Blank(c.candidate.agentId) && !Blank(c.candidate.providerId)
    && c.score.ruleScore >= 60 && c.score.rankingScore >= 60
    && c.candidate.exposureCount >= 0 && c.candidate.effectiveSamples >= 0
  }

  predicate ContextFits(context: SeedContext) {
    && !Blank(context.taskId) && ValidDigest(context.taskSpecHash) && context.matchRevision >= 1
    && context.algorithmVersion == "fair-shuffle-v1"
  }

  predicate PolicyFits(policy: Policy) {
    0 <= policy.explorationBasisPoints <= 10_000 && policy.providerCap >= 1 && 1 <= policy.selectionLimit <= 3
  }

  /** What a context and a policy must say. */
  predicate Admissible(context: SeedContext, policy: Policy) {
    ContextFits(context) && !Blank(policy.seedKeyVersion) && |policy.seedSecret| >= 32 && PolicyFits(policy)
  }

  /** Validation accepts exactly the admissible contexts and policies with shuffleable pools. */
  lemma {:induction false} ValidIff(pool: seq<ScoredCandidate>, context: SeedContext, policy: Policy)
    ensures Validate(pool, context, policy).None? <==> Admissible(context, policy) && Shuffleable(pool)
  {
    hide FirstFault, Best, Blank, ValidDigest, FaultOf, Sound;
    FaultlessIff(pool, Best(pool), {});
    forall i | 0 <= i < |pool|
      ensures FaultOf(pool[i], Best(pool), {}).None? <==> Sound(pool[i]) && pool[i].score.rankingScore + 10 >= Best(pool)
    {
      SoundIs(pool[i], Best(pool));
    }
    if forall i :: 0 <= i < |pool| ==> Sound(pool[i]) {
      forall i | 0 <= i < |pool|
        ensures pool[i].score.rankingScore >= 60
      {
        SoundScores(pool[i]);
      }
      WithinTen(pool);
    }
  }

  lemma SoundScores(c: ScoredCandidate)
    requires Sound(c)
    ensures c.score.rankingScore >= 60
  {
  }

  lemma SoundIs(c: ScoredCandidate, best: int)
    ensures FaultOf(c, best, {}).None? <==> Sound(c) && c.score.rankingScore + 10 >= best
  {
    hide Blank;
  }

  lemma WithinTen(pool: seq<ScoredCandidate>)
    requires forall i :: 0 <= i < |pool| ==> pool[i].score.rankingScore >= 60
    ensures (forall i :: 0 <= i < |pool| ==> pool[i].score.rankingScore + 10 >= Best(pool))
       <==> (forall i, j :: 0 <= i < |pool| && 0 <= j < |pool| ==> pool[i].score.rankingScore + 10 >= pool[j].score.rankingScore)
  {
    var best := Best(pool);
    hide Best;
    assert pool != [] ==> best >= pool[0].score.rankingScore;
  }

  /**
   The outcome of a valid pool, round by round: the exploration is triggered by its own draw, every
   selection is played as above, and the rounds end at the limit or when nobody is open any more.
   */
  lemma {:induction false} OutcomeIs(seed: Seed, pool: seq<ScoredCandidate>, context: SeedContext, policy: Policy)
    requires Productive(seed) && Validate(pool, context, policy).None?
    requires forall i :: 0 <= i < |pool| ==> pool[i].score.rankingScore <= MAX_RANKING
    ensures PoolOk(Elements(pool))
    ensures var all := Elements(pool); var o := Outcome(seed, all, policy);
      && o.seedDigest == seed.digest && o.seedKeyVersion == policy.seedKeyVersion
      && (o.triggered <==> exists draw: nat :: Drawn(seed.words(ExplorationDomain), 10_000, draw) && draw < policy.explorationBasisPoints)
      && (forall i :: 0 <= i < |o.selections| ==>
            Played(seed, all, o.selections[..i], o.selections[i], policy.providerCap, o.triggered))
      && |o.selections| <= policy.selectionLimit
      && (|o.selections| < policy.selectionLimit ==> forall c :: !Open(all, o.selections, policy.providerCap, c))
  {
    hide FirstFault, Best, FaultOf, PoolOk, Productive, Draw, Drawn, Rounds, Played, Open, Eligible, Select, RoundsOk;
    FaultlessDiffers(pool, Best(pool), {});
    ValidPool(pool);
    ValidIff(pool, context, policy);
    var all := Elements(pool);
    assert AllQualified(all);
    var o := Outcome(seed, all, policy);
    var d := Draw(seed, ExplorationDomain, 10_000);
    forall draw: nat
      ensures Drawn(seed.words(ExplorationDomain), 10_000, draw) <==> draw == d
    {
      DrawIs(seed, ExplorationDomain, 10_000, draw);
    }
    forall i | 0 <= i < |o.selections|
      ensures Played(seed, all, o.selections[..i], o.selections[i], policy.providerCap, o.triggered)
    {
      RoundsSelect(seed, all, [], policy, o.triggered, i);
      SelectPlays(seed, all, o.selections[..i], policy.providerCap, o.triggered);
    }
    assert Drawn(seed.words(ExplorationDomain), 10_000, d);
    assert o.triggered <==> d < policy.explorationBasisPoints;
    NothingChosen(all, policy, o.triggered);
    RoundsKeep(seed, all, [], policy, o.triggered);
    Length(all, o.selections, policy, o.triggered);
    EntrantsAre(all, o.selections, policy.providerCap, o.triggered);
  }

  lemma NothingChosen(pool: set<ScoredCandidate>, policy: Policy, triggered: bool)
    requires LimitsOk(policy)
    ensures RoundsOk(pool, [], policy, triggered)
  {
  }

  // ---- refusals ----

  /** The context is looked at first, then the secret, the limits and the size of the pool. */
  lemma RefusedFor(pool: seq<ScoredCandidate>, context: SeedContext, policy: Policy)
    ensures var error := Validate(pool, context, policy);
      if !ContextFits(context) then error == Some(InvalidContext)
      else if Blank(policy.seedKeyVersion) || |policy.seedSecret| < 32 then error == Some(InvalidSecret)
      else if !PolicyFits(policy) then error == Some(InvalidPolicy)
      else if |pool| > 20 then error == Some(PoolTooLarge)
      else error == FirstFault(pool, Best(pool), {})
  {
    hide FirstFault, Best, Blank, ValidDigest;
  }

  /** What the candidate at place i is refused for: no identity, an id seen before, no qualification, negative counters. */
  predicate Blamed(pool: seq<ScoredCandidate>, i: nat, fault: Fault)
    requires i < |pool|
  {
    var c := pool[i];
    if Blank(c.candidate.agentId) || Blank(c.candidate.providerId) then fault == MissingIdentity
    else if exists j :: 0 <= j < i && pool[j].candidate.agentId == c.candidate.agentId then fault == Duplicate
    else if c.score.ruleScore < 60 || c.score.rankingScore < 60
            || exists j :: 0 <= j < |pool| && c.score.rankingScore + 10 < pool[j].score.rankingScore then fault == Unqualified
    else (c.candidate.exposureCount < 0 || c.candidate.effectiveSamples < 0) && fault == InvalidCounters
  }

  predicate Blameless(pool: seq<ScoredCandidate>, i: nat)
    requires i < |pool|
  {
    forall fault :: !Blamed(pool, i, fault)
  }

  lemma BlameIs(pool: seq<ScoredCandidate>, i: nat, seen: set<string>, fault: Fault)
    requires i < |pool| && forall id :: id in seen <==> exists j :: 0 <= j < i && pool[j].candidate.agentId == id
    ensures FaultOf(pool[i], Best(pool), seen) == Some(BadCandidate(pool[i].candidate.agentId, fault)) <==> Blamed(pool, i, fault)
  {
    var c, best := pool[i], Best(pool);
    assert c.score.rankingScore >= 60 ==>
           (c.score.rankingScore < best - 10 <==> exists j :: 0 <= j < |pool| && c.score.rankingScore + 10 < pool[j].score.rankingScore);
    hide Blank, Best;
  }

  lemma {:induction false} FirstBlamed(pool: seq<ScoredCandidate>, k: nat, seen: set<string>, i: nat, fault: Fault)
    requires k <= i < |pool| && (forall id :: id in seen <==> exists j :: 0 <= j < k && pool[j].candidate.agentId == id)
    requires Blamed(pool, i, fault) && forall j :: 0 <= j < i ==> Blameless(pool, j)
    ensures FirstFault(pool[k..], Best(pool), seen) == Some(BadCandidate(pool[i].candidate.agentId, fault))
    decreases i - k
  {
    hide Best, FaultOf, Blamed;
    BlameIs(pool, k, seen, fault);
    if k < i {
      NoBlame(pool, k, seen);
      assert pool[k..][1..] == pool[k + 1..];
      FirstBlamed(pool, k + 1, seen + {pool[k].candidate.agentId}, i, fault);
    }
  }

  lemma NoBlame(pool: seq<ScoredCandidate>, k: nat, seen: set<string>)
    requires k < |pool| && (forall id :: id in seen <==> exists j :: 0 <= j < k && pool[j].candidate.agentId == id)
    requires Blameless(pool, k)
    ensures FaultOf(pool[k], Best(pool), seen).None?
  {
    forall fault
      ensures FaultOf(pool[k], Best(pool), seen) != Some(BadCandidate(pool[k].candidate.agentId, fault))
    {
      BlameIs(pool, k, seen, fault);
    }
    hide Best, Blamed, Blank;
  }

  /** A pool is refused for its first candidate to blame, with what that one is blamed for. */
  lemma {:induction false} RefusedForFirst(pool: seq<ScoredCandidate>, context: SeedContext, policy: Policy, i: nat, fault: Fault)
    requires Admissible(context, policy) && |pool| <= 20
    requires i < |pool| && Blamed(pool, i, fault) && forall j :: 0 <= j < i ==> Blameless(pool, j)
    ensures Validate(pool, context, policy) == Some(BadCandidate(pool[i].candidate.agentId, fault))
  {
    hide FirstFault, Best, Blank, ValidDigest, Blamed, Blameless;
    RefusedFor(pool, context, policy);
    FirstBlamed(pool, 0, {}, i, fault);
    assert pool[0..] == pool;
  }
}
