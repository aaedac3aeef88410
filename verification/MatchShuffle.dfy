/**
 FairShuffle of services/engine/internal/matching/shuffle.go: a seeded weighted draw without
 replacement under a provider cap. What it selects is specified on the set of candidates;
 the methods work on lists as the source does.
 */
module MatchShuffle {
  import opened Wrappers
  import opened Text
  import opened Sequences
  import opened Ranking
  import opened Sampling
  import opened MatchTypes

  const ALGORITHM := "fair-shuffle-v1"
  const SELECTION_LIMIT: nat := 3
  const EXPOSURE_LIMIT: int := 100
  const SAMPLE_LIMIT: int := 20
  const BASIS_POINTS: nat := 10_000
  // pool sums of weights up to this stay far below 64 bits
  const MAX_RANKING: int := 0x100_0000_0000_0000

  datatype SeedContext = SeedContext(taskId: string, taskSpecHash: string, matchRevision: int, algorithmVersion: string)

  datatype Policy = Policy(seedKeyVersion: string, seedSecret: string, explorationBasisPoints: int, providerCap: int, selectionLimit: int)

  datatype Domain = ExplorationDomain | PositionDomain(position: nat, exploration: bool)

  /** A derived seed: its digest, and the keyed hash stream of every draw domain. */
  datatype Seed = Seed(digest: string, words: Domain -> Words)

  datatype Selection = Selection(
    candidate: ScoredCandidate, position: nat, weight: nat, numerator: nat, denominator: nat, draw: nat, exploration: bool)

  datatype ShuffleResult = ShuffleResult(seedDigest: string, seedKeyVersion: string, triggered: bool, selections: seq<Selection>)

  datatype Fault = MissingIdentity | Duplicate | Unqualified | InvalidCounters

  datatype Error = InvalidContext | InvalidSecret | InvalidPolicy | PoolTooLarge | BadCandidate(agentId: string, fault: Fault)

  function ProviderOf(c: ScoredCandidate): string { c.candidate.providerId }

  predicate ById(a: ScoredCandidate, b: ScoredCandidate) { Before(IdOf(a), IdOf(b)) }

  lemma ByIdIsStrict()
    ensures Strict(ById)
  {
    forall a, b, c
      ensures !ById(a, a)
      ensures ById(a, b) && ById(b, c) ==> ById(a, c)
    {
      BeforeTotal(IdOf(a), IdOf(a));
      if ById(a, b) && ById(b, c) {
        BeforeTransitive(IdOf(a), IdOf(b), IdOf(c));
      }
    }
  }

  lemma ByIdSeparates(s: set<ScoredCandidate>)
    requires forall a, b :: a in s && b in s && IdOf(a) == IdOf(b) ==> a == b
    ensures Strict(ById) && Separates(ById, s)
  {
    ByIdIsStrict();
    forall a, b | a in s && b in s && a != b
      ensures ById(a, b) || ById(b, a)
    {
      BeforeTotal(IdOf(a), IdOf(b));
    }
  }

  function Weight(c: ScoredCandidate): (w: nat)
    ensures w >= 1
  {
    if c.score.rankingScore - QUALIFICATION_FLOOR + 1 > 1 then c.score.rankingScore - QUALIFICATION_FLOOR + 1 else 1
  }

  function Total(s: seq<ScoredCandidate>): (t: nat)
    ensures t >= |s|
  {
    if s == [] then 0 else Weight(s[0]) + Total(s[1..])
  }

  /** The walk of weightedDraw: the first candidate whose cumulated weight exceeds the draw. */
  function Pick(s: seq<ScoredCandidate>, draw: nat): (i: nat)
    requires draw < Total(s)
    ensures i < |s|
  {
    if draw < Weight(s[0]) then 0 else 1 + Pick(s[1..], draw - Weight(s[0]))
  }

  predicate IsExploration(c: ScoredCandidate) {
    c.candidate.exposureCount < EXPOSURE_LIMIT || c.candidate.effectiveSamples < SAMPLE_LIMIT
  }

  predicate Chosen(chosen: seq<Selection>, agentId: string) {
    exists i :: 0 <= i < |chosen| && IdOf(chosen[i].candidate) == agentId
  }

  function ProviderCount(chosen: seq<Selection>, providerId: string): nat {
    if chosen == [] then 0
    else
      ProviderCount(chosen[..|chosen| - 1], providerId) +
      (if ProviderOf(chosen[|chosen| - 1].candidate) == providerId then 1 else 0)
  }

  function Eligible(pool: set<ScoredCandidate>, chosen: seq<Selection>, cap: int): set<ScoredCandidate> {
    set c | c in pool && !Chosen(chosen, IdOf(c)) && ProviderCount(chosen, ProviderOf(c)) < cap
  }

  predicate Explores(pool: set<ScoredCandidate>, chosen: seq<Selection>, cap: int, triggered: bool) {
    |chosen| == 2 && triggered && exists c :: c in Eligible(pool, chosen, cap) && IsExploration(c)
  }

  /** Who takes part in the next draw. */
  function DrawPool(pool: set<ScoredCandidate>, chosen: seq<Selection>, cap: int, triggered: bool): set<ScoredCandidate> {
    if Explores(pool, chosen, cap, triggered) then set c | c in Eligible(pool, chosen, cap) && IsExploration(c)
    else Eligible(pool, chosen, cap)
  }

  /** A pool that passed validation and whose weights sum up within 64 bits. */
  ghost predicate PoolOk(pool: set<ScoredCandidate>) {
    && |pool| <= MAX_QUALIFIED_POOL
    && (forall a, b :: a in pool && b in pool && IdOf(a) == IdOf(b) ==> a == b)
    && forall c :: c in pool ==> c.score.rankingScore <= MAX_RANKING
  }

  /** The seed's words are 64-bit and every draw meets an accepted one. */
  ghost predicate Productive(seed: Seed) {
    forall domain, bound: nat :: 1 <= bound < RANGE64 ==> Appears(seed.words(domain), 0, Threshold(bound), RANGE64)
  }

  ghost function Draw(seed: Seed, domain: Domain, bound: nat): (draw: nat)
    requires Productive(seed) && 1 <= bound < RANGE64
    ensures draw < bound
  {
    Reduce(seed.words(domain)(First(seed.words(domain), 0, Threshold(bound), RANGE64)), bound)
  }

  ghost function Stable(pool: set<ScoredCandidate>): (s: seq<ScoredCandidate>)
    requires PoolOk(pool)
    ensures Elements(s) == pool && |s| == |pool| && Increasing(ById, s)
    ensures Total(s) < RANGE64
  {
    ByIdSeparates(pool);
    var s := Ranked(ById, pool);
    assert forall i :: 0 <= i < |s| ==> s[i] in Elements(s);
    TotalFits(s);
    s
  }

  lemma {:induction false} TotalFits(s: seq<ScoredCandidate>)
    requires forall i :: 0 <= i < |s| ==> s[i].score.rankingScore <= MAX_RANKING
    ensures Total(s) <= |s| * MAX_RANKING
  {
    if s != [] {
      TotalFits(s[1..]);
    }
  }

  /** The selection of one round. */
  ghost function Select(seed: Seed, pool: set<ScoredCandidate>, chosen: seq<Selection>, cap: int, triggered: bool): (s: Selection)
    requires Productive(seed) && PoolOk(pool) && Eligible(pool, chosen, cap) != {}
    ensures s.candidate in DrawPool(pool, chosen, cap, triggered)
  {
    var exploration := Explores(pool, chosen, cap, triggered);
    DrawPoolOk(pool, chosen, cap, triggered);
    var stable := Stable(DrawPool(pool, chosen, cap, triggered));
    var draw := Draw(seed, PositionDomain(|chosen| + 1, exploration), Total(stable));
    var selected := stable[Pick(stable, draw)];
    assert selected in Elements(stable);
    Selection(selected, |chosen| + 1, Weight(selected), Weight(selected), Total(stable), draw, exploration)
  }

  lemma DrawPoolOk(pool: set<ScoredCandidate>, chosen: seq<Selection>, cap: int, triggered: bool)
    requires PoolOk(pool) && Eligible(pool, chosen, cap) != {}
    ensures PoolOk(DrawPool(pool, chosen, cap, triggered)) && DrawPool(pool, chosen, cap, triggered) != {}
    ensures DrawPool(pool, chosen, cap, triggered) <= Eligible(pool, chosen, cap) <= pool
  {
    var d := DrawPool(pool, chosen, cap, triggered);
    Subset(d, pool);
    if Explores(pool, chosen, cap, triggered) {
      var c :| c in Eligible(pool, chosen, cap) && IsExploration(c);
      assert c in d;
    }
  }

  /** The rounds after those already played. */
  ghost function Rounds(seed: Seed, pool: set<ScoredCandidate>, chosen: seq<Selection>, policy: Policy, triggered: bool): seq<Selection>
    requires Productive(seed) && PoolOk(pool)
    decreases policy.selectionLimit - |chosen|
  {
    if |chosen| >= policy.selectionLimit || Eligible(pool, chosen, policy.providerCap) == {} then chosen
    else
      Rounds(seed, pool, chosen + [Select(seed, pool, chosen, policy.providerCap, triggered)], policy, triggered)
  }

  ghost function Outcome(seed: Seed, pool: set<ScoredCandidate>, policy: Policy): ShuffleResult
    requires Productive(seed) && PoolOk(pool)
  {
    var triggered := Draw(seed, ExplorationDomain, BASIS_POINTS) < policy.explorationBasisPoints;
    ShuffleResult(seed.digest, policy.seedKeyVersion, triggered, Rounds(seed, pool, [], policy, triggered))
  }

  predicate ContextOk(context: SeedContext) {
    !Blank(context.taskId) && ValidDigest(context.taskSpecHash) && context.matchRevision >= 1 && context.algorithmVersion == ALGORITHM
  }

  predicate SecretOk(policy: Policy) {
    !Blank(policy.seedKeyVersion) && |policy.seedSecret| >= 32
  }

  predicate LimitsOk(policy: Policy) {
    0 <= policy.explorationBasisPoints <= BASIS_POINTS && policy.providerCap >= 1 && 1 <= policy.selectionLimit <= SELECTION_LIMIT
  }

  /** The best ranking score of a pool, starting from 0. */
  function Best(pool: seq<ScoredCandidate>): (best: int)
    ensures best >= 0 && forall i :: 0 <= i < |pool| ==> pool[i].score.rankingScore <= best
    ensures best == 0 || exists i :: 0 <= i < |pool| && pool[i].score.rankingScore == best
  {
    if pool == [] then 0
    else
      var last := |pool| - 1;
      var best := Best(pool[..last]);
      assert forall i :: 0 <= i < last ==> pool[i] == pool[..last][i];
      if pool[last].score.rankingScore > best then pool[last].score.rankingScore else best
  }

  /** What is wrong with one candidate, given the ids seen before it. */
  function FaultOf(c: ScoredCandidate, best: int, seen: set<string>): Option<Error> {
    if Blank(IdOf(c)) || Blank(ProviderOf(c)) then Some(BadCandidate(IdOf(c), MissingIdentity))
    else if IdOf(c) in seen then Some(BadCandidate(IdOf(c), Duplicate))
    else if c.score.ruleScore < QUALIFICATION_FLOOR || c.score.rankingScore < QUALIFICATION_FLOOR
            || c.score.rankingScore < best - MAXIMUM_SCORE_GAP then Some(BadCandidate(IdOf(c), Unqualified))
    else if c.candidate.exposureCount < 0 || c.candidate.effectiveSamples < 0 then Some(BadCandidate(IdOf(c), InvalidCounters))
    else None
  }

  /** The first fault of a pool, in the order of the list. */
  function FirstFault(pool: seq<ScoredCandidate>, best: int, seen: set<string>): Option<Error> {
    if pool == [] then None
    else if FaultOf(pool[0], best, seen).Some? then FaultOf(pool[0], best, seen)
    else FirstFault(pool[1..], best, seen + {IdOf(pool[0])})
  }

  function Validate(pool: seq<ScoredCandidate>, context: SeedContext, policy: Policy): Option<Error> {
    if !ContextOk(context) then Some(InvalidContext)
    else if !SecretOk(policy) then Some(InvalidSecret)
    else if !LimitsOk(policy) then Some(InvalidPolicy)
    else if |pool| > MAX_QUALIFIED_POOL then Some(PoolTooLarge)
    else FirstFault(pool, Best(pool), {})
  }

  // The methods: the same computation on lists, with maps, loops and a sort.

  function Keep<T(!new)>(s: seq<T>, wanted: T -> bool): (r: seq<T>)
    ensures forall x :: x in r <==> x in s && wanted(x)
  {
    if s == [] then []
    else
      var r := Keep(s[1..], wanted);
      assert forall x :: x in s <==> x == s[0] || x in s[1..];
      if wanted(s[0]) then [s[0]] + r else r
  }

  lemma {:induction false} KeepDiffers(s: seq<ScoredCandidate>, wanted: ScoredCandidate -> bool)
    requires IdsDiffer(s)
    ensures IdsDiffer(Keep(s, wanted))
  {
    if s != [] {
      KeepDiffers(s[1..], wanted);
      var r := Keep(s[1..], wanted);
      forall i | 0 <= i < |r|
        ensures IdOf(r[i]) != IdOf(s[0])
      {
        assert r[i] in s[1..];
      }
    }
  }

  method DeterministicDraw(seed: Seed, domain: Domain, bound: nat) returns (draw: nat)
    requires Productive(seed) && 1 <= bound < RANGE64
    ensures draw == Draw(seed, domain, bound)
  {
    hide Reduce, Productive;
    assert Appears(seed.words(domain), 0, Threshold(bound), RANGE64) by {
      Meets(seed, domain, bound);
    }
    var threshold := Threshold(bound);
    ghost var k := First(seed.words(domain), 0, threshold, RANGE64);
    hide Threshold;
    var counter := 0;
    while seed.words(domain)(counter) < threshold || seed.words(domain)(counter) >= RANGE64
      invariant counter <= k
      decreases k - counter
    {
      counter := counter + 1;
    }
    return Reduce(seed.words(domain)(counter), bound);
  }

  lemma Meets(seed: Seed, domain: Domain, bound: nat)
    requires Productive(seed) && 1 <= bound < RANGE64
    ensures Appears(seed.words(domain), 0, Threshold(bound), RANGE64)
  {
  }

  lemma AsSet(pool: seq<ScoredCandidate>)
    requires IdsDiffer(pool)
    ensures Distinct(pool)
    ensures forall a, b :: a in Elements(pool) && b in Elements(pool) && IdOf(a) == IdOf(b) ==> a == b
    ensures |Elements(pool)| <= |pool|
  {
    CountElements(pool);
  }

  method TotalWeight(stable: seq<ScoredCandidate>) returns (total: nat)
    ensures total == Total(stable)
  {
    total := 0;
    var i := 0;
    while i < |stable|
      invariant 0 <= i <= |stable| && total + Total(stable[i..]) == Total(stable)
    {
      total := total + Weight(stable[i]);
      i := i + 1;
    }
  }

  /** The cumulative walk; it always stops at a candidate, so the panic behind it is dead code. */
  method Walk(stable: seq<ScoredCandidate>, draw: nat) returns (selected: ScoredCandidate)
    requires draw < Total(stable)
    ensures selected == stable[Pick(stable, draw)]
  {
    var cursor, i := 0, 0;
    while i < |stable|
      invariant 0 <= i <= |stable| && cursor <= draw
      invariant draw - cursor < Total(stable[i..]) && i + Pick(stable[i..], draw - cursor) == Pick(stable, draw)
    {
      cursor := cursor + Weight(stable[i]);
      if draw < cursor {
        return stable[i];
      }
      i := i + 1;
    }
    assert false;
  }

  method WeightedDraw(seed: Seed, domain: Domain, pool: seq<ScoredCandidate>) returns (selected: ScoredCandidate, draw: nat, total: nat)
    requires Productive(seed) && IdsDiffer(pool) && PoolOk(Elements(pool)) && pool != []
    ensures var stable := Stable(Elements(pool));
            && total == Total(stable) > 0 && draw == Draw(seed, domain, total) && selected == stable[Pick(stable, draw)]
  {
    hide Draw, Productive, PoolOk, ById, Total, Pick, Increasing;
    AsSet(pool);
    Ordered(Elements(pool));
    var stable := SortFunc(ById, pool);
    assert stable == Stable(Elements(pool));
    assert pool[0] in Elements(pool);
    total := TotalWeight(stable);
    draw := DeterministicDraw(seed, domain, total);
    selected := Walk(stable, draw);
  }

  lemma Ordered(pool: set<ScoredCandidate>)
    requires PoolOk(pool)
    ensures Strict(ById) && Separates(ById, pool)
  {
    ByIdSeparates(pool);
  }

  method ValidateInput(pool: seq<ScoredCandidate>, context: SeedContext, policy: Policy) returns (error: Option<Error>)
    ensures error == Validate(pool, context, policy)
  {
    hide ContextOk, SecretOk, LimitsOk, FaultOf;
    if !ContextOk(context) {
      return Some(InvalidContext);
    }
    if !SecretOk(policy) {
      return Some(InvalidSecret);
    }
    if !LimitsOk(policy) {
      return Some(InvalidPolicy);
    }
    if |pool| > MAX_QUALIFIED_POOL {
      return Some(PoolTooLarge);
    }
    var best, i := 0, 0;
    while i < |pool|
      invariant 0 <= i <= |pool| && best == Best(pool[..i])
    {
      assert pool[..i + 1][..i] == pool[..i];
      if pool[i].score.rankingScore > best {
        best := pool[i].score.rankingScore;
      }
      i := i + 1;
    }
    assert pool[..|pool|] == pool;
    var seen: set<string> := {};
    i := 0;
    while i < |pool|
      invariant 0 <= i <= |pool| && FirstFault(pool[i..], best, seen) == FirstFault(pool, best, {})
    {
      var fault := FaultOf(pool[i], best, seen);
      if fault.Some? {
        return fault;
      }
      seen := seen + {IdOf(pool[i])};
      i := i + 1;
    }
    return None;
  }

  /** A pool without a fault has distinct ids. */
  lemma {:induction false} FaultlessDiffers(pool: seq<ScoredCandidate>, best: int, seen: set<string>)
    requires FirstFault(pool, best, seen).None?
    ensures IdsDiffer(pool) && forall i :: 0 <= i < |pool| ==> IdOf(pool[i]) !in seen
    decreases |pool|
  {
    if pool != [] {
      FaultlessDiffers(pool[1..], best, seen + {IdOf(pool[0])});
      forall i | 0 < i < |pool|
        ensures IdOf(pool[i]) !in seen && IdOf(pool[i]) != IdOf(pool[0])
      {
        assert pool[i] == pool[1..][i - 1];
      }
      forall i, j | 0 <= i < j < |pool|
        ensures IdOf(pool[i]) != IdOf(pool[j])
      {
        assert i > 0 ==> pool[i] == pool[1..][i - 1] && pool[j] == pool[1..][j - 1];
      }
    }
  }

  lemma ValidPool(pool: seq<ScoredCandidate>)
    requires |pool| <= MAX_QUALIFIED_POOL && IdsDiffer(pool)
    requires forall i :: 0 <= i < |pool| ==> pool[i].score.rankingScore <= MAX_RANKING
    ensures PoolOk(Elements(pool))
  {
    AsSet(pool);
  }

  function Counted(counts: map<string, nat>, provider: string): nat {
    if provider in counts then counts[provider] else 0
  }

  /** The loop's list of remaining candidates and its provider counts, against what was chosen so far. */
  ghost predicate Tracks(pool: set<ScoredCandidate>, chosen: seq<Selection>, remaining: seq<ScoredCandidate>, counts: map<string, nat>) {
    && IdsDiffer(remaining)
    && (forall c :: c in remaining <==> c in pool && !Chosen(chosen, IdOf(c)))
    && (forall p :: Counted(counts, p) == ProviderCount(chosen, p))
  }

  function ProviderEligible(remaining: seq<ScoredCandidate>, counts: map<string, nat>, cap: int): seq<ScoredCandidate> {
    Keep(remaining, (c: ScoredCandidate) => Counted(counts, ProviderOf(c)) < cap)
  }

  function Without(remaining: seq<ScoredCandidate>, agentId: string): seq<ScoredCandidate> {
    Keep(remaining, (c: ScoredCandidate) => IdOf(c) != agentId)
  }

  lemma WithoutDiffers(remaining: seq<ScoredCandidate>, agentId: string)
    requires IdsDiffer(remaining)
    ensures IdsDiffer(Without(remaining, agentId))
  {
    KeepDiffers(remaining, (c: ScoredCandidate) => IdOf(c) != agentId);
  }

  lemma ListsAgree(pool: set<ScoredCandidate>, chosen: seq<Selection>, remaining: seq<ScoredCandidate>, counts: map<string, nat>, cap: int)
    requires Tracks(pool, chosen, remaining, counts)
    ensures var available := ProviderEligible(remaining, counts, cap);
            IdsDiffer(available) && Elements(available) == Eligible(pool, chosen, cap)
  {
    KeepDiffers(remaining, (c: ScoredCandidate) => Counted(counts, ProviderOf(c)) < cap);
  }

  lemma TracksStart(pool: seq<ScoredCandidate>)
    requires IdsDiffer(pool)
    ensures Tracks(Elements(pool), [], pool, map[])
  {
  }

  lemma TracksStep(pool: set<ScoredCandidate>, chosen: seq<Selection>, remaining: seq<ScoredCandidate>, counts: map<string, nat>, s: Selection)
    requires Tracks(pool, chosen, remaining, counts)
    ensures var provider := ProviderOf(s.candidate);
            Tracks(pool, chosen + [s], Without(remaining, IdOf(s.candidate)),
                   counts[provider := Counted(counts, provider) + 1])
  {
    hide ProviderCount, Chosen;
    WithoutDiffers(remaining, IdOf(s.candidate));
    forall agentId
      ensures Chosen(chosen + [s], agentId) <==> Chosen(chosen, agentId) || IdOf(s.candidate) == agentId
    {
      AfterChoice(chosen, s, agentId, "");
    }
    forall provider
      ensures ProviderCount(chosen + [s], provider)
           == ProviderCount(chosen, provider) + if ProviderOf(s.candidate) == provider then 1 else 0
    {
      AfterChoice(chosen, s, "", provider);
    }
  }

  lemma AfterChoice(chosen: seq<Selection>, s: Selection, agentId: string, provider: string)
    ensures Chosen(chosen + [s], agentId) <==> Chosen(chosen, agentId) || IdOf(s.candidate) == agentId
    ensures ProviderCount(chosen + [s], provider)
         == ProviderCount(chosen, provider) + if ProviderOf(s.candidate) == provider then 1 else 0
  {
    var more := chosen + [s];
    assert more[..|chosen|] == chosen && more[|chosen|] == s;
    if Chosen(chosen, agentId) {
      var i :| 0 <= i < |chosen| && IdOf(chosen[i].candidate) == agentId;
      assert IdOf(more[i].candidate) == agentId;
    }
    if Chosen(more, agentId) && IdOf(s.candidate) != agentId {
      var i :| 0 <= i < |more| && IdOf(more[i].candidate) == agentId;
      assert IdOf(chosen[i].candidate) == agentId;
    }
  }

  method PlayRounds(seed: Seed, pool: seq<ScoredCandidate>, policy: Policy, triggered: bool) returns (selections: seq<Selection>)
    requires Productive(seed) && IdsDiffer(pool) && PoolOk(Elements(pool)) && LimitsOk(policy)
    ensures selections == Rounds(seed, Elements(pool), [], policy, triggered)
  {
    hide Productive, PoolOk, Tracks, Eligible, Select, ProviderEligible, IdsDiffer, Without;
    ghost var all := Elements(pool);
    var remaining := pool;
    var providerSelections: map<string, nat> := map[];
    selections := [];
    TracksStart(pool);
    ghost var result := Rounds(seed, all, [], policy, triggered);
    var position := 1;
    while position <= policy.selectionLimit
      invariant 1 <= position <= policy.selectionLimit + 1 && |selections| == position - 1
      invariant Tracks(all, selections, remaining, providerSelections)
      invariant Rounds(seed, all, selections, policy, triggered) == result
    {
      ListsAgree(all, selections, remaining, providerSelections, policy.providerCap);
      var available := ProviderEligible(remaining, providerSelections, policy.providerCap);
      if |available| == 0 {
        assert Elements(available) == {};
        assert result == selections;
        return;
      }
      var s := PlayRound(seed, all, selections, available, policy.providerCap, triggered);
      TracksStep(all, selections, remaining, providerSelections, s);
      selections := selections + [s];
      var provider := ProviderOf(s.candidate);
      providerSelections := providerSelections[provider := Counted(providerSelections, provider) + 1];
      remaining := Without(remaining, IdOf(s.candidate));
      position := position + 1;
    }
    assert result == selections;
  }

  /** One round on the list of available candidates. */
  method PlayRound(seed: Seed, ghost all: set<ScoredCandidate>, chosen: seq<Selection>, available: seq<ScoredCandidate>, cap: int, triggered: bool)
    returns (s: Selection)
    requires Productive(seed) && PoolOk(all) && IdsDiffer(available) && available != []
    requires Elements(available) == Eligible(all, chosen, cap)
    ensures Eligible(all, chosen, cap) != {} && s == Select(seed, all, chosen, cap, triggered)
  {
    hide Productive, PoolOk, Draw, Stable, Pick, Total, Eligible, Weight;
    assert available[0] in Elements(available);
    DrawPoolOk(all, chosen, cap, triggered);
    var position := |chosen| + 1;
    var exploration := false;
    var drawPool := available;
    if position == 3 && triggered {
      KeepDiffers(available, IsExploration);
      var explorationPool := Keep(available, IsExploration);
      if |explorationPool| > 0 {
        assert explorationPool[0] in Eligible(all, chosen, cap);
        drawPool := explorationPool;
        exploration := true;
      }
    }
    assert exploration == Explores(all, chosen, cap, triggered);
    assert Elements(drawPool) == DrawPool(all, chosen, cap, triggered);
    var selected, draw, totalWeight := WeightedDraw(seed, PositionDomain(position, exploration), drawPool);
    s := Selection(selected, position, Weight(selected), Weight(selected), totalWeight, draw, exploration);
  }

  /** The seed a context and a policy derive; the keyed hash itself stays abstract. */
  type Derive = (SeedContext, Policy) -> Seed

  method FairShuffle(derive: Derive, pool: seq<ScoredCandidate>, context: SeedContext, policy: Policy) returns (r: Result<ShuffleResult, Error>)
    requires Productive(derive(context, policy))
    requires forall i :: 0 <= i < |pool| ==> pool[i].score.rankingScore <= MAX_RANKING
    ensures r.Failure? <==> Validate(pool, context, policy).Some?
    ensures r.Failure? ==> Validate(pool, context, policy) == Some(r.error)
    ensures r.Success? ==> PoolOk(Elements(pool)) && r.value == Outcome(derive(context, policy), Elements(pool), policy)
  {
    hide Productive, Draw, Rounds, FirstFault, Best;
    var error := ValidateInput(pool, context, policy);
    if error.Some? {
      return Failure(error.value);
    }
    FaultlessDiffers(pool, Best(pool), {});
    ValidPool(pool);
    var seed := derive(context, policy);
    var draw := DeterministicDraw(seed, ExplorationDomain, BASIS_POINTS);
    var triggered := draw < policy.explorationBasisPoints;
    var selections := PlayRounds(seed, pool, policy, triggered);
    return Success(ShuffleResult(seed.digest, policy.seedKeyVersion, triggered, selections));
  }
}
