/** What FairShuffle guarantees about whom it selects, in which order and how often. */
module MatchFairness {
  import opened Wrappers
  import opened Arithmetic
  import opened Sequences
  import opened Sampling
  import opened MatchTypes
  import opened MatchShuffle

  /** Invariant of the rounds: positions count up, agents are distinct and from the pool, no provider exceeds the cap. */
  ghost predicate RoundsOk(pool: set<ScoredCandidate>, chosen: seq<Selection>, policy: Policy, triggered: bool) {
    && |chosen| <= policy.selectionLimit
    && (forall i :: 0 <= i < |chosen| ==> chosen[i].position == i + 1 && chosen[i].candidate in pool)
    && (forall i, j :: 0 <= i < j < |chosen| ==> IdOf(chosen[i].candidate) != IdOf(chosen[j].candidate))
    && (forall p :: ProviderCount(chosen, p) <= policy.providerCap)
    && (forall i :: 0 <= i < |chosen| && chosen[i].exploration ==>
          chosen[i].position == 3 && triggered && IsExploration(chosen[i].candidate))
    && (forall i :: 0 <= i < |chosen| ==>
          chosen[i].weight == chosen[i].numerator == Weight(chosen[i].candidate) && chosen[i].draw < chosen[i].denominator)
  }

  lemma SelectOk(seed: Seed, pool: set<ScoredCandidate>, chosen: seq<Selection>, cap: int, triggered: bool)
    requires Productive(seed) && PoolOk(pool) && Eligible(pool, chosen, cap) != {}
    ensures var s := Select(seed, pool, chosen, cap, triggered);
            && s.position == |chosen| + 1 && s.weight == s.numerator == Weight(s.candidate) && s.draw < s.denominator
            && s.candidate in Eligible(pool, chosen, cap)
            && (s.exploration <==> Explores(pool, chosen, cap, triggered))
            && (s.exploration ==> IsExploration(s.candidate))
  {
    hide PoolOk, Productive, Draw, Stable, Weight, Pick, Total;
    DrawPoolOk(pool, chosen, cap, triggered);
  }

  lemma RoundKeeps(pool: set<ScoredCandidate>, chosen: seq<Selection>, policy: Policy, triggered: bool, s: Selection)
    requires RoundsOk(pool, chosen, policy, triggered) && |chosen| < policy.selectionLimit && policy.providerCap >= 1
    requires s.candidate in Eligible(pool, chosen, policy.providerCap)
    requires s.position == |chosen| + 1 && s.weight == s.numerator == Weight(s.candidate) && s.draw < s.denominator
    requires s.exploration ==> Explores(pool, chosen, policy.providerCap, triggered) && IsExploration(s.candidate)
    ensures RoundsOk(pool, chosen + [s], policy, triggered)
  {
    hide ProviderCount, Weight, IsExploration;
    forall p
      ensures ProviderCount(chosen + [s], p) <= policy.providerCap
    {
      AfterChoice(chosen, s, "", p);
    }
    assert !Chosen(chosen, IdOf(s.candidate));
  }

  lemma {:induction false} RoundsKeep(seed: Seed, pool: set<ScoredCandidate>, chosen: seq<Selection>, policy: Policy, triggered: bool)
    requires Productive(seed) && PoolOk(pool) && LimitsOk(policy) && RoundsOk(pool, chosen, policy, triggered)
    ensures var r := Rounds(seed, pool, chosen, policy, triggered);
            && RoundsOk(pool, r, policy, triggered)
            && (|r| < policy.selectionLimit ==> Eligible(pool, r, policy.providerCap) == {})
    decreases policy.selectionLimit - |chosen|
  {
    hide Productive, PoolOk, Select, RoundsOk, Eligible;
    if |chosen| < policy.selectionLimit && Eligible(pool, chosen, policy.providerCap) != {} {
      SelectOk(seed, pool, chosen, policy.providerCap, triggered);
      var s := Select(seed, pool, chosen, policy.providerCap, triggered);
      RoundKeeps(pool, chosen, policy, triggered, s);
      RoundsKeep(seed, pool, chosen + [s], policy, triggered);
    } else {
      Length(pool, chosen, policy, triggered);
    }
  }

  lemma Length(pool: set<ScoredCandidate>, chosen: seq<Selection>, policy: Policy, triggered: bool)
    requires RoundsOk(pool, chosen, policy, triggered)
    ensures |chosen| <= policy.selectionLimit
  {
  }

  /**
   Every selection made is one of the pool's, agents are distinct, positions are 1..k, no
   provider exceeds the cap, exploration happens at position 3 only, and the selection stops
   short of the limit only when every candidate left belongs to a provider at its cap.
   */
  lemma {:induction false} SelectionsAreFair(seed: Seed, pool: set<ScoredCandidate>, policy: Policy)
    requires Productive(seed) && PoolOk(pool) && LimitsOk(policy)
    ensures var o := Outcome(seed, pool, policy);
            && RoundsOk(pool, o.selections, policy, o.triggered)
            && (|o.selections| < policy.selectionLimit ==>
                  forall c :: c in pool && !Chosen(o.selections, IdOf(c)) ==>
                    ProviderCount(o.selections, ProviderOf(c)) == policy.providerCap)
  {
    hide Productive, PoolOk, Rounds, Draw;
    var o := Outcome(seed, pool, policy);
    RoundsKeep(seed, pool, [], policy, o.triggered);
    if |o.selections| < policy.selectionLimit {
      forall c | c in pool && !Chosen(o.selections, IdOf(c))
        ensures ProviderCount(o.selections, ProviderOf(c)) == policy.providerCap
      {
        assert c !in Eligible(pool, o.selections, policy.providerCap);
      }
    }
  }

  /** Every selection made after `chosen` is the one its round selects. */
  lemma {:induction false} RoundsSelect(seed: Seed, pool: set<ScoredCandidate>, chosen: seq<Selection>, policy: Policy, triggered: bool, i: nat)
    requires Productive(seed) && PoolOk(pool)
    ensures var r := Rounds(seed, pool, chosen, policy, triggered);
            && chosen <= r
            && (|chosen| <= i < |r| ==>
                  && Eligible(pool, r[..i], policy.providerCap) != {}
                  && r[i] == Select(seed, pool, r[..i], policy.providerCap, triggered))
    decreases policy.selectionLimit - |chosen|
  {
    hide Productive, PoolOk, Select, Eligible;
    var r := Rounds(seed, pool, chosen, policy, triggered);
    if |chosen| < policy.selectionLimit && Eligible(pool, chosen, policy.providerCap) != {} {
      var s := Select(seed, pool, chosen, policy.providerCap, triggered);
      RoundsSelect(seed, pool, chosen + [s], policy, triggered, i);
      assert r[..|chosen|] == chosen;
      assert r[|chosen|] == (chosen + [s])[|chosen|];
    }
  }

  /** Someone who was not chosen, whose provider has room and who can be explored. */
  predicate Explorable(c: ScoredCandidate, chosen: seq<Selection>, cap: int) {
    !Chosen(chosen, IdOf(c)) && ProviderCount(chosen, ProviderOf(c)) < cap && IsExploration(c)
  }

  /**
   When a third selection is made, it is an exploration exactly when one was triggered and the pool
   still has an explorable candidate, and then it selects one.
   */
  lemma {:induction false} ThirdIsExploration(seed: Seed, pool: set<ScoredCandidate>, policy: Policy)
    requires Productive(seed) && PoolOk(pool) && LimitsOk(policy) && |Outcome(seed, pool, policy).selections| >= 3
    ensures var o := Outcome(seed, pool, policy);
            && (o.selections[2].exploration <==>
                  o.triggered && exists c :: c in pool && Explorable(c, o.selections[..2], policy.providerCap))
            && (o.selections[2].exploration ==>
                  o.selections[2].candidate in pool && Explorable(o.selections[2].candidate, o.selections[..2], policy.providerCap))
  {
    hide PoolOk, Productive, Draw, Rounds, Select, Chosen, ProviderCount, IsExploration;
    var o := Outcome(seed, pool, policy);
    RoundsSelect(seed, pool, [], policy, o.triggered, 2);
    var chosen := o.selections[..2];
    SelectOk(seed, pool, chosen, policy.providerCap, o.triggered);
    assert forall c :: c in pool && Explorable(c, chosen, policy.providerCap) <==>
             c in Eligible(pool, chosen, policy.providerCap) && IsExploration(c);
  }

  lemma SameBest(p: seq<ScoredCandidate>, q: seq<ScoredCandidate>)
    requires Elements(p) == Elements(q)
    ensures Best(p) == Best(q)
  {
    forall i | 0 <= i < |p|
      ensures p[i].score.rankingScore <= Best(q)
    {
      assert p[i] in Elements(q);
    }
    forall i | 0 <= i < |q|
      ensures q[i].score.rankingScore <= Best(p)
    {
      assert q[i] in Elements(p);
    }
  }

  /** A pool has no fault exactly when its ids differ and no candidate is faulty by itself. */
  lemma {:induction false} FaultlessIff(pool: seq<ScoredCandidate>, best: int, seen: set<string>)
    ensures FirstFault(pool, best, seen).None? <==>
            (IdsDiffer(pool) && forall i :: 0 <= i < |pool| ==> FaultOf(pool[i], best, {}).None? && IdOf(pool[i]) !in seen)
    decreases |pool|
  {
    if pool != [] {
      var more := seen + {IdOf(pool[0])};
      FaultlessIff(pool[1..], best, more);
      assert FaultOf(pool[0], best, seen).None? <==> FaultOf(pool[0], best, {}).None? && IdOf(pool[0]) !in seen;
      hide FaultOf;
      var tail := pool[1..];
      assert forall i :: 0 <= i < |tail| ==> tail[i] == pool[i + 1];
      assert forall i :: 0 < i < |pool| ==> pool[i] == tail[i - 1];
    }
  }

  lemma DifferStays(p: seq<ScoredCandidate>, q: seq<ScoredCandidate>)
    requires multiset(p) == multiset(q) && IdsDiffer(p)
    ensures IdsDiffer(q)
  {
    AsSet(p);
    StaysDistinct(p, q);
    SameElements(p, q);
    forall i, j | 0 <= i < j < |q|
      ensures IdOf(q[i]) != IdOf(q[j])
    {
      assert q[i] in Elements(p) && q[j] in Elements(p);
    }
  }

  /** A pool is accepted in one order exactly when it is accepted in any other. */
  lemma OrderDoesNotMatter(p: seq<ScoredCandidate>, q: seq<ScoredCandidate>, context: SeedContext, policy: Policy)
    requires multiset(p) == multiset(q)
    ensures Validate(p, context, policy).None? <==> Validate(q, context, policy).None?
    ensures Elements(p) == Elements(q)
  {
    SameElements(p, q);
    SameBest(p, q);
    FaultlessIff(p, Best(p), {});
    FaultlessIff(q, Best(q), {});
    hide FaultOf, FirstFault, Best, ContextOk, SecretOk, LimitsOk;
    if IdsDiffer(p) {
      DifferStays(p, q);
    }
    if IdsDiffer(q) {
      DifferStays(q, p);
    }
    forall i | 0 <= i < |p|
      ensures p[i] in Elements(q)
    {
      assert p[i] in Elements(p);
    }
    forall i | 0 <= i < |q|
      ensures q[i] in Elements(p)
    {
      assert q[i] in Elements(q);
    }
  }

  /** FairShuffle answers alike for every order of its pool; only the error of a rejected pool may name another agent. */
  method ShuffleTwice(derive: Derive, p: seq<ScoredCandidate>, q: seq<ScoredCandidate>, context: SeedContext, policy: Policy)
    returns (first: Result<ShuffleResult, Error>, second: Result<ShuffleResult, Error>)
    requires Productive(derive(context, policy)) && multiset(p) == multiset(q)
    requires forall i :: 0 <= i < |p| ==> p[i].score.rankingScore <= MAX_RANKING
    ensures first.Success? <==> second.Success?
    ensures first.Success? ==> first == second
  {
    OrderDoesNotMatter(p, q, context, policy);
    hide Productive, Validate, Outcome, PoolOk;
    forall i | 0 <= i < |q|
      ensures q[i].score.rankingScore <= MAX_RANKING
    {
      assert q[i] in Elements(p);
    }
    first := FairShuffle(derive, p, context, policy);
    second := FairShuffle(derive, q, context, policy);
  }

  // How often a candidate is picked.

  /** The weight of the candidates before index i. */
  function Prefix(s: seq<ScoredCandidate>, i: nat): nat
    requires i <= |s|
  {
    if i == 0 then 0 else Weight(s[0]) + Prefix(s[1..], i - 1)
  }

  lemma {:induction false} PrefixEnds(s: seq<ScoredCandidate>, i: nat)
    requires i < |s|
    ensures Prefix(s, i + 1) == Prefix(s, i) + Weight(s[i]) <= Total(s)
    decreases |s|
  {
    if i > 0 {
      PrefixEnds(s[1..], i - 1);
    }
  }

  /** A draw picks a candidate exactly when it falls into that candidate's stretch of the total. */
  lemma {:induction false} PickIff(s: seq<ScoredCandidate>, draw: nat, i: nat)
    requires draw < Total(s) && i < |s|
    ensures Pick(s, draw) == i <==> Prefix(s, i) <= draw < Prefix(s, i) + Weight(s[i])
    decreases |s|
  {
    if draw >= Weight(s[0]) && i > 0 {
      PickIff(s[1..], draw - Weight(s[0]), i - 1);
    }
  }

  function Interval(low: nat, high: nat): set<nat> {
    set v: nat | v < high && Accepted(v, low, high)
  }

  lemma {:induction false} IntervalSize(low: nat, high: nat)
    requires low <= high
    ensures |Interval(low, high)| == high - low
    decreases high - low
  {
    if low == high {
      assert Interval(low, high) == {};
    } else {
      IntervalSize(low, high - 1);
      assert Interval(low, high) == Interval(low, high - 1) + {high - 1};
    }
  }

  function Picking(s: seq<ScoredCandidate>, i: nat): set<nat> {
    set d: nat | d < Total(s) && Pick(s, d) == i
  }

  /** Exactly `weight` of the `total` draws pick a candidate. */
  lemma {:induction false} ShareOfDraws(s: seq<ScoredCandidate>, i: nat)
    requires i < |s|
    ensures |Picking(s, i)| == Weight(s[i])
  {
    PrefixEnds(s, i);
    forall d: nat | d < Total(s)
      ensures Pick(s, d) == i <==> d in Interval(Prefix(s, i), Prefix(s, i) + Weight(s[i]))
    {
      PickIff(s, d, i);
    }
    assert Picking(s, i) == Interval(Prefix(s, i), Prefix(s, i) + Weight(s[i]));
    IntervalSize(Prefix(s, i), Prefix(s, i) + Weight(s[i]));
  }

  /** The accepted words of an interval that are reduced into [from, end). */
  function Landing(low: nat, high: nat, bound: nat, from: nat, end: nat): set<nat>
    requires bound >= 1
  {
    set v: nat | low <= v < high && from <= Reduce(v, bound) < end
  }

  lemma LandingSplits(low: nat, high: nat, bound: nat, from: nat, end: nat)
    requires from < end <= bound
    ensures |Landing(low, high, bound, from, end)|
         == |Landing(low, high, bound, from, end - 1)| + |Residues(low, high, bound, end - 1)|
  {
    hide Reduce;
    assert Landing(low, high, bound, from, end) == Landing(low, high, bound, from, end - 1) + Residues(low, high, bound, end - 1);
  }

  lemma {:induction false} LandingSize(low: nat, q: nat, bound: nat, from: nat, end: nat)
    requires from <= end <= bound && bound >= 1
    ensures |Landing(low, low + q * bound, bound, from, end)| == (end - from) * q
    decreases end
  {
    hide Reduce;
    var high := low + q * bound;
    if from == end {
      assert Landing(low, high, bound, from, end) == {};
    } else {
      LandingSize(low, q, bound, from, end - 1);
      EvenResidues(low, q, bound, end - 1);
      LandingSplits(low, high, bound, from, end);
      hide Landing, Residues;
      assert (end - from) * q == (end - 1 - from) * q + q;
    }
  }

  function PickingWords(s: seq<ScoredCandidate>, i: nat, low: nat, high: nat): set<nat>
    requires s != []
  {
    set v: nat | low <= v < high && Pick(s, Reduce(v, Total(s))) == i
  }

  lemma WordsInStretch(s: seq<ScoredCandidate>, i: nat, low: nat, high: nat)
    requires i < |s|
    ensures Prefix(s, i) + Weight(s[i]) <= Total(s)
    ensures PickingWords(s, i, low, high) == Landing(low, high, Total(s), Prefix(s, i), Prefix(s, i) + Weight(s[i]))
  {
    hide Reduce, Weight, Total, Pick, Prefix;
    PrefixEnds(s, i);
    forall v: nat
      ensures v in PickingWords(s, i, low, high) <==> v in Landing(low, high, Total(s), Prefix(s, i), Prefix(s, i) + Weight(s[i]))
    {
      PickIff(s, Reduce(v, Total(s)), i);
    }
  }

  /** Of the accepted 64-bit words, each candidate is picked by its weight times the same number of words. */
  lemma {:induction false} ShareOfWords(s: seq<ScoredCandidate>, i: nat)
    requires i < |s| && Total(s) < RANGE64
    ensures |PickingWords(s, i, Threshold(Total(s)), RANGE64)| == Weight(s[i]) * (RANGE64 / Total(s))
  {
    hide Reduce, Weight, Total, Pick, Prefix, PickingWords, Landing, Threshold;
    WholeRange(Total(s));
    WordsInStretch(s, i, Threshold(Total(s)), RANGE64);
    LandingSize(Threshold(Total(s)), RANGE64 / Total(s), Total(s), Prefix(s, i), Prefix(s, i) + Weight(s[i]));
  }

  lemma WholeRange(bound: nat)
    requires 1 <= bound < RANGE64
    ensures Threshold(bound) + RANGE64 / bound * bound == RANGE64
  {
    ThresholdIsRemainder(bound);
    Euclid(RANGE64, bound);
  }
}
