/** The integer scores of services/engine/internal/matching/score.go, in 64-bit arithmetic. */
module MatchScore {
  import opened Wrappers
  import opened Arithmetic
  import opened MatchTypes

  const TWO63: int := 0x8000_0000_0000_0000

  /** The value a 64-bit register keeps. */
  function Wrap(x: int): (r: int64)
  {
    (x + TWO63) % (2 * TWO63) - TWO63
  }

  lemma WrapFits(x: int)
    requires -TWO63 <= x < TWO63
    ensures Wrap(x) == x
  {
  }

  function Clamp(value: int, minimum: int, maximum: int): int {
    if value < minimum then minimum else if value > maximum then maximum else value
  }

  /** Division that truncates toward zero. */
  function Quotient(a: int, b: int): int
    requires b > 0
  {
    if a >= 0 then a / b else -(-a / b)
  }

  const POINTS: int := 5

  function RatioScore(numerator: int64, denominator: int64): int {
    if denominator <= 0 || numerator <= 0 then 0
    else Quotient(Wrap(Wrap(Clamp(numerator, 0, denominator) * POINTS) + denominator / 2), denominator)
  }

  /** What ratioScore is meant to compute: the bounded ratio in fifths, rounded half up. */
  function ExactRatio(numerator: int64, denominator: int64): int {
    if denominator <= 0 || numerator <= 0 then 0
    else (Clamp(numerator, 0, denominator) * POINTS + denominator / 2) / denominator
  }

  predicate Fits(numerator: int64, denominator: int64) {
    Clamp(numerator, 0, denominator) * POINTS + denominator / 2 < TWO63
  }

  function WeightedRelevance(relevance: int, maximum: int): int {
    Clamp(relevance, 0, 10_000) * maximum / 10_000
  }

  function RelevanceOf(recall: Recall, channel: Channel): int {
    if channel in recall then recall[channel].relevance else 0
  }

  function ReputationScore(r: Reputation): int {
    Clamp(r.quality, 0, 100) * 5 / 100 + Clamp(r.speed, 0, 100) * 5 / 100 + Clamp(r.reliability, 0, 100) * 5 / 100 +
    Clamp(r.communication, 0, 100) * 5 / 100 + Clamp(r.compliance, 0, 100) * 5 / 100
  }

  function PriceHeadroom(price: Option<nat>, budget: Option<nat>): int {
    if price.None? || budget.None? || price.value > budget.value then 0
    else if budget.value == 0 then 5
    else (budget.value - price.value) * 5 / budget.value
  }

  function TimeHeadroom(duration: int64, available: int64): int {
    if duration <= 0 || available <= 0 || duration > available then 0 else RatioScore(available - duration, available)
  }

  /** time.Time.Sub, which saturates at the limits of a duration. */
  function Available(request: Request): int64 {
    Clamp(request.deadline - request.now, -TWO63, TWO63 - 1)
  }

  function Free(c: Candidate): int64 {
    Wrap(c.maxConcurrency - c.activeCapacity)
  }

  function RuleScore(request: Request, c: Candidate, recall: Recall): Score {
    var taskMatch := WeightedRelevance(RelevanceOf(recall, Dense), 25) + WeightedRelevance(RelevanceOf(recall, Lexical), 15) +
                     WeightedRelevance(RelevanceOf(recall, Exact), 20);
    var reputation := ReputationScore(c.reputation);
    var priceTime := PriceHeadroom(c.formalPrice, request.formalBudget) + TimeHeadroom(c.estimatedDuration, Available(request));
    var availability := RatioScore(Free(c), c.maxConcurrency);
    Score(taskMatch, reputation, priceTime, availability, taskMatch + reputation + priceTime + availability, 0, 0)
  }

  function ApplyModelDelta(score: Score, delta: int): Score {
    var modelDelta := Clamp(delta, -5, 5);
    score.(modelDelta := modelDelta, rankingScore := Clamp(score.ruleScore + modelDelta, 0, 100))
  }

  /** The computed ratio is the intended one exactly when the intermediate sum fits in 64 bits. */
  lemma {:induction false} RatioExactIff(numerator: int64, denominator: int64)
    requires numerator > 0 && denominator > 0
    ensures RatioScore(numerator, denominator) == ExactRatio(numerator, denominator) <==> Fits(numerator, denominator)
    ensures 0 <= ExactRatio(numerator, denominator) <= POINTS
    ensures -POINTS <= RatioScore(numerator, denominator) <= POINTS
  {
    var bounded := Clamp(numerator, 0, denominator);
    var sum := bounded * POINTS + denominator / 2;
    QuotientBounds(sum, denominator, 0, POINTS);
    var kept := Wrap(Wrap(bounded * POINTS) + denominator / 2);
    if Fits(numerator, denominator) {
      WrapFits(bounded * POINTS);
      WrapFits(sum);
    } else {
      WrapOfSum(bounded * POINTS, denominator / 2);
      assert kept <= sum - 2 * TWO63;
      Truncates(kept, sum, denominator);
    }
  }

  lemma WrapOfSum(x: int, y: int)
    requires x >= 0 && y >= 0 && x + y >= TWO63
    ensures Wrap(Wrap(x) + y) == Wrap(x + y)
    ensures Wrap(x + y) <= x + y - 2 * TWO63
  {
  }

  /** Losing a whole 64-bit range loses at least two from the quotient. */
  lemma Truncates(kept: int, sum: int, denominator: int)
    requires 0 < denominator < TWO63 && -TWO63 <= kept < TWO63
    requires kept <= sum - 2 * TWO63 && TWO63 <= sum < POINTS * denominator + denominator
    ensures Quotient(kept, denominator) < sum / denominator
    ensures -POINTS <= Quotient(kept, denominator) <= POINTS
  {
    if kept < 0 {
      QuotientBounds(-kept, denominator, 0, POINTS);
      QuotientBounds(sum, denominator, 1, POINTS);
    } else {
      QuotientBounds(kept, denominator, 0, POINTS);
      QuotientGap(kept, sum, denominator);
    }
  }

  lemma RatioBounds(numerator: int64, denominator: int64)
    ensures -POINTS <= RatioScore(numerator, denominator) <= POINTS
    ensures Fits(numerator, denominator) ==> RatioScore(numerator, denominator) >= 0
  {
    if denominator > 0 && numerator > 0 {
      RatioExactIff(numerator, denominator);
    }
  }

  lemma TimeBounds(duration: int64, available: int64)
    ensures -5 <= TimeHeadroom(duration, available) <= 5
    ensures 5 * available + available / 2 < TWO63 ==> TimeHeadroom(duration, available) >= 0
  {
    if 0 < duration <= available {
      RatioBounds(available - duration, available);
      hide RatioScore;
    }
  }

  lemma FifthBounds(value: int)
    ensures 0 <= Clamp(value, 0, 100) * 5 / 100 <= 5
  {
  }

  lemma ReputationBounds(r: Reputation)
    ensures 0 <= ReputationScore(r) <= 25
  {
    hide Clamp;
    FifthBounds(r.quality);
    FifthBounds(r.speed);
    FifthBounds(r.reliability);
    FifthBounds(r.communication);
    FifthBounds(r.compliance);
  }

  lemma RelevanceBounds(relevance: int, maximum: int)
    requires 0 <= maximum <= 100
    ensures 0 <= WeightedRelevance(relevance, maximum) <= maximum
  {
    var r := Clamp(relevance, 0, 10_000);
    assert 0 <= r * maximum <= 10_000 * maximum by {
      assert (10_000 - r) * maximum >= 0;
    }
    QuotientBounds(r * maximum, 10_000, 0, maximum);
  }

  lemma PriceBounds(price: Option<nat>, budget: Option<nat>)
    ensures 0 <= PriceHeadroom(price, budget) <= 5
  {
    if price.Some? && budget.Some? && price.value <= budget.value && budget.value > 0 {
      QuotientBounds((budget.value - price.value) * 5, budget.value, 0, 5);
    }
  }

  /** Every component's range; only the two ratios can leave theirs, and only when they overflow. */
  lemma ComponentBounds(request: Request, c: Candidate, recall: Recall)
    ensures var score := RuleScore(request, c, recall);
            && 0 <= score.taskMatch <= 60 && 0 <= score.reputation <= 25
            && -5 <= score.priceTime <= 10 && -5 <= score.availability <= 5
            && (5 * Available(request) + Available(request) / 2 < TWO63 ==> score.priceTime >= 0)
            && (5 * c.maxConcurrency + c.maxConcurrency / 2 < TWO63 ==> score.availability >= 0)
            && score.ruleScore == score.taskMatch + score.reputation + score.priceTime + score.availability
  {
    hide RatioScore, PriceHeadroom, TimeHeadroom, Available, Wrap, Free, WeightedRelevance, ReputationScore, RelevanceOf;
    RelevanceBounds(RelevanceOf(recall, Dense), 25);
    RelevanceBounds(RelevanceOf(recall, Lexical), 15);
    RelevanceBounds(RelevanceOf(recall, Exact), 20);
    ReputationBounds(c.reputation);
    PriceBounds(c.formalPrice, request.formalBudget);
    TimeBounds(c.estimatedDuration, Available(request));
    RatioBounds(Free(c), c.maxConcurrency);
  }

  /** Without any hypothesis the rule score stays within [-10, 100] and the ranking score within [0, 100]. */
  lemma {:induction false} ScoreBounds(request: Request, c: Candidate, recall: Recall, delta: int)
    ensures var score := ApplyModelDelta(RuleScore(request, c, recall), delta);
            -10 <= score.ruleScore <= 100 && -5 <= score.modelDelta <= 5 && 0 <= score.rankingScore <= 100
  {
    ComponentBounds(request, c, recall);
    hide RuleScore;
  }

  /** The advertised ranges, when neither intermediate sum overflows. */
  lemma {:induction false} ScoreRanges(request: Request, c: Candidate, recall: Recall)
    requires 5 * Available(request) + Available(request) / 2 < TWO63
    requires 5 * c.maxConcurrency + c.maxConcurrency / 2 < TWO63
    ensures var score := RuleScore(request, c, recall);
            && 0 <= score.taskMatch <= 60 && 0 <= score.reputation <= 25
            && 0 <= score.priceTime <= 10 && 0 <= score.availability <= 5
            && 0 <= score.ruleScore <= 100
  {
    ComponentBounds(request, c, recall);
    hide RuleScore, Available;
  }

  lemma ClampMonotone(a: int, b: int, minimum: int, maximum: int)
    requires a <= b && minimum <= maximum
    ensures Clamp(a, minimum, maximum) <= Clamp(b, minimum, maximum)
  {
  }

  lemma RelevanceMonotone(a: int, b: int, maximum: int)
    requires a <= b && 0 <= maximum
    ensures WeightedRelevance(a, maximum) <= WeightedRelevance(b, maximum)
  {
    var x, y := Clamp(a, 0, 10_000), Clamp(b, 0, 10_000);
    assert x * maximum <= y * maximum by {
      assert (y - x) * maximum >= 0;
    }
    QuotientMonotone(x * maximum, y * maximum, 10_000);
  }

  lemma FifthMonotone(a: int, b: int)
    requires a <= b
    ensures Clamp(a, 0, 100) * 5 / 100 <= Clamp(b, 0, 100) * 5 / 100
  {
    ClampMonotone(a, b, 0, 100);
    QuotientMonotone(Clamp(a, 0, 100) * 5, Clamp(b, 0, 100) * 5, 100);
  }

  predicate ReputationAtMost(a: Reputation, b: Reputation) {
    a.quality <= b.quality && a.speed <= b.speed && a.reliability <= b.reliability
    && a.communication <= b.communication && a.compliance <= b.compliance
  }

  lemma ReputationMonotone(a: Reputation, b: Reputation)
    requires ReputationAtMost(a, b)
    ensures ReputationScore(a) <= ReputationScore(b)
  {
    hide Clamp;
    FifthMonotone(a.quality, b.quality);
    FifthMonotone(a.speed, b.speed);
    FifthMonotone(a.reliability, b.reliability);
    FifthMonotone(a.communication, b.communication);
    FifthMonotone(a.compliance, b.compliance);
  }

  lemma RatioMonotone(a: int64, b: int64, denominator: int64)
    requires a <= b && 5 * denominator + denominator / 2 < TWO63
    ensures RatioScore(a, denominator) <= RatioScore(b, denominator)
  {
    if denominator > 0 && a > 0 {
      RatioExactIff(a, denominator);
      RatioExactIff(b, denominator);
      hide RatioScore;
      ClampMonotone(a, b, 0, denominator);
      QuotientMonotone(Clamp(a, 0, denominator) * POINTS + denominator / 2, Clamp(b, 0, denominator) * POINTS + denominator / 2, denominator);
    } else {
      RatioBounds(b, denominator);
    }
  }

  lemma PriceMonotone(a: nat, b: nat, budget: Option<nat>)
    requires b <= a
    ensures PriceHeadroom(Some(a), budget) <= PriceHeadroom(Some(b), budget)
  {
    PriceBounds(Some(b), budget);
    if budget.Some? && a <= budget.value && budget.value > 0 {
      QuotientMonotone((budget.value - a) * 5, (budget.value - b) * 5, budget.value);
    }
  }

  lemma TimeMonotone(a: int64, b: int64, available: int64)
    requires 0 < b <= a && 5 * available + available / 2 < TWO63
    ensures TimeHeadroom(a, available) <= TimeHeadroom(b, available)
  {
    TimeBounds(b, available);
    if a <= available {
      RatioMonotone(available - a, available - b, available);
    }
  }

  predicate RecallAtMost(a: Recall, b: Recall) {
    forall channel: Channel :: channel in {Dense, Lexical, Exact} ==> RelevanceOf(a, channel) <= RelevanceOf(b, channel)
  }

  /** Candidate b is at least as good as candidate a in everything that is scored. */
  predicate AtMost(a: Candidate, b: Candidate) {
    && ReputationAtMost(a.reputation, b.reputation)
    && a.formalPrice.Some? && b.formalPrice.Some? && b.formalPrice.value <= a.formalPrice.value
    && 0 < b.estimatedDuration <= a.estimatedDuration
    && b.maxConcurrency == a.maxConcurrency && 0 <= b.activeCapacity <= a.activeCapacity <= a.maxConcurrency
  }

  /** Being better in any scored respect never costs points, in any component, as long as no sum overflows. */
  lemma {:induction false} BetterScoresNoLess(request: Request, a: Candidate, b: Candidate, recallA: Recall, recallB: Recall)
    requires AtMost(a, b) && RecallAtMost(recallA, recallB)
    requires 5 * Available(request) + Available(request) / 2 < TWO63
    requires 5 * a.maxConcurrency + a.maxConcurrency / 2 < TWO63
    ensures var x, y := RuleScore(request, a, recallA), RuleScore(request, b, recallB);
            && x.taskMatch <= y.taskMatch && x.reputation <= y.reputation
            && x.priceTime <= y.priceTime && x.availability <= y.availability && x.ruleScore <= y.ruleScore
  {
    FreeIs(a);
    FreeIs(b);
    hide RatioScore, PriceHeadroom, TimeHeadroom, Available, Wrap, Free, WeightedRelevance, ReputationScore, RelevanceOf;
    RelevanceMonotone(RelevanceOf(recallA, Dense), RelevanceOf(recallB, Dense), 25);
    RelevanceMonotone(RelevanceOf(recallA, Lexical), RelevanceOf(recallB, Lexical), 15);
    RelevanceMonotone(RelevanceOf(recallA, Exact), RelevanceOf(recallB, Exact), 20);
    ReputationMonotone(a.reputation, b.reputation);
    PriceMonotone(a.formalPrice.value, b.formalPrice.value, request.formalBudget);
    TimeMonotone(a.estimatedDuration, b.estimatedDuration, Available(request));
    RatioMonotone(Free(a), Free(b), a.maxConcurrency);
  }

  lemma FreeIs(c: Candidate)
    requires 0 <= c.activeCapacity <= c.maxConcurrency
    ensures Free(c) == c.maxConcurrency - c.activeCapacity
  {
    WrapFits(c.maxConcurrency - c.activeCapacity);
  }

  /** The hypothesis is needed: a deadline 2^61 nanoseconds away costs a quick agent points instead of earning them. */
  lemma DistantDeadlineOverflows()
    ensures RatioScore(0x1FFF_FFFF_FFFF_FFFF, 0x2000_0000_0000_0000) == -2
    ensures ExactRatio(0x1FFF_FFFF_FFFF_FFFF, 0x2000_0000_0000_0000) == 5
  {
  }
}
