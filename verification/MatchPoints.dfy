/** How many points the matching engine gives for what, stated by the shares the points stand for. */
module MatchPoints {
  import opened Wrappers
  import opened Arithmetic
  import opened MatchTypes
  import opened MatchScore

  /** The points are the whole part of the share that a value has in its full amount. */
  predicate Share(points: int, value: int, full: int, maximum: int) {
    if value <= 0 then points == 0
    else if value >= full then points == maximum
    else full * points <= value * maximum < full * points + full
  }

  /** The points are the share in fifths of a ratio, rounded half up. */
  predicate Fifths(points: int, numerator: int, denominator: int) {
    if numerator <= 0 || denominator <= 0 then points == 0
    else if numerator >= denominator then points == 5
    else denominator * points <= 5 * numerator + denominator / 2 < denominator * points + denominator
  }

  /** What is left of the budget after the price. */
  predicate PricePoints(points: int, price: Option<nat>, budget: Option<nat>) {
    if price.None? || budget.None? || price.value > budget.value then points == 0
    else if budget.value == 0 then points == 5
    else budget.value * points <= (budget.value - price.value) * 5 < budget.value * points + budget.value
  }

  /** What is left of the time until the deadline after the estimated duration. */
  predicate TimePoints(points: int, duration: int, available: int) {
    if duration <= 0 || duration > available then points == 0 else Fifths(points, available - duration, available)
  }

  lemma QuotientIs(a: int, b: int, q: int)
    requires b > 0 && b * q <= a < b * q + b
    ensures a / b == q
  {
    assert q * b == b * q;
    QuotientBounds(a, b, q, q);
  }

  lemma RelevanceIs(points: int, relevance: int, maximum: int)
    requires 0 <= maximum && Share(points, relevance, 10_000, maximum)
    ensures WeightedRelevance(relevance, maximum) == points
  {
    if 0 < relevance < 10_000 {
      QuotientIs(relevance * maximum, 10_000, points);
    }
  }

  lemma ReputationIs(points: int, value: int)
    requires Share(points, value, 100, 5)
    ensures Clamp(value, 0, 100) * 5 / 100 == points
  {
  }

  lemma PriceIs(points: int, price: Option<nat>, budget: Option<nat>)
    requires PricePoints(points, price, budget)
    ensures PriceHeadroom(price, budget) == points
  {
    if price.Some? && budget.Some? && price.value <= budget.value && budget.value > 0 {
      QuotientIs((budget.value - price.value) * 5, budget.value, points);
    }
  }

  lemma FifthsIs(points: int, numerator: int64, denominator: int64)
    requires Fifths(points, numerator, denominator) && 5 * denominator + denominator / 2 < 0x8000_0000_0000_0000
    ensures RatioScore(numerator, denominator) == points
  {
    if numerator > 0 && denominator > 0 {
      RatioExactIff(numerator, denominator);
      hide RatioScore;
      if numerator < denominator {
        QuotientIs(numerator * 5 + denominator / 2, denominator, points);
      } else {
        QuotientIs(denominator * 5 + denominator / 2, denominator, 5);
      }
    }
  }

  lemma TimeIs(points: int, duration: int64, request: Request)
    requires TimePoints(points, duration, request.deadline - request.now)
    requires 5 * (request.deadline - request.now) + (request.deadline - request.now) / 2 < 0x8000_0000_0000_0000
    ensures TimeHeadroom(duration, Available(request)) == points
  {
    hide RatioScore;
    var available := request.deadline - request.now;
    if 0 < duration <= available {
      FifthsIs(points, available - duration, available);
    }
  }

  /** What every scored respect is worth in points. */
  datatype Points = Points(
    dense: int, lexical: int, exact: int,
    quality: int, speed: int, reliability: int, communication: int, compliance: int,
    price: int, time: int, capacity: int)

  function Relevance(recall: Recall, channel: Channel): int {
    if channel in recall then recall[channel].relevance else 0
  }

  predicate TaskPoints(p: Points, recall: Recall) {
    && Share(p.dense, Relevance(recall, Dense), 10_000, 25)
    && Share(p.lexical, Relevance(recall, Lexical), 10_000, 15)
    && Share(p.exact, Relevance(recall, Exact), 10_000, 20)
  }

  predicate ReputationPoints(p: Points, r: Reputation) {
    && Share(p.quality, r.quality, 100, 5) && Share(p.speed, r.speed, 100, 5) && Share(p.reliability, r.reliability, 100, 5)
    && Share(p.communication, r.communication, 100, 5) && Share(p.compliance, r.compliance, 100, 5)
  }

  /** The points a candidate deserves in every respect. */
  predicate Deserves(p: Points, request: Request, c: Candidate, recall: Recall) {
    && TaskPoints(p, recall) && ReputationPoints(p, c.reputation)
    && PricePoints(p.price, c.formalPrice, request.formalBudget)
    && TimePoints(p.time, c.estimatedDuration, request.deadline - request.now)
    && Fifths(p.capacity, c.maxConcurrency - c.activeCapacity, c.maxConcurrency)
  }

  /** Neither of the two ratios overflows its 64-bit sum. */
  predicate Moderate(request: Request, c: Candidate) {
    && 5 * (request.deadline - request.now) + (request.deadline - request.now) / 2 < 0x8000_0000_0000_0000
    && 5 * c.maxConcurrency + c.maxConcurrency / 2 < 0x8000_0000_0000_0000
    && -0x8000_0000_0000_0000 <= c.maxConcurrency - c.activeCapacity < 0x8000_0000_0000_0000
  }

  /** The rule score is the sum of the points a candidate deserves, component by component. */
  lemma {:induction false} RuleScoreIs(request: Request, c: Candidate, recall: Recall, p: Points)
    requires Moderate(request, c) && Deserves(p, request, c, recall)
    ensures var score := RuleScore(request, c, recall);
      && score.taskMatch == p.dense + p.lexical + p.exact
      && score.reputation == p.quality + p.speed + p.reliability + p.communication + p.compliance
      && score.priceTime == p.price + p.time
      && score.availability == p.capacity
      && score.ruleScore == score.taskMatch + score.reputation + score.priceTime + score.availability
  {
    hide Share, Fifths, PricePoints, TimePoints, RatioScore, PriceHeadroom, TimeHeadroom, Available, WeightedRelevance, Clamp, Wrap;
    RelevanceIs(p.dense, Relevance(recall, Dense), 25);
    RelevanceIs(p.lexical, Relevance(recall, Lexical), 15);
    RelevanceIs(p.exact, Relevance(recall, Exact), 20);
    ReputationIs(p.quality, c.reputation.quality);
    ReputationIs(p.speed, c.reputation.speed);
    ReputationIs(p.reliability, c.reputation.reliability);
    ReputationIs(p.communication, c.reputation.communication);
    ReputationIs(p.compliance, c.reputation.compliance);
    PriceIs(p.price, c.formalPrice, request.formalBudget);
    TimeIs(p.time, c.estimatedDuration, request);
    FreeFits(c);
    FifthsIs(p.capacity, Free(c), c.maxConcurrency);
  }

  lemma FreeFits(c: Candidate)
    requires -0x8000_0000_0000_0000 <= c.maxConcurrency - c.activeCapacity < 0x8000_0000_0000_0000
    ensures Free(c) == c.maxConcurrency - c.activeCapacity
  {
    WrapFits(c.maxConcurrency - c.activeCapacity);
  }

  /** Points for every respect exist, and only one number of them. */
  lemma {:induction false} PointsExist(request: Request, c: Candidate, recall: Recall)
    ensures exists p :: Deserves(p, request, c, recall)
  {
    var p := Points(
      SharePoints(Relevance(recall, Dense), 10_000, 25), SharePoints(Relevance(recall, Lexical), 10_000, 15),
      SharePoints(Relevance(recall, Exact), 10_000, 20),
      SharePoints(c.reputation.quality, 100, 5), SharePoints(c.reputation.speed, 100, 5), SharePoints(c.reputation.reliability, 100, 5),
      SharePoints(c.reputation.communication, 100, 5), SharePoints(c.reputation.compliance, 100, 5),
      PriceQuotient(c.formalPrice, request.formalBudget),
      TimeQuotient(c.estimatedDuration, request.deadline - request.now),
      FifthsQuotient(c.maxConcurrency - c.activeCapacity, c.maxConcurrency));
    hide Share, Fifths, PricePoints, TimePoints;
    assert Deserves(p, request, c, recall);
  }

  function SharePoints(value: int, full: int, maximum: int): (points: int)
    requires full > 0
    ensures Share(points, value, full, maximum)
  {
    if value <= 0 then 0 else if value >= full then maximum
    else
      Euclid(value * maximum, full);
      value * maximum / full
  }

  function FifthsQuotient(numerator: int, denominator: int): (points: int)
    ensures Fifths(points, numerator, denominator)
  {
    if numerator <= 0 || denominator <= 0 then 0 else if numerator >= denominator then 5
    else
      Euclid(5 * numerator + denominator / 2, denominator);
      (5 * numerator + denominator / 2) / denominator
  }

  function PriceQuotient(price: Option<nat>, budget: Option<nat>): (points: int)
    ensures PricePoints(points, price, budget)
  {
    if price.None? || budget.None? || price.value > budget.value then 0 else if budget.value == 0 then 5
    else
      Euclid((budget.value - price.value) * 5, budget.value);
      (budget.value - price.value) * 5 / budget.value
  }

  function TimeQuotient(duration: int, available: int): (points: int)
    ensures TimePoints(points, duration, available)
  {
    if duration <= 0 || duration > available then 0 else FifthsQuotient(available - duration, available)
  }

  /** A model moves the rule score by at most five points, and never out of [0, 100]. */
  lemma {:induction false} ModelMovesBy(score: Score, delta: int)
    ensures var s := ApplyModelDelta(score, delta);
      && (-5 <= delta <= 5 ==> s.modelDelta == delta)
      && (delta > 5 ==> s.modelDelta == 5) && (delta < -5 ==> s.modelDelta == -5)
      && (0 <= s.ruleScore + s.modelDelta <= 100 ==> s.rankingScore == s.ruleScore + s.modelDelta)
      && (s.ruleScore + s.modelDelta < 0 ==> s.rankingScore == 0) && (s.ruleScore + s.modelDelta > 100 ==> s.rankingScore == 100)
      && s.(modelDelta := score.modelDelta, rankingScore := score.rankingScore) == score
  {
  }
}
