/** What a match answers: who is scored, with which points, in which order, and who qualifies. */
module MatchOutcomes {
  import opened Wrappers
  import opened Arithmetic
  import opened Sequences
  import opened Text
  import opened Ranking
  import opened MatchTypes
  import opened MatchFilter
  import opened MatchScore
  import opened MatchService
  import opened MatchPoints
  import opened MatchRecall

  /** The score consists of the points that the candidate deserves, as long as no ratio overflows. */
  ghost predicate ScoredFairly(s: ScoredCandidate, request: Request) {
    forall p :: Moderate(request, s.candidate) && Deserves(p, request, s.candidate, s.recall) ==>
      && s.score.taskMatch == p.dense + p.lexical + p.exact
      && s.score.reputation == p.quality + p.speed + p.reliability + p.communication + p.compliance
      && s.score.priceTime == p.price + p.time && s.score.availability == p.capacity
      && s.score.ruleScore == s.score.taskMatch + s.score.reputation + s.score.priceTime + s.score.availability
  }

  /** What the model makes of a candidate and its rule score; nothing when there is no model or it fails. */
  function Opinion(adjuster: Option<Adjuster>, s: ScoredCandidate): int {
    var rule := s.score.(modelDelta := 0, rankingScore := 0);
    if adjuster.Some? && adjuster.value(s.candidate, rule).Some? then adjuster.value(s.candidate, rule).value else 0
  }

  /** The model moves the score by at most five points and never out of [0, 100]. */
  predicate MovedBy(score: Score, delta: int) {
    && score.modelDelta == (if delta > 5 then 5 else if delta < -5 then -5 else delta)
    && var moved := score.ruleScore + score.modelDelta;
       score.rankingScore == if moved < 0 then 0 else if moved > 100 then 100 else moved
  }

  lemma {:induction false} ScoredOfIs(request: Request, adjuster: Option<Adjuster>, c: Candidate, recall: Recall)
    ensures var s := ScoredOf(request, adjuster, c, recall);
      && s.candidate == c && s.recall == recall && ScoredFairly(s, request) && MovedBy(s.score, Opinion(adjuster, s))
  {
    hide Deserves, Moderate;
    var s := ScoredOf(request, adjuster, c, recall);
    var rule := RuleScore(request, c, recall);
    assert rule.modelDelta == 0 && rule.rankingScore == 0;
    hide RuleScore;
    assert s.score.(modelDelta := 0, rankingScore := 0) == rule;
    forall p | Moderate(request, c) && Deserves(p, request, c, recall)
      ensures && s.score.taskMatch == p.dense + p.lexical + p.exact
              && s.score.reputation == p.quality + p.speed + p.reliability + p.communication + p.compliance
              && s.score.priceTime == p.price + p.time && s.score.availability == p.capacity
              && s.score.ruleScore == s.score.taskMatch + s.score.reputation + s.score.priceTime + s.score.availability
    {
      RuleScoreIs(request, c, recall, p);
    }
  }

  /** The ids of the candidates that may take part. */
  function EligibleIds(fold: Fold, request: Request, candidates: seq<Candidate>): set<string> {
    set c | c in candidates && Fit(fold, request, c) :: c.agentId
  }

  predicate IsScored(scored: seq<ScoredCandidate>, id: string) {
    exists i :: 0 <= i < |scored| && scored[i].candidate.agentId == id
  }

  /** A scored candidate is one that fits, under its own evidence, with the points it deserves. */
  ghost predicate ScoredProperly(s: ScoredCandidate, fold: Fold, request: Request, candidates: seq<Candidate>, adjuster: Option<Adjuster>, book: Book) {
    && s.candidate in candidates && Fit(fold, request, s.candidate)
    && s.candidate.agentId in book && s.recall == book[s.candidate.agentId]
    && ScoredFairly(s, request) && MovedBy(s.score, Opinion(adjuster, s))
  }

  /**
   Scored are the eligible agents that some channel placed and that fewer than a hundred others outrank,
   each under the evidence of its channels and with the points it deserves.
   */
  lemma {:induction false} MatchScores(fold: Fold, request: Request, candidates: seq<Candidate>, adapters: seq<Option<Adapter>>,
                                       adjuster: Option<Adjuster>, result: MatchResult)
    requires Matches(fold, request, candidates, adapters, adjuster, result)
    ensures exists book ::
      && Remembers(book, adapters, EligibleIds(fold, request, candidates))
      && (forall id :: IsScored(result.scored, id) <==> id in book && |Better(book, id)| < 100)
      && (forall i :: 0 <= i < |result.scored| ==> ScoredProperly(result.scored[i], fold, request, candidates, adjuster, book))
  {
    hide Evaluates, Passing, Failing, Qualified, Lookup, AgentsDiffer, Fit, ScoredFairly, MovedBy, Increasing, Remembers, Better, Fused;
    var passing := Passing(fold, request, candidates);
    var byId := Lookup(passing);
    var book :| Evaluates(request, adapters, adjuster, byId, book, result);
    Eligibles(fold, request, candidates);
    Evaluated(request, adapters, adjuster, byId, book, result);
    BookRemembers(book, adapters, byId.Keys);
    forall i | 0 <= i < |result.scored|
      ensures ScoredProperly(result.scored[i], fold, request, candidates, adjuster, book)
    {
      var id := result.scored[i].candidate.agentId;
      ScoredOfIs(request, adjuster, byId[id], book[id]);
    }
    forall id
      ensures IsScored(result.scored, id) <==> id in book && |Better(book, id)| < 100
    {
      FusedIff(book, id);
    }
  }

  /** The index of the eligible candidates. */
  lemma Eligibles(fold: Fold, request: Request, candidates: seq<Candidate>)
    requires AgentsDiffer(Passing(fold, request, candidates))
    ensures var byId := Lookup(Passing(fold, request, candidates));
      && byId.Keys == EligibleIds(fold, request, candidates)
      && forall id :: id in byId ==> byId[id] in candidates && Fit(fold, request, byId[id]) && byId[id].agentId == id
  {
    hide Passes, Fit, Passing, AgentsDiffer;
    FilterMembers(fold, request, candidates);
    forall c: Candidate
      ensures Passes(fold, request, c) <==> Fit(fold, request, c)
    {
      PassesIff(fold, request, c);
    }
    var passing := Passing(fold, request, candidates);
    var byId := Lookup(passing);
    forall id
      ensures id in byId <==> id in EligibleIds(fold, request, candidates)
    {
      if id in EligibleIds(fold, request, candidates) {
        var c :| c in candidates && Fit(fold, request, c) && c.agentId == id;
        assert c in passing;
      }
    }
  }

  lemma Evaluated(request: Request, adapters: seq<Option<Adapter>>, adjuster: Option<Adjuster>, byId: map<string, Candidate>, book: Book, result: MatchResult)
    requires Evaluates(request, adapters, adjuster, byId, book, result) && forall id :: id in byId ==> byId[id].agentId == id
    ensures Reflects(book, adapters, byId.Keys) && book.Keys <= byId.Keys
    ensures forall id :: IsScored(result.scored, id) <==> id in Fused(book)
    ensures forall i :: 0 <= i < |result.scored| ==>
      var id := result.scored[i].candidate.agentId; id in byId && id in book && result.scored[i] == ScoredOf(request, adjuster, byId[id], book[id])
  {
    hide Reflects, RecallNoted, ModelNoted, Increasing, Fused, RuleScore, ApplyModelDelta;
    var all := ScoredSet(request, adjuster, byId, book);
    assert Elements(result.scored) == all;
    forall i | 0 <= i < |result.scored|
      ensures var id := result.scored[i].candidate.agentId;
        id in Fused(book) && id in byId && id in book && result.scored[i] == ScoredOf(request, adjuster, byId[id], book[id])
    {
      assert result.scored[i] in Elements(result.scored);
      var id :| id in Elements(Fused(book)) && result.scored[i] == ScoredOf(request, adjuster, byId[id], book[id]);
    }
    forall id | id in Fused(book)
      ensures IsScored(result.scored, id)
    {
      assert id in Elements(Fused(book));
      var s := ScoredOf(request, adjuster, byId[id], book[id]);
      assert s in all;
      assert s in Elements(result.scored);
      var i :| 0 <= i < |result.scored| && result.scored[i] == s;
    }
  }

  /** Scores fall along the list; equal ones are listed by rule score, and then by agent. */
  lemma {:induction false} ScoredInOrder(fold: Fold, request: Request, candidates: seq<Candidate>, adapters: seq<Option<Adapter>>,
                                         adjuster: Option<Adjuster>, result: MatchResult, i: nat, j: nat)
    requires Matches(fold, request, candidates, adapters, adjuster, result) && i < j < |result.scored|
    ensures var a, b := result.scored[i], result.scored[j];
      if a.score.rankingScore != b.score.rankingScore then a.score.rankingScore > b.score.rankingScore
      else if a.score.ruleScore != b.score.ruleScore then a.score.ruleScore > b.score.ruleScore
      else Before(a.candidate.agentId, b.candidate.agentId)
  {
    hide Passing, Failing, Qualified, Lookup, AgentsDiffer, Reflects, ScoredSet, RecallNoted, ModelNoted, Before;
    assert ByScore(result.scored[i], result.scored[j]);
  }

  /** At least sixty by the rules and in the ranking, and within ten of the best. */
  predicate Qualifying(scored: seq<ScoredCandidate>, i: int)
    requires 0 <= i < |scored|
  {
    && scored[i].score.ruleScore >= 60 && scored[i].score.rankingScore >= 60
    && scored[i].score.rankingScore + 10 >= scored[0].score.rankingScore
  }

  /** How many of the first candidates qualify. */
  function QualifyingBefore(scored: seq<ScoredCandidate>, i: nat): set<nat>
    requires i <= |scored|
  {
    set j: nat | j < i && Qualifying(scored, j)
  }

  lemma OneMoreQualifies(scored: seq<ScoredCandidate>, i: nat)
    requires i < |scored|
    ensures |QualifyingBefore(scored, i + 1)| == |QualifyingBefore(scored, i)| + if Qualifying(scored, i) then 1 else 0
  {
    hide Qualifying;
    var before := QualifyingBefore(scored, i);
    assert QualifyingBefore(scored, i + 1) == if Qualifying(scored, i) then before + {i} else before;
  }

  lemma {:induction false} QualifyingGrows(scored: seq<ScoredCandidate>, i: nat, j: nat)
    requires i <= j <= |scored|
    ensures |QualifyingBefore(scored, i)| <= |QualifyingBefore(scored, j)|
  {
    Subset(QualifyingBefore(scored, i), QualifyingBefore(scored, j));
  }

  /** What the list from n on contributes, when those before it have taken their places. */
  lemma {:induction false} QualifiesFrom(scored: seq<ScoredCandidate>, n: nat, i: nat)
    requires n <= |scored| && scored != [] && |QualifyingBefore(scored, n)| <= 20
    ensures var taken, all := |QualifyingBefore(scored, n)|, |QualifyingBefore(scored, |scored|)|;
      var rest := QualifiedFrom(scored[n..], scored[0].score.rankingScore, 20 - taken);
      && |rest| == (if all < 20 then all else 20) - taken
      && (n <= i < |scored| && Qualifying(scored, i) && |QualifyingBefore(scored, i)| < 20 ==>
            && taken <= |QualifyingBefore(scored, i)| < taken + |rest|
            && rest[|QualifyingBefore(scored, i)| - taken] == scored[i])
    decreases |scored| - n
  {
    hide QualifyingBefore;
    if n < |scored| {
      OneMoreQualifies(scored, n);
      QualifyingGrows(scored, n, |scored|);
      assert scored[n..][0] == scored[n] && scored[n..][1..] == scored[n + 1..];
      assert Qualifies(scored[n], scored[0].score.rankingScore) <==> Qualifying(scored, n);
      if |QualifyingBefore(scored, n)| < 20 {
        QualifiesFrom(scored, n + 1, i);
        hide Qualifying, Qualifies;
        if n < i < |scored| {
          QualifyingGrows(scored, n + 1, i);
        }
      } else if n <= i < |scored| {
        QualifyingGrows(scored, n, i);
      }
    }
  }

  /** The qualified candidates are the first twenty qualifying ones, each at the place that its predecessors leave it. */
  lemma {:induction false} QualifiedIff(scored: seq<ScoredCandidate>, i: nat)
    ensures i < |scored| && Qualifying(scored, i) && |QualifyingBefore(scored, i)| < 20 ==>
      var place := |QualifyingBefore(scored, i)|; place < |Qualified(scored)| && Qualified(scored)[place] == scored[i]
    ensures var all := |QualifyingBefore(scored, |scored|)|; |Qualified(scored)| == if all < 20 then all else 20
  {
    assert QualifyingBefore(scored, 0) == {};
    if scored != [] {
      assert scored[0..] == scored;
      QualifiesFrom(scored, 0, i);
    }
  }

  /** A match answers with the candidates that qualify, in this sense. */
  lemma MatchQualifies(fold: Fold, request: Request, candidates: seq<Candidate>, adapters: seq<Option<Adapter>>,
                       adjuster: Option<Adjuster>, result: MatchResult, i: nat)
    requires Matches(fold, request, candidates, adapters, adjuster, result)
    requires i < |result.scored| && Qualifying(result.scored, i) && |QualifyingBefore(result.scored, i)| < 20
    ensures |QualifyingBefore(result.scored, i)| < |result.qualified|
    ensures result.qualified[|QualifyingBefore(result.scored, i)|] == result.scored[i]
  {
    hide Evaluates, Qualified, Qualifying, QualifyingBefore;
    QualifiedIff(result.scored, i);
  }

  predicate FullyRelevant(recall: Recall) {
    forall channel: Channel :: channel in {Dense, Lexical, Exact} ==> channel in recall && recall[channel].relevance == 10_000
  }

  /**
   Full relevance in all three channels alone is worth the qualification floor: without a model, such a
   candidate scores at least sixty, and it qualifies when it is within ten of the best and fewer than
   twenty qualify before it.
   */
  lemma {:induction false} FullRelevanceQualifies(fold: Fold, request: Request, candidates: seq<Candidate>, adapters: seq<Option<Adapter>>,
                                                  result: MatchResult, i: nat)
    requires Matches(fold, request, candidates, adapters, None, result) && i < |result.scored|
    requires FullyRelevant(result.scored[i].recall) && Moderate(request, result.scored[i].candidate)
    ensures var s := result.scored[i].score; s.taskMatch == 60 && s.ruleScore >= 60 && s.rankingScore >= 60
    ensures result.scored[i].score.rankingScore + 10 >= result.scored[0].score.rankingScore && |QualifyingBefore(result.scored, i)| < 20 ==>
              result.scored[i] in result.qualified
  {
    hide Matches, Remembers, Better, Moderate, ScoredFairly, FullyRelevant, Fit, QualifyingBefore;
    MatchScores(fold, request, candidates, adapters, None, result);
    var s := result.scored[i];
    assert ScoredFairly(s, request) && MovedBy(s.score, 0);
    FullRelevanceScores(s, request);
    if s.score.rankingScore + 10 >= result.scored[0].score.rankingScore && |QualifyingBefore(result.scored, i)| < 20 {
      MatchQualifies(fold, request, candidates, adapters, None, result, i);
    }
  }

  lemma FullRelevanceScores(s: ScoredCandidate, request: Request)
    requires FullyRelevant(s.recall) && Moderate(request, s.candidate) && ScoredFairly(s, request) && MovedBy(s.score, 0)
    ensures s.score.taskMatch == 60 && s.score.ruleScore >= 60 && s.score.rankingScore >= 60
  {
    hide Deserves, Moderate, FullyRelevant;
    PointsExist(request, s.candidate, s.recall);
    var p :| Deserves(p, request, s.candidate, s.recall);
    PointsAtLeast(p, request, s.candidate, s.recall);
  }

  lemma PointsAtLeast(p: Points, request: Request, c: Candidate, recall: Recall)
    requires Deserves(p, request, c, recall)
    ensures FullyRelevant(recall) ==> p.dense == 25 && p.lexical == 15 && p.exact == 20
    ensures p.quality >= 0 && p.speed >= 0 && p.reliability >= 0 && p.communication >= 0 && p.compliance >= 0
    ensures p.price >= 0 && p.time >= 0 && p.capacity >= 0
  {
    hide Share, Fifths;
    ShareAtLeast(p.quality, c.reputation.quality, 100, 5);
    ShareAtLeast(p.speed, c.reputation.speed, 100, 5);
    ShareAtLeast(p.reliability, c.reputation.reliability, 100, 5);
    ShareAtLeast(p.communication, c.reputation.communication, 100, 5);
    ShareAtLeast(p.compliance, c.reputation.compliance, 100, 5);
    FifthsAtLeast(p.capacity, c.maxConcurrency - c.activeCapacity, c.maxConcurrency);
    if 0 < c.estimatedDuration <= request.deadline - request.now {
      FifthsAtLeast(p.time, request.deadline - request.now - c.estimatedDuration, request.deadline - request.now);
    }
    if c.formalPrice.Some? && request.formalBudget.Some? && c.formalPrice.value <= request.formalBudget.value && request.formalBudget.value > 0 {
      NotNegative(p.price, request.formalBudget.value, (request.formalBudget.value - c.formalPrice.value) * 5);
    }
    if FullyRelevant(recall) {
      assert Share(p.dense, 10_000, 10_000, 25) && Share(p.lexical, 10_000, 10_000, 15) && Share(p.exact, 10_000, 10_000, 20);
      ShareAtLeast(p.dense, 10_000, 10_000, 25);
      ShareAtLeast(p.lexical, 10_000, 10_000, 15);
      ShareAtLeast(p.exact, 10_000, 10_000, 20);
    }
  }

  lemma NotNegative(p: int, full: int, value: int)
    requires 0 < full && 0 <= value < full * p + full
    ensures p >= 0
  {
    Multiple(p, full);
    assert full * p == p * full;
  }

  lemma ShareAtLeast(p: int, value: int, full: int, maximum: int)
    requires full > 0 && maximum >= 0 && Share(p, value, full, maximum)
    ensures p >= 0 && (value >= full ==> p == maximum)
  {
    if 0 < value < full {
      assert value * maximum >= 0;
      NotNegative(p, full, value * maximum);
    }
  }

  lemma FifthsAtLeast(p: int, numerator: int, denominator: int)
    requires Fifths(p, numerator, denominator)
    ensures p >= 0
  {
    if 0 < numerator < denominator {
      NotNegative(p, denominator, 5 * numerator + denominator / 2);
    }
  }

  // ---- exclusions ----

  /** When a reason for exclusion applies. */
  predicate Applies(code: Code, fold: Fold, request: Request, c: Candidate) {
    match code
    case AgentIdentityInvalid => Blank(c.agentId) || Blank(c.providerId)
    case SelfProvider => c.providerId == request.publisherId
    case StatusNotActive => c.status != "active"
    case ApprovalRequired => c.approvalStatus != "approved"
    case HealthNotHealthy => c.health != "healthy"
    case HealthCheckStale =>
      !(c.healthCheckedAt.Some? && c.healthCheckedAt.value + 300_000_000_000 >= request.now
        && c.healthValidUntil.Some? && c.healthValidUntil.value > request.now)
    case CapacityUnavailable => !(0 <= c.activeCapacity < c.maxConcurrency)
    case CategoryMismatch => fold(c.category) != fold(request.category)
    case ProtocolMismatch => c.protocolVersion != request.protocolVersion
    case LanguageMismatch => forall i :: 0 <= i < |c.languages| ==> fold(c.languages[i]) != fold(request.language)
    case CapabilityMissing =>
      exists k :: 0 <= k < |request.requiredCapabilities| && Missing(fold, c.capabilities, request.requiredCapabilities[k])
    case RiskNotEligible => c.riskStatus != "eligible"
    case ReputationUnavailable =>
      var r := c.reputation;
      !(c.reputationAvailable && 0 <= r.quality <= 100 && 0 <= r.speed <= 100 && 0 <= r.reliability <= 100
        && 0 <= r.communication <= 100 && 0 <= r.compliance <= 100)
    case PayoutAddressInvalid =>
      !(|c.payoutAddress| == 42 && c.payoutAddress[0] == '0' && c.payoutAddress[1] == 'x'
        && forall i :: 2 <= i < 42 ==> IsHex(c.payoutAddress[i]))
    case VectorVersionMismatch => c.vectorVersion != request.vectorVersion
    case DeadlineUnavailable => c.estimatedDuration <= 0 || request.now + c.estimatedDuration > request.deadline
    case PriceInvalid => !Priced(c)
    case OverviewBudgetExceeded => Priced(c) && !Affords(request.overviewBudget, c.overviewPrice)
    case FormalBudgetExceeded => Priced(c) && !Affords(request.formalBudget, c.formalPrice)
    case ExternalCostExceeded => Priced(c) && !Affords(request.externalCostCap, c.externalCostCap)
  }

  predicate Missing(fold: Fold, values: seq<string>, wanted: string) {
    forall i :: 0 <= i < |values| ==> fold(values[i]) != fold(wanted)
  }

  predicate Priced(c: Candidate) {
    c.overviewPrice.Some? && c.formalPrice.Some? && c.externalCostCap.Some?
  }

  predicate Affords(budget: Option<nat>, price: Option<nat>) {
    budget.Some? && price.Some? && price.value <= budget.value
  }

  lemma GatesApply(fold: Fold, request: Request, c: Candidate)
    ensures HealthStale(request, c) <==> Applies(HealthCheckStale, fold, request, c)
    ensures !ContainsFold(fold, c.languages, request.language) <==> Applies(LanguageMismatch, fold, request, c)
    ensures !ContainsAllFold(fold, c.capabilities, request.requiredCapabilities) <==> Applies(CapabilityMissing, fold, request, c)
    ensures !c.reputationAvailable || !ValidReputation(c.reputation) <==> Applies(ReputationUnavailable, fold, request, c)
    ensures !WalletAddress(c.payoutAddress) <==> Applies(PayoutAddressInvalid, fold, request, c)
  {
    WalletIs(c.payoutAddress);
    assert forall wanted :: ContainsFold(fold, c.capabilities, wanted) <==> !Missing(fold, c.capabilities, wanted);
    hide ContainsFold, Missing, WalletAddress;
    assert !ContainsFold(fold, c.languages, request.language) <==> Missing(fold, c.languages, request.language) by {
      MissingIs(fold, c.languages, request.language);
    }
    MissingUnfolds(fold, c.languages, request.language);
  }

  lemma MissingIs(fold: Fold, values: seq<string>, wanted: string)
    ensures ContainsFold(fold, values, wanted) <==> !Missing(fold, values, wanted)
  {
  }

  lemma MissingUnfolds(fold: Fold, values: seq<string>, wanted: string)
    ensures Missing(fold, values, wanted) <==> forall i :: 0 <= i < |values| ==> fold(values[i]) != fold(wanted)
  {
  }

  lemma WalletIs(address: string)
    ensures WalletAddress(address) <==>
      |address| == 42 && address[0] == '0' && address[1] == 'x' && forall i :: 2 <= i < 42 ==> IsHex(address[i])
  {
    var prefix := "0x";
    assert |address| == 42 ==> (address[..2] == prefix <==> address[0] == prefix[0] && address[1] == prefix[1]);
  }

  lemma InStanding(fold: Fold, request: Request, c: Candidate, code: Code)
    ensures code in StandingReasons(request, c) <==>
      code in {AgentIdentityInvalid, SelfProvider, StatusNotActive, ApprovalRequired, HealthNotHealthy, HealthCheckStale}
      && Applies(code, fold, request, c)
  {
    GatesApply(fold, request, c);
    hide HealthStale, Blank, ContainsFold, ContainsAllFold, Missing, ValidReputation, WalletAddress, IsHex, Priced, Affords;
  }

  lemma InFitness(fold: Fold, request: Request, c: Candidate, code: Code)
    ensures code in FitnessReasons(fold, request, c) <==>
      code in {CapacityUnavailable, CategoryMismatch, ProtocolMismatch, LanguageMismatch, CapabilityMissing}
      && Applies(code, fold, request, c)
  {
    GatesApply(fold, request, c);
    hide HealthStale, Blank, ContainsFold, ContainsAllFold, Missing, ValidReputation, WalletAddress, IsHex, Priced, Affords;
  }

  lemma InTrust(fold: Fold, request: Request, c: Candidate, code: Code)
    ensures code in TrustReasons(request, c) <==>
      code in {RiskNotEligible, ReputationUnavailable, PayoutAddressInvalid, VectorVersionMismatch, DeadlineUnavailable}
      && Applies(code, fold, request, c)
  {
    GatesApply(fold, request, c);
    hide HealthStale, Blank, ContainsFold, ContainsAllFold, Missing, ValidReputation, WalletAddress, IsHex, Priced, Affords;
  }

  lemma InPrices(fold: Fold, request: Request, c: Candidate, code: Code)
    ensures code in PriceReasons(request, c) <==>
      code in {PriceInvalid, OverviewBudgetExceeded, FormalBudgetExceeded, ExternalCostExceeded} && Applies(code, fold, request, c)
  {
  }

  /** A candidate is excluded for exactly the reasons that apply to it. */
  lemma {:induction false} ReasonIff(fold: Fold, request: Request, c: Candidate, code: Code)
    ensures code in Reasons(fold, request, c) <==> Applies(code, fold, request, c)
  {
    hide StandingReasons, FitnessReasons, TrustReasons, PriceReasons, Applies;
    InStanding(fold, request, c, code);
    InFitness(fold, request, c, code);
    InTrust(fold, request, c, code);
    InPrices(fold, request, c, code);
  }

  /** Excluded are the candidates to which a reason applies, each with exactly the reasons that do. */
  lemma {:induction false} MatchExcludes(fold: Fold, request: Request, candidates: seq<Candidate>, adapters: seq<Option<Adapter>>,
                                         adjuster: Option<Adjuster>, result: MatchResult, e: Exclusion)
    requires Matches(fold, request, candidates, adapters, adjuster, result)
    ensures e in result.excluded <==>
      && e.candidate in candidates && e.agentId == e.candidate.agentId && e.reasons == Reasons(fold, request, e.candidate)
      && exists code :: Applies(code, fold, request, e.candidate)
  {
    hide Evaluates, Passing, Failing, Qualified, AgentsDiffer, Increasing, Reasons, Applies;
    FilterMembers(fold, request, candidates);
    assert e in result.excluded <==> e in multiset(result.excluded);
    assert e in Failing(fold, request, candidates) <==> e in multiset(Failing(fold, request, candidates));
    SomeReason(fold, request, e.candidate);
  }

  lemma SomeReason(fold: Fold, request: Request, c: Candidate)
    ensures Passes(fold, request, c) <==> !exists code :: Applies(code, fold, request, c)
  {
    var reasons := Reasons(fold, request, c);
    hide Reasons, Applies;
    forall code
      ensures code in reasons <==> Applies(code, fold, request, c)
    {
      ReasonIff(fold, request, c, code);
    }
    if reasons != [] {
      assert reasons[0] in reasons;
    }
  }

  // ---- refusals ----

  /** What a request must say to be matched at all. */
  lemma RequestOkIff(r: Request)
    ensures RequestOk(r) <==>
      !(Blank(r.taskId) || Blank(r.publisherId) || Blank(r.category) || Blank(r.language) || Blank(r.protocolVersion)
        || Blank(r.vectorVersion) || r.now == 0 || r.deadline <= r.now
        || r.overviewBudget == None || r.formalBudget == None || r.externalCostCap == None)
  {
    hide Blank;
  }

  /** A match is refused for a repeated agent exactly when two candidates that fit share an id. */
  lemma {:induction false} DuplicatesIff(fold: Fold, request: Request, candidates: seq<Candidate>)
    ensures AgentsDiffer(Passing(fold, request, candidates)) <==>
      forall i, j :: 0 <= i < j < |candidates| && Fit(fold, request, candidates[i]) && Fit(fold, request, candidates[j]) ==>
        candidates[i].agentId != candidates[j].agentId
    decreases |candidates|
  {
    hide Fit, Passes, Reasons;
    if candidates != [] {
      hide Passing;
      var init, c := candidates[..|candidates| - 1], candidates[|candidates| - 1];
      assert candidates == init + [c];
      DuplicatesIff(fold, request, init);
      FilterMembers(fold, request, init);
      FilterStep(fold, request, init, c);
      forall x: Candidate
        ensures Passes(fold, request, x) <==> Fit(fold, request, x)
      {
        PassesIff(fold, request, x);
      }
      assert forall i :: 0 <= i < |init| ==> candidates[i] == init[i];
      OneMoreDiffers(Passing(fold, request, init), c);
      if !Fit(fold, request, c) {
        assert Passing(fold, request, init) + [] == Passing(fold, request, init);
      }
    }
  }

  lemma OneMoreDiffers(s: seq<Candidate>, c: Candidate)
    ensures AgentsDiffer(s + [c]) <==> AgentsDiffer(s) && forall x :: x in s ==> x.agentId != c.agentId
  {
    var more := s + [c];
    assert more[|s|] == c && forall i :: 0 <= i < |s| ==> more[i] == s[i];
    if AgentsDiffer(more) {
      forall x | x in s
        ensures x.agentId != c.agentId
      {
        var i :| 0 <= i < |s| && s[i] == x;
        assert more[i].agentId != more[|s|].agentId;
      }
      forall i, j | 0 <= i < j < |s|
        ensures s[i].agentId != s[j].agentId
      {
        assert more[i].agentId != more[j].agentId;
      }
    }
  }

  // ---- notices ----

  predicate Named(adapter: Option<Adapter>, name: string) {
    adapter.Some? && adapter.value.channel == name
  }

  /** An adapter is at fault: of no channel, not its channel's first, without an answer, or with a hit that does not count. */
  predicate AtFault(adapters: seq<Option<Adapter>>, ids: set<string>, i: nat, n: Degradation)
    requires i < |adapters|
  {
    && Named(adapters[i], n.dependency)
    && if n.dependency !in {"dense", "lexical", "exact"} then n.code == "unknown_recall_channel"
       else if exists j :: 0 <= j < i && Named(adapters[j], n.dependency) then n.code == "duplicate_recall_channel"
       else if adapters[i].value.answer.None? then n.code == "recall_unavailable"
       else n.code == "invalid_recall_hit" && exists k :: 0 <= k < |adapters[i].value.answer.value| && !Counts(adapters[i].value.answer.value[k], ids)
  }

  predicate NobodyOn(adapters: seq<Option<Adapter>>, n: Degradation) {
    && n.code == "recall_not_configured" && n.dependency in {"dense", "lexical", "exact"}
    && forall i :: 0 <= i < |adapters| ==> !Named(adapters[i], n.dependency)
  }

  lemma NoticeIs(adapters: seq<Option<Adapter>>, ids: set<string>, i: nat, n: Degradation)
    requires i < |adapters|
    ensures NoticeOf(adapters[..i], adapters[i], ids) == Some(n) <==> AtFault(adapters, ids, i, n)
  {
    if adapters[i].Some? {
      var name := adapters[i].value.channel;
      var channel := ChannelNamed(name);
      if channel.Some? {
        SpokenIs(adapters, i, name, channel.value);
        if adapters[i].value.answer.Some? {
          InvalidHits(adapters[i].value.answer.value, ids);
        }
      }
      hide SpokenFor, SaysInvalid, Counts;
    }
  }

  lemma InvalidHits(hits: seq<Hit>, ids: set<string>)
    ensures SaysInvalid(hits, ids) <==> exists k :: 0 <= k < |hits| && !Counts(hits[k], ids)
  {
    assert forall h :: ValidHit(h, ids) <==> Counts(h, ids);
    hide ValidHit, Counts;
  }

  lemma SpokenIs(adapters: seq<Option<Adapter>>, i: nat, name: string, channel: Channel)
    requires i <= |adapters| && ChannelNamed(name) == Some(channel)
    ensures SpokenFor(adapters[..i], channel) <==> exists j :: 0 <= j < i && Named(adapters[j], name)
  {
    assert forall a :: Speaks(a, channel) <==> Named(a, name);
    hide Speaks, Named;
  }

  /** The notices about recall: every adapter at fault and every channel without one. */
  lemma {:induction false} RecallNotedIff(adapters: seq<Option<Adapter>>, ids: set<string>, n: Degradation)
    ensures RecallNoted(adapters, ids, n) <==>
      (exists i :: 0 <= i < |adapters| && AtFault(adapters, ids, i, n)) || NobodyOn(adapters, n)
  {
    hide AtFault, NoticeOf;
    forall i | 0 <= i < |adapters|
      ensures NoticeOf(adapters[..i], adapters[i], ids) == Some(n) <==> AtFault(adapters, ids, i, n)
    {
      NoticeIs(adapters, ids, i, n);
    }
    UnconfiguredIff(adapters, n);
    hide Unconfigured, NobodyOn;
  }

  lemma UnconfiguredIff(adapters: seq<Option<Adapter>>, n: Degradation)
    ensures Unconfigured(adapters, n) <==> NobodyOn(adapters, n)
  {
    assert adapters[..|adapters|] == adapters;
    forall channel: Channel
      ensures SpokenFor(adapters, channel) <==> exists j :: 0 <= j < |adapters| && Named(adapters[j], NameOf(channel))
    {
      SpokenIs(adapters, |adapters|, NameOf(channel), channel);
    }
    hide SpokenFor, Named;
    assert Lacks(adapters, Dense, n) || Lacks(adapters, Lexical, n) || Lacks(adapters, Exact, n) <==> NobodyOn(adapters, n);
    assert Unconfigured(adapters, n) <==> Lacks(adapters, Dense, n) || Lacks(adapters, Lexical, n) || Lacks(adapters, Exact, n) by {
      hide Lacks, NobodyOn;
    }
  }

  /** The model gave no answer for this candidate and its rule score. */
  predicate Unanswered(adjuster: Option<Adjuster>, s: ScoredCandidate) {
    adjuster.Some? && adjuster.value(s.candidate, s.score.(modelDelta := 0, rankingScore := 0)).None?
  }

  /** The notices about the model: it is off, or it failed for a scored candidate. */
  predicate ModelAtFault(scored: seq<ScoredCandidate>, adjuster: Option<Adjuster>, n: Degradation) {
    && n.dependency == "ranking_model"
    && if adjuster.None? then n.code == "model_disabled" && scored != []
       else n.code == "model_unavailable" && exists i :: 0 <= i < |scored| && Unanswered(adjuster, scored[i])
  }

  /** What is noted about the model's answer for one scored candidate. */
  function Remark(adjuster: Option<Adjuster>, s: ScoredCandidate): Option<Degradation> {
    if adjuster.None? then Some(Degradation("ranking_model", "model_disabled"))
    else if Unanswered(adjuster, s) then Some(Degradation("ranking_model", "model_unavailable")) else None
  }

  lemma RemarkIs(request: Request, adjuster: Option<Adjuster>, c: Candidate, recall: Recall)
    ensures ModelNotice(request, adjuster, c, recall) == Remark(adjuster, ScoredOf(request, adjuster, c, recall))
  {
    var rule := RuleScore(request, c, recall);
    assert rule.modelDelta == 0 && rule.rankingScore == 0;
    hide RuleScore;
    assert ScoredOf(request, adjuster, c, recall).score.(modelDelta := 0, rankingScore := 0) == rule;
  }

  lemma RemarksAre(scored: seq<ScoredCandidate>, adjuster: Option<Adjuster>, n: Degradation)
    ensures (exists i :: 0 <= i < |scored| && Remark(adjuster, scored[i]) == Some(n)) <==> ModelAtFault(scored, adjuster, n)
  {
    hide Unanswered;
    if adjuster.None? && scored != [] {
      assert Remark(adjuster, scored[0]).Some?;
    }
  }

  function NoticeFor(request: Request, adjuster: Option<Adjuster>, byId: map<string, Candidate>, book: Book, id: string): Option<Degradation> {
    if id in byId && id in book then ModelNotice(request, adjuster, byId[id], book[id]) else None
  }

  lemma NotedFor(request: Request, adjuster: Option<Adjuster>, byId: map<string, Candidate>, book: Book, ids: seq<string>, n: Degradation)
    ensures ModelNoted(request, adjuster, byId, book, ids, n) <==> exists id :: id in ids && NoticeFor(request, adjuster, byId, book, id) == Some(n)
  {
    hide ModelNotice;
    if id :| id in ids && NoticeFor(request, adjuster, byId, book, id) == Some(n) {
      var k :| 0 <= k < |ids| && ids[k] == id;
      assert ModelNotice(request, adjuster, byId[ids[k]], book[ids[k]]) == Some(n);
    }
    if ModelNoted(request, adjuster, byId, book, ids, n) {
      var k :| 0 <= k < |ids| && ids[k] in byId && ids[k] in book && ModelNotice(request, adjuster, byId[ids[k]], book[ids[k]]) == Some(n);
      assert ids[k] in ids && NoticeFor(request, adjuster, byId, book, ids[k]) == Some(n);
    }
  }

  lemma NoticeOfScored(request: Request, adjuster: Option<Adjuster>, byId: map<string, Candidate>, book: Book, s: ScoredCandidate)
    requires var id := s.candidate.agentId; id in byId && id in book && s == ScoredOf(request, adjuster, byId[id], book[id])
    ensures NoticeFor(request, adjuster, byId, book, s.candidate.agentId) == Remark(adjuster, s)
  {
    hide ModelNotice, Remark, ScoredOf;
    var id := s.candidate.agentId;
    RemarkIs(request, adjuster, byId[id], book[id]);
  }

  lemma ModelNotedIff(request: Request, adapters: seq<Option<Adapter>>, adjuster: Option<Adjuster>, byId: map<string, Candidate>, book: Book,
                      result: MatchResult, n: Degradation)
    requires Evaluates(request, adapters, adjuster, byId, book, result) && forall id :: id in byId ==> byId[id].agentId == id
    ensures ModelNoted(request, adjuster, byId, book, Fused(book), n) <==> ModelAtFault(result.scored, adjuster, n)
  {
    hide Reflects, ScoredOf, Fused, ModelAtFault, ModelNoted, Remark, NoticeFor;
    Evaluated(request, adapters, adjuster, byId, book, result);
    hide Evaluates;
    RemarksAre(result.scored, adjuster, n);
    NotedFor(request, adjuster, byId, book, Fused(book), n);
    var ids, scored := Fused(book), result.scored;
    forall i | 0 <= i < |scored|
      ensures scored[i].candidate.agentId in ids
      ensures NoticeFor(request, adjuster, byId, book, scored[i].candidate.agentId) == Remark(adjuster, scored[i])
    {
      assert IsScored(scored, scored[i].candidate.agentId);
      NoticeOfScored(request, adjuster, byId, book, scored[i]);
    }
    if id :| id in ids && NoticeFor(request, adjuster, byId, book, id) == Some(n) {
      assert IsScored(scored, id);
      var i :| 0 <= i < |scored| && scored[i].candidate.agentId == id;
      assert Remark(adjuster, scored[i]) == Some(n);
    }
  }

  /** A match notes exactly what went wrong: in its channels, or with its model. */
  lemma {:induction false} MatchNotes(fold: Fold, request: Request, candidates: seq<Candidate>, adapters: seq<Option<Adapter>>,
                                      adjuster: Option<Adjuster>, result: MatchResult, n: Degradation)
    requires Matches(fold, request, candidates, adapters, adjuster, result)
    ensures n in result.degradations <==>
      || (exists i :: 0 <= i < |adapters| && AtFault(adapters, EligibleIds(fold, request, candidates), i, n))
      || NobodyOn(adapters, n) || ModelAtFault(result.scored, adjuster, n)
  {
    hide Passing, Failing, Qualified, Lookup, AgentsDiffer, AtFault, NobodyOn, ModelAtFault, RecallNoted, ModelNoted, EligibleIds, Fused;
    var byId := Lookup(Passing(fold, request, candidates));
    var book :| Evaluates(request, adapters, adjuster, byId, book, result);
    Eligibles(fold, request, candidates);
    RecallNotedIff(adapters, byId.Keys, n);
    ModelNotedIff(request, adapters, adjuster, byId, book, result, n);
    hide Reflects, ScoredSet, Increasing, Fit;
  }

  // ---- orders ----

  /** Eligible and excluded candidates are listed by agent, notices by what they are about and then by code. */
  lemma {:induction false} ListedInOrder(eligible: seq<Candidate>, excluded: seq<Exclusion>, notices: seq<Degradation>)
    ensures Increasing(ByAgent, eligible) <==>
      forall i, j :: 0 <= i < j < |eligible| ==> Before(eligible[i].agentId, eligible[j].agentId)
    ensures Increasing(ByExcluded, excluded) <==>
      forall i, j :: 0 <= i < j < |excluded| ==> Before(excluded[i].agentId, excluded[j].agentId)
    ensures Increasing(ByNotice, notices) <==>
      forall i, j :: 0 <= i < j < |notices| ==>
        if notices[i].dependency == notices[j].dependency then Before(notices[i].code, notices[j].code)
        else Before(notices[i].dependency, notices[j].dependency)
  {
    assert forall a, b :: ByNotice(a, b) ==> (a.dependency == b.dependency ==> Before(a.code, b.code)) by {
      OneOrder();
    }
    hide Before;
  }

  lemma OneOrder()
    ensures forall a :: !Before(a, a)
  {
    forall a
      ensures !Before(a, a)
    {
      BeforeTotal(a, a);
    }
  }

  /** A match lists its exclusions of distinct candidates and its notices in this order. */
  lemma MatchListsInOrder(fold: Fold, request: Request, candidates: seq<Candidate>, adapters: seq<Option<Adapter>>,
                          adjuster: Option<Adjuster>, result: MatchResult, i: nat, j: nat)
    requires Matches(fold, request, candidates, adapters, adjuster, result) && i < j
    ensures AgentsDiffer(candidates) && j < |result.excluded| ==> Before(result.excluded[i].agentId, result.excluded[j].agentId)
    ensures j < |result.degradations| ==>
      var a, b := result.degradations[i], result.degradations[j];
      if a.dependency == b.dependency then Before(a.code, b.code) else Before(a.dependency, b.dependency)
  {
    hide Passing, Failing, Qualified, Lookup, AgentsDiffer, Reflects, ScoredSet, RecallNoted, ModelNoted, Increasing, Before;
    ListedInOrder([], result.excluded, result.degradations);
  }
}
