/** Requests, candidates and results of services/engine/internal/matching/types.go. */
module MatchTypes {
  import opened Wrappers

  const MAX_RECALL_PER_CHANNEL: nat := 100
  const MAX_SCORED_CANDIDATES: nat := 100
  const MAX_QUALIFIED_POOL: nat := 20
  const QUALIFICATION_FLOOR: int := 60
  const MAXIMUM_SCORE_GAP: int := 10

  type int64 = x: int | -0x8000_0000_0000_0000 <= x <= 0x7FFF_FFFF_FFFF_FFFF

  /** Amounts are parsed; None is a text that is not a canonical decimal amount. */
  datatype Request = Request(
    taskId: string, publisherId: string, category: string, language: string, requiredCapabilities: seq<string>,
    protocolVersion: string, vectorVersion: string,
    overviewBudget: Option<nat>, formalBudget: Option<nat>, externalCostCap: Option<nat>,
    deadline: int, now: int)

  datatype Reputation = Reputation(quality: int64, speed: int64, reliability: int64, communication: int64, compliance: int64)

  datatype Candidate = Candidate(
    agentId: string, providerId: string, status: string, approvalStatus: string, health: string,
    healthCheckedAt: Option<int>, healthValidUntil: Option<int>,
    maxConcurrency: int64, activeCapacity: int64, category: string, languages: seq<string>, capabilities: seq<string>,
    protocolVersion: string, riskStatus: string, payoutAddress: string, vectorVersion: string,
    estimatedDuration: int64, overviewPrice: Option<nat>, formalPrice: Option<nat>, externalCostCap: Option<nat>,
    exposureCount: int, effectiveSamples: int, reputationAvailable: bool, reputation: Reputation)

  datatype Channel = Dense | Lexical | Exact

  datatype Evidence = Evidence(rank: nat, relevance: int)

  type Recall = map<Channel, Evidence>

  datatype Score = Score(
    taskMatch: int, reputation: int, priceTime: int, availability: int,
    ruleScore: int, modelDelta: int, rankingScore: int)

  datatype ScoredCandidate = ScoredCandidate(candidate: Candidate, recall: Recall, score: Score)

  function IdOf(c: ScoredCandidate): string { c.candidate.agentId }

  predicate IdsDiffer(pool: seq<ScoredCandidate>) {
    forall i, j :: 0 <= i < j < |pool| ==> IdOf(pool[i]) != IdOf(pool[j])
  }
}
