/** The hard filter of services/engine/internal/matching/filter.go. */
module MatchFilter {
  import opened Wrappers
  import opened Text
  import opened Sequences
  import opened Ranking
  import opened MatchTypes

  datatype Code =
    | AgentIdentityInvalid | SelfProvider | StatusNotActive | ApprovalRequired | HealthNotHealthy | HealthCheckStale
    | CapacityUnavailable | CategoryMismatch | ProtocolMismatch | LanguageMismatch | CapabilityMissing | RiskNotEligible
    | ReputationUnavailable | PayoutAddressInvalid | VectorVersionMismatch | DeadlineUnavailable | PriceInvalid
    | OverviewBudgetExceeded | FormalBudgetExceeded | ExternalCostExceeded

  datatype Exclusion = Exclusion(agentId: string, candidate: Candidate, reasons: seq<Code>)

  const HEALTH_FRESHNESS: int := 5 * 60 * 1_000_000_000

  /** Trimming and case folding, which two texts must agree under. */
  type Fold = string -> string

  predicate ContainsFold(fold: Fold, values: seq<string>, target: string) {
    exists i :: 0 <= i < |values| && fold(values[i]) == fold(target)
  }

  predicate ContainsAllFold(fold: Fold, values: seq<string>, required: seq<string>) {
    forall i :: 0 <= i < |required| ==> ContainsFold(fold, values, required[i])
  }

  predicate Percent(value: int) { 0 <= value <= 100 }

  predicate ValidReputation(r: Reputation) {
    Percent(r.quality) && Percent(r.speed) && Percent(r.reliability) && Percent(r.communication) && Percent(r.compliance)
  }

  predicate WalletAddress(value: string) {
    |value| == 42 && value[..2] == "0x" && forall i :: 2 <= i < 42 ==> IsHex(value[i])
  }

  predicate HealthStale(request: Request, c: Candidate) {
    c.healthCheckedAt.None? || c.healthValidUntil.None? || c.healthCheckedAt.value < request.now - HEALTH_FRESHNESS
    || c.healthValidUntil.value <= request.now
  }

  predicate Exceeds(price: Option<nat>, budget: Option<nat>) {
    price.None? || budget.None? || price.value > budget.value
  }

  function If(condition: bool, code: Code): seq<Code> {
    if condition then [code] else []
  }

  function PriceReasons(request: Request, c: Candidate): seq<Code> {
    if c.overviewPrice.None? || c.formalPrice.None? || c.externalCostCap.None? then [PriceInvalid]
    else
      If(Exceeds(c.overviewPrice, request.overviewBudget), OverviewBudgetExceeded) +
      If(Exceeds(c.formalPrice, request.formalBudget), FormalBudgetExceeded) +
      If(Exceeds(c.externalCostCap, request.externalCostCap), ExternalCostExceeded)
  }

  function StandingReasons(request: Request, c: Candidate): seq<Code> {
    If(Blank(c.agentId) || Blank(c.providerId), AgentIdentityInvalid) +
    If(c.providerId == request.publisherId, SelfProvider) +
    If(c.status != "active", StatusNotActive) +
    If(c.approvalStatus != "approved", ApprovalRequired) +
    If(c.health != "healthy", HealthNotHealthy) +
    If(HealthStale(request, c), HealthCheckStale)
  }

  function FitnessReasons(fold: Fold, request: Request, c: Candidate): seq<Code> {
    If(c.maxConcurrency < 1 || c.activeCapacity < 0 || c.activeCapacity >= c.maxConcurrency, CapacityUnavailable) +
    If(fold(c.category) != fold(request.category), CategoryMismatch) +
    If(c.protocolVersion != request.protocolVersion, ProtocolMismatch) +
    If(!ContainsFold(fold, c.languages, request.language), LanguageMismatch) +
    If(!ContainsAllFold(fold, c.capabilities, request.requiredCapabilities), CapabilityMissing)
  }

  function TrustReasons(request: Request, c: Candidate): seq<Code> {
    If(c.riskStatus != "eligible", RiskNotEligible) +
    If(!c.reputationAvailable || !ValidReputation(c.reputation), ReputationUnavailable) +
    If(!WalletAddress(c.payoutAddress), PayoutAddressInvalid) +
    If(c.vectorVersion != request.vectorVersion, VectorVersionMismatch) +
    If(c.estimatedDuration <= 0 || request.now + c.estimatedDuration > request.deadline, DeadlineUnavailable)
  }

  /** Why a candidate is excluded, in the source's order; none when it is eligible. */
  function Reasons(fold: Fold, request: Request, c: Candidate): seq<Code> {
    StandingReasons(request, c) + FitnessReasons(fold, request, c) + TrustReasons(request, c) + PriceReasons(request, c)
  }

  predicate Passes(fold: Fold, request: Request, c: Candidate) {
    Reasons(fold, request, c) == []
  }

  /** Who is eligible, stated by what must hold. */
  predicate Fit(fold: Fold, request: Request, c: Candidate) {
    && !Blank(c.agentId) && !Blank(c.providerId) && c.providerId != request.publisherId
    && c.status == "active" && c.approvalStatus == "approved" && c.riskStatus == "eligible"
    && c.health == "healthy" && !HealthStale(request, c)
    && 0 <= c.activeCapacity < c.maxConcurrency
    && fold(c.category) == fold(request.category) && ContainsFold(fold, c.languages, request.language)
    && ContainsAllFold(fold, c.capabilities, request.requiredCapabilities)
    && c.protocolVersion == request.protocolVersion && c.vectorVersion == request.vectorVersion
    && c.reputationAvailable && ValidReputation(c.reputation) && WalletAddress(c.payoutAddress)
    && 0 < c.estimatedDuration <= request.deadline - request.now
    && !Exceeds(c.overviewPrice, request.overviewBudget) && !Exceeds(c.formalPrice, request.formalBudget)
    && !Exceeds(c.externalCostCap, request.externalCostCap)
  }

  /** Collecting reasons excludes exactly the candidates that are not fit. */
  lemma PassesIff(fold: Fold, request: Request, c: Candidate)
    ensures Passes(fold, request, c) <==> Fit(fold, request, c)
  {
    hide Blank, HealthStale, ContainsFold, ContainsAllFold, ValidReputation, WalletAddress;
    assert PriceReasons(request, c) == [] <==>
           !Exceeds(c.overviewPrice, request.overviewBudget) && !Exceeds(c.formalPrice, request.formalBudget)
           && !Exceeds(c.externalCostCap, request.externalCostCap) by {
      PricesIff(request, c);
    }
    hide PriceReasons, Exceeds;
    assert |Reasons(fold, request, c)| == 0 <==> Reasons(fold, request, c) == [];
  }

  lemma PricesIff(request: Request, c: Candidate)
    ensures PriceReasons(request, c) == [] <==>
            !Exceeds(c.overviewPrice, request.overviewBudget) && !Exceeds(c.formalPrice, request.formalBudget)
            && !Exceeds(c.externalCostCap, request.externalCostCap)
  {
    assert |PriceReasons(request, c)| == 0 <==> PriceReasons(request, c) == [];
  }

  lemma PassesHasIdentity(fold: Fold, request: Request, c: Candidate)
    requires Passes(fold, request, c)
    ensures !Blank(c.agentId) && !Blank(c.providerId)
  {
    PassesIff(fold, request, c);
    hide Passes;
  }

  predicate ByAgent(a: Candidate, b: Candidate) { Before(a.agentId, b.agentId) }

  predicate ByExcluded(a: Exclusion, b: Exclusion) { Before(a.agentId, b.agentId) }

  lemma AgentOrders()
    ensures Strict(ByAgent) && Strict(ByExcluded)
  {
    BeforeStrict();
  }

  lemma BeforeStrict()
    ensures forall a :: !Before(a, a)
    ensures forall a, b, c :: Before(a, b) && Before(b, c) ==> Before(a, c)
  {
    forall a
      ensures !Before(a, a)
    {
      BeforeTotal(a, a);
    }
    forall a, b, c | Before(a, b) && Before(b, c)
      ensures Before(a, c)
    {
      BeforeTransitive(a, b, c);
    }
  }

  predicate AgentsDiffer(candidates: seq<Candidate>) {
    forall i, j :: 0 <= i < j < |candidates| ==> candidates[i].agentId != candidates[j].agentId
  }

  function ExclusionOf(fold: Fold, request: Request, c: Candidate): Exclusion {
    Exclusion(c.agentId, c, Reasons(fold, request, c))
  }

  /** The candidates that pass, in input order. */
  function Passing(fold: Fold, request: Request, candidates: seq<Candidate>): seq<Candidate> {
    if candidates == [] then []
    else
      var last := |candidates| - 1;
      Passing(fold, request, candidates[..last]) + if Passes(fold, request, candidates[last]) then [candidates[last]] else []
  }

  /** The exclusions of the others, in input order. */
  function Failing(fold: Fold, request: Request, candidates: seq<Candidate>): seq<Exclusion> {
    if candidates == [] then []
    else
      var last := |candidates| - 1;
      Failing(fold, request, candidates[..last]) +
      if Passes(fold, request, candidates[last]) then [] else [ExclusionOf(fold, request, candidates[last])]
  }

  function CandidatesOf(excluded: seq<Exclusion>): seq<Candidate> {
    seq(|excluded|, i requires 0 <= i < |excluded| => excluded[i].candidate)
  }

  lemma CandidatesAppend(excluded: seq<Exclusion>, e: Exclusion)
    ensures CandidatesOf(excluded + [e]) == CandidatesOf(excluded) + [e.candidate]
  {
  }

  lemma FilterStep(fold: Fold, request: Request, init: seq<Candidate>, c: Candidate)
    ensures Passing(fold, request, init + [c]) == Passing(fold, request, init) + if Passes(fold, request, c) then [c] else []
    ensures Failing(fold, request, init + [c])
         == Failing(fold, request, init) + if Passes(fold, request, c) then [] else [ExclusionOf(fold, request, c)]
  {
    hide Passes, Reasons;
    assert (init + [c])[..|init|] == init;
  }

  lemma OneMore<T>(a: seq<T>, b: seq<T>, s: seq<T>, c: T)
    requires multiset(a) + multiset(b) == multiset(s)
    ensures multiset(a + [c]) + multiset(b) == multiset(s + [c])
    ensures multiset(a) + multiset(b + [c]) == multiset(s + [c])
  {
  }

  /** Every candidate is either eligible or excluded, as often as it was given. */
  lemma {:induction false} FilterPartitions(fold: Fold, request: Request, candidates: seq<Candidate>)
    ensures multiset(Passing(fold, request, candidates)) + multiset(CandidatesOf(Failing(fold, request, candidates)))
         == multiset(candidates)
    decreases |candidates|
  {
    if candidates == [] {
      assert CandidatesOf([]) == [];
    } else {
      hide Passes, Reasons, CandidatesOf, Passing, Failing;
      var init, c := candidates[..|candidates| - 1], candidates[|candidates| - 1];
      assert candidates == init + [c];
      FilterPartitions(fold, request, init);
      FilterStep(fold, request, init, c);
      var passing, failing := Passing(fold, request, init), CandidatesOf(Failing(fold, request, init));
      CandidatesAppend(Failing(fold, request, init), ExclusionOf(fold, request, c));
      OneMore(passing, failing, init, c);
      assert passing + [] == passing;
      assert Failing(fold, request, init) + [] == Failing(fold, request, init);
    }
  }

  lemma {:induction false} FilterMembers(fold: Fold, request: Request, candidates: seq<Candidate>)
    ensures forall c :: c in Passing(fold, request, candidates) <==> c in candidates && Passes(fold, request, c)
    ensures forall e :: e in Failing(fold, request, candidates) <==>
              e.candidate in candidates && !Passes(fold, request, e.candidate) && e == ExclusionOf(fold, request, e.candidate)
    decreases |candidates|
  {
    hide Passes, Reasons;
    if candidates != [] {
      hide Passing, Failing;
      var init, c := candidates[..|candidates| - 1], candidates[|candidates| - 1];
      assert candidates == init + [c];
      FilterMembers(fold, request, init);
      FilterStep(fold, request, init, c);
    }
  }

  predicate ExclusionsDiffer(excluded: seq<Exclusion>) {
    forall i, j :: 0 <= i < j < |excluded| ==> excluded[i].agentId != excluded[j].agentId
  }

  lemma {:induction false} FilterDiffers(fold: Fold, request: Request, candidates: seq<Candidate>)
    requires AgentsDiffer(candidates)
    ensures AgentsDiffer(Passing(fold, request, candidates)) && ExclusionsDiffer(Failing(fold, request, candidates))
    decreases |candidates|
  {
    hide Passes, Reasons;
    if candidates != [] {
      hide Passing, Failing;
      var init, c := candidates[..|candidates| - 1], candidates[|candidates| - 1];
      assert candidates == init + [c];
      assert forall x :: x in init ==> x.agentId != c.agentId;
      assert AgentsDiffer(init);
      hide AgentsDiffer, ExclusionsDiffer;
      FilterDiffers(fold, request, init);
      FilterMembers(fold, request, init);
      FilterStep(fold, request, init, c);
      if Passes(fold, request, c) {
        AgentsAppend(Passing(fold, request, init), c);
        assert Failing(fold, request, init) + [] == Failing(fold, request, init);
      } else {
        ExclusionsAppend(Failing(fold, request, init), ExclusionOf(fold, request, c));
        assert Passing(fold, request, init) + [] == Passing(fold, request, init);
      }
    }
  }

  lemma AgentsAppend(s: seq<Candidate>, c: Candidate)
    requires AgentsDiffer(s) && forall x :: x in s ==> x.agentId != c.agentId
    ensures AgentsDiffer(s + [c])
  {
  }

  lemma ExclusionsAppend(s: seq<Exclusion>, e: Exclusion)
    requires ExclusionsDiffer(s) && forall x :: x in s ==> x.agentId != e.agentId
    ensures ExclusionsDiffer(s + [e])
  {
  }

  /** HardFilter: the passing candidates and the exclusions, each sorted by agent id. */
  method HardFilter(fold: Fold, request: Request, candidates: seq<Candidate>) returns (eligible: seq<Candidate>, excluded: seq<Exclusion>)
    ensures multiset(eligible) == multiset(Passing(fold, request, candidates))
    ensures multiset(excluded) == multiset(Failing(fold, request, candidates))
    ensures AgentsDiffer(candidates) ==> Increasing(ByAgent, eligible) && Increasing(ByExcluded, excluded)
  {
    hide Passes, Reasons;
    eligible, excluded := [], [];
    var i := 0;
    while i < |candidates|
      invariant 0 <= i <= |candidates|
      invariant eligible == Passing(fold, request, candidates[..i]) && excluded == Failing(fold, request, candidates[..i])
    {
      assert candidates[..i + 1][..i] == candidates[..i];
      var reasons := Reasons(fold, request, candidates[i]);
      if |reasons| == 0 {
        assert Passes(fold, request, candidates[i]) by { IsPass(fold, request, candidates[i]); }
        eligible := eligible + [candidates[i]];
      } else {
        assert !Passes(fold, request, candidates[i]) by { IsPass(fold, request, candidates[i]); }
        excluded := excluded + [Exclusion(candidates[i].agentId, candidates[i], reasons)];
      }
      i := i + 1;
    }
    assert candidates[..|candidates|] == candidates;
    SortsApply(fold, request, candidates);
    eligible := SortFunc(ByAgent, eligible);
    excluded := SortFunc(ByExcluded, excluded);
  }

  lemma IsPass(fold: Fold, request: Request, c: Candidate)
    ensures Passes(fold, request, c) <==> |Reasons(fold, request, c)| == 0
  {
  }

  /** With distinct agent ids both orders separate what they sort. */
  lemma SortsApply(fold: Fold, request: Request, candidates: seq<Candidate>)
    ensures Strict(ByAgent) && Strict(ByExcluded)
    ensures AgentsDiffer(candidates) ==>
              var passing, failing := Passing(fold, request, candidates), Failing(fold, request, candidates);
              && Distinct(passing) && Separates(ByAgent, Elements(passing))
              && Distinct(failing) && Separates(ByExcluded, Elements(failing))
  {
    AgentOrders();
    if AgentsDiffer(candidates) {
      FilterDiffers(fold, request, candidates);
      hide Passes, Reasons, Passing, Failing;
      AgentsSeparate(Passing(fold, request, candidates));
      ExclusionsSeparate(Failing(fold, request, candidates));
    }
  }

  lemma AgentsSeparate(s: seq<Candidate>)
    requires AgentsDiffer(s)
    ensures Distinct(s) && Separates(ByAgent, Elements(s))
  {
    forall a, b | a in Elements(s) && b in Elements(s) && a != b
      ensures ByAgent(a, b) || ByAgent(b, a)
    {
      BeforeTotal(a.agentId, b.agentId);
    }
  }

  lemma ExclusionsSeparate(s: seq<Exclusion>)
    requires ExclusionsDiffer(s)
    ensures Distinct(s) && Separates(ByExcluded, Elements(s))
  {
    forall a, b | a in Elements(s) && b in Elements(s) && a != b
      ensures ByExcluded(a, b) || ByExcluded(b, a)
    {
      BeforeTotal(a.agentId, b.agentId);
    }
  }
}
