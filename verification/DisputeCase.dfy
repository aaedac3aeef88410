/**
 The dispute case machine of services/engine/internal/dispute/state.go. Digests are symbolic:
 two are equal exactly when they were computed from the same parts. Instants are nanoseconds
 from Go's zero time, so an unset deadline is 0 and every clock reading is positive.
 */
module DisputeCase {
  import opened Wrappers

  datatype Part = Text(text: string) | Nested(digest: Digest)

  datatype Digest = NoDigest | Digest(parts: seq<Part>)

  const HOUR: int := 3600 * 1_000_000_000
  const ZERO: int := 0

  datatype Context = Context(
    taskId: string, assignmentId: string, deliveryUnitId: string, publisherId: string, agentProviderId: string,
    publisherWallet: string, agentPayout: string, frozenAmount: string, asset: string, eligible: bool, disputeDeadline: int)

  datatype Side = Publisher | Agent

  datatype Claim = Claim(id: Digest, side: Side, kind: string, reasonCode: string, statementHash: string, createdAt: int)

  datatype Category =
    | Specification | OverviewResult | Acceptance | FormalVersions | Feedback | ChangeOrders | Executions | Usage
    | Messages | Callbacks | Fees | Policy | OtherCategory(name: string)

  const REQUIRED: seq<Category> := [
    Specification, OverviewResult, Acceptance, FormalVersions, Feedback, ChangeOrders, Executions, Usage, Messages, Callbacks, Fees, Policy]

  datatype EvidenceInput = EvidenceInput(
    claimId: Digest, category: Category, objectKey: string, ciphertextDigest: string, envelopeKeyReference: string,
    objectVersionId: string, retentionMode: string, retainUntil: int)

  datatype Evidence = Evidence(id: Digest, input: EvidenceInput, submittedBy: string, createdAt: int)

  datatype Assignment = Assignment(id: Digest, stage: string, assigneeId: string, assignedAt: int)

  datatype DecisionKind = Initial | Settlement | Review

  datatype Award = Award(reasonCode: string, evidenceRoot: string, publisherBps: int)

  datatype Decision = Decision(id: Digest, kind: DecisionKind, decidedBy: string, award: Award, createdAt: int)

  datatype Leaf = Leaf(index: nat, owner: string, account: string, cap: string, kind: string)

  datatype CaseState = SoftLock | Frozen | EvidencePhase | Decided | Final | Orphaned

  /** What freezing fixes. */
  datatype Freeze = Freeze(
    eventId: Digest, root: Digest, frozenAt: int, evidenceDeadline: int, decisionDeadline: int, reviewDeadline: int, leaves: seq<Leaf>)

  datatype Case = Case(
    id: Digest, state: CaseState, aggregateVersion: nat,
    freezeTransaction: Option<string>, freezeSubmittedAt: Option<int>, freeze: Option<Freeze>,
    claims: seq<Claim>, evidence: seq<Evidence>, assignments: seq<Assignment>, decisions: seq<Decision>,
    reputationPending: bool, finalizedAt: Option<int>, updatedAt: int)

  datatype Command =
    | Open(kind: string, reasonCode: string, statementHash: string)
    | AddClaim(claimKind: string, claimReason: string, claimStatement: string)
    | FreezeSubmit(transactionHash: string)
    | FreezeConfirm(confirmedHash: string)
    | Submit(input: EvidenceInput)
    | Assign(stage: string, assigneeId: string)
    | Decide(award: Award)
    | Settle(settlement: Award, verified: bool)
    | ReviewDecide(review: Award, reviewAssignee: string, feeAuthorized: bool)
    | Finalize

  datatype Error = InvalidInput | NotFound | InvalidState | Forbidden | Conflict | EvidenceIncomplete

  function SideFor(c: Context, actor: string): Option<Side> {
    if actor == c.publisherId then Some(Publisher) else if actor == c.agentProviderId then Some(Agent) else None
  }

  function EvidenceDeadline(c: Case): int { if c.freeze.Some? then c.freeze.value.evidenceDeadline else ZERO }

  function DecisionDeadline(c: Case): int { if c.freeze.Some? then c.freeze.value.decisionDeadline else ZERO }

  function ReviewDeadline(c: Case): int { if c.freeze.Some? then c.freeze.value.reviewDeadline else ZERO }

  function FindClaim(claims: seq<Claim>, id: Digest): Option<Claim> {
    if claims == [] then None else if claims[0].id == id then Some(claims[0]) else FindClaim(claims[1..], id)
  }

  predicate Assigned(assignments: seq<Assignment>, stage: string, actor: string) {
    exists i :: 0 <= i < |assignments| && assignments[i].stage == stage && assignments[i].assigneeId == actor
  }

  /** The latest decision of a kind. */
  function Latest(decisions: seq<Decision>, kind: DecisionKind): Option<Decision> {
    if decisions == [] then None
    else if decisions[|decisions| - 1].kind == kind then Some(decisions[|decisions| - 1])
    else Latest(decisions[..|decisions| - 1], kind)
  }

  predicate AwardTier(bps: int) { bps in {0, 2500, 5000, 7500, 10000} }

  predicate Covers(evidence: seq<Evidence>, category: Category) {
    exists i :: 0 <= i < |evidence| && evidence[i].input.category == category
  }

  predicate Complete(evidence: seq<Evidence>) {
    forall k :: 0 <= k < |REQUIRED| ==> Covers(evidence, REQUIRED[k])
  }

  predicate Claimed(claims: seq<Claim>, side: Side, kind: string) {
    exists i :: 0 <= i < |claims| && claims[i].side == side && claims[i].kind == kind
  }

  predicate Held(evidence: seq<Evidence>, input: EvidenceInput) {
    exists i :: 0 <= i < |evidence| &&
      (evidence[i].input.objectKey == input.objectKey || evidence[i].input.ciphertextDigest == input.ciphertextDigest)
  }

  predicate StageTaken(assignments: seq<Assignment>, stage: string) {
    exists i :: 0 <= i < |assignments| && assignments[i].stage == stage
  }

  function OpenCase(context: Context, actor: string, kind: string, reasonCode: string, statementHash: string, now: int): Result<Case, Error> {
    if !context.eligible || now > context.disputeDeadline then Failure(InvalidState)
    else
      match SideFor(context, actor)
      case None => Failure(Forbidden)
      case Some(side) =>
        var id := Digest([Text("claim"), Text(context.taskId), Text(SideName(side)), Text(kind)]);
        Success(Case(Digest([Text("case"), Text(context.assignmentId), Text(context.deliveryUnitId)]), SoftLock, 1, None, None, None,
                     [Claim(id, side, kind, reasonCode, statementHash, now)], [], [], [], true, None, now))
  }

  function SideName(side: Side): string { if side == Publisher then "publisher" else "agent" }

  function FreezeOf(c: Case, context: Context, transactionHash: string, now: int): Freeze {
    Freeze(Digest([Text("freeze-event"), Text(transactionHash)]),
           Digest([Text("freeze-root"), Nested(c.id), Text(context.frozenAmount)]),
           now, now + 72 * HOUR, now + 144 * HOUR, now + 192 * HOUR,
           [Leaf(0, context.publisherWallet, "publisher_refund", context.frozenAmount, "principal"),
            Leaf(1, context.agentPayout, "agent_receivable", context.frozenAmount, "principal")])
  }

  function DecisionBy(c: Case, kind: DecisionKind, decider: string, award: Award, now: int): Decision {
    Decision(Digest([Text("decision"), Nested(c.id), Text(if kind == Initial then "initial" else if kind == Review then "review" else "settlement")]),
             kind, decider, award, now)
  }

  /** finish */
  function Finish(c: Case, now: int): Case {
    c.(state := Final, finalizedAt := Some(now), reputationPending := false)
  }

  predicate CanDecide(c: Case, actor: string, award: Award, now: int) {
    && EvidenceDeadline(c) <= now <= DecisionDeadline(c) && Assigned(c.assignments, "initial", actor)
    && Complete(c.evidence) && AwardTier(award.publisherBps)
  }

  predicate CanReview(c: Case, actor: string, award: Award, reviewAssignee: string, feeAuthorized: bool, now: int) {
    && c.state == Decided && Latest(c.decisions, Initial).Some? && now <= ReviewDeadline(c) && feeAuthorized
    && reviewAssignee != Latest(c.decisions, Initial).value.decidedBy && actor == reviewAssignee
    && Assigned(c.assignments, "review", actor) && AwardTier(award.publisherBps)
  }

  /** The branches of Apply on an existing case, before the version is counted up. */
  function Change(c: Case, context: Context, actor: string, command: Command, now: int): Result<Case, Error> {
    match command
    case Open(_, _, _) => Failure(InvalidInput)
    case AddClaim(kind, reasonCode, statementHash) =>
      if c.state !in {SoftLock, Frozen, EvidencePhase, Orphaned} then Failure(InvalidState)
      else
        (match SideFor(context, actor)
         case None => Failure(Forbidden)
         case Some(side) =>
           if Claimed(c.claims, side, kind) then Failure(Conflict)
           else
             var id := Digest([Text("claim"), Nested(c.id), Text(SideName(side)), Text(kind)]);
             Success(c.(claims := c.claims + [Claim(id, side, kind, reasonCode, statementHash, now)])))
    case FreezeSubmit(transactionHash) =>
      if c.state !in {SoftLock, Orphaned} then Failure(InvalidState)
      else Success(c.(freezeTransaction := if transactionHash == "" then None else Some(transactionHash), freezeSubmittedAt := Some(now)))
    case FreezeConfirm(transactionHash) =>
      if c.state !in {SoftLock, Orphaned} || c.freezeTransaction.None? then Failure(InvalidState)
      else if transactionHash != c.freezeTransaction.value then Failure(Conflict)
      else Success(c.(state := Frozen, freeze := Some(FreezeOf(c, context, transactionHash, now))))
    case Submit(input) =>
      if c.state !in {Frozen, EvidencePhase} || now > EvidenceDeadline(c) then Failure(InvalidState)
      else
        (match FindClaim(c.claims, input.claimId)
         case None => Failure(Forbidden)
         case Some(claim) =>
           if SideFor(context, actor) != Some(claim.side) then Failure(Forbidden)
           else if Held(c.evidence, input) then Failure(Conflict)
           else
             var id := Digest([Text("evidence"), Nested(c.id), Text(input.objectKey), Text(input.ciphertextDigest)]);
             Success(c.(state := EvidencePhase, evidence := c.evidence + [Evidence(id, input, actor, now)])))
    case Assign(stage, assigneeId) =>
      if assigneeId == context.publisherId || assigneeId == context.agentProviderId || StageTaken(c.assignments, stage) then Failure(Conflict)
      else
        var id := Digest([Text("assignment"), Nested(c.id), Text(stage), Text(assigneeId)]);
        Success(c.(assignments := c.assignments + [Assignment(id, stage, assigneeId, now)]))
    case Decide(award) =>
      if now < EvidenceDeadline(c) || now > DecisionDeadline(c) || !Assigned(c.assignments, "initial", actor) then Failure(InvalidState)
      else if !Complete(c.evidence) || !AwardTier(award.publisherBps) then Failure(EvidenceIncomplete)
      else Success(c.(decisions := c.decisions + [DecisionBy(c, Initial, actor, award, now)], state := Decided))
    case Settle(award, verified) =>
      if c.state !in {Frozen, EvidencePhase, Decided} || !verified then Failure(InvalidState)
      else Success(Finish(c.(decisions := c.decisions + [DecisionBy(c, Settlement, "parties", award, now)]), now))
    case ReviewDecide(award, reviewAssignee, feeAuthorized) =>
      if !CanReview(c, actor, award, reviewAssignee, feeAuthorized, now) then Failure(InvalidState)
      else if Latest(c.decisions, Review).Some? then Failure(Conflict)
      else Success(Finish(c.(decisions := c.decisions + [DecisionBy(c, Review, actor, award, now)]), now))
    case Finalize =>
      if c.state != Decided || now < ReviewDeadline(c) then Failure(InvalidState) else Success(Finish(c, now))
  }

  function Apply(current: Option<Case>, context: Context, actor: string, command: Command, now: int): Result<Case, Error> {
    match current
    case None =>
      if command.Open? then OpenCase(context, actor, command.kind, command.reasonCode, command.statementHash, now) else Failure(NotFound)
    case Some(c) =>
      (match Change(c, context, actor, command, now)
       case Failure(e) => Failure(e)
       case Success(d) => Success(d.(aggregateVersion := d.aggregateVersion + 1, updatedAt := now)))
  }
}
