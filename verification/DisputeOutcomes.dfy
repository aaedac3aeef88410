/** When every dispute command is accepted and what it changes, with the windows counted from the freeze. */
module DisputeOutcomes {
  import opened Wrappers
  import opened DisputeCase
  import opened DisputeRuns

  const THREE_DAYS: int := 259_200_000_000_000
  const SIX_DAYS: int := 518_400_000_000_000
  const EIGHT_DAYS: int := 691_200_000_000_000

  /** The command is accepted exactly under this condition, and then leaves this case in its next version. */
  predicate Answers(r: Result<Case, Error>, accepted: bool, next: Case, now: int) {
    && (r.Success? <==> accepted)
    && (accepted ==> r.value == next.(aggregateVersion := next.aggregateVersion + 1, updatedAt := now))
  }

  predicate SpeaksFor(context: Context, actor: string, side: Side) {
    (side == Publisher && actor == context.publisherId)
    || (side == Agent && actor == context.agentProviderId && actor != context.publisherId)
  }

  predicate Party(context: Context, actor: string) {
    actor == context.publisherId || actor == context.agentProviderId
  }

  /** A case is opened by one of the parties for an eligible delivery until its deadline, and starts with their claim. */
  lemma {:induction false} OpenOutcome(context: Context, actor: string, command: Command, now: int)
    ensures var r := Apply(None, context, actor, command, now);
      if !command.Open? then r == Failure(NotFound)
      else if !(context.eligible && now <= context.disputeDeadline) then r == Failure(InvalidState)
      else if !Party(context, actor) then r == Failure(Forbidden)
      else
        && r.Success? && var c := r.value;
        && c.state == SoftLock && c.aggregateVersion == 1 && c.reputationPending && c.updatedAt == now && |c.claims| == 1
        && SpeaksFor(context, actor, c.claims[0].side) && c.claims[0].kind == command.kind && c.claims[0].reasonCode == command.reasonCode
        && c.claims[0].statementHash == command.statementHash && c.claims[0].createdAt == now
        && c.evidence == [] && c.assignments == [] && c.decisions == []
        && c.freezeTransaction.None? && c.freezeSubmittedAt.None? && c.freeze.None? && c.finalizedAt.None?
  {
  }

  /** Cases are as different as the assignments and delivery units they are about; a first claim as its task, side and kind. */
  lemma {:induction false} OpenIds(context: Context, actor: string, command: Command, now: int,
                                   other: Context, otherActor: string, otherCommand: Command, later: int)
    requires Apply(None, context, actor, command, now).Success? && Apply(None, other, otherActor, otherCommand, later).Success?
    ensures var c, d := Apply(None, context, actor, command, now).value, Apply(None, other, otherActor, otherCommand, later).value;
      && (c.id == d.id <==> context.assignmentId == other.assignmentId && context.deliveryUnitId == other.deliveryUnitId)
      && (c.claims[0].id == d.claims[0].id <==>
            context.taskId == other.taskId && c.claims[0].side == d.claims[0].side && command.kind == otherCommand.kind)
  {
  }

  /** A further claim is taken before the decision, from a party, once for every side and kind. */
  lemma {:induction false} ClaimOutcome(c: Case, context: Context, actor: string, kind: string, reasonCode: string, statementHash: string, now: int)
    ensures var r := Apply(Some(c), context, actor, AddClaim(kind, reasonCode, statementHash), now);
      var repeated := exists i :: 0 <= i < |c.claims| && SpeaksFor(context, actor, c.claims[i].side) && c.claims[i].kind == kind;
      && (r.Success? <==> c.state !in {Decided, Final} && Party(context, actor) && !repeated)
      && (c.state in {Decided, Final} ==> r == Failure(InvalidState))
      && (c.state !in {Decided, Final} && !Party(context, actor) ==> r == Failure(Forbidden))
      && (c.state !in {Decided, Final} && repeated ==> r == Failure(Conflict))
      && (r.Success? ==>
            |r.value.claims| == |c.claims| + 1 && var claim := r.value.claims[|c.claims|];
            && SpeaksFor(context, actor, claim.side) && claim.kind == kind && claim.reasonCode == reasonCode
            && claim.statementHash == statementHash && claim.createdAt == now
            && Answers(r, true, c.(claims := c.claims + [claim]), now))
  {
    var repeated := exists i :: 0 <= i < |c.claims| && SpeaksFor(context, actor, c.claims[i].side) && c.claims[i].kind == kind;
    forall side
      ensures SideFor(context, actor) == Some(side) <==> SpeaksFor(context, actor, side)
    {
    }
    assert c.state.SoftLock? || c.state.Frozen? || c.state.EvidencePhase? || c.state.Orphaned? || c.state.Decided? || c.state.Final?;
    if Party(context, actor) {
      var side := SideFor(context, actor).value;
      assert Claimed(c.claims, side, kind) <==> repeated;
    }
  }

  lemma {:induction false} FreezeSubmitOutcome(c: Case, context: Context, actor: string, hash: string, now: int)
    ensures var r := Apply(Some(c), context, actor, FreezeSubmit(hash), now);
      && Answers(r, c.state in {SoftLock, Orphaned},
                 c.(freezeTransaction := if |hash| == 0 then None else Some(hash), freezeSubmittedAt := Some(now)), now)
      && (r.Failure? ==> r.error == InvalidState)
  {
  }

  /** The freeze takes effect with the transaction that was submitted and fixes the three windows and both sides' leaves. */
  lemma {:induction false} FreezeConfirmOutcome(c: Case, context: Context, actor: string, hash: string, now: int)
    ensures var r := Apply(Some(c), context, actor, FreezeConfirm(hash), now);
      && (r.Success? <==> c.state in {SoftLock, Orphaned} && c.freezeTransaction == Some(hash))
      && (r == Failure(Conflict) <==> c.state in {SoftLock, Orphaned} && c.freezeTransaction.Some? && c.freezeTransaction != Some(hash))
      && (r.Failure? ==> r.error in {Conflict, InvalidState})
      && (r.Success? ==>
            r.value.freeze.Some? && var f := r.value.freeze.value;
            && f.frozenAt == now && f.evidenceDeadline == now + THREE_DAYS && f.decisionDeadline == now + SIX_DAYS
            && f.reviewDeadline == now + EIGHT_DAYS && |f.leaves| == 2
            && LeafFor(f.leaves[0], 0, context.publisherWallet, "publisher_refund", context.frozenAmount)
            && LeafFor(f.leaves[1], 1, context.agentPayout, "agent_receivable", context.frozenAmount)
            && Answers(r, true, c.(state := Frozen, freeze := Some(f)), now))
  {
  }

  predicate LeafFor(leaf: Leaf, index: nat, owner: string, account: string, cap: string) {
    leaf.index == index && leaf.owner == owner && leaf.account == account && leaf.cap == cap && leaf.kind == "principal"
  }

  /** The claim that a piece of evidence is for: the first one under its id. */
  predicate ClaimAt(c: Case, id: Digest, i: nat) {
    i < |c.claims| && c.claims[i].id == id && forall j :: 0 <= j < i ==> c.claims[j].id != id
  }

  lemma {:induction false} FindsAt(claims: seq<Claim>, id: Digest, i: nat)
    requires i < |claims| && claims[i].id == id && forall j :: 0 <= j < i ==> claims[j].id != id
    ensures FindClaim(claims, id) == Some(claims[i])
    decreases |claims|
  {
    if i > 0 {
      assert claims[0].id != id;
      FindsAt(claims[1..], id, i - 1);
    }
  }

  lemma {:induction false} FindsNone(claims: seq<Claim>, id: Digest)
    requires forall i :: 0 <= i < |claims| ==> claims[i].id != id
    ensures FindClaim(claims, id).None?
    decreases |claims|
  {
    if claims != [] {
      assert claims[0].id != id;
      FindsNone(claims[1..], id);
    }
  }

  predicate Repeats(e: Evidence, input: EvidenceInput) {
    e.input.objectKey == input.objectKey || e.input.ciphertextDigest == input.ciphertextDigest
  }

  /** Evidence is taken for three days from the freeze, from the side whose claim it is for, and no object twice. */
  lemma {:induction false} SubmitOutcome(c: Case, context: Context, actor: string, input: EvidenceInput, now: int, i: nat)
    requires CaseOk(c) && now > ZERO
    ensures var r := Apply(Some(c), context, actor, Submit(input), now);
      var open := c.state in {Frozen, EvidencePhase} && now <= c.freeze.value.frozenAt + THREE_DAYS;
      var repeated := exists k :: 0 <= k < |c.evidence| && Repeats(c.evidence[k], input);
      && (!open ==> r == Failure(InvalidState))
      && (open && (forall k :: 0 <= k < |c.claims| ==> c.claims[k].id != input.claimId) ==> r == Failure(Forbidden))
      && (open && ClaimAt(c, input.claimId, i) ==>
            if !SpeaksFor(context, actor, c.claims[i].side) then r == Failure(Forbidden)
            else if repeated then r == Failure(Conflict)
            else
              && r.Success? && |r.value.evidence| == |c.evidence| + 1 && var e := r.value.evidence[|c.evidence|];
              && e.input == input && e.submittedBy == actor && e.createdAt == now
              && Answers(r, true, c.(state := EvidencePhase, evidence := c.evidence + [e]), now))
  {
    hide FindClaim, EvidenceDiffers, Complete, Latest;
    if ClaimAt(c, input.claimId, i) {
      FindsAt(c.claims, input.claimId, i);
    }
    if forall k :: 0 <= k < |c.claims| ==> c.claims[k].id != input.claimId {
      FindsNone(c.claims, input.claimId);
    }
  }

  /** A stage is assigned once, to somebody who is not a party. */
  lemma {:induction false} AssignOutcome(c: Case, context: Context, actor: string, stage: string, assigneeId: string, now: int)
    ensures var r := Apply(Some(c), context, actor, Assign(stage, assigneeId), now);
      var taken := exists i :: 0 <= i < |c.assignments| && c.assignments[i].stage == stage;
      && (r.Success? <==> !Party(context, assigneeId) && !taken)
      && (r.Failure? ==> r.error == Conflict)
      && (r.Success? ==>
            |r.value.assignments| == |c.assignments| + 1 && var a := r.value.assignments[|c.assignments|];
            && a.stage == stage && a.assigneeId == assigneeId && a.assignedAt == now
            && Answers(r, true, c.(assignments := c.assignments + [a]), now))
  {
  }

  predicate AssignedTo(c: Case, stage: string, actor: string) {
    exists i :: 0 <= i < |c.assignments| && c.assignments[i].stage == stage && c.assignments[i].assigneeId == actor
  }

  /** There is evidence in every one of the twelve named categories. */
  ghost predicate AllCovered(evidence: seq<Evidence>) {
    forall category: Category :: !category.OtherCategory? ==> Shown(evidence, category)
  }

  predicate Shown(evidence: seq<Evidence>, category: Category) {
    exists i :: 0 <= i < |evidence| && evidence[i].input.category == category
  }

  lemma PlaceOf(category: Category) returns (k: nat)
    requires !category.OtherCategory?
    ensures k < |REQUIRED| && REQUIRED[k] == category
  {
    k := match category
      case Specification => 0
      case OverviewResult => 1
      case Acceptance => 2
      case FormalVersions => 3
      case Feedback => 4
      case ChangeOrders => 5
      case Executions => 6
      case Usage => 7
      case Messages => 8
      case Callbacks => 9
      case Fees => 10
      case Policy => 11;
  }

  lemma CompleteIs(evidence: seq<Evidence>)
    ensures Complete(evidence) <==> AllCovered(evidence)
  {
    assert forall category :: Covers(evidence, category) <==> Shown(evidence, category);
    hide Covers, Shown;
    if Complete(evidence) {
      forall category: Category | !category.OtherCategory?
        ensures Shown(evidence, category)
      {
        var k := PlaceOf(category);
        assert Covers(evidence, REQUIRED[k]);
      }
    }
  }

  predicate OnTier(bps: int) {
    0 <= bps <= 10_000 && bps % 2_500 == 0
  }

  predicate Adds(c: Case, r: Result<Case, Error>, kind: DecisionKind, decider: string, award: Award, now: int) {
    && r.Success? && |r.value.decisions| == |c.decisions| + 1 && var d := r.value.decisions[|c.decisions|];
    && d.kind == kind && d.decidedBy == decider && d.award == award && d.createdAt == now
    && r.value.decisions == c.decisions + [d]
  }

  /** The first judge decides between the third and the sixth day, on complete evidence and on one of the five tiers. */
  lemma {:induction false} DecideOutcome(c: Case, context: Context, actor: string, award: Award, now: int)
    requires CaseOk(c) && now > ZERO
    ensures var r := Apply(Some(c), context, actor, Decide(award), now);
      var due := c.freeze.Some? && c.freeze.value.frozenAt + THREE_DAYS <= now <= c.freeze.value.frozenAt + SIX_DAYS && AssignedTo(c, "initial", actor);
      && (r == Failure(InvalidState) <==> !due)
      && (r == Failure(EvidenceIncomplete) <==> due && !(AllCovered(c.evidence) && OnTier(award.publisherBps)))
      && (due && AllCovered(c.evidence) && OnTier(award.publisherBps) ==>
            Adds(c, r, Initial, actor, award, now) && Answers(r, true, c.(state := Decided, decisions := r.value.decisions), now))
  {
    CompleteIs(c.evidence);
    hide Complete, AllCovered, EvidenceDiffers, Latest;
  }

  /** The parties settle a frozen case by a verified settlement at any time before it is final, and that ends it. */
  lemma {:induction false} SettleOutcome(c: Case, context: Context, actor: string, award: Award, verified: bool, now: int)
    ensures var r := Apply(Some(c), context, actor, Settle(award, verified), now);
      && (c.state in {Frozen, EvidencePhase, Decided} && verified ==>
            && Adds(c, r, Settlement, "parties", award, now)
            && Answers(r, true, c.(state := Final, decisions := r.value.decisions, finalizedAt := Some(now), reputationPending := false), now))
      && (!(c.state in {Frozen, EvidencePhase, Decided} && verified) ==> r == Failure(InvalidState))
  {
  }

  /** The decision of this kind that the case has last. */
  predicate LastOf(c: Case, kind: DecisionKind, i: nat) {
    i < |c.decisions| && c.decisions[i].kind == kind && forall j :: i < j < |c.decisions| ==> c.decisions[j].kind != kind
  }

  lemma {:induction false} LatestAt(decisions: seq<Decision>, kind: DecisionKind, i: nat)
    requires i < |decisions| && decisions[i].kind == kind && forall j :: i < j < |decisions| ==> decisions[j].kind != kind
    ensures Latest(decisions, kind) == Some(decisions[i])
    decreases |decisions|
  {
    if i < |decisions| - 1 {
      assert decisions[|decisions| - 1].kind != kind;
      LatestAt(decisions[..|decisions| - 1], kind, i);
    }
  }

  predicate Has(c: Case, kind: DecisionKind) {
    exists i :: 0 <= i < |c.decisions| && c.decisions[i].kind == kind
  }

  lemma {:induction false} LatestIff(decisions: seq<Decision>, kind: DecisionKind)
    ensures Latest(decisions, kind).Some? <==> exists i :: 0 <= i < |decisions| && decisions[i].kind == kind
  {
    if Latest(decisions, kind).Some? {
      LatestIs(decisions, kind);
    }
    if i :| 0 <= i < |decisions| && decisions[i].kind == kind {
      LatestFinds(decisions, i);
    }
  }

  /** Who may review: the assigned reviewer the command names, who did not make the last first decision, with the fee and in time. */
  predicate Reviewable(c: Case, actor: string, award: Award, reviewAssignee: string, feeAuthorized: bool, now: int, i: nat)
    requires i < |c.decisions| && c.freeze.Some?
  {
    && c.state == Decided && now <= c.freeze.value.frozenAt + EIGHT_DAYS && feeAuthorized
    && actor == reviewAssignee && reviewAssignee != c.decisions[i].decidedBy && AssignedTo(c, "review", actor) && OnTier(award.publisherBps)
  }

  /** One review ends a decided case, within eight days of the freeze. */
  lemma {:induction false} ReviewOutcome(c: Case, context: Context, actor: string, award: Award, reviewAssignee: string, feeAuthorized: bool, now: int, i: nat)
    requires CaseOk(c) && now > ZERO
    ensures var r := Apply(Some(c), context, actor, ReviewDecide(award, reviewAssignee, feeAuthorized), now);
      && (c.state != Decided || !Has(c, Initial) ==> r == Failure(InvalidState))
      && (c.state == Decided && LastOf(c, Initial, i) ==>
            if !Reviewable(c, actor, award, reviewAssignee, feeAuthorized, now, i) then r == Failure(InvalidState)
            else if Has(c, Review) then r == Failure(Conflict)
            else
              && Adds(c, r, Review, actor, award, now)
              && Answers(r, true, c.(state := Final, decisions := r.value.decisions, finalizedAt := Some(now), reputationPending := false), now))
  {
    hide Complete, EvidenceDiffers, Latest;
    LatestIff(c.decisions, Initial);
    LatestIff(c.decisions, Review);
    if LastOf(c, Initial, i) {
      LatestAt(c.decisions, Initial, i);
    }
  }

  /** A decided case becomes final without a review once eight days have passed since the freeze. */
  lemma {:induction false} FinalizeOutcome(c: Case, context: Context, actor: string, now: int)
    requires CaseOk(c) && now > ZERO
    ensures var r := Apply(Some(c), context, actor, Finalize, now);
      && Answers(r, c.state == Decided && now >= c.freeze.value.frozenAt + EIGHT_DAYS,
                 c.(state := Final, finalizedAt := Some(now), reputationPending := false), now)
      && (r.Failure? ==> r.error == InvalidState)
  {
    hide Complete, EvidenceDiffers, Latest;
  }

  // ---- identifiers ----

  /** Freezes are told apart by their transactions, and their roots by the case and the frozen amount. */
  lemma {:induction false} FreezeIds(c: Case, context: Context, actor: string, hash: string, now: int,
                                     d: Case, other: Context, otherActor: string, otherHash: string, later: int)
    requires Apply(Some(c), context, actor, FreezeConfirm(hash), now).Success?
    requires Apply(Some(d), other, otherActor, FreezeConfirm(otherHash), later).Success?
    ensures var f, g := Apply(Some(c), context, actor, FreezeConfirm(hash), now).value.freeze.value,
                        Apply(Some(d), other, otherActor, FreezeConfirm(otherHash), later).value.freeze.value;
      && (f.eventId == g.eventId <==> hash == otherHash)
      && (f.root == g.root <==> c.id == d.id && context.frozenAmount == other.frozenAmount)
  {
  }

  predicate Decides(command: Command, kind: DecisionKind) {
    (command.Decide? && kind == Initial) || (command.Settle? && kind == Settlement) || (command.ReviewDecide? && kind == Review)
  }

  /** Decisions are told apart by their cases and kinds. */
  lemma {:induction false} DecisionIds(c: Case, context: Context, actor: string, command: Command, kind: DecisionKind, now: int,
                                       d: Case, other: Context, otherActor: string, otherCommand: Command, otherKind: DecisionKind, later: int)
    requires Decides(command, kind) && Apply(Some(c), context, actor, command, now).Success?
    requires Decides(otherCommand, otherKind) && Apply(Some(d), other, otherActor, otherCommand, later).Success?
    ensures var x, y := Apply(Some(c), context, actor, command, now).value.decisions,
                        Apply(Some(d), other, otherActor, otherCommand, later).value.decisions;
      && |x| == |c.decisions| + 1 && |y| == |d.decisions| + 1
      && (x[|c.decisions|].id == y[|d.decisions|].id <==> c.id == d.id && kind == otherKind)
  {
    hide Complete, Assigned, Latest, AwardTier;
    DecisionIdIs(c, context, actor, command, kind, now);
    DecisionIdIs(d, other, otherActor, otherCommand, otherKind, later);
  }

  lemma DecisionIdIs(c: Case, context: Context, actor: string, command: Command, kind: DecisionKind, now: int)
    requires Decides(command, kind) && Apply(Some(c), context, actor, command, now).Success?
    ensures var x := Apply(Some(c), context, actor, command, now).value.decisions;
      && |x| == |c.decisions| + 1 && x[|c.decisions|].id.Digest?
      && x[|c.decisions|].id.parts == [Text("decision"), Nested(c.id), Text(if kind == Initial then "initial" else if kind == Review then "review" else "settlement")]
  {
    hide Complete, Assigned, Latest, AwardTier;
  }
}
