/** What every run of dispute commands keeps, for any actors, contexts and clock readings. */
module DisputeRuns {
  import opened Wrappers
  import opened DisputeCase

  /** Three days for evidence, three more for the decision, two more for a review; both sides' leaves hold the same amount. */
  predicate FreezeOk(f: Freeze) {
    && f.evidenceDeadline - f.frozenAt == 72 * HOUR
    && f.decisionDeadline - f.evidenceDeadline == 72 * HOUR
    && f.reviewDeadline - f.decisionDeadline == 48 * HOUR
    && |f.leaves| == 2 && f.leaves[0].cap == f.leaves[1].cap
    && f.leaves[0].account != f.leaves[1].account
  }

  /** No side claims the same kind twice, and every stage has one assignee. */
  predicate RecordsDiffer(c: Case) {
    && (forall i, j :: 0 <= i < j < |c.claims| ==> c.claims[i].side != c.claims[j].side || c.claims[i].kind != c.claims[j].kind)
    && (forall i, j :: 0 <= i < j < |c.assignments| ==> c.assignments[i].stage != c.assignments[j].stage)
  }

  /** What a decision needs: an assignee of its stage, and an award on one of the five tiers. */
  predicate DecisionOk(d: Decision, assignments: seq<Assignment>) {
    match d.kind
    case Initial => Assigned(assignments, "initial", d.decidedBy) && AwardTier(d.award.publisherBps)
    case Review => Assigned(assignments, "review", d.decidedBy) && AwardTier(d.award.publisherBps)
    case Settlement => true
  }

  /** Decisions are made by their assignees, and nobody reviews their own decision. */
  predicate Independent(c: Case) {
    && (forall i :: 0 <= i < |c.decisions| ==> DecisionOk(c.decisions[i], c.assignments))
    && (forall i, j :: 0 <= i < |c.decisions| && 0 <= j < |c.decisions| ==>
          c.decisions[i].kind == Initial && c.decisions[j].kind == Review ==>
            c.decisions[i].decidedBy != c.decisions[j].decidedBy)
    && (Latest(c.decisions, Review).Some? ==> Latest(c.decisions, Initial).Some?)
  }

  /** Object keys and ciphertext digests are never repeated. */
  predicate EvidenceDiffers(evidence: seq<Evidence>) {
    forall i, j :: 0 <= i < j < |evidence| ==>
      evidence[i].input.objectKey != evidence[j].input.objectKey
      && evidence[i].input.ciphertextDigest != evidence[j].input.ciphertextDigest
  }

  predicate CaseOk(c: Case) {
    && (c.freeze.Some? <==> c.state in {Frozen, EvidencePhase, Decided, Final})
    && (c.freeze.Some? ==> FreezeOk(c.freeze.value))
    && (c.state in {SoftLock, Frozen} ==> c.evidence == [])
    && (c.decisions != [] ==> c.state in {Decided, Final})
    && (c.state in {SoftLock, Orphaned} ==> c.evidence == [])
    && EvidenceDiffers(c.evidence)
    && (Latest(c.decisions, Initial).Some? ==> Complete(c.evidence))
    && (c.state == Final ==> c.finalizedAt.Some?)
    && (c.finalizedAt.Some? ==> !c.reputationPending)
  }

  predicate CaseLeads(c: Case, d: Case) {
    && d.id == c.id
    && (c.freeze.Some? ==> d.freeze == c.freeze)
    && c.claims <= d.claims && c.evidence <= d.evidence && c.assignments <= d.assignments && c.decisions <= d.decisions
    && (c.decisions != [] ==> d.evidence == c.evidence)
    && c.aggregateVersion <= d.aggregateVersion
    && (c.finalizedAt.Some? ==> d.finalizedAt.Some?)
    && (!c.reputationPending ==> !d.reputationPending)
  }

  lemma LatestAppend(decisions: seq<Decision>, d: Decision, kind: DecisionKind)
    ensures Latest(decisions + [d], kind) == if d.kind == kind then Some(d) else Latest(decisions, kind)
  {
    assert (decisions + [d])[..|decisions|] == decisions;
  }

  lemma OpenOk(context: Context, actor: string, kind: string, reasonCode: string, statementHash: string, now: int)
    requires OpenCase(context, actor, kind, reasonCode, statementHash, now).Success?
    ensures var c := OpenCase(context, actor, kind, reasonCode, statementHash, now).value;
            CaseOk(c) && RecordsDiffer(c) && Independent(c)
  {
  }

  /** Whatever an accepted command does, it keeps the case consistent and only adds to its records. */
  lemma ChangeKeeps(c: Case, context: Context, actor: string, command: Command, now: int)
    requires CaseOk(c) && now > ZERO && Change(c, context, actor, command, now).Success?
    ensures var d := Change(c, context, actor, command, now).value;
            CaseOk(d) && CaseLeads(c, d) && d.aggregateVersion == c.aggregateVersion
  {
    hide Change, CaseOk, CaseLeads;
    ChangeIsOk(c, context, actor, command, now);
    ChangeLeads(c, context, actor, command, now);
  }

  lemma ChangeIsOk(c: Case, context: Context, actor: string, command: Command, now: int)
    requires CaseOk(c) && now > ZERO && Change(c, context, actor, command, now).Success?
    ensures CaseOk(Change(c, context, actor, command, now).value)
  {
    hide Complete, FindClaim, Claimed, Assigned, StageTaken, SideFor, AwardTier, Latest, Held, EvidenceDiffers;
    NothingDiffers();
    match command
    case Decide(award) =>
      DecisionNeedsFreeze(c, context, actor, award, now);
      LatestAppend(c.decisions, DecisionBy(c, Initial, actor, award, now), Initial);
    case Settle(award, _) => LatestAppend(c.decisions, DecisionBy(c, Settlement, "parties", award, now), Initial);
    case ReviewDecide(award, _, _) => LatestAppend(c.decisions, DecisionBy(c, Review, actor, award, now), Initial);
    case Submit(input) =>
      NoDecisions(c);
      SubmitDiffers(c.evidence, input, actor, now);
    case _ =>
  }

  lemma ChangeLeads(c: Case, context: Context, actor: string, command: Command, now: int)
    requires CaseOk(c) && now > ZERO && Change(c, context, actor, command, now).Success?
    ensures var d := Change(c, context, actor, command, now).value;
            CaseLeads(c, d) && d.aggregateVersion == c.aggregateVersion
  {
    hide Complete, FindClaim, Claimed, Assigned, StageTaken, SideFor, AwardTier, Latest, Held, EvidenceDiffers, FreezeOk;
  }

  lemma NothingDiffers()
    ensures EvidenceDiffers([])
  {
  }

  lemma SubmitDiffers(evidence: seq<Evidence>, input: EvidenceInput, actor: string, now: int)
    requires EvidenceDiffers(evidence) && !Held(evidence, input)
    ensures forall id :: EvidenceDiffers(evidence + [Evidence(id, input, actor, now)])
  {
  }

  lemma NoDecisions(c: Case)
    requires CaseOk(c) && c.state !in {Decided, Final}
    ensures c.decisions == [] && Latest(c.decisions, Initial).None?
  {
  }

  /** An unfrozen case has zero deadlines, which no clock reading satisfies. */
  lemma DecisionNeedsFreeze(c: Case, context: Context, actor: string, award: Award, now: int)
    requires CaseOk(c) && now > ZERO && Change(c, context, actor, Decide(award), now).Success?
    ensures c.freeze.Some? && Complete(c.evidence)
  {
  }

  /** Claims and assignments stay distinct. */
  lemma RecordsKeep(c: Case, context: Context, actor: string, command: Command, now: int)
    requires RecordsDiffer(c) && Change(c, context, actor, command, now).Success?
    ensures RecordsDiffer(Change(c, context, actor, command, now).value)
  {
    hide Complete, FindClaim, Assigned, SideFor, AwardTier, Latest, Held;
  }

  lemma AssignedStays(assignments: seq<Assignment>, a: Assignment, stage: string, actor: string)
    requires Assigned(assignments, stage, actor)
    ensures Assigned(assignments + [a], stage, actor)
  {
    var i :| 0 <= i < |assignments| && assignments[i].stage == stage && assignments[i].assigneeId == actor;
    assert (assignments + [a])[i] == assignments[i];
  }

  /** A stage has one assignee. */
  lemma SameAssignee(c: Case, stage: string, a: string, b: string)
    requires RecordsDiffer(c) && Assigned(c.assignments, stage, a) && Assigned(c.assignments, stage, b)
    ensures a == b
  {
  }

  lemma {:induction false} LatestIs(decisions: seq<Decision>, kind: DecisionKind)
    requires Latest(decisions, kind).Some?
    ensures exists i :: 0 <= i < |decisions| && decisions[i] == Latest(decisions, kind).value && decisions[i].kind == kind
    decreases |decisions|
  {
    var last := |decisions| - 1;
    if decisions[last].kind != kind {
      LatestIs(decisions[..last], kind);
      var i :| 0 <= i < last && decisions[..last][i] == Latest(decisions, kind).value;
      assert decisions[i] == Latest(decisions, kind).value;
    }
  }

  /** All initial decisions are made by the same person. */
  lemma InitialDecider(c: Case, i: nat)
    requires RecordsDiffer(c) && Independent(c) && i < |c.decisions| && c.decisions[i].kind == Initial
    ensures Latest(c.decisions, Initial).Some? && Latest(c.decisions, Initial).value.decidedBy == c.decisions[i].decidedBy
  {
    hide Assigned, AwardTier, RecordsDiffer;
    LatestFinds(c.decisions, i);
    LatestIs(c.decisions, Initial);
    var k :| 0 <= k < |c.decisions| && c.decisions[k] == Latest(c.decisions, Initial).value && c.decisions[k].kind == Initial;
    assert DecisionOk(c.decisions[i], c.assignments) && DecisionOk(c.decisions[k], c.assignments);
    SameAssignee(c, "initial", c.decisions[i].decidedBy, c.decisions[k].decidedBy);
  }

  /** Nobody who made a review makes an initial decision as well. */
  lemma DecidersDoNotReview(c: Case, d: Decision, j: nat)
    requires RecordsDiffer(c) && Independent(c) && DecisionOk(d, c.assignments) && d.kind == Initial
    requires j < |c.decisions| && c.decisions[j].kind == Review
    ensures d.decidedBy != c.decisions[j].decidedBy
  {
    hide Assigned, AwardTier, RecordsDiffer, Latest;
    LatestFinds(c.decisions, j);
    LatestIs(c.decisions, Initial);
    var k :| 0 <= k < |c.decisions| && c.decisions[k] == Latest(c.decisions, Initial).value && c.decisions[k].kind == Initial;
    assert DecisionOk(c.decisions[k], c.assignments);
    SameAssignee(c, "initial", d.decidedBy, c.decisions[k].decidedBy);
  }

  /** One more decision by the assignee of its stage. */
  lemma DecisionKeeps(c: Case, d: Decision)
    requires RecordsDiffer(c) && Independent(c) && DecisionOk(d, c.assignments)
    requires d.kind == Review ==> Latest(c.decisions, Initial).Some? && Latest(c.decisions, Initial).value.decidedBy != d.decidedBy
    ensures Independent(c.(decisions := c.decisions + [d]))
  {
    hide RecordsDiffer, DecisionOk, Latest;
    LatestAppend(c.decisions, d, Initial);
    LatestAppend(c.decisions, d, Review);
    var longer := c.decisions + [d];
    forall i, j | 0 <= i < |longer| && 0 <= j < |longer| && longer[i].kind == Initial && longer[j].kind == Review
      ensures longer[i].decidedBy != longer[j].decidedBy
    {
      if i < |c.decisions| {
        InitialDecider(c, i);
      } else {
        DecidersDoNotReview(c, d, j);
      }
    }
  }

  lemma IndependentKeeps(c: Case, context: Context, actor: string, command: Command, now: int)
    requires RecordsDiffer(c) && Independent(c) && Change(c, context, actor, command, now).Success?
    ensures Independent(Change(c, context, actor, command, now).value)
  {
    hide Complete, FindClaim, Claimed, Held, StageTaken, SideFor, AwardTier, Latest, Assigned, RecordsDiffer;
    var d := Change(c, context, actor, command, now).value;
    match command
    case Assign(stage, assigneeId) =>
      assert d.decisions == c.decisions;
      forall i | 0 <= i < |c.decisions|
        ensures DecisionOk(c.decisions[i], d.assignments)
      {
        assert DecisionOk(c.decisions[i], c.assignments);
        var added := d.assignments[|c.assignments|];
        if c.decisions[i].kind == Initial {
          AssignedStays(c.assignments, added, "initial", c.decisions[i].decidedBy);
        } else if c.decisions[i].kind == Review {
          AssignedStays(c.assignments, added, "review", c.decisions[i].decidedBy);
        }
      }
    case Decide(award) => DecisionKeeps(c, DecisionBy(c, Initial, actor, award, now));
    case Settle(award, _) => DecisionKeeps(c, DecisionBy(c, Settlement, "parties", award, now));
    case ReviewDecide(award, _, _) => DecisionKeeps(c, DecisionBy(c, Review, actor, award, now));
    case _ =>
  }

  datatype Event = Event(context: Context, actor: string, command: Command, now: int)

  predicate Ticking(events: seq<Event>) {
    forall i :: 0 <= i < |events| ==> events[i].now > ZERO
  }

  /** A rejected command leaves the case as it is. */
  function Step(current: Option<Case>, e: Event): Option<Case> {
    match Apply(current, e.context, e.actor, e.command, e.now)
    case Failure(_) => current
    case Success(c) => Some(c)
  }

  function Run(current: Option<Case>, events: seq<Event>): Option<Case> {
    if events == [] then current else Step(Run(current, events[..|events| - 1]), events[|events| - 1])
  }

  predicate Sound(current: Option<Case>) {
    current.Some? ==> CaseOk(current.value) && RecordsDiffer(current.value) && Independent(current.value)
  }

  predicate Leads(a: Option<Case>, b: Option<Case>) {
    a.Some? ==> b.Some? && CaseLeads(a.value, b.value)
  }

  lemma StepKeeps(current: Option<Case>, e: Event)
    requires Sound(current) && e.now > ZERO
    ensures Sound(Step(current, e)) && Leads(current, Step(current, e))
  {
    hide Change, RecordsDiffer, Independent;
    match current
    case None =>
      if e.command.Open? && Step(current, e).Some? {
        OpenOk(e.context, e.actor, e.command.kind, e.command.reasonCode, e.command.statementHash, e.now);
      }
    case Some(c) =>
      if Change(c, e.context, e.actor, e.command, e.now).Success? {
        ChangeKeeps(c, e.context, e.actor, e.command, e.now);
        RecordsKeep(c, e.context, e.actor, e.command, e.now);
        IndependentKeeps(c, e.context, e.actor, e.command, e.now);
        SameRecords(Change(c, e.context, e.actor, e.command, e.now).value, Step(current, e).value);
      }
  }

  lemma SameRecords(c: Case, d: Case)
    requires d.claims == c.claims && d.assignments == c.assignments && d.decisions == c.decisions
    ensures RecordsDiffer(c) ==> RecordsDiffer(d)
    ensures Independent(c) ==> Independent(d)
  {
  }

  lemma {:induction false} RunKeeps(current: Option<Case>, events: seq<Event>)
    requires Sound(current) && Ticking(events)
    ensures Sound(Run(current, events)) && Leads(current, Run(current, events))
    decreases |events|
  {
    hide CaseOk, Step, RecordsDiffer, Independent;
    if events != [] {
      RunKeeps(current, events[..|events| - 1]);
      StepKeeps(Run(current, events[..|events| - 1]), events[|events| - 1]);
    }
  }

  /** At every point of every run: evidence is unique, deadlines keep their distances, and an initial decision rests on all twelve categories. */
  lemma {:induction false} ReachableCases(events: seq<Event>)
    requires Ticking(events) && Run(None, events).Some?
    ensures var c := Run(None, events).value;
            && EvidenceDiffers(c.evidence)
            && (c.freeze.Some? ==> FreezeOk(c.freeze.value))
            && RecordsDiffer(c)
            && (forall i :: 0 <= i < |c.decisions| && c.decisions[i].kind == Initial ==> Complete(c.evidence))
            && (c.state == Final ==> c.freeze.Some? && c.finalizedAt.Some? && !c.reputationPending)
  {
    RunKeeps(None, events);
    var c := Run(None, events).value;
    hide Run, Complete;
    forall i | 0 <= i < |c.decisions| && c.decisions[i].kind == Initial
      ensures Complete(c.evidence)
    {
      LatestFinds(c.decisions, i);
    }
  }

  /** On every run the initial decision and its review are made by the assignees of their stages, who are different people. */
  lemma {:induction false} ReviewIsIndependent(events: seq<Event>, i: nat, j: nat)
    requires Ticking(events) && Run(None, events).Some?
    requires var decisions := Run(None, events).value.decisions;
             i < |decisions| && j < |decisions| && decisions[i].kind == Initial && decisions[j].kind == Review
    ensures var c := Run(None, events).value;
            && Assigned(c.assignments, "initial", c.decisions[i].decidedBy)
            && Assigned(c.assignments, "review", c.decisions[j].decidedBy)
            && c.decisions[i].decidedBy != c.decisions[j].decidedBy
            && AwardTier(c.decisions[i].award.publisherBps) && AwardTier(c.decisions[j].award.publisherBps)
  {
    RunKeeps(None, events);
    hide Run, CaseOk, Assigned, AwardTier;
    var c := Run(None, events).value;
    assert DecisionOk(c.decisions[i], c.assignments) && DecisionOk(c.decisions[j], c.assignments);
  }

  lemma {:induction false} LatestFinds(decisions: seq<Decision>, i: nat)
    requires i < |decisions|
    ensures Latest(decisions, decisions[i].kind).Some?
    decreases |decisions|
  {
    if i < |decisions| - 1 {
      LatestFinds(decisions[..|decisions| - 1], i);
    }
  }

  /**
   Once frozen, a case keeps its root, leaves and deadlines for ever and refuses every further
   confirmation; once decided in any way, its evidence is fixed. Records are only appended.
   */
  lemma {:induction false} LaterCases(early: seq<Event>, late: seq<Event>, next: Event)
    requires Ticking(early) && Ticking(late) && Run(None, early).Some? && next.now > ZERO
    ensures var c := Run(None, early).value; var t := Run(Run(None, early), late);
            && t.Some? && t.value.id == c.id
            && c.claims <= t.value.claims && c.evidence <= t.value.evidence && c.decisions <= t.value.decisions
            && (c.freeze.Some? ==> t.value.freeze == c.freeze)
            && (c.freeze.Some? && next.command.FreezeConfirm? ==>
                  Apply(t, next.context, next.actor, next.command, next.now).Failure?)
            && (c.decisions != [] ==> t.value.evidence == c.evidence)
  {
    hide Run;
    RunKeeps(None, early);
    RunKeeps(Run(None, early), late);
  }

  /** A final case stays final under every command but one: a decision whose guards hold reopens it. */
  lemma FinalIsLeftIff(c: Case, context: Context, actor: string, command: Command, now: int)
    requires CaseOk(c) && c.state == Final && now > ZERO
    ensures var r := Apply(Some(c), context, actor, command, now);
            r.Success? && r.value.state != Final <==> command.Decide? && CanDecide(c, actor, command.award, now)
  {
    hide Complete, FindClaim, Claimed, StageTaken, Latest;
  }

  /** So a case that was decided and then settled in time can be decided again, and is open while marked finalized. */
  lemma SettledCaseCanBeDecidedAgain(c: Case, context: Context, decider: string, award: Award, parties: string, settlement: Award, now: int)
    requires CaseOk(c) && now > ZERO && CanDecide(c, decider, award, now)
    ensures var decided := Apply(Some(c), context, decider, Decide(award), now);
            decided.Success?
            && var settled := Apply(Some(decided.value), context, parties, Settle(settlement, true), now);
            settled.Success? && settled.value.state == Final
            && var again := Apply(Some(settled.value), context, decider, Decide(award), now);
            again.Success? && again.value.state == Decided && again.value.finalizedAt.Some? && !again.value.reputationPending
  {
    hide Complete, Assigned, Latest;
  }

  // A run that reaches such a case

  const PARTIES := Context("task", "assignment", "unit", "publisher", "provider", "wallet", "payout", "10", "USD", true, 1)

  const CLAIM_ID := Digest([Text("claim"), Text("task"), Text("publisher"), Text("quality")])

  const NO_AWARD := Award("none", "root", 0)

  function ByPublisher(command: Command): Event {
    Event(PARTIES, "publisher", command, 1)
  }

  /** A case is opened and frozen, and its first judge is assigned. */
  function FrozenRun(): seq<Event> {
    [ByPublisher(Open("quality", "reason", "statement")), ByPublisher(FreezeSubmit("tx")), ByPublisher(FreezeConfirm("tx")),
     ByPublisher(Assign("initial", "judge"))]
  }

  function Name(n: nat): (s: string)
    ensures |s| == n
  {
    if n == 0 then "" else Name(n - 1) + "x"
  }

  function Piece(k: nat): EvidenceInput
    requires k < |REQUIRED|
  {
    EvidenceInput(CLAIM_ID, REQUIRED[k], Name(k), Name(k), "", "", "", 0)
  }

  /** One piece of evidence for each of the first k required categories. */
  function EvidenceRun(k: nat): seq<Event>
    requires k <= |REQUIRED|
  {
    if k == 0 then FrozenRun() else EvidenceRun(k - 1) + [ByPublisher(Submit(Piece(k - 1)))]
  }

  /** What the case is like after these events. */
  predicate Collecting(current: Option<Case>, k: nat)
    requires k <= |REQUIRED|
  {
    current.Some? && var c := current.value;
    && c.state in {Frozen, EvidencePhase} && c.freeze.Some?
    && c.freeze.value.evidenceDeadline == 1 + 72 * HOUR && c.freeze.value.decisionDeadline == 1 + 144 * HOUR
    && FindClaim(c.claims, CLAIM_ID).Some? && FindClaim(c.claims, CLAIM_ID).value.side == Publisher
    && Assigned(c.assignments, "initial", "judge")
    && |c.evidence| == k && forall i :: 0 <= i < k ==> c.evidence[i].input == Piece(i)
  }

  lemma RunMore(current: Option<Case>, events: seq<Event>, e: Event)
    ensures Run(current, events + [e]) == Step(Run(current, events), e)
  {
    assert (events + [e])[..|events|] == events;
  }

  lemma FrozenRuns()
    ensures Collecting(Run(None, FrozenRun()), 0)
  {
    hide Latest, Complete, Covers, Held;
    var events := FrozenRun();
    assert events[..1] == [] + [events[0]] && events[..2] == events[..1] + [events[1]];
    assert events[..3] == events[..2] + [events[2]] && events == events[..3] + [events[3]];
    RunMore(None, [], events[0]);
    RunMore(None, events[..1], events[1]);
    RunMore(None, events[..2], events[2]);
    RunMore(None, events[..3], events[3]);
    var c := Run(None, events).value;
    assert c.assignments[0].assigneeId == "judge";
  }

  lemma SubmitCollects(current: Option<Case>, k: nat)
    requires k < |REQUIRED| && Collecting(current, k)
    ensures Collecting(Step(current, ByPublisher(Submit(Piece(k)))), k + 1)
  {
    hide FindClaim, Latest, Complete, Assigned;
    assert !Held(current.value.evidence, Piece(k));
  }

  lemma {:induction false} EvidenceRuns(k: nat)
    requires k <= |REQUIRED|
    ensures Collecting(Run(None, EvidenceRun(k)), k) && Ticking(EvidenceRun(k))
  {
    hide Run, Step, Collecting;
    if k == 0 {
      FrozenRuns();
    } else {
      EvidenceRuns(k - 1);
      RunMore(None, EvidenceRun(k - 1), ByPublisher(Submit(Piece(k - 1))));
      SubmitCollects(Run(None, EvidenceRun(k - 1)), k - 1);
    }
  }

  /** After evidence in all twelve categories the assigned judge can decide once the evidence window has closed. */
  lemma DecidableCaseIsReached()
    ensures Ticking(EvidenceRun(|REQUIRED|)) && Run(None, EvidenceRun(|REQUIRED|)).Some?
    ensures CanDecide(Run(None, EvidenceRun(|REQUIRED|)).value, "judge", NO_AWARD, 1 + 72 * HOUR)
  {
    hide Run;
    EvidenceRuns(|REQUIRED|);
    var c := Run(None, EvidenceRun(|REQUIRED|)).value;
    forall k | 0 <= k < |REQUIRED|
      ensures Covers(c.evidence, REQUIRED[k])
    {
      assert c.evidence[k].input.category == REQUIRED[k];
    }
  }

  /** A second review is never accepted, however often the case is decided. */
  lemma {:induction false} ReviewedOnce(early: seq<Event>, late: seq<Event>, next: Event)
    requires Ticking(early) && Ticking(late) && Run(None, early).Some?
    requires Latest(Run(None, early).value.decisions, Review).Some? && next.command.ReviewDecide?
    ensures Apply(Run(Run(None, early), late), next.context, next.actor, next.command, next.now).Failure?
  {
    RunKeeps(None, early);
    RunKeeps(Run(None, early), late);
    var c, t := Run(None, early).value, Run(Run(None, early), late).value;
    hide Run, CaseOk;
    LatestExtends(c.decisions, t.decisions, Review);
  }

  lemma {:induction false} LatestExtends(short: seq<Decision>, long: seq<Decision>, kind: DecisionKind)
    requires short <= long && Latest(short, kind).Some?
    ensures Latest(long, kind).Some?
    decreases |long|
  {
    if |short| < |long| {
      assert short <= long[..|long| - 1];
      LatestExtends(short, long[..|long| - 1], kind);
    } else {
      assert short == long;
    }
  }
}
