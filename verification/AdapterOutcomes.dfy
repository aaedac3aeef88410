/** What the agent-side adapter answers to every request and does in every stretch of a process. */
module AdapterOutcomes {
  import opened Wrappers
  import opened AdapterRecords

  // ---- requests ----

  /** A record as a request creates it. */
  predicate Fresh(r: Record, envelope: Envelope) {
    && r.envelope == envelope && r.status == Running && r.phase == Scheduled && !r.aborted
    && r.contentHash.None? && r.deliverableRef.None? && r.errorCode.None?
  }

  /** The id belongs to a new record now; the record it belonged to before, if any, is aborted and otherwise as it was. */
  predicate Takes(s: State, t: State, envelope: Envelope) {
    var id := envelope.identity.logicalId;
    && |t.records| == |s.records| + 1 && Fresh(t.records[|s.records|], envelope) && t.current == s.current[id := |s.records|]
    && forall i :: 0 <= i < |s.records| ==>
         t.records[i] == if id in s.current && s.current[id] == i then s.records[i].(aborted := true) else s.records[i]
  }

  /**
   Work is taken before its deadline, for an id nobody owns or with a higher token than its owner's, as
   long as that one has not succeeded; the same request again is answered with where it stands.
   */
  lemma {:induction false} CreateOutcome(s: State, envelope: Envelope, now: int)
    ensures var (t, r) := Create(s, envelope, now); var id := envelope.identity.logicalId;
      if envelope.identity.deadline.at <= now then t == s && r == Success(Reply(false, Failed, Some("deadline_exceeded")))
      else if id !in s.current then r == Success(Reply(true, Running, None)) && Takes(s, t, envelope)
      else
        var owner := s.records[s.current[id]];
        if owner.envelope.identity == envelope.identity then
          t == s && r == Success(Reply(owner.status in {Running, Succeeded, Failed}, owner.status, None))
        else if owner.status != Succeeded && owner.envelope.identity.fencingToken < envelope.identity.fencingToken then
          r == Success(Reply(true, Running, None)) && Takes(s, t, envelope)
        else t == s && r == Failure(Conflict)
  {
  }

  /** The owner of the envelope's id, under exactly this identity. */
  predicate OwnedBy(s: State, envelope: Envelope, i: nat) {
    && envelope.identity.logicalId in s.current && s.current[envelope.identity.logicalId] == i
    && s.records[i].envelope.identity == envelope.identity
  }

  /** A running owner is cancelled and aborted; asking again, or after an outcome, changes nothing. */
  lemma {:induction false} CancelOutcome(s: State, envelope: Envelope, i: nat)
    ensures var (t, r) := Cancel(s, envelope); var id := envelope.identity.logicalId;
      && (id !in s.current ==> t == s && r == Failure(NotFound))
      && (id in s.current && s.records[s.current[id]].envelope.identity != envelope.identity ==> t == s && r == Failure(Conflict))
      && (OwnedBy(s, envelope, i) ==>
            var owner := s.records[i];
            if owner.status == Running then
              && r == Success(true) && t.current == s.current && |t.records| == |s.records|
              && t.records[i].status == Cancelled && t.records[i].aborted
              && t.records[i].(status := Running, aborted := owner.aborted) == owner
              && forall k :: 0 <= k < |s.records| && k != i ==> t.records[k] == s.records[k]
            else t == s && r == Success(owner.status == Cancelled))
  {
  }

  /** A deliverable is handed out to the owner once it has succeeded with both parts of it. */
  lemma {:induction false} DeliverableOutcome(s: State, envelope: Envelope, i: nat)
    ensures var r := Deliverable(s, envelope); var id := envelope.identity.logicalId;
      && (id !in s.current ==> r == Failure(NotFound))
      && (id in s.current && s.records[s.current[id]].envelope.identity != envelope.identity ==> r == Failure(Conflict))
      && (OwnedBy(s, envelope, i) ==>
            var owner := s.records[i];
            if owner.status == Succeeded && owner.contentHash.Some? && |owner.contentHash.value| > 0
               && owner.deliverableRef.Some? && |owner.deliverableRef.value| > 0
            then r == Success(Artifact(owner.contentHash.value, owner.deliverableRef.value)) else r == Failure(NotReady))
  {
    forall text: Option<string>
      ensures text in {None, Some("")} <==> text.None? || |text.value| == 0
    {
      if text.Some? && |text.value| == 0 {
        assert text.value == "";
      }
    }
  }

  // ---- stretches ----

  /** The record is still running and its id still belongs to it. */
  predicate Live(s: State, i: nat)
    requires i < |s.records|
  {
    && s.records[i].status == Running && s.records[i].envelope.identity.logicalId in s.current
    && s.current[s.records[i].envelope.identity.logicalId] == i
  }

  /** Only this record changes. */
  predicate Replaces(s: State, t: State, i: nat, r: Record)
    requires i < |s.records|
  {
    && t.current == s.current && |t.records| == |s.records| && t.records[i] == r
    && forall k :: 0 <= k < |s.records| && k != i ==> t.records[k] == s.records[k]
  }

  /** A finished process leaves a record without its nonce and without an input that was passed inline. */
  predicate Forgets(before: Record, after: Record) {
    && after.phase == Done && after.envelope.callbackNonce == "consumed"
    && after.envelope.inputRef == (if |before.envelope.inputRef| >= 5 && before.envelope.inputRef[..5] == "data:"
                                   then "consumed:inline-input" else before.envelope.inputRef)
    && after.(phase := before.phase, envelope := after.envelope.(callbackNonce := before.envelope.callbackNonce,
                                                                 inputRef := before.envelope.inputRef)) == before
  }

  predicate Reports(sent: Option<Callback>, before: Record, status: Status, artifact: Option<Artifact>) {
    sent.Some? && var c, id := sent.value, before.envelope.identity;
    && c.logicalId == id.logicalId && c.attemptId == id.attemptId && c.agentId == id.agentId && c.fencingToken == id.fencingToken
    && c.nonce == before.envelope.callbackNonce && c.status == status
    && c.contentHash == (if artifact.Some? then Some(artifact.value.contentHash) else None)
    && c.deliverableRef == (if artifact.Some? then Some(artifact.value.deliverableRef) else None)
  }

  /** The error that ends this stretch: what an await threw, or an overview of more than 64 KiB. */
  predicate Fails(before: Record, w: World, code: string) {
    before.phase in {AwaitInput, AwaitExecutor, AwaitArtifact} &&
    if w.error.Some? then code == w.error.value
    else before.phase == AwaitExecutor && before.envelope.identity.stage == Overview && w.size > 65_536 && code == "input_too_large"
  }

  /** A live record that fails says so, with the code, and reports the failure. */
  lemma {:induction false} FailureOutcome(s: State, i: nat, w: World, code: string)
    requires i < |s.records| && Live(s, i) && Fails(s.records[i], w, code)
    ensures var (t, sent) := Resume(s, i, w); var before := s.records[i];
      && Replaces(s, t, i, before.(status := Failed, errorCode := Some(code), phase := AwaitCallback))
      && Reports(sent, before, Failed, None)
  {
  }

  /** A live record that does not fail goes on to the next await, and after the last one has succeeded with what that returned. */
  lemma {:induction false} ProgressOutcome(s: State, i: nat, w: World)
    requires i < |s.records| && Live(s, i) && w.error.None?
    requires !(s.records[i].phase == AwaitExecutor && s.records[i].envelope.identity.stage == Overview && w.size > 65_536)
    ensures var (t, sent) := Resume(s, i, w); var before := s.records[i];
      match before.phase
      case AwaitInput => sent.None? && Replaces(s, t, i, before.(phase := AwaitExecutor))
      case AwaitExecutor => sent.None? && Replaces(s, t, i, before.(phase := AwaitArtifact))
      case AwaitArtifact =>
        && Replaces(s, t, i, before.(status := Succeeded, phase := AwaitCallback,
                                     contentHash := Some(w.artifact.contentHash), deliverableRef := Some(w.artifact.deliverableRef)))
        && Reports(sent, before, Succeeded, Some(w.artifact))
      case Scheduled => true
      case AwaitCallback => true
      case Done => true
  {
  }

  /** A process that is not live any more at an await, or whose callback has been sent, ends without a trace. */
  lemma {:induction false} EndOutcome(s: State, i: nat, w: World)
    requires i < |s.records|
    requires s.records[i].phase == AwaitCallback || (s.records[i].phase in {AwaitInput, AwaitExecutor, AwaitArtifact} && !Live(s, i))
    ensures var (t, sent) := Resume(s, i, w);
      sent.None? && Replaces(s, t, i, t.records[i]) && Forgets(s.records[i], t.records[i])
  {
  }

  /** A process starts at its first await, aborted at once when its deadline has passed; a finished one does nothing. */
  lemma {:induction false} StartOutcome(s: State, i: nat, w: World)
    requires i < |s.records| && s.records[i].phase in {Scheduled, Done}
    ensures var (t, sent) := Resume(s, i, w); var before := s.records[i];
      && sent.None?
      && (before.phase == Done ==> t == s)
      && (before.phase == Scheduled ==>
            Replaces(s, t, i, before.(phase := AwaitInput, aborted := before.aborted || w.now >= before.envelope.identity.deadline.at)))
  {
    assert s.records[i := s.records[i]] == s.records;
  }

  /** A deadline aborts a process in progress, and touches nothing else. */
  lemma {:induction false} ExpireOutcome(s: State, i: nat, now: int)
    requires i < |s.records|
    ensures var t := Expire(s, i, now); var r := s.records[i];
      if r.phase in {AwaitInput, AwaitExecutor, AwaitArtifact, AwaitCallback} && now >= r.envelope.identity.deadline.at
      then Replaces(s, t, i, r.(aborted := true)) else t == s
  {
  }
}
