/**
 The agent-side execution adapter of packages/agent-runtime/src/execution-adapter.ts.
 A record object is identified by its index among the records ever created; `current`
 is the map from logical execution ids to the record that owns the id now.
 */
module AdapterRecords {
  import opened Wrappers

  datatype Stage = Overview | Formal

  datatype Deadline = Deadline(text: string, at: int)

  /** Everything that sameIdentity compares. */
  datatype Identity = Identity(
    logicalId: string, attemptId: string, agentId: string, taskId: string, stage: Stage,
    taskSpecHash: string, inputHash: string, responsibilityCode: string, costCap: string,
    deadline: Deadline, idempotencyKey: string, toolPolicy: string, overview: string, formal: string,
    fencingToken: int)

  datatype Envelope = Envelope(identity: Identity, inputRef: string, callbackUrl: string, callbackNonce: string)

  datatype Status = Running | Succeeded | Failed | Cancelled

  /** Where the record's process stands: the await it is suspended at. */
  datatype Phase = Scheduled | AwaitInput | AwaitExecutor | AwaitArtifact | AwaitCallback | Done

  datatype Record = Record(
    envelope: Envelope, status: Status, phase: Phase, aborted: bool,
    contentHash: Option<string>, deliverableRef: Option<string>, errorCode: Option<string>)

  datatype Records = Records(records: seq<Record>, current: map<string, nat>)
  {
    function IdOf(i: nat): string
      requires i < |records|
    {
      records[i].envelope.identity.logicalId
    }

    /** The record still owns its logical execution id. */
    predicate Owns(i: nat)
      requires i < |records|
    {
      IdOf(i) in current && current[IdOf(i)] == i
    }
  }

  type State = s: Records | forall id :: id in s.current ==> s.current[id] < |s.records| witness EMPTY

  const EMPTY := Records([], map[])

  datatype Error = NotFound | Conflict | NotReady

  datatype Reply = Reply(accepted: bool, status: Status, reason: Option<string>)

  datatype Callback = Callback(
    logicalId: string, attemptId: string, agentId: string, fencingToken: int, status: Status, nonce: string,
    contentHash: Option<string>, deliverableRef: Option<string>)

  datatype Artifact = Artifact(contentHash: string, deliverableRef: string)

  /** What an await resumes with: an error code when it throws, sizes and artifacts when it does not. */
  datatype World = World(now: int, error: Option<string>, size: nat, artifact: Artifact)

  const OVERVIEW_LIMIT: nat := 64 * 1024

  function StartRecord(envelope: Envelope): Record {
    Record(envelope, Running, Scheduled, false, None, None, None)
  }

  predicate ValidRetry(existing: Record, envelope: Envelope) {
    envelope.identity.fencingToken > existing.envelope.identity.fencingToken && existing.status != Succeeded
  }

  function Create(s: State, envelope: Envelope, now: int): (State, Result<Reply, Error>) {
    var id := envelope.identity.logicalId;
    if envelope.identity.deadline.at <= now then (s, Success(Reply(false, Failed, Some("deadline_exceeded"))))
    else if id in s.current then
      var i := s.current[id];
      var existing := s.records[i];
      if existing.envelope.identity == envelope.identity then
        (s, Success(Reply(existing.status != Cancelled, existing.status, None)))
      else if !ValidRetry(existing, envelope) then (s, Failure(Conflict))
      else
        (Records(s.records[i := existing.(aborted := true)] + [StartRecord(envelope)], s.current[id := |s.records|]),
         Success(Reply(true, Running, None)))
    else
      (Records(s.records + [StartRecord(envelope)], s.current[id := |s.records|]), Success(Reply(true, Running, None)))
  }

  /** requireRecord */
  function Require(s: State, envelope: Envelope): Result<nat, Error> {
    var id := envelope.identity.logicalId;
    if id !in s.current then Failure(NotFound)
    else if s.records[s.current[id]].envelope.identity != envelope.identity then Failure(Conflict)
    else Success(s.current[id])
  }

  function Cancel(s: State, envelope: Envelope): (State, Result<bool, Error>) {
    match Require(s, envelope)
    case Failure(e) => (s, Failure(e))
    case Success(i) =>
      assert i < |s.records|;
      var record := s.records[i];
      if record.status == Running then
        (s.(records := s.records[i := record.(status := Cancelled, aborted := true)]), Success(true))
      else (s, Success(record.status == Cancelled))
  }

  function Deliverable(s: State, envelope: Envelope): Result<Artifact, Error> {
    match Require(s, envelope)
    case Failure(e) => Failure(e)
    case Success(i) =>
      assert i < |s.records|;
      var record := s.records[i];
      if record.status != Succeeded || record.contentHash in {None, Some("")} || record.deliverableRef in {None, Some("")} then
        Failure(NotReady)
      else Success(Artifact(record.contentHash.value, record.deliverableRef.value))
  }

  predicate IsCurrent(s: State, i: nat)
    requires i < |s.records|
  {
    s.records[i].status == Running && s.Owns(i)
  }

  predicate StartsWithData(inputRef: string) {
    |inputRef| >= 5 && inputRef[..5] == "data:"
  }

  function Scrubbed(envelope: Envelope): Envelope {
    envelope.(callbackNonce := "consumed",
              inputRef := if StartsWithData(envelope.inputRef) then "consumed:inline-input" else envelope.inputRef)
  }

  function At(record: Record, phase: Phase): Record {
    record.(phase := phase)
  }

  /** The finally block. */
  function Finished(record: Record): Record {
    record.(phase := Done, envelope := Scrubbed(record.envelope))
  }

  function CallbackFor(envelope: Envelope, record: Record): Callback {
    var id := envelope.identity;
    Callback(id.logicalId, id.attemptId, id.agentId, id.fencingToken, record.status, envelope.callbackNonce,
             if record.status == Succeeded then record.contentHash else None,
             if record.status == Succeeded then record.deliverableRef else None)
  }

  /** The catch block: a record that is no longer current finishes without a trace. */
  function Thrown(record: Record, current: bool, code: string): Record {
    if current then record.(status := Failed, errorCode := Some(code), phase := AwaitCallback) else Finished(record)
  }

  /** The stretch of a record's process from the await it is suspended at to the next one. */
  function Stretch(record: Record, current: bool, w: World): Record {
    match record.phase
    case Scheduled => record.(phase := AwaitInput, aborted := record.aborted || record.envelope.identity.deadline.at <= w.now)
    case AwaitInput =>
      if w.error.Some? then Thrown(record, current, w.error.value)
      else if !current then Finished(record)
      else At(record, AwaitExecutor)
    case AwaitExecutor =>
      if w.error.Some? then Thrown(record, current, w.error.value)
      else if !current then Finished(record)
      else if record.envelope.identity.stage == Overview && w.size > OVERVIEW_LIMIT then
        Thrown(record, current, "input_too_large")
      else At(record, AwaitArtifact)
    case AwaitArtifact =>
      if w.error.Some? then Thrown(record, current, w.error.value)
      else if !current then Finished(record)
      else
        record.(status := Succeeded, phase := AwaitCallback,
                contentHash := Some(w.artifact.contentHash), deliverableRef := Some(w.artifact.deliverableRef))
    case AwaitCallback => Finished(record)
    case Done => record
  }

  /** One stretch of one process, with the callback that the stretch sends. */
  function Resume(s: State, i: nat, w: World): (State, Option<Callback>)
    requires i < |s.records|
  {
    var before := s.records[i];
    var after := Stretch(before, IsCurrent(s, i), w);
    (s.(records := s.records[i := after]),
     if before.phase != AwaitCallback && after.phase == AwaitCallback then Some(CallbackFor(after.envelope, after)) else None)
  }

  predicate TimerArmed(phase: Phase) {
    phase != Scheduled && phase != Done
  }

  /** The deadline timer of a process in progress. */
  function Expire(s: State, i: nat, now: int): State
    requires i < |s.records|
  {
    var record := s.records[i];
    if TimerArmed(record.phase) && record.envelope.identity.deadline.at <= now then
      s.(records := s.records[i := record.(aborted := true)])
    else s
  }

  class AgentExecutionAdapter {
    var records: seq<Record>
    var current: map<string, nat>

    ghost predicate Valid()
      reads this
    {
      forall id :: id in current ==> current[id] < |records|
    }

    function Value(): State
      reads this
      requires Valid()
    {
      Records(records, current)
    }

    constructor ()
      ensures Valid() && Value() == EMPTY
    {
      records, current := [], map[];
    }

    method Accept(envelope: Envelope, now: int) returns (r: Result<Reply, Error>)
      requires Valid()
      modifies this
      ensures Valid() && (Value(), r) == Create(old(Value()), envelope, now)
    {
      var id := envelope.identity.logicalId;
      if envelope.identity.deadline.at <= now {
        return Success(Reply(false, Failed, Some("deadline_exceeded")));
      }
      if id in current {
        var existing := records[current[id]];
        if existing.envelope.identity == envelope.identity {
          return Success(Reply(existing.status != Cancelled, existing.status, None));
        }
        if !(envelope.identity.fencingToken > existing.envelope.identity.fencingToken && existing.status != Succeeded) {
          return Failure(Conflict);
        }
        records := records[current[id] := existing.(aborted := true)];
      }
      records, current := records + [StartRecord(envelope)], current[id := |records|];
      return Success(Reply(true, Running, None));
    }

    method RequireRecord(envelope: Envelope) returns (r: Result<nat, Error>)
      requires Valid()
      ensures r == Require(Value(), envelope)
    {
      var id := envelope.identity.logicalId;
      if id !in current {
        return Failure(NotFound);
      }
      if records[current[id]].envelope.identity != envelope.identity {
        return Failure(Conflict);
      }
      return Success(current[id]);
    }

    method AskCancel(envelope: Envelope) returns (r: Result<bool, Error>)
      requires Valid()
      modifies this`records
      ensures Valid() && (Value(), r) == Cancel(old(Value()), envelope)
    {
      var found := RequireRecord(envelope);
      if found.Failure? {
        return Failure(found.error);
      }
      var i := found.value;
      if records[i].status == Running {
        records := records[i := records[i].(status := Cancelled)];
        records := records[i := records[i].(aborted := true)];
        assert records == old(records)[i := old(records)[i].(status := Cancelled, aborted := true)];
      }
      return Success(records[i].status == Cancelled);
    }

    method GetDeliverable(envelope: Envelope) returns (r: Result<Artifact, Error>)
      requires Valid()
      ensures r == Deliverable(Value(), envelope)
    {
      var found := RequireRecord(envelope);
      if found.Failure? {
        return Failure(found.error);
      }
      var record := records[found.value];
      if record.status != Succeeded || record.contentHash in {None, Some("")} || record.deliverableRef in {None, Some("")} {
        return Failure(NotReady);
      }
      return Success(Artifact(record.contentHash.value, record.deliverableRef.value));
    }

    method MarkFailed(i: nat, code: string) returns (sent: Option<Callback>)
      requires Valid() && i < |records|
      modifies this`records
      ensures Valid()
      ensures records == old(records)[i := Thrown(old(records)[i], old(IsCurrent(Value(), i)), code)]
      ensures sent == if old(IsCurrent(Value(), i)) then Some(CallbackFor(records[i].envelope, records[i])) else None
    {
      if !IsCurrent(Value(), i) {
        records := records[i := Finished(records[i])];
        return None;
      }
      records := records[i := records[i].(status := Failed)];
      records := records[i := records[i].(errorCode := Some(code), phase := AwaitCallback)];
      return Some(CallbackFor(records[i].envelope, records[i]));
    }

    method Process(i: nat, w: World) returns (sent: Option<Callback>)
      requires Valid() && i < |records|
      modifies this`records
      ensures Valid() && (Value(), sent) == Resume(old(Value()), i, w)
    {
      sent := None;
      var phase := records[i].phase;
      if phase == Done {
        assert records == records[i := records[i]];
        return;
      }
      if phase == Scheduled {
        var late := records[i].aborted || records[i].envelope.identity.deadline.at <= w.now;
        records := records[i := records[i].(phase := AwaitInput, aborted := late)];
        return;
      }
      if phase == AwaitCallback {
        records := records[i := Finished(records[i])];
        return;
      }
      if w.error.Some? {
        sent := MarkFailed(i, w.error.value);
        return;
      }
      if !IsCurrent(Value(), i) {
        records := records[i := Finished(records[i])];
        return;
      }
      if phase == AwaitInput {
        records := records[i := At(records[i], AwaitExecutor)];
      } else if phase == AwaitExecutor {
        if records[i].envelope.identity.stage == Overview && w.size > OVERVIEW_LIMIT {
          sent := MarkFailed(i, "input_too_large");
          return;
        }
        records := records[i := At(records[i], AwaitArtifact)];
      } else {
        records := records[i := records[i].(status := Succeeded)];
        records := records[i := records[i].(contentHash := Some(w.artifact.contentHash))];
        records := records[i := records[i].(deliverableRef := Some(w.artifact.deliverableRef), phase := AwaitCallback)];
        assert records == old(records)[i := Stretch(old(records)[i], true, w)];
        sent := Some(CallbackFor(records[i].envelope, records[i]));
      }
    }
  }
}
