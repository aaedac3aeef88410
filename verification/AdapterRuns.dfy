/** Fencing on the agent side, over every interleaving of requests, processes and timers. */
module AdapterRuns {
  import opened Wrappers
  import opened AdapterRecords

  datatype Sent = Sent(record: nat, callback: Callback)

  /** The adapter with its history: the envelope each record was created from, and every callback sent. */
  datatype System = System(state: State, created: seq<Envelope>, sent: seq<Sent>)

  datatype Action =
    | Post(envelope: Envelope, now: int)
    | Stop(envelope: Envelope)
    | Run(record: nat, world: World)
    | Timer(record: nat, now: int)

  const INITIAL := System(EMPTY, [], [])

  function Step(sys: System, a: Action): System {
    var s := sys.state;
    match a
    case Post(envelope, now) =>
      var t := Create(s, envelope, now).0;
      System(t, if |t.records| > |s.records| then sys.created + [envelope] else sys.created, sys.sent)
    case Stop(envelope) => sys.(state := Cancel(s, envelope).0)
    case Run(i, w) =>
      if i >= |s.records| then sys
      else
        var (t, callback) := Resume(s, i, w);
        System(t, sys.created, if callback.Some? then sys.sent + [Sent(i, callback.value)] else sys.sent)
    case Timer(i, now) => if i >= |s.records| then sys else sys.(state := Expire(s, i, now))
  }

  function Execute(sys: System, actions: seq<Action>): System {
    if actions == [] then sys else Step(Execute(sys, actions[..|actions| - 1]), actions[|actions| - 1])
  }

  predicate Ended(status: Status) {
    status == Succeeded || status == Failed
  }

  function Token(s: Records, i: nat): int
    requires i < |s.records|
  {
    s.records[i].envelope.identity.fencingToken
  }

  function Ids(records: seq<Record>): (ids: seq<string>) {
    seq(|records|, i requires 0 <= i < |records| => records[i].envelope.identity.logicalId)
  }

  function Tokens(records: seq<Record>): (tokens: seq<int>) {
    seq(|records|, i requires 0 <= i < |records| => records[i].envelope.identity.fencingToken)
  }

  /** The record a logical id names is the last one created for it, and tokens rise in creation order. */
  ghost predicate Ordered(ids: seq<string>, tokens: seq<int>, current: map<string, nat>) {
    && |tokens| == |ids|
    && (forall id :: id in current ==> current[id] < |ids| && ids[current[id]] == id)
    && (forall i :: 0 <= i < |ids| ==> ids[i] in current && i <= current[ids[i]])
    && (forall i, j :: 0 <= i < j < |ids| && ids[i] == ids[j] ==> tokens[i] < tokens[j])
  }

  ghost predicate Fenced(s: State) {
    Ordered(Ids(s.records), Tokens(s.records), s.current)
  }

  /** One record against its place in the map and the envelope it was created from. */
  predicate RecordOk(r: Record, owns: bool, created: Envelope) {
    && r.envelope == (if r.phase == Done then Scrubbed(created) else created)
    && (r.phase in {Scheduled, AwaitInput, AwaitExecutor, AwaitArtifact} ==> r.status in {Running, Cancelled})
    && (r.phase == AwaitCallback ==> Ended(r.status))
    && (r.status == Running && owns ==> r.phase != Done)
    && (r.status == Succeeded ==> owns && r.contentHash.Some? && r.deliverableRef.Some?)
    && (r.status == Cancelled ==> r.aborted)
    && (r.status == Running && !owns ==> r.aborted)
  }

  ghost predicate RecordsOk(sys: System) {
    && |sys.created| == |sys.state.records|
    && forall i :: 0 <= i < |sys.created| ==> RecordOk(sys.state.records[i], sys.state.Owns(i), sys.created[i])
  }

  predicate IsSent(sent: seq<Sent>, i: nat) {
    exists k :: 0 <= k < |sent| && sent[k].record == i
  }

  /** The callback each record owes: its outcome under the envelope it was created from, once it ended. */
  function Due(records: seq<Record>, created: seq<Envelope>): (due: seq<Option<Callback>>)
    requires |created| == |records|
  {
    seq(|records|, i requires 0 <= i < |records| =>
      if Ended(records[i].status) then Some(CallbackFor(created[i], records[i])) else None)
  }

  /** Exactly the callbacks that are due were sent, each once. */
  ghost predicate Delivered(due: seq<Option<Callback>>, sent: seq<Sent>) {
    && (forall k :: 0 <= k < |sent| ==> sent[k].record < |due| && due[sent[k].record] == Some(sent[k].callback))
    && (forall k, l :: 0 <= k < l < |sent| ==> sent[k].record != sent[l].record)
    && (forall i :: 0 <= i < |due| && due[i].Some? ==> IsSent(sent, i))
  }

  ghost predicate SentOk(sys: System) {
    |sys.created| == |sys.state.records| && Delivered(Due(sys.state.records, sys.created), sys.sent)
  }

  ghost predicate SystemOk(sys: System) {
    Fenced(sys.state) && RecordsOk(sys) && SentOk(sys)
  }

  /** What a record keeps: an outcome, a cancellation and, once displaced, any status is final. */
  predicate RecordLeads(r: Record, owned: bool, after: Record, owns: bool) {
    && after.envelope.identity == r.envelope.identity
    && (r.aborted ==> after.aborted)
    && (!owned ==> !owns && after.status == r.status)
    && (r.status != Running ==>
          after.(phase := r.phase, envelope := r.envelope, aborted := r.aborted) == r)
    && (r.status == Succeeded && owned ==> owns)
  }

  ghost predicate Leads(s: State, t: State) {
    && |s.records| <= |t.records|
    && (forall i :: 0 <= i < |s.records| ==> RecordLeads(s.records[i], s.Owns(i), t.records[i], t.Owns(i)))
    && (forall id :: id in s.current ==>
          id in t.current && (t.current[id] == s.current[id] || Token(t, t.current[id]) > Token(s, s.current[id])))
  }

  lemma LeadsTransitive(s: State, t: State, u: State)
    requires Leads(s, t) && Leads(t, u)
    ensures Leads(s, u)
  {
    forall i | 0 <= i < |s.records|
      ensures RecordLeads(s.records[i], s.Owns(i), u.records[i], u.Owns(i))
    {
      assert RecordLeads(t.records[i], t.Owns(i), u.records[i], u.Owns(i));
    }
  }

  lemma UpdateFenced(s: State, i: nat, after: Record)
    requires Fenced(s) && i < |s.records| && after.envelope.identity == s.records[i].envelope.identity
    ensures Fenced(s.(records := s.records[i := after]))
    ensures forall j :: 0 <= j < |s.records| ==> s.(records := s.records[i := after]).Owns(j) == s.Owns(j)
  {
    var t: State := s.(records := s.records[i := after]);
    assert Ids(t.records) == Ids(s.records) && Tokens(t.records) == Tokens(s.records);
  }

  lemma UpdateLeads(s: State, i: nat, after: Record)
    requires Fenced(s) && i < |s.records|
    requires after.envelope.identity == s.records[i].envelope.identity
    requires RecordLeads(s.records[i], s.Owns(i), after, s.Owns(i))
    ensures Leads(s, s.(records := s.records[i := after]))
  {
    UpdateFenced(s, i, after);
    hide Fenced;
    var t: State := s.(records := s.records[i := after]);
    forall j | 0 <= j < |s.records|
      ensures RecordLeads(s.records[j], s.Owns(j), t.records[j], t.Owns(j))
    {
      assert t.records[j] == if j == i then after else s.records[j];
    }
  }

  /** A step that changes one record in place and leaves every identity and owner alone. */
  lemma UpdateKeeps(sys: System, i: nat, after: Record, sent: seq<Sent>)
    requires SystemOk(sys) && i < |sys.created|
    requires after.envelope.identity == sys.state.records[i].envelope.identity
    requires RecordOk(after, sys.state.Owns(i), sys.created[i])
    requires RecordLeads(sys.state.records[i], sys.state.Owns(i), after, sys.state.Owns(i))
    requires sent == if Ended(after.status) && !Ended(sys.state.records[i].status)
                     then sys.sent + [Sent(i, CallbackFor(sys.created[i], after))] else sys.sent
    ensures SystemOk(System(sys.state.(records := sys.state.records[i := after]), sys.created, sent))
    ensures Leads(sys.state, sys.state.(records := sys.state.records[i := after]))
  {
    UpdateFenced(sys.state, i, after);
    UpdateLeads(sys.state, i, after);
    UpdateSent(sys, i, after, sent);
    hide RecordOk, RecordLeads, Fenced, Leads, SentOk;
  }

  lemma DeliveredAppend(due: seq<Option<Callback>>, sent: seq<Sent>)
    requires Delivered(due, sent)
    ensures Delivered(due + [None], sent)
  {
  }

  lemma DeliveredSend(due: seq<Option<Callback>>, sent: seq<Sent>, i: nat, callback: Callback)
    requires Delivered(due, sent) && i < |due| && due[i].None?
    ensures Delivered(due[i := Some(callback)], sent + [Sent(i, callback)])
  {
    var more := sent + [Sent(i, callback)];
    assert more[|sent|].record == i;
    forall j | 0 <= j < |due| && due[j].Some?
      ensures IsSent(more, j)
    {
      var k :| 0 <= k < |sent| && sent[k].record == j;
      assert more[k].record == j;
    }
  }

  lemma UpdateSent(sys: System, i: nat, after: Record, sent: seq<Sent>)
    requires SentOk(sys) && i < |sys.created|
    requires RecordLeads(sys.state.records[i], sys.state.Owns(i), after, sys.state.Owns(i))
    requires sent == if Ended(after.status) && !Ended(sys.state.records[i].status)
                     then sys.sent + [Sent(i, CallbackFor(sys.created[i], after))] else sys.sent
    ensures SentOk(System(sys.state.(records := sys.state.records[i := after]), sys.created, sent))
  {
    hide Delivered;
    var r := sys.state.records[i];
    var due := Due(sys.state.records, sys.created);
    var now := Due(sys.state.records[i := after], sys.created);
    if Ended(after.status) && !Ended(r.status) {
      DeliveredSend(due, sys.sent, i, CallbackFor(sys.created[i], after));
      assert now == due[i := Some(CallbackFor(sys.created[i], after))];
    } else {
      assert Ended(after.status) == Ended(r.status);
      assert now == due;
    }
  }

  predicate Displaces(s: State, envelope: Envelope, j: nat) {
    envelope.identity.logicalId in s.current && s.current[envelope.identity.logicalId] == j
  }

  /** What creation does when it accepts a new record. */
  ghost predicate Creates(s: State, envelope: Envelope, t: State) {
    var n := |s.records|;
    && |t.records| == n + 1
    && t.records[n] == StartRecord(envelope)
    && t.current == s.current[envelope.identity.logicalId := n]
    && forall j :: 0 <= j < n ==>
         && (Displaces(s, envelope, j) ==> ValidRetry(s.records[j], envelope))
         && t.records[j] == if Displaces(s, envelope, j) then s.records[j].(aborted := true) else s.records[j]
  }

  /** A newcomer whose token exceeds the current one's exceeds every earlier one of its id. */
  lemma OrderedAppend(ids: seq<string>, tokens: seq<int>, current: map<string, nat>, id: string, token: int)
    requires Ordered(ids, tokens, current) && (id in current ==> tokens[current[id]] < token)
    ensures Ordered(ids + [id], tokens + [token], current[id := |ids|])
  {
    forall i | 0 <= i < |ids| && ids[i] == id
      ensures tokens[i] < token
    {
      assert i < current[id] ==> tokens[i] < tokens[current[id]];
    }
  }

  lemma CreateIds(s: State, envelope: Envelope, t: State)
    requires Creates(s, envelope, t)
    ensures Ids(t.records) == Ids(s.records) + [envelope.identity.logicalId]
    ensures Tokens(t.records) == Tokens(s.records) + [envelope.identity.fencingToken]
  {
    forall j | 0 <= j < |s.records|
      ensures t.records[j].envelope == s.records[j].envelope
    {
    }
    hide Creates;
  }

  lemma CreateFenced(s: State, envelope: Envelope, t: State)
    requires Fenced(s) && Creates(s, envelope, t)
    ensures Fenced(t)
  {
    var id := envelope.identity;
    assert id.logicalId in s.current ==> Displaces(s, envelope, s.current[id.logicalId]);
    CreateIds(s, envelope, t);
    OrderedAppend(Ids(s.records), Tokens(s.records), s.current, id.logicalId, id.fencingToken);
    hide Ordered;
  }

  lemma CreateRecord(r: Record, owned: bool, created: Envelope, after: Record, owns: bool)
    requires RecordOk(r, owned, created)
    requires (after == r && owns == owned) || (owned && !owns && r.status != Succeeded && after == r.(aborted := true))
    ensures RecordOk(after, owns, created) && RecordLeads(r, owned, after, owns)
  {
  }

  lemma CreateOwner(s: State, envelope: Envelope, t: State, j: nat)
    requires Fenced(s) && Creates(s, envelope, t) && j < |s.records|
    ensures t.IdOf(j) == s.IdOf(j) && t.Owns(j) == (s.Owns(j) && !Displaces(s, envelope, j))
    ensures Displaces(s, envelope, j) ==> s.Owns(j)
  {
    assert Displaces(s, envelope, j) ==> Ids(s.records)[j] == envelope.identity.logicalId;
  }

  lemma {:induction false} CreateRecords(s: State, created: seq<Envelope>, envelope: Envelope, t: State)
    requires Fenced(s) && RecordsOk(System(s, created, [])) && Creates(s, envelope, t)
    ensures RecordsOk(System(t, created + [envelope], []))
    ensures forall j :: 0 <= j < |s.records| ==> RecordLeads(s.records[j], s.Owns(j), t.records[j], t.Owns(j))
  {
    var n := |s.records|;
    assert RecordOk(t.records[n], t.Owns(n), envelope);
    hide RecordOk, RecordLeads, Fenced;
    forall j | 0 <= j < n
      ensures RecordOk(t.records[j], t.Owns(j), created[j]) && RecordLeads(s.records[j], s.Owns(j), t.records[j], t.Owns(j))
    {
      CreateOwner(s, envelope, t, j);
      CreateRecord(s.records[j], s.Owns(j), created[j], t.records[j], t.Owns(j));
    }
  }

  lemma CreateTokens(s: State, envelope: Envelope, t: State)
    requires Creates(s, envelope, t)
    ensures forall id :: id in s.current ==>
              id in t.current && (t.current[id] == s.current[id] || Token(t, t.current[id]) > Token(s, s.current[id]))
  {
    forall id | id in s.current
      ensures t.current[id] == s.current[id] || Token(t, t.current[id]) > Token(s, s.current[id])
    {
      assert Displaces(s, envelope, s.current[id]) <== id == envelope.identity.logicalId;
    }
  }

  lemma CreateSent(sys: System, envelope: Envelope, t: State)
    requires SentOk(sys) && Creates(sys.state, envelope, t)
    ensures SentOk(System(t, sys.created + [envelope], sys.sent))
  {
    hide Delivered;
    DeliveredAppend(Due(sys.state.records, sys.created), sys.sent);
    assert Due(t.records, sys.created + [envelope]) == Due(sys.state.records, sys.created) + [None];
  }

  lemma CreateShape(s: State, envelope: Envelope, now: int)
    ensures var t := Create(s, envelope, now).0; t == s || Creates(s, envelope, t)
    ensures Creates(s, envelope, Create(s, envelope, now).0) ==> |Create(s, envelope, now).0.records| == |s.records| + 1
  {
  }

  /** Creation appends a record; when the id was taken, the displaced record is aborted and falls behind. */
  lemma CreateKeeps(sys: System, envelope: Envelope, now: int)
    requires SystemOk(sys)
    ensures SystemOk(Step(sys, Post(envelope, now)))
    ensures Leads(sys.state, Step(sys, Post(envelope, now)).state)
  {
    CreateShape(sys.state, envelope, now);
    SameLeads(sys.state);
    hide Create, RecordOk, RecordLeads, Fenced, SentOk;
    var t := Create(sys.state, envelope, now).0;
    if Creates(sys.state, envelope, t) {
      CreateFenced(sys.state, envelope, t);
      CreateRecords(sys.state, sys.created, envelope, t);
      CreateTokens(sys.state, envelope, t);
      CreateSent(sys, envelope, t);
    }
  }

  lemma SameLeads(s: State)
    ensures Leads(s, s)
  {
  }

  lemma StretchOk(r: Record, owns: bool, created: Envelope, w: World)
    requires RecordOk(r, owns, created)
    ensures var after := Stretch(r, r.status == Running && owns, w);
            RecordOk(after, owns, created) && RecordLeads(r, owns, after, owns)
            && ((r.phase != AwaitCallback && after.phase == AwaitCallback) <==> (Ended(after.status) && !Ended(r.status)))
            && (after.phase == AwaitCallback ==> after.envelope == created)
  {
  }

  lemma {:induction false} StepKeeps(sys: System, a: Action)
    requires SystemOk(sys)
    ensures SystemOk(Step(sys, a)) && Leads(sys.state, Step(sys, a).state)
    ensures sys.created <= Step(sys, a).created && sys.sent <= Step(sys, a).sent
  {
    hide RecordOk, RecordLeads, Fenced, SentOk;
    var s := sys.state;
    match a
    case Post(envelope, now) => CreateKeeps(sys, envelope, now);
    case Stop(envelope) =>
      var found := Require(s, envelope);
      SameLeads(s);
      if found.Success? && s.records[found.value].status == Running {
        var r := s.records[found.value];
        CancelOk(r, s.Owns(found.value), sys.created[found.value]);
        UpdateKeeps(sys, found.value, r.(status := Cancelled, aborted := true), sys.sent);
      }
    case Run(i, w) =>
      SameLeads(s);
      if i < |s.records| {
        StretchOk(s.records[i], s.Owns(i), sys.created[i], w);
        UpdateKeeps(sys, i, Stretch(s.records[i], IsCurrent(s, i), w), Step(sys, a).sent);
      }
    case Timer(i, now) =>
      SameLeads(s);
      if i < |s.records| && Expire(s, i, now) != s {
        AbortOk(s.records[i], s.Owns(i), sys.created[i]);
        UpdateKeeps(sys, i, s.records[i].(aborted := true), sys.sent);
      }
  }

  lemma CancelOk(r: Record, owns: bool, created: Envelope)
    requires RecordOk(r, owns, created) && r.status == Running && owns
    ensures RecordOk(r.(status := Cancelled, aborted := true), owns, created)
    ensures RecordLeads(r, owns, r.(status := Cancelled, aborted := true), owns)
  {
  }

  lemma AbortOk(r: Record, owns: bool, created: Envelope)
    requires RecordOk(r, owns, created)
    ensures RecordOk(r.(aborted := true), owns, created) && RecordLeads(r, owns, r.(aborted := true), owns)
  {
  }

  lemma {:induction false} RunKeeps(sys: System, actions: seq<Action>)
    requires SystemOk(sys)
    ensures SystemOk(Execute(sys, actions)) && Leads(sys.state, Execute(sys, actions).state)
    ensures sys.created <= Execute(sys, actions).created && sys.sent <= Execute(sys, actions).sent
    decreases |actions|
  {
    hide SystemOk, Leads, Step;
    if actions == [] {
      SameLeads(sys.state);
    } else {
      var before := Execute(sys, actions[..|actions| - 1]);
      RunKeeps(sys, actions[..|actions| - 1]);
      StepKeeps(before, actions[|actions| - 1]);
      LeadsTransitive(sys.state, before.state, Execute(sys, actions).state);
    }
  }

  /** The invariant holds at every point of every run, and later points only lead on from earlier ones. */
  lemma {:induction false} ReachableStates(early: seq<Action>, late: seq<Action>)
    ensures var s := Execute(INITIAL, early); var t := Execute(s, late);
            SystemOk(s) && SystemOk(t) && Leads(s.state, t.state) && s.created <= t.created && s.sent <= t.sent
  {
    RunKeeps(INITIAL, early);
    RunKeeps(Execute(INITIAL, early), late);
  }

  /**
   A logical id only ever changes owner for a strictly higher fencing token, and a
   succeeded record keeps its id, its status and its artifact for ever.
   */
  lemma {:induction false} TokensRise(early: seq<Action>, late: seq<Action>, id: string)
    requires id in Execute(INITIAL, early).state.current
    ensures var s := Execute(INITIAL, early).state; var t := Execute(Execute(INITIAL, early), late).state;
            var i := s.current[id];
            && id in t.current && i < |t.records|
            && (t.current[id] != i ==> Token(t, t.current[id]) > Token(s, i))
            && (s.records[i].status == Succeeded ==>
                  && t.current[id] == i && t.records[i].status == Succeeded
                  && t.records[i].contentHash == s.records[i].contentHash
                  && t.records[i].deliverableRef == s.records[i].deliverableRef)
  {
    hide Execute, SentOk, RecordOk;
    ReachableStates(early, late);
    var s := Execute(INITIAL, early).state;
    var t := Execute(Execute(INITIAL, early), late).state;
    var i := s.current[id];
    assert Ids(s.records)[i] == id;
    assert RecordLeads(s.records[i], s.Owns(i), t.records[i], t.Owns(i));
  }

  /**
   A record cancelled or displaced before it ended keeps its status for ever, its signal
   is aborted, and no callback is ever sent for it.
   */
  lemma {:induction false} FencedOffIsSilent(early: seq<Action>, late: seq<Action>, i: nat)
    requires i < |Execute(INITIAL, early).state.records|
    requires !Ended(Execute(INITIAL, early).state.records[i].status)
    requires Execute(INITIAL, early).state.records[i].status == Cancelled || !Execute(INITIAL, early).state.Owns(i)
    ensures var s := Execute(INITIAL, early); var t := Execute(s, late);
            && i < |t.state.records| && t.state.records[i].status == s.state.records[i].status
            && t.state.records[i].aborted && !IsSent(t.sent, i)
  {
    hide Execute, Fenced;
    ReachableStates(early, late);
    var s := Execute(INITIAL, early);
    var t := Execute(s, late);
    assert RecordLeads(s.state.records[i], s.state.Owns(i), t.state.records[i], t.state.Owns(i));
    assert RecordOk(s.state.records[i], s.state.Owns(i), s.created[i]);
  }

  /**
   Exactly the ended records have a callback, one each, and it carries the outcome, the
   fencing token and the nonce of the envelope the record was created from.
   */
  lemma {:induction false} OneCallbackPerRecord(actions: seq<Action>, i: nat)
    requires i < |Execute(INITIAL, actions).state.records|
    ensures var s := Execute(INITIAL, actions);
            && |s.created| == |s.state.records|
            && (IsSent(s.sent, i) <==> Ended(s.state.records[i].status))
            && (forall k, l :: 0 <= k < |s.sent| && 0 <= l < |s.sent| && s.sent[k].record == i && s.sent[l].record == i ==> k == l)
            && (forall k :: 0 <= k < |s.sent| && s.sent[k].record == i ==>
                  && s.sent[k].callback.status == s.state.records[i].status
                  && s.sent[k].callback.fencingToken == s.created[i].identity.fencingToken
                  && s.sent[k].callback.nonce == s.created[i].callbackNonce)
  {
    hide Execute, Fenced, RecordsOk;
    ReachableStates(actions, []);
    var s := Execute(INITIAL, actions);
    assert Due(s.state.records, s.created)[i].Some? <==> Ended(s.state.records[i].status);
  }

  /** Once a deliverable is ready, every later request for it gets the same answer. */
  lemma {:induction false} DeliverableIsStable(early: seq<Action>, late: seq<Action>, envelope: Envelope)
    requires Deliverable(Execute(INITIAL, early).state, envelope).Success?
    ensures Deliverable(Execute(Execute(INITIAL, early), late).state, envelope) == Deliverable(Execute(INITIAL, early).state, envelope)
  {
    hide Execute, RecordOk, SentOk;
    ReachableStates(early, late);
    var s := Execute(INITIAL, early).state;
    var i := s.current[envelope.identity.logicalId];
    var t := Execute(Execute(INITIAL, early), late).state;
    assert RecordLeads(s.records[i], s.Owns(i), t.records[i], t.Owns(i));
  }

  /** A record that owns its id and is running always has a process that will look at it again. */
  lemma {:induction false} RunningIsNotAbandoned(actions: seq<Action>, i: nat)
    requires i < |Execute(INITIAL, actions).state.records|
    requires IsCurrent(Execute(INITIAL, actions).state, i)
    ensures Execute(INITIAL, actions).state.records[i].phase !in {AwaitCallback, Done}
  {
    hide Execute;
    ReachableStates(actions, []);
    var s := Execute(INITIAL, actions);
    assert RecordOk(s.state.records[i], s.state.Owns(i), s.created[i]);
  }
}
