/** What every run of the overview repository keeps about slots, billing, replacements and completion. */
module OverviewRuns {
  import opened Wrappers
  import opened OverviewBatch

  /** A slot as the service plans it. */
  predicate NewSlot(s: Slot) {
    s.status == Planned && s.billing == Authorized
  }

  /** A batch as the service drafts it. */
  predicate NewBatch(b: Batch) {
    && b.status == Running && !b.replacementUsed && !b.replacementExhausted
    && forall i :: 0 <= i < |b.slots| ==> NewSlot(b.slots[i]) && !b.slots[i].plan.replacement
  }

  predicate SlotOk(s: Slot, batch: BatchStatus) {
    && (s.status in {Planned, Dispatched} ==> s.billing == Authorized && batch != Obsolete)
    && (s.billing == Captured ==> s.status == Valid)
    && (s.billing == Released ==> Failing(s) || (batch == Obsolete && s.status in {SlotObsolete, Valid}))
    && (s.status == SlotObsolete ==> batch == Obsolete)
    && (s.status in {Valid, Invalid} ==> s.validation.valid == (s.status == Valid))
  }

  predicate SlotsOk(b: Batch) {
    forall i :: 0 <= i < |b.slots| ==> SlotOk(b.slots[i], b.status)
  }

  predicate IsValid(b: Batch, i: nat) {
    i < |b.slots| && b.slots[i].status == Valid
  }

  /** Valid slots have pairwise different contents. */
  predicate ContentsDiffer(b: Batch) {
    forall i, j :: 0 <= i < j < |b.slots| && IsValid(b, i) && IsValid(b, j) ==> b.slots[i].contentHash != b.slots[j].contentHash
  }

  /** At most one slot is a replacement: the last one, when one was used. */
  predicate ReplacementOk(b: Batch) {
    && !(b.replacementUsed && b.replacementExhausted)
    && (b.replacementUsed ==> b.slots != [])
    && forall i :: 0 <= i < |b.slots| ==> (b.slots[i].plan.replacement <==> b.replacementUsed && i == |b.slots| - 1)
  }

  predicate BatchOk(b: Batch) {
    SlotsOk(b) && ContentsDiffer(b) && ReplacementOk(b)
  }

  /** A completed batch is settled, as long as no replacement was added after completion. */
  predicate CompletedIsSettled(b: Batch) {
    b.status == Completed ==> Finishable(b)
  }

  predicate SlotLeads(s: Slot, t: Slot) {
    && t.plan == s.plan
    && (s.billing != Authorized ==> t.billing == s.billing)
    && (Resolved(s) ==> t.(billing := s.billing) == s)
    && (s.status == Dispatched ==> t.status != Planned)
  }

  predicate BatchLeads(a: Batch, b: Batch) {
    && b.plan == a.plan
    && |a.slots| <= |b.slots|
    && (forall i :: 0 <= i < |a.slots| ==> SlotLeads(a.slots[i], b.slots[i]))
    && (a.status == Obsolete ==> b.status == Obsolete && |b.slots| == |a.slots|)
    && (a.status == Completed ==> b.status != Running)
    && (a.replacementUsed ==> b.replacementUsed && |b.slots| == |a.slots|)
    && (!b.replacementUsed ==> |b.slots| == |a.slots|)
    && (a.replacementExhausted ==> b.replacementExhausted && |b.slots| == |a.slots|)
  }

  /** Whenever a batch turns completed, it is settled and no replacement is due. */
  predicate TurnsSettled(a: Batch, b: Batch) {
    a.status != Completed && b.status == Completed ==> Finishable(b)
  }

  predicate Good(a: Batch, b: Batch) {
    BatchOk(b) && BatchLeads(a, b) && TurnsSettled(a, b)
  }

  lemma FinishGood(a: Batch, b: Batch)
    requires BatchOk(b) && BatchLeads(a, b) && b.status == a.status
    ensures Good(a, Finish(b)) && (CompletedIsSettled(b) ==> CompletedIsSettled(Finish(b)))
  {
    assert Finish(b).slots == b.slots;
    assert forall i :: IsValid(Finish(b), i) <==> IsValid(b, i);
  }

  /** One slot moves on. */
  lemma SetSlotGood(b: Batch, i: nat, s: Slot)
    requires BatchOk(b) && i < |b.slots| && SlotOk(s, b.status) && SlotLeads(b.slots[i], s)
    requires s.status == Valid ==> b.slots[i].status == Valid || !Duplicated(b, i, s.contentHash)
    ensures BatchOk(SetSlot(b, i, s)) && BatchLeads(b, SetSlot(b, i, s))
  {
    var c := SetSlot(b, i, s);
    forall j, k | 0 <= j < k < |c.slots| && IsValid(c, j) && IsValid(c, k)
      ensures c.slots[j].contentHash != c.slots[k].contentHash
    {
      if j != i && k != i {
        assert IsValid(b, j) && IsValid(b, k);
      } else if b.slots[i].status == Valid {
        assert IsValid(b, j) && IsValid(b, k);
      }
    }
  }

  lemma DispatchGood(b: Batch, i: nat)
    requires BatchOk(b) && i < |b.slots|
    ensures Good(b, Dispatch(b, i).0) && (CompletedIsSettled(b) ==> CompletedIsSettled(Dispatch(b, i).0))
  {
    SameGood(b);
    hide ContentsDiffer, ReplacementOk, BatchLeads;
    if b.status != Obsolete && b.slots[i].status == Planned {
      SetSlotGood(b, i, b.slots[i].(status := Dispatched));
    }
  }

  lemma SameGood(b: Batch)
    requires BatchOk(b)
    ensures Good(b, b) && BatchLeads(b, b)
  {
  }

  lemma ValidateGood(b: Batch, i: nat, validation: Validation, contentHash: string, deliverableRef: string)
    requires BatchOk(b) && i < |b.slots|
    ensures var c := Validate(b, i, validation, contentHash, deliverableRef).0;
            Good(b, c) && (CompletedIsSettled(b) ==> CompletedIsSettled(c))
  {
    SameGood(b);
    hide ContentsDiffer, ReplacementOk, BatchLeads;
    var s := b.slots[i];
    if b.status != Obsolete && s.status == Dispatched {
      var judged := Judged(b, i, validation, contentHash);
      var t := s.(validation := judged, contentHash := contentHash, deliverableRef := deliverableRef,
                  status := if judged.valid then Valid else Invalid);
      SetSlotGood(b, i, t);
      assert CompletedIsSettled(b) ==> b.status != Completed;
      FinishGood(b, SetSlot(b, i, t));
    }
  }

  lemma BillGood(b: Batch, i: nat, billing: Billing)
    requires BatchOk(b) && i < |b.slots|
    ensures var c := Bill(b, i, billing).0; Good(b, c) && (CompletedIsSettled(b) ==> CompletedIsSettled(c))
  {
    SameGood(b);
    hide ContentsDiffer, ReplacementOk, BatchLeads;
    var s := b.slots[i];
    if Bill(b, i, billing).0 != b {
      SetSlotGood(b, i, s.(billing := billing));
      assert CompletedIsSettled(b) ==> b.status != Completed;
      FinishGood(b, SetSlot(b, i, s.(billing := billing)));
    }
  }

  lemma {:induction false} ReplacementInIff(slots: seq<Slot>)
    ensures ReplacementIn(slots).Some? <==> exists i :: 0 <= i < |slots| && slots[i].plan.replacement
  {
    if slots != [] {
      ReplacementInIff(slots[1..]);
      if ReplacementIn(slots[1..]).Some? {
        var i :| 0 <= i < |slots| - 1 && slots[1..][i].plan.replacement;
        assert slots[i + 1].plan.replacement;
      }
      if i :| 0 < i < |slots| && slots[i].plan.replacement {
        assert slots[1..][i - 1].plan.replacement;
      }
    }
  }

  lemma ReplaceGood(b: Batch, r: Slot)
    requires BatchOk(b) && NewSlot(r)
    ensures Good(b, Replace(b, r).0)
    ensures b.status != Completed ==> Replace(b, r).0.status != Completed
  {
    SameGood(b);
    ReplacementInIff(b.slots);
    var c := Replace(b, r).0;
    if c != b {
      assert !b.replacementUsed && !b.replacementExhausted;
      assert forall i :: 0 <= i < |b.slots| ==> c.slots[i] == b.slots[i];
      forall j, k | 0 <= j < k < |c.slots| && IsValid(c, j) && IsValid(c, k)
        ensures c.slots[j].contentHash != c.slots[k].contentHash
      {
        assert IsValid(b, j) && IsValid(b, k);
      }
    }
  }

  /** The guard of AddReplacement behind which it appends the slot, for a batch that is not obsolete. */
  predicate Appends(b: Batch, r: Slot) {
    && (forall i :: 0 <= i < |b.slots| ==> !b.slots[i].plan.replacement)
    && !b.replacementUsed && !b.replacementExhausted
    && r.plan.replacement && r.plan.ordinal == |b.slots| + 1 && r.plan.batchId == b.plan.id
  }

  /** The repository lets a completed batch become unsettled again exactly when that guard holds. */
  lemma ReplaceUnsettlesIff(b: Batch, r: Slot)
    requires BatchOk(b) && NewSlot(r) && CompletedIsSettled(b)
    ensures CompletedIsSettled(Replace(b, r).0) <==> !(b.status == Completed && Appends(b, r))
  {
    ReplacementInIff(b.slots);
    var c := Replace(b, r).0;
    if b.status == Completed && Appends(b, r) {
      assert c.slots[|b.slots|] == r;
    }
  }

  predicate InvalidAt(b: Batch, i: nat) {
    i < |b.slots| && b.slots[i].status == Invalid
  }

  /** What the service has seen of a batch when it asks for a replacement. */
  ghost predicate Wanting(b: Batch) {
    !b.replacementUsed && !b.replacementExhausted && exists i: nat :: InvalidAt(b, i)
  }

  lemma ExhaustGood(b: Batch)
    requires BatchOk(b)
    ensures Good(b, Exhaust(b)) && (CompletedIsSettled(b) ==> CompletedIsSettled(Exhaust(b)))
  {
    SameGood(b);
    if !b.replacementUsed && !b.replacementExhausted {
      var c := b.(replacementExhausted := true);
      assert forall i :: IsValid(c, i) <==> IsValid(b, i);
      FinishGood(b, c);
    }
  }

  lemma MarkObsoleteGood(b: Batch)
    requires BatchOk(b) && b.status != Obsolete
    ensures Good(b, MarkObsolete(b)) && CompletedIsSettled(MarkObsolete(b))
  {
    var c := MarkObsolete(b);
    assert forall i :: 0 <= i < |b.slots| ==> c.slots[i] == ObsoleteSlot(b.slots[i]);
    assert forall i :: IsValid(c, i) <==> IsValid(b, i);
    forall j, k | 0 <= j < k < |c.slots| && IsValid(c, j) && IsValid(c, k)
      ensures c.slots[j].contentHash != c.slots[k].contentHash
    {
      assert IsValid(b, j) && IsValid(b, k);
    }
  }

  // Runs

  datatype Op =
    | Create(draft: Batch)
    | RecordDispatch(batchId: string, slotId: string)
    | RecordValidate(batchId: string, slotId: string, validation: Validation, contentHash: string, deliverableRef: string)
    | RecordBill(batchId: string, slotId: string, billing: Billing)
    | Add(batchId: string, replacement: Slot)
    | DoExhaust(batchId: string)
    | DoObsolete(taskId: string, revision: int)

  /** Drafts and replacements are handed over as the service builds them. */
  predicate Sound(op: Op) {
    (op.Create? ==> NewBatch(op.draft)) && (op.Add? ==> NewSlot(op.replacement))
  }

  function Do(s: State, op: Op): State {
    match op
    case Create(draft) => GetOrCreate(s, draft).0
    case RecordDispatch(id, slotId) =>
      var at := Find(s, id, slotId);
      if at.None? then s else s[id := Dispatch(s[id], at.value).0]
    case RecordValidate(id, slotId, validation, contentHash, deliverableRef) =>
      var at := Find(s, id, slotId);
      if at.None? then s else s[id := Validate(s[id], at.value, validation, contentHash, deliverableRef).0]
    case RecordBill(id, slotId, billing) =>
      var at := Find(s, id, slotId);
      if at.None? then s else s[id := Bill(s[id], at.value, billing).0]
    case Add(id, replacement) => if id !in s then s else s[id := Replace(s[id], replacement).0]
    case DoExhaust(id) => if id !in s then s else s[id := Exhaust(s[id])]
    case DoObsolete(taskId, revision) => if taskId == "" || revision < 1 then s else ObsoleteBefore(s, taskId, revision)
  }

  function Run(s: State, ops: seq<Op>): State {
    if ops == [] then s else Do(Run(s, ops[..|ops| - 1]), ops[|ops| - 1])
  }

  /** Every batch is consistent, filed under its own id, and alone on its snapshot. */
  ghost predicate StateOk(s: State) {
    && (forall id :: id in s ==> BatchOk(s[id]) && s[id].plan.id == id)
    && (forall a, b :: a in s && b in s && a != b ==> s[a].plan.snapshotId != s[b].plan.snapshotId)
  }

  ghost predicate Leads(s: State, t: State) {
    forall id :: id in s ==> id in t && BatchLeads(s[id], t[id]) && TurnsSettled(s[id], t[id])
  }

  lemma NewBatchOk(b: Batch)
    requires NewBatch(b)
    ensures BatchOk(b) && CompletedIsSettled(b)
  {
  }

  lemma PutKeeps(s: State, id: string, b: Batch)
    requires StateOk(s) && id in s && Good(s[id], b)
    ensures StateOk(s[id := b]) && Leads(s, s[id := b])
  {
    assert b.plan == s[id].plan;
    forall other | other in s && other != id
      ensures BatchLeads(s[other], s[other])
    {
      SameGood(s[other]);
    }
    hide BatchOk, BatchLeads, TurnsSettled;
  }

  lemma LeadsSame(s: State)
    requires StateOk(s)
    ensures Leads(s, s)
  {
    forall id | id in s
      ensures BatchLeads(s[id], s[id])
    {
      SameGood(s[id]);
    }
  }

  lemma DoKeeps(s: State, op: Op)
    requires StateOk(s) && Sound(op)
    ensures StateOk(Do(s, op)) && Leads(s, Do(s, op))
  {
    LeadsSame(s);
    hide BatchOk, Good, StateOk, Leads, Dispatch, Validate, Bill, Replace, Exhaust;
    assert forall id :: id in s ==> BatchOk(s[id]) by { EachOk(s); }
    match op
    case Create(draft) => CreateKeeps(s, draft);
    case RecordDispatch(id, slotId) =>
      var at := Find(s, id, slotId);
      if at.Some? {
        DispatchGood(s[id], at.value);
        PutKeeps(s, id, Dispatch(s[id], at.value).0);
      }
    case RecordValidate(id, slotId, validation, contentHash, deliverableRef) =>
      var at := Find(s, id, slotId);
      if at.Some? {
        ValidateGood(s[id], at.value, validation, contentHash, deliverableRef);
        PutKeeps(s, id, Validate(s[id], at.value, validation, contentHash, deliverableRef).0);
      }
    case RecordBill(id, slotId, billing) =>
      var at := Find(s, id, slotId);
      if at.Some? {
        BillGood(s[id], at.value, billing);
        PutKeeps(s, id, Bill(s[id], at.value, billing).0);
      }
    case Add(id, replacement) =>
      if id in s {
        ReplaceGood(s[id], replacement);
        PutKeeps(s, id, Replace(s[id], replacement).0);
      }
    case DoExhaust(id) =>
      if id in s {
        ExhaustGood(s[id]);
        PutKeeps(s, id, Exhaust(s[id]));
      }
    case DoObsolete(taskId, revision) => ObsoleteKeeps(s, taskId, revision);
  }

  lemma EachOk(s: State)
    requires StateOk(s)
    ensures forall id :: id in s ==> BatchOk(s[id])
  {
  }

  lemma CreateKeeps(s: State, draft: Batch)
    requires StateOk(s) && NewBatch(draft)
    ensures StateOk(GetOrCreate(s, draft).0) && Leads(s, GetOrCreate(s, draft).0)
  {
    NewBatchOk(draft);
    LeadsSame(s);
    hide BatchOk, BatchLeads, TurnsSettled, NewBatch;
    var t := GetOrCreate(s, draft).0;
    if t != s {
      assert forall id :: id in s ==> s[id].plan.snapshotId != draft.plan.snapshotId;
    }
  }

  lemma ObsoleteKeeps(s: State, taskId: string, revision: int)
    requires StateOk(s)
    ensures StateOk(ObsoleteBefore(s, taskId, revision)) && Leads(s, ObsoleteBefore(s, taskId, revision))
  {
    var t := ObsoleteBefore(s, taskId, revision);
    forall id | id in s
      ensures Good(s[id], t[id])
    {
      if Outdated(s[id], taskId, revision) {
        MarkObsoleteGood(s[id]);
      } else {
        SameGood(s[id]);
      }
    }
    assert forall id :: id in s ==> t[id].plan == s[id].plan;
    hide BatchOk, BatchLeads, TurnsSettled;
  }

  lemma SlotLeadsTransitive(a: Slot, b: Slot, c: Slot)
    requires SlotLeads(a, b) && SlotLeads(b, c)
    ensures SlotLeads(a, c)
  {
  }

  lemma BatchLeadsTransitive(a: Batch, b: Batch, c: Batch)
    requires BatchLeads(a, b) && BatchLeads(b, c)
    ensures BatchLeads(a, c)
  {
    forall i | 0 <= i < |a.slots|
      ensures SlotLeads(a.slots[i], c.slots[i])
    {
      SlotLeadsTransitive(a.slots[i], b.slots[i], c.slots[i]);
    }
  }

  predicate AllSound(ops: seq<Op>) {
    forall i :: 0 <= i < |ops| ==> Sound(ops[i])
  }

  lemma {:induction false} RunKeeps(s: State, ops: seq<Op>)
    requires StateOk(s) && AllSound(ops)
    ensures StateOk(Run(s, ops))
    ensures forall id :: id in s ==> id in Run(s, ops) && BatchLeads(s[id], Run(s, ops)[id])
    decreases |ops|
  {
    LeadsSame(s);
    hide StateOk, Sound, Do, BatchLeads, TurnsSettled;
    if ops != [] {
      var before := Run(s, ops[..|ops| - 1]);
      RunKeeps(s, ops[..|ops| - 1]);
      DoKeeps(before, ops[|ops| - 1]);
      forall id | id in s
        ensures id in Run(s, ops) && BatchLeads(s[id], Run(s, ops)[id])
      {
        BatchLeadsTransitive(s[id], before[id], Run(s, ops)[id]);
      }
    }
  }

  lemma EmptyOk()
    ensures StateOk(map[])
  {
  }

  /** At every point of every run of the service's operations. */
  lemma {:induction false} ReachableBatches(ops: seq<Op>, id: string)
    requires AllSound(ops) && id in Run(map[], ops)
    ensures var b := Run(map[], ops)[id];
            && (forall i :: 0 <= i < |b.slots| && b.slots[i].billing == Captured ==> b.slots[i].status == Valid)
            && (forall i, j :: 0 <= i < j < |b.slots| && IsValid(b, i) && IsValid(b, j) ==> b.slots[i].contentHash != b.slots[j].contentHash)
            && (forall i :: 0 <= i < |b.slots| - 1 ==> !b.slots[i].plan.replacement)
            && !(b.replacementUsed && b.replacementExhausted)
            && (b.status == Obsolete ==> forall i :: 0 <= i < |b.slots| ==> Resolved(b.slots[i]))
  {
    hide Run;
    EmptyOk();
    RunKeeps(map[], ops);
  }

  /** Billing leaves `authorized` at most once, a resolved slot keeps its verdict and content, and `obsolete` is absorbing. */
  lemma {:induction false} LaterBatches(early: seq<Op>, late: seq<Op>, id: string, i: nat)
    requires AllSound(early) && AllSound(late)
    requires id in Run(map[], early) && i < |Run(map[], early)[id].slots|
    ensures var a := Run(map[], early)[id]; var t := Run(Run(map[], early), late);
            && id in t && i < |t[id].slots| && t[id].slots[i].plan == a.slots[i].plan
            && (a.slots[i].billing != Authorized ==> t[id].slots[i].billing == a.slots[i].billing)
            && (Resolved(a.slots[i]) ==>
                  t[id].slots[i].status == a.slots[i].status && t[id].slots[i].contentHash == a.slots[i].contentHash)
            && (a.status == Obsolete ==> t[id].status == Obsolete)
            && (a.status == Completed ==> t[id].status != Running)
  {
    hide Run;
    EmptyOk();
    RunKeeps(map[], early);
    RunKeeps(Run(map[], early), late);
    assert BatchLeads(Run(map[], early)[id], Run(Run(map[], early), late)[id]);
  }

  /** A batch turns completed only when every slot is resolved and settled and no replacement is due. */
  lemma {:induction false} CompletionIsEarned(ops: seq<Op>, op: Op, id: string)
    requires AllSound(ops) && Sound(op)
    requires id in Do(Run(map[], ops), op) && Do(Run(map[], ops), op)[id].status == Completed
    requires id in Run(map[], ops) ==> Run(map[], ops)[id].status != Completed
    ensures id in Run(map[], ops) && Finishable(Do(Run(map[], ops), op)[id])
  {
    hide Run, BatchOk, BatchLeads;
    EmptyOk();
    RunKeeps(map[], ops);
    var s := Run(map[], ops);
    if id in s {
      hide Do;
      DoKeeps(s, op);
      assert TurnsSettled(s[id], Do(s, op)[id]);
    }
  }

  /**
   At every later point, asking for a batch again with the draft it was created from is a replay
   as long as no replacement was used, and a conflict from then on.
   */
  lemma {:induction false} DraftReplaysUntilReplaced(early: seq<Op>, late: seq<Op>, draft: Batch)
    requires AllSound(early) && AllSound(late) && NewBatch(draft)
    requires GetOrCreate(Run(map[], early), draft).1 == Success((draft, false))
    ensures var t := Run(GetOrCreate(Run(map[], early), draft).0, late); var id := draft.plan.id;
      && id in t
      && GetOrCreate(t, draft).1 == if t[id].replacementUsed then Failure(ContentConflict) else Success((t[id], true))
  {
    hide Run, BatchOk, BatchLeads, NewBatch, SamePlan;
    EmptyOk();
    RunKeeps(map[], early);
    var s := GetOrCreate(Run(map[], early), draft).0;
    CreateKeeps(Run(map[], early), draft);
    RunKeeps(s, late);
    SamePlanIff(draft, Run(s, late)[draft.plan.id]);
  }

  lemma SamePlanIff(draft: Batch, b: Batch)
    requires NewBatch(draft) && BatchOk(b) && BatchLeads(draft, b)
    ensures SamePlan(b, draft) <==> !b.replacementUsed
  {
    forall i | 0 <= i < |draft.slots|
      ensures b.slots[i].plan == draft.slots[i].plan && !b.slots[i].plan.replacement
    {
      assert SlotLeads(draft.slots[i], b.slots[i]);
    }
    assert b.replacementUsed ==> b.slots[|b.slots| - 1].plan.replacement;
  }

  ghost predicate SettledWhenCompleted(s: State) {
    forall id :: id in s ==> CompletedIsSettled(s[id])
  }

  /** The service adds a replacement only after it saw the batch wanting one; the batch may have moved on since. */
  ghost predicate Asked(ops: seq<Op>, k: nat)
    requires k < |ops|
  {
    ops[k].Add? ==> exists j: nat :: j <= k && SawWanting(Run(map[], ops[..j]), ops[k].batchId)
  }

  ghost predicate SawWanting(s: State, id: string) {
    id in s && Wanting(s[id])
  }

  /** This operation finds an invalid slot wherever it adds a replacement. */
  ghost predicate Warranted(s: State, op: Op) {
    op.Add? && op.batchId in s ==> exists i: nat :: InvalidAt(s[op.batchId], i)
  }

  lemma {:induction false} RunSplits(s: State, first: seq<Op>, second: seq<Op>)
    ensures Run(s, first + second) == Run(Run(s, first), second)
    decreases |second|
  {
    hide Do;
    if second == [] {
      assert first + second == first;
    } else {
      var front := second[..|second| - 1];
      RunSplits(s, first, front);
      assert (first + second)[..|first + second| - 1] == first + front;
    }
  }

  /** The invalid slot that the service saw is still there when its request arrives. */
  lemma {:induction false} AskedIsWarranted(ops: seq<Op>, k: nat)
    requires k < |ops| && AllSound(ops) && Asked(ops, k)
    ensures Warranted(Run(map[], ops[..k]), ops[k])
  {
    hide Run, StateOk, Do, Sound;
    if ops[k].Add? {
      var id := ops[k].batchId;
      var j: nat :| j <= k && SawWanting(Run(map[], ops[..j]), id);
      var seen := Run(map[], ops[..j]);
      EmptyOk();
      RunKeeps(map[], ops[..j]);
      RunKeeps(seen, ops[j..k]);
      RunSplits(map[], ops[..j], ops[j..k]);
      assert ops[..j] + ops[j..k] == ops[..k];
      var i: nat :| InvalidAt(seen[id], i);
      var b := Run(map[], ops[..k])[id];
      assert SlotLeads(seen[id].slots[i], b.slots[i]);
      assert InvalidAt(b, i);
    }
  }

  /** With an invalid slot and no flag left to set, a completed settled batch takes no replacement. */
  lemma WarrantedSettled(b: Batch, r: Slot)
    requires BatchOk(b) && CompletedIsSettled(b) && NewSlot(r) && exists i: nat :: InvalidAt(b, i)
    ensures CompletedIsSettled(Replace(b, r).0)
    ensures b.status == Completed ==> Replace(b, r).0 == b
  {
    ReplacementInIff(b.slots);
    ReplaceUnsettlesIff(b, r);
    var i: nat :| InvalidAt(b, i);
    assert Failing(b.slots[i]);
  }

  lemma DoSettled(s: State, op: Op)
    requires StateOk(s) && Sound(op) && Warranted(s, op) && SettledWhenCompleted(s)
    ensures SettledWhenCompleted(Do(s, op))
  {
    EachOk(s);
    hide BatchOk, Good, StateOk, Dispatch, Validate, Bill, Replace, Exhaust, MarkObsolete, CompletedIsSettled;
    match op
    case Create(draft) => NewBatchOk(draft);
    case RecordDispatch(id, slotId) =>
      var at := Find(s, id, slotId);
      if at.Some? {
        DispatchGood(s[id], at.value);
      }
    case RecordValidate(id, slotId, validation, contentHash, deliverableRef) =>
      var at := Find(s, id, slotId);
      if at.Some? {
        ValidateGood(s[id], at.value, validation, contentHash, deliverableRef);
      }
    case RecordBill(id, slotId, billing) =>
      var at := Find(s, id, slotId);
      if at.Some? {
        BillGood(s[id], at.value, billing);
      }
    case Add(id, replacement) =>
      if id in s {
        WarrantedSettled(s[id], replacement);
      }
    case DoExhaust(id) =>
      if id in s {
        ExhaustGood(s[id]);
      }
    case DoObsolete(taskId, revision) =>
      forall id | id in s && Outdated(s[id], taskId, revision)
        ensures CompletedIsSettled(MarkObsolete(s[id]))
      {
        MarkObsoleteGood(s[id]);
      }
  }

  /**
   The repository as the service drives it: when every replacement was asked for after an invalid
   slot was seen with neither flag set, completed batches are settled at every point.
   */
  lemma {:induction false} CompletedStaysSettled(ops: seq<Op>)
    requires AllSound(ops) && forall k :: 0 <= k < |ops| ==> Asked(ops, k)
    ensures SettledWhenCompleted(Run(map[], ops))
    decreases |ops|
  {
    hide Do, Sound, SettledWhenCompleted, StateOk, Warranted;
    if ops == [] {
      NothingCompleted();
    } else {
      var init, last := ops[..|ops| - 1], |ops| - 1;
      forall k | 0 <= k < |init|
        ensures Asked(init, k)
      {
        AskedInFront(ops, init, k);
      }
      CompletedStaysSettled(init);
      EmptyOk();
      RunKeeps(map[], init);
      AskedIsWarranted(ops, last);
      DoSettled(Run(map[], init), ops[last]);
    }
  }

  lemma AskedInFront(ops: seq<Op>, front: seq<Op>, k: nat)
    requires front <= ops && k < |front| && Asked(ops, k)
    ensures Asked(front, k)
  {
    hide Run;
    if ops[k].Add? {
      var j: nat :| j <= k && SawWanting(Run(map[], ops[..j]), ops[k].batchId);
      assert front[..j] == ops[..j];
    }
  }

  /** So driven, no request for a replacement changes a completed batch. */
  lemma {:induction false} CompletedIsNotReplaced(ops: seq<Op>, k: nat)
    requires AllSound(ops) && forall i :: 0 <= i < |ops| ==> Asked(ops, i)
    requires k < |ops| && ops[k].Add?
    requires var s := Run(map[], ops[..k]); ops[k].batchId in s && s[ops[k].batchId].status == Completed
    ensures Do(Run(map[], ops[..k]), ops[k]) == Run(map[], ops[..k])
  {
    hide Run, StateOk, BatchOk, Replace, Sound;
    forall i | 0 <= i < |ops[..k]|
      ensures Asked(ops[..k], i)
    {
      AskedInFront(ops, ops[..k], i);
    }
    CompletedStaysSettled(ops[..k]);
    EmptyOk();
    RunKeeps(map[], ops[..k]);
    EachOk(Run(map[], ops[..k]));
    AskedIsWarranted(ops, k);
    assert Sound(ops[k]);
    SoundAdds(ops[k]);
    var s, id := Run(map[], ops[..k]), ops[k].batchId;
    WarrantedSettled(s[id], ops[k].replacement);
    assert s[id := s[id]] == s;
  }

  lemma SoundAdds(op: Op)
    requires Sound(op) && op.Add?
    ensures NewSlot(op.replacement)
  {
  }

  lemma NothingCompleted()
    ensures SettledWhenCompleted(map[])
  {
  }

  // The repository alone

  function Plan(id: string, ordinal: int, replacement: bool): SlotPlan {
    SlotPlan(id, "b", ordinal, 1, replacement, "agent", "provider", 1, "q", "1", "1", id, id)
  }

  /** A batch with this one slot. */
  function OneSlot(status: BatchStatus, s: Slot): Batch {
    Batch(BatchPlan("b", "n", "t", "h", 1, "v", "r", "h", 1), status, false, false, [s])
  }

  function Fresh(id: string, ordinal: int, replacement: bool): Slot {
    Slot(Plan(id, ordinal, replacement), Planned, Authorized, Validation(false, []), "", "")
  }

  function Approved(billing: Billing): Slot {
    Slot(Plan("s", 1, false), Valid, billing, Validation(true, []), "h", "d")
  }

  /** A run in which the only slot of a batch is dispatched, found valid and paid for. */
  function PaidRun(): seq<Op> {
    [Create(OneSlot(Running, Fresh("s", 1, false)))] + [RecordDispatch("b", "s")]
    + [RecordValidate("b", "s", Validation(true, []), "h", "d")] + [RecordBill("b", "s", Captured)]
  }

  lemma RunMore(s: State, ops: seq<Op>, op: Op)
    ensures Run(s, ops + [op]) == Do(Run(s, ops), op)
  {
    assert (ops + [op])[..|ops|] == ops;
  }

  lemma OneSlotFound(status: BatchStatus, s: Slot)
    requires s.plan.id == "s"
    ensures Find(map["b" := OneSlot(status, s)], "b", "s") == Some(0)
    ensures forall t: Slot :: SetSlot(OneSlot(status, s), 0, t) == OneSlot(status, t)
  {
    assert [s][..0] == [];
    assert forall t: Slot :: [s][0 := t] == [t];
  }

  lemma ApprovedAndPaid()
    ensures var sent := Fresh("s", 1, false).(status := Dispatched);
      Validate(OneSlot(Running, sent), 0, Validation(true, []), "h", "d").0 == OneSlot(Running, Approved(Authorized))
    ensures Bill(OneSlot(Running, Approved(Authorized)), 0, Captured).0 == OneSlot(Completed, Approved(Captured))
  {
    var sent := Fresh("s", 1, false).(status := Dispatched);
    OneSlotFound(Running, sent);
    OneSlotFound(Running, Approved(Authorized));
    assert !Finishable(OneSlot(Running, Approved(Authorized))) by {
      assert OneSlot(Running, Approved(Authorized)).slots[0].billing == Authorized;
    }
  }

  lemma PaidRunPays()
    ensures AllSound(PaidRun()) && Run(map[], PaidRun()) == map["b" := OneSlot(Completed, Approved(Captured))]
  {
    hide Validate, Bill, Finish;
    var draft, sent := OneSlot(Running, Fresh("s", 1, false)), Fresh("s", 1, false).(status := Dispatched);
    var first := [Create(draft)];
    var second := first + [RecordDispatch("b", "s")];
    var third := second + [RecordValidate("b", "s", Validation(true, []), "h", "d")];
    RunMore(map[], [], Create(draft));
    assert [] + [Create(draft)] == first;
    assert Run(map[], first) == map["b" := draft];
    OneSlotFound(Running, Fresh("s", 1, false));
    RunMore(map[], first, RecordDispatch("b", "s"));
    assert Run(map[], second) == map["b" := OneSlot(Running, sent)];
    OneSlotFound(Running, sent);
    ApprovedAndPaid();
    RunMore(map[], second, RecordValidate("b", "s", Validation(true, []), "h", "d"));
    assert Run(map[], third) == map["b" := OneSlot(Running, Approved(Authorized))];
    OneSlotFound(Running, Approved(Authorized));
    RunMore(map[], third, RecordBill("b", "s", Captured));
  }

  /** After that run the repository alone still takes a replacement, and the batch is then completed with an open slot. */
  lemma CompletedCanReopen()
    ensures AllSound(PaidRun() + [Add("b", Fresh("r", 2, true))])
    ensures var s := Run(map[], PaidRun()); "b" in s && s["b"].status == Completed && AllSettled(s["b"])
    ensures var s := Run(map[], PaidRun() + [Add("b", Fresh("r", 2, true))]);
      "b" in s && s["b"].status == Completed && !AllSettled(s["b"])
  {
    PaidRunPays();
    var r := Fresh("r", 2, true);
    RunMore(map[], PaidRun(), Add("b", r));
    assert Replace(OneSlot(Completed, Approved(Captured)), r).0.slots[1] == r;
  }
}
