/** Overview batches: the transitions of services/engine/internal/overview/memory.go and the repository that stores them. */
module OverviewBatch {
  import opened Wrappers

  datatype SlotStatus = Planned | Dispatched | Valid | Invalid | Failed | SlotObsolete

  datatype Billing = Authorized | Captured | Released

  datatype BatchStatus = Running | Completed | Obsolete

  /** What sameSlotPlan compares. */
  datatype SlotPlan = SlotPlan(
    id: string, batchId: string, ordinal: int, sourcePosition: int, replacement: bool, agentId: string, providerId: string,
    priceVersion: int, quoteHash: string, overviewPrice: string, externalCostCap: string, allocationId: string,
    logicalExecutionId: string)

  datatype Validation = Validation(valid: bool, codes: seq<string>)

  datatype Slot = Slot(
    plan: SlotPlan, status: SlotStatus, billing: Billing, validation: Validation, contentHash: string, deliverableRef: string)

  datatype BatchPlan = BatchPlan(
    id: string, snapshotId: string, taskId: string, taskSpecHash: string, matchRevision: int, algorithmVersion: string,
    briefRef: string, briefHash: string, deadline: int)

  datatype Batch = Batch(
    plan: BatchPlan, status: BatchStatus, replacementUsed: bool, replacementExhausted: bool, slots: seq<Slot>)

  datatype Error = InvalidInput | NotFound | ContentConflict | InvalidState | IsObsolete

  predicate Resolved(s: Slot) {
    s.status != Planned && s.status != Dispatched
  }

  predicate Failing(s: Slot) {
    s.status == Invalid || s.status == Failed
  }

  predicate AllSettled(b: Batch) {
    forall i :: 0 <= i < |b.slots| ==> Resolved(b.slots[i]) && b.slots[i].billing != Authorized
  }

  predicate Finishable(b: Batch) {
    && AllSettled(b)
    && (b.replacementUsed || b.replacementExhausted || forall i :: 0 <= i < |b.slots| ==> !Failing(b.slots[i]))
  }

  /** finish: a batch completes once nothing is open and no replacement is due. */
  function Finish(b: Batch): Batch {
    if b.status != Obsolete && Finishable(b) then b.(status := Completed) else b
  }

  function SlotIndex(slots: seq<Slot>, slotId: string): Option<nat> {
    if slots == [] then None
    else if SlotIndex(slots[..|slots| - 1], slotId).Some? then SlotIndex(slots[..|slots| - 1], slotId)
    else if slots[|slots| - 1].plan.id == slotId then Some(|slots| - 1)
    else None
  }

  lemma {:induction false} SlotIndexIs(slots: seq<Slot>, slotId: string)
    ensures match SlotIndex(slots, slotId)
            case None => forall i :: 0 <= i < |slots| ==> slots[i].plan.id != slotId
            case Some(i) => i < |slots| && slots[i].plan.id == slotId && forall j :: 0 <= j < i ==> slots[j].plan.id != slotId
    decreases |slots|
  {
    if slots != [] {
      SlotIndexIs(slots[..|slots| - 1], slotId);
    }
  }

  function SetSlot(b: Batch, i: nat, s: Slot): Batch
    requires i < |b.slots|
  {
    b.(slots := b.slots[i := s])
  }

  function Dispatch(b: Batch, i: nat): (Batch, Option<Error>)
    requires i < |b.slots|
  {
    if b.status == Obsolete then (b, Some(IsObsolete))
    else if b.slots[i].status == Dispatched then (b, None)
    else if b.slots[i].status != Planned then (b, Some(InvalidState))
    else (SetSlot(b, i, b.slots[i].(status := Dispatched)), None)
  }

  /** Another slot of the batch is valid with this content. */
  predicate Duplicated(b: Batch, i: nat, contentHash: string) {
    exists j :: 0 <= j < |b.slots| && j != i && b.slots[j].status == Valid && b.slots[j].contentHash == contentHash
  }

  function Judged(b: Batch, i: nat, validation: Validation, contentHash: string): Validation {
    if validation.valid && Duplicated(b, i, contentHash) then Validation(false, ["duplicate_content"]) else validation
  }

  function Validate(b: Batch, i: nat, validation: Validation, contentHash: string, deliverableRef: string): (Batch, Result<bool, Error>)
    requires i < |b.slots|
  {
    var s := b.slots[i];
    if b.status == Obsolete then (b, Failure(IsObsolete))
    else if s.status == Valid || s.status == Invalid then
      (b, if s.contentHash != contentHash || s.deliverableRef != deliverableRef then Failure(ContentConflict) else Success(true))
    else if s.status != Dispatched then (b, Failure(InvalidState))
    else
      var judged := Judged(b, i, validation, contentHash);
      (Finish(SetSlot(b, i, s.(validation := judged, contentHash := contentHash, deliverableRef := deliverableRef,
                               status := if judged.valid then Valid else Invalid))),
       Success(false))
  }

  predicate ReleaseAllowed(b: Batch, s: Slot) {
    s.status in {Invalid, Failed, SlotObsolete} || (b.status == Obsolete && s.status == Valid)
  }

  function Bill(b: Batch, i: nat, billing: Billing): (Batch, Option<Error>)
    requires i < |b.slots|
  {
    var s := b.slots[i];
    if billing == Authorized then (b, Some(InvalidInput))
    else if s.billing == billing then (b, None)
    else if s.billing != Authorized || (billing == Captured && s.status != Valid) || (billing == Released && !ReleaseAllowed(b, s)) then
      (b, Some(InvalidState))
    else (Finish(SetSlot(b, i, s.(billing := billing))), None)
  }

  function ReplacementIn(slots: seq<Slot>): Option<Slot> {
    if slots == [] then None else if slots[0].plan.replacement then Some(slots[0]) else ReplacementIn(slots[1..])
  }

  function Replace(b: Batch, r: Slot): (Batch, Result<bool, Error>) {
    if b.status == Obsolete then (b, Failure(IsObsolete))
    else if ReplacementIn(b.slots).Some? then
      (b, if ReplacementIn(b.slots).value.plan != r.plan then Failure(ContentConflict) else Success(true))
    else if b.replacementUsed || b.replacementExhausted || !r.plan.replacement || r.plan.ordinal != |b.slots| + 1
            || r.plan.batchId != b.plan.id then (b, Failure(InvalidState))
    else (b.(replacementUsed := true, slots := b.slots + [r]), Success(false))
  }

  function Exhaust(b: Batch): Batch {
    if b.replacementUsed || b.replacementExhausted then b else Finish(b.(replacementExhausted := true))
  }

  function ObsoleteSlot(s: Slot): Slot {
    if s.status in {Valid, Invalid, Failed} then s else s.(status := SlotObsolete)
  }

  function MarkObsolete(b: Batch): Batch {
    b.(status := Obsolete, slots := seq(|b.slots|, i requires 0 <= i < |b.slots| => ObsoleteSlot(b.slots[i])))
  }

  predicate SamePlan(a: Batch, b: Batch) {
    a.plan == b.plan && |a.slots| == |b.slots| && forall i :: 0 <= i < |a.slots| ==> a.slots[i].plan == b.slots[i].plan
  }

  // The repository as a value

  type State = map<string, Batch>

  predicate SnapshotTaken(s: State, snapshotId: string) {
    exists id :: id in s && s[id].plan.snapshotId == snapshotId
  }

  function GetOrCreate(s: State, draft: Batch): (State, Result<(Batch, bool), Error>) {
    if draft.plan.id in s then
      (s, if SamePlan(s[draft.plan.id], draft) then Success((s[draft.plan.id], true)) else Failure(ContentConflict))
    else if SnapshotTaken(s, draft.plan.snapshotId) then (s, Failure(ContentConflict))
    else (s[draft.plan.id := draft], Success((draft, false)))
  }

  /** slot: the batch and the first of its slots with this id. */
  function Find(s: State, batchId: string, slotId: string): (at: Option<nat>)
    ensures at.Some? ==> batchId in s && at.value < |s[batchId].slots|
  {
    if batchId !in s then None
    else
      SlotIndexIs(s[batchId].slots, slotId);
      SlotIndex(s[batchId].slots, slotId)
  }

  predicate Outdated(b: Batch, taskId: string, revision: int) {
    b.plan.taskId == taskId && b.plan.matchRevision < revision && b.status != Obsolete
  }

  function ObsoleteBefore(s: State, taskId: string, revision: int): (t: State)
    ensures t.Keys == s.Keys
  {
    map id | id in s :: if Outdated(s[id], taskId, revision) then MarkObsolete(s[id]) else s[id]
  }

  class MemoryRepository {
    var batches: State

    constructor ()
      ensures batches == map[]
    {
      batches := map[];
    }

    method Create(draft: Batch) returns (r: Result<(Batch, bool), Error>)
      modifies this
      ensures (batches, r) == GetOrCreate(old(batches), draft)
    {
      if draft.plan.id in batches {
        if !SamePlan(batches[draft.plan.id], draft) {
          return Failure(ContentConflict);
        }
        return Success((batches[draft.plan.id], true));
      }
      var left := batches.Keys;
      while left != {}
        invariant left <= batches.Keys && batches == old(batches)
        invariant forall id :: id in batches && id !in left ==> batches[id].plan.snapshotId != draft.plan.snapshotId
        decreases |left|
      {
        var id :| id in left;
        if batches[id].plan.snapshotId == draft.plan.snapshotId {
          return Failure(ContentConflict);
        }
        left := left - {id};
      }
      batches := batches[draft.plan.id := draft];
      return Success((draft, false));
    }

    method FindSlot(batchId: string, slotId: string) returns (index: Option<nat>)
      ensures index == Find(batches, batchId, slotId)
    {
      if batchId !in batches {
        return None;
      }
      var slots := batches[batchId].slots;
      SlotIndexIs(slots, slotId);
      var i := 0;
      while i < |slots|
        invariant 0 <= i <= |slots| && forall j :: 0 <= j < i ==> slots[j].plan.id != slotId
      {
        if slots[i].plan.id == slotId {
          return Some(i);
        }
        i := i + 1;
      }
      return None;
    }

    method RecordDispatched(batchId: string, slotId: string) returns (error: Option<Error>)
      modifies this
      ensures match Find(old(batches), batchId, slotId)
              case None => batches == old(batches) && error == Some(NotFound)
              case Some(i) => var r := Dispatch(old(batches)[batchId], i); batches == old(batches)[batchId := r.0] && error == r.1
    {
      var found := FindSlot(batchId, slotId);
      if found.None? {
        return Some(NotFound);
      }
      var batch, slot := batches[batchId], batches[batchId].slots[found.value];
      assert batches == batches[batchId := batch];
      if batch.status == Obsolete {
        return Some(IsObsolete);
      }
      if slot.status == Dispatched {
        return None;
      }
      if slot.status != Planned {
        return Some(InvalidState);
      }
      slot := slot.(status := Dispatched);
      batch := batch.(slots := batch.slots[found.value := slot]);
      batches := batches[batchId := batch];
      return None;
    }

    method RecordValidation(batchId: string, slotId: string, validation: Validation, contentHash: string, deliverableRef: string)
      returns (r: Result<bool, Error>)
      modifies this
      ensures match Find(old(batches), batchId, slotId)
              case None => batches == old(batches) && r == Failure(NotFound)
              case Some(i) =>
                var next := Validate(old(batches)[batchId], i, validation, contentHash, deliverableRef);
                batches == old(batches)[batchId := next.0] && r == next.1
    {
      var found := FindSlot(batchId, slotId);
      if found.None? {
        return Failure(NotFound);
      }
      var batch, index := batches[batchId], found.value;
      var slot := batch.slots[index];
      assert batches == batches[batchId := batch];
      if batch.status == Obsolete {
        return Failure(IsObsolete);
      }
      if slot.status == Valid || slot.status == Invalid {
        if slot.contentHash != contentHash || slot.deliverableRef != deliverableRef {
          return Failure(ContentConflict);
        }
        return Success(true);
      }
      if slot.status != Dispatched {
        return Failure(InvalidState);
      }
      var judged := validation;
      if judged.valid {
        var other := 0;
        while other < |batch.slots|
          invariant 0 <= other <= |batch.slots| && judged == validation
          invariant forall j :: 0 <= j < other ==>
            !(j != index && batch.slots[j].status == Valid && batch.slots[j].contentHash == contentHash)
        {
          if other != index && batch.slots[other].status == Valid && batch.slots[other].contentHash == contentHash {
            judged := Validation(false, ["duplicate_content"]);
            break;
          }
          other := other + 1;
        }
      }
      assert judged == Judged(batch, index, validation, contentHash);
      slot := slot.(validation := judged, contentHash := contentHash, deliverableRef := deliverableRef,
                    status := if judged.valid then Valid else Invalid);
      batch := Finish(batch.(slots := batch.slots[index := slot]));
      batches := batches[batchId := batch];
      return Success(false);
    }

    method RecordBilling(batchId: string, slotId: string, billing: Billing) returns (error: Option<Error>)
      modifies this
      ensures match Find(old(batches), batchId, slotId)
              case None => batches == old(batches) && error == Some(NotFound)
              case Some(i) => var r := Bill(old(batches)[batchId], i, billing); batches == old(batches)[batchId := r.0] && error == r.1
    {
      var found := FindSlot(batchId, slotId);
      if found.None? {
        return Some(NotFound);
      }
      var batch, slot := batches[batchId], batches[batchId].slots[found.value];
      assert batches == batches[batchId := batch];
      if billing == Authorized {
        return Some(InvalidInput);
      }
      if slot.billing == billing {
        return None;
      }
      var releaseAllowed := ReleaseAllowed(batch, slot);
      if slot.billing != Authorized || (billing == Captured && slot.status != Valid) || (billing == Released && !releaseAllowed) {
        return Some(InvalidState);
      }
      slot := slot.(billing := billing);
      batch := Finish(batch.(slots := batch.slots[found.value := slot]));
      batches := batches[batchId := batch];
      return None;
    }

    method AddReplacement(batchId: string, replacement: Slot) returns (r: Result<bool, Error>)
      modifies this
      ensures if batchId !in old(batches) then batches == old(batches) && r == Failure(NotFound)
              else var next := Replace(old(batches)[batchId], replacement); batches == old(batches)[batchId := next.0] && r == next.1
    {
      if batchId !in batches {
        return Failure(NotFound);
      }
      var batch := batches[batchId];
      assert batches == batches[batchId := batch];
      if batch.status == Obsolete {
        return Failure(IsObsolete);
      }
      var i := 0;
      while i < |batch.slots|
        invariant 0 <= i <= |batch.slots| && ReplacementIn(batch.slots) == ReplacementIn(batch.slots[i..])
      {
        if batch.slots[i].plan.replacement {
          if batch.slots[i].plan != replacement.plan {
            return Failure(ContentConflict);
          }
          return Success(true);
        }
        i := i + 1;
      }
      if batch.replacementUsed || batch.replacementExhausted || !replacement.plan.replacement
         || replacement.plan.ordinal != |batch.slots| + 1 || replacement.plan.batchId != batch.plan.id {
        return Failure(InvalidState);
      }
      batches := batches[batchId := batch.(replacementUsed := true, slots := batch.slots + [replacement])];
      return Success(false);
    }

    method ExhaustReplacement(batchId: string) returns (error: Option<Error>)
      modifies this
      ensures if batchId !in old(batches) then batches == old(batches) && error == Some(NotFound)
              else batches == old(batches)[batchId := Exhaust(old(batches)[batchId])] && error == None
    {
      if batchId !in batches {
        return Some(NotFound);
      }
      var batch := batches[batchId];
      assert batches == batches[batchId := batch];
      if !batch.replacementUsed && !batch.replacementExhausted {
        batch := Finish(batch.(replacementExhausted := true));
        batches := batches[batchId := batch];
      }
      return None;
    }

    method MarkObsoleteBefore(taskId: string, revision: int) returns (error: Option<Error>)
      modifies this
      ensures if taskId == "" || revision < 1 then batches == old(batches) && error == Some(InvalidInput)
              else batches == ObsoleteBefore(old(batches), taskId, revision) && error == None
    {
      if taskId == "" || revision < 1 {
        return Some(InvalidInput);
      }
      var left := batches.Keys;
      while left != {}
        invariant left <= batches.Keys == old(batches).Keys
        invariant forall id :: id in batches && id in left ==> batches[id] == old(batches)[id]
        invariant forall id :: id in batches && id !in left ==> batches[id] == ObsoleteBefore(old(batches), taskId, revision)[id]
        decreases |left|
      {
        var id :| id in left;
        var batch := batches[id];
        if batch.plan.taskId == taskId && batch.plan.matchRevision < revision && batch.status != Obsolete {
          batches := batches[id := MarkObsolete(batch)];
        }
        left := left - {id};
      }
      return None;
    }
  }
}
