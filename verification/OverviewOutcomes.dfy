/** When every operation on an overview batch is accepted, what it changes, and when it completes the batch. */
module OverviewOutcomes {
  import opened Wrappers
  import opened OverviewBatch

  /** Nothing is open or unbilled, and a failure was replaced or cannot be replaced any more. */
  predicate Done(slots: seq<Slot>, replacementUsed: bool, replacementExhausted: bool) {
    && (forall i :: 0 <= i < |slots| ==>
          && slots[i].status in {Valid, Invalid, Failed, SlotObsolete}
          && slots[i].billing in {Captured, Released})
    && ((exists i :: 0 <= i < |slots| && slots[i].status in {Invalid, Failed}) ==> replacementUsed || replacementExhausted)
  }

  /** The batch goes on with these slots, and is completed when that leaves nothing to do. */
  predicate Continues(b: Batch, c: Batch, slots: seq<Slot>, replacementUsed: bool, replacementExhausted: bool) {
    && c.slots == slots && c.replacementUsed == replacementUsed && c.replacementExhausted == replacementExhausted && c.plan == b.plan
    && c.status == if Done(slots, replacementUsed, replacementExhausted) then Completed else b.status
  }

  lemma {:induction false} FinishContinues(b: Batch)
    requires b.status != Obsolete
    ensures Continues(b, Finish(b), b.slots, b.replacementUsed, b.replacementExhausted)
  {
    assert forall i :: 0 <= i < |b.slots| ==> (Resolved(b.slots[i]) <==> b.slots[i].status in {Valid, Invalid, Failed, SlotObsolete});
    assert forall i :: 0 <= i < |b.slots| ==> (b.slots[i].billing != Authorized <==> b.slots[i].billing in {Captured, Released});
    assert forall i :: 0 <= i < |b.slots| ==> (Failing(b.slots[i]) <==> b.slots[i].status in {Invalid, Failed});
    hide Resolved, Failing;
  }

  /** A slot is looked up by its id; the first one of the batch counts. */
  lemma {:induction false} FindIs(s: State, batchId: string, slotId: string, i: nat)
    ensures Find(s, batchId, slotId) == Some(i) <==>
      batchId in s && i < |s[batchId].slots| && s[batchId].slots[i].plan.id == slotId
      && forall j :: 0 <= j < i ==> s[batchId].slots[j].plan.id != slotId
    ensures Find(s, batchId, slotId).None? <==>
      batchId in s ==> forall j :: 0 <= j < |s[batchId].slots| ==> s[batchId].slots[j].plan.id != slotId
  {
    if batchId in s {
      SlotIndexIs(s[batchId].slots, slotId);
    }
    hide SlotIndex;
  }

  // ---- dispatch ----

  lemma {:induction false} DispatchOutcome(b: Batch, i: nat)
    requires i < |b.slots|
    ensures var (c, error) := Dispatch(b, i); var status := b.slots[i].status;
      if b.status == Obsolete then c == b && error == Some(IsObsolete)
      else if status == Dispatched then c == b && error.None?
      else if status == Planned then
        && error.None? && c.(slots := b.slots) == b && |c.slots| == |b.slots|
        && c.slots[i].status == Dispatched && c.slots[i].(status := Planned) == b.slots[i]
        && forall j :: 0 <= j < |b.slots| && j != i ==> c.slots[j] == b.slots[j]
      else c == b && error == Some(InvalidState)
  {
  }

  // ---- validation ----

  predicate SharesContent(b: Batch, i: nat, contentHash: string) {
    exists j :: 0 <= j < |b.slots| && j != i && b.slots[j].status == Valid && b.slots[j].contentHash == contentHash
  }

  /** The slot after its verdict: content that a valid slot already has is no valid content. */
  predicate JudgedAs(b: Batch, i: nat, s: Slot, validation: Validation, contentHash: string, deliverableRef: string)
    requires i < |b.slots|
  {
    && s.plan == b.slots[i].plan && s.billing == b.slots[i].billing && s.contentHash == contentHash && s.deliverableRef == deliverableRef
    && if validation.valid && SharesContent(b, i, contentHash) then
         s.status == Invalid && !s.validation.valid && s.validation.codes == ["duplicate_content"]
       else s.validation == validation && s.status == if validation.valid then Valid else Invalid
  }

  /** A dispatched slot is judged once; the same content again is a repetition, other content a conflict. */
  lemma {:induction false} ValidateOutcome(b: Batch, i: nat, validation: Validation, contentHash: string, deliverableRef: string)
    requires i < |b.slots|
    ensures var (c, r) := Validate(b, i, validation, contentHash, deliverableRef); var s := b.slots[i];
      if b.status == Obsolete then c == b && r == Failure(IsObsolete)
      else if s.status in {Valid, Invalid} then
        c == b && r == if s.contentHash == contentHash && s.deliverableRef == deliverableRef then Success(true) else Failure(ContentConflict)
      else if s.status != Dispatched then c == b && r == Failure(InvalidState)
      else
        && r == Success(false) && i < |c.slots| && JudgedAs(b, i, c.slots[i], validation, contentHash, deliverableRef)
        && Continues(b, c, b.slots[i := c.slots[i]], b.replacementUsed, b.replacementExhausted)
  {
    hide Continues, Finish;
    if b.status != Obsolete && b.slots[i].status == Dispatched {
      var (c, r) := Validate(b, i, validation, contentHash, deliverableRef);
      var judged := Judged(b, i, validation, contentHash);
      var s := b.slots[i].(validation := judged, contentHash := contentHash, deliverableRef := deliverableRef,
                           status := if judged.valid then Valid else Invalid);
      assert c == Finish(SetSlot(b, i, s));
      FinishContinues(SetSlot(b, i, s));
      OnlySlots(b, SetSlot(b, i, s), c, b.slots[i := s]);
    }
  }

  lemma OnlySlots(b: Batch, changed: Batch, c: Batch, slots: seq<Slot>)
    requires changed == b.(slots := slots) && Continues(changed, c, slots, b.replacementUsed, b.replacementExhausted)
    ensures c.slots == slots && Continues(b, c, slots, b.replacementUsed, b.replacementExhausted)
  {
    hide Done;
  }

  // ---- billing ----

  /** Who may be billed how: a valid slot is captured, one that came to nothing is released. */
  predicate Billable(b: Batch, i: nat, billing: Billing)
    requires i < |b.slots|
  {
    match billing
    case Authorized => false
    case Captured => b.slots[i].status == Valid
    case Released =>
      match b.slots[i].status
      case Invalid => true
      case Failed => true
      case SlotObsolete => true
      case Valid => b.status == Obsolete
      case Planned => false
      case Dispatched => false
  }

  /** A slot is billed once: again alike it is a repetition, otherwise refused. */
  lemma {:induction false} BillOutcome(b: Batch, i: nat, billing: Billing)
    requires i < |b.slots|
    ensures var (c, error) := Bill(b, i, billing); var s := b.slots[i];
      if billing == Authorized then c == b && error == Some(InvalidInput)
      else if s.billing == billing then c == b && error.None?
      else if s.billing == Authorized && Billable(b, i, billing) then
        && error.None? && i < |c.slots| && c.slots[i].billing == billing && c.slots[i].(billing := Authorized) == s
        && (b.status != Obsolete ==> Continues(b, c, b.slots[i := c.slots[i]], b.replacementUsed, b.replacementExhausted))
        && (b.status == Obsolete ==> c == b.(slots := b.slots[i := c.slots[i]]))
      else c == b && error == Some(InvalidState)
  {
    hide Continues, Finish;
    var s := b.slots[i];
    if billing != Authorized && s.billing == Authorized && Billable(b, i, billing) {
      var (c, error) := Bill(b, i, billing);
      var billed := SetSlot(b, i, s.(billing := billing));
      assert c == Finish(billed);
      if b.status != Obsolete {
        FinishContinues(billed);
        OnlySlots(b, billed, c, b.slots[i := s.(billing := billing)]);
      } else {
        ObsoleteStays(billed);
      }
    }
  }

  lemma ObsoleteStays(b: Batch)
    requires b.status == Obsolete
    ensures Finish(b) == b
  {
  }

  // ---- replacement ----

  /** The batch's first replacement. */
  predicate FirstReplacement(slots: seq<Slot>, i: nat) {
    i < |slots| && slots[i].plan.replacement && forall j :: 0 <= j < i ==> !slots[j].plan.replacement
  }

  lemma {:induction false} ReplacementAt(slots: seq<Slot>, i: nat)
    requires FirstReplacement(slots, i)
    ensures ReplacementIn(slots) == Some(slots[i])
    decreases |slots|
  {
    if i > 0 {
      assert !slots[0].plan.replacement;
      ReplacementAt(slots[1..], i - 1);
    }
  }

  lemma {:induction false} NoReplacement(slots: seq<Slot>)
    requires forall j :: 0 <= j < |slots| ==> !slots[j].plan.replacement
    ensures ReplacementIn(slots).None?
    decreases |slots|
  {
    if slots != [] {
      NoReplacement(slots[1..]);
    }
  }

  /** One replacement is appended, unless replacing was given up; the same one again is a repetition. */
  lemma {:induction false} ReplaceOutcome(b: Batch, r: Slot, i: nat)
    ensures var (c, result) := Replace(b, r);
      if b.status == Obsolete then c == b && result == Failure(IsObsolete)
      else
        && (FirstReplacement(b.slots, i) ==> c == b && result == if b.slots[i].plan == r.plan then Success(true) else Failure(ContentConflict))
        && ((forall j :: 0 <= j < |b.slots| ==> !b.slots[j].plan.replacement) ==>
              if !b.replacementUsed && !b.replacementExhausted && r.plan.replacement && r.plan.ordinal == |b.slots| + 1 && r.plan.batchId == b.plan.id
              then result == Success(false) && c == Batch(b.plan, b.status, true, false, b.slots + [r])
              else c == b && result == Failure(InvalidState))
  {
    if FirstReplacement(b.slots, i) {
      ReplacementAt(b.slots, i);
    }
    if forall j :: 0 <= j < |b.slots| ==> !b.slots[j].plan.replacement {
      NoReplacement(b.slots);
    }
  }

  /** Giving up on a replacement that was not used may complete the batch. */
  lemma {:induction false} ExhaustOutcome(b: Batch)
    ensures var c := Exhaust(b);
      if b.replacementUsed || b.replacementExhausted then c == b
      else if b.status == Obsolete then c == Batch(b.plan, Obsolete, false, true, b.slots)
      else Continues(b, c, b.slots, false, true)
  {
    var given := b.(replacementExhausted := true);
    if b.status != Obsolete && !b.replacementUsed && !b.replacementExhausted {
      FinishContinues(given);
    }
    hide Done, Finishable;
  }

  // ---- obsolete batches ----

  /** Older batches of the task become obsolete, with every slot that was not judged or failed yet; all others stay. */
  lemma {:induction false} ObsoleteOutcome(s: State, taskId: string, revision: int, id: string)
    requires id in s
    ensures var t := ObsoleteBefore(s, taskId, revision); var b := s[id];
      && t.Keys == s.Keys
      && if b.plan.taskId == taskId && b.plan.matchRevision < revision && b.status != Obsolete then
           && t[id].(status := b.status, slots := b.slots) == b && t[id].status == Obsolete && |t[id].slots| == |b.slots|
           && forall i :: 0 <= i < |b.slots| ==>
                t[id].slots[i] == if b.slots[i].status in {Planned, Dispatched, SlotObsolete} then b.slots[i].(status := SlotObsolete) else b.slots[i]
         else t[id] == b
  {
    var b := s[id];
    forall i | 0 <= i < |b.slots|
      ensures ObsoleteSlot(b.slots[i]) == if b.slots[i].status in {Planned, Dispatched, SlotObsolete} then b.slots[i].(status := SlotObsolete) else b.slots[i]
    {
      StatusesOf(b.slots[i].status);
    }
    hide ObsoleteSlot;
  }

  lemma StatusesOf(status: SlotStatus)
    ensures status in {Valid, Invalid, Failed} <==> status !in {Planned, Dispatched, SlotObsolete}
  {
  }

  // ---- creation ----

  predicate SameSlots(a: seq<Slot>, b: seq<Slot>) {
    |a| == |b| && forall i :: 0 <= i < |a| ==> a[i].plan == b[i].plan
  }

  /** One batch per id and snapshot; the same plans again are a repetition. */
  lemma {:induction false} CreateOutcome(s: State, draft: Batch)
    ensures var (t, r) := GetOrCreate(s, draft);
      if draft.plan.id in s then
        var b := s[draft.plan.id];
        t == s && r == if b.plan == draft.plan && SameSlots(b.slots, draft.slots) then Success((b, true)) else Failure(ContentConflict)
      else if exists id :: id in s && s[id].plan.snapshotId == draft.plan.snapshotId then t == s && r == Failure(ContentConflict)
      else t == s[draft.plan.id := draft] && r == Success((draft, false))
  {
  }
}
