/** Safety of the ledger over every run of the funds service. */
module FundsRuns {
  import opened Wrappers
  import opened Text
  import opened FundsLedger
  import opened FundsPosting
  import opened FundsInvariant
  import opened FundsOperations

  datatype Op =
    | Open(request: OpenRequest)
    | Fund(funding: FundingRequest)
    | Authorize(authorization: Authorization, now: int)
    | Capture(id: string, claim: Claim)
    | Release(id: string, reasonCode: string)
    | Reverse(reverse: ReverseRequest)

  ghost function Do(l: Ledger, asset: string, op: Op): Ledger {
    match op
    case Open(request) => OpenRequested(l, request).0
    case Fund(request) => RecordFunding(l, request).0
    case Authorize(request, now) => AuthorizeOverview(l, asset, request, now).0
    case Capture(id, claim) => CaptureOverview(l, id, claim).0
    case Release(id, reasonCode) => ReleaseOverview(l, id, reasonCode).0
    case Reverse(request) => ReverseJournal(l, request).0
  }

  /** The ledger after a run; every operation may succeed, replay or fail. */
  ghost function Run(l: Ledger, asset: string, ops: seq<Op>): Ledger {
    if ops == [] then l else Do(Run(l, asset, ops[..|ops| - 1]), asset, ops[|ops| - 1])
  }

  /** A key names a capture; captures are filed under keys of their own making. */
  predicate NamesCapture(l: Ledger, key: string) {
    key in l.journalKeys && l.journalKeys[key].CaptureJournal? && key == CaptureKey(l.journalKeys[key].allocationId)
  }

  /** What later ledgers keep: accounts, settled allocations, used keys and posted journals. */
  ghost predicate Leads(l: Ledger, m: Ledger) {
    && l.accounts.Keys <= m.accounts.Keys
    && (forall id :: id in l.allocations && l.allocations[id].status != Authorized ==>
          id in m.allocations && m.allocations[id] == l.allocations[id])
    && (forall key :: key in l.journalKeys ==>
          key in m.journalKeys && (m.journalKeys[key] == l.journalKeys[key] || NamesCapture(m, key)))
    && (forall k :: k in m.journals && k !in l.journals && k.CaptureJournal? ==> NamesCapture(m, CaptureKey(k.allocationId)))
    && (forall k :: k in l.journals ==> k in m.journals && m.journals[k] == l.journals[k])
    && l.reversals.Keys <= m.reversals.Keys
  }

  /** A reversal that changes the ledger takes from each pool no more than what is free there. */
  ghost predicate Sparing(l: Ledger, op: Op) {
    op.Reverse? && ReverseJournal(l, op.reverse).0 != l && op.reverse.journalId in l.journals ==>
      forall pool :: pool in l.accounts && l.accounts[pool].kind == DiscoveryPool ==>
        l.accounts[pool].balance - Reserved(l, pool) >= Net(l.journals[op.reverse.journalId].entries, pool)
  }

  lemma DoKeeps(l: Ledger, asset: string, op: Op)
    requires Inv(l)
    ensures Inv(Do(l, asset, op)) && (Covered(l) && Sparing(l, op) ==> Covered(Do(l, asset, op)))
  {
    hide Inv, Covered, AuthorizeOverview, CaptureOverview, RecordFunding, OpenRequested, ReleaseOverview, ReverseJournal;
    match op
    case Open(request) => OpenKeeps(l, request);
    case Fund(request) => FundingKeeps(l, request);
    case Authorize(request, now) => AuthorizeKeeps(l, asset, request, now);
    case Capture(id, claim) => CaptureKeeps(l, id, claim);
    case Release(id, reasonCode) => ReleaseKeeps(l, id, reasonCode);
    case Reverse(request) =>
      ReverseKeeps(l, request);
      if Covered(l) {
        ReversalKeepsCoverage(l, request);
      }
  }

  /** A post stores its journal under a new id and forgets nothing. */
  lemma PostLeads(l: Ledger, j: Journal)
    requires j.id !in l.journals
    requires if j.id.CaptureJournal? then j.idempotencyKey == CaptureKey(j.id.allocationId) else j.idempotencyKey !in l.journalKeys
    ensures Leads(l, Post(l, j).0)
  {
    hide Post;
    PostFails(l, j);
    if Post(l, j).1.None? {
      PostMoves(l, j);
    }
  }

  lemma FundLeads(l: Ledger, request: FundingRequest)
    requires Inv(l)
    ensures Leads(l, RecordFunding(l, request).0)
  {
    hide Post, Inv;
    if request.accountId in l.accounts && request.idempotencyKey !in l.journalKeys {
      var asset := l.accounts[request.accountId].asset;
      var ready := Ensure(l, SystemAccount(ControlAccount(asset), FundingControl, asset, asset));
      NewKeyNewJournal(l, request.idempotencyKey);
      PostLeads(ready, FundingJournal(request, asset));
    }
  }

  lemma CaptureLeads(l: Ledger, id: string, claim: Claim)
    requires Inv(l)
    ensures Leads(l, CaptureOverview(l, id, claim).0)
  {
    hide Post, Inv, CaptureEntries, MarkCaptured, ClaimMatches, CaptureAccounts, AccountsOk, JournalsOk, Leads;
    SameLeads(l, l);
    if id in l.allocations && l.allocations[id].status == Authorized {
      InvParts(l, id);
      var a := l.allocations[id];
      var ready := CaptureAccounts(l, a, claim);
      AccountsWiden(l, a, claim);
      SameLeads(l, ready);
      var captured := MarkCaptured(a, claim);
      SettleLeads(l, l, id, captured);
      if ClaimMatches(a, claim) && claim.amount + claim.usedCost > 0 {
        var j := CaptureOf(a, a.accountId.value, claim);
        PostLeads(ready, j);
        PostFails(ready, j);
        if Post(ready, j).1.None? {
          PostMoves(ready, j);
          SettleLeads(l, Post(ready, j).0, id, captured);
        }
      }
    }
  }

  lemma SameLeads(l: Ledger, m: Ledger)
    requires m == l.(accounts := m.accounts) && l.accounts.Keys <= m.accounts.Keys
    ensures Leads(l, m) && forall n :: Leads(m, n) ==> Leads(l, n)
  {
  }

  lemma SettleLeads(l: Ledger, m: Ledger, id: string, closed: Allocation)
    requires m == l || Leads(l, m)
    requires id in l.allocations && l.allocations[id].status == Authorized && m.allocations == l.allocations
    ensures Leads(l, m.(allocations := l.allocations[id := closed]))
  {
  }

  lemma ReverseLeads(l: Ledger, request: ReverseRequest)
    requires Inv(l)
    ensures Leads(l, ReverseJournal(l, request).0)
  {
    hide Post, Inv, Leads;
    SameLeads(l, l);
    if request.journalId in l.journals && request.idempotencyKey !in l.journalKeys {
      NewKeyNewJournal(l, request.idempotencyKey);
      var j := ReversalJournal(request, l.journals[request.journalId]);
      PostLeads(l, j);
      PostFails(l, j);
      if Post(l, j).1.None? {
        PostMoves(l, j);
        RecordedLeads(l, Post(l, j).0, l.journals[request.journalId].id, j.id);
      }
    }
  }

  lemma RecordedLeads(l: Ledger, m: Ledger, original: JournalId, reversal: JournalId)
    requires Leads(l, m)
    ensures Leads(l, m.(reversals := m.reversals[original := reversal]))
  {
  }

  lemma AuthorizeLeads(l: Ledger, asset: string, request: Authorization, now: int)
    ensures Leads(l, AuthorizeOverview(l, asset, request, now).0)
  {
    hide AuthorizeOverview, AllocationOk, Reserved;
    if AuthorizeOverview(l, asset, request, now).0 != l {
      AuthorizePlaces(l, asset, request, now);
    }
  }

  lemma DoLeads(l: Ledger, asset: string, op: Op)
    requires Inv(l)
    ensures Leads(l, Do(l, asset, op))
  {
    hide Inv, RecordFunding, CaptureOverview, ReverseJournal, AuthorizeOverview, AllocationOk, Reserved, Leads;
    SameLeads(l, l);
    match op
    case Open(request) => SameLeads(l, OpenRequested(l, request).0);
    case Fund(request) => FundLeads(l, request);
    case Authorize(request, now) => AuthorizeLeads(l, asset, request, now);
    case Capture(id, claim) => CaptureLeads(l, id, claim);
    case Release(id, reasonCode) =>
      if id in l.allocations && l.allocations[id].status == Authorized {
        SettleLeads(l, l, id, l.allocations[id].(status := Released, releaseReason := reasonCode));
      }
    case Reverse(request) => ReverseLeads(l, request);
  }

  lemma LeadsTransitive(l: Ledger, m: Ledger, n: Ledger)
    requires Leads(l, m) && Leads(m, n)
    ensures Leads(l, n)
  {
  }

  /** Every reversal of the run is sparing at its moment. */
  ghost predicate SparingRun(l: Ledger, asset: string, ops: seq<Op>) {
    forall i :: 0 <= i < |ops| ==> Sparing(Run(l, asset, ops[..i]), ops[i])
  }

  lemma SparingFront(l: Ledger, asset: string, ops: seq<Op>)
    requires ops != [] && SparingRun(l, asset, ops)
    ensures SparingRun(l, asset, ops[..|ops| - 1]) && Sparing(Run(l, asset, ops[..|ops| - 1]), ops[|ops| - 1])
  {
    hide Sparing, Run;
    var front := ops[..|ops| - 1];
    forall i | 0 <= i < |front|
      ensures Sparing(Run(l, asset, front[..i]), front[i])
    {
      assert front[..i] == ops[..i];
    }
  }

  lemma {:induction false} RunKeeps(l: Ledger, asset: string, ops: seq<Op>)
    requires Inv(l)
    ensures Inv(Run(l, asset, ops)) && Leads(l, Run(l, asset, ops))
    ensures Covered(l) && SparingRun(l, asset, ops) ==> Covered(Run(l, asset, ops))
  {
    hide Inv, Covered, Do, Leads, Sparing;
    if ops == [] {
      SameLeads(l, l);
    } else {
      var front, last := ops[..|ops| - 1], ops[|ops| - 1];
      RunKeeps(l, asset, front);
      DoKeeps(Run(l, asset, front), asset, last);
      DoLeads(Run(l, asset, front), asset, last);
      LeadsTransitive(l, Run(l, asset, front), Run(l, asset, ops));
      if SparingRun(l, asset, ops) {
        SparingFront(l, asset, ops);
      }
    }
  }

  /**
   On every run: each balance is the signed sum of the account's entries over all posted
   journals, the balances of each asset add up to zero, and business accounts are never
   overdrawn.
   */
  lemma {:induction false} BalancesAreBooked(asset: string, ops: seq<Op>)
    ensures var l := Run(EMPTY, asset, ops);
      && (forall id :: id in l.accounts ==> l.accounts[id].balance == Booked(l, id))
      && (forall id :: id in l.accounts && Business(l.accounts[id].kind) ==> l.accounts[id].balance >= 0)
      && (forall a :: AccountTotal(l.accounts, a) == 0)
  {
    EmptyOk();
    RunKeeps(EMPTY, asset, ops);
  }

  /**
   On every run whose reversals take from each pool no more than what is free there at that moment,
   each pool covers its authorized reservations, so a matching claim on an authorized allocation is
   captured, never refused for lack of funds. Runs without reversals are among them.
   */
  lemma {:induction false} MatchingCaptureSucceeds(asset: string, ops: seq<Op>, id: string, claim: Claim)
    requires SparingRun(EMPTY, asset, ops)
    requires var l := Run(EMPTY, asset, ops);
      id in l.allocations && l.allocations[id].status == Authorized && ClaimMatches(l.allocations[id], claim)
    ensures var l := Run(EMPTY, asset, ops);
      && Covered(l)
      && CaptureOverview(l, id, claim).1 == Success((MarkCaptured(l.allocations[id], claim), false))
  {
    hide Run, Do, Sparing;
    EmptyOk();
    RunKeeps(EMPTY, asset, ops);
    CaptureNeverInsufficient(Run(EMPTY, asset, ops), id, claim);
  }

  /** How often a run captures or releases this allocation. */
  ghost function Closures(l: Ledger, asset: string, ops: seq<Op>, id: string): nat {
    if ops == [] then 0
    else
      var before := Run(l, asset, ops[..|ops| - 1]);
      var after := Do(before, asset, ops[|ops| - 1]);
      Closures(l, asset, ops[..|ops| - 1], id) +
      (if id in before.allocations && id in after.allocations
          && after.allocations[id].status != before.allocations[id].status then 1 else 0)
  }

  /** An allocation is captured or released at most once and is fixed from then on. */
  lemma {:induction false} ClosedAtMostOnce(asset: string, ops: seq<Op>, id: string)
    ensures Closures(EMPTY, asset, ops, id) <= 1
    ensures Closures(EMPTY, asset, ops, id) == 1 ==>
      id in Run(EMPTY, asset, ops).allocations && Run(EMPTY, asset, ops).allocations[id].status != Authorized
  {
    hide Inv, Do;
    if ops != [] {
      var front, last := ops[..|ops| - 1], ops[|ops| - 1];
      ClosedAtMostOnce(asset, front, id);
      EmptyOk();
      RunKeeps(EMPTY, asset, front);
      DoLeads(Run(EMPTY, asset, front), asset, last);
    }
  }

  /** An idempotency key moves money at most once: in any later ledger a request with a used key changes nothing. */
  lemma {:induction false} UsedKeyChangesNothing(asset: string, ops: seq<Op>, more: seq<Op>, request: FundingRequest)
    requires RecordFunding(Run(EMPTY, asset, ops), request).1.Success?
    ensures var l := RecordFunding(Run(EMPTY, asset, ops), request).0;
      RecordFunding(Run(l, asset, more), request).0 == Run(l, asset, more)
  {
    hide Inv, RecordFunding, Covered, Run;
    EmptyOk();
    RunKeeps(EMPTY, asset, ops);
    var before := Run(EMPTY, asset, ops);
    FundingKeeps(before, request);
    var l := RecordFunding(before, request).0;
    FundedKey(before, request);
    RunKeeps(l, asset, more);
    UsedKey(Run(l, asset, more), request);
  }

  lemma UsedKey(l: Ledger, request: FundingRequest)
    requires request.idempotencyKey in l.journalKeys
    ensures RecordFunding(l, request).0 == l
  {
  }

  lemma FundedKey(l: Ledger, request: FundingRequest)
    requires RecordFunding(l, request).1.Success?
    ensures request.idempotencyKey in RecordFunding(l, request).0.journalKeys
  {
  }

  /** A funding that succeeds is filed under its key and answers with its stored journal. */
  lemma {:induction false} FundedStored(l: Ledger, request: FundingRequest)
    requires Inv(l) && RecordFunding(l, request).1.Success?
    ensures var (m, r) := RecordFunding(l, request); var id := RequestJournal(request.idempotencyKey);
      && request.accountId in m.accounts && request.idempotencyKey in m.journalKeys
      && m.journalKeys[request.idempotencyKey] == id
      && id in m.journals && m.journals[id] == r.value.0
      && r.value.0.id == id && r.value.0.requestHash == OfFunding(request)
  {
    hide Post, AccountsOk, AllocationsOk, ReversalsOk, Conserved, InOneAsset, Placed;
    if request.idempotencyKey !in l.journalKeys {
      var a := l.accounts[request.accountId].asset;
      var ready := Ensure(l, SystemAccount(ControlAccount(a), FundingControl, a, a));
      PostMoves(ready, FundingJournal(request, a));
    }
  }

  lemma RetryIs(t: Ledger, request: FundingRequest, stored: Journal)
    requires !Blank(request.idempotencyKey) && request.amount != 0 && !Blank(request.externalRef)
    requires var key := request.idempotencyKey; var id := RequestJournal(key);
      && request.accountId in t.accounts && key in t.journalKeys && t.journalKeys[key] in t.journals
      && t.journals[t.journalKeys[key]].id == t.journalKeys[key]
      && id in t.journals && t.journals[id] == stored && stored.id == id && stored.requestHash == OfFunding(request)
    ensures RecordFunding(t, request) ==
      (t, if t.journalKeys[request.idempotencyKey] == RequestJournal(request.idempotencyKey) then Success((stored, true))
          else Failure(ContentConflict))
  {
  }

  /**
   In every later ledger the same funding request replays its journal, except when its key is the one
   that captures of some allocation are filed under and that allocation was captured: then it conflicts.
   */
  lemma {:induction false} RetryReplays(asset: string, ops: seq<Op>, more: seq<Op>, request: FundingRequest)
    requires RecordFunding(Run(EMPTY, asset, ops), request).1.Success?
    ensures var (l, r) := RecordFunding(Run(EMPTY, asset, ops), request);
      var t := Run(l, asset, more);
      && RecordFunding(t, request).0 == t
      && RecordFunding(t, request).1 in {Success((r.value.0, true)), Failure(ContentConflict)}
      && (RecordFunding(t, request).1.Failure? <==>
            exists k :: k in t.journals && k.CaptureJournal? && request.idempotencyKey == CaptureKey(k.allocationId))
  {
    hide Inv, RecordFunding, Covered, Run;
    EmptyOk();
    RunKeeps(EMPTY, asset, ops);
    var before := Run(EMPTY, asset, ops);
    FundingKeeps(before, request);
    FundLeads(before, request);
    FundedStored(before, request);
    FundedIsFilled(before, request);
    var (l, r) := RecordFunding(before, request);
    RunKeeps(l, asset, more);
    var t := Run(l, asset, more);
    FiledKeys(t);
    LeadsTransitive(EMPTY, before, l);
    LeadsTransitive(EMPTY, l, t);
    hide Leads;
    RetryLater(l, t, request, r.value.0);
  }

  lemma RetryLater(l: Ledger, t: Ledger, request: FundingRequest, stored: Journal)
    requires !Blank(request.idempotencyKey) && request.amount != 0 && !Blank(request.externalRef)
    requires Leads(EMPTY, t) && Leads(l, t) && request.accountId in l.accounts
    requires var key := request.idempotencyKey; var id := RequestJournal(key);
      && key in l.journalKeys && l.journalKeys[key] == id && id in l.journals && l.journals[id] == stored
      && stored.id == id && stored.requestHash == OfFunding(request)
    requires forall key :: key in t.journalKeys ==> t.journalKeys[key] in t.journals && t.journals[t.journalKeys[key]].id == t.journalKeys[key]
    ensures RecordFunding(t, request).0 == t
    ensures RecordFunding(t, request).1 in {Success((stored, true)), Failure(ContentConflict)}
    ensures RecordFunding(t, request).1.Failure? <==>
      exists k :: k in t.journals && k.CaptureJournal? && request.idempotencyKey == CaptureKey(k.allocationId)
  {
    hide RecordFunding, Blank;
    RetryIs(t, request, stored);
    var key := request.idempotencyKey;
    if t.journalKeys[key] != RequestJournal(key) {
      assert NamesCapture(t, key);
      assert t.journalKeys[key] in t.journals;
    }
  }

  lemma FundedIsFilled(l: Ledger, request: FundingRequest)
    requires RecordFunding(l, request).1.Success?
    ensures !Blank(request.idempotencyKey) && request.amount != 0 && !Blank(request.externalRef)
  {
  }

  lemma FiledKeys(l: Ledger)
    requires Inv(l)
    ensures forall key :: key in l.journalKeys ==> l.journalKeys[key] in l.journals && l.journals[l.journalKeys[key]].id == l.journalKeys[key]
  {
  }

  /**
   A posted journal is reversed at most once, and its reversal takes back the journal's net
   on every account; no journal is ever altered.
   */
  lemma {:induction false} ReversalRestores(asset: string, ops: seq<Op>, request: ReverseRequest)
    requires var l := Run(EMPTY, asset, ops); ReverseJournal(l, request).0 != l
    ensures var l := Run(EMPTY, asset, ops);
      Reverses(l, ReverseJournal(l, request).0, request.journalId)
    ensures var l := Run(EMPTY, asset, ops);
      forall j, k ::
        (j in l.journals && k in l.journals && l.journals[j].reversalOf.Some?
         && l.journals[j].reversalOf == l.journals[k].reversalOf) ==> j == k
  {
    EmptyOk();
    RunKeeps(EMPTY, asset, ops);
    ReverseKeeps(Run(EMPTY, asset, ops), request);
  }

  /** Funding an account and reversing it at once gives back every balance. */
  lemma {:induction false} FundThenReverse(asset: string, ops: seq<Op>, request: FundingRequest, key: string, reasonCode: string)
    requires var l := Run(EMPTY, asset, ops); var m := RecordFunding(l, request).0;
      && m != l && ReverseJournal(m, ReverseRequest(key, RequestJournal(request.idempotencyKey), reasonCode)).0 != m
    ensures var l := Run(EMPTY, asset, ops);
      var m := RecordFunding(l, request).0;
      var n := ReverseJournal(m, ReverseRequest(key, RequestJournal(request.idempotencyKey), reasonCode)).0;
      forall id :: id in l.accounts ==> id in n.accounts && n.accounts[id].balance == l.accounts[id].balance
  {
    hide Inv, ReverseJournal, RecordFunding, Covered, Run, Net;
    EmptyOk();
    RunKeeps(EMPTY, asset, ops);
    var l := Run(EMPTY, asset, ops);
    FundingKeeps(l, request);
    var m := RecordFunding(l, request).0;
    FundMoves(l, request);
    ReverseKeeps(m, ReverseRequest(key, RequestJournal(request.idempotencyKey), reasonCode));
  }

  /** A funding that changes the ledger stores its journal and moves every account by its net. */
  lemma {:induction false} FundMoves(l: Ledger, request: FundingRequest)
    requires Inv(l) && RecordFunding(l, request).0 != l
    ensures var m := RecordFunding(l, request).0;
      var k := RequestJournal(request.idempotencyKey);
      && k in m.journals
      && forall id :: id in l.accounts ==>
           id in m.accounts && m.accounts[id].balance == l.accounts[id].balance + Net(m.journals[k].entries, id)
  {
    hide Post, Inv, Net;
    FundingKeeps(l, request);
    var a := l.accounts[request.accountId].asset;
    var ready := Ensure(l, SystemAccount(ControlAccount(a), FundingControl, a, a));
    PostMoves(ready, FundingJournal(request, a));
  }

  /**
   Reversal ignores reservations: a pool stays covered exactly when what it had free was at
   least what the reversed journal had paid into it.
   */
  lemma {:induction false} ReversalCoversIff(l: Ledger, pool: AccountId, request: ReverseRequest)
    requires Inv(l) && pool in l.accounts && l.accounts[pool].kind == DiscoveryPool
    requires ReverseJournal(l, request).0 != l
    ensures var m := ReverseJournal(l, request).0;
      && pool in m.accounts && request.journalId in l.journals
      && (m.accounts[pool].balance >= Reserved(m, pool) <==>
            l.accounts[pool].balance - Reserved(l, pool) >= Net(l.journals[request.journalId].entries, pool))
  {
    hide Post, Inv;
    ReverseKeeps(l, request);
    var j := ReversalJournal(request, l.journals[request.journalId]);
    PostFails(l, j);
    PostMoves(l, j);
    SameReserved(l, ReverseJournal(l, request).0, pool);
  }

  /** So a reversal keeps every pool covered exactly when it takes no more than what is free in each. */
  lemma {:induction false} ReversalKeepsCoverage(l: Ledger, request: ReverseRequest)
    requires Inv(l) && Covered(l)
    ensures Covered(ReverseJournal(l, request).0) <==> Sparing(l, Reverse(request))
  {
    hide Inv, ReverseJournal, Reserved, Net;
    var m := ReverseJournal(l, request).0;
    if m != l {
      ReversedKeys(l, request);
      forall pool | pool in l.accounts && l.accounts[pool].kind == DiscoveryPool
        ensures pool in m.accounts && m.accounts[pool].kind == DiscoveryPool && request.journalId in l.journals
        ensures m.accounts[pool].balance >= Reserved(m, pool) <==>
          l.accounts[pool].balance - Reserved(l, pool) >= Net(l.journals[request.journalId].entries, pool)
      {
        ReversalCoversIff(l, pool, request);
      }
    }
  }

  lemma ReversedKeys(l: Ledger, request: ReverseRequest)
    requires ReverseJournal(l, request).0 != l
    ensures var m := ReverseJournal(l, request).0;
      && request.journalId in l.journals && m.accounts.Keys == l.accounts.Keys
      && forall id :: id in l.accounts ==> m.accounts[id].kind == l.accounts[id].kind
  {
    hide Post;
    var j := ReversalJournal(request, l.journals[request.journalId]);
    PostFails(l, j);
    PostMoves(l, j);
  }
}
