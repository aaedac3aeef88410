/** When each operation of the funds service answers what, and what it stores. */
module FundsOutcomes {
  import opened Wrappers
  import opened Text
  import opened FundsLedger
  import opened FundsPosting
  import opened FundsInvariant
  import opened FundsOperations

  /** Business accounts start empty and open, once per type, reference and asset. */
  lemma {:induction false} OpenOutcome(l: Ledger, request: OpenRequest)
    requires Inv(l)
    ensures var (m, r) := OpenRequested(l, request); var id := FundAccount(request.kind, request.referenceId, request.asset);
      if request.kind !in {DiscoveryPool, FormalEscrow, ChangeOrder, DisputeFee}
         || Blank(request.taskId) || Blank(request.referenceId) || Blank(request.owners) then m == l && r == Failure(InvalidInput)
      else if id in l.accounts then
        m == l && r == if l.accounts[id].taskId == request.taskId && l.accounts[id].referenceId == request.referenceId
                          && l.accounts[id].owners == request.owners then Success((l.accounts[id], true)) else Failure(ContentConflict)
      else if exists other :: other in l.accounts && l.accounts[other].kind == request.kind
                && l.accounts[other].referenceId == request.referenceId && l.accounts[other].asset == request.asset then
        m == l && r == Failure(ContentConflict)
      else
        var account := Account(id, request.kind, request.taskId, request.referenceId, request.asset, request.owners, AccountState.Open, 0);
        m == l.(accounts := l.accounts[id := account]) && r == Success((account, false))
  {
    hide JournalsOk, AllocationsOk, ReversalsOk, Conserved, Blank;
    var id := FundAccount(request.kind, request.referenceId, request.asset);
    assert id in l.accounts ==> AccountShape(id, l.accounts[id]);
  }

  /** A key that was used before answers with its journal, if that is this request's own. */
  predicate Replays(l: Ledger, key: string, hash: Digest, r: Result<(Journal, bool), Error>) {
    key in l.journalKeys &&
    var id := l.journalKeys[key];
    r == if id == RequestJournal(key) && id in l.journals && l.journals[id].requestHash == hash
         then Success((l.journals[id], true)) else Failure(ContentConflict)
  }

  /** A funding with a new key is booked on every open business account, whatever it holds. */
  lemma {:induction false} FundingOutcome(l: Ledger, request: FundingRequest)
    requires Inv(l)
    ensures var (m, r) := RecordFunding(l, request); var key := request.idempotencyKey;
      if Blank(key) || request.amount == 0 || Blank(request.externalRef) then m == l && r == Failure(InvalidInput)
      else if request.accountId !in l.accounts then m == l && r == Failure(NotFound)
      else if key in l.journalKeys then m == l && Replays(l, key, OfFunding(request), r)
      else if l.accounts[request.accountId].state != AccountState.Open
              || l.accounts[request.accountId].kind !in {DiscoveryPool, FormalEscrow, ChangeOrder, DisputeFee} then
        m == l && r == Failure(InvalidState)
      else
        && r.Success? && !r.value.1 && m.journals == l.journals[RequestJournal(key) := r.value.0]
        && m.journalKeys == l.journalKeys[key := RequestJournal(key)]
        && r.value.0.requestHash == OfFunding(request) && r.value.0.reversalOf.None?
  {
    hide Post, AccountsOk, AllocationsOk, ReversalsOk, Conserved, Blank, Complaint, InOneAsset, Placed, Total, FundingJournal, Ensure;
    if request.amount > 0 && request.accountId in l.accounts && request.idempotencyKey !in l.journalKeys
       && Business(l.accounts[request.accountId].kind) {
      FundingIsBooked(l, request, l.accounts[request.accountId].asset);
    }
    FundingIs(request, if request.accountId in l.accounts then l.accounts[request.accountId].asset else "");
  }

  lemma FundingIs(request: FundingRequest, asset: string)
    ensures var j := FundingJournal(request, asset);
      j.id == RequestJournal(request.idempotencyKey) && j.idempotencyKey == request.idempotencyKey
      && j.requestHash == OfFunding(request) && j.reversalOf.None?
  {
  }

  lemma FundingIsBooked(l: Ledger, request: FundingRequest, asset: string)
    requires Inv(l) && request.amount > 0 && request.accountId in l.accounts && l.accounts[request.accountId].asset == asset
    requires request.idempotencyKey !in l.journalKeys && Business(l.accounts[request.accountId].kind)
    ensures var j := FundingJournal(request, asset);
      var (m, error) := Post(Ensure(l, SystemAccount(ControlAccount(asset), FundingControl, asset, asset)), j);
      error.None? && m.journals == l.journals[j.id := j] && m.journalKeys == l.journalKeys[j.idempotencyKey := j.id]
  {
    hide Post, AccountsOk, AllocationsOk, ReversalsOk, Conserved, Complaint, InOneAsset, Placed;
    var control := SystemAccount(ControlAccount(asset), FundingControl, asset, asset);
    EnsureWidens(l, control);
    WidenKeeps(l, Ensure(l, control));
    FundingPosts(Ensure(l, control), request, asset);
    PostMoves(Ensure(l, control), FundingJournal(request, asset));
  }

  predicate WellFormed(request: Authorization, now: int) {
    && !Blank(request.idempotencyKey) && !Blank(request.taskId) && !Blank(request.terms.agentId)
    && ValidDigest(request.terms.taskSpecHash) && ValidDigest(request.terms.snapshotId) && ValidDigest(request.terms.quoteHash)
    && request.terms.matchRevision >= 1 && request.terms.priceVersion >= 1 && now < request.deadline
  }

  predicate IsPoolOf(l: Ledger, id: AccountId, taskId: string, asset: string) {
    id in l.accounts && l.accounts[id].kind == DiscoveryPool && l.accounts[id].taskId == taskId && l.accounts[id].asset == asset
  }

  /** The allocation carries what was requested, and reserves the price together with the cost cap. */
  predicate CarriesRequest(a: Allocation, request: Authorization, asset: string) {
    && a.idempotencyKey == request.idempotencyKey && a.taskId == request.taskId && a.terms == request.terms && a.asset == asset
    && a.overviewPrice == request.overviewPrice && a.costCap == request.costCap && a.deadline == request.deadline
    && a.reserve == request.overviewPrice + request.costCap && a.requestHash == OfAuthorization(request)
    && a.status == Authorized && a.claimHash.None? && a.captureJournal.None? && a.capturedOverview == 0 && a.capturedCost == 0
  }

  /**
   A new reservation is granted exactly when its task has one discovery pool, that pool is open and what
   is free there covers the price together with the cost cap.
   */
  lemma {:induction false} AuthorizeOutcome(l: Ledger, asset: string, request: Authorization, now: int)
    requires WellFormed(request, now)
    requires forall id :: id in l.allocations ==> id != "fund-allocation/" + request.idempotencyKey
    requires forall id :: id in l.allocations ==> l.allocations[id].idempotencyKey != request.idempotencyKey
    ensures var (m, r) := AuthorizeOverview(l, asset, request, now);
      && (r.Success? ==> !r.value.1 && m == l.(allocations := l.allocations[r.value.0.id := r.value.0])
                         && r.value.0.id == "fund-allocation/" + request.idempotencyKey && CarriesRequest(r.value.0, request, asset))
      && (r.Failure? ==> m == l)
      && (forall pool :: r.Success? && r.value.0.accountId == Some(pool) ==> IsPoolOf(l, pool, request.taskId, asset))
      && (r == Failure(NotFound) <==> forall pool :: !IsPoolOf(l, pool, request.taskId, asset))
      && (r == Failure(ContentConflict) <==>
            exists p, q :: p != q && IsPoolOf(l, p, request.taskId, asset) && IsPoolOf(l, q, request.taskId, asset))
      && (forall pool :: IsPoolOf(l, pool, request.taskId, asset) && r != Failure(ContentConflict) ==>
            if l.accounts[pool].state != AccountState.Open then r == Failure(InvalidState)
            else if l.accounts[pool].balance - Reserved(l, pool) < request.overviewPrice + request.costCap then r == Failure(Insufficient)
            else r.Success? && r.value.0.accountId == Some(pool))
  {
    hide Reserved, Blank, ValidDigest;
    var pools := Pools(l, request.taskId, asset);
    forall pool
      ensures IsPoolOf(l, pool, request.taskId, asset) <==> pool in pools
    {
    }
    MoreThanOne(pools);
  }

  lemma MoreThanOne(s: set<AccountId>)
    ensures |s| > 1 <==> exists p, q :: p != q && p in s && q in s
    ensures |s| == 0 <==> s == {}
    ensures |s| == 1 ==> forall p, q :: p in s && q in s ==> p == q
  {
    if |s| >= 1 {
      var p :| p in s;
      var rest := s - {p};
      assert |rest| == |s| - 1;
      if |s| > 1 {
        var q :| q in rest;
        assert p != q && p in s && q in s;
      } else {
        assert rest == {};
        forall x, y | x in s && y in s
          ensures x == y
        {
          assert x !in rest && y !in rest;
        }
      }
    }
  }

  /** A malformed request reserves nothing. */
  lemma AuthorizeRefuses(l: Ledger, asset: string, request: Authorization, now: int)
    requires !WellFormed(request, now)
    ensures AuthorizeOverview(l, asset, request, now) == (l, Failure(InvalidInput))
  {
    hide Blank, ValidDigest;
  }

  /** The request repeats the stored one: everything agrees, or only a later deadline is asked for while it is still authorized. */
  predicate Repeats(a: Allocation, request: Authorization, asset: string) {
    && a.idempotencyKey == request.idempotencyKey && a.asset == asset && a.taskId == request.taskId && a.terms == request.terms
    && a.overviewPrice == request.overviewPrice && a.costCap == request.costCap && a.reserve == request.overviewPrice + request.costCap
    && ((a.requestHash == OfAuthorization(request) && a.deadline == request.deadline)
        || (a.status == Authorized && request.deadline >= a.deadline))
  }

  lemma {:induction false} AuthorizeReplays(l: Ledger, asset: string, request: Authorization, now: int)
    requires WellFormed(request, now)
    ensures var (m, r) := AuthorizeOverview(l, asset, request, now); var id := "fund-allocation/" + request.idempotencyKey;
      && (id in l.allocations ==>
            m == l && r == if l.allocations[id].id == id && Repeats(l.allocations[id], request, asset)
                           then Success((l.allocations[id], true)) else Failure(ContentConflict))
      && (id !in l.allocations && (exists other :: other in l.allocations && l.allocations[other].idempotencyKey == request.idempotencyKey) ==>
            m == l && r == Failure(ContentConflict))
  {
    hide Reserved, Blank, ValidDigest;
  }

  /** The claim is about this allocation: task, specification, match, agent, quote and price agree, and the cost is within the cap. */
  predicate Fits(a: Allocation, claim: Claim) {
    && claim.taskId == a.taskId && claim.taskSpecHash == a.terms.taskSpecHash && claim.matchRevision == a.terms.matchRevision
    && claim.agentId == a.terms.agentId && claim.quoteHash == a.terms.quoteHash && claim.amount == a.overviewPrice
    && claim.usedCost <= a.costCap
  }

  /** A capture is made exactly for a fitting claim that the pool's balance covers, repeated only with the same claim. */
  lemma {:induction false} CaptureOutcome(l: Ledger, id: string, claim: Claim)
    requires Inv(l)
    ensures var (m, r) := CaptureOverview(l, id, claim);
      if id !in l.allocations then r == Failure(NotFound)
      else
        var a := l.allocations[id];
        match a.status
        case Captured => m == l && r == if a.claimHash == Some(OfClaim(claim)) then Success((a, true)) else Failure(ContentConflict)
        case Released => m == l && r == Failure(InvalidState)
        case Authorized =>
          if !Fits(a, claim) then m == l && r == Failure(ContentConflict)
          else if claim.amount + claim.usedCost == 0 || l.accounts[a.accountId.value].balance >= claim.amount + claim.usedCost then
            r.Success? && !r.value.1
          else r == Failure(Insufficient)
  {
    hide Post, Inv, CaptureEntries, CaptureAccounts, MarkCaptured, AccountsOk, JournalsOk;
    InvParts(l, id);
    if id in l.allocations && l.allocations[id].status == Authorized && Fits(l.allocations[id], claim) && claim.amount + claim.usedCost > 0 {
      var a := l.allocations[id];
      CaptureWidens(l, a, claim);
      var ready := CaptureAccounts(l, a, claim);
      InvParts(ready, id);
      CapturePosts(ready, a, a.accountId.value, claim);
    }
  }

  /** An authorized allocation is released under its reason, without moving money, and repeated only for the same reason. */
  lemma {:induction false} ReleaseOutcome(l: Ledger, id: string, reasonCode: string)
    ensures var (m, r) := ReleaseOverview(l, id, reasonCode);
      if id !in l.allocations then m == l && r == Failure(NotFound)
      else
        var a := l.allocations[id];
        match a.status
        case Captured => m == l && r == Failure(InvalidState)
        case Released => m == l && r == if a.releaseReason == reasonCode then Success((a, true)) else Failure(ContentConflict)
        case Authorized =>
          && r.Success? && !r.value.1 && m == l.(allocations := l.allocations[id := r.value.0])
          && r.value.0.status == Released && r.value.0.releaseReason == reasonCode
          && r.value.0.(status := a.status, releaseReason := a.releaseReason) == a
  {
  }

  /** A reversal is recorded once per journal, under its own key, by the same entries with debit and credit exchanged. */
  lemma {:induction false} ReverseOutcome(l: Ledger, request: ReverseRequest)
    requires Inv(l)
    ensures var (m, r) := ReverseJournal(l, request); var key := request.idempotencyKey; var original := request.journalId;
      if Blank(key) then m == l && r == Failure(InvalidInput)
      else if original !in l.journals then m == l && r == Failure(NotFound)
      else if key in l.journalKeys then m == l && Replays(l, key, OfReverse(request), r)
      else if original in l.reversals then
        m == l && r == if l.journals[l.reversals[original]].requestHash == OfReverse(request)
                       then Success((l.journals[l.reversals[original]], true)) else Failure(ContentConflict)
      else if r.Failure? then m == l
      else
        && !r.value.1 && m.journals == l.journals[RequestJournal(key) := r.value.0] && m.allocations == l.allocations
        && m.journalKeys == l.journalKeys[key := RequestJournal(key)] && m.reversals == l.reversals[original := RequestJournal(key)]
        && r.value.0.requestHash == OfReverse(request) && r.value.0.reversalOf == Some(original)
        && MirrorOf(r.value.0.entries, l.journals[original].entries)
  {
    hide Post, PostReversal, Inv, Replays, Blank, ReversalJournal, MirrorOf;
    if request.journalId in l.journals {
      var original := l.journals[request.journalId];
      StoredUnder(l, request.journalId);
      ReversalMirrors(request, original);
      var j := ReversalJournal(request, original);
      if request.idempotencyKey in l.journalKeys {
        ReplaysReversal(l, j);
      } else if request.journalId in l.reversals {
        ReversedBefore(l, j);
      } else {
        NewReversal(l, j);
      }
    }
  }

  lemma StoredUnder(l: Ledger, id: JournalId)
    requires Inv(l) && id in l.journals
    ensures l.journals[id].id == id
    ensures id in l.reversals ==> l.reversals[id] in l.journals
  {
    hide AccountsOk, AllocationsOk, Conserved;
  }

  lemma ReplaysReversal(l: Ledger, j: Journal)
    requires Inv(l) && j.reversalOf.Some? && j.idempotencyKey in l.journalKeys && j.id == RequestJournal(j.idempotencyKey)
    ensures PostReversal(l, j).0 == l && Replays(l, j.idempotencyKey, j.requestHash, PostReversal(l, j).1)
  {
    hide Post, AccountsOk, AllocationsOk, Conserved, ReversalsOk, InOneAsset, Placed;
  }

  lemma ReversedBefore(l: Ledger, j: Journal)
    requires Inv(l) && j.reversalOf.Some? && j.idempotencyKey !in l.journalKeys && j.reversalOf.value in l.reversals
    ensures var id := l.reversals[j.reversalOf.value];
      id in l.journals && PostReversal(l, j) == (l, if l.journals[id].requestHash == j.requestHash then Success((l.journals[id], true)) else Failure(ContentConflict))
  {
    hide Post, AccountsOk, AllocationsOk, Conserved, JournalsOk, MirrorOf;
  }

  lemma ReversalMirrors(request: ReverseRequest, original: Journal)
    ensures var j := ReversalJournal(request, original);
      && j.id == RequestJournal(request.idempotencyKey) && j.idempotencyKey == request.idempotencyKey
      && j.requestHash == OfReverse(request) && j.reversalOf == Some(original.id) && MirrorOf(j.entries, original.entries)
  {
  }

  lemma NewReversal(l: Ledger, j: Journal)
    requires j.reversalOf.Some? && j.reversalOf.value in l.journals && j.reversalOf.value !in l.reversals
    requires j.idempotencyKey !in l.journalKeys
    ensures var (m, r) := PostReversal(l, j);
      if r.Failure? then m == l
      else
        && r.value == (j, false) && m.journals == l.journals[j.id := j] && m.allocations == l.allocations
        && m.journalKeys == l.journalKeys[j.idempotencyKey := j.id] && m.reversals == l.reversals[j.reversalOf.value := j.id]
  {
    hide Post, AccountTotal, AssetTotal, Solvent, Net;
    PostFails(l, j);
    if Post(l, j).1.None? {
      PostMoves(l, j);
    }
  }

  // ---- journals ----

  /** The entry is numbered by its place, moves an amount, and is in the asset of an existing account. */
  predicate Numbered(entries: seq<Entry>, k: nat)
    requires k < |entries|
  {
    entries[k].index == k + 1 && entries[k].amount > 0
  }

  predicate OnAccount(l: Ledger, e: Entry) {
    e.accountId in l.accounts && l.accounts[e.accountId].asset == e.asset
  }

  /** The first entry at fault decides how a journal is refused. */
  predicate RefusedAt(l: Ledger, entries: seq<Entry>, k: nat, error: Error)
    requires k < |entries|
  {
    && (forall i :: 0 <= i < k ==> Numbered(entries, i) && OnAccount(l, entries[i]))
    && ((!Numbered(entries, k) && error == InvalidInput)
        || (Numbered(entries, k) && !OnAccount(l, entries[k]) && error == ContentConflict))
  }

  lemma {:induction false} ComplaintAt(l: Ledger, entries: seq<Entry>, from: nat, k: nat, error: Error)
    requires from <= k < |entries| && RefusedAt(l, entries, k, error)
    ensures Complaint(l.accounts, entries[from..], from) == Some(error)
    decreases k - from
  {
    assert entries[from..][0] == entries[from] && entries[from..][1..] == entries[from + 1..];
    if from < k {
      assert Numbered(entries, from) && OnAccount(l, entries[from]);
      ComplaintAt(l, entries, from + 1, k, error);
    }
  }

  lemma {:induction false} NothingWrong(l: Ledger, entries: seq<Entry>, from: nat)
    requires from <= |entries| && forall i :: from <= i < |entries| ==> Numbered(entries, i) && OnAccount(l, entries[i])
    ensures Complaint(l.accounts, entries[from..], from).None?
    decreases |entries| - from
  {
    if from < |entries| {
      assert entries[from..][0] == entries[from] && entries[from..][1..] == entries[from + 1..];
      assert Numbered(entries, from) && OnAccount(l, entries[from]);
      NothingWrong(l, entries, from + 1);
    }
  }

  /** What the entries of one side move together. */
  function Moves(entries: seq<Entry>, debit: bool): int {
    if entries == [] then 0
    else Moves(entries[..|entries| - 1], debit) + if entries[|entries| - 1].debit == debit then entries[|entries| - 1].amount else 0
  }

  lemma {:induction false} TotalAppend(entries: seq<Entry>, e: Entry, debit: bool)
    ensures Total(entries + [e], debit) == Total(entries, debit) + if e.debit == debit then e.amount else 0
    decreases |entries|
  {
    if entries == [] {
      assert [e][1..] == [];
      assert entries + [e] == [e];
    } else {
      assert (entries + [e])[1..] == entries[1..] + [e];
      TotalAppend(entries[1..], e, debit);
    }
  }

  lemma {:induction false} TotalMoves(entries: seq<Entry>, debit: bool)
    ensures Total(entries, debit) == Moves(entries, debit)
    decreases |entries|
  {
    if entries != [] {
      var init, last := entries[..|entries| - 1], entries[|entries| - 1];
      assert init + [last] == entries;
      TotalMoves(init, debit);
      TotalAppend(init, last, debit);
    }
  }

  /**
   A journal is refused for having fewer than two entries, for its first entry at fault, for sides that
   do not balance, or because some business account would run out on the way; otherwise every account
   moves by what the journal nets on it.
   */
  lemma {:induction false} PostOutcome(l: Ledger, j: Journal, k: nat)
    ensures var (m, error) := Post(l, j); var sound := forall i :: 0 <= i < |j.entries| ==> Numbered(j.entries, i) && OnAccount(l, j.entries[i]);
      && (error.Some? ==> m == l)
      && (|j.entries| < 2 ==> error == Some(InvalidInput))
      && (forall e :: |j.entries| >= 2 && k < |j.entries| && RefusedAt(l, j.entries, k, e) ==> error == Some(e))
      && (|j.entries| >= 2 && sound && Moves(j.entries, true) != Moves(j.entries, false) ==> error == Some(InvalidInput))
      && (|j.entries| >= 2 && sound && Moves(j.entries, true) == Moves(j.entries, false) ==> error in {None, Some(Insufficient)})
      && (error.None? ==>
            && m.journals == l.journals[j.id := j] && m.journalKeys == l.journalKeys[j.idempotencyKey := j.id]
            && m.allocations == l.allocations && m.reversals == l.reversals && m.accounts.Keys == l.accounts.Keys
            && forall id :: id in l.accounts ==> m.accounts[id] == l.accounts[id].(balance := l.accounts[id].balance + Net(j.entries, id)))
  {
    hide Net, AccountTotal, AssetTotal, Solvent, Moves, Total;
    PostFails(l, j);
    assert j.entries[0..] == j.entries;
    TotalMoves(j.entries, true);
    TotalMoves(j.entries, false);
    if Post(l, j).1.None? {
      PostMoves(l, j);
    }
    forall e | k < |j.entries| && RefusedAt(l, j.entries, k, e)
      ensures Complaint(l.accounts, j.entries, 0) == Some(e)
    {
      ComplaintAt(l, j.entries, 0, k, e);
    }
    if forall i :: 0 <= i < |j.entries| ==> Numbered(j.entries, i) && OnAccount(l, j.entries[i]) {
      NothingWrong(l, j.entries, 0);
    }
    hide Complaint, Staged, Numbered, OnAccount;
  }

  // ---- who runs out ----

  /** With its n-th entry the journal takes more from a business account than that holds. */
  predicate RunsOut(accounts: map<AccountId, Account>, entries: seq<Entry>, n: int) {
    1 <= n <= |entries| && var id := entries[n - 1].accountId;
    && id in accounts && accounts[id].kind in {DiscoveryPool, FormalEscrow, ChangeOrder, DisputeFee}
    && accounts[id].balance + Net(entries[..n], id) < 0
  }

  lemma RunsOutLater(accounts: map<AccountId, Account>, entries: seq<Entry>, n: int)
    requires entries != [] && entries[0].accountId in accounts && n >= 2
    ensures var id := entries[0].accountId;
      RunsOut(accounts, entries, n) <==> RunsOut(accounts[id := Moved(accounts[id], entries[0])], entries[1..], n - 1)
  {
    if n <= |entries| {
      var x := entries[n - 1].accountId;
      var id := entries[0].accountId;
      assert entries[1..][n - 2] == entries[n - 1];
      assert entries[..n][1..] == entries[1..][..n - 1] && entries[..n][0] == entries[0];
      assert Net(entries[..n], x) == (if id == x then Signed(entries[0]) else 0) + Net(entries[1..][..n - 1], x);
      hide Net;
    }
  }

  lemma RunsOutNow(accounts: map<AccountId, Account>, entries: seq<Entry>)
    requires entries != [] && entries[0].accountId in accounts
    ensures var id := entries[0].accountId; var moved := Moved(accounts[id], entries[0]);
      RunsOut(accounts, entries, 1) <==> Business(moved.kind) && moved.balance < 0
  {
    var id := entries[0].accountId;
    assert entries[..1] == [entries[0]] && entries[..1][1..] == [];
    assert Net(entries[..1], id) == Signed(entries[0]) + Net(entries[..1][1..], id);
    hide Signed;
  }

  lemma {:induction false} StagedIff(accounts: map<AccountId, Account>, entries: seq<Entry>)
    requires forall i :: 0 <= i < |entries| ==> entries[i].accountId in accounts
    ensures Staged(accounts, entries).None? <==> exists n :: RunsOut(accounts, entries, n)
    decreases |entries|
  {
    hide RunsOut, Moved;
    if entries != [] {
      var id := entries[0].accountId;
      var next := accounts[id := Moved(accounts[id], entries[0])];
      RunsOutNow(accounts, entries);
      StagedIff(next, entries[1..]);
      forall n | n >= 2
        ensures RunsOut(accounts, entries, n) <==> RunsOut(next, entries[1..], n - 1)
      {
        RunsOutLater(accounts, entries, n);
      }
      if n :| RunsOut(next, entries[1..], n) {
        RunsAtLeast(next, entries[1..], n);
        assert RunsOut(accounts, entries, n + 1);
      }
      if n :| RunsOut(accounts, entries, n) && n != 1 {
        RunsAtLeast(accounts, entries, n);
        assert RunsOut(next, entries[1..], n - 1);
      }
    } else {
      forall n
        ensures !RunsOut(accounts, entries, n)
      {
        if RunsOut(accounts, entries, n) {
          RunsAtLeast(accounts, entries, n);
        }
      }
    }
  }

  lemma RunsAtLeast(accounts: map<AccountId, Account>, entries: seq<Entry>, n: int)
    requires RunsOut(accounts, entries, n)
    ensures 1 <= n <= |entries|
  {
  }

  /** A sound journal is refused exactly when a business account runs out at one of its entries. */
  lemma {:induction false} InsufficientIff(l: Ledger, j: Journal)
    requires |j.entries| >= 2 && forall i :: 0 <= i < |j.entries| ==> Numbered(j.entries, i) && OnAccount(l, j.entries[i])
    requires Moves(j.entries, true) == Moves(j.entries, false)
    ensures Post(l, j).1 == Some(Insufficient) <==> exists n :: RunsOut(l.accounts, j.entries, n)
  {
    hide Moves, Total, RunsOut, Staged;
    TotalMoves(j.entries, true);
    TotalMoves(j.entries, false);
    assert j.entries[0..] == j.entries;
    NothingWrong(l, j.entries, 0);
    hide Complaint, Numbered;
    StagedIff(l.accounts, j.entries);
  }

  // ---- what is opened and filed on the way ----

  /** Accounts only change their balances, except for these, which are opened for the system if they are missing. */
  predicate OpensOnly(l: Ledger, m: Ledger, system: set<AccountId>) {
    && m.accounts.Keys == l.accounts.Keys + system
    && (forall id :: id in l.accounts ==> m.accounts[id].(balance := l.accounts[id].balance) == l.accounts[id])
    && forall id :: id in system && id !in l.accounts ==> IsSystem(id, m.accounts[id])
  }

  predicate IsSystem(id: AccountId, account: Account) {
    && account.id == id && account.state == AccountState.Open && account.taskId == "" && account.owners == ""
    && match id
       case FundAccount(_, _, _) => false
       case ControlAccount(asset) => account.kind == FundingControl && account.referenceId == asset && account.asset == asset
       case ReceivableAccount(agentId, asset) => account.kind == AgentReceivable && account.referenceId == agentId && account.asset == asset
       case ClearingAccount(allocationId, asset) => account.kind == ExternalClearing && account.referenceId == allocationId && account.asset == asset
  }

  /** What a capture opens: accounts for what it pays, not for what is zero. */
  function Payees(a: Allocation, claim: Claim): set<AccountId> {
    (if claim.amount > 0 then {ReceivableAccount(claim.agentId, a.asset)} else {})
    + (if claim.usedCost > 0 then {ClearingAccount(a.id, a.asset)} else {})
  }

  lemma PostKeepsAccounts(l: Ledger, ready: Ledger, j: Journal, system: set<AccountId>)
    requires OpensOnly(l, ready, system) && Post(ready, j).1.None?
    ensures OpensOnly(l, Post(ready, j).0, system)
  {
    hide Post, Net, AccountTotal, AssetTotal, Solvent;
    PostMoves(ready, j);
    var m := Post(ready, j).0;
    forall id | id in ready.accounts
      ensures m.accounts[id].(balance := ready.accounts[id].balance) == ready.accounts[id]
    {
    }
  }

  lemma EnsureOpens(l: Ledger, account: Account)
    requires IsSystem(account.id, account)
    ensures OpensOnly(l, Ensure(l, account), {account.id}) && Ensure(l, account) == l.(accounts := Ensure(l, account).accounts)
  {
    hide IsSystem;
  }

  lemma OpensMore(l: Ledger, m: Ledger, n: Ledger, first: set<AccountId>, second: set<AccountId>)
    requires OpensOnly(l, m, first) && OpensOnly(m, n, second)
    requires forall id :: id in m.accounts && id !in l.accounts ==> n.accounts[id] == m.accounts[id]
    ensures OpensOnly(l, n, first + second)
  {
    hide IsSystem;
  }

  lemma AccountsOpen(l: Ledger, a: Allocation, claim: Claim)
    ensures OpensOnly(l, CaptureAccounts(l, a, claim), Payees(a, claim)) && CaptureAccounts(l, a, claim) == l.(accounts := CaptureAccounts(l, a, claim).accounts)
  {
    var receivable := SystemAccount(ReceivableAccount(claim.agentId, a.asset), AgentReceivable, claim.agentId, a.asset);
    var clearing := SystemAccount(ClearingAccount(a.id, a.asset), ExternalClearing, a.id, a.asset);
    var first := if claim.amount == 0 then l else Ensure(l, receivable);
    NothingOpened(l, l);
    EnsureOpens(l, receivable);
    EnsureOpens(first, clearing);
    NothingOpened(first, first);
    hide OpensOnly;
    OpensMore(l, first, CaptureAccounts(l, a, claim), if claim.amount > 0 then {receivable.id} else {}, if claim.usedCost > 0 then {clearing.id} else {});
  }

  /** A capture opens its payees' accounts and files one journal under the allocation's own key, none for a claim of nothing. */
  lemma {:induction false} CaptureFiles(l: Ledger, id: string, claim: Claim)
    requires Inv(l) && id in l.allocations && l.allocations[id].status == Authorized
    requires CaptureOverview(l, id, claim).1.Success?
    ensures var m := CaptureOverview(l, id, claim).0; var a := l.allocations[id];
      && OpensOnly(l, m, Payees(a, claim)) && id in m.allocations && var filed := m.allocations[id].captureJournal;
      && (filed.Some? <==> claim.amount + claim.usedCost > 0)
      && if filed.None? then m.journals == l.journals && m.journalKeys == l.journalKeys
         else
           && filed.value in m.journals && m.journals == l.journals[filed.value := m.journals[filed.value]]
           && m.journals[filed.value].requestHash == OfClaim(claim) && m.journals[filed.value].reversalOf.None?
           && m.journals[filed.value].idempotencyKey == "capture:" + id && m.journalKeys == l.journalKeys["capture:" + id := filed.value]
  {
    hide Post, Inv, CaptureEntries, CaptureAccounts, AccountsOk, JournalsOk, OpensOnly, ClaimMatches;
    InvParts(l, id);
    var a := l.allocations[id];
    if claim.amount + claim.usedCost > 0 {
      AccountsOpen(l, a, claim);
      var ready, j := CaptureAccounts(l, a, claim), CaptureOf(a, a.accountId.value, claim);
      PostKeepsAccounts(l, ready, j, Payees(a, claim));
      hide Net, AccountTotal, AssetTotal, Solvent;
      PostMoves(ready, j);
      OnlyAccounts(l, Post(ready, j).0, CaptureOverview(l, id, claim).0, Payees(a, claim));
    } else {
      assert Payees(a, claim) == {};
      NothingOpened(l, CaptureOverview(l, id, claim).0);
    }
  }

  lemma OnlyAccounts(l: Ledger, m: Ledger, n: Ledger, system: set<AccountId>)
    requires OpensOnly(l, m, system) && n.accounts == m.accounts
    ensures OpensOnly(l, n, system)
  {
  }

  lemma NothingOpened(l: Ledger, m: Ledger)
    requires m.accounts == l.accounts
    ensures OpensOnly(l, m, {})
  {
  }

  /** A funding opens the asset's control account, if that is missing, and nothing else. */
  lemma {:induction false} FundingOpens(l: Ledger, request: FundingRequest)
    requires Inv(l) && RecordFunding(l, request).0 != l && request.accountId in l.accounts
    ensures OpensOnly(l, RecordFunding(l, request).0, {ControlAccount(l.accounts[request.accountId].asset)})
  {
    hide Post, AccountsOk, AllocationsOk, ReversalsOk, Conserved, Blank, OpensOnly, FundingJournal;
    var asset := l.accounts[request.accountId].asset;
    var control := SystemAccount(ControlAccount(asset), FundingControl, asset, asset);
    ControlOpens(l, asset);
    var ready, j := Ensure(l, control), FundingJournal(request, asset);
    if Post(ready, j).1.None? {
      PostKeepsAccounts(l, ready, j, {ControlAccount(asset)});
    } else {
      PostFails(ready, j);
    }
  }

  lemma ControlOpens(l: Ledger, asset: string)
    ensures OpensOnly(l, Ensure(l, SystemAccount(ControlAccount(asset), FundingControl, asset, asset)), {ControlAccount(asset)})
  {
  }
}
