/** Each operation of the funds service keeps the ledger invariant; all but reversal keep coverage. */
module FundsOperations {
  import opened Wrappers
  import opened Sums
  import opened FundsLedger
  import opened FundsPosting
  import opened FundsInvariant

  lemma OpenKeeps(l: Ledger, request: OpenRequest)
    requires Inv(l)
    ensures var m := OpenRequested(l, request).0; Inv(m) && (Covered(l) ==> Covered(m))
  {
    hide Inv;
    var m := OpenRequested(l, request).0;
    if m != l {
      WidenKeeps(l, m);
    }
  }

  lemma EnsureWidens(l: Ledger, account: Account)
    requires AccountShape(account.id, account) && account.balance == 0
    ensures Widened(l, Ensure(l, account))
  {
  }

  // ---- funding ----

  /** RecordFunding of a new key succeeds on every open business account. */
  lemma FundingPosts(l: Ledger, request: FundingRequest, asset: string)
    requires Inv(l) && request.amount > 0 && request.idempotencyKey !in l.journalKeys
    requires request.accountId in l.accounts && Business(l.accounts[request.accountId].kind) && l.accounts[request.accountId].asset == asset
    requires ControlAccount(asset) in l.accounts
    ensures var j := FundingJournal(request, asset);
      Postable(l, j) && Post(l, j).1.None?
      && forall id :: id in l.accounts && l.accounts[id].kind == DiscoveryPool ==> Net(j.entries, id) >= 0
  {
    var j := FundingJournal(request, asset);
    var a, b := j.entries[0], j.entries[1];
    assert j.entries == [a, b];
    assert AccountShape(a.accountId, l.accounts[a.accountId]) && AccountShape(b.accountId, l.accounts[b.accountId]);
    Pair(l.accounts, a, b, asset);
    forall id | id in l.accounts && l.accounts[id].kind == DiscoveryPool
      ensures Net(j.entries, id) >= 0
    {
      assert AccountShape(id, l.accounts[id]);
      assert j.entries[1..] == [b] && [b][1..] == [];
      assert Net([b], id) == (if b.accountId == id then Signed(b) else 0) + Net([], id);
    }
  }

  lemma FundingKeeps(l: Ledger, request: FundingRequest)
    requires Inv(l)
    ensures var (m, r) := RecordFunding(l, request);
      && Inv(m) && (Covered(l) ==> Covered(m))
      && (m != l ==> r.Success?)
  {
    hide Inv, Post;
    var (m, r) := RecordFunding(l, request);
    if m != l {
      var asset := l.accounts[request.accountId].asset;
      var control := SystemAccount(ControlAccount(asset), FundingControl, asset, asset);
      var ready := Ensure(l, control);
      EnsureWidens(l, control);
      WidenKeeps(l, ready);
      var j := FundingJournal(request, asset);
      FundingPosts(ready, request, asset);
      PostInv(ready, j);
      CreditsCover(ready, j);
    }
  }

  /** A post that takes nothing from any pool keeps coverage. */
  lemma CreditsCover(l: Ledger, j: Journal)
    requires Post(l, j).1.None?
    requires forall id :: id in l.accounts && l.accounts[id].kind == DiscoveryPool ==> Net(j.entries, id) >= 0
    ensures Covered(l) ==> Covered(Post(l, j).0)
  {
    hide Post;
    PostMoves(l, j);
    var m := Post(l, j).0;
    forall id | id in m.accounts && m.accounts[id].kind == DiscoveryPool
      ensures Covered(l) ==> m.accounts[id].balance >= Reserved(m, id)
    {
      SameReserved(l, m, id);
    }
  }

  // ---- reservations ----

  /** Changing one allocation changes what its pool reserves by that allocation's share. */
  lemma ReservedChanges(l: Ledger, m: Ledger, id: string, pool: AccountId)
    requires id in l.allocations && id in m.allocations && m.allocations == l.allocations[id := m.allocations[id]]
    ensures Reserved(m, pool) == Reserved(l, pool) - ReserveOn(l, pool, id) + ReserveOn(m, pool, id)
  {
    assert m.allocations.Keys == l.allocations.Keys;
    SumChanges(l.allocations.Keys, Reserves(l, pool), Reserves(m, pool), id);
  }

  /** Closing an authorized allocation without moving money keeps everything. */
  lemma CloseKeeps(l: Ledger, id: string, closed: Allocation)
    requires Inv(l) && id in l.allocations && l.allocations[id].status == Authorized
    requires closed.status != Authorized && SameIdentity(closed, l.allocations[id]) && closed.accountId == l.allocations[id].accountId
    ensures var m := l.(allocations := l.allocations[id := closed]); Inv(m) && (Covered(l) ==> Covered(m))
    ensures forall pool :: Reserved(l.(allocations := l.allocations[id := closed]), pool) == Reserved(l, pool) - ReserveOn(l, pool, id)
  {
    var m := l.(allocations := l.allocations[id := closed]);
    CloseInv(l, id, closed, m);
    forall pool
      ensures Reserved(m, pool) == Reserved(l, pool) - ReserveOn(l, pool, id)
    {
      ReservedChanges(l, m, id, pool);
    }
  }

  /** Allocations alone do not matter to accounts, reversals and totals. */
  lemma SameBooks(l: Ledger, m: Ledger)
    requires m == l.(allocations := m.allocations)
    ensures AccountsOk(l) ==> AccountsOk(m)
    ensures ReversalsOk(l) ==> ReversalsOk(m)
    ensures Conserved(l) ==> Conserved(m)
  {
    forall id
      ensures Booked(m, id) == Booked(l, id)
    {
      SameBooked(l, m, id);
    }
  }

  lemma JournalsKept(l: Ledger, m: Ledger)
    requires JournalsOk(l) && m == l.(allocations := m.allocations)
    requires forall id :: id in l.allocations && l.allocations[id].status == Captured ==>
      id in m.allocations && m.allocations[id].status == Captured
    ensures JournalsOk(m)
  {
  }

  lemma AllocationPut(l: Ledger, m: Ledger, id: string)
    requires AllocationsOk(l) && id in m.allocations && m == l.(allocations := l.allocations[id := m.allocations[id]])
    requires AllocationOk(l, id, m.allocations[id])
    ensures AllocationsOk(m)
  {
    forall other | other in m.allocations
      ensures AllocationOk(m, other, m.allocations[other])
    {
      assert other != id ==> AllocationOk(l, other, l.allocations[other]);
    }
  }

  lemma CloseInv(l: Ledger, id: string, closed: Allocation, m: Ledger)
    requires Inv(l) && id in l.allocations && l.allocations[id].status == Authorized
    requires closed.status != Authorized && SameIdentity(closed, l.allocations[id]) && closed.accountId == l.allocations[id].accountId
    requires m == l.(allocations := l.allocations[id := closed])
    ensures Inv(m)
  {
    hide AccountsOk, Conserved, ReversalsOk, JournalsOk;
    SameBooks(l, m);
    JournalsKept(l, m);
    assert AllocationOk(l, id, l.allocations[id]);
    AllocationPut(l, m, id);
  }

  lemma ReleaseKeeps(l: Ledger, id: string, reasonCode: string)
    requires Inv(l)
    ensures var m := ReleaseOverview(l, id, reasonCode).0; Inv(m) && (Covered(l) ==> Covered(m))
  {
    var (m, r) := ReleaseOverview(l, id, reasonCode);
    if m != l {
      CloseKeeps(l, id, r.value.0);
    }
  }

  lemma AuthorizeInv(l: Ledger, placed: Allocation, m: Ledger)
    requires Inv(l) && placed.id !in l.allocations && AllocationOk(l, placed.id, placed)
    requires m == l.(allocations := l.allocations[placed.id := placed])
    ensures Inv(m)
  {
    hide AccountsOk, Conserved, ReversalsOk, JournalsOk, AllocationsOk, AllocationOk;
    SameBooks(l, m);
    JournalsKept(l, m);
    AllocationPut(l, m, placed.id);
  }

  /** What a granted reservation is: a new allocation on the one pool of its task, within what is free there. */
  lemma AuthorizePlaces(l: Ledger, asset: string, request: Authorization, now: int)
    requires AuthorizeOverview(l, asset, request, now).0 != l
    ensures var (m, r) := AuthorizeOverview(l, asset, request, now);
      r.Success? && var placed := r.value.0;
      && placed.id !in l.allocations && m == l.(allocations := l.allocations[placed.id := placed])
      && AllocationOk(l, placed.id, placed)
      && l.accounts[placed.accountId.value].balance - Reserved(l, placed.accountId.value) >= placed.reserve
  {
    var placed := AuthorizeOverview(l, asset, request, now).1.value.0;
    assert placed.accountId.value in Pools(l, placed.taskId, placed.asset);
  }

  lemma ReservedGrows(l: Ledger, m: Ledger, placed: Allocation, pool: AccountId)
    requires placed.id !in l.allocations && m == l.(allocations := l.allocations[placed.id := placed])
    ensures Reserved(m, pool) == Reserved(l, pool) + ReserveOn(m, pool, placed.id)
  {
    assert m.allocations.Keys == l.allocations.Keys + {placed.id};
    SumAdds(l.allocations.Keys, Reserves(m, pool), placed.id);
    SumSame(l.allocations.Keys, Reserves(m, pool), Reserves(l, pool));
  }

  /** A reservation is granted only out of what the pool still has free. */
  lemma AuthorizeKeeps(l: Ledger, asset: string, request: Authorization, now: int)
    requires Inv(l)
    ensures var m := AuthorizeOverview(l, asset, request, now).0; Inv(m) && (Covered(l) ==> Covered(m))
  {
    hide Inv, AuthorizeOverview, Reserved;
    var (m, r) := AuthorizeOverview(l, asset, request, now);
    if m != l {
      AuthorizePlaces(l, asset, request, now);
      var placed := r.value.0;
      AuthorizeInv(l, placed, m);
      forall pool | pool in m.accounts && m.accounts[pool].kind == DiscoveryPool
        ensures Covered(l) ==> m.accounts[pool].balance >= Reserved(m, pool)
      {
        ReservedGrows(l, m, placed, pool);
      }
    }
  }

  // ---- capture ----

  /** Credits never make a solvent ledger insolvent. */
  lemma {:induction false} CreditsStage(accounts: map<AccountId, Account>, entries: seq<Entry>)
    requires Placed(accounts, entries) && Solvent(accounts)
    requires forall k :: 0 <= k < |entries| ==> !entries[k].debit && entries[k].amount >= 0
    ensures Staged(accounts, entries).Some?
  {
    if entries != [] {
      var id := entries[0].accountId;
      var next := accounts[id := Moved(accounts[id], entries[0])];
      assert Placed(next, entries[1..]) by {
        assert forall k :: 0 <= k < |entries[1..]| ==> entries[1..][k] == entries[k + 1];
      }
      CreditsStage(next, entries[1..]);
    }
  }

  lemma CaptureRest(a: Allocation, pool: AccountId, claim: Claim)
    requires claim.amount + claim.usedCost > 0
    ensures var es := CaptureEntries(a, pool, claim);
      && |es| in {2, 3} && es[0] == Entry(1, pool, true, claim.amount + claim.usedCost, a.asset)
      && (forall k :: 1 <= k < |es| ==>
            && es[k].index == k + 1 && !es[k].debit && es[k].amount > 0
            && es[k].asset == a.asset && !es[k].accountId.FundAccount?)
      && es[1].amount + (if |es| == 3 then es[2].amount else 0) == claim.amount + claim.usedCost
  {
  }

  /** A journal of one debit and one or two credits for the same total. */
  lemma SplitTotals(es: seq<Entry>)
    requires |es| in {2, 3} && es[0].debit && forall k :: 1 <= k < |es| ==> !es[k].debit
    requires es[1].amount + (if |es| == 3 then es[2].amount else 0) == es[0].amount
    ensures Total(es, true) == Total(es, false)
  {
    var rest := es[1..];
    assert Total(es, true) == es[0].amount + Total(rest, true) && Total(es, false) == Total(rest, false);
    var last := rest[1..];
    assert Total(rest, true) == Total(last, true) && Total(rest, false) == es[1].amount + Total(last, false);
    if |es| == 3 {
      assert last[0] == es[2] && last[1..] == [];
      assert Total(last, false) == es[2].amount + Total([], false) && Total(last, true) == Total([], true);
    } else {
      assert last == [];
    }
  }

  lemma {:induction false} NoComplaintIf(accounts: map<AccountId, Account>, entries: seq<Entry>, i: nat)
    requires forall k :: 0 <= k < |entries| ==>
      && entries[k].index == i + k + 1 && entries[k].amount > 0
      && entries[k].accountId in accounts && accounts[entries[k].accountId].asset == entries[k].asset
    ensures Complaint(accounts, entries, i).None?
  {
    if entries != [] {
      assert forall k :: 0 <= k < |entries[1..]| ==> entries[1..][k] == entries[k + 1];
      NoComplaintIf(accounts, entries[1..], i + 1);
    }
  }

  /** The shape of a capture's entries: one debit on the pool, then credits that add up to it. */
  lemma CaptureShape(accounts: map<AccountId, Account>, a: Allocation, pool: AccountId, claim: Claim)
    requires claim.amount + claim.usedCost > 0 && pool.FundAccount?
    requires forall e :: e in CaptureEntries(a, pool, claim) ==> e.accountId in accounts && accounts[e.accountId].asset == a.asset
    ensures var es := CaptureEntries(a, pool, claim);
      && InOneAsset(es) && Complaint(accounts, es, 0).None? && Placed(accounts, es)
      && es[0] == Entry(1, pool, true, claim.amount + claim.usedCost, a.asset)
      && (forall k :: 1 <= k < |es| ==> !es[k].debit && es[k].amount > 0)
      && Net(es, pool) == -(claim.amount + claim.usedCost)
      && (forall id: AccountId :: id.FundAccount? && id != pool ==> Net(es, id) == 0)
  {
    hide CaptureEntries;
    var es := CaptureEntries(a, pool, claim);
    CaptureRest(a, pool, claim);
    assert forall k :: 0 <= k < |es| ==> es[k] in es;
    SplitTotals(es);
    NoComplaintIf(accounts, es, 0);
    forall id: AccountId | id.FundAccount?
      ensures Net(es[1..], id) == 0
    {
      assert forall k :: 0 <= k < |es[1..]| ==> es[1..][k] == es[k + 1];
      UnnamedNet(es[1..], id);
    }
  }

  /** A capture posts exactly when the pool holds the claimed total. */
  lemma CapturePosts(l: Ledger, a: Allocation, pool: AccountId, claim: Claim)
    requires AccountsOk(l) && claim.amount + claim.usedCost > 0 && pool.FundAccount?
    requires forall e :: e in CaptureEntries(a, pool, claim) ==> e.accountId in l.accounts && l.accounts[e.accountId].asset == a.asset
    ensures Post(l, CaptureOf(a, pool, claim)).1 in {None, Some(Insufficient)}
    ensures Post(l, CaptureOf(a, pool, claim)).1 == None <==> l.accounts[pool].balance >= claim.amount + claim.usedCost
  {
    var es := CaptureEntries(a, pool, claim);
    CaptureShape(l.accounts, a, pool, claim);
    assert AccountShape(pool, l.accounts[pool]);
    if l.accounts[pool].balance >= claim.amount + claim.usedCost {
      var next := l.accounts[pool := Moved(l.accounts[pool], es[0])];
      assert Placed(next, es[1..]) by {
        assert forall k :: 0 <= k < |es[1..]| ==> es[1..][k] == es[k + 1];
      }
      CreditsStage(next, es[1..]);
    }
  }

  lemma AccountsWiden(l: Ledger, a: Allocation, claim: Claim)
    ensures Widened(l, CaptureAccounts(l, a, claim))
  {
    var receivable := SystemAccount(ReceivableAccount(claim.agentId, a.asset), AgentReceivable, claim.agentId, a.asset);
    var clearing := SystemAccount(ClearingAccount(a.id, a.asset), ExternalClearing, a.id, a.asset);
    EnsureWidens(l, receivable);
    EnsureWidens(if claim.amount == 0 then l else Ensure(l, receivable), clearing);
  }

  lemma EntryNames(a: Allocation, pool: AccountId, claim: Claim, e: Entry)
    requires e in CaptureEntries(a, pool, claim)
    ensures e.accountId == pool
      || (claim.amount != 0 && e.accountId == ReceivableAccount(claim.agentId, a.asset))
      || (claim.usedCost != 0 && e.accountId == ClearingAccount(a.id, a.asset))
  {
  }

  lemma EntryAccounts(l: Ledger, a: Allocation, claim: Claim, e: Entry)
    requires a.accountId.Some? && a.accountId.value in l.accounts && e in CaptureEntries(a, a.accountId.value, claim)
    ensures e.accountId in CaptureAccounts(l, a, claim).accounts
    ensures e.accountId == a.accountId.value || AssetOf(e.accountId) == a.asset
  {
    hide CaptureEntries;
    EntryNames(a, a.accountId.value, claim, e);
  }

  /** A capture first makes sure that all accounts it credits exist. */
  lemma CaptureWidens(l: Ledger, a: Allocation, claim: Claim)
    requires Inv(l) && AllocationOk(l, a.id, a)
    ensures var m := CaptureAccounts(l, a, claim);
      && Widened(l, m) && Inv(m)
      && (Covered(l) ==> Covered(m))
      && forall e :: e in CaptureEntries(a, a.accountId.value, claim) ==> e.accountId in m.accounts && m.accounts[e.accountId].asset == a.asset
  {
    hide Inv, CaptureAccounts, CaptureEntries, Covered;
    var m := CaptureAccounts(l, a, claim);
    AccountsWiden(l, a, claim);
    WidenKeeps(l, m);
    InvParts(m, a.id);
    forall e | e in CaptureEntries(a, a.accountId.value, claim)
      ensures e.accountId in m.accounts && m.accounts[e.accountId].asset == a.asset
    {
      EntryAccounts(l, a, claim, e);
      assert AccountShape(e.accountId, m.accounts[e.accountId]);
    }
  }

  lemma InvParts(l: Ledger, id: string)
    requires Inv(l)
    ensures AccountsOk(l) && JournalsOk(l)
    ensures id in l.allocations ==>
      AllocationOk(l, id, l.allocations[id]) && AccountShape(l.allocations[id].accountId.value, l.accounts[l.allocations[id].accountId.value])
    ensures id in l.allocations && l.allocations[id].status == Authorized ==>
      forall hash :: CaptureJournal(id, hash) !in l.journals
  {
  }

  /** Posting reads and writes accounts and journals only. */
  lemma PostSame(l: Ledger, m: Ledger, j: Journal)
    requires m == l.(allocations := m.allocations)
    ensures Post(m, j) == (Post(l, j).0.(allocations := m.allocations), Post(l, j).1)
  {
  }

  /** The pool pays at most what the closed reservation had set aside. */
  lemma CaptureCovers(l: Ledger, marked: Ledger, id: string, claim: Claim)
    requires Inv(l) && Covered(l) && id in l.allocations && l.allocations[id].status == Authorized
    requires ClaimMatches(l.allocations[id], claim) && claim.amount + claim.usedCost > 0
    requires marked == l.(allocations := l.allocations[id := MarkCaptured(l.allocations[id], claim)])
    requires var a := l.allocations[id]; forall e :: e in CaptureEntries(a, a.accountId.value, claim) ==>
      e.accountId in l.accounts && l.accounts[e.accountId].asset == a.asset
    requires Post(marked, CaptureOf(l.allocations[id], l.allocations[id].accountId.value, claim)).1.None?
    ensures Covered(Post(marked, CaptureOf(l.allocations[id], l.allocations[id].accountId.value, claim)).0)
  {
    hide Post, Inv, Reserved, ClaimMatches, MarkCaptured, CaptureEntries, Net, InOneAsset, Complaint, Placed, AccountTotal, AssetTotal;
    InvParts(l, id);
    var a := l.allocations[id];
    var pool := a.accountId.value;
    var j := CaptureOf(a, pool, claim);
    MarkShape(a, claim);
    CaptureShape(l.accounts, a, pool, claim);
    ClaimWithinReserve(l, id, claim);
    PostMoves(marked, j);
    var m := Post(marked, j).0;
    forall p | p in m.accounts && m.accounts[p].kind == DiscoveryPool
      ensures m.accounts[p].balance >= Reserved(m, p)
    {
      assert AccountShape(p, l.accounts[p]);
      SameReserved(marked, m, p);
      ReservedChanges(l, marked, id, p);
    }
  }

  lemma ClaimWithinReserve(l: Ledger, id: string, claim: Claim)
    requires id in l.allocations && AllocationOk(l, id, l.allocations[id]) && ClaimMatches(l.allocations[id], claim)
    ensures claim.amount + claim.usedCost <= l.allocations[id].reserve
  {
  }

  /** After the accounts exist: mark, post, and the pool still covers the other reservations. */
  lemma CaptureMoves(l: Ledger, id: string, claim: Claim)
    requires Inv(l) && id in l.allocations && l.allocations[id].status == Authorized
    requires ClaimMatches(l.allocations[id], claim) && claim.amount + claim.usedCost > 0
    requires var a := l.allocations[id]; forall e :: e in CaptureEntries(a, a.accountId.value, claim) ==>
      e.accountId in l.accounts && l.accounts[e.accountId].asset == a.asset
    requires Post(l, CaptureOf(l.allocations[id], l.allocations[id].accountId.value, claim)).1.None?
    ensures var a := l.allocations[id];
      var m := Post(l, CaptureOf(a, a.accountId.value, claim)).0.(allocations := l.allocations[id := MarkCaptured(a, claim)]);
      Inv(m) && (Covered(l) ==> Covered(m))
  {
    hide Post, Inv, Covered, ClaimMatches;
    InvParts(l, id);
    var a := l.allocations[id];
    var pool := a.accountId.value;
    var j := CaptureOf(a, pool, claim);
    var marked := l.(allocations := l.allocations[id := MarkCaptured(a, claim)]);
    CloseKeeps(l, id, MarkCaptured(a, claim));
    CaptureShape(l.accounts, a, pool, claim);
    PostSame(l, marked, j);
    PostInv(marked, j);
    if Covered(l) {
      CaptureCovers(l, marked, id, claim);
    }
  }

  /** A capture keeps the invariant whatever its result; if it changes nothing but accounts it failed for funds. */
  lemma CaptureKeeps(l: Ledger, id: string, claim: Claim)
    requires Inv(l)
    ensures var m := CaptureOverview(l, id, claim).0; Inv(m) && (Covered(l) ==> Covered(m))
  {
    hide Post, Inv, Covered, ClaimMatches, CaptureAccounts, MarkCaptured;
    InvParts(l, id);
    if id in l.allocations && l.allocations[id].status == Authorized && ClaimMatches(l.allocations[id], claim) {
      var a := l.allocations[id];
      if claim.amount + claim.usedCost == 0 {
        MarkShape(a, claim);
        CloseKeeps(l, id, MarkCaptured(a, claim));
      } else {
        CaptureWidens(l, a, claim);
        var ready := CaptureAccounts(l, a, claim);
        InvParts(ready, id);
        CapturePosts(ready, a, a.accountId.value, claim);
        PostFails(ready, CaptureOf(a, a.accountId.value, claim));
        if Post(ready, CaptureOf(a, a.accountId.value, claim)).1.None? {
          CaptureMoves(ready, id, claim);
          PostMoves(ready, CaptureOf(a, a.accountId.value, claim));
        }
      }
    }
  }

  lemma MarkShape(a: Allocation, claim: Claim)
    ensures var c := MarkCaptured(a, claim); c.status == Captured && SameIdentity(c, a) && c.accountId == a.accountId
  {
  }

  lemma PostFails(l: Ledger, j: Journal)
    ensures Post(l, j).1.Some? ==> Post(l, j).0 == l
  {
  }

  /** A matching claim on an authorized allocation of a covered ledger is always captured. */
  lemma CaptureNeverInsufficient(l: Ledger, id: string, claim: Claim)
    requires Inv(l) && Covered(l) && id in l.allocations && l.allocations[id].status == Authorized
    requires ClaimMatches(l.allocations[id], claim)
    ensures CaptureOverview(l, id, claim).1 == Success((MarkCaptured(l.allocations[id], claim), false))
  {
    hide Post, Inv, CaptureEntries, CaptureAccounts, AccountsOk, JournalsOk, Sum;
    var a := l.allocations[id];
    InvParts(l, id);
    if claim.amount + claim.usedCost > 0 {
      var pool := a.accountId.value;
      CaptureWidens(l, a, claim);
      var ready := CaptureAccounts(l, a, claim);
      InvParts(ready, id);
      CapturePosts(ready, a, pool, claim);
      forall k | k in l.allocations
        ensures Reserves(l, pool)(k) >= 0
      {
      }
      SumBounds(l.allocations.Keys, Reserves(l, pool), id);
    }
  }

  // ---- reversal ----

  /** Posting the mirror of a stored journal takes back its net on every account. */
  lemma ReverseMoves(l: Ledger, original: JournalId, j: Journal)
    requires Inv(l) && original in l.journals && original !in l.reversals && j.id.RequestJournal?
    requires j.reversalOf == Some(original) && j.entries == Mirrored(l.journals[original].entries)
    requires j.id !in l.journals && j.idempotencyKey == j.id.key && Post(l, j).1.None?
    ensures var m := Post(l, j).0.(reversals := l.reversals[original := j.id]);
      && Inv(m)
      && (forall id :: id in l.accounts ==>
            id in m.accounts && m.accounts[id].balance == l.accounts[id].balance - Net(l.journals[original].entries, id))
  {
    hide AccountsOk, Conserved, AllocationsOk, JournalsOk, ReversalsOk, Post;
    var entries := l.journals[original].entries;
    assert MirrorOf(j.entries, entries);
    ReversePostable(l, original, j);
    ReverseInv(l, original, j);
    PostMoves(l, j);
    forall id
      ensures Net(j.entries, id) == -Net(entries, id)
    {
      MirrorNegates(j.entries, entries, id, "");
    }
  }

  lemma ReversePostable(l: Ledger, original: JournalId, j: Journal)
    requires JournalsOk(l) && original in l.journals && MirrorOf(j.entries, l.journals[original].entries)
    requires j.id.RequestJournal? && j.id !in l.journals && j.idempotencyKey == j.id.key
    ensures Postable(l, j)
  {
    hide InOneAsset, Placed, MirrorOf;
    MirrorFits(l.accounts, j.entries, l.journals[original].entries);
  }

  lemma MirrorFits(accounts: map<AccountId, Account>, mirror: seq<Entry>, entries: seq<Entry>)
    requires MirrorOf(mirror, entries) && InOneAsset(entries) && Placed(accounts, entries)
    ensures InOneAsset(mirror) && Placed(accounts, mirror)
  {
    hide Total;
    MirrorNegates(mirror, entries, ControlAccount(""), "");
  }

  lemma ReverseInv(l: Ledger, original: JournalId, j: Journal)
    requires Inv(l) && original in l.journals && original !in l.reversals && j.id.RequestJournal?
    requires j.reversalOf == Some(original) && MirrorOf(j.entries, l.journals[original].entries)
    requires Postable(l, j) && Post(l, j).1.None?
    ensures Inv(Post(l, j).0.(reversals := l.reversals[original := j.id]))
  {
    hide AccountsOk, Conserved, JournalsOk, AllocationsOk, Post, ReversalsOk;
    var posted := Post(l, j).0;
    PostMoves(l, j);
    PostKeeps(l, j);
    PostJournals(l, j);
    AllocationsStay(l, posted);
    var m := posted.(reversals := l.reversals[original := j.id]);
    ReversalAdded(l, m, original, j);
    SameButReversals(posted, m);
  }

  lemma ReversalAdded(l: Ledger, m: Ledger, original: JournalId, j: Journal)
    requires ReversalsOk(l) && j.id !in l.journals && original in l.journals && original !in l.reversals
    requires j.reversalOf == Some(original) && MirrorOf(j.entries, l.journals[original].entries)
    requires m.journals == l.journals[j.id := j] && m.reversals == l.reversals[original := j.id]
    ensures ReversalsOk(m)
  {
  }

  lemma SameButReversals(l: Ledger, m: Ledger)
    requires m == l.(reversals := m.reversals)
    ensures AccountsOk(l) ==> AccountsOk(m)
    ensures JournalsOk(l) ==> JournalsOk(m)
    ensures AllocationsOk(l) ==> AllocationsOk(m)
    ensures Conserved(l) ==> Conserved(m)
  {
    forall id
      ensures Booked(m, id) == Booked(l, id)
    {
      SameBooked(l, m, id);
    }
    forall id, a
      ensures AllocationOk(l, id, a) ==> AllocationOk(m, id, a)
    {
    }
  }

  /** A reversal that posts takes back exactly the original's net on every account. */
  lemma ReverseKeeps(l: Ledger, request: ReverseRequest)
    requires Inv(l)
    ensures var (m, r) := ReverseJournal(l, request);
      && Inv(m)
      && (m != l ==> r.Success? && Reverses(l, m, request.journalId))
  {
    hide Inv, Post;
    var (m, r) := ReverseJournal(l, request);
    if m != l {
      var j := ReversalJournal(request, l.journals[request.journalId]);
      StoredId(l, request.journalId);
      NewKeyNewJournal(l, request.idempotencyKey);
      PostFails(l, j);
      ReverseMoves(l, request.journalId, j);
      PostMoves(l, j);
    }
  }

  lemma StoredId(l: Ledger, k: JournalId)
    requires Inv(l) && k in l.journals
    ensures l.journals[k].id == k
  {
  }

  /** An unused idempotency key has no journal yet. */
  lemma NewKeyNewJournal(l: Ledger, key: string)
    requires Inv(l)
    ensures key !in l.journalKeys ==> RequestJournal(key) !in l.journals
  {
  }

  /** The original was not reversed before, is now, and every account lost the original's net. */
  ghost predicate Reverses(l: Ledger, m: Ledger, original: JournalId) {
    && original in l.journals && original !in l.reversals && original in m.reversals
    && forall id :: id in l.accounts ==>
         id in m.accounts && m.accounts[id].balance == l.accounts[id].balance - Net(l.journals[original].entries, id)
  }
}
