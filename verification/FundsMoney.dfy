/** Which balances each operation of the funds service moves, account by account. */
module FundsMoney {
  import opened Wrappers
  import opened FundsLedger
  import opened FundsPosting
  import opened FundsInvariant
  import opened FundsOperations

  /** An account that does not exist yet holds nothing. */
  function BalanceOf(l: Ledger, id: AccountId): int {
    if id in l.accounts then l.accounts[id].balance else 0
  }

  /** Opening empty accounts and posting a journal moves every balance by the journal's net. */
  lemma PostedBalance(l: Ledger, ready: Ledger, j: Journal, account: AccountId)
    requires Widened(l, ready) && Post(ready, j).1.None?
    requires account !in ready.accounts ==> Net(j.entries, account) == 0
    ensures var m := Post(ready, j).0;
      && BalanceOf(m, account) == BalanceOf(l, account) + Net(j.entries, account)
      && m.allocations == l.allocations && m.reversals == l.reversals
  {
    hide Post, Net, AccountTotal, AssetTotal, Solvent;
    PostMoves(ready, j);
  }

  // ---- capture ----

  /** What a capture changes on one account: the pool pays the agent's amount and the external cost. */
  function CaptureShare(a: Allocation, pool: AccountId, claim: Claim, id: AccountId): int {
    if id == pool then -(claim.amount + claim.usedCost)
    else if id == ReceivableAccount(claim.agentId, a.asset) then claim.amount
    else if id == ClearingAccount(a.id, a.asset) then claim.usedCost
    else 0
  }

  lemma NetOfOne(e: Entry, id: AccountId)
    ensures Net([e], id) == if e.accountId == id then Signed(e) else 0
  {
    assert [e][1..] == [];
  }

  lemma {:induction false} NetAppend(a: seq<Entry>, e: Entry, id: AccountId)
    ensures Net(a + [e], id) == Net(a, id) + if e.accountId == id then Signed(e) else 0
  {
    if a == [] {
      assert a + [e] == [e];
      NetOfOne(e, id);
    } else {
      assert (a + [e])[1..] == a[1..] + [e];
      NetAppend(a[1..], e, id);
    }
  }

  lemma CaptureNet(a: Allocation, pool: AccountId, claim: Claim, id: AccountId)
    requires pool.FundAccount?
    ensures Net(CaptureEntries(a, pool, claim), id) == CaptureShare(a, pool, claim, id)
  {
    var debit := [Entry(1, pool, true, claim.amount + claim.usedCost, a.asset)];
    NetOfOne(debit[0], id);
    var agent := if claim.amount == 0 then [] else [Entry(2, ReceivableAccount(claim.agentId, a.asset), false, claim.amount, a.asset)];
    if claim.amount != 0 {
      NetAppend(debit, agent[0], id);
    } else {
      assert debit + agent == debit;
    }
    if claim.usedCost != 0 {
      NetAppend(debit + agent, Entry(2 + |agent|, ClearingAccount(a.id, a.asset), false, claim.usedCost, a.asset), id);
    } else {
      assert debit + agent + [] == debit + agent;
    }
  }

  /** The allocation as a capture leaves it. */
  predicate CapturedAs(a: Allocation, b: Allocation, claim: Claim) {
    && b.status == Captured && b.capturedOverview == claim.amount && b.capturedCost == claim.usedCost
    && b.claimHash == Some(OfClaim(claim)) && b.releaseReason == a.releaseReason && b.accountId == a.accountId && SameIdentity(a, b)
  }

  /**
   A capture moves the claimed amount to the agent and the used cost to external clearing, both out of
   the allocation's pool, and no other balance; it closes this allocation and no other.
   */
  lemma {:induction false} CaptureMovesMoney(l: Ledger, id: string, claim: Claim, account: AccountId)
    requires Inv(l) && id in l.allocations && l.allocations[id].status == Authorized
    requires CaptureOverview(l, id, claim).1.Success?
    ensures var (m, r) := CaptureOverview(l, id, claim); var a := l.allocations[id];
      && BalanceOf(m, account) == BalanceOf(l, account) + CaptureShare(a, a.accountId.value, claim, account)
      && id in m.allocations && m.allocations == l.allocations[id := m.allocations[id]]
      && CapturedAs(a, m.allocations[id], claim) && r.value == (m.allocations[id], false)
      && m.reversals == l.reversals
  {
    hide Post, Inv, CaptureEntries, CaptureAccounts, Net, AccountsOk, JournalsOk, AllocationOk, AccountShape, Widened, ClaimMatches;
    InvParts(l, id);
    PoolIsFund(l, id);
    var a := l.allocations[id];
    if claim.amount + claim.usedCost > 0 {
      AccountsWiden(l, a, claim);
      CaptureNet(a, a.accountId.value, claim, account);
      CaptureEnsures(l, a, claim);
      PostedBalance(l, CaptureAccounts(l, a, claim), CaptureOf(a, a.accountId.value, claim), account);
    }
  }

  lemma PoolIsFund(l: Ledger, id: string)
    requires Inv(l) && id in l.allocations
    ensures var a := l.allocations[id]; a.accountId.Some? && a.accountId.value in l.accounts && a.accountId.value.FundAccount? && a.id == id
  {
    InvParts(l, id);
  }

  lemma CaptureEnsures(l: Ledger, a: Allocation, claim: Claim)
    ensures l.accounts.Keys <= CaptureAccounts(l, a, claim).accounts.Keys
    ensures claim.amount != 0 ==> ReceivableAccount(claim.agentId, a.asset) in CaptureAccounts(l, a, claim).accounts
    ensures claim.usedCost != 0 ==> ClearingAccount(a.id, a.asset) in CaptureAccounts(l, a, claim).accounts
  {
    hide Ensure;
    var receivable := SystemAccount(ReceivableAccount(claim.agentId, a.asset), AgentReceivable, claim.agentId, a.asset);
    var clearing := SystemAccount(ClearingAccount(a.id, a.asset), ExternalClearing, a.id, a.asset);
    EnsureHas(l, receivable);
    EnsureHas(if claim.amount == 0 then l else Ensure(l, receivable), clearing);
  }

  lemma EnsureHas(l: Ledger, account: Account)
    ensures Ensure(l, account).accounts.Keys == l.accounts.Keys + {account.id}
  {
  }

  // ---- funding ----

  function FundingShare(request: FundingRequest, asset: string, id: AccountId): int {
    if id == request.accountId then request.amount as int
    else if id == ControlAccount(asset) then -(request.amount as int)
    else 0
  }

  lemma FundingNet(request: FundingRequest, asset: string, id: AccountId)
    requires !request.accountId.ControlAccount?
    ensures Net(FundingJournal(request, asset).entries, id) == FundingShare(request, asset, id)
  {
    var j := FundingJournal(request, asset);
    NetOfOne(j.entries[0], id);
    NetAppend([j.entries[0]], j.entries[1], id);
    assert [j.entries[0]] + [j.entries[1]] == j.entries;
  }

  /** A funding that changes the ledger moves its amount from the asset's control account to the funded one. */
  lemma {:induction false} FundingMovesMoney(l: Ledger, request: FundingRequest, account: AccountId)
    requires Inv(l) && RecordFunding(l, request).0 != l
    ensures var (m, r) := RecordFunding(l, request);
      && r.Success? && !r.value.1 && request.accountId in l.accounts
      && BalanceOf(m, account) == BalanceOf(l, account)
           + FundingShare(request, l.accounts[request.accountId].asset, account)
      && m.allocations == l.allocations && m.reversals == l.reversals
  {
    hide Post, Inv, Net, FundingJournal, Widened;
    FundingKeeps(l, request);
    FundedIsBusiness(l, request);
    var asset := l.accounts[request.accountId].asset;
    var control := SystemAccount(ControlAccount(asset), FundingControl, asset, asset);
    EnsureWidens(l, control);
    FundingNet(request, asset, account);
    PostedBalance(l, Ensure(l, control), FundingJournal(request, asset), account);
  }

  lemma FundedIsBusiness(l: Ledger, request: FundingRequest)
    requires Inv(l) && request.accountId in l.accounts && RecordFunding(l, request).0 != l
    ensures !request.accountId.ControlAccount?
  {
    assert AccountShape(request.accountId, l.accounts[request.accountId]);
  }
}
