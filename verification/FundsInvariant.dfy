/** What every operation of the ledger keeps. */
module FundsInvariant {
  import opened Wrappers
  import opened Sums
  import opened FundsLedger
  import opened FundsPosting

  function AssetOf(id: AccountId): string {
    match id
    case FundAccount(_, _, asset) => asset
    case ControlAccount(asset) => asset
    case ReceivableAccount(_, asset) => asset
    case ClearingAccount(_, asset) => asset
  }

  function KindOf(id: AccountId): AccountType {
    match id
    case FundAccount(kind, _, _) => kind
    case ControlAccount(_) => FundingControl
    case ReceivableAccount(_, _) => AgentReceivable
    case ClearingAccount(_, _) => ExternalClearing
  }

  function Nets(l: Ledger, id: AccountId): JournalId -> int {
    (k: JournalId) => if k in l.journals then Net(l.journals[k].entries, id) else 0
  }

  /** The signed sum of an account's entries over all posted journals. */
  ghost function Booked(l: Ledger, id: AccountId): int {
    Sum(l.journals.Keys, Nets(l, id))
  }

  predicate AccountShape(id: AccountId, account: Account) {
    account.id == id && account.asset == AssetOf(id) && account.kind == KindOf(id) && (id.FundAccount? ==> Business(id.kind))
  }

  ghost predicate AccountsOk(l: Ledger) {
    && (forall id :: id in l.accounts ==> AccountShape(id, l.accounts[id]) && l.accounts[id].balance == Booked(l, id))
    && Solvent(l.accounts)
  }

  ghost predicate JournalsOk(l: Ledger) {
    && (forall k :: k in l.journals ==> l.journals[k].id == k && Placed(l.accounts, l.journals[k].entries) && InOneAsset(l.journals[k].entries))
    && (forall k :: k in l.journals && k.RequestJournal? ==> k.key in l.journalKeys)
    && (forall key :: key in l.journalKeys ==> l.journalKeys[key] in l.journals)
    && (forall k :: k in l.journals && k.CaptureJournal? ==>
          k.allocationId in l.allocations && l.allocations[k.allocationId].status == Captured)
  }

  /** All entries are in the first one's asset and the journal balances. */
  ghost predicate InOneAsset(entries: seq<Entry>) {
    && |entries| >= 2
    && (forall k :: 0 <= k < |entries| ==> entries[k].asset == entries[0].asset && entries[k].amount > 0)
    && Total(entries, true) == Total(entries, false)
  }

  ghost predicate AllocationOk(l: Ledger, id: string, a: Allocation) {
    && a.id == id && a.reserve == a.overviewPrice + a.costCap
    && a.accountId.Some? && a.accountId.value in l.accounts
    && var pool := l.accounts[a.accountId.value]; pool.kind == DiscoveryPool && pool.asset == a.asset && pool.taskId == a.taskId
  }

  ghost predicate AllocationsOk(l: Ledger) {
    forall id :: id in l.allocations ==> AllocationOk(l, id, l.allocations[id])
  }

  /** A reversal names its original, and each original has at most the one recorded reversal. */
  ghost predicate ReversalsOk(l: Ledger) {
    && (forall k :: k in l.reversals ==> l.reversals[k] in l.journals && l.journals[l.reversals[k]].reversalOf == Some(k))
    && (forall j :: j in l.journals && l.journals[j].reversalOf.Some? ==>
          var k := l.journals[j].reversalOf.value;
          k in l.reversals && l.reversals[k] == j && k in l.journals && MirrorOf(l.journals[j].entries, l.journals[k].entries))
  }

  /** Balances in every asset add up to zero. */
  ghost predicate Conserved(l: Ledger) {
    forall asset :: AccountTotal(l.accounts, asset) == 0
  }

  ghost predicate Inv(l: Ledger) {
    AccountsOk(l) && JournalsOk(l) && AllocationsOk(l) && ReversalsOk(l) && Conserved(l)
  }

  /** Each pool holds at least what its authorized allocations reserve. */
  ghost predicate Covered(l: Ledger) {
    forall id :: id in l.accounts && l.accounts[id].kind == DiscoveryPool ==> l.accounts[id].balance >= Reserved(l, id)
  }

  lemma EmptyOk()
    ensures Inv(EMPTY) && Covered(EMPTY)
  {
  }

  // ---- new accounts ----

  /** A ledger that differs only by new empty accounts. */
  ghost predicate Widened(l: Ledger, m: Ledger) {
    && m == l.(accounts := m.accounts) && l.accounts.Keys <= m.accounts.Keys
    && (forall id :: id in l.accounts ==> m.accounts[id] == l.accounts[id])
    && (forall id :: id in m.accounts && id !in l.accounts ==> AccountShape(id, m.accounts[id]) && m.accounts[id].balance == 0)
  }

  /** No journal names an account that does not exist, so a new account starts with nothing booked. */
  lemma NothingBooked(l: Ledger, id: AccountId)
    requires JournalsOk(l) && id !in l.accounts
    ensures Booked(l, id) == 0
  {
    forall k | k in l.journals
      ensures Nets(l, id)(k) == 0
    {
      UnnamedNet(l.journals[k].entries, id);
    }
    ZeroSum(l.journals.Keys, Nets(l, id));
  }

  lemma {:induction false} WidenTotal(accounts: map<AccountId, Account>, wide: map<AccountId, Account>, added: set<AccountId>, asset: string)
    requires wide.Keys == accounts.Keys + added && accounts.Keys !! added
    requires forall id :: id in accounts ==> wide[id] == accounts[id]
    requires forall id :: id in added ==> wide[id].balance == 0
    ensures AccountTotal(wide, asset) == AccountTotal(accounts, asset)
    decreases added
  {
    var f := BalanceIn(wide, asset);
    SumSplit(accounts.Keys, added, f);
    ZeroSum(added, f);
    SumSame(accounts.Keys, f, BalanceIn(accounts, asset));
  }

  lemma {:induction false} SumSplit<K(!new)>(s: set<K>, t: set<K>, f: K -> int)
    requires s !! t
    ensures Sum(s + t, f) == Sum(s, f) + Sum(t, f)
    decreases t
  {
    if t == {} {
      assert s + t == s;
    } else {
      var x :| x in t;
      SumSplit(s, t - {x}, f);
      SumTakes(s + t, f, x);
      SumTakes(t, f, x);
      assert s + t - {x} == s + (t - {x});
    }
  }

  lemma SameBooked(l: Ledger, m: Ledger, id: AccountId)
    requires m.journals == l.journals
    ensures Booked(m, id) == Booked(l, id)
  {
    SumSame(l.journals.Keys, Nets(l, id), Nets(m, id));
  }

  lemma WidenAccounts(l: Ledger, m: Ledger)
    requires AccountsOk(l) && JournalsOk(l) && Conserved(l) && Widened(l, m)
    ensures AccountsOk(m) && Conserved(m)
  {
    forall id | id in m.accounts
      ensures m.accounts[id].balance == Booked(m, id)
    {
      SameBooked(l, m, id);
      if id !in l.accounts {
        NothingBooked(l, id);
      }
    }
    forall asset
      ensures AccountTotal(m.accounts, asset) == 0
    {
      WidenTotal(l.accounts, m.accounts, m.accounts.Keys - l.accounts.Keys, asset);
    }
  }

  /** Journals and allocations only need the accounts they name to stay there unchanged in shape. */
  ghost predicate Holds(l: Ledger, accounts: map<AccountId, Account>) {
    forall id :: id in l.accounts ==> id in accounts && accounts[id] == l.accounts[id].(balance := accounts[id].balance)
  }

  lemma PlacedStays(l: Ledger, accounts: map<AccountId, Account>, entries: seq<Entry>)
    requires Holds(l, accounts) && Placed(l.accounts, entries)
    ensures Placed(accounts, entries)
  {
  }

  lemma JournalsStay(l: Ledger, m: Ledger)
    requires JournalsOk(l) && Holds(l, m.accounts)
    requires m.journals == l.journals && m.journalKeys == l.journalKeys && m.allocations == l.allocations
    ensures JournalsOk(m)
  {
    forall k | k in m.journals
      ensures Placed(m.accounts, m.journals[k].entries)
    {
      PlacedStays(l, m.accounts, m.journals[k].entries);
    }
  }

  lemma AllocationsStay(l: Ledger, m: Ledger)
    requires AllocationsOk(l) && Holds(l, m.accounts) && m.allocations == l.allocations
    ensures AllocationsOk(m)
  {
    forall id | id in m.allocations
      ensures AllocationOk(m, id, m.allocations[id])
    {
      assert AllocationOk(l, id, l.allocations[id]);
    }
  }

  /** No allocation reserves on an account that does not exist. */
  lemma NothingReserved(l: Ledger, id: AccountId)
    requires AllocationsOk(l) && id !in l.accounts
    ensures Reserved(l, id) == 0
  {
    forall k | k in l.allocations
      ensures Reserves(l, id)(k) == 0
    {
      assert AllocationOk(l, k, l.allocations[k]);
    }
    ZeroSum(l.allocations.Keys, Reserves(l, id));
  }

  lemma SameReserved(l: Ledger, m: Ledger, id: AccountId)
    requires m.allocations == l.allocations
    ensures Reserved(m, id) == Reserved(l, id)
  {
    SumSame(l.allocations.Keys, Reserves(l, id), Reserves(m, id));
  }

  lemma WidenKeeps(l: Ledger, m: Ledger)
    requires Inv(l) && Widened(l, m)
    ensures Inv(m) && (Covered(l) ==> Covered(m))
  {
    hide AccountsOk, Conserved, JournalsOk, AllocationsOk;
    assert Holds(l, m.accounts);
    WidenAccounts(l, m);
    JournalsStay(l, m);
    AllocationsStay(l, m);
    forall id | id in m.accounts && m.accounts[id].kind == DiscoveryPool
      ensures Covered(l) ==> m.accounts[id].balance >= Reserved(m, id)
    {
      SameReserved(l, m, id);
      if id !in l.accounts {
        NothingReserved(l, id);
      }
    }
  }

  // ---- posting ----

  ghost predicate Postable(l: Ledger, j: Journal) {
    && j.id !in l.journals && InOneAsset(j.entries) && Placed(l.accounts, j.entries)
    && (j.id.RequestJournal? ==> j.idempotencyKey == j.id.key)
  }

  lemma PostBooks(l: Ledger, j: Journal, m: Ledger, id: AccountId)
    requires j.id !in l.journals && m.journals == l.journals[j.id := j]
    ensures Booked(m, id) == Booked(l, id) + Net(j.entries, id)
  {
    SumAdds(l.journals.Keys, Nets(m, id), j.id);
    assert m.journals.Keys == l.journals.Keys + {j.id};
    SumSame(l.journals.Keys, Nets(m, id), Nets(l, id));
  }

  /** A successful post moves every account by the journal's net and stores the journal; nothing else changes. */
  lemma PostMoves(l: Ledger, j: Journal)
    requires Post(l, j).1.None?
    ensures var m := Post(l, j).0;
      && m == l.(accounts := m.accounts, journals := l.journals[j.id := j], journalKeys := l.journalKeys[j.idempotencyKey := j.id])
      && m.accounts.Keys == l.accounts.Keys
      && (forall id :: id in l.accounts ==> m.accounts[id] == l.accounts[id].(balance := l.accounts[id].balance + Net(j.entries, id)))
      && (Solvent(l.accounts) ==> Solvent(m.accounts))
      && (forall asset :: AccountTotal(m.accounts, asset) == AccountTotal(l.accounts, asset) + AssetTotal(j.entries, asset))
  {
    NoComplaint(l.accounts, j.entries, 0);
    StagedMoves(l.accounts, j.entries, "");
    forall asset
      ensures AccountTotal(Post(l, j).0.accounts, asset) == AccountTotal(l.accounts, asset) + AssetTotal(j.entries, asset)
    {
      StagedMoves(l.accounts, j.entries, asset);
    }
  }

  /**
   The repository's own balance test adds amounts of all assets together. A journal it posts keeps
   every asset's total exactly when its entries balance in every asset by itself.
   */
  lemma TotalsKeptIff(l: Ledger, j: Journal)
    requires Post(l, j).1.None?
    ensures (forall asset :: AccountTotal(Post(l, j).0.accounts, asset) == AccountTotal(l.accounts, asset))
       <==> (forall asset :: AssetTotal(j.entries, asset) == 0)
  {
    hide Post;
    PostMoves(l, j);
    var after := Post(l, j).0.accounts;
    if asset :| AssetTotal(j.entries, asset) != 0 {
      assert AccountTotal(after, asset) == AccountTotal(l.accounts, asset) + AssetTotal(j.entries, asset);
    }
  }

  /** Posting a new single-asset journal: accounts stay what their entries sum to, totals stay zero. */
  lemma PostKeeps(l: Ledger, j: Journal)
    requires AccountsOk(l) && Conserved(l) && Postable(l, j) && Post(l, j).1.None?
    ensures AccountsOk(Post(l, j).0) && Conserved(Post(l, j).0) && Holds(l, Post(l, j).0.accounts)
  {
    hide Post;
    var m := Post(l, j).0;
    PostMoves(l, j);
    forall id | id in m.accounts
      ensures AccountShape(id, m.accounts[id]) && m.accounts[id].balance == Booked(m, id)
    {
      PostBooks(l, j, m, id);
    }
    forall asset
      ensures AccountTotal(m.accounts, asset) == 0
    {
      SingleAsset(j.entries, j.entries[0].asset, asset);
    }
  }

  lemma PostJournals(l: Ledger, j: Journal)
    requires JournalsOk(l) && Postable(l, j) && Post(l, j).1.None? && Holds(l, Post(l, j).0.accounts)
    requires j.id.CaptureJournal? ==> j.id.allocationId in l.allocations && l.allocations[j.id.allocationId].status == Captured
    ensures JournalsOk(Post(l, j).0)
  {
    var m := Post(l, j).0;
    forall k | k in m.journals
      ensures m.journals[k].id == k && Placed(m.accounts, m.journals[k].entries) && InOneAsset(m.journals[k].entries)
    {
      PlacedStays(l, m.accounts, m.journals[k].entries);
    }
  }

  lemma ReversalsStay(l: Ledger, m: Ledger, j: Journal)
    requires ReversalsOk(l) && j.id !in l.journals && j.reversalOf.None?
    requires m.journals == l.journals[j.id := j] && m.reversals == l.reversals
    ensures ReversalsOk(m)
  {
  }

  /** The invariant after a post that is not a reversal; a capture's allocation is marked before. */
  lemma PostInv(l: Ledger, j: Journal)
    requires Inv(l) && Postable(l, j) && Post(l, j).1.None? && j.reversalOf.None?
    requires j.id.CaptureJournal? ==> j.id.allocationId in l.allocations && l.allocations[j.id.allocationId].status == Captured
    ensures Inv(Post(l, j).0)
  {
    hide AccountsOk, Conserved, JournalsOk, AllocationsOk, ReversalsOk, Post;
    PostMoves(l, j);
    PostKeeps(l, j);
    PostJournals(l, j);
    AllocationsStay(l, Post(l, j).0);
    ReversalsStay(l, Post(l, j).0, j);
  }
}
