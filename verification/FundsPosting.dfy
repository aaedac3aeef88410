/** What posting one balanced journal does to balances and to their totals. */
module FundsPosting {
  import opened Wrappers
  import opened Sums
  import opened FundsLedger

  /** The signed sum of the entries in one asset. */
  function AssetTotal(entries: seq<Entry>, asset: string): int {
    if entries == [] then 0
    else (if entries[0].asset == asset then Signed(entries[0]) else 0) + AssetTotal(entries[1..], asset)
  }

  function BalanceIn(accounts: map<AccountId, Account>, asset: string): AccountId -> int {
    (id: AccountId) => if id in accounts && accounts[id].asset == asset then accounts[id].balance else 0
  }

  /** All balances in one asset together. */
  ghost function AccountTotal(accounts: map<AccountId, Account>, asset: string): int {
    Sum(accounts.Keys, BalanceIn(accounts, asset))
  }

  ghost predicate Placed(accounts: map<AccountId, Account>, entries: seq<Entry>) {
    forall k :: 0 <= k < |entries| ==> entries[k].accountId in accounts && accounts[entries[k].accountId].asset == entries[k].asset
  }

  predicate Solvent(accounts: map<AccountId, Account>) {
    forall id :: id in accounts && Business(accounts[id].kind) ==> accounts[id].balance >= 0
  }

  /** Staged entries move every account by its net, keep business accounts solvent and add the entries' totals. */
  lemma {:induction false} StagedMoves(accounts: map<AccountId, Account>, entries: seq<Entry>, asset: string)
    requires Placed(accounts, entries) && Staged(accounts, entries).Some?
    ensures var after := Staged(accounts, entries).value;
      && after.Keys == accounts.Keys
      && (forall id :: id in accounts ==> after[id] == accounts[id].(balance := accounts[id].balance + Net(entries, id)))
      && (Solvent(accounts) ==> Solvent(after))
      && AccountTotal(after, asset) == AccountTotal(accounts, asset) + AssetTotal(entries, asset)
  {
    if entries != [] {
      var id := entries[0].accountId;
      var moved := Moved(accounts[id], entries[0]);
      var next := accounts[id := moved];
      assert next.Keys == accounts.Keys;
      assert Placed(next, entries[1..]) by {
        assert forall k :: 0 <= k < |entries[1..]| ==> entries[1..][k] == entries[k + 1];
      }
      StagedMoves(next, entries[1..], asset);
      SumChanges(accounts.Keys, BalanceIn(accounts, asset), BalanceIn(next, asset), id);
    }
  }

  /** A journal in a single asset whose debits equal its credits is balanced in every asset. */
  lemma {:induction false} SingleAsset(entries: seq<Entry>, asset: string, other: string)
    requires forall k :: 0 <= k < |entries| ==> entries[k].asset == asset
    ensures AssetTotal(entries, other) == if other == asset then Total(entries, false) - Total(entries, true) else 0
  {
    if entries != [] {
      assert forall k :: 0 <= k < |entries[1..]| ==> entries[1..][k] == entries[k + 1];
      SingleAsset(entries[1..], asset, other);
    }
  }

  ghost predicate MirrorOf(mirror: seq<Entry>, entries: seq<Entry>) {
    |mirror| == |entries| && forall k :: 0 <= k < |entries| ==>
      && mirror[k].accountId == entries[k].accountId && mirror[k].asset == entries[k].asset
      && mirror[k].amount == entries[k].amount && mirror[k].debit != entries[k].debit
  }

  /** Exchanging debit and credit negates every net and every total. */
  lemma {:induction false} MirrorNegates(mirror: seq<Entry>, entries: seq<Entry>, id: AccountId, asset: string)
    requires MirrorOf(mirror, entries)
    ensures Net(mirror, id) == -Net(entries, id)
    ensures AssetTotal(mirror, asset) == -AssetTotal(entries, asset)
    ensures Total(mirror, true) == Total(entries, false) && Total(mirror, false) == Total(entries, true)
  {
    if entries != [] {
      assert MirrorOf(mirror[1..], entries[1..]) by {
        assert forall k :: 0 <= k < |entries[1..]| ==> entries[1..][k] == entries[k + 1] && mirror[1..][k] == mirror[k + 1];
      }
      MirrorNegates(mirror[1..], entries[1..], id, asset);
    }
  }

  /** An account no entry names has net zero. */
  lemma {:induction false} UnnamedNet(entries: seq<Entry>, id: AccountId)
    requires forall k :: 0 <= k < |entries| ==> entries[k].accountId != id
    ensures Net(entries, id) == 0
  {
    if entries != [] {
      assert forall k :: 0 <= k < |entries[1..]| ==> entries[1..][k] == entries[k + 1];
      UnnamedNet(entries[1..], id);
    }
  }

  lemma {:induction false} ZeroSum<K(!new)>(s: set<K>, f: K -> int)
    requires forall x :: x in s ==> f(x) == 0
    ensures Sum(s, f) == 0
    decreases s
  {
    if s != {} {
      var x :| x in s;
      SumTakes(s, f, x);
      ZeroSum(s - {x}, f);
    }
  }

  /** A journal that debits one account and credits another. */
  lemma Pair(accounts: map<AccountId, Account>, a: Entry, b: Entry, asset: string)
    requires a.debit && !b.debit && a.index == 1 && b.index == 2 && a.amount == b.amount > 0 && a.accountId != b.accountId
    requires a.accountId in accounts && accounts[a.accountId].asset == a.asset
    requires b.accountId in accounts && accounts[b.accountId].asset == b.asset
    ensures Placed(accounts, [a, b]) && Complaint(accounts, [a, b], 0).None?
    ensures Total([a, b], true) == Total([a, b], false)
    ensures AssetTotal([a, b], asset) == (if b.asset == asset then b.amount else 0) - (if a.asset == asset then a.amount else 0)
    ensures Staged(accounts, [a, b]).None? <==>
      (Business(accounts[a.accountId].kind) && accounts[a.accountId].balance < a.amount)
      || (Business(accounts[b.accountId].kind) && accounts[b.accountId].balance + b.amount < 0)
  {
    var es := [a, b];
    assert es[0] == a && es[1] == b;
    assert es[1..] == [b] && [b][1..] == [];
    assert Total([b], true) == Total([], true) && Total([b], false) == b.amount + Total([], false);
    assert Total([b], true) == 0 && Total([b], false) == b.amount;
    assert AssetTotal([b], asset) == if b.asset == asset then b.amount else 0;
    assert Complaint(accounts, [b], 1) == None;
    var next := accounts[a.accountId := Moved(accounts[a.accountId], a)];
    assert Staged(next, [b]).None? <==> Business(next[b.accountId].kind) && next[b.accountId].balance + b.amount < 0;
  }

  /** The repository alone posts a journal that creates one asset and destroys another; the service builds none. */
  lemma MixedAssetsPass(a: AccountId, b: AccountId)
    requires a != b
    ensures exists l: Ledger, j: Journal ::
      && (forall asset :: AccountTotal(l.accounts, asset) == 0)
      && Post(l, j).1.None?
      && AccountTotal(Post(l, j).0.accounts, "gold") != 0
  {
    var gold := Account(a, FundingControl, "", "", "gold", "", Open, 0);
    var iron := Account(b, FundingControl, "", "", "iron", "", Open, 0);
    var l := EMPTY.(accounts := map[a := gold, b := iron]);
    var hash := OfFunding(FundingRequest("k", a, 1, "x"));
    var e1, e2 := Entry(1, a, true, 1, "gold"), Entry(2, b, false, 1, "iron");
    var j := Journal(RequestJournal("k"), "k", hash, None, [e1, e2]);
    forall asset
      ensures AccountTotal(l.accounts, asset) == 0
    {
      ZeroSum(l.accounts.Keys, BalanceIn(l.accounts, asset));
    }
    Pair(l.accounts, e1, e2, "gold");
    StagedMoves(l.accounts, j.entries, "gold");
    assert Post(l, j).1.None?;
  }
}
