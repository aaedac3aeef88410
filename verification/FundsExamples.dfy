/** Runs of the funds service that reach the exceptional cases of FundsRuns. */
module FundsExamples {
  import opened Wrappers
  import opened Text
  import opened Sums
  import opened FundsLedger
  import opened FundsPosting
  import opened FundsInvariant
  import opened FundsOperations
  import opened FundsRuns

  const POOL := FundAccount(DiscoveryPool, "ref", "USD")

  const CONTROL := ControlAccount("USD")

  const ALLOCATION := "fund-allocation/" + "a"

  function PoolAccount(balance: int): Account {
    Account(POOL, DiscoveryPool, "task", "ref", "USD", "owners", AccountState.Open, balance)
  }

  function Funding(key: string): FundingRequest {
    FundingRequest(key, POOL, 10, "ext")
  }

  function Reservation(): Authorization {
    Authorization("a", "task", Terms(DIGEST, DIGEST, 1, "agent", 1, DIGEST), 10, 0, 1)
  }

  function Granted(): Allocation {
    Draft("USD", Reservation()).(accountId := Some(POOL))
  }

  /** A pool is opened, funded with ten under this key, and all of it is reserved. */
  function ReservedRun(key: string): seq<Op> {
    [Op.Open(OpenRequest(DiscoveryPool, "task", "ref", "USD", "owners")), Fund(Funding(key)), Authorize(Reservation(), 0)]
  }

  lemma NotBlank(s: string)
    requires s != "" && !IsSpace(s[0])
    ensures !Blank(s)
  {
  }

  lemma RunMore(l: Ledger, asset: string, ops: seq<Op>, op: Op)
    ensures Run(l, asset, ops + [op]) == Do(Run(l, asset, ops), asset, op)
  {
    assert (ops + [op])[..|ops|] == ops;
  }

  lemma Opens()
    ensures OpenRequested(EMPTY, OpenRequest(DiscoveryPool, "task", "ref", "USD", "owners")).0
         == EMPTY.(accounts := map[POOL := PoolAccount(0)])
  {
    NotBlank("task");
    NotBlank("ref");
    NotBlank("owners");
  }

  /** The ledger after the pool was opened and funded. */
  function Funded(key: string): Ledger {
    EMPTY.(accounts := map[POOL := PoolAccount(10), CONTROL := SystemAccount(CONTROL, FundingControl, "USD", "USD").(balance := -10)],
           journals := map[RequestJournal(key) := FundingJournal(Funding(key), "USD")],
           journalKeys := map[key := RequestJournal(key)])
  }

  lemma Funds(key: string)
    requires key != "" && !IsSpace(key[0])
    ensures RecordFunding(EMPTY.(accounts := map[POOL := PoolAccount(0)]), Funding(key)).0 == Funded(key)
  {
    NotBlank(key);
    NotBlank("ext");
    var l := EMPTY.(accounts := map[POOL := PoolAccount(0)]);
    var ready := Ensure(l, SystemAccount(CONTROL, FundingControl, "USD", "USD"));
    var j := FundingJournal(Funding(key), "USD");
    var a, b := j.entries[0], j.entries[1];
    assert j.entries == [a, b] && j.entries[1..] == [b] && [b][1..] == [];
    Pair(ready.accounts, a, b, "USD");
    var next := ready.accounts[CONTROL := Moved(ready.accounts[CONTROL], a)];
    assert Staged(next, [b]) == Some(next[POOL := Moved(next[POOL], b)]);
    assert next[POOL := Moved(next[POOL], b)] == Funded(key).accounts;
  }

  lemma Reserves10(key: string)
    ensures AuthorizeOverview(Funded(key), "USD", Reservation(), 0).0
         == Funded(key).(allocations := map[ALLOCATION := Granted()])
  {
    hide ValidDigest;
    NotBlank("a");
    NotBlank("task");
    NotBlank("agent");
    DigestIsValid();
    var l := Funded(key);
    assert Pools(l, "task", "USD") == {POOL};
    assert Reserved(l, POOL) == 0;
  }

  lemma ReservedRuns(key: string)
    requires key != "" && !IsSpace(key[0])
    ensures Run(EMPTY, "USD", ReservedRun(key)) == Funded(key).(allocations := map[ALLOCATION := Granted()])
  {
    hide OpenRequested, RecordFunding, AuthorizeOverview;
    var ops := ReservedRun(key);
    assert ops[..1] == [ops[0]] && ops[..2] == [ops[0]] + [ops[1]] && ops == ops[..2] + [ops[2]];
    RunMore(EMPTY, "USD", [], ops[0]);
    assert [] + [ops[0]] == [ops[0]];
    RunMore(EMPTY, "USD", [ops[0]], ops[1]);
    RunMore(EMPTY, "USD", ops[..2], ops[2]);
    Opens();
    Funds(key);
    Reserves10(key);
  }

  lemma ReservedIsCovered(key: string)
    ensures var l := Run(EMPTY, "USD", ReservedRun(key)); Inv(l) && Covered(l)
  {
    hide Inv, Covered, Run;
    EmptyOk();
    assert SparingRun(EMPTY, "USD", ReservedRun(key)) by {
      assert forall i :: 0 <= i < 3 ==> !ReservedRun(key)[i].Reverse?;
    }
    RunKeeps(EMPTY, "USD", ReservedRun(key));
  }

  /** Reversing the funding takes the reserved ten out of the pool: it no longer covers its reservation. */
  lemma ReversalUncovers()
    ensures var l := Run(EMPTY, "USD", ReservedRun("f")); var m := ReverseJournal(l, ReverseRequest("r", RequestJournal("f"), "reason")).0;
      Covered(l) && POOL in m.accounts && m.accounts[POOL].balance < Reserved(m, POOL)
  {
    hide Inv, Covered, ReverseJournal, Net, Reserved, Run, FundingJournal;
    ReservedRuns("f");
    ReservedIsCovered("f");
    var l := Run(EMPTY, "USD", ReservedRun("f"));
    var request := ReverseRequest("r", RequestJournal("f"), "reason");
    ReversalPosts(l, request);
    FundingNet("f");
    ReversalCoversIff(l, POOL, request);
    ReservedTen(l);
  }

  lemma FundingNet(key: string)
    ensures Net(FundingJournal(Funding(key), "USD").entries, POOL) == 10
  {
    var es := FundingJournal(Funding(key), "USD").entries;
    assert es[1..] == [es[1]] && [es[1]][1..] == [];
    assert Net([es[1]], POOL) == 10 + Net([], POOL);
  }

  lemma ReservedTen(l: Ledger)
    requires l.allocations == map[ALLOCATION := Granted()]
    ensures Reserved(l, POOL) == 10
  {
    assert l.allocations.Keys == {ALLOCATION};
    SumTakes(l.allocations.Keys, Reserves(l, POOL), ALLOCATION);
    assert {ALLOCATION} - {ALLOCATION} == {};
  }

  lemma ReversalPosts(l: Ledger, request: ReverseRequest)
    requires l == Funded("f").(allocations := map[ALLOCATION := Granted()])
    requires request == ReverseRequest("r", RequestJournal("f"), "reason")
    ensures ReverseJournal(l, request).0 != l
  {
    NotBlank("r");
    var j := ReversalJournal(request, l.journals[RequestJournal("f")]);
    var a, b := Entry(1, CONTROL, false, 10, "USD"), Entry(2, POOL, true, 10, "USD");
    assert j.entries == [a, b] && [a, b][1..] == [b] && [b][1..] == [];
    NoComplaintIf(l.accounts, [a, b], 0);
    assert Total([b], true) == 10 && Total([b], false) == 0;
    assert Total([a, b], true) == Total([a, b], false);
    var next := l.accounts[CONTROL := Moved(l.accounts[CONTROL], a)];
    assert Staged(next, [b]) == Some(next[POOL := Moved(next[POOL], b)]);
  }

  function TenClaim(): Claim {
    Claim("task", DIGEST, 1, "execution", "agent", DIGEST, "content", 10, 0)
  }

  /** A capture that moves money files its journal. */
  lemma CaptureFiles(l: Ledger, id: string, claim: Claim)
    requires id in l.allocations && l.allocations[id].status == Authorized && l.allocations[id].id == id
    requires claim.amount + claim.usedCost > 0 && CaptureOverview(l, id, claim).1.Success?
    ensures CaptureJournal(id, OfClaim(claim)) in CaptureOverview(l, id, claim).0.journals
  {
    hide Post, CaptureEntries, ClaimMatches, CaptureAccounts;
    var a := l.allocations[id];
    PostMoves(CaptureAccounts(l, a, claim), CaptureOf(a, a.accountId.value, claim));
  }

  /** When that key is the one its later capture is filed under, retrying the funding is answered with a conflict. */
  lemma RetryConflicts()
    ensures var key := CaptureKey(ALLOCATION);
      var l := RecordFunding(Run(EMPTY, "USD", ReservedRun(key)[..1]), Funding(key)).0;
      RecordFunding(Run(l, "USD", [Authorize(Reservation(), 0), Capture(ALLOCATION, TenClaim())]), Funding(key)).1
      == Failure(ContentConflict)
  {
    hide Inv, Covered, RecordFunding, CaptureOverview, AuthorizeOverview, OpenRequested, ClaimMatches;
    var key := CaptureKey(ALLOCATION);
    assert key[0] == 'c';
    var ops := ReservedRun(key);
    RunMore(EMPTY, "USD", [], ops[0]);
    assert [] + [ops[0]] == ops[..1];
    Opens();
    Funds(key);
    FundingSucceeds(key);
    Reserves10(key);
    ReservedRuns(key);
    ReservedIsCovered(key);
    var reserved := Run(EMPTY, "USD", ops);
    var more := [Authorize(Reservation(), 0)];
    RunMore(Funded(key), "USD", [], more[0]);
    assert [] + [more[0]] == more;
    RunMore(Funded(key), "USD", more, Capture(ALLOCATION, TenClaim()));
    assert more + [Capture(ALLOCATION, TenClaim())] == [Authorize(Reservation(), 0), Capture(ALLOCATION, TenClaim())];
    ClaimFits();
    CaptureNeverInsufficient(reserved, ALLOCATION, TenClaim());
    CaptureFiles(reserved, ALLOCATION, TenClaim());
    RetryReplays("USD", ops[..1], [Authorize(Reservation(), 0), Capture(ALLOCATION, TenClaim())], Funding(key));
  }

  lemma ClaimFits()
    ensures ClaimMatches(Granted(), TenClaim())
  {
  }

  lemma FundingSucceeds(key: string)
    requires key != "" && !IsSpace(key[0])
    ensures RecordFunding(EMPTY.(accounts := map[POOL := PoolAccount(0)]), Funding(key)).1.Success?
  {
    hide Inv, RecordFunding;
    Funds(key);
    Opens();
    EmptyOk();
    OpenKeeps(EMPTY, OpenRequest(DiscoveryPool, "task", "ref", "USD", "owners"));
    assert CONTROL in Funded(key).accounts && CONTROL !in map[POOL := PoolAccount(0)];
    FundingKeeps(EMPTY.(accounts := map[POOL := PoolAccount(0)]), Funding(key));
  }
}
