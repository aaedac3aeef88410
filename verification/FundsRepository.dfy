/** The ledger repository and the funds service as objects that update their fields. */
module FundsRepository {
  import opened Wrappers
  import opened Text
  import opened Sums
  import Sequences
  import opened FundsLedger

  lemma OnlyMember<K>(s: set<K>, x: K, y: K)
    requires |s| <= 1 && x in s && y in s
    ensures x == y
  {
    Sequences.Subset({x, y}, s);
    assert x != y ==> |{x, y}| == 2;
  }

  class MemoryRepository {
    var accounts: map<AccountId, Account>
    var allocations: map<string, Allocation>
    var journals: map<JournalId, Journal>
    var journalKeys: map<string, JournalId>
    var reversals: map<JournalId, JournalId>

    constructor ()
      ensures Value() == EMPTY
    {
      accounts, allocations, journals, journalKeys, reversals := map[], map[], map[], map[], map[];
    }

    function Value(): Ledger
      reads this
    {
      Ledger(accounts, allocations, journals, journalKeys, reversals)
    }

    method AddAccount(draft: Account) returns (r: Result<(Account, bool), Error>)
      modifies this
      ensures (Value(), r) == OpenAccount(old(Value()), draft)
    {
      if draft.id in accounts {
        var existing := accounts[draft.id];
        if existing.(balance := 0, state := Open) != draft.(balance := 0, state := Open) {
          return Failure(ContentConflict);
        }
        return Success((existing, true));
      }
      var todo := accounts.Keys;
      while todo != {}
        invariant todo <= accounts.Keys && Value() == old(Value())
        invariant forall id :: id in accounts && id !in todo ==>
          !(accounts[id].kind == draft.kind && accounts[id].referenceId == draft.referenceId && accounts[id].asset == draft.asset)
        decreases todo
      {
        var id :| id in todo;
        todo := todo - {id};
        var existing := accounts[id];
        if existing.kind == draft.kind && existing.referenceId == draft.referenceId && existing.asset == draft.asset {
          return Failure(ContentConflict);
        }
      }
      accounts := accounts[draft.id := draft];
      return Success((draft, false));
    }

    /** The validation pass of postJournal: the first complaint, or both totals. */
    method Check(entries: seq<Entry>) returns (failed: Option<Error>, debits: int, credits: int)
      ensures failed == Complaint(accounts, entries, 0)
      ensures failed.None? ==> debits == Total(entries, true) && credits == Total(entries, false)
    {
      debits, credits := 0, 0;
      var i := 0;
      while i < |entries|
        invariant 0 <= i <= |entries|
        invariant Complaint(accounts, entries, 0) == Complaint(accounts, entries[i..], i)
        invariant debits + Total(entries[i..], true) == Total(entries, true)
        invariant credits + Total(entries[i..], false) == Total(entries, false)
      {
        var entry := entries[i];
        assert entries[i..][1..] == entries[i + 1..];
        if entry.index != i + 1 || entry.amount <= 0 {
          return Some(InvalidInput), debits, credits;
        }
        if entry.accountId !in accounts || accounts[entry.accountId].asset != entry.asset {
          return Some(ContentConflict), debits, credits;
        }
        if entry.debit {
          debits := debits + entry.amount;
        } else {
          credits := credits + entry.amount;
        }
        i := i + 1;
      }
      failed := None;
    }

    method PostJournal(j: Journal) returns (failed: Option<Error>)
      modifies this
      ensures (Value(), failed) == Post(old(Value()), j)
    {
      if |j.entries| < 2 {
        return Some(InvalidInput);
      }
      var debits, credits;
      failed, debits, credits := Check(j.entries);
      if failed.Some? {
        return;
      }
      if debits != credits {
        return Some(InvalidInput);
      }
      NoComplaint(accounts, j.entries, 0);
      var updated: map<AccountId, Account> := map[];
      var i := 0;
      assert accounts + updated == accounts;
      while i < |j.entries|
        invariant 0 <= i <= |j.entries| && Value() == old(Value())
        invariant updated.Keys <= accounts.Keys
        invariant forall k :: i <= k < |j.entries| ==> j.entries[k].accountId in accounts
        invariant Staged(accounts, j.entries) == Staged(accounts + updated, j.entries[i..])
      {
        var entry := j.entries[i];
        var id := entry.accountId;
        assert j.entries[i..][1..] == j.entries[i + 1..];
        var account := if id in updated then updated[id] else accounts[id];
        account := Moved(account, entry);
        if Business(account.kind) && account.balance < 0 {
          return Some(Insufficient);
        }
        assert accounts + updated[id := account] == (accounts + updated)[id := account];
        updated := updated[id := account];
        i := i + 1;
      }
      accounts := accounts + updated;
      journals := journals[j.id := j];
      journalKeys := journalKeys[j.idempotencyKey := j.id];
      return None;
    }

    method EnsureAccount(account: Account)
      modifies this
      ensures Value() == Ensure(old(Value()), account)
    {
      if account.id !in accounts {
        accounts := accounts[account.id := account];
      }
    }

    method JournalReplay(draft: Journal) returns (r: Option<Result<Journal, Error>>)
      ensures r == Replay(Value(), draft)
    {
      if draft.idempotencyKey in journalKeys {
        var id := journalKeys[draft.idempotencyKey];
        if id !in journals || journals[id].id != draft.id || journals[id].requestHash != draft.requestHash {
          return Some(Failure(ContentConflict));
        }
        return Some(Success(journals[id]));
      }
      return None;
    }

    method Fund(request: FundingRequest, asset: string) returns (r: Result<(Journal, bool), Error>)
      modifies this
      ensures (Value(), r) == PostFunding(old(Value()), request, asset)
    {
      var journal := FundingJournal(request, asset);
      var replay := JournalReplay(journal);
      if replay.Some? {
        return if replay.value.Success? then Success((replay.value.value, true)) else Failure(replay.value.error);
      }
      if request.accountId !in accounts {
        return Failure(NotFound);
      }
      var account := accounts[request.accountId];
      if account.state != Open || !Business(account.kind) || account.asset != asset {
        return Failure(InvalidState);
      }
      EnsureAccount(SystemAccount(ControlAccount(asset), FundingControl, asset, asset));
      var failed := PostJournal(journal);
      return if failed.Some? then Failure(failed.value) else Success((journal, false));
    }

    /** The reservation loop: the account's balance less every authorized reserve on it. */
    method Available(source: AccountId) returns (available: int)
      requires source in accounts
      ensures available == accounts[source].balance - Reserved(Value(), source)
    {
      available := accounts[source].balance;
      ghost var f := Reserves(Value(), source);
      var todo := allocations.Keys;
      while todo != {}
        invariant todo <= allocations.Keys
        invariant available - Sum(todo, f) == accounts[source].balance - Sum(allocations.Keys, f)
        decreases todo
      {
        var id :| id in todo;
        SumTakes(todo, f, id);
        todo := todo - {id};
        var allocation := allocations[id];
        if allocation.accountId == Some(source) && allocation.status == Authorized {
          available := available - allocation.reserve;
        }
      }
    }

    /** The pool search loop; `several` when its task has more than one pool in the asset. */
    method FindPool(taskId: string, asset: string) returns (source: Option<AccountId>, several: bool)
      ensures var pools := Pools(Value(), taskId, asset);
        if several then |pools| > 1
        else if source.None? then pools == {} else |pools| == 1 && source.value in pools
    {
      source, several := None, false;
      var todo := accounts.Keys;
      ghost var seen: set<AccountId> := {};
      ghost var pools := Pools(Value(), taskId, asset);
      while todo != {}
        invariant todo <= accounts.Keys && seen <= pools
        invariant forall id :: id in pools ==> id in seen || id in todo
        invariant seen * todo == {}
        invariant if source.None? then seen == {} else seen == {source.value}
        decreases todo
      {
        var id :| id in todo;
        todo := todo - {id};
        var account := accounts[id];
        if account.kind == DiscoveryPool && account.taskId == taskId && account.asset == asset {
          if source.Some? {
            assert {source.value, id} <= pools;
            var pair := {source.value, id};
            assert |pair| == 2;
            Sequences.Subset(pair, pools);
            return source, true;
          }
          source := Some(id);
          seen := {id};
        }
      }
      assert pools == seen;
    }

    method Authorize(draft: Allocation) returns (r: Result<(Allocation, bool), Error>)
      modifies this
      ensures (Value(), r) == AuthorizeDraft(old(Value()), draft)
    {
      if draft.id in allocations {
        var existing := allocations[draft.id];
        if !SameIdentity(existing, draft) && !CompatibleReplay(existing, draft) {
          return Failure(ContentConflict);
        }
        return Success((existing, true));
      }
      var todo := allocations.Keys;
      while todo != {}
        invariant todo <= allocations.Keys && Value() == old(Value())
        invariant forall id :: id in allocations && id !in todo ==> allocations[id].idempotencyKey != draft.idempotencyKey
        decreases todo
      {
        var id :| id in todo;
        todo := todo - {id};
        if allocations[id].idempotencyKey == draft.idempotencyKey {
          return Failure(ContentConflict);
        }
      }
      var source, several := FindPool(draft.taskId, draft.asset);
      if several {
        return Failure(ContentConflict);
      }
      if source.None? {
        return Failure(NotFound);
      }
      ghost var pools := Pools(Value(), draft.taskId, draft.asset);
      assert forall other :: other in pools ==> other == source.value by {
        forall other | other in pools
          ensures other == source.value
        {
          OnlyMember(pools, other, source.value);
        }
      }
      if accounts[source.value].state != Open {
        return Failure(InvalidState);
      }
      var available := Available(source.value);
      if available < draft.reserve {
        return Failure(Insufficient);
      }
      var placed := draft.(accountId := source);
      allocations := allocations[draft.id := placed];
      return Success((placed, false));
    }

    method Capture(id: string, claim: Claim) returns (r: Result<(Allocation, bool), Error>)
      modifies this
      ensures (Value(), r) == CaptureOverview(old(Value()), id, claim)
    {
      if id !in allocations {
        return Failure(NotFound);
      }
      var a := allocations[id];
      if a.status == Captured {
        return if a.claimHash != Some(OfClaim(claim)) then Failure(ContentConflict) else Success((a, true));
      }
      if a.status != Authorized {
        return Failure(InvalidState);
      }
      if !ClaimMatches(a, claim) || a.accountId.None? {
        return Failure(ContentConflict);
      }
      if claim.amount + claim.usedCost != 0 {
        if claim.amount != 0 {
          EnsureAccount(SystemAccount(ReceivableAccount(claim.agentId, a.asset), AgentReceivable, claim.agentId, a.asset));
        }
        if claim.usedCost != 0 {
          EnsureAccount(SystemAccount(ClearingAccount(a.id, a.asset), ExternalClearing, a.id, a.asset));
        }
        assert Value() == CaptureAccounts(old(Value()), a, claim);
        var failed := PostJournal(CaptureOf(a, a.accountId.value, claim));
        if failed.Some? {
          return Failure(failed.value);
        }
      }
      var captured := MarkCaptured(a, claim);
      allocations := allocations[id := captured];
      return Success((captured, false));
    }

    method Release(id: string, reasonCode: string) returns (r: Result<(Allocation, bool), Error>)
      modifies this
      ensures (Value(), r) == ReleaseOverview(old(Value()), id, reasonCode)
    {
      if id !in allocations {
        return Failure(NotFound);
      }
      var a := allocations[id];
      if a.status == Released {
        return if a.releaseReason != reasonCode then Failure(ContentConflict) else Success((a, true));
      }
      if a.status != Authorized {
        return Failure(InvalidState);
      }
      var released := a.(status := Released, releaseReason := reasonCode);
      allocations := allocations[id := released];
      return Success((released, false));
    }

    method Reverse(journal: Journal) returns (r: Result<(Journal, bool), Error>)
      requires journal.reversalOf.Some?
      modifies this
      ensures (Value(), r) == PostReversal(old(Value()), journal)
    {
      var replay := JournalReplay(journal);
      if replay.Some? {
        return if replay.value.Success? then Success((replay.value.value, true)) else Failure(replay.value.error);
      }
      var original := journal.reversalOf.value;
      if original in reversals {
        var id := reversals[original];
        if id in journals && journals[id].requestHash == journal.requestHash {
          return Success((journals[id], true));
        }
        return Failure(ContentConflict);
      }
      if original !in journals {
        return Failure(NotFound);
      }
      var failed := PostJournal(journal);
      if failed.Some? {
        return Failure(failed.value);
      }
      reversals := reversals[original := journal.id];
      return Success((journal, false));
    }
  }

  /** The funds service: it validates requests, builds journals and calls the repository. */
  class Service {
    const repository: MemoryRepository
    const asset: string

    constructor (repository: MemoryRepository, asset: string)
      ensures this.repository == repository && this.asset == asset
    {
      this.repository, this.asset := repository, asset;
    }

    method OpenRequestedAccount(request: OpenRequest) returns (r: Result<(Account, bool), Error>)
      modifies repository
      ensures (repository.Value(), r) == OpenRequested(old(repository.Value()), request)
    {
      if !Business(request.kind) || Blank(request.taskId) || Blank(request.referenceId) || Blank(request.owners) {
        return Failure(InvalidInput);
      }
      r := repository.AddAccount(Account(FundAccount(request.kind, request.referenceId, request.asset), request.kind,
                                         request.taskId, request.referenceId, request.asset, request.owners, Open, 0));
    }

    method RecordFundingRequest(request: FundingRequest) returns (r: Result<(Journal, bool), Error>)
      modifies repository
      ensures (repository.Value(), r) == RecordFunding(old(repository.Value()), request)
    {
      if Blank(request.idempotencyKey) || request.amount == 0 || Blank(request.externalRef) {
        return Failure(InvalidInput);
      }
      if request.accountId !in repository.accounts {
        return Failure(NotFound);
      }
      r := repository.Fund(request, repository.accounts[request.accountId].asset);
    }

    method AuthorizeRequest(request: Authorization, now: int) returns (r: Result<(Allocation, bool), Error>)
      modifies repository
      ensures (repository.Value(), r) == AuthorizeOverview(old(repository.Value()), asset, request, now)
    {
      if !ValidAuthorization(request, now) {
        return Failure(InvalidInput);
      }
      r := repository.Authorize(Draft(asset, request));
    }

    method ReverseRequested(request: ReverseRequest) returns (r: Result<(Journal, bool), Error>)
      modifies repository
      ensures (repository.Value(), r) == ReverseJournal(old(repository.Value()), request)
    {
      if Blank(request.idempotencyKey) {
        return Failure(InvalidInput);
      }
      if request.journalId !in repository.journals {
        return Failure(NotFound);
      }
      var original := repository.journals[request.journalId];
      var entries: seq<Entry> := [];
      while |entries| < |original.entries|
        invariant |entries| <= |original.entries|
        invariant forall k :: 0 <= k < |entries| ==> entries[k] == Mirrored(original.entries)[k]
      {
        var entry := original.entries[|entries|];
        entries := entries + [Entry(|entries| + 1, entry.accountId, !entry.debit, entry.amount, entry.asset)];
      }
      assert entries == Mirrored(original.entries);
      r := repository.Reverse(Journal(RequestJournal(request.idempotencyKey), request.idempotencyKey, OfReverse(request),
                                      Some(original.id), entries));
    }
  }
}
