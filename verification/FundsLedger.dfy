/**
 The double-entry ledger of services/engine/internal/funds as operations on values:
 the repository's operations (memory.go) and the journals the service builds (service.go).

 Hashed identifiers are symbolic: an id is the constructor of what was hashed, so
 different inputs give different ids. Amounts are unbounded integers.
 */
module FundsLedger {
  import opened Wrappers
  import opened Text
  import opened Sums

  datatype Error = InvalidInput | NotFound | ContentConflict | InvalidState | Insufficient

  datatype AccountType =
    | DiscoveryPool | FormalEscrow | ChangeOrder | DisputeFee
    | FundingControl | AgentReceivable | ExternalClearing

  predicate Business(kind: AccountType) {
    kind in {DiscoveryPool, FormalEscrow, ChangeOrder, DisputeFee}
  }

  datatype AccountId =
    | FundAccount(kind: AccountType, referenceId: string, asset: string)
    | ControlAccount(asset: string)
    | ReceivableAccount(agentId: string, asset: string)
    | ClearingAccount(allocationId: string, asset: string)

  datatype AccountState = Open | Frozen | Closed

  // owners stands for the principal owner, the residual recipient and the refund policy version
  datatype Account = Account(
    id: AccountId, kind: AccountType, taskId: string, referenceId: string, asset: string, owners: string,
    state: AccountState, balance: int)

  datatype FundingRequest = FundingRequest(idempotencyKey: string, accountId: AccountId, amount: nat, externalRef: string)

  // the authorization fields that are only compared
  datatype Terms = Terms(
    taskSpecHash: string, snapshotId: string, matchRevision: int, agentId: string, priceVersion: int, quoteHash: string)

  datatype Authorization = Authorization(
    idempotencyKey: string, taskId: string, terms: Terms, overviewPrice: nat, costCap: nat, deadline: int)

  datatype Claim = Claim(
    taskId: string, taskSpecHash: string, matchRevision: int, logicalExecutionId: string, agentId: string,
    quoteHash: string, contentHash: string, amount: nat, usedCost: nat)

  datatype ReverseRequest = ReverseRequest(idempotencyKey: string, journalId: JournalId, reasonCode: string)

  /** The hash of a request or claim, as what was hashed. */
  datatype Digest =
    | OfFunding(funding: FundingRequest)
    | OfAuthorization(authorization: Authorization)
    | OfClaim(claim: Claim)
    | OfReverse(reverse: ReverseRequest)

  datatype JournalId =
    | RequestJournal(key: string)
    | CaptureJournal(allocationId: string, claimHash: Digest)

  datatype Entry = Entry(index: int, accountId: AccountId, debit: bool, amount: int, asset: string)

  datatype Journal = Journal(
    id: JournalId, idempotencyKey: string, requestHash: Digest, reversalOf: Option<JournalId>, entries: seq<Entry>)

  datatype AllocationStatus = Authorized | Captured | Released

  datatype Allocation = Allocation(
    id: string, idempotencyKey: string, requestHash: Digest, accountId: Option<AccountId>, asset: string, taskId: string,
    terms: Terms, overviewPrice: nat, costCap: nat, reserve: nat, deadline: int,
    status: AllocationStatus, claimHash: Option<Digest>, capturedOverview: nat, capturedCost: nat,
    captureJournal: Option<JournalId>, releaseReason: string)

  datatype Ledger = Ledger(
    accounts: map<AccountId, Account>,
    allocations: map<string, Allocation>,
    journals: map<JournalId, Journal>,
    journalKeys: map<string, JournalId>,
    reversals: map<JournalId, JournalId>)

  const EMPTY := Ledger(map[], map[], map[], map[], map[])

  // ---- journals ----

  function Signed(e: Entry): int {
    if e.debit then -e.amount else e.amount
  }

  /** The signed sum of a journal's entries on one account. */
  function Net(entries: seq<Entry>, id: AccountId): int {
    if entries == [] then 0
    else (if entries[0].accountId == id then Signed(entries[0]) else 0) + Net(entries[1..], id)
  }

  /** The first complaint about an entry, in entry order; i is the position of the first entry. */
  function Complaint(accounts: map<AccountId, Account>, entries: seq<Entry>, i: nat): Option<Error> {
    if entries == [] then None
    else if entries[0].index != i + 1 || entries[0].amount <= 0 then Some(InvalidInput)
    else if entries[0].accountId !in accounts || accounts[entries[0].accountId].asset != entries[0].asset then Some(ContentConflict)
    else Complaint(accounts, entries[1..], i + 1)
  }

  function Total(entries: seq<Entry>, debit: bool): int {
    if entries == [] then 0
    else (if entries[0].debit == debit then entries[0].amount else 0) + Total(entries[1..], debit)
  }

  function Moved(account: Account, e: Entry): Account {
    account.(balance := account.balance + Signed(e))
  }

  /** The staged balances after the entries; None once a business account would go below zero. */
  function Staged(accounts: map<AccountId, Account>, entries: seq<Entry>): Option<map<AccountId, Account>>
    requires forall i :: 0 <= i < |entries| ==> entries[i].accountId in accounts
  {
    if entries == [] then Some(accounts)
    else
      var id := entries[0].accountId;
      var moved := Moved(accounts[id], entries[0]);
      if Business(moved.kind) && moved.balance < 0 then None
      else Staged(accounts[id := moved], entries[1..])
  }

  lemma NoComplaint(accounts: map<AccountId, Account>, entries: seq<Entry>, i: nat)
    requires Complaint(accounts, entries, i).None?
    ensures forall k :: 0 <= k < |entries| ==>
      entries[k].accountId in accounts && accounts[entries[k].accountId].asset == entries[k].asset && entries[k].amount > 0
  {
  }

  function Post(l: Ledger, j: Journal): (Ledger, Option<Error>) {
    if |j.entries| < 2 then (l, Some(InvalidInput))
    else if Complaint(l.accounts, j.entries, 0).Some? then (l, Complaint(l.accounts, j.entries, 0))
    else if Total(j.entries, true) != Total(j.entries, false) then (l, Some(InvalidInput))
    else
      NoComplaint(l.accounts, j.entries, 0);
      match Staged(l.accounts, j.entries)
      case None => (l, Some(Insufficient))
      case Some(accounts) =>
        (l.(accounts := accounts, journals := l.journals[j.id := j], journalKeys := l.journalKeys[j.idempotencyKey := j.id]), None)
  }

  /** A journal key that was already used: the stored journal again, or a conflict. */
  function Replay(l: Ledger, draft: Journal): Option<Result<Journal, Error>> {
    if draft.idempotencyKey !in l.journalKeys then None
    else
      var id := l.journalKeys[draft.idempotencyKey];
      if id in l.journals && l.journals[id].id == draft.id && l.journals[id].requestHash == draft.requestHash
      then Some(Success(l.journals[id])) else Some(Failure(ContentConflict))
  }

  // ---- accounts and funding ----

  function OpenAccount(l: Ledger, draft: Account): (Ledger, Result<(Account, bool), Error>) {
    if draft.id in l.accounts then
      var existing := l.accounts[draft.id];
      if existing.(balance := 0, state := Open) == draft.(balance := 0, state := Open) then (l, Success((existing, true)))
      else (l, Failure(ContentConflict))
    else if exists id :: id in l.accounts && l.accounts[id].kind == draft.kind
                         && l.accounts[id].referenceId == draft.referenceId && l.accounts[id].asset == draft.asset then
      (l, Failure(ContentConflict))
    else (l.(accounts := l.accounts[draft.id := draft]), Success((draft, false)))
  }

  datatype OpenRequest = OpenRequest(kind: AccountType, taskId: string, referenceId: string, asset: string, owners: string)

  /** The service opens business accounts only, empty and under the hash of type, reference and asset. */
  function OpenRequested(l: Ledger, request: OpenRequest): (Ledger, Result<(Account, bool), Error>) {
    if !Business(request.kind) || Blank(request.taskId) || Blank(request.referenceId) || Blank(request.owners) then
      (l, Failure(InvalidInput))
    else
      OpenAccount(l, Account(FundAccount(request.kind, request.referenceId, request.asset), request.kind, request.taskId,
                             request.referenceId, request.asset, request.owners, Open, 0))
  }

  function SystemAccount(id: AccountId, kind: AccountType, referenceId: string, asset: string): Account {
    Account(id, kind, "", referenceId, asset, "", Open, 0)
  }

  function Ensure(l: Ledger, account: Account): Ledger {
    if account.id in l.accounts then l else l.(accounts := l.accounts[account.id := account])
  }

  function FundingJournal(request: FundingRequest, asset: string): Journal {
    Journal(RequestJournal(request.idempotencyKey), request.idempotencyKey, OfFunding(request), None,
            [Entry(1, ControlAccount(asset), true, request.amount, asset),
             Entry(2, request.accountId, false, request.amount, asset)])
  }

  function PostFunding(l: Ledger, request: FundingRequest, asset: string): (Ledger, Result<(Journal, bool), Error>) {
    var journal := FundingJournal(request, asset);
    match Replay(l, journal)
    case Some(Success(existing)) => (l, Success((existing, true)))
    case Some(Failure(e)) => (l, Failure(e))
    case None =>
      if request.accountId !in l.accounts then (l, Failure(NotFound))
      else
        var account := l.accounts[request.accountId];
        if account.state != Open || !Business(account.kind) || account.asset != asset then (l, Failure(InvalidState))
        else
          var ready := Ensure(l, SystemAccount(ControlAccount(asset), FundingControl, asset, asset));
          var (posted, failed) := Post(ready, journal);
          (posted, if failed.Some? then Failure(failed.value) else Success((journal, false)))
  }

  /** RecordFunding; an account's asset never changes, so reading it first is not a separate step. */
  function RecordFunding(l: Ledger, request: FundingRequest): (Ledger, Result<(Journal, bool), Error>) {
    if Blank(request.idempotencyKey) || request.amount == 0 || Blank(request.externalRef) then (l, Failure(InvalidInput))
    else if request.accountId !in l.accounts then (l, Failure(NotFound))
    else PostFunding(l, request, l.accounts[request.accountId].asset)
  }

  // ---- reservations ----

  /** The discovery pools of a task in an asset. */
  function Pools(l: Ledger, taskId: string, asset: string): set<AccountId> {
    set id | id in l.accounts && l.accounts[id].kind == DiscoveryPool
             && l.accounts[id].taskId == taskId && l.accounts[id].asset == asset
  }

  function ReserveOn(l: Ledger, accountId: AccountId, id: string): nat {
    if id in l.allocations && l.allocations[id].accountId == Some(accountId) && l.allocations[id].status == Authorized
    then l.allocations[id].reserve else 0
  }

  ghost function Reserves(l: Ledger, accountId: AccountId): string -> int {
    (id: string) => ReserveOn(l, accountId, id) as int
  }

  /** What the authorized allocations of an account reserve together. */
  ghost function Reserved(l: Ledger, accountId: AccountId): int {
    Sum(l.allocations.Keys, Reserves(l, accountId))
  }

  predicate SameIdentity(a: Allocation, b: Allocation) {
    && a.id == b.id && a.idempotencyKey == b.idempotencyKey && a.requestHash == b.requestHash && a.asset == b.asset
    && a.taskId == b.taskId && a.terms == b.terms && a.overviewPrice == b.overviewPrice && a.costCap == b.costCap
    && a.reserve == b.reserve && a.deadline == b.deadline
  }

  predicate CompatibleReplay(existing: Allocation, draft: Allocation) {
    && existing.status == Authorized && draft.status == Authorized
    && SameIdentity(existing.(requestHash := draft.requestHash, deadline := draft.deadline), draft)
    && draft.deadline >= existing.deadline
  }

  ghost function AuthorizeDraft(l: Ledger, draft: Allocation): (Ledger, Result<(Allocation, bool), Error>) {
    if draft.id in l.allocations then
      var existing := l.allocations[draft.id];
      if !SameIdentity(existing, draft) && !CompatibleReplay(existing, draft) then (l, Failure(ContentConflict))
      else (l, Success((existing, true)))
    else if exists id :: id in l.allocations && l.allocations[id].idempotencyKey == draft.idempotencyKey then
      (l, Failure(ContentConflict))
    else
      var pools := Pools(l, draft.taskId, draft.asset);
      if pools == {} then (l, Failure(NotFound))
      else if |pools| > 1 then (l, Failure(ContentConflict))
      else
        var source :| source in pools;
        if l.accounts[source].state != Open then (l, Failure(InvalidState))
        else if l.accounts[source].balance - Reserved(l, source) < draft.reserve then (l, Failure(Insufficient))
        else
          var placed := draft.(accountId := Some(source));
          (l.(allocations := l.allocations[draft.id := placed]), Success((placed, false)))
  }

  /** The allocation the service builds; its id is the hash of the idempotency key. */
  function Draft(asset: string, request: Authorization): Allocation {
    Allocation("fund-allocation/" + request.idempotencyKey, request.idempotencyKey, OfAuthorization(request), None, asset,
               request.taskId, request.terms, request.overviewPrice, request.costCap, request.overviewPrice + request.costCap,
               request.deadline, Authorized, None, 0, 0, None, "")
  }

  predicate ValidAuthorization(request: Authorization, now: int) {
    && !Blank(request.idempotencyKey) && !Blank(request.taskId) && ValidDigest(request.terms.taskSpecHash)
    && ValidDigest(request.terms.snapshotId) && request.terms.matchRevision >= 1 && !Blank(request.terms.agentId)
    && request.terms.priceVersion >= 1 && ValidDigest(request.terms.quoteHash) && request.deadline > now
  }

  ghost function AuthorizeOverview(l: Ledger, asset: string, request: Authorization, now: int): (Ledger, Result<(Allocation, bool), Error>) {
    if !ValidAuthorization(request, now) then (l, Failure(InvalidInput)) else AuthorizeDraft(l, Draft(asset, request))
  }

  predicate ClaimMatches(a: Allocation, claim: Claim) {
    && a.taskId == claim.taskId && a.terms.taskSpecHash == claim.taskSpecHash && a.terms.matchRevision == claim.matchRevision
    && a.terms.agentId == claim.agentId && a.terms.quoteHash == claim.quoteHash && a.overviewPrice == claim.amount
    && claim.usedCost <= a.costCap
  }

  /** The entries of a capture: the pool pays the overview amount and the external cost, when not zero. */
  function CaptureEntries(a: Allocation, pool: AccountId, claim: Claim): seq<Entry> {
    var debit := [Entry(1, pool, true, claim.amount + claim.usedCost, a.asset)];
    var agent := if claim.amount == 0 then []
                 else [Entry(2, ReceivableAccount(claim.agentId, a.asset), false, claim.amount, a.asset)];
    var cost := if claim.usedCost == 0 then []
                else [Entry(2 + |agent|, ClearingAccount(a.id, a.asset), false, claim.usedCost, a.asset)];
    debit + agent + cost
  }

  function CaptureAccounts(l: Ledger, a: Allocation, claim: Claim): Ledger {
    var l1 := if claim.amount == 0 then l
              else Ensure(l, SystemAccount(ReceivableAccount(claim.agentId, a.asset), AgentReceivable, claim.agentId, a.asset));
    if claim.usedCost == 0 then l1
    else Ensure(l1, SystemAccount(ClearingAccount(a.id, a.asset), ExternalClearing, a.id, a.asset))
  }

  function CaptureKey(allocationId: string): string {
    "capture:" + allocationId
  }

  function CaptureOf(a: Allocation, pool: AccountId, claim: Claim): Journal {
    Journal(CaptureJournal(a.id, OfClaim(claim)), CaptureKey(a.id), OfClaim(claim), None, CaptureEntries(a, pool, claim))
  }

  function MarkCaptured(a: Allocation, claim: Claim): Allocation {
    a.(status := Captured, claimHash := Some(OfClaim(claim)), capturedOverview := claim.amount, capturedCost := claim.usedCost,
       captureJournal := if claim.amount + claim.usedCost == 0 then None else Some(CaptureJournal(a.id, OfClaim(claim))))
  }

  function CaptureOverview(l: Ledger, id: string, claim: Claim): (Ledger, Result<(Allocation, bool), Error>) {
    if id !in l.allocations then (l, Failure(NotFound))
    else
      var a := l.allocations[id];
      if a.status == Captured then
        if a.claimHash != Some(OfClaim(claim)) then (l, Failure(ContentConflict)) else (l, Success((a, true)))
      else if a.status != Authorized then (l, Failure(InvalidState))
      else if !ClaimMatches(a, claim) || a.accountId.None? then (l, Failure(ContentConflict))
      else
        var captured := MarkCaptured(a, claim);
        if claim.amount + claim.usedCost == 0 then
          (l.(allocations := l.allocations[id := captured]), Success((captured, false)))
        else
          var (posted, failed) := Post(CaptureAccounts(l, a, claim), CaptureOf(a, a.accountId.value, claim));
          if failed.Some? then (posted, Failure(failed.value))
          else (posted.(allocations := posted.allocations[id := captured]), Success((captured, false)))
  }

  /** ReleaseOverview; the request hash is the hash of the allocation id and the reason code. */
  function ReleaseOverview(l: Ledger, id: string, reasonCode: string): (Ledger, Result<(Allocation, bool), Error>) {
    if id !in l.allocations then (l, Failure(NotFound))
    else
      var a := l.allocations[id];
      if a.status == Released then
        if a.releaseReason != reasonCode then (l, Failure(ContentConflict)) else (l, Success((a, true)))
      else if a.status != Authorized then (l, Failure(InvalidState))
      else
        var released := a.(status := Released, releaseReason := reasonCode);
        (l.(allocations := l.allocations[id := released]), Success((released, false)))
  }

  // ---- reversal ----

  /** The same entries with debit and credit exchanged, numbered again. */
  function Mirrored(entries: seq<Entry>): (r: seq<Entry>)
    ensures |r| == |entries|
    ensures forall k :: 0 <= k < |r| ==> r[k] == entries[k].(index := k + 1, debit := !entries[k].debit)
  {
    seq(|entries|, k requires 0 <= k < |entries| => entries[k].(index := k + 1, debit := !entries[k].debit))
  }

  function ReversalJournal(request: ReverseRequest, original: Journal): Journal {
    Journal(RequestJournal(request.idempotencyKey), request.idempotencyKey, OfReverse(request), Some(original.id),
            Mirrored(original.entries))
  }

  function PostReversal(l: Ledger, journal: Journal): (Ledger, Result<(Journal, bool), Error>)
    requires journal.reversalOf.Some?
  {
    match Replay(l, journal)
    case Some(Success(existing)) => (l, Success((existing, true)))
    case Some(Failure(e)) => (l, Failure(e))
    case None =>
      var original := journal.reversalOf.value;
      if original in l.reversals then
        var id := l.reversals[original];
        if id in l.journals && l.journals[id].requestHash == journal.requestHash then (l, Success((l.journals[id], true)))
        else (l, Failure(ContentConflict))
      else if original !in l.journals then (l, Failure(NotFound))
      else
        var (posted, failed) := Post(l, journal);
        if failed.Some? then (posted, Failure(failed.value))
        else (posted.(reversals := posted.reversals[original := journal.id]), Success((journal, false)))
  }

  /** ReverseJournal; a stored journal never changes, so reading it first is not a separate step. */
  function ReverseJournal(l: Ledger, request: ReverseRequest): (Ledger, Result<(Journal, bool), Error>) {
    if Blank(request.idempotencyKey) then (l, Failure(InvalidInput))
    else if request.journalId !in l.journals then (l, Failure(NotFound))
    else PostReversal(l, ReversalJournal(request, l.journals[request.journalId]))
  }
}
