# Verification models for the agent platform

Dafny models of the platform's stateful components, each proved against what its code and
documentation promise. A component is modelled twice over: as functions on values, which state what
one step computes, and, where the code updates state in place, as a class or a loop whose methods
are proved to compute exactly those functions. The theorems are about every run, every interleaving
or every input of those functions.

| component | files |
|---|---|
| chain projector with reorganisations | `ChainStore`, `ChainProjector`, `ChainInvariant`, `ChainConvergence`, `ChainStanding`, `ChainConfirmed`, `ChainOutcomes` |
| fenced execution protocol, engine side | `ExecutionCell`, `ExecutionRepository`, `ExecutionService`, `ExecutionInvariant`, `ExecutionRuns`, `ExecutionCancel`, `ExecutionFence`, `ExecutionOutcomes`, `ExecutionSteps` |
| fenced execution protocol, agent side | `AdapterRecords`, `AdapterRuns`, `AdapterOutcomes` |
| double-entry ledger with reservations | `FundsLedger`, `FundsRepository`, `FundsPosting`, `FundsInvariant`, `FundsOperations`, `FundsRuns`, `FundsExamples`, `FundsMoney`, `FundsOutcomes` |
| matching pipeline | `MatchTypes`, `MatchFilter`, `MatchScore`, `MatchService`, `MatchShuffle`, `MatchFairness`, `MatchSnapshot`, `MatchAcceptance`, `MatchRevisions`, `MatchPoints`, `MatchRecall`, `MatchOutcomes`, `MatchDraws`, `MatchSealed` |
| deterministic card draw | `DrawPermutation`, `DrawRandom`, `DrawSteps` |
| plan validators | `PlanGraph`, `PlanOutcomes` |
| overview batches and billing | `OverviewBatch`, `OverviewRuns`, `OverviewOutcomes` |
| dispute case | `DisputeCase`, `DisputeRuns`, `DisputeOutcomes` |
| job scheduler | `JobScheduler`, `JobOutcomes` |
| shared mathematics | `Arithmetic`, `Sampling`, `Sequences`, `Ranking`, `Sums`, `Text`, `Wrappers` |

`dafny verify dfyconfig.toml` checks the whole project.

How the models read:

- An operation is a function from a state to the new state and the result, error returns included. A
  class method's postcondition equates its new state and result with that function of the old ones.
- The `...Outcomes` modules, `ChainConfirmed`, `ExecutionFence`, `ExecutionSteps`, `FundsMoney`, `MatchPoints`, `MatchRecall`,
  `MatchDraws`, `MatchSealed` and `DrawSteps` state what each operation answers and changes in the
  system's own terms: amounts per account, fences and leases, points per share, draws per point, days
  since a freeze. They do not refer to the helper functions that compute it.
- Concurrency is interleaving of atomic steps: a repository call under its mutex, or the stretch of a
  process between two awaits. A schedule is any sequence of steps; the outside world answers each
  step as it likes.
- Go's random map iteration is an arbitrary choice in the loop; results are specified on sets and
  proved independent of the choice.
- Keyed and plain hashes are arbitrary functions. Where identifiers must be fresh they are symbolic
  terms, so equal identifiers have equal parts.
- Instants are integers; each step is given its clock reading.

What the proofs found about the code, each with the exact condition:

- Against a source that stands still, `SyncOnce` succeeds exactly when it finds a place to continue from
  and every block above that place names its predecessor (`ChainStanding.SyncSucceedsIff`). With one
  broken link it stores everything up to the break and then rewinds to it until its context expires
  (`ChainStanding.BrokenSourceNeverReturns`), also when it started from an empty store.
- A requested cancellation can still be completed exactly when there is no attempt, the last one is
  active, or it is prepared and its Dispatch has yet to activate it; otherwise it stays requested for
  ever (`ExecutionCancel.CancellationEndsIff`). Two runs end that way: the lease is refused after the
  attempt was prepared, or the agent refuses the dispatch, and then Cancel is called
  (`ExecutionCancel.LostDispatchIsStuck`, `ExecutionCancel.RefusedDispatchIsStuck`).
- Three steps overwrite a requested cancellation, activation, failure after a refused dispatch and a
  usage report over the cap, and no other (`ExecutionCancel.RequestIsLostIff`).
- The repository's `postJournal` alone accepts a journal that mixes assets and unbalances both
  (`FundsPosting.MixedAssetsPass`); a posted journal keeps all totals exactly when it balances in every
  asset by itself (`FundsInvariant.TotalsKeptIff`), as all of the service's journals do.
- A reversal can take a reserved amount out of a pool (`FundsExamples.ReversalUncovers`);
  `FundsRuns.ReversalKeepsCoverage` says exactly when it does not, and on runs whose reversals all meet
  that condition no matching capture fails (`FundsRuns.MatchingCaptureSucceeds`).
- A repeated funding request replays its journal for ever, except when its key is the one that captures
  of an allocation are filed under and that allocation was captured with a journal
  (`FundsRuns.RetryReplays`, `FundsExamples.RetryConflicts`).
- In `ratioScore` the intermediate sum can overflow: a distant deadline then costs an agent points
  (`MatchScore.DistantDeadlineOverflows`); `MatchScore.RatioExactIff` gives the exact condition.
- The planner's cycle check is exact for distinct step ids. With a repeated id it misses a cycle exactly
  when every cycle of the listed steps uses a dependency that only overwritten steps list
  (`PlanGraph.CycleCheckMissesIff`, `PlanGraph.RepeatedIdHidesACycle`).
- The overview repository alone lets a completed batch take a replacement and be completed with an open
  slot (`OverviewRuns.ReplaceUnsettlesIff`, `OverviewRuns.CompletedCanReopen`). The service asks for one
  only after it saw an invalid slot with neither flag set, and then this never happens, however late the
  request arrives (`OverviewRuns.CompletedIsNotReplaced`, `OverviewRuns.CompletedStaysSettled`).
- The draft a batch was created from is accepted as a replay exactly until a replacement is used
  (`OverviewRuns.DraftReplaysUntilReplaced`). `Start` asks for the stored batch first
  (services/engine/internal/overview/service.go:57-60), so only a racing `Start` meets the conflict.
- In a dispute, `decision` has no state guard: it reopens a final case inside the decision window
  (`DisputeRuns.FinalIsLeftIff`, `DisputeRuns.SettledCaseCanBeDecidedAgain`), and a run reaches such a
  case (`DisputeRuns.DecidableCaseIsReached`).

## Model

| member | source | states |
|---|---|---|
| ChainStore.MemoryRepository.ApplyBlock | services/engine/internal/chain/memory.go:48-69 | a block that does not extend the cursor is a gap; a known block becomes canonical again with its stored events; a new one is appended; the cursor moves only on success |
| ChainStore.MemoryRepository.RewindTo | services/engine/internal/chain/memory.go:71-100 | exactly the blocks above the ancestor are orphaned and the cursor moves to the ancestor's canonical block |
| ChainProjector.Projector.CommonAncestor | services/engine/internal/chain/projector.go:89-112 | the walk down from the cursor with one block read per height, in 64-bit arithmetic without underflow |
| ChainProjector.Projector.SyncOnce | services/engine/internal/chain/projector.go:31-87 | the whole call, with the reads and rewinds it made; it ends for every source whose context expires |
| ChainInvariant.AncestorIsHighest | services/engine/internal/chain/projector.go:89-112 | the ancestor is the highest agreeing height within the depth; too deep is reported exactly when every height was read and none agrees |
| ChainInvariant.ReachableInv | services/engine/internal/chain/projector.go:31-112 | for arbitrary sources, every reachable store has exactly one canonical block per height from the start block to the cursor, none elsewhere, each linked to its parent |
| ChainInvariant.TurnKeeps | services/engine/internal/chain/projector.go:49-86 | every pass of the loop, in each of its four exits, keeps the invariant for any answers of the source |
| ChainInvariant.ApplyKeeps | services/engine/internal/chain/memory.go:48-69 | applying the block the projector chose never fails and extends the linked chain by that block |
| ChainInvariant.RewindKeeps | services/engine/internal/chain/memory.go:71-100 | rewinding to a canonical height never fails, keeps everything below and nothing above |
| ChainConvergence.LoopConverges | services/engine/internal/chain/projector.go:47-87 | against a standing coherent source a successful call leaves exactly the source's blocks and events from start block to safe head, after at most one rewind |
| ChainConvergence.ProjectionEqualsReplay | services/engine/internal/chain/projector.go:31-87 | after any history of reorganisations, incremental projection equals a replay of the source into an empty store |
| ChainStanding.SyncSucceedsIff | services/engine/internal/chain/projector.go:47-112 | against a standing source that serves well-formed blocks, coherent or not, a call with enough reads succeeds exactly when it has a landing and every block above it names its predecessor |
| ChainStanding.CoherentSyncSucceedsIff | services/engine/internal/chain/projector.go:47-112 | for a coherent source that is: the cursor is unset or the chains meet within the reorganisation depth |
| ChainStanding.BrokenSourceNeverReturns | services/engine/internal/chain/projector.go:47-112 | with a landing and a broken link above it, the call ends for every patience only in a source failure, having stored the source's blocks up to the first break and nothing above |
| ChainStanding.NoLandingIsTooDeep | services/engine/internal/chain/projector.go:89-112 | without a landing the call reports a too deep reorganisation and stores nothing |
| ChainConfirmed.OnlyConfirmedChanges | services/engine/internal/chain/projector.go:31-87 | after any history and for any answers of the source, where a call changes what is canonical at least `confirmations` blocks up to the reported head stand at or above that height |
| ChainConfirmed.SyncReachesTheLine | services/engine/internal/chain/projector.go:31-87 | with a confirmed height above the cursor a successful call ends with the cursor on the last height with enough confirmations; without one nothing is read or changed |
| ChainConfirmed.RefusedCallsReadNothing | services/engine/internal/chain/projector.go:31-44 | a foreign chain id or a missing head fails the call before it reads a block |
| ChainOutcomes.ApplyOutcome | services/engine/internal/chain/memory.go:48-69 | the first stored block that is canonical or has the hash decides between restoring it as stored, a gap and appending the new one |
| ChainOutcomes.RewindOutcome | services/engine/internal/chain/memory.go:71-100 | every block above the height is withdrawn with its events kept, none below changes, and the cursor moves onto the first canonical block there, is unset at height 0, or stays with a gap |
| ChainOutcomes.PassOutcome | services/engine/internal/chain/projector.go:49-86 | a pass reads exactly the block after the cursor and, by what it is answered, stops, fails storing nothing, applies the block or searches the fork |
| ExecutionRepository.MemoryRepository.PrepareAttempt | services/engine/internal/execution/memory.go:84-120 | replays a prepared or live attempt, expires a stale one, or appends the next number, per execution status |
| ExecutionRuns.DispatchKeeps | services/engine/internal/execution/service.go:58-101 | each step of Dispatch (prepare, activate, record, fail) keeps every execution's invariant and moves every execution and attempt forward only |
| ExecutionRuns.CancelKeeps | services/engine/internal/execution/service.go:174-202 | so does each step of Cancel, and the completion it goes on to either carries a fence or finds an execution that no attempt can join any more |
| ExecutionRuns.PollKeeps | services/engine/internal/execution/service.go:103-133 | so does Poll's usage step, and it stops an execution for its cost only by ending its active attempt |
| ExecutionSteps.DispatchGoesOn | services/engine/internal/execution/service.go:58-101 | what each step of Dispatch calls and goes on to; only a definite refusal fails the attempt, a failed call leaves it for redelivery |
| ExecutionSteps.CancelGoesOn | services/engine/internal/execution/service.go:174-202 | Cancel completes without an attempt at once, otherwise only with a fence and the agent's consent, unless already cancelled |
| ExecutionSteps.PollGoesOn | services/engine/internal/execution/service.go:103-172 | Poll observes exactly a final status whose cost was recorded without a stop, and a success only with a checked deliverable |
| ExecutionOutcomes.PollObserves | services/engine/internal/execution/service.go:134-172 | an observation carries the fence it was asked with and what the agent replied, and counts as a success only with a checked deliverable |
| ExecutionSteps.ReportsGoOn | services/engine/internal/execution/service.go:159-243 | an observation or callback settles its attempt exactly when it is the first acceptance or cost stop of its key |
| ExecutionRepository.MemoryRepository.HandleCallback | services/engine/internal/execution/memory.go:292-366 | a consumed nonce replays or conflicts; late, stale and invalid callbacks are told apart; an accepted one settles the attempt |
| ExecutionRepository.MemoryRepository.Observe | services/engine/internal/execution/memory.go:368-436 | a reconciled attempt replays or conflicts; otherwise the polled outcome settles the attempt |
| ExecutionInvariant.ReceiveKeeps | services/engine/internal/execution/memory.go:292-366 | an accepted callback takes exactly its attempt out of `active`; the conflicting-content branch is unreachable |
| ExecutionFence.CallbackNeedsItsFence | services/engine/internal/execution/memory.go:292-366 | a callback accepted or stopping for its cost carries the fencing token and nonce of the last attempt, which is active and whose lease has not ended, and the execution's agent |
| ExecutionFence.ObservationNeedsItsFence | services/engine/internal/execution/memory.go:368-436 | an observation accepted or stopping for its cost carries the fencing token of the last attempt, which is active, and the execution's agent |
| ExecutionFence.CallbackIsTold | services/engine/internal/execution/memory.go:292-366 | what a callback with a new nonce is told: with the right agent and nonce it is stale exactly when another attempt followed, the token differs or the lease is over |
| ExecutionFence.ObservationIsTold | services/engine/internal/execution/memory.go:368-436 | what a first observation is told, in the same order without nonce and lease |
| ExecutionFence.CallbackStores | services/engine/internal/execution/memory.go:292-366 | what an accepted callback leaves in the execution and its attempt: status, content, reference and cost, and nothing else |
| ExecutionFence.ObservationStores | services/engine/internal/execution/memory.go:368-436 | the same of an accepted observation |
| ExecutionFence.SettledUnderItsLease | services/engine/internal/execution/memory.go:122-436 | over whole runs, a callback settles an attempt only with the token that its activation was given and before the lease of that activation ends |
| ExecutionOutcomes.PrepareOutcome | services/engine/internal/execution/memory.go:84-120 | exact conditions and effects of preparing an attempt |
| ExecutionOutcomes.ActivateOutcome | services/engine/internal/execution/memory.go:122-153 | exact conditions and effects of activating an attempt under a lease |
| ExecutionOutcomes.FailOutcome | services/engine/internal/execution/memory.go:171-196 | which attempt a failure report ends, and what that leaves of the execution |
| ExecutionOutcomes.RequestCancelOutcome | services/engine/internal/execution/memory.go:198-221 | when a cancellation is requested, repeated or refused |
| ExecutionOutcomes.CompleteCancelOutcome | services/engine/internal/execution/memory.go:223-258 | when a requested cancellation is completed, under which fence, and what it changes |
| ExecutionOutcomes.RecordUsageOutcome | services/engine/internal/execution/memory.go:260-290 | usage moves the cost of the fenced active attempt up, and stops the execution over its cap |
| ExecutionOutcomes.CreateOutcome | services/engine/internal/execution/memory.go:45-62 | creation, replay of the same specification, and conflict |
| ExecutionRuns.ReachableStates | services/engine/internal/execution/memory.go:84-436 | under every interleaving the current attempt is the number of attempts, all but the last failed or expired, content is set exactly on success, and cost stays within the cap and equals it when cost-stopped |
| ExecutionRuns.LaterStates | services/engine/internal/execution/memory.go:84-436 | succeeded, cancelled and cost-stopped are absorbing, used cost never decreases, ended attempts never change |
| ExecutionRuns.SettledAtMostOnce | services/engine/internal/execution/service.go:103-243 | at most one callback, observation or usage report is accepted for an attempt or stops it for its cost |
| ExecutionRuns.ZeroCancelHasNoAttempt | services/engine/internal/execution/service.go:174-202 | completing a cancellation with number 0 happens only when the execution has no attempt |
| ExecutionRuns.ConsumedForever | services/engine/internal/execution/memory.go:292-366 | once a nonce is consumed, every later callback carrying it gets the same result as a replay, or conflicts, on every schedule |
| ExecutionRuns.ReconciledForever | services/engine/internal/execution/memory.go:368-436 | a reconciled attempt answers every later observation with the same result, or with a conflict |
| ExecutionCancel.CancellationEndsIff | services/engine/internal/execution/service.go:58-202 | in every reachable system some continuation completes a requested cancellation exactly when there is no attempt, the last one is active, or it is prepared and its Dispatch has yet to activate it; in all other cases no continuation leaves `cancel_requested` |
| ExecutionCancel.StuckForGood | services/engine/internal/execution/memory.go:84-258 | in those other cases the execution and its attempts stay exactly as they are on every schedule |
| ExecutionCancel.LostDispatchIsStuck | services/engine/internal/execution/service.go:58-67 | a run with a refused lease that ends so, with a prepared attempt |
| ExecutionCancel.RefusedDispatchIsStuck | services/engine/internal/execution/service.go:85-98 | a run with a refused dispatch that ends so, with a failed attempt |
| ExecutionCancel.RequestIsLostIff | services/engine/internal/execution/memory.go:122-290 | in every reachable system a step overwrites a requested cancellation exactly when it activates the prepared attempt, fails the active one or stops it for its cost |
| ExecutionCancel.ActivationOverwrites | services/engine/internal/execution/memory.go:122-153 | a run in which a cancelled execution is running again |
| AdapterRecords.AgentExecutionAdapter.Accept | packages/agent-runtime/src/execution-adapter.ts:63-85 | refusal after the deadline, idempotent repeat, conflict, or a new record that displaces and aborts the old one |
| AdapterRecords.AgentExecutionAdapter.AskCancel | packages/agent-runtime/src/execution-adapter.ts:92-99 | a running record of the same identity is cancelled and aborted |
| AdapterOutcomes.CreateOutcome | packages/agent-runtime/src/execution-adapter.ts:63-85 | every answer to a request, and the two records it touches when work is taken |
| AdapterOutcomes.CancelOutcome | packages/agent-runtime/src/execution-adapter.ts:92-99 | every answer to a cancellation and the one record it changes |
| AdapterOutcomes.DeliverableOutcome | packages/agent-runtime/src/execution-adapter.ts:101-107 | a deliverable is answered exactly by a succeeded owner with both of its parts |
| AdapterOutcomes.FailureOutcome | packages/agent-runtime/src/execution-adapter.ts:116-143 | a live process that meets an error, or an overview over 64 KiB, fails with the code and reports it under its own token and nonce |
| AdapterOutcomes.ProgressOutcome | packages/agent-runtime/src/execution-adapter.ts:116-137 | a live process goes on to its next await and succeeds with exactly the artifact it was answered |
| AdapterOutcomes.EndOutcome | packages/agent-runtime/src/execution-adapter.ts:116-149 | a process that is no longer live sends nothing and leaves its record without nonce and inline input |
| AdapterRuns.TokensRise | packages/agent-runtime/src/execution-adapter.ts:63-85 | a logical id changes owner only for a strictly higher fencing token, and a succeeded record is never displaced |
| AdapterRuns.FencedOffIsSilent | packages/agent-runtime/src/execution-adapter.ts:92-149 | a record cancelled or displaced before it ended keeps its status, is aborted, and never sends a callback |
| AdapterRuns.OneCallbackPerRecord | packages/agent-runtime/src/execution-adapter.ts:116-172 | exactly the ended records send a callback, one each, with their outcome, token and the nonce they were created with |
| AdapterRuns.DeliverableIsStable | packages/agent-runtime/src/execution-adapter.ts:101-107 | a deliverable once ready is answered alike for ever |
| AdapterRuns.RunningIsNotAbandoned | packages/agent-runtime/src/execution-adapter.ts:116-149 | a running record that owns its id always has a process that will return to it |
| FundsRepository.MemoryRepository.PostJournal | services/engine/internal/funds/memory.go:238-286 | all entries are checked and staged before any account moves; the first complaint in entry order is reported |
| FundsRepository.MemoryRepository.Authorize | services/engine/internal/funds/memory.go:76-118 | replay, the single pool of a task and asset, and a reservation only out of what is free |
| FundsRepository.MemoryRepository.Capture | services/engine/internal/funds/memory.go:120-167 | replay, claim checks, the journal of price and cost, and the allocation's new state |
| FundsRepository.MemoryRepository.Release | services/engine/internal/funds/memory.go:169-193 | replay or a released allocation, without moving money |
| FundsRepository.MemoryRepository.Reverse | services/engine/internal/funds/memory.go:195-216 | a journal is reversed once, by the mirrored journal |
| FundsRepository.Service.RecordFundingRequest | services/engine/internal/funds/service.go:40-51 | the two-entry funding journal against the control account |
| FundsMoney.CaptureMovesMoney | services/engine/internal/funds/memory.go:120-167 | a capture takes amount and cost from the allocation's pool, credits the amount to the agent's receivable account and the cost to the allocation's clearing account, moves no other balance, and closes this allocation only |
| FundsMoney.FundingMovesMoney | services/engine/internal/funds/memory.go:53-74 | a funding moves its amount from the asset's control account to the funded one, and no other balance |
| FundsOutcomes.CaptureOutcome | services/engine/internal/funds/memory.go:120-167 | a capture is made exactly for a fitting claim that the pool's balance covers, and repeated only with the same claim |
| FundsOutcomes.CaptureFiles | services/engine/internal/funds/memory.go:135-167 | a capture opens only its payees' accounts and files one journal under the allocation's key, none for a claim of nothing |
| FundsOutcomes.AuthorizeOutcome | services/engine/internal/funds/memory.go:76-118 | a reservation is granted exactly when the task has one discovery pool, open and with enough free for price and cost cap |
| FundsOutcomes.AuthorizeReplays | services/engine/internal/funds/memory.go:79-89 | which repeated requests are answered with the stored allocation |
| FundsOutcomes.ReleaseOutcome | services/engine/internal/funds/memory.go:169-193 | an authorized allocation is released under its reason, and repeated only for the same one |
| FundsOutcomes.OpenOutcome | services/engine/internal/funds/memory.go:25-41 | business accounts start empty and open, once per type, reference and asset |
| FundsOutcomes.FundingOutcome | services/engine/internal/funds/memory.go:53-74 | a funding with a new key is booked on every open business account |
| FundsOutcomes.ReverseOutcome | services/engine/internal/funds/memory.go:195-216 | when a reversal is recorded, repeated or refused, and what it files |
| FundsOutcomes.PostOutcome | services/engine/internal/funds/memory.go:238-286 | the first entry at fault decides the refusal; a posted journal moves every account by its net there |
| FundsOutcomes.InsufficientIff | services/engine/internal/funds/memory.go:238-286 | a sound journal is refused as insufficient exactly when a business account runs out at one of its entries |
| FundsPosting.MixedAssetsPass | services/engine/internal/funds/memory.go:238-286 | the posting check totals debits and credits over all assets: a ledger and a journal that passes it and unbalances both assets |
| FundsInvariant.TotalsKeptIff | services/engine/internal/funds/memory.go:238-286 | a posted journal keeps every asset's total exactly when its entries balance in every asset |
| FundsOperations.CaptureNeverInsufficient | services/engine/internal/funds/memory.go:120-167 | in a covered ledger a matching claim is captured |
| FundsRuns.BalancesAreBooked | services/engine/internal/funds/memory.go:238-286 | on every run each balance is the signed sum of the account's posted entries, balances of an asset sum to zero, and business accounts are never overdrawn |
| FundsRuns.MatchingCaptureSucceeds | services/engine/internal/funds/memory.go:76-167 | on runs whose reversals take from each pool no more than what is free there, every pool covers its reservations and a matching capture never fails |
| FundsRuns.ClosedAtMostOnce | services/engine/internal/funds/memory.go:120-193 | an allocation is captured or released at most once and fixed from then on |
| FundsRuns.UsedKeyChangesNothing | services/engine/internal/funds/memory.go:53-74 | a funding request with a used key changes nothing in any later ledger |
| FundsRuns.RetryReplays | services/engine/internal/funds/memory.go:288-297 | in every later ledger the same funding request replays its journal, or conflicts exactly when a capture journal was filed under its key |
| FundsRuns.ReversalRestores | services/engine/internal/funds/service.go:80-98 | a journal is reversed at most once and its reversal takes back its net on every account |
| FundsRuns.FundThenReverse | services/engine/internal/funds/service.go:40-98 | funding and then reversing gives back every balance |
| FundsRuns.ReversalCoversIff | services/engine/internal/funds/memory.go:195-216 | a reversal keeps a pool covered exactly when the pool's free amount is at least what the journal had paid in |
| FundsRuns.ReversalKeepsCoverage | services/engine/internal/funds/memory.go:195-216 | a reversal keeps all pools covered exactly when it takes from each no more than what is free there |
| FundsExamples.ReversalUncovers | services/engine/internal/funds/memory.go:195-216 | a run in which a reversal leaves a pool short of its reservation |
| FundsExamples.RetryConflicts | services/engine/internal/funds/memory.go:154-167 | a run after which repeating a funding request conflicts |
| MatchFilter.HardFilter | services/engine/internal/matching/filter.go:45-59 | the passing candidates and the exclusions of the others, each sorted by agent id |
| MatchFilter.FilterPartitions | services/engine/internal/matching/filter.go:45-59 | every candidate is eligible or excluded, as often as it was given |
| MatchFilter.PassesIff | services/engine/internal/matching/filter.go:61-134 | a candidate collects no reason exactly when it meets every eligibility condition |
| MatchOutcomes.ReasonIff | services/engine/internal/matching/filter.go:61-134 | a code is among a candidate's reasons exactly when its condition applies, with the condition of every code spelled out |
| MatchOutcomes.MatchExcludes | services/engine/internal/matching/filter.go:45-59 | a match excludes exactly the candidates to which a reason applies, each with exactly those reasons |
| MatchScore.RatioExactIff | services/engine/internal/matching/score.go:79-85 | the computed ratio is the intended one exactly when the intermediate sum fits in 64 bits |
| MatchScore.ScoreBounds | services/engine/internal/matching/score.go:14-36 | without hypothesis rule scores lie in [-10, 100] and ranking scores in [0, 100] |
| MatchScore.ScoreRanges | services/engine/internal/matching/score.go:14-30 | components stay within 60, 25, 10 and 5 and the rule score in [0, 100] when no sum overflows |
| MatchScore.BetterScoresNoLess | services/engine/internal/matching/score.go:14-85 | being better in any scored respect never costs points, in any component, when no sum overflows |
| MatchScore.DistantDeadlineOverflows | services/engine/internal/matching/score.go:72-85 | an input on which the overflow turns five points into minus two |
| MatchPoints.RuleScoreIs | services/engine/internal/matching/score.go:14-85 | when no ratio overflows the rule score is the sum of the points deserved: the whole part of the share of 25, 15 and 20 in 10 000, of 5 in 100 for each of five reputation values and of 5 in the price headroom, and the rounded fifths of time and capacity |
| MatchPoints.PointsExist | services/engine/internal/matching/score.go:14-85 | such points exist for every request, candidate and evidence |
| MatchPoints.ModelMovesBy | services/engine/internal/matching/score.go:32-36 | a model moves the score by its delta within five points and within [0, 100] |
| MatchService.NormalizeHits | services/engine/internal/matching/service.go:149-167 | the best valid hit of each eligible agent, in the one order by relevance and id; invalid exactly when some hit was |
| MatchService.GatherRecall | services/engine/internal/matching/service.go:85-128 | the book places an agent in a channel exactly where the top hits of the channel's first adapter do, and there is one notice for every adapter at fault and every channel without one |
| MatchService.FusedAgentIds | services/engine/internal/matching/service.go:169-196 | the first hundred agents by reciprocal rank and id, whatever order the map is walked in |
| MatchService.Qualify | services/engine/internal/matching/service.go:198-214 | the first twenty that meet both floors and the gap to the best |
| MatchService.Match | services/engine/internal/matching/service.go:33-83 | refused exactly for an invalid request or a repeated eligible agent; otherwise the canonical scored list, its qualified prefix, the exclusions and the sorted notices |
| MatchService.MatchIsDetermined | services/engine/internal/matching/service.go:33-83 | over distinct candidates two matches in any two orders give the same scored, qualified and excluded lists and notices |
| MatchService.MatchTwice | services/engine/internal/matching/service.go:33-83 | two calls with the same candidates in any two orders answer alike |
| MatchOutcomes.MatchScores | services/engine/internal/matching/service.go:33-83 | a match scores exactly the eligible agents that some channel placed and fewer than a hundred others outrank, each under its own evidence, with the points it deserves and the model's opinion |
| MatchOutcomes.ScoredInOrder | services/engine/internal/matching/service.go:216-226 | scored candidates fall by ranking score, then by rule score, then by id |
| MatchOutcomes.MatchQualifies | services/engine/internal/matching/service.go:198-214 | a scored candidate with at least 60 by rules and in the ranking, within ten of the best, and with fewer than twenty such before it is qualified, at the place these leave it |
| MatchOutcomes.QualifiedIff | services/engine/internal/matching/service.go:198-214 | and there are exactly as many qualified candidates as qualify, at most twenty |
| MatchOutcomes.FullRelevanceQualifies | services/engine/internal/matching/service.go:33-83 | without a model and overflow, full relevance in all three channels gives task match 60 and a rule and ranking score of at least 60, and qualifies within ten of the best and the first twenty |
| MatchOutcomes.MatchNotes | services/engine/internal/matching/service.go:50-128 | a match notes exactly the adapters at fault, the channels without one, and a model that is off or failed for a scored candidate |
| MatchOutcomes.MatchListsInOrder | services/engine/internal/matching/service.go:245-252 | exclusions of distinct candidates are listed by agent, notices by what they are about and then by code |
| Ranking.BeforeIff | services/engine/internal/matching/service.go:216-226 | ids are compared by their first difference, a beginning coming before what continues it |
| MatchOutcomes.RequestOkIff | services/engine/internal/matching/service.go:130-147 | which requests are refused as invalid |
| MatchOutcomes.DuplicatesIff | services/engine/internal/matching/service.go:33-46 | a match is refused for a repeated agent exactly when two candidates that fit share an id |
| MatchRecall.PlacedIff | services/engine/internal/matching/service.go:104-167 | an agent has this rank and relevance in a channel exactly when that is its best hit that counts and one less than the rank agents stand ahead of it |
| MatchRecall.BookRemembers | services/engine/internal/matching/service.go:85-128 | the evidence of every agent is where its hits stand among those of each channel's first adapter |
| MatchRecall.FusedIff | services/engine/internal/matching/service.go:169-196 | scored are the agents that fewer than a hundred others outrank by the sum of the whole parts of 1 000 000 / (60 + rank), ties by id |
| MatchShuffle.DeterministicDraw | services/engine/internal/matching/shuffle.go:177-193 | the first accepted word of the keyed stream, reduced |
| MatchShuffle.Walk | services/engine/internal/matching/shuffle.go:205-213 | the cumulative walk always stops at a candidate, so the panic behind it is unreachable |
| MatchShuffle.WeightedDraw | services/engine/internal/matching/shuffle.go:195-213 | the selection depends only on which candidates there are |
| MatchShuffle.ValidateInput | services/engine/internal/matching/shuffle.go:116-152 | the first fault in the source's order of checks |
| MatchShuffle.FairShuffle | services/engine/internal/matching/shuffle.go:66-114 | the outcome is a function of the set of candidates, the context and the policy |
| MatchFairness.SelectionsAreFair | services/engine/internal/matching/shuffle.go:79-113 | distinct agents of the pool, positions 1..k, no provider over its cap, exploration at position 3 only, and stopping short only when every candidate left belongs to a provider at its cap |
| MatchFairness.ThirdIsExploration | services/engine/internal/matching/shuffle.go:79-112 | when a third selection is made it is an exploration exactly when one was triggered and an unchosen candidate of a provider below its cap can be explored, and then it selects such a candidate |
| MatchFairness.RoundsSelect | services/engine/internal/matching/shuffle.go:79-112 | every selection of a run is the one its own round draws from the candidates then eligible |
| MatchFairness.OrderDoesNotMatter | services/engine/internal/matching/shuffle.go:116-152 | a pool is accepted in one order exactly when it is accepted in every order |
| MatchFairness.ShuffleTwice | services/engine/internal/matching/shuffle.go:66-114 | two orders of one pool give the same result |
| MatchFairness.ShareOfDraws | services/engine/internal/matching/shuffle.go:195-223 | exactly `weight` of the `total` draws select a candidate |
| MatchFairness.ShareOfWords | services/engine/internal/matching/shuffle.go:177-213 | of the accepted 64-bit words each candidate is selected by its weight times the same number |
| MatchDraws.OutcomeIs | services/engine/internal/matching/shuffle.go:66-114 | every selection of a valid pool: weight and numerator are the ranking score less 59, the denominator is the sum of these over the entrants of its round, the draw is the first fair word of its domain and falls behind the points of the entrants with smaller ids; the rounds end at the limit or when nobody is open |
| MatchDraws.DrawsArePoints | services/engine/internal/matching/shuffle.go:195-223 | as many draws pick a candidate as its ranking score exceeds 59 by |
| MatchDraws.OneMorePoint | services/engine/internal/matching/shuffle.go:221-223 | one more point of the ranking score is exactly one more draw |
| MatchDraws.ValidIff | services/engine/internal/matching/shuffle.go:116-152 | which pools, contexts and policies are accepted |
| MatchDraws.RefusedForFirst | services/engine/internal/matching/shuffle.go:132-150 | a pool is refused for its first candidate to blame, with what that one is blamed for first |
| MatchSnapshot.ValidateSnapshotDraft | services/engine/internal/matching/snapshot.go:137-198 | accepts exactly canonical drafts |
| MatchSnapshot.ValidateSnapshot | services/engine/internal/matching/snapshot.go:200-225 | accepts exactly complete snapshots with sound selections |
| MatchAcceptance.MatchIsAccepted | services/engine/internal/matching/service.go:33-83 | whatever channels and model return, the result of a match over distinct agents with valid counters is a canonical draft and a valid pool |
| MatchRevisions.MemorySnapshotRepository.Revise | services/engine/internal/matching/snapshot_memory.go:39-56 | validation, replay of a sealed identity, or the next revision built and stored |
| MatchRevisions.MemorySnapshotRepository.Latest | services/engine/internal/matching/snapshot_memory.go:26-37 | the newest snapshot under a specification and an algorithm, or none exactly when there is none |
| MatchRevisions.SealedIsOk | services/engine/internal/matching/snapshot.go:74-119 | a snapshot built from a valid pool always passes its own validation |
| MatchRevisions.MatchIsSealed | services/engine/internal/matching/snapshot.go:74-119 | a match result over sound candidates is always sealed or found sealed |
| MatchRevisions.SealedForever | services/engine/internal/matching/snapshot_memory.go:39-56 | an identity once sealed is answered with the same snapshot for ever |
| MatchRevisions.RevisionsAreNumbered | services/engine/internal/matching/snapshot_memory.go:39-56 | the revisions of a task are 1..n, one per identity, each sound |
| MatchSealed.ReviseOutcome | services/engine/internal/matching/snapshot.go:74-119 | a new identity becomes the task's next revision exactly when the shuffle of its qualified candidates is valid, and then holds the draft, its number and hashes and that shuffle's outcome |
| MatchSealed.DraftOkIff | services/engine/internal/matching/snapshot.go:137-198 | what a draft must be to be sealed |
| MatchSealed.SnapshotOkIff | services/engine/internal/matching/snapshot.go:200-225 | what a snapshot must be to be stored |
| Text.DigestIff | services/engine/internal/execution/protocol.go:203-209 | a digest is `sha256:` followed by 64 hexadecimal digits of either case |
| Sampling.LimitIsUniform | agents/tarot-relationship/src/randomness/deterministic-draw.ts:62-73 | each residue has equally many accepted 32-bit words, and more words are accepted than rejected |
| Sampling.ThresholdIsUniform | services/engine/internal/matching/shuffle.go:177-193 | each residue has equally many accepted 64-bit words above the wrapped threshold |
| DrawPermutation.ArrangePermutes | agents/tarot-relationship/src/randomness/deterministic-draw.ts:22-25 | the loop only rearranges, whatever the targets |
| DrawPermutation.ExactlyOneVector | agents/tarot-relationship/src/randomness/deterministic-draw.ts:22-25 | for every deck size each ordering is produced by exactly one vector of in-range targets |
| DrawRandom.WordInAnyPrefix | agents/tarot-relationship/src/randomness/deterministic-draw.ts:75-85 | words are those of the plain concatenation of the hash blocks |
| DrawRandom.HashRandom.Uint32 | agents/tarot-relationship/src/randomness/deterministic-draw.ts:75-85 | the buffered reader returns the next word of the concatenated blocks |
| DrawRandom.HashRandom.Integer | agents/tarot-relationship/src/randomness/deterministic-draw.ts:62-73 | an invalid bound is refused; otherwise the first word below the limit, reduced |
| DrawRandom.ShuffleIndexes | agents/tarot-relationship/src/randomness/deterministic-draw.ts:22-25 | the in-place loop computes the arrangement of the drawn targets |
| DrawRandom.DrawRelationshipSpread | agents/tarot-relationship/src/randomness/deterministic-draw.ts:16-37 | the first three cards of the shuffled deck with orientations drawn after the shuffle |
| DrawRandom.SpreadIsDistinct | agents/tarot-relationship/src/randomness/deterministic-draw.ts:27-37 | the three cards are distinct cards of the deck |
| DrawRandom.OrderIsFair | agents/tarot-relationship/src/randomness/deterministic-draw.ts:20-25 | one target vector per order of the deck, and equally many words per target |
| DrawSteps.WordIs | agents/tarot-relationship/src/randomness/deterministic-draw.ts:75-85 | the i-th word consists of the next four bytes of the block it falls into, the first one the most significant |
| DrawSteps.SpreadIs | agents/tarot-relationship/src/randomness/deterministic-draw.ts:16-73 | from the last card on, every card is exchanged with the one that the first fair word chose for it; the first three are dealt, each upright exactly when the next word is even |
| PlanGraph.CycleCheck.Visit | services/orchestrator/src/graph.ts:150-152 | a visit fails only on a cycle; otherwise everything visited is listed after its dependencies |
| PlanGraph.AssertAcyclic | services/orchestrator/src/graph.ts:150-154 | terminates and throws exactly when the graph has a cycle |
| PlanGraph.ValidatePlan | services/orchestrator/src/graph.ts:138-148 | accepts exactly plans of the right size with known dependencies and no cycle |
| PlanGraph.ValidateDraft | services/engine/internal/orchestration/service.go:83-100 | accepts exactly filled drafts listed in dependency order |
| PlanGraph.ListedIsAcyclic | services/engine/internal/orchestration/service.go:87-98 | a draft the engine accepts is topologically ordered and passes the planner's checks |
| PlanGraph.OrderMattersToTheEngine | services/engine/internal/orchestration/service.go:87-98 | the planner accepts orders that the engine refuses |
| PlanGraph.CycleCheckMissesIff | services/orchestrator/src/graph.ts:150-154 | acyclic steps are always accepted; with distinct ids the check is exact; it misses a cycle exactly when every cycle of the listed steps uses a dependency that only overwritten steps list |
| PlanGraph.RepeatedIdHidesACycle | services/orchestrator/src/graph.ts:150-154 | a plan with a repeated id whose listed steps form a cycle that the check accepts |
| PlanOutcomes.PlanIs | services/orchestrator/src/graph.ts:138-154 | the planner accepts exactly plans of the right size whose steps depend on other listed steps and whose effective dependencies close no circle |
| PlanOutcomes.DraftIs | services/engine/internal/orchestration/service.go:83-100 | the engine accepts exactly complete drafts whose steps have ids of their own and depend on earlier steps only |
| OverviewBatch.MemoryRepository.Create | services/engine/internal/overview/memory.go:21-37 | replay of the same plan, conflict, one batch per snapshot |
| OverviewBatch.MemoryRepository.RecordDispatched | services/engine/internal/overview/memory.go:49-72 | a planned slot is dispatched, idempotently, unless the batch is obsolete |
| OverviewBatch.MemoryRepository.RecordValidation | services/engine/internal/overview/memory.go:74-116 | a dispatched slot gets its verdict; content that another valid slot has is invalid |
| OverviewBatch.MemoryRepository.RecordBilling | services/engine/internal/overview/memory.go:118-143 | only valid slots are captured, only failed or obsolete ones released |
| OverviewBatch.MemoryRepository.AddReplacement | services/engine/internal/overview/memory.go:145-171 | replay, conflict, or the one replacement appended |
| OverviewBatch.MemoryRepository.MarkObsoleteBefore | services/engine/internal/overview/memory.go:190-215 | every older batch of a task becomes obsolete with its unresolved slots |
| OverviewRuns.ReachableBatches | services/engine/internal/overview/memory.go:49-244 | captured slots are valid, valid slots differ in content, at most one replacement exists, an obsolete batch has no open slot |
| OverviewRuns.LaterBatches | services/engine/internal/overview/memory.go:49-244 | billing leaves authorized at most once, verdicts and contents are final, obsolete is absorbing |
| OverviewRuns.CompletionIsEarned | services/engine/internal/overview/memory.go:230-244 | a batch turns completed only when every slot is resolved and settled and no replacement is due |
| OverviewRuns.ReplaceUnsettlesIff | services/engine/internal/overview/memory.go:145-171 | a completed settled batch becomes unsettled exactly when no slot is a replacement, neither flag is set and the new slot is a replacement with the next ordinal and the batch's id |
| OverviewRuns.CompletedStaysSettled | services/engine/internal/overview/service.go:283-286 | when every replacement was asked for after an invalid slot was seen with neither flag set, completed batches are settled at every point |
| OverviewRuns.CompletedIsNotReplaced | services/engine/internal/overview/service.go:283-286 | as the service drives it, a request for a replacement never changes a completed batch |
| OverviewRuns.CompletedCanReopen | services/engine/internal/overview/memory.go:145-171 | a run of the repository alone in which a completed batch gets an open slot |
| OverviewRuns.DraftReplaysUntilReplaced | services/engine/internal/overview/memory.go:246-264 | at every later point the draft of a batch is accepted as a replay exactly while no replacement was used, and conflicts from then on |
| OverviewOutcomes.CreateOutcome | services/engine/internal/overview/memory.go:21-37 | creation, replay of the same plans, and conflict over an id or a snapshot |
| OverviewOutcomes.DispatchOutcome | services/engine/internal/overview/memory.go:49-72 | every answer to a dispatch and the one slot it changes |
| OverviewOutcomes.ValidateOutcome | services/engine/internal/overview/memory.go:74-116 | every answer to a verdict, the slot it leaves, and that the batch completes exactly when nothing is left to do |
| OverviewOutcomes.BillOutcome | services/engine/internal/overview/memory.go:118-143 | who may be billed how, once, and when that completes the batch |
| OverviewOutcomes.ReplaceOutcome | services/engine/internal/overview/memory.go:145-171 | when the one replacement is appended, repeated or refused |
| OverviewOutcomes.ExhaustOutcome | services/engine/internal/overview/memory.go:173-188 | giving up on a replacement that was not used may complete the batch |
| OverviewOutcomes.ObsoleteOutcome | services/engine/internal/overview/memory.go:190-215 | which batches become obsolete, and with which of their slots |
| DisputeRuns.ChangeKeeps | services/engine/internal/dispute/state.go:31-144 | every accepted command keeps the case consistent and only appends to its records |
| DisputeRuns.ReachableCases | services/engine/internal/dispute/state.go:14-138 | evidence keys and digests, claims and stages are unique, deadlines are 72, 72 and 48 hours apart, and an initial decision rests on all twelve categories |
| DisputeRuns.ReviewIsIndependent | services/engine/internal/dispute/state.go:88-126 | initial decisions and reviews are made by the assignees of their stages, who are different people, on award tiers |
| DisputeRuns.LaterCases | services/engine/internal/dispute/state.go:49-137 | a case freezes at most once and keeps root, leaves and deadlines; evidence is append-only and fixed from the first decision on |
| DisputeRuns.FinalIsLeftIff | services/engine/internal/dispute/state.go:99-108 | a final case leaves final exactly on a decision whose guards hold |
| DisputeRuns.SettledCaseCanBeDecidedAgain | services/engine/internal/dispute/state.go:99-115 | a decided and settled case can be decided again and is then open while marked finalized |
| DisputeRuns.DecidableCaseIsReached | services/engine/internal/dispute/state.go:14-108 | a run with evidence in all twelve categories reaches a case that its judge can decide |
| DisputeRuns.ReviewedOnce | services/engine/internal/dispute/state.go:116-126 | a second review is never accepted |
| DisputeOutcomes.OpenOutcome | services/engine/internal/dispute/state.go:14-29 | who may open a case, until when, and how it starts |
| DisputeOutcomes.ClaimOutcome | services/engine/internal/dispute/state.go:34-48 | a further claim is taken before the decision, from a party, once for every side and kind |
| DisputeOutcomes.FreezeConfirmOutcome | services/engine/internal/dispute/state.go:56-71 | the freeze takes effect with the submitted transaction, and fixes windows of three, six and eight days and both sides' leaves |
| DisputeOutcomes.SubmitOutcome | services/engine/internal/dispute/state.go:72-87 | evidence is taken for three days from the freeze, from the side whose claim it is for, and no object twice |
| DisputeOutcomes.AssignOutcome | services/engine/internal/dispute/state.go:88-98 | a stage is assigned once, to somebody who is not a party |
| DisputeOutcomes.DecideOutcome | services/engine/internal/dispute/state.go:99-108 | the assigned judge decides between the third and the sixth day, on complete evidence and one of the five tiers |
| DisputeOutcomes.SettleOutcome | services/engine/internal/dispute/state.go:109-115 | a verified settlement ends a frozen case at any time before it is final |
| DisputeOutcomes.ReviewOutcome | services/engine/internal/dispute/state.go:116-126 | one review by the assigned reviewer, who did not decide, ends a decided case within eight days of the freeze |
| DisputeOutcomes.FinalizeOutcome | services/engine/internal/dispute/state.go:127-131 | a decided case becomes final without a review exactly from eight days after the freeze on |
| JobScheduler.AsyncJobService.StartPending | packages/agent-runtime/src/job.ts:91-101 | drain starts pending jobs in order while a slot is free |
| JobScheduler.AsyncJobService.ReleaseSlot | packages/agent-runtime/src/job.ts:96-99 | the finally callback gives the slot back and drains |
| JobScheduler.ReachableServices | packages/agent-runtime/src/job.ts:60-131 | executions in flight equal `activeCount` and never exceed the limit, jobs start at most once in submission order, and waiting work with a free slot has a drain scheduled |
| JobScheduler.QuiescentMeansDone | packages/agent-runtime/src/job.ts:60-131 | when nothing is scheduled or in flight, every submitted job was started and no controller is left |
| JobOutcomes.DrainOutcome | packages/agent-runtime/src/job.ts:91-101 | draining starts as many waiting jobs as there are free slots, in their order, and changes nothing else |
| JobOutcomes.ResumeOutcome | packages/agent-runtime/src/job.ts:103-131 | an execution holds its controller exactly from its saved start to its conclusion |
| JobOutcomes.FinishOutcome | packages/agent-runtime/src/job.ts:96-99 | a settled execution leaves and its slot goes to the next waiting job |

## Left out

- ChainProjector.Projector.SyncOnce: on a source that never stands still the code may loop until its context expires; the number of reads before that is the source's `patience`, an input.
- Chain convergence for a cursor already at or above the safe head: the code returns without looking for a fork, so no claim is made there.
- `SelectionResult`, the verifier and the inventory reconciler of the chain package, and ABI decoding, which is an arbitrary function of the block.
- Execution: timestamps and audit fields, the capacity leaser behind an activated attempt (its answer is an input), envelope text and signatures; a callback is assumed verified.
- AdapterRecords: a record object is its index in creation order, so aliasing of record objects outside the adapter is not modelled; stored artifact bytes are not claimed to match the content hash.
- FundsRepository: money is an unbounded natural, so digit limits and text forms of amounts are not modelled; the service's text checks of capture and release claims are inputs that passed.
- MatchShuffle.FairShuffle: ranking scores are assumed at most 2^56, so that weights add up in 64 bits; scores from the pipeline are at most 100.
- MatchShuffle.DeterministicDraw: a word in the accepted range is assumed to appear, because no hash can be shown to produce one; the same holds for DrawRandom.HashRandom.Integer.
- MatchService.Match: notices and reasons are codes without their messages; text comparison folds case through an arbitrary function; the answers of the recall channels are inputs.
- MatchSnapshot.ValidateSnapshotDraft: the category-tags algorithm is not part of this model and is refused here; nil and empty lists are one value.
- MatchRevisions.MemorySnapshotRepository.Revise: the snapshot builder is inlined into the locked step of the store instead of being passed as a closure.
- DrawRandom.HashRandom.Uint32: the block counter is unbounded; the 64-bit counter of the code never wraps in a draw.
- PlanGraph.ValidatePlan: the schema that precedes it (text lengths, id pattern) is not modelled.
- OverviewBatch: timestamps; the service around the repository, its gateways and prompts.
- DisputeCase: access grants, administrative operations and copied context fields of the view; the freeze fields are one record that is set at once.
- JobScheduler: contents of the job store, results and error texts; job statuses are inputs to the scheduling decisions.
- Postgres stores, queues, HTTP and RPC transport, configuration, user interface and cryptographic primitives.
