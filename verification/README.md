# Agroasys protocols, modelled and proved

This project models the off-chain protocols around the Agroasys escrow contract
and proves what they keep over whole runs, under any interleaving their stores
and locks allow. Verify it with `dafny verify dfyconfig.toml`.

Two kinds of model are used. Where the source updates a store in place, there
is a class (or a method over one) whose contract says that the new state is a
function of the old one; the theorems are then proved about that function over
every run. Where the source is a protocol between concurrent parties, there is
a state machine with one step per store read, chain call and store write.

| modules | what they model |
|---|---|
| `Texts`, `JsonText` | JavaScript strings, their order, and JSON text as `JSON.stringify` prints it |
| `Canonicalize`, `Ricardian` | canonical JSON of Ricardian payloads and the text that is hashed |
| `NonceStore`, `ServiceAuth` | replay protection for service requests |
| `RateLimiter` | the fixed-window rate limiter |
| `Governance`, `GovernanceRoutes`, `GovernancePaging`, `GovernanceExecution` | governance actions: intent keys and the routes that build them, keyset paging, the chain method table and status resolution |
| `GovernanceQueue`, `GovernanceRuns` | the governance queue with whole calls as steps: dedupe, execution, cleanup, audit |
| `GovernanceMachine`, `GovernanceAlone`, `GovernanceReach` | the same queue with every read and write a step of its own, and the per-action lock; that it is the whole call when nothing interrupts; what it can reach |
| `Oracle`, `OracleRetry`, `OracleConfirmation` | oracle triggers: action keys, the retry loop and the confirmation poll |
| `OracleMachine`, `OracleAttempts`, `OracleReach` | triggers against trades with every read, call and write a step of its own; what the oracle bounds, and what the machine can reach |
| `Idempotency` | HTTP idempotency keys |
| `Indexer`, `IndexerProposals` | the indexer's batch cache; proposals and logs in closed form |
| `Treasury` | ledger ingestion with crashes, and payout histories |
| `Classifier`, `Reconciler` | drift classification and a reconciliation run |
| `Compliance` | compliance decisions and the block/resume gate |

What an operation answers is also stated without its specification function: a
predicate over the input's and the store's own fields says what each answer means,
every answer is proved to fit it, and no two answers fit one input
(`ServiceAuth.AnswerIsRight` with `OneAnswer`, `GovernanceExecution.ClosingIsRight`
with `OneClosing`, `Treasury.LedgerIsOfItsEvents`, `Compliance.LastRecordedIsLastCreate`,
`Classifier.FindingsAreTheDrifts`).

Some properties hold only under a condition. Each "if and only if" below is proved
in both directions; where a bound is given instead, it is proved for every run and
shown to be needed:

- At most one live governance action per intent key holds when each call is one
  step (`GovernanceRuns.AtMostOneLive`). With separate reads and writes it is at
  risk in a reachable state if and only if some executor is about to store an
  open status after its action's deadline
  (`GovernanceReach.OneLiveAtRiskIffLateWrite`); runs without such a write keep
  it (`GovernanceMachine.OnTimeRunsKeepOneLive`).
- An action's chain calls exceed the results lost before they were stored by at
  most one (`GovernanceMachine.CallsAreBounded`), and the bound is attained for
  every number of losses (`GovernanceReach.EveryLossAllowsACall`). From any
  reachable state a stored action can be called again if and only if it is
  requested, before its deadline and of a kind some signer may execute, or the
  executor holding it has already read such a version
  (`GovernanceReach.CanBeCalledIffNotDead`).
- From any reachable state some continuation changes a settled action if and only
  if an executor still works on an older version of it or is about to write a
  different one, or a cleanup run is about to mark a different version stale
  (`GovernanceReach.SettledChangesIffThreatened`); otherwise it stays as it is
  (`GovernanceReach.SettledForGood`). A cleanup run that read an action before its
  execution was stored does overwrite it
  (`GovernanceReach.CleanupOverwritesExecuted`).
- Not every execution leaves `requested`: one with a resolved signer who may not
  give the approval (or an approval with no wallet) stays, and nothing else does
  (`GovernanceRuns.ExecutionSettlesUnlessRejected`).
- Following page cursors uses up, page by page, the actions there at the start and
  those inserted later below a cursor already handed out
  (`GovernancePaging.PagesAreBounded`), so it ends unless such late inserts keep
  coming, and with them any length occurs
  (`GovernancePaging.LateArrivalsAllowEveryLength`). With a clock that never goes
  back the only late inserts are stamped with the very instant of the first call
  (`GovernancePaging.ClockedWalkTerminates`).
- A service request can be accepted twice if and only if the nonce ttl is at most
  twice the clock skew (`ServiceAuth.RepeatsIffTtlTooShort`), as long as the
  nonce store is never full (`NonceStore.CapacityIsNeeded`).
- A re-drive confirms an oracle trigger rightly while the clock does not go back
  (`OracleMachine.RedriveConfirmsRightly`). Whatever the clock shows, a re-drive of
  an exhausted trigger whose trade is still at its source confirms it wrongly if
  and only if it is a finalization and the reading is not after the end of the
  dispute window (`OracleReach.RedriveConfirmsWronglyIff`), which then takes a
  clock that went back; such a run exists (`OracleReach.ClockMustNotGoBack`).

The in-memory execution lock (gateway/src/executor/governanceExecutor.ts:125-131)
runs its handler without excluding anyone; `GovernanceMachine` models the
Postgres lock (lines 106-123), and its results do not carry over to the
in-memory one.

## Model

| member | source | states |
|---|---|---|
| Texts.LexTotal | ricardian/src/utils/canonicalize.ts:18 | The order in which keys are sorted is total: of two different texts one comes first. |
| JsonText.UnquoteEscape | ricardian/src/utils/canonicalize.ts:64 | A quoted string can be read back: unquoting what quoting made of a text, with anything after it, gives the text and the rest. |
| JsonText.EscapeIsStringBody | ricardian/src/utils/canonicalize.ts:64 | Every quoted text is a JSON string in the form of section 7 of RFC 8259 that is also well-formed UTF-16: control characters, quotes, backslashes and lone surrogates appear only as escapes. |
| JsonText.PrintUnique | ricardian/src/utils/canonicalize.ts:63-65 | Printed JSON is uniquely decodable: if two values print to texts that agree up to what follows them, the values and the remainders are equal. |
| Canonicalize.OrderedUnique | ricardian/src/utils/canonicalize.ts:18-35 | Two own-key-ordered member lists with the same members are the same list, so printing depends on the set of members alone. |
| Canonicalize.OwnKeysInOrder | ricardian/src/utils/canonicalize.ts:17-36 | In every canonical object the keys that spell an array index (at most 2^32 - 2) come first, in the order of their numbers, and the others follow in code-unit order. |
| Canonicalize.ThrowsIffMeaningless | ricardian/src/utils/canonicalize.ts:38-61 | Canonicalization throws exactly on payloads that denote no JSON value (a non-finite number, an unsupported type). |
| Canonicalize.SameCanonicalIffSameMeaning | ricardian/src/utils/canonicalize.ts:13-61 | Two payloads have the same canonical form exactly when they denote the same JSON value, objects being maps without their undefined members. |
| Canonicalize.SameTextIffSameMeaning | ricardian/src/utils/canonicalize.ts:63-65 | Two payloads have the same canonical JSON string exactly when they denote the same JSON value up to key order and undefined members. |
| Canonicalize.CanonicalIdempotent | ricardian/src/utils/canonicalize.ts:38-61 | Canonicalizing a canonical payload changes nothing. |
| Ricardian.CanonicalizeValue | ricardian/src/utils/canonicalize.ts:38-61 | The recursive descent computes the canonical form, throwing where there is none. |
| Ricardian.CanonicalizeArray | ricardian/src/utils/canonicalize.ts:13-15 | Entries are canonicalized in order; the first unsupported one throws. |
| Ricardian.CanonicalizeObject | ricardian/src/utils/canonicalize.ts:17-36 | The loop over sorted keys, skipping undefined members and defining the rest, ends with the canonical member list. |
| Ricardian.SamePreimageIffSameRequest | ricardian/src/utils/hash.ts:18-36 | Two accepted requests hash the same text exactly when they have the same document reference and the same metadata and terms as JSON values. |
| Ricardian.PreimageThrowsIff | ricardian/src/utils/hash.ts:18-36 | A request is refused exactly when its document reference is blank, its terms are neither object nor array, or its metadata or terms denote no JSON value. |
| NonceStore.InMemoryNonceStore.PruneExpired | shared-auth/nonceStore.js:20-26 | Exactly the entries that expire after the given time remain, in order. |
| NonceStore.InMemoryNonceStore.CapStoreSize | shared-auth/nonceStore.js:28-36 | The oldest entries are dropped until the cap is met. |
| NonceStore.InMemoryNonceStore.Consume | shared-auth/nonceStore.js:39-56 | A blank argument or non-positive ttl throws and changes nothing; otherwise the store prunes, refuses a live nonce, or records it and caps. |
| NonceStore.EvictsOnlyOldest | shared-auth/nonceStore.js:28-56 | After a consume the size is within the cap, and at most one live entry is gone: the one inserted first, and only if the store was full. |
| NonceStore.SameAnswersAsHistory | shared-auth/nonceStore.js:39-56 | While fewer than `maxEntries` nonces are live at each acceptance, the pruned and capped store answers every request as the full acceptance history would. |
| NonceStore.CapacityIsNeeded | shared-auth/nonceStore.js:28-36 | The capacity bound is exact: one acceptance into a full store makes it accept a nonce that the history still refuses. |
| ServiceAuth.Authenticate | shared-auth/serviceAuth.js:184-276 | The answer and new store of one request; the answer is the one its headers, keys, signature, clock reading and stored nonces call for (next rows), and only an accepted request adds a nonce. |
| ServiceAuth.AnswerIsRight | shared-auth/serviceAuth.js:90-284 | Every answer means what it says: an authenticated request carries a known active key (or the shared secret), a timestamp in the window, the nonce given or derived, not in use, and a signature agreeing with the HMAC, under that principal's secret, of its own verb, path, query, body digest, timestamp and nonce; each denial code names the first condition that fails. |
| ServiceAuth.OneAnswer | shared-auth/serviceAuth.js:184-284 | No two answers fit one request, so each answer, acceptance included, is given if and only if its condition holds. |
| ServiceAuth.HexEqualsIffSameDigits | shared-auth/serviceAuth.js:120-129 | Signatures agree exactly when both are 64 hexadecimal digits of the same values, upper or lower case. |
| ServiceAuth.SignedTextTellsApart | shared-auth/serviceAuth.js:240-256 | The signed text determines verb, path, query, body digest, timestamp and nonce, for parts without line breaks. |
| ServiceAuth.SkewWindowWithinTtl | shared-auth/serviceAuth.js:211-215 | Two clock readings that accept one timestamp are less than a ttl apart when the ttl exceeds twice the skew. |
| ServiceAuth.RepeatsIffTtlTooShort | shared-auth/serviceAuth.js:205-268 | Under any policy that authenticates some request, a run with a forward clock and capacity to spare accepts one triple twice if and only if the ttl is at most twice the skew. |
| ServiceAuth.RememberedIsRefused | shared-auth/serviceAuth.js:258-268 | A recorded nonce is not accepted again before its entry expires. |
| ServiceAuth.NoTripleAcceptedTwice | shared-auth/serviceAuth.js:205-268 | Over any run with ttl above twice the skew and capacity to spare, no (principal, timestamp, nonce) triple is accepted twice. |
| RateLimiter.InMemoryRateLimitStore.IncrementAndGet | ricardian/src/rateLimit/limiter.ts:69-88 | An expired or missing bucket restarts at one for a full window; a running one counts up and keeps its expiry. |
| RateLimiter.EvaluateRoute | ricardian/src/rateLimit/limiter.ts:267-309 | The burst window is counted first, the sustained one only if burst lets the request through; the verdict names the window at fault. |
| RateLimiter.VerdictReportsItsWindow | ricardian/src/rateLimit/limiter.ts:267-309 | The verdict's count and reset time are those of the window that stopped the request, or of the sustained one: the count of its stored bucket, a limit exceeded exactly if limited, and the positive time after which the bucket starts afresh. |
| RateLimiter.RouteBucketUnique | ricardian/src/rateLimit/limiter.ts:70 | Bucket keys of different callers, window kinds or window lengths differ, whatever characters a caller key holds. |
| RateLimiter.OwnRequest | ricardian/src/rateLimit/limiter.ts:267-309 | A request limited by the burst window leaves the caller's sustained bucket untouched; otherwise both count it. |
| RateLimiter.OtherRequest | ricardian/src/rateLimit/limiter.ts:69-88 | Another caller's request leaves a caller's buckets alone. |
| RateLimiter.AtMostTwiceTheLimit | ricardian/src/rateLimit/limiter.ts:267-309 | In any closed interval of one window length a caller gets at most twice the limit admitted, for either window, over any run with other callers. |
| RateLimiter.TwiceTheLimitIsReached | ricardian/src/rateLimit/limiter.ts:69-88 | For every limit, window length and kind some run gets exactly twice the limit in a closed interval of one window length. |
| RateLimiter.HalfOpenBound | ricardian/src/rateLimit/limiter.ts:267-309 | In an interval of one window length without its end a caller gets at most twice the limit less one (the limit alone for a window of one second), over any run. |
| RateLimiter.HalfOpenIsReached | ricardian/src/rateLimit/limiter.ts:69-88 | That bound is attained for every limit, window length and kind. |
| Governance.SameKeyIffSameFields | gateway/src/core/governanceStore.ts:145-180 | For fields free of the separator, two intent keys are equal exactly when all normalized fields are, the wallet counting only for approval methods. |
| Governance.WalletSeparatesApprovalsOnly | gateway/src/core/governanceStore.ts:174-178 | Changing only the wallet changes the key exactly when the method is an approval and the normalized wallets differ. |
| GovernanceRoutes.RouteIntentsAreBarFree | gateway/src/routes/governanceMutations.ts:96-459 | Every intent a mutation route can build has no separator in any field of its key. |
| GovernanceRoutes.SameKeyIffSameRequest | gateway/src/core/governanceMutationService.ts:118-136 | Two requests on any routes share an intent key exactly when they have the same method, proposal and target up to case, and for approvals the same wallet up to case. |
| GovernanceRoutes.QueuedAlikeIffSameRoute | gateway/src/routes/governanceMutations.ts:96-459 | The keys two requests get in the queue are equal exactly when they came by the same route with the same proposal and address up to case, and for approval routes from the same wallet up to case. |
| GovernanceRoutes.RoutesCanBeExecuted | gateway/src/executor/adminSdkGovernanceChainExecutor.ts:70-137 | Every action a route queues can be called on chain, needs a wallet's approval exactly for the approval routes, and once landed gets a status its route allows. |
| GovernanceRoutes.CategoriesFitMethods | gateway/src/routes/governanceMutations.ts:96-459 | The category of a route goes with its method: one for each method that stands alone, one for the whole life of each kind of proposal. |
| Governance.SortedActions | gateway/src/core/governanceStore.ts:521-529 | The listing holds exactly the stored actions, newest first, identifiers breaking ties. |
| GovernancePaging.List | gateway/src/core/governanceStore.ts:552-580 | A page is the newest `limit` matching actions below the cursor, in order, with a next cursor exactly when matching actions remain. |
| GovernancePaging.PagesDescend | gateway/src/core/governanceStore.ts:552-580 | All pages of a walk in sequence are strictly descending in (createdAt, actionId), whatever is inserted in between. |
| GovernancePaging.WalkReturnsEveryActionOnce | gateway/src/core/governanceStore.ts:261-271 | Following next cursors to null returns every matching action that was there throughout exactly once, for filters on immutable fields, even with inserts between pages. |
| GovernancePaging.PagesAreBounded | gateway/src/core/governanceStore.ts:261-271 | For every walk that still has a next cursor, everything returned was there at the start or inserted late (below the cursor then in force), and pages times `limit` is at most the actions there at the start plus the late ones. |
| GovernancePaging.WalkTerminates | gateway/src/core/governanceStore.ts:261-271 | Without late inserts the actions there at the start bound the walk, so following cursors ends under all other inserts. |
| GovernancePaging.ClockedWalkTerminates | gateway/src/core/governanceMutationService.ts:163-189 | With inserts stamped by a clock that never goes back the bound exceeds the start's actions only by inserts stamped with the very instant of the first call, and not at all once the first page's boundary is older. |
| GovernancePaging.LateArrivalsAllowEveryLength | gateway/src/core/governanceStore.ts:261-271 | For every n there is a walk of n pages over a store that began with two actions, with at least n - 2 late inserts. |
| GovernanceExecution.LandedIsAlwaysRecorded | gateway/src/executor/governanceExecutor.ts:387-465 | Whatever lands on chain gets a status that is neither `requested` nor `submitted`: table, resolver and fallback together never throw, and reconciliation is marked only for approvals. |
| GovernanceExecution.ClosingIsRight | gateway/src/executor/governanceExecutor.ts:69-105 | Every call is closed by the record that the action's method, the SDK's reply and the chain's answers call for: after a landed approval executed, cancelled or expired by the proposal's flags in that order, otherwise approved if and only if the approvals reach the requirement; the other methods, unreadable proposals, failures and timeouts likewise, each with its audit event. |
| GovernanceExecution.OneClosing | gateway/src/executor/governanceExecutor.ts:226-262 | Only one record and one audit event fit, so the condition determines both. |
| GovernanceExecution.ClosingLeavesRequested | gateway/src/executor/governanceExecutor.ts:226-262 | Every chain call, landed, failed or timed out, is closed by a record that has left `requested` and one audit entry with the same status. |
| GovernanceQueue.GovernanceService.FindOpenByIntentKey | gateway/src/core/governanceStore.ts:542-550 | The newest live action with the key is found, and none only if there is none. |
| GovernanceQueue.GovernanceService.SaveQueuedActionWithIntentDedupe | gateway/src/core/governanceWriteStore.ts:268-284 | A live action with the key is reused and logged as a duplicate; otherwise the new one is stored and logged as queued. |
| GovernanceQueue.GovernanceService.QueueAction | gateway/src/core/governanceMutationService.ts:162-256 | The request is recorded with its own fields, its key and its deadline, or answered with the live action it duplicates. |
| GovernanceQueue.GovernanceService.ExecuteAction | gateway/src/executor/governanceExecutor.ts:144-282 | The new store, audit log and reply after one execution, in every branch; the reply is the one the stored action, the clock, the signer and the chain call for (next row). |
| GovernanceQueue.ExecutionIsRight | gateway/src/executor/governanceExecutor.ts:144-282 | A settled action is returned as it is; an expired one is stored stale, one without signer failed, a refused signer or missing wallet leaves the actions as they were; an admitted one is stored with the one closing record that fits, after its start and outcome are logged. Each writes that action alone. |
| GovernanceQueue.GovernanceService.ListRequestedExpired | gateway/src/core/governanceStore.ts:582-596 | The newest expired requests, at most `limit`, and all of them if there is room. |
| GovernanceQueue.GovernanceService.CleanupApply | gateway/src/core/governanceCleanupService.ts:68-92 | Exactly the candidates are marked stale, each with its audit entry, and all expired requests if they are fewer than `limit`. |
| GovernanceQueue.CleanupTouchesCandidatesOnly | gateway/src/core/governanceCleanupService.ts:73-83 | Cleanup turns each candidate into its stale record and leaves every other action as it was. |
| GovernanceRuns.AtMostOneLive | gateway/src/core/governanceWriteStore.ts:268-284 | At every moment of every run of atomic calls each intent key has at most one live action. |
| GovernanceRuns.AuditMatchesStore | gateway/src/executor/governanceExecutor.ts:250-385 | In every state of every run each stored action has one `queued` entry and no transition entry while requested, then exactly one, with its status. |
| GovernanceRuns.SettledForGood | gateway/src/executor/governanceExecutor.ts:151-153 | Once an action has left `requested`, no later call of a run changes it. |
| GovernanceRuns.ExecutionSettlesUnlessRejected | gateway/src/executor/governanceExecutor.ts:144-282 | With successful writes an execution leaves a request `requested` exactly when it is unexpired, its signer resolved, and the signer may not give the approval. |
| GovernanceMachine.StepKeepsInv | gateway/src/executor/governanceExecutor.ts:106-123 | Every step of every party keeps locks, snapshots, cleanup views and call budgets consistent. |
| GovernanceAlone.AloneIsWhole | gateway/src/executor/governanceExecutor.ts:144-282 | From every state the uninterrupted steps of an executor leave the stored actions as the whole call does, and the lock free: the two models of an execution agree. |
| GovernanceAlone.CandidateAlone | gateway/src/core/governanceCleanupService.ts:73-83 | From every state the uninterrupted read and write of a cleanup candidate do what the whole call does with it. |
| GovernanceMachine.CallsAreBounded | gateway/src/executor/governanceExecutor.ts:144-282 | In any interleaving with cleanup, lost writes and crashes, an action's chain calls exceed its lost results by at most one. |
| GovernanceMachine.AtMostOneCall | gateway/src/executor/governanceExecutor.ts:144-282 | If no result is lost, no action is executed on chain twice. |
| GovernanceReach.EveryLossAllowsACall | gateway/src/executor/governanceExecutor.ts:270-280 | For every n some run loses n results of an action and calls it n + 1 times. |
| GovernanceReach.CanBeCalledIffNotDead | gateway/src/executor/governanceExecutor.ts:144-282 | From every reachable state a stored action, locked or not, can be called on chain again if and only if it is requested, before its deadline and signable, or its lock holder has signed or loaded a signable version of it. |
| GovernanceMachine.OnTimeRunsKeepOneLive | gateway/src/executor/governanceExecutor.ts:155-157 | If executions are stored before their action's deadline, every interleaving keeps at most one live action per intent key. |
| GovernanceReach.OneLiveAtRiskIffLateWrite | gateway/src/core/governanceStore.ts:182-186 | From every reachable state with one live action per key, storing and queueing at that instant can make two of one key if and only if an executor is about to store an open status past its action's deadline. |
| GovernanceReach.SettledChangesIffThreatened | gateway/src/executor/governanceExecutor.ts:144-282 | From every reachable state some continuation changes a settled action if and only if an executor on it has yet to decide or is about to write a different record, or a cleanup run holds a version that differs once marked stale. |
| GovernanceReach.SettledForGood | gateway/src/executor/governanceExecutor.ts:151-153 | Once an action has left `requested` and nothing of that kind is open, no interleaving changes it. |
| GovernanceReach.CleanupOverwritesExecuted | gateway/src/core/governanceCleanupService.ts:73-83 | A run in which cleanup, having read the action before its execution was stored, marks the executed action stale. |
| Oracle.ActionKeyTellsApart | oracle/src/utils/crypto.ts:4-6 | Action keys of different trigger types or trades differ. |
| OracleRetry.CalculateBackoff | oracle/src/utils/crypto.ts:71-101 | Every backoff lies between the delay doubled per attempt, capped, and the cap, and adds less than a second of jitter. |
| OracleRetry.EveryJitterIsDrawn | oracle/src/utils/crypto.ts:71-101 | Every whole number below the jitter's limit is drawn by some random number. |
| OracleRetry.TriggerTable.ApproveTrigger | oracle/src/database/queries.ts:184-197 | The compare-and-set approves exactly a trigger that awaits approval and touches no other. |
| OracleRetry.TriggerTable.RejectTrigger | oracle/src/database/queries.ts:200-214 | The compare-and-set rejects exactly a trigger that awaits approval and touches no other. |
| OracleRetry.ExecuteWithRetry | oracle/src/core/trigger-manager.ts:348-466 | The loop throws only if `maxAttempts` is 0; otherwise it stops at the first attempt that does not retry, makes at most `maxAttempts` calls, stores the status it returns, and sleeps fewer than `maxAttempts` times within bounds. |
| OracleRetry.TotalSleep | oracle/src/core/trigger-manager.ts:447-457 | Sleeps within bounds last in total at most their number times the cap. |
| OracleRetry.SubmittedIffLands | oracle/src/core/trigger-manager.ts:351-459 | The loop ends submitted exactly when some attempt lands before any fails for good, and exhausted exactly when every attempt is retryable. |
| OracleConfirmation.ConfirmationWorker.CheckConfirmation | oracle/src/worker/confirmation-worker.ts:116-229 | A poll confirms exactly if a throttled check saw the trade away from its source or the event is indexed within the hard timeout, gives up exactly if it is past that timeout and saw no advance, and updates the throttle for that trade alone. |
| OracleConfirmation.SettledByFirstDecisiveLook | oracle/src/worker/confirmation-worker.ts:66-89 | Over any polls and throttle answers a trigger with a transaction stays submitted exactly until its first decisive poll, which settles it for good. |
| OracleConfirmation.SettledByHardTimeout | oracle/src/worker/confirmation-worker.ts:142-177 | The first poll past the hard timeout settles it at the latest, as given up exactly if no poll was decisive before and this one saw no advance. |
| OracleConfirmation.CheckedIff | oracle/src/worker/confirmation-worker.ts:231-243 | Over any polls a poll checks the trade on chain exactly when the trigger is at least twenty minutes old and the trade's last check, if any, at least five minutes ago. |
| OracleConfirmation.ChecksAreSpaced | oracle/src/worker/confirmation-worker.ts:231-243 | Two on-chain checks of one trade are at least the minimum interval apart over any sequence of polls. |
| OracleMachine.TriggersFollowTrades | oracle/src/core/trigger-manager.ts:86-122 | In every reachable state each trigger's trade is at or past its source status, strictly past once submitted or confirmed by any route, and the fallback's inequality test says exactly that. |
| OracleMachine.RedriveConfirmsRightly | oracle/src/core/trigger-manager.ts:154-206 | A re-drive's validation fails exactly when the trade has left the source for good, so confirming then is right. |
| OracleAttempts.CallsAreBudgeted | oracle/src/core/trigger-manager.ts:348-466 | In any interleaving an action reaches the contract call at most `maxAttempts` times for each start of its loop by a request, re-drive or approval. |
| OracleAttempts.NoCallsAfterAdvance | oracle/src/core/trigger-manager.ts:360-371 | Once the trade has left the action's source, a loop calls at most once more, and only if it had validated before; loops started later never call. |
| OracleAttempts.AtMostOneActiveRow | oracle/src/database/schema.sql:106-109 | In every reachable state at most one row of an action is active, so the statements outside the unique index never make an inactive row active. |
| OracleReach.BudgetIsAttained | oracle/src/core/trigger-manager.ts:144-182 | For every number of starts some run of re-drives reaches the contract exactly `maxAttempts` times for each. |
| OracleReach.PollIsReached | oracle/src/worker/confirmation-worker.ts:116-229 | Every outcome a confirmation poll may have is reached by machine steps that touch only that row. |
| OracleReach.PollConfirmsRightly | oracle/src/worker/confirmation-worker.ts:245-256 | A poll that reads the chain truly confirms only triggers whose trade is past the source. |
| OracleReach.SubmittedHasTransaction | oracle/src/core/trigger-manager.ts:373-378 | In every reachable state a submitted trigger has its transaction hash. |
| OracleReach.AttemptsAreCounted | oracle/src/core/trigger-manager.ts:348-466 | In every reachable state stored attempt counts are within the limit, positive while executing or failed, and below the limit for a row that is to be tried again. |
| OracleReach.RedriveConfirmsWronglyIff | oracle/src/core/state-validator.ts:58-80 | From every reachable state with an exhausted trigger whose trade is still at its source, and for every clock reading, the re-drive confirms it wrongly if and only if it is a finalization and the reading is at or before the end of the dispute window. |
| OracleReach.ClockMustNotGoBack | oracle/src/core/trigger-manager.ts:186-206 | Such a run exists from the start: a confirmed finalization whose trade was never finalized. |
| Idempotency.HandleRequest | gateway/src/middleware/idempotency.ts:53-134 | The new records and the reply, which is the one the key, the stored record and the request's own fields call for: missing key, handler run under a new record, conflict, replay, or in progress. |
| Idempotency.MissingKeyIffBlank | gateway/src/middleware/idempotency.ts:53-58 | A request is turned away for its key exactly when that is absent or blank, and nothing changes. |
| Idempotency.RepliesCompareFields | gateway/src/core/idempotencyStore.ts:66-74 | In every run a request with a reserved key conflicts if and only if its verb, path or raw body differs from those of the request that reserved it, and otherwise replays its response or waits; with no record the handler runs. The digest is taken not to collide on the two requests. |
| Idempotency.HandleFinish | gateway/src/middleware/idempotency.ts:120-131 | A response of 500 or above releases a pending record; any other completes it, throwing only if there is none. |
| Idempotency.RunsAreBalanced | gateway/src/middleware/idempotency.ts:52-135 | In every interleaving a key's handler runs are its failed runs plus one if it has a record, runs never overlap, and at most one succeeds. |
| Idempotency.FinishFindsPendingRecord | gateway/src/core/idempotencyStore.ts:221-234 | A finishing handler always finds its own pending record, so completing never throws. |
| Idempotency.CompletedForGood | gateway/src/core/idempotencyStore.ts:236-243 | A stored response is never changed or removed, and the handler never runs again for its key. |
| Idempotency.LaterRequestsReplay | gateway/src/middleware/idempotency.ts:70-91 | After a response below 500, every later request with the key gets that response if verb, path and raw body are those of the request that reserved it, and a conflict otherwise, and changes nothing; the digest is taken not to collide on the two. |
| Indexer.Batch.GetOrLoadTrade | indexer/src/main.ts:205-218 | Loading a trade into the cache returns what the database would hold and changes nothing visible. |
| Indexer.Batch.Handle | indexer/src/main.ts:62-183 | Handling an event against the caches equals applying it to the database with the caches written back. |
| Indexer.IndexBatch | indexer/src/main.ts:20-202 | A batch leaves the database as if each of its events had been applied by itself. |
| Indexer.Run | indexer/src/main.ts:20-202 | Successive batches leave the database as their specification says, which is the one-event fold of the flattened stream. |
| Indexer.SplitMakesNoDifference | indexer/src/main.ts:190-199 | Two splits of one chain of blocks into batches give the same trades, proposals and logs. |
| Indexer.KnownIffLocked | indexer/src/main.ts:222-318 | A trade is known exactly when some event locked it. |
| Indexer.TradeIsWhatItsEventsSay | indexer/src/main.ts:222-556 | The whole record in closed form: terms and creation time from the last lock, status from the last event that sets it, arrival from the last lock or arrival, wherever in the stream they are. |
| Indexer.KnownTradeHasLastEvents | indexer/src/main.ts:222-556 | Every known trade has such last events, so the closed form covers it. |
| Indexer.TradeLogIsKnownEvents | indexer/src/main.ts:296-318 | The trade log holds exactly the trade events whose trade was locked by then, in stream order; the others are dropped. |
| IndexerProposals.ProposalIsWhatItsEventsSay | indexer/src/main.ts:560-1153 | Every stored proposal in closed form: opener, subject and times from its last opening, approval count from the last approval since, executed and cancelled from whether such an event came since. |
| IndexerProposals.StoredIffOpened | indexer/src/main.ts:560-1153 | A proposal is stored exactly when some event of the stream opened it. |
| IndexerProposals.LogsAreTheirEvents | indexer/src/main.ts:560-1153 | Each log holds exactly its events in stream order, those of a proposal only once it was opened and those of a dispute only for a locked trade. |
| Treasury.IngestOnce | treasury/src/core/ingestion.ts:17-100 | A run books a stretch of the stream from the stored offset, at most the limit, up to what was indexed when it began; it crashes exactly where told, also at a fetch or before the offset is stored, and the offset moves only if it does not. |
| Treasury.TreasuryDatabase.UpsertLedgerEntryWithInitialState | treasury/src/database/queries.ts:49-138 | The entry is written under its key and gets an initial payout state only if it has none. |
| Treasury.TreasuryDatabase.AppendPayoutState | treasury/src/api/controller.ts:89-122 | A payout state is appended exactly when the latest one, or the initial one if there is none, allows it by the steps to payment or a cancellation; other entries keep their histories. |
| Treasury.HistoryShape | treasury/src/core/payout.ts:3-15 | A payout is paid only after review, release and processing, and nothing follows a paid or cancelled state. |
| Treasury.HistoriesAre | treasury/src/core/payout.ts:3-15 | The possible histories are exactly the steps to payment as far as they have come, and those cancelled before it. |
| Treasury.KeysTellApart | treasury/src/core/ingestion.ts:10-12 | Entry keys of different events or components differ. |
| Treasury.LedgerCoversPrefix | treasury/src/core/ingestion.ts:17-100 | After any number of runs crashing anywhere, the ledger is that of a prefix of the stream at least as long as the stored offset. |
| Treasury.LedgerIsOfItsEvents | treasury/src/core/ingestion.ts:31-87 | In every reachable state each first-stage release with a logistics amount and each platform fee payment with a fee, if it has a transaction hash, is booked under its own trade, transaction, block, component and amount, and nothing else is in the ledger. |
| Treasury.IngestedIsBooked | treasury/src/core/ingestion.ts:31-87 | An ingestion run books every event of its stretch that owes an amount so, and leaves every other entry alone. |
| Treasury.PayoutsOnlyGrow | treasury/src/database/queries.ts:105-124 | No ingestion, replayed or not, changes a payout history, and payout steps only extend it. |
| Treasury.BooksBalance | treasury/src/core/ingestion.ts:31-87 | In every reachable state the ledger has exactly one entry per event of that prefix that owes an amount, and per component its amounts add up to what those events' own fields owe. |
| Classifier.ClassifyDrifts | reconciliation/src/core/classifier.ts:82-215 | The findings are those of the failing comparisons, in reporting order, and exactly the drifts between the two records. |
| Classifier.FindingsAreTheDrifts | reconciliation/src/core/classifier.ts:82-215 | A finding is reported exactly if the compared fields drift as its code says, with that code's severity and the values of both sides. |
| Classifier.LabelsAgreeIffSameStatus | reconciliation/src/core/classifier.ts:5-20 | A status number from the chain agrees with an indexed status exactly when it is the contract's number for it. |
| Classifier.CompareAmounts | reconciliation/src/core/classifier.ts:26-59 | The loop reports exactly the amount fields that differ, in order. |
| Classifier.NoDriftIffAgreement | reconciliation/src/core/classifier.ts:82-215 | Nothing is reported exactly when the trade was read and exists and all compared fields agree. |
| Classifier.FindingsAreDistinct | reconciliation/src/core/classifier.ts:82-215 | No (code, field) pair is reported twice and every finding is about the trade compared. |
| Reconciler.ReconcileOnce | reconciliation/src/core/reconciler.ts:64-185 | A completed or running key is skipped unchanged; otherwise the run covers the first `min(N, maxTradesPerRun)` trades and completes, or fails keeping what it stored. |
| Reconciler.FreshRunAddsUp | reconciliation/src/core/reconciler.ts:104-167 | For a fresh key and distinct trades the drift count is the sum of the severity counts and the number of drift rows, and the scope is exactly the trades covered. |
| Reconciler.FreshRunStoresTheDrifts | reconciliation/src/core/reconciler.ts:104-167 | Under a fresh key exactly the drifts of the covered trades are stored, each in a row of its own with its severity and both values, rows of other runs are left alone, and each severity is counted right. |
| Reconciler.OccurrencesAreCounted | reconciliation/src/database/queries.ts:25-59 | Under fresh and used keys alike a row's occurrences grow by the number of times its drift is seen. |
| Reconciler.RowsAreFindings | reconciliation/src/database/queries.ts:25-59 | Upserting distinct findings under a fresh key stores one row for each, and no other. |
| Compliance.ComplianceService.CreateDecision | gateway/src/core/complianceService.ts:310-348 | The decision is saved with the input's own trade, result, reason and override window, under its identifier, with a time after the trade's latest one. |
| Compliance.ComplianceService.BlockOracleProgression | gateway/src/core/complianceService.ts:350-394 | The new block record and answer, in every branch. |
| Compliance.ComplianceService.ResumeOracleProgression | gateway/src/core/complianceService.ts:396-467 | The new block record and answer, in every branch. |
| Compliance.LatestIsNewest | gateway/src/core/complianceStore.ts:555-565 | The latest decision is the maximum of the trade's decisions by time, identifiers breaking ties. |
| Compliance.RunsStaySound | gateway/src/core/complianceService.ts:285-296 | Whatever the clock does, decisions on a trade get strictly increasing times, so the latest is the one recorded last. |
| Compliance.LastRecordedIsLastCreate | gateway/src/core/complianceService.ts:310-348 | Over any run the decision recorded last on a trade has the identifier, result, reason and override window of the trade's last `Create` call. |
| Compliance.ResumeSucceedsIff | gateway/src/core/complianceService.ts:396-467 | Over any run a resume succeeds if and only if the trade is blocked and its last `Create` call had result ALLOW, is the one named (if any), and, if it used an override, a window still open. |
| Compliance.ResumeSucceedsByLast | gateway/src/core/complianceService.ts:396-467 | The same in terms of the stored decisions; the missing-status error never arises and a refused resume changes nothing. |
| Compliance.ResumeMeans | gateway/src/core/complianceService.ts:396-467 | Every refusal of a resume is for the reason it names; one that succeeds frees the trade under the control's reason and the last decision, keeps when it was blocked, and reports so. |
| Compliance.BlockSucceedsIff | gateway/src/core/complianceService.ts:350-394 | A block succeeds exactly when the trade is not blocked and has the decision named, or any if none is; the missing-status error never arises. |
| Compliance.BlockMeans | gateway/src/core/complianceService.ts:350-394 | Every refusal of a block is for the reason it names; one that succeeds holds the trade under the control's reason and the decision named, or the last one. |
| Compliance.BlockedIff | gateway/src/core/complianceService.ts:350-467 | Over any run a trade is blocked exactly when some block of it succeeded and no resume of it has since. |
| Compliance.StatusReports | gateway/src/core/complianceStore.ts:631-654 | A trade's status reports its last decision and whether it is blocked, and there is one as soon as there is a decision. |
| Compliance.UnblockedOnlyByResume | gateway/src/core/complianceService.ts:396-467 | Over any run a blocked trade stays blocked, whatever decisions are recorded, until a resume of that trade succeeds. |

## Left out

- Escrow contract: only its documented status moves appear, as steps of the environment; the SDK wrappers that forward calls are left out.
- Cryptography: SHA-256, HMAC and signatures are parameters; random identifiers are fresh values.
- Redis and Postgres drivers, GraphQL clients, timeouts, HTTP wiring, configuration, logs and metrics: only conflict keys, unique indexes and compare-and-set guards are kept.
- Canonicalize: payloads with cycles, getters, sparse arrays or symbols; the two error texts are one `Throws`; `-0` and `0` are one number, as JSON prints them.
- JsonText: number formatting is abstract: tokens that are equal exactly when the numbers are.
- Texts: case folding and trimming are parameters wherever the source uses them; blankness is tested with the full set of characters `trim()` removes.
- Governance.SortedActions: the in-memory store sorts with `localeCompare` and cursors compare with `<`; the model uses code-unit order for both, which agree on ISO timestamps and lower-case UUIDs.
- Governance.SameKeyIffSameFields: proposal and chain numbers are natural numbers rendered in decimal, so numbers of 10^21 and above, which JavaScript renders with an exponent, are not covered.
- GovernanceRoutes: target addresses and session wallets are taken to be non-empty plain letters and digits, which the address validator and the login check ensure; reading an address from the chain is a parameter of the route.
- GovernancePaging.WalkReturnsEveryActionOnce: says nothing for a status filter, because a status can change between pages; cursors are values, not their base64url text.
- GovernancePaging.ClockedWalkTerminates: takes an action's time to be that of its insert; the source reads the clock just before it stores, so a request in flight during a call may still arrive below a cursor only as old as itself, which `PagesAreBounded` counts as late.
- GovernanceQueue: store and audit writes succeed together, as in the Postgres transaction; request fields that no decision reads (reasons, tickets, evidence links, request identifiers, error texts) are not carried.
- GovernanceQueue.GovernanceService.ListRequestedExpired: models the in-memory store, which takes the newest expired requests; the Postgres store takes those that expired first (gateway/src/core/governanceStore.ts:492).
- GovernanceMachine: the audit log and in-memory lock are not part of the machine; the `queued` write is one step because the source holds an advisory lock on the intent key around it.
- Oracle: trade identifiers are natural numbers, so identifiers with leading zeros, which the source treats as different action keys of one trade, are not covered.
- OracleRetry: table writes are taken to succeed; how an error's text decides whether it is terminal is a parameter.
- OracleMachine: that an action lands on chain at most once follows from the contract's own status check and is not claimed as the oracle's doing; which row of the action key a conflicting insert reuses is left open (any row), as are ages and indexer answers, so the result holds for every choice; it does not claim that a confirmed trigger's own transaction was the one that moved the trade.
- Idempotency: how the middleware captures the body, and headers other than the content type; replay times. A handler that never finishes leaves its key pending for ever, in the source as in the model; no liveness is claimed.
- Idempotency.LaterRequestsReplay: assumes that the digest does not collide on the request and the one that reserved its key, as does `RepliesCompareFields`; SHA-256 is a parameter.
- Indexer: an upsert is taken to replace the whole row; events whose handlers only write a log are one event kind each; dispute outcomes are not decoded; a handler that throws half way is not modelled; equality with the contract's status across a finalized dispute is not claimed, since no handler closes the trade then.
- Treasury: the indexer's order by block number is taken to be stable and append-only; concurrent runs and concurrent payout steps are not modelled, since the source reads and writes without a lock.
- Reconciler: the trades the indexer returns stay the same during a run; a failure strikes between trades; run keys are given.
- Compliance: input validation, audit records and decision paging; calls on one trade are taken one at a time, since the source reads and writes without a lock.
- Auth sessions, notifications, trade read mapping, report ordering, generated types and API documents would only add easy members.
