# A verified model of the gateway platform's protocols

The gateway platform meters requests to upstream model providers, bills them against tenant wallets, publishes account
snapshots to its gateways, leases jobs to external workers and translates requests and streams between protocols. This
project models the parts of it that promise something about whole runs, and proves those promises for all inputs and
all interleavings. `dafny verify dfyconfig.toml` checks everything.

**Money** (`Decimal`, `BillingPolicy`, `BillingModel`, `BillingRuns`, `BillingReplay`, `BillingCounts`, `BillingLaws`,
`BillingStore`, `Reconciliation`). Amounts are integers counting units of 10^-12; exact costs are reals. `BillingModel` states each
committed transaction as a function on the tables, with an error meaning that nothing changes; `BillingStore` holds the
same transactions as methods that update the tables in place, proved equal to those functions, and `BillingCounts` says
what the numbers a run reports mean. `BillingLaws` says, without those functions, what each transaction does to every
field. `BillingRuns` proves an invariant of every reachable state and from it conservation;
`BillingReplay` proves exactly which bills replay forever; `Reconciliation` proves what the three-way report computes, that
it is clean in every reachable state, and how its two totals then differ. Steps are what the platform offers: wallet
movements from outside are top-ups and adjustments, run ids are not empty, the clock never runs backwards, and a price is
taken to be inserted at the very instant its start is compared with. `Decimal` treats the number texts of section 6 of
RFC 8259 that money arrives in.

**Snapshots and quotas** (`SnapshotProtocol`, `QuotaOutbox`, `Fencing`). Publishing is one atomic step, loading is four
reads between which anything may happen. The quota publisher edits what it loaded and publishes at the loaded epoch. A
committed quota waits in an outbox row guarded by the account's fence. Credential rotation is two conditional statements
under row locks, against re-imports that move the fence and write a credential of their own.

**Wrapper jobs** (`WrapperQueue`). Every Redis call of every worker is a step of its own; lease keys may expire at any time.

**Metering** (`AttemptLedger`, `AttemptDelivery`, `MemoryLedger`). The ledger's transactions, at-least-once delivery of
their events with crashes between any two calls, and the in-memory ledger compared with the database one.

**Streams and protocols** (`KiroStream`, `SseConverter`, `Requests`, `RequestFields`, `RequestRoundTrip`, `Converters`). The
splitter of concatenated JSON objects (strings follow section 7 of RFC 8259), the streaming converter, and the
OpenAI/Anthropic request converters over decoded values, with what an accepted request becomes and exactly which are accepted.

**Smaller machines** (`Chooser`, `ChooserLaws`, `ConsoleLimiter`). Account selection and the console's token bucket.

`Outcomes` and `Strings` hold what the modules share.

## What the code does not promise

Some properties the documentation suggests are false of the code. The model follows the code; each has a lemma that shows
the failure and one that says exactly when the property holds.

- A bill need not replay if it was settled ahead of the instant it occurred: `RunOnce` takes any cut-off, the caller passes
  the present. `BillingReplay.FutureCutOffBreaksReplay` reaches such a bill from empty tables. A bill that replays now replays
  in every future exactly if its instant has passed, a price starts at that very instant, it has no tokens to price, or it
  names no provider or no model, which no price can match (`BillingReplay.BillFrozenExactly`).
- A load may carry a later epoch than its generation's own (`SnapshotProtocol.EmptyGenerationMisdated`), since only entries
  carry an epoch to compare. Once a load has read which version is active, it comes back with that generation's epoch or not
  at all exactly if the generation lists an account or its data has gone (`SnapshotProtocol.OwnEpochExactly`).
- Cutting a stream inside an object, more than 1 MiB after its start, loses that object and its event
  (`KiroStream.OversizedObjectIsLost`, `KiroStream.OversizedEventIsLost`). A cut never changes the events returned later exactly
  if the unfinished object there fits the limit, or nothing decodes at all (`KiroStream.CutHarmlessExactly`).
- The streamed reader accepts a response whose only text is a space; the whole-body reader refuses it
  (`KiroStream.SpaceIsStreamedOnly`). The two accept the same responses exactly if no event carries text or one carries more than white space
  (`KiroStream.AcceptanceAgreesExactly`).
- The in-memory ledger is documented to apply the same rules as the database ledger. It records a release whose attempt has
  not started, which the database refuses (`MemoryLedger.OvertakingReleaseIsLost`); the two agree exactly if every release
  follows its start (`MemoryLedger.LedgersAgreeExactly`).
- Tool calls on a user message convert to Anthropic but not back (`RequestRoundTrip.UserCallIsNotReversible`); a request comes
  back exactly if it has none (`RequestRoundTrip.RoundTrip`).
- `checkMoney` counts the places that are written, so a 1 with thirteen zeros behind the point is refused
  (`Decimal.TrailingZerosRefused`); `Decimal.CheckMoneyExact` says exactly what is accepted.
- The console's limiter promises that a refused caller that waits as the header says is not refused again at once. That holds
  of the console as it is built, at five tokens a second (`ConsoleLimiter.RetryAfterIsHonoured`), but not of a limiter built
  with a refill below one a second (`ConsoleLimiter.SlowBucketIsRefusedAgain`), because the header rounds to the nearest
  second. At any rate it holds exactly if the token needed takes at most a second, a whole number of seconds, or a time that
  rounds up (`ConsoleLimiter.HeaderIsEnoughExactly`).

## Model

| member | source | states |
|---|---|---|
| Decimal.IntegerDigitsAreTrue | internal/control/billing.go:405-433 | for every text of the number grammar the digit count is the least n with abs(value) < 10^n, zero for zero |
| Decimal.CheckMoneyExact | internal/control/billing.go:368-403 | acceptance if and only if at most 12 effective places are written and the size is below 10^26; an accepted value is k/10^12 with abs(k) < 10^38 |
| Decimal.TrailingZerosRefused | internal/control/billing.go:435-450 | the place count follows the spelling: a text worth 1 with thirteen zeros is refused |
| Decimal.PlacesOf | pkg/contracts/contracts.go:225-243 | both place counters agree on every text of the grammar and give the negated power of ten, at least zero |
| Decimal.SubIsExact | pkg/contracts/contracts.go:205-223 | printing a difference with the larger place count of its operands never rounds it |
| Decimal.Round | internal/control/billing_job.go:230-239 | the nearest unit, halves away from zero, never negative for a non-negative cost |
| Decimal.RoundUnique | internal/control/billing_job.go:230-239 | no other integer meets that description |
| Decimal.FloatStringValue | internal/control/billing_job.go:230-239 | what is printed with p places is a text of the grammar worth exactly the rounded number of 10^-p units |
| Decimal.PrintedUnitsStorable | internal/control/billing.go:368-403 | units printed with twelve places read back as the same units, and pass the check if and only if the column holds them |
| Decimal.MoneyLimits | internal/control/billing.go:368-403 | a money column holds 38 digits, twelve behind the point |
| BillingPolicy.PolicyMeaning | internal/control/billing_policy.go:44-111 | only upstream-reported usage of a served request is billed, only failed requests are written off, unknown sources are held |
| BillingModel.PriceAt | internal/control/billing.go:170-194 | the result is a price in effect and no other in effect started later; none only if none is in effect |
| BillingModel.FirstRefusal | internal/control/billing_job.go:218-239 | no refusal if and only if every eligible row can be judged |
| BillingRuns.StepKeepsSound | internal/control/billing_job.go:183-293 | every transaction, committed or aborted, keeps the invariant: shaped rows, unique keys, balances equal journal sums, billed sums equal debit sums per tenant and run, rulings recorded once |
| BillingRuns.ReachableIsSound | internal/control/billing_job.go:183-293 | the invariant holds after any interleaving from empty tables |
| BillingRuns.Conservation | internal/control/billing.go:260-313 | in every reachable state a balance is the journal's top-ups and adjustments less the billed amounts of the tenant's rows |
| BillingRuns.JournalSplits | internal/control/billing.go:342-366 | the journal sum is credits less debits |
| BillingRuns.RowLifecycle | internal/control/console_held.go:283-354 | usage is never rewritten, settled rows never move, pending rows leave only by settlement and held rows only by a ruling |
| BillingRuns.SettledForever | internal/control/billing_job.go:261-293 | billed, unpriced and not billable are absorbing over whole runs |
| BillingRuns.SettlementSum | internal/control/billing_job.go:199-259 | a settlement adds to its tenant's and run's billed sums exactly its debit, and nothing to any other |
| BillingRuns.SettlementIsExact | internal/control/billing_job.go:199-293 | the debit is what the settlement newly stores, is never negative, moves one wallet by one journal entry or nothing when zero, and leaves no eligible row |
| BillingRuns.RoundingDrift | internal/control/billing_job.go:329-357 | the debit is within half a unit per billed row of the exact cost |
| BillingRuns.CostNotNegative | internal/control/billing.go:122-135 | costs from accepted prices and counts are never negative |
| BillingRuns.ResettlingIsIdle | internal/control/billing_job.go:295-327 | settling the same window again changes nothing, whatever the run id |
| BillingRuns.RulingsNeverCollide | internal/control/console_held.go:363-371 | a row still open to a ruling has no ruling on record |
| BillingLaws.CostIsPerToken | internal/control/billing_job.go:329-357 | one more token of a class costs exactly that class's own price over the unit scale, and no tokens cost nothing |
| BillingLaws.CostRefusedExactly | internal/control/billing_job.go:329-357 | only a scale that is not positive and a negative count have no cost |
| BillingLaws.PriceIsFound | internal/control/billing.go:170-194 | the price of a usage is the one of its provider and model that had started last, and there is none exactly if none had started |
| BillingLaws.PriceAcceptedExactly | internal/control/billing.go:105-161 | which prices are taken, by their fields, the clock and the prices there are; then that very price is added |
| BillingLaws.MovementAcceptedExactly | internal/control/billing.go:260-313 | which movements are taken, by their fields, the wallet and the journal |
| BillingLaws.MovementMeans | internal/control/billing.go:260-313 | a movement moves its own tenant's balance by its own amount and journals itself with the balance it left, and nothing else changes |
| BillingLaws.WalletMeans | internal/control/billing.go:198-217 | a wallet starts empty, once |
| BillingLaws.MoneyIsConserved | internal/control/billing.go:260-313 | over every run a balance is the amounts of the committed movements asked for from outside, less what the tenant's rows were billed |
| BillingLaws.SettlementMeans | internal/control/billing_job.go:183-293 | exactly the tenant's pending rows before the cut-off change, each as source, success and price of its own instant say; the wallet pays what they were billed in one debit named after run and tenant |
| BillingLaws.SettlementFailsExactly | internal/control/billing_job.go:183-259 | a settlement fails if and only if a row to be charged has no cost under its price or the debit is not taken |
| BillingLaws.RulingMeans | internal/control/console_held.go:283-377 | a write-off leaves the row not billable, without amount or run, and no money moves; billing leaves it unpriced if no price had started, else billed at the rounded cost with the wallet lower by exactly that; the ruling is recorded with its outcome |
| BillingLaws.RulingRefused | internal/control/console_held.go:251-283 | a ruling on an event that is not there or a row that is not held is refused as that |
| BillingLaws.UsageMeans | internal/control/ledger.go:51-54 | usage is entered once per event, pending, without amount or run |
| BillingReplay.LaterPriceInvisible | internal/control/billing.go:170-194 | a price that starts later does not change a lookup |
| BillingReplay.StepKeepsReplay | internal/control/billing.go:105-161 | every timely transaction keeps all bills replayable |
| BillingReplay.BillsReplayForever | internal/control/billing_job.go:218-239 | in every later state each billed row equals the rounding of its cost at today's lookup of its own instant, and each unpriced row still has no price |
| BillingReplay.FrozenExactly | internal/control/billing.go:105-161 | no acceptable price changes a lookup if and only if its instant has passed or a price starts at that very instant |
| BillingReplay.BillFrozenExactly | internal/control/billing_job.go:218-239 | a row that replays now replays after any further transactions if and only if it is not settled at a price, its instant has passed, a price starts at that instant, no price can name its model, or it was billed without tokens |
| BillingReplay.Overtaken | internal/control/billing_job.go:218-239 | a bill written ahead of its instant stops replaying once a second price takes over |
| BillingReplay.FutureCutOffBreaksReplay | internal/control/billing_job.go:81-149 | a run from empty tables that settles one row with a future cut-off and then adds a price, after which the bill no longer replays |
| BillingStore.LineAmount | internal/control/billing_job.go:329-357 | the loop over the four token classes computes the exact cost or the first error |
| BillingStore.Store.EnsureWallet | internal/control/billing.go:198-217 | creates an empty wallet once, otherwise changes nothing |
| BillingStore.Store.ApplyMovement | internal/control/billing.go:260-313 | wallet and journal move together under the sign, range and uniqueness checks, or nothing does |
| BillingStore.Store.InsertModelPrice | internal/control/billing.go:105-161 | appends a forward-dated, well-formed, new price or refuses with nothing changed |
| BillingStore.Store.InsertUsage | internal/control/ledger.go:51-54 | a metered row is added once per event |
| BillingStore.Store.JudgeRows | internal/control/billing_job.go:199-240 | the buckets hold exactly the eligible rows, each under its verdict, with their sum; or the first refusal is reported |
| BillingStore.Store.StampRows | internal/control/billing_job.go:261-284 | the bulk updates write each row what its own verdict says |
| BillingStore.Store.SettleTenant | internal/control/billing_job.go:183-293 | the transaction over the tables in place equals the settlement function, error and rollback included |
| BillingStore.Store.RuleRow | internal/control/console_held.go:295-353 | what a ruling makes of a held row |
| BillingStore.Store.ResolveHeld | internal/control/console_held.go:251-377 | the ruling as a one-row billing run, rolled back as a whole on any error |
| BillingStore.Store.PendingTenants | internal/control/billing_job.go:151-172 | lists each tenant with an eligible row once, and no other |
| BillingStore.Store.RunOnce | internal/control/billing_job.go:81-149 | does nothing without prices; otherwise settles every pending tenant and reports the sum of the debits, by how many rows each state has grown, how many tenants had a row charged or found unpriced, and how many still have a row up for settlement |
| BillingCounts.SettlementMoves | internal/control/billing_job.go:261-293 | a settlement moves exactly the eligible rows into the states of their verdicts |
| BillingCounts.ToldOfNext | internal/control/billing_job.go:115-137 | counted tenant by tenant, the numbers of billed and failed tenants are those of the whole run |
| BillingStore.AllOrNothing | internal/control/billing_job.go:117-137 | after a run each listed tenant is fully settled or untouched, and any other is untouched |
| BillingStore.RunTotalIsBilled | internal/control/billing_job.go:115-138 | the reported total is what the run added to the billed amounts of its tenants, and nobody else's changed |
| Reconciliation.Run | internal/control/billing_reconcile.go:146-331 | the loops compute the declared report: unsettled rows, row counts by state, billed sums, runs with their events, rows, amounts and debits, both grand totals, and exactly the findings; it is balanced if and only if the three records agree |
| Reconciliation.CheckWallets | internal/control/billing_reconcile.go:259-274 | finds exactly the window tenants whose existing wallet differs from its whole journal |
| Reconciliation.CheckRuns | internal/control/billing_reconcile.go:276-313 | finds exactly the runs whose whole ledger total differs from their debits |
| Reconciliation.BalancedExactly | internal/control/billing_reconcile.go:172-331 | a report holding exactly these findings is empty if and only if the books agree |
| Reconciliation.FindingsMean | internal/control/billing_reconcile.go:180-232 | the findings on single rows are exactly what the rows of the window show: an amount on an unbilled row, a billed row without amount or without run |
| Reconciliation.ReportGrows | internal/control/billing_reconcile.go:180-250 | what one more row adds to unsettled rows, state counts, totals and run events |
| Reconciliation.SoundBooksAgree | internal/control/billing_reconcile.go:146-331 | the billing invariant implies agreement over every window |
| Reconciliation.ReachableBooksAgree | internal/control/billing_reconcile.go:146-331 | after any run of the platform the report over any window is clean |
| Reconciliation.ReachableTotalsMeet | internal/control/billing_reconcile.go:253-331 | after any run of the platform the debited total exceeds the billed total by exactly what the window's runs billed outside the window |
| SnapshotProtocol.Bucket.Publish | internal/snapshot/redis.go:53-116 | the script writes one generation under the next version and epoch, or refuses a stale epoch and changes nothing |
| SnapshotProtocol.PublicationTaken | internal/snapshot/redis.go:53-116 | a publish goes through if and only if its accounts are all of the bucket and it names the epoch there is, or zero if there is none |
| SnapshotProtocol.PublicationWrites | internal/snapshot/redis.go:53-116 | it writes one data key under the next version at the next epoch, holding for each id the account listed last, and no other key |
| SnapshotProtocol.LoadFailures | internal/snapshot/redis.go:225-275 | how each of the four reads can fail |
| SnapshotProtocol.Assemble | internal/snapshot/redis.go:259-274 | succeeds if and only if marker and every envelope fit, and then lists each account once |
| SnapshotProtocol.StepKeepsConsistent | internal/snapshot/redis.go:53-116 | every live data key holds exactly the generation of its version, whatever publishes, expires or reads next |
| SnapshotProtocol.LoadIsOneGeneration | internal/snapshot/redis.go:225-275 | a load that succeeds under any interleaving returns the account set of one publish, with that publish's epoch unless the set is empty |
| SnapshotProtocol.UndisturbedLoad | internal/snapshot/redis.go:225-275 | with nobody in between four reads load the newest live generation with its epoch, if and only if no account is named like the version field |
| SnapshotProtocol.EmptyGenerationMisdated | internal/snapshot/redis.go:225-275 | an interleaving in which an empty generation comes back with a later epoch |
| SnapshotProtocol.OwnEpochExactly | internal/snapshot/redis.go:225-275 | a load that has read its version returns that generation's own epoch under every continuation if and only if the generation lists an account or its data has gone |
| SnapshotProtocol.EditQuota | internal/control/quota_refresh.go:335-349 | replaces the quota of the one matching account, or reports it equal or absent |
| SnapshotProtocol.LoadedIsNewest | internal/control/quota_refresh.go:350-353 | a publish at a loaded epoch goes through only while the loaded generation is the newest |
| SnapshotProtocol.QuotaPublishLosesNothing | internal/control/quota_refresh.go:324-354 | a generation the quota publisher publishes is its immediate predecessor with exactly that quota replaced |
| QuotaOutbox.Repository.Acquire | internal/control/fencing.go:17-24 | bumps the fence and returns the new epoch |
| QuotaOutbox.Repository.CommitQuotaAndQueue | internal/control/quota_refresh.go:183-207 | under the held fence sets quota and outbox row together, otherwise nothing |
| QuotaOutbox.Repository.AckQuotaOutbox | internal/control/quota_refresh.go:273-285 | deletes the row only if it still has that fence |
| QuotaOutbox.Repository.RetryQuotaOutbox | internal/control/quota_refresh.go:287-299 | reschedules and unlocks the row only if it still has that fence |
| QuotaOutbox.Backoff | internal/control/quota_refresh.go:471-483 | the minimum doubled once per earlier attempt, capped; the due time of a row put back in every run |
| QuotaOutbox.BackoffMeans | internal/control/quota_refresh.go:471-483 | one minute, two, four, eight, then a quarter of an hour each time |
| QuotaOutbox.CommitMeans | internal/control/quota_refresh.go:183-207 | a commit goes through exactly under the account's fence, sets the quota and queues it untried and due at once |
| QuotaOutbox.ClaimMeans | internal/control/quota_refresh.go:226-271 | a claim takes a due row no running claim holds, counts one attempt and holds it for a minute |
| QuotaOutbox.RowMeans | internal/control/quota_refresh.go:273-299 | a row is deleted or put back only under its fence; put back it keeps quota and attempts |
| QuotaOutbox.PublishedQuotaIsInALog | internal/control/quota_refresh.go:324-354 | when a quota publish reports success, that quota is carried for that account by a generation that was the newest at some instant since its load began |
| QuotaOutbox.OutboxIsFenced | internal/control/quota_refresh.go:183-207 | in every reachable state a row's fence is at most the account's, and under equal fences the quotas are equal |
| QuotaOutbox.NoQuotaForgotten | internal/control/quota_refresh.go:123-144 | a quota committed under the present fence is queued, or carried by a generation that was the newest at the commit or since |
| QuotaOutbox.OneCommitPerFence | internal/control/quota_refresh.go:72-151 | a fence commits one quota for good |
| QuotaOutbox.RowLeavesOnlyWhenDone | internal/control/quota_refresh.go:426-469 | a row goes only when a later fence's row replaces it, when its quota is in a snapshot that was the newest at its commit or since, or when the fence has moved past it |
| QuotaOutbox.UndisturbedReconcileSettles | internal/control/quota_refresh.go:426-469 | a due row under the present fence, reconciled undisturbed, leaves its quota in the newest generation and is gone; if the publish is refused it is free again, one attempt on and due after the backoff |
| QuotaOutbox.Claimed | internal/control/quota_refresh.go:226-271 | a claim takes a row exactly if it is due and no running claim holds it |
| QuotaOutbox.UndisturbedStaleRowIsDropped | internal/control/quota_refresh.go:426-446 | a due row of an account that has moved to another fence is deleted without being published |
| QuotaOutbox.UndisturbedFailureIsRetried | internal/control/quota_refresh.go:436-469 | a row whose account is missing or cannot be read is put back with one more attempt, due after its backoff |
| QuotaOutbox.FailedAckIsRetried | internal/control/quota_refresh.go:451-469 | a publish whose acknowledgement fails leaves the row free, due after its backoff |
| QuotaOutbox.UndisturbedRefreshPublishes | internal/control/quota_refresh.go:72-151 | a refresh that gets a quota and can publish leaves it on the account one fence on, in the newest generation, and the outbox empty of the account |
| Fencing.WriteIsCurrent | internal/control/fencing.go:26-50 | a credential changes only at the commit of the holder of the present fence, or of a re-import that moves the fence with the same commit; either way with that transaction's secret, the next version and a later writer, which is the fence |
| Fencing.ImportIsNotOverwritten | internal/control/import.go:53-75 | once a re-import commits, every update that acquired before is refused for good, and the imported credential stays until one of a later fence replaces it |
| Fencing.WritersGrow | internal/control/fencing.go:26-50 | a credential only ever gives way to one written under a later fence |
| Fencing.FenceIsTested | internal/control/fencing.go:35-48 | each of the two statements goes through only at the account's present fence, and ends the update at once otherwise |
| Fencing.UndisturbedUpdateSucceeds | internal/control/fencing.go:17-50 | with nobody in between a holder's update goes through and leaves no lock |
| Fencing.UndisturbedImportSucceeds | internal/control/import.go:53-75 | with nobody in between a re-import goes through and leaves no lock |
| Fencing.StuckExactly | internal/control/fencing.go:35-42 | all unfinished transactions wait for each other if and only if an update and a re-import have locked their rows in opposite orders; aborting either lets somebody go on |
| Fencing.LocksCross | internal/control/import.go:53-66 | an update and a re-import do reach that state |
| Fencing.OutpacedNeverWrites | internal/control/fencing.go:26-50 | a holder the fence has passed before its second statement never succeeds |
| Fencing.FenceMovesInBetween | internal/control/fencing.go:36-48 | the fence can move between the two statements, and then the update fails without a trace |
| WrapperQueue.Redis.RunTerminal | internal/control/wrapper/queue.go:40-53 | the terminal script as it changes the keys |
| WrapperQueue.TerminalScriptMeans | internal/control/wrapper/queue.go:40-53 | exactly when the script stores, finds the same or another terminal or a lost lease, and what it changes then |
| WrapperQueue.ReportEnds | internal/control/wrapper/queue.go:176-234 | how an undisturbed report ends, by the stored terminal, the clock and the two lease keys |
| WrapperQueue.ResultsNameTheirLease | internal/control/wrapper/queue.go:155-174 | in every reachable state a stored result names a lease issued to its worker for the one message that carries its job, account and fence |
| WrapperQueue.ClaimsAreBounded | internal/control/wrapper/queue.go:90-125 | leases of over 900 seconds are refused, and a claim gives up after 32 finished messages |
| WrapperQueue.Redis.RunEnqueue | internal/control/wrapper/queue.go:30-38 | a job already enqueued keeps its message, a new one gets the next |
| WrapperQueue.Redis.Settle | internal/control/wrapper/queue.go:176-234 | the calls of `terminal` in order, undisturbed, end as the step machine says |
| WrapperQueue.ReachableInv | internal/control/wrapper/queue.go:90-153 | the invariant of keys and callers holds after any interleaving of claims, settlements and expiry |
| WrapperQueue.AcknowledgedMeansStored | internal/control/wrapper/queue.go:155-234 | a result is acknowledged only if the job's stored terminal is exactly that envelope |
| WrapperQueue.TerminalIsForever | internal/control/wrapper/queue.go:40-53 | a stored terminal never changes |
| WrapperQueue.FirstWriteIsCurrentLease | internal/control/wrapper/queue.go:176-234 | the first write comes from an unexpired lease that its key and the message's owner key record at that instant, issued for a message carrying this very job; the write acknowledges the message and gives the lease up |
| WrapperQueue.OneWinner | internal/control/wrapper/queue.go:155-167 | two acknowledged reports of one job are the same envelope under the same lease |
| WrapperQueue.NothingIsLost | internal/control/wrapper/queue.go:90-125 | a delivered message stays pending until its job has a terminal or it is dead-lettered as undecodable; a job id owns one message |
| WrapperQueue.UndisturbedClaimGetsTheJob | internal/control/wrapper/queue.go:90-153 | a claim with nobody in between gets a lease on the next message's job, for the time asked, under both keys |
| WrapperQueue.UndisturbedClaimTakesOver | internal/control/wrapper/queue.go:240-294 | a message left pending by a worker that has gone is leased again under the same message by the next undisturbed claim, past any number of messages still leased |
| WrapperQueue.MarksOnlyFree | internal/control/wrapper/queue.go:246-292 | a claim marks, with its worker's name, only a message that nobody owns and passes over the others |
| WrapperQueue.FailedClaimCleansUp | internal/control/wrapper/queue.go:261-273 | a claim that does not get the message it marked removes its own marker, no other, and ends or passes on |
| WrapperQueue.UselessMessageIsAcknowledged | internal/control/wrapper/queue.go:104-125 | a message whose job has its result is acknowledged, an undecodable one is dead-lettered first, and the claim tries again |
| WrapperQueue.LooksAtFew | internal/control/wrapper/queue.go:240-244 | a claim looks at 32 pending messages at most |
| WrapperQueue.UndisturbedReportIsStored | internal/control/wrapper/queue.go:176-234 | a report under a recorded, unexpired lease with nobody in between is stored and acknowledged and ends the message |
| AttemptLedger.Ledger.HandleAttemptStarted | internal/control/ledger.go:27-33 | opens an attempt once |
| AttemptLedger.Ledger.HandleRelease | internal/control/ledger.go:35-78 | row, state and penalty change together, or nothing for an unknown attempt |
| AttemptLedger.Ledger.RecoverAttempts | internal/control/ledger.go:82-129 | closes exactly the expired open attempts nobody has locked, counts them, and keeps the metering invariant |
| AttemptLedger.CloseKeeps | internal/control/ledger.go:35-78 | a release keeps the invariant, meters an open attempt with its own row and leaves a closed one alone |
| AttemptLedger.ReleaseMeans | internal/control/ledger.go:35-78 | the release of an open attempt adds one row with the release's own event, identity and usage, field by field, and closes the attempt |
| AttemptLedger.ReleaseRefused | internal/control/ledger.go:35-78 | a release of an unknown attempt is refused, of a closed one changes nothing |
| AttemptLedger.StartMeans | internal/control/ledger.go:27-33 | a start puts the attempt on record as open with its identity and deadline, once |
| AttemptLedger.RecoveryMeans | internal/control/ledger.go:82-129 | a recovered attempt is metered as failed, without tokens and with missing usage, under its own identity |
| AttemptLedger.RecoverAllKeeps | internal/control/ledger.go:82-129 | recovery keeps the invariant and reconciles what it visits |
| AttemptDelivery.ExactlyOnce | internal/control/ledger.go:27-129 | under any deliveries, redeliveries, crashes and recoveries an attempt has no usage row while open and one afterwards, and one penalty exactly if a release closed it |
| AttemptDelivery.AckedOnlyAfterEffect | internal/events/stream.go:198-257 | a message is acknowledged only after its transaction took effect or after dead-lettering, which a usable one reaches only after more than five tries |
| AttemptDelivery.MeteredForever | internal/control/ledger.go:51-63 | a row and the attempt it closed never change again |
| AttemptDelivery.RowsAreExplained | internal/control/ledger.go:27-129 | over every run a row of a released attempt carries identity and usage of a usable release of it in the stream, a row of a recovered one says that nothing was reported, and every attempt has the identity and deadline of a start in the stream |
| AttemptDelivery.UndisturbedReleaseIsMetered | internal/events/stream.go:235-257 | a usable release of an open attempt, uninterrupted, is metered with its own row, penalised once and acknowledged |
| AttemptDelivery.UndisturbedBurial | internal/events/stream.go:198-242 | an unusable message, or one tried five times, is dead-lettered, acknowledged and forgotten, and changes nothing else |
| AttemptDelivery.UndisturbedStrayRelease | internal/events/stream.go:235-252 | the release of an attempt not yet recorded stays pending with one more try counted |
| AttemptDelivery.Consumer.Process | internal/events/stream.go:198-257 | one consumer undisturbed does the steps of the machine in order |
| AttemptDelivery.Consumer.DeadLetter | internal/events/stream.go:353-371 | adds the dead letter, acknowledges, forgets the counter |
| AttemptDelivery.DriveIsARun | internal/events/stream.go:198-257 | that consumer is one of the interleavings |
| MemoryLedger.Ledger.ApplyAttemptStarted | internal/control/state.go:36-44 | opens a record once and says so |
| MemoryLedger.Ledger.ApplyRelease | internal/control/state.go:46-61 | records an event once, even of an unknown attempt |
| MemoryLedger.Ledger.RecoverExpired | internal/control/state.go:63-83 | in any map order reconciles every overdue record and returns one synthetic release for each it closes |
| MemoryLedger.StepAgreesExactly | internal/control/state.go:36-83 | from agreement, an operation keeps states, events, rows and answers equal if and only if it does not release an unknown attempt |
| MemoryLedger.LedgersAgreeExactly | internal/control/state.go:24-83 | the two ledgers agree throughout a run if and only if every release follows the start of its attempt |
| MemoryLedger.OvertakingReleaseIsLost | internal/control/state.go:46-61 | a release that overtakes its start is metered by the database and lost by the memory ledger |
| KiroStream.MatchingBrace | internal/gateway/kiro.go:152-183 | the flag-driven loop finds the byte that closes the first object |
| KiroStream.MatchPrefix | internal/gateway/kiro.go:152-183 | a match does not depend on later bytes, and an unmatched prefix only moves the cursor |
| KiroStream.MatchIsFirstBalance | internal/gateway/kiro.go:152-183 | up to the match the object is open at every point, and there its braces balance outside any string |
| KiroStream.StringsAreSkipped | internal/gateway/kiro.go:152-183 | nothing inside a JSON string, escapes included, moves the scanner |
| KiroStream.ObjectsAreBalanced | internal/gateway/kiro.go:120-150 | every object taken out runs from a brace to the brace that first balances it |
| KiroStream.Parser.Feed | internal/gateway/kiro.go:120-150 | one feed takes out the complete objects and leaves the rest, as draining buffer and chunk together does |
| KiroStream.DrainSplits | internal/gateway/kiro.go:120-150 | feeding the rest later equals feeding all at once while the unfinished object fits the limit |
| KiroStream.CutHarmlessExactly | internal/gateway/kiro.go:120-150 | a cut never changes the events any later feeds return if and only if the unfinished object there fits the limit or no object decodes; it never changes objects and buffer if and only if it fits |
| KiroStream.OversizedObjectIsLost | internal/gateway/kiro.go:120-150 | every complete object comes out of one feed, and never comes out when cut over the limit |
| KiroStream.OversizedEventIsLost | internal/gateway/kiro.go:120-150 | the event of an object is returned by one feed; cut over the limit, with no brace opened after the cut, nothing is |
| KiroStream.ChunkingDoesNotMatter | internal/gateway/kiro.go:120-150 | any chunking yields the same objects and leftover |
| KiroStream.DrainStream | internal/gateway/kiro.go:267-306 | the streaming loop sends each new text once and ends with the result of all events |
| KiroStream.EmittedIsContent | internal/gateway/kiro.go:185-197 | the texts sent concatenate to the recorded content |
| KiroStream.ContentMeans | internal/gateway/kiro.go:185-197 | the content is every text in turn that does not repeat the one before it, and the usage the last one given |
| KiroStream.StreamedEqualsWhole | internal/gateway/kiro.go:98-118 | streamed text and usage equal those of the whole body |
| KiroStream.BlankExactly | internal/gateway/kiro.go:185-197 | the recorded content is empty exactly if every event's text is, and blank exactly if every event's text is |
| KiroStream.AcceptanceAgreesExactly | internal/gateway/kiro.go:98-306 | the two readers accept the same responses if and only if no decoded event carries text or one carries more than white space |
| KiroStream.SpaceIsStreamedOnly | internal/gateway/kiro.go:98-306 | a response of any one object whose text is a space is taken when streamed and refused when read whole |
| SseConverter.Converter.Convert | internal/gateway/server.go:590-613 | emitted so far plus what one event returns is the stream all events so far must turn into; an unconvertible event is refused unless the stream is over |
| SseConverter.Converter.ConvertToAnthropic | internal/gateway/server.go:801-856 | the blocks of one event for an Anthropic client |
| SseConverter.Converter.ConvertToResponses | internal/gateway/server.go:874-948 | the numbered blocks of one event for a Responses client |
| SseConverter.ConvertAll | internal/gateway/server.go:521-556 | what is written up to the first refused event is the stream of the events before it |
| SseConverter.TextArrives | internal/gateway/server.go:801-915 | the deltas a client reads concatenate to the text the source sent up to its end |
| SseConverter.StreamShape | internal/gateway/server.go:801-948 | every stream is a prefix of opening, deltas, closing; closes once, last, exactly when the source ended, with the length limit reported exactly if it was the last reason and the full text repeated; Responses events are numbered 0, 1, 2 and on |
| SseConverter.EffectiveMeans | internal/gateway/server.go:590-613 | what counts are the convertible events up to and including the first that ends the stream |
| SseConverter.ReasonMeans | internal/gateway/server.go:590-613 | the finish reason reported is the last one given |
| SseConverter.AnthropicStream | internal/gateway/server.go:801-856 | the Anthropic stream block by block |
| SseConverter.ResponsesStream | internal/gateway/server.go:874-948 | the Responses stream event by event, closed with the whole text that was sent and incomplete exactly at the length limit |
| Requests.PrintParsed | pkg/protokit/protokit.go:1397-1462 | an image URL printed from what was parsed is the trimmed URL and parses to the same |
| Strings.TrimMeans | pkg/protokit/protokit.go:1397-1404 | trimming takes white space off both ends, all of it and nothing else |
| RequestFields.ImageMeans | pkg/protokit/protokit.go:1397-1462 | a URL is read as an image exactly if, trimmed, it is a remote address or a base64 data URL of an image type, and as that |
| RequestFields.MessageForward | pkg/protokit/protokit.go:716-768 | a message is accepted exactly if it can arrive, and arrives with its role, its texts and images in order and each call under its own id and name |
| RequestFields.ForwardMeans | pkg/protokit/protokit.go:519-574 | a request is accepted exactly if an Anthropic request stands for it, and becomes that one: every field under its own name, every message in its place, every tool with its own name, description and schema |
| RequestFields.ForwardRefusals | pkg/protokit/protokit.go:519-574 | streaming and malformed tools are unsupported, every other refusal is invalid |
| RequestFields.MessageBack | pkg/protokit/protokit.go:770-827 | a message comes back as one message of its role with its content and calls, and one tool message for each result under the id it answers |
| RequestFields.BackMeans | pkg/protokit/protokit.go:576-611 | the way back: accepted exactly if an OpenAI request stands for it, and becomes that one |
| RequestFields.BackRefusals | pkg/protokit/protokit.go:576-611 | on the way back streaming and a first refused block of unknown kind are unsupported, every other refusal is invalid |
| RequestRoundTrip.BackForwardMessage | pkg/protokit/protokit.go:716-827 | an accepted message comes back as its normal form, unless it is a user message with tool calls, which is refused as invalid |
| RequestRoundTrip.RoundTrip | pkg/protokit/protokit.go:519-611 | for every accepted request the way back yields the normal form if no user message carries tool calls, and is refused as invalid otherwise |
| RequestRoundTrip.UserCallIsNotReversible | pkg/protokit/protokit.go:716-827 | a user message with any acceptable tool call converts and is refused on the way back |
| RequestRoundTrip.NormalIsFixed | pkg/protokit/protokit.go:519-611 | the normal form is accepted and comes back unchanged |
| Converters.OpenAIToAnthropicRequest | pkg/protokit/protokit.go:519-574 | the loops compute the forward conversion, errors included |
| Converters.MessageToAnthropic | pkg/protokit/protokit.go:716-768 | the loops over parts and calls compute one message |
| Converters.AnthropicToOpenAIRequest | pkg/protokit/protokit.go:576-611 | the loops compute the way back, with the kind of the first failure |
| Converters.AnthropicMessageToOpenAI | pkg/protokit/protokit.go:770-827 | the loop over blocks sorts texts, images, calls and results; malformed blocks are invalid, unknown ones unsupported |
| Converters.OpenAIContentRaw | pkg/protokit/protokit.go:1179-1196 | a list of text parts becomes one string, any other list stays |
| Chooser.Pool.ReplaceBucket | internal/gateway/chooser.go:62-99 | the loops install the bucket as specified |
| Chooser.Pool.RemoveBucket | internal/gateway/chooser.go:102-111 | drops the bucket and what it owns |
| Chooser.Pool.ReplaceAtEpoch | internal/gateway/chooser.go:130-154 | installs a whole snapshot, nothing owned any more |
| Chooser.ReplaceTouchesOnlyItsOwn | internal/gateway/chooser.go:62-99 | the new ids are exactly the listed accounts no other bucket owns; other buckets, their accounts and their cooldowns stay |
| Chooser.RemoveTouchesOnlyItsOwn | internal/gateway/chooser.go:102-111 | removal touches only what the bucket owned |
| Chooser.CooldownSurvivesExactly | internal/gateway/chooser.go:67-95 | a cooldown survives if and only if the epoch did not change under it and no installed account of its id has another credential version |
| Chooser.OwnersAreInverse | internal/gateway/chooser.go:62-154 | in every reachable state `owner` and the id sets are inverse to each other |
| Chooser.Pool.Survey | internal/gateway/chooser.go:175-221 | in any visiting order collects exactly the eligible ids and which kinds of exclusion occurred |
| Chooser.Pool.AcquirePreferring | internal/gateway/chooser.go:167-249 | in any visiting order the answer is the preferred account if eligible, else the least eligible id, else the first refusal in the fixed order |
| Chooser.AnswerIsUnique | internal/gateway/chooser.go:167-249 | only one answer meets that description |
| ChooserLaws.StandingMeans | internal/gateway/chooser.go:175-221 | exactly which accounts may serve a request and why the others may not, by status, platform, group, credential, model, cooldown, path, quota and freshness |
| ChooserLaws.LeaseMeans | internal/gateway/chooser.go:233-249 | a lease is of an account that may serve, the preferred one or else the earliest by its id, for the whole seconds its credential has left |
| ChooserLaws.RefusalMeans | internal/gateway/chooser.go:215-231 | a request is refused exactly if no account may serve it, and for the first of used-up quota, outlived snapshot and closed path that some account gives rise to |
| ChooserLaws.ReplaceMeans | internal/gateway/chooser.go:62-99 | what a bucket holds after its replacement, which accounts are gone, and exactly which cooldowns and failure counts go |
| ChooserLaws.RemoveMeans | internal/gateway/chooser.go:102-111 | what a removal takes and what stays |
| ChooserLaws.ReplaceAllMeans | internal/gateway/chooser.go:130-154 | what a whole snapshot installs, and exactly which cooldowns and failure counts go |
| ConsoleLimiter.Limiter.Allow | internal/control/console_limit.go:62-87 | refills, admits or refuses, and reports the wait |
| ConsoleLimiter.RunInBounds | internal/control/console_limit.go:62-87 | tokens stay between zero and the burst over any run, whatever the clock does |
| ConsoleLimiter.BurstIsAdmitted | internal/control/console_limit.go:62-87 | a bucket starts full: of the first calls at one instant as many are admitted as the burst holds whole tokens |
| ConsoleLimiter.OtherKindsAreFree | internal/control/console_limit.go:35-43 | calls of the other kind change nothing for a kind |
| ConsoleLimiter.Budget | internal/control/console_limit.go:62-87 | admitted plus left over never exceeds the burst plus what the forward movements of the clock earned |
| ConsoleLimiter.AdmissionBound | internal/control/console_limit.go:62-87 | with a steady clock at most burst plus refill times the span are admitted in any window of any run |
| ConsoleLimiter.ComingBack | internal/control/console_limit.go:62-87 | a refused caller is admitted later if and only if the bucket can hold a token and the time for one has passed |
| ConsoleLimiter.HeaderIsEnoughExactly | internal/control/console_limit.go:77-109 | waiting as the header says is enough if and only if the bucket can hold a token and it takes at most a second, whole seconds, or a time that rounds up |
| ConsoleLimiter.OneMoreSecondIsEnough | internal/control/console_limit.go:77-109 | one second more than the header says is enough at any rate, if and only if the bucket can hold a token |
| ConsoleLimiter.RetryAfterIsHonoured | internal/control/console_limit.go:77-109 | a refused caller that waits as told is admitted if a token takes at most a second, as at one a second or faster |
| ConsoleLimiter.SlowBucketIsRefusedAgain | internal/control/console_limit.go:77-109 | a limiter built with a refill below one a second, here four tokens in five seconds, refuses again a caller that was told to wait one second and did |

## Left out

- HTTP handlers, authentication, cursors, rendering, metrics, logging and schedulers: plumbing around the modelled steps.
- Provider adapters, OAuth, encryption and hashing: foreign code; digests of ids are taken as injective.
- JSON decoding: streams, requests and events are modelled once decoded; re-encoding tool arguments is an abstract operation assumed idempotent.
- Billing columns that decide nothing (currency, operator notes, run bookkeeping rows) and the order rows are visited in: ids stand for it.
- Reconciliation.Run: does not model the sorted order of the report's lists, nor the wallet balance and journal sum that each tenant's line repeats.
- Decimal exponents beyond 64 bits: exponents are mathematical integers.
- SnapshotProtocol: one bucket at a time, since buckets share no key; the retired set and bucket registration are not modelled.
- QuotaOutbox: claiming in batches ordered by due time is modelled one row at a time, and a quota publish as one step whose outcomes `PublishedQuotaIsInALog` justifies.
- Fencing: the rows of one account, since accounts share no row; the advisory lock, which keeps updates and imports apart but which a migration does not take, is not modelled because nothing proved relies on it.
- WrapperQueue: the seven-day expiry of terminals and enqueue markers, which would let an old job be enqueued again.
- AttemptDelivery: trimming of the stream, and the account's health update, of which only the fact that it is applied is modelled.
- AttemptLedger.Ledger.RecoverAttempts: the synthetic row's attempt number and the reconciliation time column.
- KiroStream: how an event's text and usage are found inside its JSON, and a client that disconnects while streaming.
- SseConverter: the usage figures inside blocks, the stateless conversion to OpenAI chunks and the splitting of raw lines.
- Requests: responses, the Responses and Gemini protocols, and JSON corner cases such as null list elements.
- Chooser: default limits of an account, and how failures and egress rejections set cooldowns; any change of cooldowns is allowed.
- ConsoleLimiter: floating-point rounding; arithmetic is exact.
