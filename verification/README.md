# A model of the job scheduler

The system runs HTTP jobs and buffered requests for its users. Several scheduler processes
share one PostgreSQL database and coordinate only through its tables. This project models
the step protocols over those tables and proves what they keep over whole runs.

| file | what it models |
|---|---|
| `Tasks.dfy` | rows of `jobs` and `buffer_items`, the heartbeat sidecars, and each SQL statement as a function on them |
| `Lease.dfy`, `LeaseSafety.dfy`, `LeaseLimits.dfy` | claim, heartbeat, self-fence, reaper and outcome write as a state machine; its invariant; the exact timing condition |
| `Sidecar.dfy` | the heartbeat sidecar against a heartbeat column in the row |
| `JobRepository.dfy`, `Worker.dfy`, `Reaper.dfy` | the repository, the heartbeat loop, the semaphore, the goroutine that serves a claim, and the reaper cycle in imperative form |
| `TokenBucket.dfy`, `Buffers.dfy`, `BufferTable.dfy` | the token bucket and ordered delivery of one buffer on top of the lease protocol; the buffer's tables in imperative form |
| `Draining.dfy` | what every move of a buffer costs, and that it drains |
| `Credits.dfy`, `Overdraft.dfy` | balances, the ledger and the low-balance latch; how far a balance can fall |
| `WebhookQueue.dfy` | the durable webhook queue |
| `Cron.dfy`, `Pages.dfy`, `LikeSearch.dfy`, `Backoff.dfy` | cron advance, keyset pagination, the URL search, the retry delays |

A statement or transaction is one atomic step; a failed one changes nothing. Time is a
variable of the state, crashes are steps of their own, and a remote call is a step with an
arbitrary result. Where the source changes things in place the model has classes and loops,
each tied by its `ensures` to the function of `Tasks.dfy` (or of its own module) that the
lemmas are about. The single-row statements of the repositories (heartbeat, attempt,
completion, failure, reschedule) are just such links and have no row of their own below.

Fields that no table has are history only: `claims` and `holder` number the claims (the
`claimed_by` column names a process), `finisher` says who ended a row, `limited` counts
reschedules after a 429, `abandoned` counts webhook attempts lost without an outcome,
`slipped` counts executions charged after an erroring credit check, `fired` lists the
instants of a schedule and `chosen` the keys its owner submitted. No statement branches on
them.

## Where the code and its comments disagree

* `internal/scheduler/worker.go:321-327` asks only that the fence come before the reaper's
  cutoff. That is not enough: `LeaseIsSafeExactlyInTime` gives the exact condition, and
  `ShippedConstants` shows that 10 s / 20 s / 30 s meet it exactly when heartbeat calls take
  no time and start and write delay together stay within 10 s.
* `retry_count <= max_retries` is false for buffer items: `ItemExceedsBudget` is a run that
  breaks it, `BudgetBreaksExactlyAt429` says exactly which step does.
* The outbox comment (`internal/infrastructure/postgres/job_repo.go:155-159`) has no crash
  leave a terminal job without its delivery. A crash followed by the reaper does:
  `ReaperFailsSilently` is a run, `FinishesSilentlyExactlyAtReapFail` the exact step, and
  `DeliveryExistsIffWorkerFinished` what that means for whole runs.
* The comments at `internal/infrastructure/postgres/schedule_repo.go:231-236` take a
  duplicate key for impossible, and have the schedule advance if it occurs. It occurs when
  the schedule's owner has submitted a job under that key (`internal/usecase/job.go:50-74`
  stores any key), and the database has aborted the transaction by then, so the whole batch
  is undone: `BatchAbortsExactly` says when, `BlockedMovesExactlyIfReleased` and
  `BlockedUndoesItsBatches` what follows, `SubmittedKeyUndoesABatch` is a run.
* The comment at `internal/infrastructure/postgres/billing_repo.go:67` has the daily refresh
  go by UTC dates. The test sets a UTC date against the session's date, so it does exactly
  while no session is ahead of UTC: `OneGrantPerDay`, `GrantsAgainExactlyAhead`.
* The ledger does not sum up to the balance: `SumBreaksExactlyAtRefresh`, and
  `LedgerExplainsBalance` for what is true instead. Top-ups that come before the account
  row are in the ledger and not in the balance: `WalletLedgerExplainsBalance`.
* Walking the job list to its end loses the row peeked at behind every full page:
  `LostPositions` and `JobsCompleteIff`. The lists of buffers, items and schedules take
  their cursor in the same way.

## Model

| member | source | states |
|---|---|---|
| `LeaseLimits.LeaseIsSafeExactlyInTime` | internal/scheduler/worker.go:216-247 | for all lease constants and all bounds on start, call and write time, calls longer than the ticker's interval included: in every run every live unfenced owner still holds its row, and no outcome can be written to a lost row, if and only if both worst-case write times fit below the reaper's cutoff |
| `LeaseLimits.ShippedConstants` | internal/scheduler/worker.go:319-328 | with 10 s, 20 s and 30 s that condition is: zero heartbeat latency, and start delay plus write delay at most 10 s |
| `LeaseLimits.LateWithoutABeat` | internal/scheduler/worker.go:183-223 | a late start with no successful heartbeat leads to an outcome write on a row the reaper already took |
| `LeaseLimits.LateAfterASlowBeat` | internal/scheduler/worker.go:337-361 | one slow heartbeat call of up to an interval moves the fence a whole tick later and leads to the same |
| `LeaseLimits.LateWithLongCalls` | internal/scheduler/worker.go:337-361 | longer calls drift between the ticks until the fence is almost a further interval late, and lead to the same |
| `LeaseSafety.StepKeepsInv` | internal/scheduler/worker.go:176-361 | every step of the protocol (claim, attempt record, heartbeat, fence, crash, outcome, reaping, time) keeps the invariant on rows, sidecar and owners |
| `LeaseSafety.Reachable` | internal/scheduler/worker.go:176-361 | the invariant holds after every run from the empty tables |
| `LeaseSafety.StaleIsOrphaned` | internal/infrastructure/postgres/job_repo.go:236-292 | a row the reaper may take never belongs to a live owner |
| `LeaseSafety.OwnershipIsExclusive` | internal/scheduler/worker.go:329-361 | over every run a live owner's row is running under its own claim, and no job or item has two live owners |
| `LeaseSafety.OutcomeWriteHitsOwnClaim` | internal/infrastructure/postgres/job_repo.go:197-234 | an outcome write keyed by id alone hits the writer's own claim; status, retry_count, schedule and 429 count afterwards, from the response and the row's budget |
| `LeaseSafety.TerminalIsAbsorbing` | internal/infrastructure/postgres/job_repo.go:197-309 | a completed, failed or cancelled row is never changed again by any run |
| `LeaseSafety.Bookkeeping` | internal/scheduler/worker.go:183-309 | claims = retry_count, plus one while running, completed or failed; at most max_retries + 1 claims per job; all attempt_num of a job differ; the outbox holds exactly the owed delivery |
| `LeaseSafety.StatusChangeLowersRank` | internal/scheduler/worker.go:287-309 | every change of status lowers a nonnegative rank by at least one, except a 429 reschedule, which raises it by one |
| `LeaseLimits.BudgetBreaksExactlyAt429` | internal/scheduler/drainer.go:214-230 | a step takes retry_count over max_retries if and only if it commits a 429 for an item at its budget |
| `LeaseLimits.ItemExceedsBudget` | internal/scheduler/drainer.go:214-230 | a run that does so |
| `LeaseLimits.FinishesSilentlyExactlyAtReapFail` | internal/infrastructure/postgres/job_repo.go:268-292 | a step finishes a job with a webhook URL without a delivery row if and only if it is the reaper's fail step, whose guard is: running, stale, and out of budget |
| `LeaseLimits.DeliveryExistsIffWorkerFinished` | internal/infrastructure/postgres/job_repo.go:155-215 | over whole runs: a finished job with a webhook URL has a delivery row if and only if a worker, not the reaper, finished it |
| `LeaseLimits.ReaperFailsSilently` | internal/infrastructure/postgres/job_repo.go:268-292 | a run that ends with a failed job with a webhook URL and no delivery row |
| `Sidecar.SidecarIsTheColumn` | internal/infrastructure/postgres/job_repo.go:81-145 | in every run, whatever the timing, the sidecar's keys are the running rows, and the reaper finds the same rows stale in the same order as on a heartbeat column |
| `Sidecar.StepKeepsMirror` | internal/infrastructure/postgres/job_repo.go:197-292 | every statement keeps sidecar and column in agreement |
| `JobRepository.SelectFirst` | internal/infrastructure/postgres/job_repo.go:93-100 | ORDER BY with LIMIT: distinct candidates, as many as the limit allows, none left out that precedes one taken |
| `JobRepository.Repository.Create` | internal/infrastructure/postgres/job_repo.go:25-65 | a user's repeated idempotency key is refused and nothing changes; otherwise the row is inserted and the key taken |
| `JobRepository.Repository.Claim` | internal/infrastructure/postgres/job_repo.go:81-133 | what is claimed was pending and due; a pending due row is left out only if the limit is used up by rows due no later; claimed rows run with a heartbeat of now, all others are as before |
| `JobRepository.Repository.RescheduleStale` | internal/infrastructure/postgres/job_repo.go:236-266 | what is taken was running, stale and within budget; such a row is left out only at the limit; taken rows are pending with one more retry and the same schedule, all others as before |
| `JobRepository.Repository.FailStale` | internal/infrastructure/postgres/job_repo.go:268-292 | the same for rows out of budget, which fail; no delivery row is added |
| `JobRepository.Repository.Cancel` | internal/infrastructure/postgres/job_repo.go:294-309 | a pending row, and no other, is cancelled; a missing row and a row in another status give their own errors and nothing changes |
| `Reaper.Reap` | internal/scheduler/reaper.go:45-68 | one cycle: the reschedule batch, then the fail batch on what it left |
| `Reaper.DueExactlyIfClaimable` | internal/infrastructure/postgres/job_repo.go:93-100 | a row is a candidate of Claim if and only if the protocol lets it be claimed: pending, with its time come |
| `Reaper.StaleExactlyIfReapable` | internal/infrastructure/postgres/job_repo.go:240-283 | a row is a candidate of the two stale statements if and only if the protocol lets the reaper take it |
| `Reaper.ClaimBatchIsRun` | internal/infrastructure/postgres/job_repo.go:81-133 | a batch claim is a run of single claims of the protocol, with the same tables at the end |
| `Reaper.RetryBatchIsRun` | internal/infrastructure/postgres/job_repo.go:236-266 | a reschedule batch is a run of single reaper steps |
| `Reaper.FailBatchIsRun` | internal/infrastructure/postgres/job_repo.go:268-292 | a fail batch is a run of single reaper steps |
| `Reaper.StaleIsSplit` | internal/infrastructure/postgres/job_repo.go:236-292 | the two statements split the stale rows between them |
| `Reaper.CycleClearsABatch` | internal/scheduler/reaper.go:45-68 | one cycle, with any protocol steps before it and between its two statements, removes up to 100 rows of each kind from those stale since a given time, oldest first |
| `Reaper.CyclesClearTheStale` | internal/scheduler/buffer_reaper.go:46-69 | k rows stale now are gone after k/100 cycles rounded up, whatever runs in between and however many rows go stale meanwhile |
| `Worker.Heartbeat` | internal/scheduler/worker.go:337-361 | fences at the first failed call that returns 20 s or more after the last success, and at no earlier call |
| `Worker.FencesExactlyAtSecondMiss` | internal/scheduler/worker.go:319-328 | with calls that return at once every 10 s, a call fences if and only if it is the second miss in a row |
| `Worker.Slots.ProcessBatch` | internal/scheduler/worker.go:147-174 | claims the first due jobs, as many as slots are free; a pending due job stays unclaimed only if every slot is taken; never blocks on the semaphore |
| `Worker.RunJob` | internal/scheduler/worker.go:176-310 | in fields of wallet and row, with the error path of every database call: the gate, if it answers, refuses exactly when nothing is left after the day's grant; a refused job fails and is not charged; any other is charged exactly once unless fenced or the deduction failed, and completes, goes back or fails by the answer and the budget |
| `Worker.RunItem` | internal/scheduler/drainer.go:151-274 | the same for a buffer item, with any 2xx as success and the 429 branch before it |
| `Worker.BillIsOverdraftRun` | internal/scheduler/worker.go:198-259 | the account a goroutine leaves is the one the overdraft machine leaves after Begin, Check or its error, Charge and End, with the charge exactly if the check left the execution gated, it was not fenced and the deduction did not fail |
| `Worker.JobIsRun` | internal/scheduler/worker.go:176-310 | the tables RunJob leaves, on every path, are those at the end of a run of the protocol |
| `Worker.ItemIsRun` | internal/scheduler/drainer.go:151-274 | the same for RunItem |
| `TokenBucket.RefillComposes` | internal/infrastructure/postgres/buffer_repo.go:308-319 | refilling at a time in between does not change what is available later |
| `TokenBucket.LazyRefillIsContinuous` | internal/infrastructure/postgres/buffer_repo.go:308-319 | the bucket written only by successful claims admits exactly the claims of one that refills at every moment |
| `TokenBucket.AdmissibleExactlyIfFits` | internal/infrastructure/postgres/buffer_repo.go:308-319 | a new bucket admits claims at given times if and only if they come in order, any stretch from claim i to claim j has j - i + 1 <= rate + (t_j - t_i) * rate, and the first n have n <= (t_n - created) * rate |
| `TokenBucket.TokensStayInRange` | migrations/20260330000002_buffer_token_bucket.sql:3-9 | tokens stay between 0 and the rate |
| `TokenBucket.WindowBound` | internal/infrastructure/postgres/buffer_repo.go:308-319 | every window (s, t] holds at most rate * (1 + t - s) claims |
| `TokenBucket.TotalBound` | migrations/20260330000002_buffer_token_bucket.sql:3-9 | by time t at most rate * (t - created) claims have happened |
| `Buffers.StepKeepsInv` | internal/infrastructure/postgres/buffer_repo.go:278-462 | pushes, replays, claims and every lease step keep order, metering and the claim count of a buffer |
| `Buffers.DeliveryIsOrdered` | internal/scheduler/drainer.go:127-148 | over every run: executions follow created_at, at most one item runs and at most one drainer serves the buffer, everything created strictly before the running item is terminal |
| `Buffers.NobodyIsOvertaken` | internal/infrastructure/postgres/buffer_repo.go:291-307 | in any run, once an item is claimed, every item created strictly before it is finished for good: over every continuation its row stays the same and it is never executed again |
| `Buffers.RateIsKept` | internal/infrastructure/postgres/buffer_repo.go:308-327 | the actual executions of every run obey the window and total bounds |
| `Buffers.ClaimableExactly` | internal/infrastructure/postgres/buffer_repo.go:291-327 | after every run an item can be claimed if and only if nothing runs, it is the oldest pending item and due, and one more execution on top of those of the whole run fits the rate |
| `Draining.BufferDrains` | internal/scheduler/drainer.go:214-274 | after every run, whoever is at work, some continuation without pushes and 429s ends with every item terminal, all claims still within sum(max_retries + 1) plus one per 429 |
| `Draining.RunsAreAccounted` | internal/infrastructure/postgres/buffer_repo.go:384-462 | after every run: claims are within sum(max_retries + 1) plus the 429s, and moves made plus the remaining rank are exactly twice that |
| `Draining.StepKeepsAccounts` | internal/scheduler/drainer.go:214-274 | the sum of the ranks falls by one with every claim, outcome and reap, rises by one with a 429, grows by twice the new budget with a push, and otherwise stays |
| `Draining.DrainedExactlyWhenStill` | internal/scheduler/drainer.go:127-148 | after every run: all items are terminal if and only if no continuation without pushes makes a move |
| `Draining.NeverStuck` | internal/infrastructure/postgres/buffer_repo.go:405-462 | an unfinished buffer that nobody serves can always be resumed: its head can be claimed, or the reaper can take the item left running |
| `BufferTable.BufferRepository.ClaimNextItem` | internal/infrastructure/postgres/buffer_repo.go:278-352 | in fields: claims the oldest pending item only when nothing runs, it is due and min(rate, tokens + elapsed * rate) is at least 1, which it then lowers by 1; otherwise nothing changes, and one of these fails |
| `BufferTable.BufferRepository.ReplayItem` | internal/usecase/buffer.go:263-308 | a failed item, and no other, is pushed again if credits allow, as a new pending item with the same budget; the failed one stays, and every refusal has its own error and changes nothing |
| `Buffers.PushGoesLast` | internal/usecase/buffer.go:202-308 | a pushed or replayed item enters at the tail, pending, unretried and due at once, with its own or the replayed item's budget: nothing was created after it, and the head of the queue stays the head |
| `Credits.LedgerExplainsBalance` | internal/infrastructure/postgres/billing_repo.go:67-108 | for every history of an existing account the balance is the fold of the ledger in which a daily grant replaces and all else adds; the plain sum is off by exactly the balances the refreshes overwrote |
| `Credits.WalletLedgerExplainsBalance` | internal/infrastructure/postgres/billing_repo.go:207-241 | for every history of requests: the account exists exactly after an EnsureExists; with k the number of top-ups before the first one, the balance is the fold of the ledger from entry k on, and of the whole ledger if and only if those k come to nothing or a daily grant followed |
| `Credits.EarlyTopUpIsMissing` | internal/infrastructure/postgres/billing_repo.go:207-241 | a top-up and then EnsureExists: the ledger holds 5 credits the balance does not |
| `Credits.SumBreaksExactlyAtRefresh` | internal/infrastructure/postgres/billing_repo.go:70-108 | a step from any history whose plain sum is right breaks it if and only if it refreshes a balance other than 0 |
| `Credits.CrossingFlipsLatch` | internal/infrastructure/postgres/billing_repo.go:161-171 | a deduction reports exactly the edge of CrossedLowBalance, and a reporting deduction turns the latch from off to on |
| `Credits.OneReportPerArming` | internal/domain/alert.go:82-93 | between two reports of any history there is a top-up or a refresh |
| `Credits.OneGrantPerDay` | internal/infrastructure/postgres/billing_repo.go:67-80 | two daily grants of any history are on different, increasing UTC days, if no session's date is ahead of the UTC date |
| `Credits.GrantsAgainExactlyAhead` | internal/infrastructure/postgres/billing_repo.go:70-80 | after a grant the same moment grants once more if and only if the session's date is ahead of the UTC date |
| `Credits.PaidIsNeverRefreshed` | internal/infrastructure/postgres/billing_repo.go:70-80 | over every history on the pay-as-you-go plan no daily grant is written, and the balance is the start less the charges plus the top-ups |
| `Credits.FreeIsRefreshedOnANewDay` | internal/infrastructure/postgres/billing_repo.go:70-108 | a gate sets a free account to its daily limit and writes the grant if and only if the stored day is before the session's day |
| `Credits.CreditRepository.EnsureExists` | internal/infrastructure/postgres/billing_repo.go:25-36 | creates a missing account with the starting balance and never touches an existing one |
| `Credits.CreditRepository.HasCredits` | internal/infrastructure/postgres/billing_repo.go:56-126 | in fields: only a free account whose last refresh is of an earlier day than the session's gets its daily limit and a ledger row; the answer is balance > 0; a missing account is an error with no effect; other users untouched |
| `Credits.CreditRepository.Deduct` | internal/infrastructure/postgres/billing_repo.go:146-205 | in fields: balance less one, a ledger row, the latch once the balance is below the threshold; the report exactly when the old balance was the threshold |
| `Credits.CreditRepository.TopUp` | internal/infrastructure/postgres/billing_repo.go:207-241 | balance and latch of an existing account, and the ledger row in any case |
| `Overdraft.StepKeepsInv` | internal/scheduler/worker.go:198-259 | every step, an erroring credit check included, keeps balance >= 1 - slots - executions charged after such an error + executions gated and not yet charged, for every user |
| `Overdraft.OverdraftIsBounded` | internal/infrastructure/postgres/billing_repo.go:56-205 | with N slots no balance ever falls below 1 - N less one per execution charged after an erroring check, in any interleaving |
| `Overdraft.OverdraftIsBoundedByTheSlots` | internal/scheduler/drainer.go:111-117 | without such errors no balance ever falls below 1 - N |
| `Overdraft.OverdraftIsReached` | internal/scheduler/worker.go:198-259 | for all slot counts some run reaches exactly 1 - N |
| `WebhookQueue.OneAttemptAtATime` | internal/scheduler/webhook_dispatcher.go:15-28 | at most one attempt per delivery is in flight in every run if and only if a live attempt ends within the in-flight timeout |
| `WebhookQueue.StepKeepsInv` | internal/scheduler/webhook_dispatcher.go:77-154 | every step keeps the invariant on rows and attempts in flight |
| `WebhookQueue.AttemptsAreAccounted` | internal/scheduler/webhook_dispatcher.go:108-154 | pending implies attempts left, failed implies none; claims = attempts + abandoned + in flight |
| `WebhookQueue.OutcomeIsFinal` | internal/infrastructure/postgres/webhook_delivery.go:92-126 | delivered and failed rows are never changed again, while attempts end in time |
| `WebhookQueue.OutcomesLastExactlyInTime` | internal/infrastructure/postgres/webhook_delivery.go:92-126 | delivered and failed are absorbing in every run if and only if a live attempt ends within the in-flight timeout |
| `WebhookQueue.DeliveryRepository.Enqueue` | internal/infrastructure/postgres/webhook_delivery.go:35-53 | a pending row with no attempts; a budget of 10 unless a positive one is given |
| `WebhookQueue.DeliveryRepository.ClaimDue` | internal/infrastructure/postgres/webhook_delivery.go:55-90 | what is claimed was pending with its time come, or stuck in flight; such a row is left out only if the limit is used up by rows due no later; all others are as before |
| `WebhookQueue.ClaimBatchIsRun` | internal/infrastructure/postgres/webhook_delivery.go:55-90 | a claimed batch is a run of single claims of the queue, with the same rows at the end |
| `WebhookQueue.ReadyExactlyIfClaimable` | internal/infrastructure/postgres/webhook_delivery.go:58-90 | a delivery is a candidate of ClaimDue if and only if the queue lets it be claimed |
| `WebhookQueue.DeliveryRepository.RecordOutcome` | internal/scheduler/webhook_dispatcher.go:108-154 | delivered exactly on a 2xx without an error, failed exactly otherwise on the last attempt, pending at the given time exactly otherwise before it; each counts one attempt |
| `Cron.ComputeNext` | internal/scheduler/dispatcher.go:66-81 | the least match that is after next_run_at and not before now |
| `Cron.NextRunIsLeast` | internal/scheduler/dispatcher.go:66-81 | the same of the specification function, from the contract of the cron library |
| `Cron.FiringAdvances` | internal/infrastructure/postgres/schedule_repo.go:153-251 | in every reachable store a schedule fails to fire if and only if credits allow it and its owner has a job under its next key; otherwise next_run_at moves to the least match not in the past, with or without credits, and the instant is recorded exactly if credits allow |
| `Cron.EachInstantFiresOnce` | internal/infrastructure/postgres/schedule_repo.go:138-257 | over any run with pauses, downtime, refused credits and jobs submitted under any key: fired instants are matches and strictly increase; each key is taken by the one job fired then or by the owner's own, never both; the next key is taken exactly if the owner chose it |
| `Cron.FiresExactlyIfDue` | internal/infrastructure/postgres/schedule_repo.go:153-160 | a batch may hold a schedule if and only if it is not paused and its next run has come |
| `Cron.PausedNeverFires` | internal/infrastructure/postgres/schedule_repo.go:104-123 | over every run in which nobody resumes it, a paused schedule stays at its next run, fires at no instant, and no key of it is taken but by a job its owner submits |
| `Cron.BatchAbortsExactly` | internal/infrastructure/postgres/schedule_repo.go:183-251 | in every reachable store a batch is undone if and only if some schedule in it has credits and its next key was taken by its owner |
| `Cron.BlockedMovesExactlyIfReleased` | internal/infrastructure/postgres/schedule_repo.go:189-201 | such a schedule keeps its place over a step if and only if the step is not a committed batch in which its credits are refused |
| `Cron.BlockedUndoesItsBatches` | internal/infrastructure/postgres/schedule_repo.go:228-251 | over every run in which its credits are not refused it stays where it is, and every batch that holds it changes nothing for any schedule |
| `Cron.SubmittedKeyUndoesABatch` | internal/usecase/job.go:50-74 | a run with two schedules and one submitted key after which the batch of both is undone, although the other alone would fire |
| `Cron.ScheduleRepository.ClaimAndFire` | internal/infrastructure/postgres/schedule_repo.go:142-257 | what is picked is due and not paused; such a schedule is left out only if the limit is used up by others due no later; all picked are fired and advanced and no other changes, or, when an insert hits a taken key, nothing changes |
| `Pages.ListJobs` | internal/usecase/job.go:219-282 | a page of the rows below the cursor, of 20 rows by default and at most 100; the next cursor is the row behind the page |
| `Pages.ListDeliveries` | internal/http/handler/webhook.go:48-94 | a page of the rows below the cursor, of 25 rows by default and at most 100; the next cursor is the last row on the page |
| `Pages.ListTransactions` | internal/infrastructure/postgres/billing_repo.go:254-322 | the same, of 50 rows unless 1 to 100 are asked for |
| `Pages.WalkDeliveries` | internal/infrastructure/postgres/webhook_delivery.go:128-141 | following the cursor to the end returns the whole table once, in order, for every page size |
| `Pages.WalkTransactions` | internal/usecase/billing.go:54-59 | the same for the transaction list |
| `Pages.WalkJobs` | internal/infrastructure/postgres/job_repo.go:335-351 | the walk through the job list ends and returns the table without the peeked rows |
| `Pages.LostPositions` | internal/usecase/job.go:273-279 | exactly the rows at positions congruent to limit modulo limit + 1 are lost |
| `Pages.JobsCompleteIff` | internal/usecase/job.go:273-279 | the walk is complete if and only if one page holds the table |
| `LikeSearch.EscapedIsLiteral` | internal/infrastructure/postgres/job_repo.go:370-377 | an escaped text followed by a pattern matches exactly the strings that start with it and go on to match |
| `LikeSearch.SearchIsSubstring` | internal/infrastructure/postgres/job_repo.go:323-326 | the search pattern matches exactly the URLs that contain the text, up to a case fold that fixes the metacharacters |
| `Backoff.WebhookRetryDelay` | internal/scheduler/webhook_dispatcher.go:156-175 | base * 2^(n-1) capped at an hour, for all n, in int64 arithmetic, for a base below 2^62; from there on, an hour if some wrapped doubling reaches one, else the last wrapped doubling, which is negative for n = 2 |
| `Backoff.RetryDelayInRange` | internal/scheduler/worker.go:363-376 | asked for only below the budget; positive and an int64; 30 s times the attempt if linear, 30 s if neither; if exponential within a quarter of 30 s * 2^n, or of one hour from the seventh retry on |

## Left out

- Interleavings inside one statement: row locks and SKIP LOCKED. Two concurrent claims of one buffer, where the second skips the locked head, are one after the other here.
- Clock skew: processes and database share one clock of whole units. Heartbeat ticks are punctual, and the ticker keeps one tick for a late reader; start delay, call latency and write delay are parameters of every lease theorem.
- Overdraft.OverdraftIsBounded: daily limits are at least 1, initial balances and top-ups nonnegative.
- Buffers.RateIsKept: tokens are exact reals, without the rounding of double precision; the rate of a buffer does not change.
- Backoff.RetryDelayInRange: float64 is not modelled; below a budget of 20 its powers of two are exact.
- Buffers.DeliveryIsOrdered: one buffer by itself, since buffers share only the clock; created_at does not decrease from push to push; deleting a buffer is not modelled, and pausing one only delays claims.
- Cron.EachInstantFiresOnce: the cron parser and Next are a function assumed to return the least later match; an invalid expression (next run in an hour) and deleting a schedule are not modelled. A transaction the source leaves open after a failed advance is taken as rolled back.
- Pages.WalkJobs: the table does not change during the walk; filters, ownership and the text encoding of cursors are left out.
- LikeSearch.SearchIsSubstring: the case fold is any map of characters that fixes the metacharacters; folds that change length are left out.
- Ownership checks on user ids.
- HTTP execution, request signing, safe dialing, authentication, the API rate limiter.
- Stripe, checkout, mail, alert channels, signing-secret rotation.
- Partition maintenance, statistics, metrics, logging and health checks: they would add only easy members.
