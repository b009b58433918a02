# Blog workflow: durable jobs, money, limits and outlines

A Dafny model of the backend of an AI blog writing service, with proofs of what its
durable job protocol, its budget accounting, its rate limiter and its outline parser
promise.

**Durable jobs.** An API, several workers and a reaper move blog sessions forward through
database rows: outbox events, sessions, session leases, versions, and the rows of the
budget. Every database transaction is one atomic step; a run is any sequence of steps of
any number of processes. Time is an integer clock that never goes back. The token of an
attempt is fresh. The message queue is not part of the state: a delivery of any event may
arrive at any time, any number of times or never, so losses, repeats and reorderings are
all covered. A workflow run is an arbitrary result, success or failure. `Workflow.dfy`
states each transaction as a function from the tables before to its outcome;
`Database.dfy` holds the tables as one mutable object whose methods carry the transactions
out row by row and are proved against those functions.

**Money.** Amounts are integers in units of 1e-8 USD. Accounts, reservations, the
append-only ledger and agent runs hold overlapping views of the same money.

**Rate limiter.** The Lua script over a sorted set with key expiry, as methods of a small
Redis store and as a function of one key's content.

**Outlines.** The Markdown parser at the level of characters: the regular expressions as
functions of a line, the line loop with section objects that `current` aliases, and printers
for the two documented forms and for a wide family of other spellings.

## Files

- `Rows`, `Tables`, `Lifecycle`, `Outbox`, `Leases`, `Budget`, `Charging`, `Quotas`: rows,
  tables and what each repository and service does to them.
- `Workflow`: the transactions, steps and runs. `Database`: the same as methods.
- `Invariant`, `Protocol`, `Transactions`, `Accounting`, `Reachable`: the invariant of every run.
- `Fencing`, `Histories`, `Coherence`, `Phases`, `Recovery`, `Losses`, `Reservations`,
  `Settlement`, `Grants`, `Together`, `Promises`: what follows from it.
- `Answers`, `Usage`, `Saving`, `Creating`, `Reviews`, `Reaping`: what every transaction answers,
  in plain values and without the functions that compute it.
- `Counterexamples`, `Crossing`: concrete runs that show where it stops.
- `Sums`, `Text`: finite sums; characters and strings as Python sees them.
- `RateLimiter`: the limiter.
- `Matchers`, `Outline`: the parser. `OutlineSections`, `OutlineLines`, `OutlineActions`: what
  single lines do. `OutlineForms`, `OutlineTotals`: round trips, totals, and every answer.

`dafny verify dfyconfig.toml` checks the whole project.

## Three ways the protocol falls short

- *An event can be lost.* `_acquire_lease` compares the phases of job and session only while
  the session is QUEUED. An attempt of an earlier phase that stalls between its claim and its
  acquisition can acquire the session when it is PROCESSING for a later phase and its lease
  has expired, and overwrites the job phase. The retry of the later attempt then leaves a
  QUEUED session whose job phase is not that of its event, the next attempt takes the event
  for obsolete and completes it, and the session waits for ever. The performance objectives
  promise zero silently lost events
  (docs/backend/performance/slo-sli-and-stress-plan.md:22); this run breaks that promise.
  `Counterexamples.EventCanBeLost` is the run. The exact condition is the completion itself:
  a session loses its event if and only if an attempt that stopped as obsolete completes an
  event it still owns (`Losses.EventLostExactly`, and over whole runs
  `Losses.SessionHasItsEventExactly`), and it stops so if and only if it reads a QUEUED
  session of another job phase (`Losses.ObsoleteExactly`). Overwriting a job phase is the
  weaker fault: it happens if and only if phases differ at an acquisition
  (`Reservations.CoherentExactly`), and a later redelivery may restore the phase.
- *A reservation can be missing.* The same unchecked acquisition can take a session back from
  its revision to its first phase, where its reservation is needed and was settled long ago.
  `Crossing.CrossingBreaksReservations` is the run. Reservations are exact if and only if no
  acquisition crosses the revision boundary (`Reservations.ReservationsExactly`).
- *A session can be stranded.* An attempt whose claim has expired cannot schedule its retry,
  but its clean-up releases its lease. The session stays PROCESSING without a lease, and
  acquisition asks for QUEUED. No attempt can acquire it again; only the reaper ends it, by
  failing it when the attempts are used up. `Counterexamples.StalledRunStrands` is the run,
  `Recovery.AcquiresExactly` says when an acquisition succeeds.

The docstring of `recover_stale_processing_session` calls it reaper-only; the model follows
the code, where a worker's retry uses it.

## Model

| member | source | states |
|---|---|---|
| `Reachable.NextKeepsInv` | backend/src/services/workflow_result_persister.py:51-135 | every transaction of the API, the workers and the reaper keeps the whole invariant of the tables and of the books |
| `Reachable.ReachableIsOk` | backend/src/services/blog_service.py:85-172 | the invariant holds in every state that any sequence of transactions of any number of processes can reach |
| `Promises.ClaimsInEveryRun` | backend/src/models/orm_models.py:352-361 | in every run: owner and lock expiry are set exactly while an event is PROCESSING, a PENDING event has at most 3 attempts behind it, a session has at most one active event and at most one open lease |
| `Fencing.StepAdvances` | backend/src/models/repositories/workflow_outbox_repository.py:119-258 | no transaction ever moves a row backwards: an event is never handed to an attempt that already existed, an ended event or lease is frozen, an attempt never returns to an earlier stage |
| `Fencing.FencedForever` | backend/src/models/repositories/workflow_outbox_repository.py:193-258 | fencing is permanent: once the claim is no longer the attempt's, no later state passes the claim check and nothing it does through the claim changes anything; the same for the lease once its row has ended |
| `Fencing.LostLeaseWritesNothing` | backend/src/models/repositories/session_lease_repository.py:133-172 | an attempt whose lease row has ended can save, fail, beat or release without any effect |
| `Fencing.ResultNeedsOwnership` | backend/src/services/workflow_result_persister.py:111-135 | a result is committed only by the attempt that owns the claim, the PROCESSING session and the live lease at that moment, and ends the event |
| `Fencing.AtMostOneResult` | backend/src/services/workflow_result_persister.py:51-109 | in any run at most one transaction commits a result for an event, whatever claims, expiries, duplicate deliveries and stalled workers lie between |
| `Fencing.EndedStaysEnded` | backend/src/models/repositories/workflow_outbox_repository.py:182-228 | a PROCESSED or FAILED event is never changed again |
| `Promises.SavesExactly` | backend/src/services/workflow_result_persister.py:51-135 | a result is saved if and only if its attempt owns claim, PROCESSING session and live lease and the result is usable for its phase, a failure if and only if it owns them; no other check of the transactions ever raises, and without ownership nothing is written |
| `Promises.OneOwnerInEveryRun` | backend/src/services/workflow_result_persister.py:111-135 | in every run at most one attempt owns a session |
| `Protocol.AcquiredShape` | backend/src/models/repositories/session_lease_repository.py:42-131 | an acquisition by a new owner ends at most the expired open lease, inserts one lease row and moves session and active version together to PROCESSING, and changes nothing else |
| `Protocol.AcquireKeeps` | backend/src/workers/job_attempt_processor.py:144-180 | whatever the acquisition transaction of an attempt does, the invariant holds afterwards |
| `Protocol.ScheduleRetryShape` | backend/src/workers/job_attempt_processor.py:261-287 | a retry under a current claim either finds no attempt left and changes nothing, or puts event, session and version back together and ends the attempt's own lease; it never meets a session it cannot requeue |
| `Transactions.PersistSuccessShape` | backend/src/services/workflow_result_persister.py:51-79 | a committed result ends exactly its own event, rewrites exactly one session and its active version to the same status, the one its phase and content call for, and leaves leases and every other row alone |
| `Transactions.PersistFailureShape` | backend/src/services/workflow_result_persister.py:81-109 | a committed failure ends exactly its own event as FAILED and its session and active version with it |
| `Saving.SuccessAnswer` | backend/src/services/workflow_result_persister.py:137-239 | a result is saved if and only if its attempt owns claim, session and lease and the result is usable; everything it then leaves is stated in plain values: event PROCESSED, status and documents of the version (draft, final content, outline, approved outline), the session's totals, one ledger entry for each due stage; an outline leaves accounts and reservation alone, a rejection or final result closes an open reservation and charges exactly minus the COMMIT sum of the ledger, giving the rest back in one RELEASE entry; every other row is kept |
| `Saving.FailureAnswer` | backend/src/services/workflow_result_persister.py:81-109 | a failure is saved if and only if its attempt owns all three; event, session and version are FAILED, an open reservation is refunded in full with nothing charged: the account only loses the reserved amount, one RELEASE entry of the reserved tokens and money is added, settlements and all other rows are kept |
| `Creating.CreateAnswer` | backend/src/services/blog_service.py:106-172 | a request goes through if and only if the user has no session under way, fewer than 5 slots taken today (clock / 86400), the lock and one dollar available; then slot, reservation, RESERVE entry, session, version 1 and event are exactly these, otherwise nothing changes |
| `Creating.CreateRefusal` | backend/src/services/blog_service.py:106-146 | which of the four conditions a refused request is told of |
| `Creating.FiveADay` | backend/src/services/blog_service.py:113-119 | over any run at most five requests of a user go through on one calendar day |
| `Creating.RefusedForTheDayExactly` | backend/src/models/repositories/blog_quota_repository.py:16-49 | after any run a request is refused for the daily limit if and only if the user is idle and exactly five of the user's requests went through today |
| `Creating.GoesThroughExactly` | backend/src/services/blog_service.py:106-172 | after any run a request goes through if and only if the user is idle, fewer than five of the user's requests went through today, the lock is taken and a dollar is available |
| `Transactions.CreateKeeps` | backend/src/services/blog_service.py:106-172 | a creation keeps the invariant, and the one-active-event index never rejects its event |
| `Reviews.OutlineReviewAnswer` | backend/src/services/blog_service.py:185-252 | an outline review is accepted if and only if it has an outline and its sender owns a session that waits for it; the outline becomes the version's outline and approved outline, both rows are QUEUED for research and one PENDING event is added; every other row is kept |
| `Reviews.FinalReviewAnswer` | backend/src/services/blog_service.py:254-340 | accepted if and only if the sender owns a session that waits for its final review; approve completes session and version, reject makes both REJECTED and clears the phase, a revision request queues the session for a new version with the next number and the four documents of the old one, and adds one PENDING event; every other row is kept |
| `Reviews.FinalReviewActs` | backend/src/services/blog_service.py:254-340 | a final review changes anything at all if and only if its sender owns a session that waits for it |
| `Reviews.ReviewRefusals` | backend/src/services/blog_service.py:194-202 | which refusal a review that is not accepted gets |
| `Transactions.OutlineReviewKeeps` | backend/src/services/blog_service.py:185-252 | an outline review keeps the invariant, and the index never rejects its event |
| `Transactions.FinalReviewKeeps` | backend/src/services/blog_service.py:254-340 | a final review keeps the invariant, and the index never rejects its event |
| `Reaping.ReaperAnswer` | backend/src/workers/reaper.py:51-67 | an event changes if and only if it is PROCESSING under an expired claim with at least four attempts and not skipped, and is FAILED without lock columns then; a session becomes FAILED if and only if it is unfinished and has such an event; no other row changes |
| `Reaping.SparesRetryable` | backend/src/models/repositories/workflow_outbox_repository.py:73-95 | in every run an expired claim with fewer than four attempts outlives the reaper and can be claimed again |
| `Transactions.ReaperKeeps` | backend/src/workers/reaper.py:51-67 | failing exhausted claims with their sessions keeps the invariant |
| `Answers.ClaimAnswer` | backend/src/models/repositories/workflow_outbox_repository.py:119-146 | a claim is granted if and only if the event is available and PENDING or under an expired claim; it counts one attempt, lasts 300 seconds and changes no other row |
| `Answers.AcquireAnswer` | backend/src/models/repositories/session_lease_repository.py:42-131 | which claimed attempts take their session, and the lease of 300 seconds, its number, the phase and the outline they take it with; the others end as obsolete, blocked or given up, in this order of precedence |
| `Answers.BeatAnswer` | backend/src/workers/job_attempt_processor.py:194-217 | a heartbeat makes the claim last 300 and the lease 90 seconds from now if and only if the attempt owns its event and has an open lease, expired or not, and changes nothing else |
| `Answers.RetryLaterAnswer` | backend/src/workers/job_attempt_processor.py:261-287 | a retry happens if and only if the running attempt holds a claim that still runs and has an attempt left; event, session, version and own lease are then put back exactly so, with 2, 4 or 8 seconds of backoff |
| `Answers.RelayBatchExactly` | backend/src/models/repositories/workflow_outbox_repository.py:68-71 | the relay's batch holds, in order of their ids, the first 100 eligible events |
| `Leases.ActiveLeaseIs` | backend/src/models/repositories/session_lease_repository.py:174-185 | with one open row per session the lookup of the active lease finds that row, whatever the order of rows |
| `Leases.EndedHoldsNothing` | backend/src/models/repositories/session_lease_repository.py:200-232 | an owner whose lease row has ended passes the lease check under no version number, although versions restart at 1 |
| `Histories.LifecycleSafety` | backend/src/models/orm_models.py:104-119 | every status change any transaction makes is an edge of the transition table, although several writers bypass the validator, except PROCESSING to QUEUED when a retry is scheduled |
| `Histories.TerminalForever` | backend/src/models/orm_models.py:76-91 | a terminal session keeps its status in every later state |
| `Histories.RetriesAreBounded` | backend/src/models/repositories/workflow_outbox_repository.py:230-248 | in any run an event is retried at most three times, at strictly increasing attempt counts, with backoffs of at most 14 seconds in total |
| `Histories.RetryBacksOff` | backend/src/models/repositories/workflow_outbox_repository.py:240-247 | every retry, scheduled or forced by a held lease, waits exactly 2, 4 or 8 seconds by attempt count and asks for a new dispatch |
| `Histories.NoActiveEventForgotten` | backend/src/models/repositories/workflow_outbox_repository.py:37-71 | in every reachable state an active event left alone becomes eligible for the relay at one known instant and stays so, at most 300 seconds away, even if every queue message is lost |
| `Outbox.ActiveEventBecomesEligible` | backend/src/models/repositories/workflow_outbox_repository.py:47-67 | the instant is the later of availability and 30 seconds after creation or 300 after dispatch when PENDING, and of availability and lock expiry when PROCESSING; before it the event is not eligible |
| `Outbox.DispatchBatchExactly` | backend/src/models/repositories/workflow_outbox_repository.py:68-71 | an event is in the relay's batch if and only if it is eligible and fewer than the limit of eligible events come before it |
| `Outbox.UnclaimedDeliveryExactly` | backend/src/workers/job_attempt_processor.py:219-246 | an unclaimed delivery goes back on the queue, before its acknowledgement, if and only if its event could be claimed now; a dropped one of an active event is left to the relay at a later, known instant |
| `Outbox.RelayPublishesOnlyRetryable` | backend/src/models/repositories/workflow_outbox_repository.py:73-95 | on one clock reading and with no row skipped, nothing eligible after exhausted claims are failed has used up its attempts |
| `Database.PublishedIsRetryable` | backend/src/workers/reaper.py:51-97 | the same of what one relay turn publishes |
| `Histories.VersionsAreNumbered` | backend/src/models/repositories/blog_version_repository.py:65-119 | in every reachable state the version numbers of a session are exactly 1..n, each once, and the active version is number n, so the latest and the active version are the same row |
| `Coherence.AcquisitionCoherentExactly` | backend/src/workers/job_attempt_processor.py:152-169 | from a coherent state an acquisition leaves a coherent state if and only if the attempt's phase is the session's job phase; the code checks that only for QUEUED sessions |
| `Coherence.NextCoherent` | backend/src/services/workflow_result_persister.py:81-109 | every transaction keeps a session's status and phase in step with its active event, except an acquisition by an attempt of another phase |
| `Losses.ObsoleteExactly` | backend/src/workers/job_attempt_processor.py:152-166 | while it owns its claim an attempt stops as obsolete if and only if it reads a QUEUED session of another job phase |
| `Losses.EventLostExactly` | backend/src/workers/job_attempt_processor.py:158-166 | a transaction leaves a session in progress without an active event if and only if it is the completion, by an attempt that stopped as obsolete, of an event that attempt still owns |
| `Losses.OrphanedExactly` | backend/src/workers/job_attempt_processor.py:158-166 | at the end of any run a session is in progress without an event if and only if such a completion of its event occurs in the run |
| `Losses.SessionHasItsEventExactly` | backend/src/models/orm_models.py:354-360 | in any run at all, a session is QUEUED or PROCESSING exactly when it has exactly one active event and otherwise has none, if and only if no such completion of its event occurs in the run |
| `Phases.ResultHasItsPhase` | backend/src/services/workflow_result_persister.py:61-77 | in every run a result or failure is only saved for the phase the session is in, even where a job phase has been overwritten |
| `Reservations.CoherentExactly` | backend/src/workers/job_attempt_processor.py:158-161 | along a whole run status, phase and active event of every session stay in step if and only if every acquisition of the run is by an attempt of the session's own phase |
| `Reservations.SessionMatchesEvents` | backend/src/models/orm_models.py:354-360 | in such a run every active event has the job phase of its session, besides what holds of the runs above and below |
| `Reservations.AcquisitionReservationsExactly` | backend/src/models/repositories/session_lease_repository.py:258-280 | from exact reservations an acquisition leaves exact reservations if and only if the attempt is of a revision job exactly when its session is |
| `Reservations.ReservationsExactly` | backend/src/services/workflow_result_persister.py:171-239 | along a whole run every reservation is open exactly while its session is QUEUED, PROCESSING or AWAITING_OUTLINE_REVIEW in one of the first two phases, or was failed there by the reaper, if and only if no acquisition of the run crosses the revision boundary |
| `Crossing.CrossingBreaksReservations` | backend/src/models/repositories/session_lease_repository.py:71-73 | a concrete run in which a stalled attempt of the first phase acquires a PROCESSING revision session, after which a session in progress in its first phase has no open reservation |
| `Together.StatusesInEveryRun` | backend/src/models/repositories/blog_version_repository.py:121-178 | in every run the active version's status is the session's, or the session is FAILED while its version still says QUEUED or PROCESSING |
| `Together.OnlyReaperParts` | backend/src/workers/reaper.py:56-67 | no transaction but the reaper's parts a session's status from that of its active version |
| `Reservations.ReaperExact` | backend/src/workers/reaper.py:56-67 | the reaper fails sessions without closing any reservation or updating any version; such a session counts as still holding its reservation, and every other one stays exact |
| `Counterexamples.PhaseCanBeOverwritten` | backend/src/models/repositories/session_lease_repository.py:71-73 | a concrete run in which a stalled attempt of the first phase acquires a PROCESSING session of the second phase and overwrites its job phase |
| `Counterexamples.EventCanBeLost` | backend/src/workers/job_attempt_processor.py:158-166 | the run goes on to lose the event: the session is QUEUED with no active event, in this state and in every later one |
| `Recovery.OrphanedForever` | backend/src/services/blog_service.py:106-108 | a session in progress without an active event stays so in every later state, and every later generation request of its user is refused |
| `Recovery.AcquiresExactly` | backend/src/models/repositories/session_lease_repository.py:48-73 | an attempt that still owns its claim acquires its session if and only if the session wants the job and is QUEUED with no open lease or has an expired open lease; the content checks never stand in the way |
| `Recovery.StrandedNeverRecovers` | backend/src/models/repositories/session_lease_repository.py:254-257 | a session PROCESSING without an open lease and without a claim behind it is never acquired again, whatever happens, until the reaper fails it |
| `Counterexamples.StalledRunStrands` | backend/src/workers/job_attempt_processor.py:261-302 | a concrete run that strands a session: a retry refused after the claim expired, followed by the release of the lease |
| `Promises.UninterruptedAttempt` | backend/src/workers/job_attempt_processor.py:65-115 | a claimable event of a free session, one fresh attempt and no interruption: the event ends PROCESSED and the session waits for its review |
| `Budget.ReleaseExcessSettles` | backend/src/services/budget_service.py:108-142 | settling an open reservation frees exactly the reservation and charges exactly what the ledger recorded; freed plus the spending within the reservation is the reservation, and the max(0, ...) clamp of the account is never active |
| `Budget.ReleaseAllFrees` | backend/src/services/budget_service.py:144-165 | a full release gives back exactly the reservation, charges nothing, and its clamp is never active |
| `Settlement.StepStays` | backend/src/models/repositories/session_reservation_repository.py:16-59 | every transaction keeps a reservation as it is, or stamps an open one with the time; it never changes amounts, reopens or replaces one, and never changes what a closed one was charged |
| `Settlement.ClosedForever` | backend/src/models/repositories/session_reservation_repository.py:32-59 | a closed reservation, and what its closing charged, are the same in every later state of every run |
| `Settlement.AtMostOneClosing` | backend/src/services/budget_service.py:108-165 | in any run at most one transaction closes a session's reservation |
| `Settlement.ClosedIsDone` | backend/src/services/budget_service.py:108-165 | in every later state both ways of closing it again are no-ops |
| `Grants.GrantsInEveryRun` | backend/src/services/auth_service.py:63-79 | in every run what an account was granted is the sum of its GRANT entries, and balance and spending together are exactly that |
| `Budget.ReserveKeepsMoney` | backend/src/services/budget_service.py:35-68 | reserving keeps every account equal to the sum of its open reservations |
| `Budget.ReservedWithinBalance` | backend/src/models/repositories/budget_account_repository.py:46-91 | when no settled session went over its reservation, 0 <= reserved <= balance |
| `Budget.ChargedWithinLedger` | backend/src/models/repositories/budget_repository.py:60-81 | the account is never charged more than the ledger records |
| `Usage.UsageChargesExactly` | backend/src/services/workflow_result_persister.py:251-324 | committing any list of usage adds one COMMIT entry, in order, for each item with tokens whose stage was not completed before, neither by a run nor by an earlier item: over minus its tokens and minus its price, naming a COMPLETED run of that stage that holds both; the session's totals grow by the sums of those items |
| `Usage.LedgerSumsExactly` | backend/src/models/repositories/budget_repository.py:60-81 | the COMMIT sums of the session fall by exactly these sums, in tokens and in money |
| `Usage.StagesDoneExactly` | backend/src/services/workflow_result_persister.py:275-316 | after the list a stage is done if and only if it was, or an item of the list measured it |
| `Usage.RunsRecorded` | backend/src/models/repositories/agent_run_repository.py:82-126 | the first item to measure an open stage leaves its tokens and its price in a COMPLETED run; no COMPLETED run ever changes |
| `Charging.CommitUsageKeepsCharges` | backend/src/services/workflow_result_persister.py:251-324 | committing any list of usage keeps session totals, COMMIT entries and completed runs equal, each entry the price of its run, and gives no run a second COMMIT |
| `Promises.AccountsInEveryRun` | backend/src/models/repositories/budget_account_repository.py:38-91 | in every run, for every user: reserved is the sum of open reservations, balance plus spending is what was granted, spending is the sum of settled costs and within the ledger, and balance minus reserved is at least minus the settled overruns |
| `Charging.ChargingIsReplaySafe` | backend/src/services/workflow_result_persister.py:266-324 | applying the same usage list again for the same version changes nothing at all |
| `Charging.UsageOnlyCharges` | backend/src/services/budget_service.py:70-106 | committing usage only adds ledger entries and changes agent runs and the spent columns of that one session |
| `Promises.UsageInEveryRun` | backend/src/models/repositories/agent_run_repository.py:71-126 | in every run a session's spent tokens, the negated sum of its COMMIT entries and the tokens of its COMPLETED runs are equal, each COMMIT is over minus the tokens and the price of its run, and no run has two |
| `Accounting.PersistSuccessKeepsAccounting` | backend/src/services/workflow_result_persister.py:137-239 | every checkpoint keeps all accounting invariants |
| `Accounting.PersistFailureKeepsAccounting` | backend/src/services/workflow_result_persister.py:97-101 | a saved failure keeps all accounting invariants |
| `Quotas.RowAcceptsAsDayDoes` | backend/src/models/repositories/blog_quota_repository.py:16-49 | with dates that never go back and a limit of at least 1, the single counter row accepts exactly the requests that a counter per user and day would |
| `Quotas.RemainingIsExact` | backend/src/models/repositories/blog_quota_repository.py:51-61 | at most the limit is accepted on any day, and get_remaining plus that day's accepted count is the limit |
| `Quotas.RefinementNeedsBoth` | backend/src/models/repositories/blog_quota_repository.py:43-46 | both conditions are needed: concrete requests for a limit of 0 and for a date that goes back |
| `RateLimiter.DecidesAsHistory` | backend/src/services/rate_limiter.py:13-33 | with a limit of at least 1, unique members and a clock that never goes back, every decision of the pruned, expiring set is that of a checker that keeps the whole history |
| `RateLimiter.WindowBound` | backend/src/services/rate_limiter.py:20-30 | for every time t at most the limit of requests is admitted in (t - window, t] |
| `RateLimiter.ResetIsExact` | backend/src/services/rate_limiter.py:24-27 | after a rejection every request before its reset time is rejected too and the first one at or after it is admitted |
| `RateLimiter.RemainingIsExact` | backend/src/services/rate_limiter.py:29-32 | after an admission exactly `remaining` more requests of the same second are admitted, for a window of at least one second |
| `RateLimiter.SlotsUntilReset` | backend/src/services/rate_limiter.py:24-32 | an admission takes a slot exactly until its own reset time: a request is admitted if and only if fewer than the limit of earlier admissions have a reset time still to come, `remaining` is what is then left, and 0 for a rejection |
| `RateLimiter.LimitBelowOneRaises` | backend/src/services/rate_limiter.py:24-26 | with a limit below 1 every call ends in a script error |
| `RateLimiter.ExpiryIsInvisible` | backend/src/services/rate_limiter.py:30-30 | the key expiry never drops an element that pruning would keep |
| `RateLimiter.Redis.Check` | backend/src/services/rate_limiter.py:73-89 | the script run on the store decides and stores as specified, and touches no other key |
| `OutlineForms.RoundTrip` | backend/src/normalizer.py:335-350 | every printable outline (3 to 7 numbered sections, valid word targets, exact total, one-line trimmed fields) in every spelling of the family parses back to itself, a range giving its lower bound: headings, bold lines or bullets for sections, bold or bulleted labels, every label name in any case, every mark behind a section number and within a range, with any blanks, chosen anew for each section; for a title behind a single # if and only if it is not read as a section heading or a labelled title |
| `OutlineForms.BoldRoundTrip` | backend/src/normalizer.py:373-381 | the documented bold form: every printable outline parses back to itself |
| `OutlineForms.HeadingRoundTrip` | backend/src/normalizer.py:383-387 | the documented heading form, word counts as ranges: the same outline with the lower bounds if and only if the title is not read as a section heading or a labelled title |
| `OutlineForms.FencedIsTheSame` | backend/src/normalizer.py:142-151 | a text put between fences, with or without a json tag and with any prose before and behind, is recovered unchanged, and a text without a fence is left alone |
| `OutlineTotals.DeclaredTotal` | backend/src/normalizer.py:541-549 | a line that declares the total, wherever it stands and under any of its names, takes the place of the sum of the targets; the outline is then accepted if and only if title, number of sections and that total are within the bounds; a total without a digit is none |
| `OutlineTotals.NormalizesExactly` | backend/src/normalizer.py:389-417 | the answer to every text at all: no output if and only if blank, JSON if and only if a brace comes first, then the missing title before the first incomplete section before the schema; what is accepted is exactly what the lines gave |
| `OutlineTotals.ValidatesExactly` | backend/src/models/schemas.py:30-35 | a payload is accepted, unchanged, if and only if it is within the schema's numbers |
| `OutlineActions.LabelLinesAnswer` | backend/src/normalizer.py:484-506 | on any state, a goal or words line in any spelling replaces goal or target of the current section and nothing else, and does nothing without one |
| `OutlineActions.BareBulletAnswer` | backend/src/normalizer.py:508-516 | a bullet without a label is the goal of a current section that has none, and nothing otherwise |
| `OutlineActions.TitleLinesAnswer` | backend/src/normalizer.py:518-529 | a bold title line replaces the title, a plain one only stands in for a missing title outside sections |
| `OutlineActions.SectionLineAnswer` | backend/src/normalizer.py:600-607 | a numbered section opens under its own number whatever was read before |
| `OutlineActions.PartHeadingAnswer` | backend/src/normalizer.py:624-632 | a part opens the next section under the next number, unless it is the opening top-level heading |
| `OutlineActions.OtherHeadingAnswer` | backend/src/normalizer.py:620-634 | any other heading is the title, opens section 1 or goes back to the last section, by what was read before |
| `OutlineActions.TitleHeadingAnswer` | backend/src/normalizer.py:609-618 | a heading labelled as the title gives the title at any level and time, and closes the current section |
| `OutlineForms.LabelledTitleIs` | backend/src/normalizer.py:609-618 | a heading that starts like a title label keeps its text as title exactly when it has no colon, no `Title ` prefix and no `blog title` prefix |
| `OutlineSections.OnlyLastChanges` | backend/src/normalizer.py:461-536 | a line either appends one empty section or changes at most goal and target of the last one; earlier sections never change |
| `OutlineSections.SectionsOwnTheirLines` | backend/src/normalizer.py:582-634 | every section is exactly what the lines between its own opening and the next opening make of its bare heading; no other line matters |
| `OutlineSections.AcceptedSectionsOwnTheirLines` | backend/src/normalizer.py:565-579 | of an accepted outline every goal and word target comes from the lines after its own section opened and before the next one opened |
| `OutlineSections.AcceptedWasParsed` | backend/src/normalizer.py:393-417 | every accepted text went through the Markdown parser and the schema, so the statement above covers all of them |
| `Outline.BoldLineIsBullet` | backend/src/normalizer.py:531-536 | the branch for bold lines is dead: every line it would match has already been taken as a bullet |
| `OutlineLines.ReadsBoldSection` | backend/src/normalizer.py:508-512 | a bold section line opens section k with its heading, whatever mark stands between |
| `OutlineLines.ReadsHeading` | backend/src/normalizer.py:471-476 | a `#` line is read as its bare text at its own level |
| `OutlineLines.ReadsRun` | backend/src/normalizer.py:637-646 | a number, with or without commas in it, followed by anything without a digit gives the number |
| `OutlineLines.ReadsRange` | backend/src/normalizer.py:642-645 | a range gives its lower bound, with or without commas in it, whichever of the five marks joins it |
| `Outline.ParserState.Perform` | backend/src/normalizer.py:461-536 | at every turn of the loop `current` is None or the last section object, and what is written through it is what the specification says of the last section |
| `Outline.ParserState.ConsumeHeadingLine` | backend/src/normalizer.py:582-634 | a heading line sets the title, opens a fresh section object at the end of the list or returns the last one, and writes to no existing section |
| `Outline.ParseOutlineMarkdown` | backend/src/normalizer.py:461-579 | the loop over aliased section objects yields what the fold over values yields, including which section is reported incomplete |
| `Outline.Normalize` | backend/src/normalizer.py:367-417 | normalize_outline on text returns the outline or the refusal of the specification |
| `Database.Database.Enqueue` | backend/src/models/repositories/workflow_outbox_repository.py:17-35 | a PENDING event is appended unless the session already has an active one |
| `Database.Database.ClaimEvent` | backend/src/models/repositories/workflow_outbox_repository.py:119-146 | a claim succeeds exactly for an available event that is PENDING or expired, and takes it over with one more attempt |
| `Database.Database.RetryEvent` | backend/src/models/repositories/workflow_outbox_repository.py:230-248 | only the owner of a claim with an attempt left puts the event back, after the backoff |
| `Database.Database.FailExhaustedExpiredClaims` | backend/src/models/repositories/workflow_outbox_repository.py:73-95 | the loop fails exactly the expired, exhausted, unlocked claims and returns exactly their sessions |
| `Database.Database.AcquireLease` | backend/src/models/repositories/session_lease_repository.py:42-131 | the in-place acquisition refuses, raises or acquires exactly as specified, with the specified tables |
| `Database.Database.UpdateStatus` | backend/src/models/repositories/blog_session_repository.py:188-207 | a status is written exactly when the validator lets it (also mark_failed and mark_agent_rejected) |
| `Database.Database.RecoverStaleProcessing` | backend/src/models/repositories/blog_session_repository.py:209-239 | PROCESSING goes back to QUEUED, a terminal session is left alone, any other status raises |
| `Database.Database.CreateSession` | backend/src/models/repositories/blog_version_repository.py:18-41 | a session is created together with its version 1, which it points to |
| `Database.Database.CreateRevisionFromActive` | backend/src/models/repositories/blog_version_repository.py:74-119 | a copy of the active version is appended under the next free number and becomes the active one |
| `Database.Database.ApplyReserve` | backend/src/models/repositories/budget_account_repository.py:46-60 | a reservation succeeds exactly when the available balance covers it |
| `Database.Database.GrantInitial` | backend/src/services/auth_service.py:63-79 | a grant and its ledger entry together |
| `Database.Database.CheckAndReserve` | backend/src/services/budget_service.py:35-68 | account, ledger, reservation and session columns change together, or the balance was short |
| `Database.Database.CommitStage` | backend/src/services/budget_service.py:70-106 | one COMMIT entry and the session totals, unless the run already has a COMMIT |
| `Database.Database.CommitRecorded` | backend/src/services/budget_service.py:84-90 | the loop over the ledger finds a COMMIT of the run exactly when there is one |
| `Database.Database.ReleaseExcess` | backend/src/services/budget_service.py:108-142 | an open reservation is settled by the ledger's own sums; a closed one is left alone |
| `Database.Database.ReleaseAll` | backend/src/services/budget_service.py:144-165 | an open reservation is released in full; a closed or empty one is left alone |
| `Database.Database.CompleteRun` | backend/src/models/repositories/agent_run_repository.py:82-126 | the run of the stage is created or updated as COMPLETED |
| `Database.Database.CommitUsage` | backend/src/services/workflow_result_persister.py:251-324 | the loop over usage items reaches the specified ledger, runs and totals |
| `Database.Database.ConsumeDailySlot` | backend/src/models/repositories/blog_quota_repository.py:16-49 | the conditional upsert accepts and counts as specified |
| `Database.Database.Create` | backend/src/services/blog_service.py:106-172 | a created session with quota, reservation and event, or nothing at all |
| `Database.Database.ReviewOutline` | backend/src/services/blog_service.py:185-252 | an accepted outline with its event, or nothing at all |
| `Database.Database.ReviewFinal` | backend/src/services/blog_service.py:254-340 | an accepted decision, with a new version and event for a revision, or nothing at all |
| `Database.Database.LockAttempt` | backend/src/services/workflow_result_persister.py:111-135 | the three checks in their order hold exactly when the attempt owns claim, PROCESSING session and live lease |
| `Database.Database.SaveSuccess` | backend/src/services/workflow_result_persister.py:51-79 | a whole checkpoint or nothing at all |
| `Database.Database.SaveFailure` | backend/src/services/workflow_result_persister.py:81-109 | a whole terminal failure or nothing at all |
| `Database.Database.Claim` | backend/src/workers/job_attempt_processor.py:132-142 | a claim and the attempt that holds it, or no change |
| `Database.Database.Acquire` | backend/src/workers/job_attempt_processor.py:144-180 | the acquisition transaction, rolled back when the lease is held or acquisition raises |
| `Database.Database.Beat` | backend/src/workers/job_attempt_processor.py:194-217 | both leases are extended or neither is |
| `Database.Database.RetryLater` | backend/src/workers/job_attempt_processor.py:261-287 | a whole retry or nothing at all |
| `Database.Database.HandleUnclaimedDelivery` | backend/src/workers/job_attempt_processor.py:219-246 | the queue operations for a delivery whose claim failed, in order |
| `Database.Database.FailExhaustedClaims` | backend/src/workers/reaper.py:55-67 | the loop over exhausted sessions fails exactly those that are not terminal, together with their claims, and never raises |
| `Database.Database.DispatchOutboxEvents` | backend/src/workers/reaper.py:51-97 | one relay turn publishes the first eligible events that fit in the queue, in order, and marks exactly those as dispatched |

## Left out

- The transport of the queue (lists, processing set, pub/sub, JSON encoding): replaced by arbitrary deliveries.
- Reading an idempotency key before a generation is created: a lookup that returns an existing row; requests that get past it are modelled.
- The count of active sessions and the creation after it are one atomic step here; no lock makes them so in the code, so the model does not claim that concurrent requests of one user cannot both pass.
- Row locks, lock order, the staleness of loaded rows and transactions that overlap: every transaction is atomic. Rows that another transaction holds are modelled only where the code skips them (`skipped`).
- A payload that cannot be read as a job (the `invalid job payload` path and `_fail_event`), and deliveries without an event id: payloads are the job they were written as.
- Agents, tools, research, prompts and the executor: a workflow run is an arbitrary result; costs are given exact integers, so the rounding of prices is not modelled.
- Columns that only record: error texts, stages, reasons, most timestamps, snapshots, research data, editor reviews, review events, titles.
- The agent session id in a hydrated job and its copy on the session.
- Schema validation of a reviewed outline: an empty outline stands for one the schema refuses.
- The message bodies of exceptions; only which error is raised.
- The wall clock: times are whole seconds, in the limiter seconds with milliseconds; every transaction reads the clock once.
- Database.Database.AcquireLease: a row a query returned is read again through its id, so aliasing between loaded rows is not captured.
- The branch of acquire_lease in which an update of the owner's own lease matches no row: one atomic step cannot lose the row it has just read.
- RateLimiter.DecidesAsHistory: the instant of the script and the reading of the caller's clock are the same instant; a delay between the two is not modelled.
- Elements of equal score are ordered by arrival, not by member; only counts and the first score are used.
- JSON outlines: the text is handed on as `Json` and not parsed further.
- Outline.Normalize: a number of more than some thousands of digits, for which Python's int() may raise, is read like any other; NUL and surrogate code points are ordinary characters.
- Digits of scripts other than those of Unicode 15, and case mappings that lengthen a string.
- OutlineForms.HeadingRoundTrip: the first line of the heading form is `# title`, as `_consume_heading` describes it; the documented example shows only the sections.
- Circuit breaker, editor loop, pagination, percentiles, authentication, HTTP routes, metrics, tracing, migrations and the user interface.
