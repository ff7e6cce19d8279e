# RepoArena verification

A Dafny model of the parts of RepoArena that are hard to get right by reading: the control plane's transactions,
the local runner's concurrency, hosted compute, billing, the optimizer, and the text rewriting and parsing around
them, with proofs about all their runs or all their inputs. `dafny verify dfyconfig.toml` checks the whole project.

How the system is modelled:

- A database transaction, or a single statement outside one, is one atomic step on maps and sequences. Asynchronous
  code is cut at its awaits, and any interleaving of the pieces is allowed. A theorem about "every run" quantifies over
  every sequence of steps, including steps that are refused.
- Code that updates rows or fields is a class (`CloudService`, `SchedulerService`, `RateLimiter`,
  `LocalAttemptPhaseCoordinator`, `HostedComputeService`, `BenchmarkRun`, `BillingService`, `SecretRedactor`) whose
  methods are proved to take exactly the steps of a specification function; the theorems are about those functions.
- Clocks, random identifiers, provider answers, command outcomes and abort signals are parameters. Content hashes are
  injective. Times are integer milliseconds (microseconds for run creation), periods have a fixed length, identifiers
  are ordered like numbers, statistics and optimizer metrics are real numbers, strings are sequences of characters.

| file | part |
|---|---|
| `Leases.dfy`, `CloudService.dfy` | runs, jobs, runners and idempotency keys |
| `Scheduler.dfy`, `RateLimit.dfy`, `Pagination.dfy` | schedules, rate limiter, listing of runs |
| `Coordinator.dfy`, `PhaseCoordinator.dfy`, `Attempts.dfy` | the phase lock, and N attempts that share it |
| `Hosted.dfy`, `HostedCapacity.dfy`, `HostedMetering.dfy`, `HostedBudget.dfy`, `HostedService.dfy` | hosted-compute leases: steps, limits, bills, budgets, service |
| `WorkerPool.dfy`, `BenchmarkRun.dfy` | the benchmark worker pool and its run file |
| `Ranking.dfy`, `Optimizer.dfy`, `Statistics.dfy` | trial ranking, the search loop, pass@k |
| `Glob.dfy`, `GlobCompiler.dfy`, `GlobMeaning.dfy` | glob patterns compiled to regular expressions |
| `Redaction.dfy`, `GitRecords.dfy` | secret redaction, Git output |
| `Billing.dfy` | subscription register and webhook events |
| `Wrappers.dfy`, `Strings.dfy`, `Whitespace.dfy`, `Sums.dfy` | shared definitions |

## What does not hold

Where a natural claim is false of the code, the model keeps the code, shows an input, and states when the claim holds.

- An expired idempotency key is refused for ever: its row is looked up only while unexpired but never deleted
  (`Leases.OneRunPerKey`).
- Attempts exceed `max_attempts` in a run exactly if some claim in it takes a claimable job that has used them up, a
  guard the claim query lacks (`Leases.MaxAttemptsExactlyIf`). In every run they stay within `max_attempts` plus the
  job's reclaims and requeuing revocations (`Leases.AttemptsBounded`), and reach that (`Leases.ReclaimsExceedLimit`).
- A dead-lettered job leaves its run open until a cancellation or an Actions result of it is accepted
  (`Leases.DeadLetterStrandsForEver`).
- The rate limiter admits up to 2*limit-1 calls in one window's length, for every policy (`RateLimit.TraceBoundTight`);
  it keeps to `limit` exactly for a limit of one (`RateLimit.NeverOverLimitExactlyIf`). It reads the clock before and
  inside its transaction, so a call can count for a window that is over when the row is stamped.
- A schedule moved back onto an occurrence it has recorded stays due and never fires (`Scheduler.MovedBackSticks`;
  `ClearKept` and `RecordedTimeBlocks` are the two halves of the exact condition). The failed insert aborts the tick's
  transaction, so the branch that deletes the run and goes on never takes effect: a tick fires all the rows it selects
  or none, none exactly when one of them is stuck (`Scheduler.TickAllOrNothing`), and a stuck schedule with the oldest
  next time stops all the others (`Scheduler.StuckOldestStopsAll`).
- The run cursor drops microseconds, so a page break between two runs of one millisecond can lose the earlier one
  (`Pagination.PagesCompleteExactlyIf` gives the exact condition).
- If removing the private workspace fails, and only then, `releasePrivate` is never called
  (`Attempts.ScheduleLeaksExactlyIf`). That can strand exactly the attempts not yet past their last wait
  (`Attempts.StrandedExactlyIf`, `Attempts.LeakReachable`).
- The second half of `provisionNext` checks no state; a cancel in between lets a machine in beyond the limit
  (`HostedCapacity.CancelBetweenBreaksCapacity`; `CapacityExactlyIf` gives the exact condition). Retryable failures can
  put the queue above `global_max_queued` by up to `global_max_active`. The bill's clock starts before the wall-time
  clock (`HostedBudget.TimeoutOvershoots`), so bills can pass the monthly budget (`BudgetExactlyIf` says when).
- A lease that failed before it got a machine can be billed a started minute, because its start and its end are two
  readings of the clock (`HostedBudget.UnprovisionedBill`).
- `?` is not escaped by the glob translation and `.` stops at line terminators (`GlobMeaning.LiteralExactlyIf`,
  `GlobMeaning.OneLineExactlyIf`).
- A missing cost ranks as `MAX_SAFE_INTEGER` but dominates as infinity, so a trial can be ranked behind one that it
  dominates, and that one recommended: never, exactly if its own cost and duration are below that integer
  (`Ranking.AlwaysRanksFirstExactlyIf`, `Ranking.RecommendedExactlyIf`).
- A secret that contains a bracket can be spelled out by neighbouring markers (`Redaction.RemovedExactlyIfUnalignable`,
  `Redaction.RedactedExactlyIfUnalignable`).
- Provider events are stamped in whole seconds, so two changes within a second can leave the older one stored
  (`Billing.SameSecondLosesLatest`); and an answer to the service's own change is stored at the service's later time, so
  a change made in between is lost even seconds apart (`Billing.SlowAnswerLosesLatest`). `Billing.NothingLostExactlyIf`
  gives the exact condition, step by step; under it `Billing.LatestChangeWins`.

## Model

| member | source | states |
|---|---|---|
| Leases.InvKept | packages/cloud-core/src/index.ts:704-1240 | Every transaction keeps the coupling: a queued or leased job has an open run, a leased job's owner is its running run's runner, a succeeded job has a completed run, one job per run, a hash exactly on completed runs |
| Leases.InvAlways | packages/cloud-core/src/index.ts:704-1400 | The coupling holds after every interleaving of create, schedule, claim, extend, submit, fail, revoke, cancel, Actions submit, hosted cancel, runner retirement and registration |
| Leases.FinishedRunFrozen | packages/cloud-core/src/index.ts:1081-1205 | No interleaving reopens a COMPLETED or CANCELLED run or changes its result, hash or runner, although claim and submit update the run without looking at its state |
| Leases.UncoupledSubmitReopens | packages/cloud-core/src/index.ts:1185-1188 | The coupling is needed: from tables that violate it, one submit completes a cancelled run |
| Leases.AcceptedInto | packages/cloud-core/src/index.ts:1145-1205 | A result is accepted only into an open run, by submit from the job's owner and the run's runner or by Actions submit; result and hash are stored intact and no live job of the run is left |
| Leases.AcceptedExactlyIf | packages/cloud-core/src/index.ts:1145-1205 | A runner's result is accepted if and only if the runner is active and holds the lease of that job of a run of the organization; anything else changes nothing |
| Leases.ActionsExactlyIf | packages/github-integration/src/oidc.ts:239-296 | An Actions result is accepted exactly for an open run of that organization and repository, repeated exactly with the result the run has, and forbidden exactly for any other run; it completes the run with that result and its live jobs |
| Leases.AcceptedAtMostOnce | packages/cloud-core/src/index.ts:1145-1205 | Over a whole interleaving a run accepts at most one result, and none once it is finished |
| Leases.SucceededFrozen | packages/cloud-core/src/index.ts:1145-1240 | A succeeded job row never changes again |
| Leases.SubmitThenReplay | packages/cloud-core/src/index.ts:1166-1172 | After an acceptance, whatever happens in between, a submission changes nothing and is a replay exactly for the same runner and the same content |
| Leases.OneRunPerKey | packages/cloud-core/src/index.ts:718-768 | One idempotency key makes at most one run for ever; a repeated call succeeds exactly within 24 hours (86400000 ms) and with an equal request, and returns the first identifiers |
| Leases.CreatedRunStarts | packages/cloud-core/src/index.ts:718-768 | A new run can be claimed at once by every active runner of its organization, in its place in the claim order, and its job is requeued until the third attempt |
| Leases.CreatedExactlyIf | packages/cloud-core/src/index.ts:718-768 | A run is created exactly for a known version, fresh identifiers and a key never used before |
| Leases.AttemptsBounded | packages/cloud-core/src/index.ts:1207-1240 | In every interleaving, with no hypothesis on it, a job is attempted at most `max_attempts` times plus once for each reclaim of its expired lease and each revocation that requeues it |
| Leases.StepWithinMax | packages/cloud-core/src/index.ts:1093-1102 | A step keeps every job within its limit if and only if it is not a claim of a claimable job that has used up its attempts |
| Leases.MaxAttemptsExactlyIf | packages/cloud-core/src/index.ts:1093-1102 | Over a whole interleaving no job is attempted more than `max_attempts` times if and only if it contains no such claim |
| Leases.ReclaimsExceedLimit | packages/cloud-core/src/index.ts:1093-1102 | That bound is reached: k reclaims of a claimable job attempt it k more times, whatever its limit, and each counts as one |
| Leases.DeadLetterStrandsRun | packages/cloud-core/src/index.ts:1224-1239 | A dead-lettered job leaves its open run exactly as it is unless a cancellation, an Actions result or a hosted cancellation of it is accepted in the step, and then it is finished |
| Leases.DeadLetterStrandsForEver | packages/cloud-core/src/index.ts:1224-1239 | Over a whole interleaving that run stays open if and only if no such step is accepted in it, and then run and job stay exactly as they are |
| Leases.Fenced | packages/cloud-core/src/index.ts:1081-1240 | After another runner reclaimed a job, the old holder can neither submit, fail nor extend, in any continuation in which it does not claim the job again |
| Leases.LeaseLasts | packages/cloud-core/src/index.ts:1088-1143 | A claim at `now` leases the job until `now + leaseMs`: from then on exactly the others that may claim it at all can, and until then exactly the claimant alone can extend it |
| Leases.ExtensionLasts | packages/cloud-core/src/index.ts:1128-1143 | An extension moves that end to its own `now + leaseMs` and touches nothing else |
| Leases.LeaseExclusive | packages/cloud-core/src/index.ts:1081-1240 | In every interleaving of the time of a lease the claimant keeps the job, so that nobody else gets it, if and only if it neither fails nor completes it and no accepted revocation, cancellation, Actions result or hosted cancellation takes it |
| Leases.RequiredPins | packages/hosted-compute/src/index.ts:545-552 | A job that a hosted request has pinned can be claimed only by a runner with the required capabilities, and by those that could before |
| Leases.RevokeFrees | packages/cloud-core/src/index.ts:1036-1063 | Revocation returns exactly the runner's leased jobs to the queue, attempts unchanged, and the runner can then claim nothing |
| Leases.OwnersOnly | packages/cloud-core/src/index.ts:1036-1063 | Only its own organization revokes a runner, while it is active, and cancels a run, while it is queued or running |
| Leases.RetiredRunnerStops | packages/hosted-compute/src/index.ts:733-739 | A retired runner can claim nothing and complete nothing |
| Leases.CancelStops | packages/cloud-core/src/index.ts:1373-1400 | Cancelling stops every live job of that run and touches no other row |
| Leases.HostedCancelKeepsInv | packages/hosted-compute/src/index.ts:707-756 | The hosted cancellation of a job and its run, a third writer of both tables, keeps the coupling |
| Leases.FailRequeues | packages/cloud-core/src/index.ts:1207-1240 | A failed attempt is requeued exactly while retryable and under the limit, dead-lettered otherwise; nobody can claim it before its delay is over, and then exactly the runners that may claim it at all |
| Leases.BackoffTable | packages/cloud-core/src/index.ts:1225-1227 | That delay is 1, 2, 4, ..., 256 seconds after the first attempts and 300 seconds from the ninth on |
| CloudService.FirstExists | packages/cloud-core/src/index.ts:1093 | Any non-empty set of claimable jobs has a first one in the order of the claim query |
| CloudService.CloudService.CreateRun | packages/cloud-core/src/index.ts:704-783 | Takes the create step, error replies included |
| CloudService.CloudService.SelectNext | packages/cloud-core/src/index.ts:1093-1093 | The query alone: the first claimable, unlocked job, or none exactly when every claimable job is locked |
| CloudService.CloudService.ClaimJob | packages/cloud-core/src/index.ts:1081-1126 | Claims the claimable, unlocked job of the highest priority, among those the oldest, then the smallest id, and leases it as LeaseLasts says; none exactly when every claimable job is locked |
| CloudService.CloudService.ExtendLease | packages/cloud-core/src/index.ts:1128-1143 | Extends an owned, unexpired lease and nothing else |
| CloudService.CloudService.SubmitResult | packages/cloud-core/src/index.ts:1145-1205 | Takes the submit step with its four outcomes and keeps the coupling |
| CloudService.CloudService.FailJob | packages/cloud-core/src/index.ts:1207-1240 | Takes the fail step and keeps the coupling |
| CloudService.CloudService.RevokeRunner | packages/cloud-core/src/index.ts:1036-1063 | Takes the revoke step and keeps the coupling |
| CloudService.CloudService.CancelRunById | packages/cloud-core/src/index.ts:1373-1400 | Takes the cancel step and keeps the coupling |
| CloudService.CloudService.SubmitActionsResult | packages/github-integration/src/oidc.ts:239-296 | Takes the Actions step, the second writer of runs and jobs, and keeps the same coupling |
| Scheduler.SelectionRight | packages/cloud-core/src/index.ts:1310-1320 | A tick selects distinct due rows, oldest first, at most `limit`, and leaves a due row out only when all selected ones are no later |
| Scheduler.InvAlways | packages/cloud-core/src/index.ts:1321-1368 | In every run of ticks, creations and edits each recorded occurrence has its own run, of its own schedule, and that run exactly one job |
| Scheduler.ScheduleArithmetic | packages/cloud-core/src/index.ts:1308-1371 | An unedited schedule that started at t0 and fired k times has recorded exactly t0, t0+P, ..., t0+(k-1)P, is next due at t0+kP, and never meets a recorded occurrence |
| Scheduler.CreatedRegular | packages/cloud-core/src/index.ts:1262-1272 | A new schedule starts in that state with k = 0 |
| Scheduler.DueExactlyUntil | packages/cloud-core/src/index.ts:1318-1368 | It is due at time T exactly until floor((T - t0) / P) + 1 firings have happened |
| Scheduler.ClearKept | packages/cloud-core/src/index.ts:1321-1368 | A schedule none of whose times to come is recorded stays so, and a tick that selects it fires it exactly when no other selected row is stuck on a recorded time |
| Scheduler.TickAllOrNothing | packages/cloud-core/src/index.ts:1321-1368 | A tick fires all the rows it selects or changes nothing, the latter exactly when one of them is stuck, because the failed insert aborts the whole transaction |
| Scheduler.StuckStopsTick | packages/cloud-db/src/index.ts:59-72 | One stuck selected row keeps every other schedule from firing in that tick |
| Scheduler.StuckOldestStopsAll | packages/cloud-core/src/index.ts:1310-1347 | A stuck schedule with the oldest next time stops the scheduler: no sequence of ticks, at any times and limits, fires anything |
| Scheduler.PausedNeverFires | packages/cloud-core/src/index.ts:1275-1320 | A schedule that is not enabled never fires, in any run that does not enable it |
| Scheduler.RecordedTimeBlocks | packages/cloud-core/src/index.ts:1334-1347 | The converse: if its j-th time to come is recorded it fires at most j more times, ever |
| Scheduler.MovedBackSticks | packages/cloud-core/src/index.ts:1275-1293 | A schedule moved back onto a time it has fired for never fires again unless moved |
| Scheduler.TicksClearBacklog | packages/cloud-core/src/index.ts:1308-1371 | Every tick takes as many firings off the global backlog as it selects rows, so that many ticks at one time leave nothing due |
| Scheduler.SchedulerService.FireRow | packages/cloud-core/src/index.ts:1321-1368 | One loop body: inserts run, occurrence and job and moves the schedule on, or fails exactly when the occurrence is recorded |
| Scheduler.SchedulerService.FireRows | packages/cloud-core/src/index.ts:1321-1368 | The loop over the selected rows succeeds exactly when none is stuck, and then has fired them all in order |
| Scheduler.SchedulerService.SchedulerTick | packages/cloud-core/src/index.ts:1308-1371 | Takes exactly the tick step: returns how many rows it selected, or rolls everything back when one is stuck |
| Scheduler.SchedulerService.CreateSchedule | packages/cloud-core/src/index.ts:1261-1273 | Adds one enabled schedule with its first time |
| Scheduler.SchedulerService.SetSchedule | packages/cloud-core/src/index.ts:1275-1293 | Edits one schedule, or is refused as unknown |
| RateLimit.RateLimiter.Consume | packages/cloud-core/src/index.ts:1440-1461 | Refuses an invalid policy unchanged; otherwise upserts that bucket alone, judging the window by the first reading of the clock and stamping it with the second, and judges the new count |
| RateLimit.TraceBound | packages/cloud-core/src/index.ts:1440-1461 | For every sequence of calls whose clock does not go back, however long each waits between its two readings, no half-open interval of one window's length holds more than 2*limit-1 allowed calls |
| RateLimit.TraceBoundTight | packages/cloud-core/src/index.ts:1452-1460 | That bound is reached for every limit and every window |
| RateLimit.NeverOverLimitExactlyIf | packages/cloud-core/src/index.ts:1440-1461 | At most `limit` allowed calls in every interval of a window's length, over all these sequences, if and only if the limit is one |
| RateLimit.WindowBound | packages/cloud-core/src/index.ts:1452-1460 | Each window of the bucket allows at most `limit` calls, those that are late for it included |
| RateLimit.WindowFill | packages/cloud-core/src/index.ts:1452-1460 | A call is refused exactly when the window that counts it has already allowed its whole limit |
| RateLimit.RemainingIsLeft | packages/cloud-core/src/index.ts:1458-1459 | `remaining` is how many further calls the same window allows: the n-th exactly for n <= remaining |
| RateLimit.WindowsApart | packages/cloud-core/src/index.ts:1452-1460 | From any call on the bucket is in the same window or in one that starts at least a full window later |
| RateLimit.OutOfOrderUnbounded | packages/cloud-core/src/index.ts:1452-1460 | The order of the readings is needed: against it any number of calls can be allowed within one window's length, for every limit of two or more |
| Pagination.ListRuns | packages/cloud-core/src/index.ts:1477-1512 | Refuses exactly the page sizes outside 1..200; otherwise returns the page and cursor of the keyset query |
| Pagination.ListingSorted | packages/cloud-core/src/index.ts:1495 | The unpaged listing is the table's rows in strictly descending (created_at, id) order |
| Pagination.FollowCollects | packages/cloud-core/src/index.ts:1495-1511 | Following the cursor terminates and collects what the suffix semantics of the query says |
| Pagination.PagesNeverRepeat | packages/cloud-core/src/index.ts:1495-1511 | For every page size and all time stamps no run comes twice, order is kept and nothing foreign is listed |
| Pagination.PagesCompleteExactlyIf | packages/cloud-core/src/index.ts:1503-1511 | The pages make up the whole listing for every page size 1..200 if and only if every earlier run is below the millisecond cursor of every later one |
| Pagination.WholeMillisecondsComplete | packages/cloud-core/src/index.ts:1477-1512 | With time stamps in whole milliseconds the pages are the full descending listing, for every page size |
| Pagination.SameMillisecondLost | packages/cloud-core/src/index.ts:1509 | Two runs within one millisecond: a page break between them loses the earlier |
| PhaseCoordinator.LocalAttemptPhaseCoordinator.EnterAgent | packages/runner-core/src/index.ts:179-185 | Takes the enter step; returns at once exactly when admitted |
| PhaseCoordinator.LocalAttemptPhaseCoordinator.EnterPrivate | packages/runner-core/src/index.ts:187-193 | Takes the enter step; returns at once exactly when admitted |
| PhaseCoordinator.LocalAttemptPhaseCoordinator.CallRelease | packages/runner-core/src/index.ts:195-213 | Takes the release step; a second call of the same closure changes nothing |
| PhaseCoordinator.LocalAttemptPhaseCoordinator.DrainQueues | packages/runner-core/src/index.ts:215-228 | Admits the first private waiter, or else every waiting agent, when idle |
| Coordinator.InvAlways | packages/runner-core/src/index.ts:173-228 | Counters, queues and outstanding releases stay consistent over every run of calls |
| Coordinator.AdmittedOrQueued | packages/runner-core/src/index.ts:179-193 | A new call is admitted at once exactly if its phase may begin, and otherwise becomes the last of its queue |
| Coordinator.MutualExclusion | packages/runner-core/src/index.ts:169-172 | Two phases in progress at once are both agent phases |
| Coordinator.NobodyStranded | packages/runner-core/src/index.ts:215-228 | An idle coordinator has both queues empty |
| Coordinator.ReleaseOnce | packages/runner-core/src/index.ts:195-213 | A release that was called does nothing at any later time |
| Coordinator.PrivateWaitsExactly | packages/runner-core/src/index.ts:187-228 | A private waiter with i earlier private waiters is admitted by exactly the (active agents + active private + i)-th effective release, whatever else arrives |
| Coordinator.AgentWaitsExactly | packages/runner-core/src/index.ts:179-228 | With no further private arrivals a waiting agent is admitted by exactly the release that ends the last private phase |
| Coordinator.AgentsCanStarve | packages/runner-core/src/index.ts:180-190 | Private arrivals can hold a waiting agent back for any number of releases |
| Attempts.SysInvAlways | packages/runner-core/src/index.ts:402-674 | The coupling of every attempt's position with its lock tickets and its history holds after every schedule of N attempts |
| Attempts.HiddenAssetsProtected | packages/runner-core/src/index.ts:169-228 | In every interleaving, while one attempt is in its private phase no other is in its agent or private phase |
| Attempts.HistoriesLegal | packages/runner-core/src/index.ts:35-64 | No move is ever refused, and an attempt that returned walked a legal path from QUEUED to a terminal state |
| Attempts.EndingsExactlyIf | packages/runner-core/src/index.ts:455-670 | In every interleaving an attempt returns CANCELLED, TIMED_OUT, FAILED or COMPLETED if and only if a turn of it had the evidence that says so, branch by branch; COMPLETED by the whole path, FAILED and TIMED_OUT from the agent phase only |
| Attempts.ThrowsExactlyIf | packages/runner-core/src/index.ts:455-670 | It throws, with every lock given back, if and only if a turn of it had evidence that does |
| Attempts.ChecksExactlyIf | packages/runner-core/src/index.ts:550-575 | The public checks stop at the first that fails or times out, or after the last, and then the attempt collects |
| Attempts.TableByTarget | packages/runner-core/src/index.ts:35-52 | From which states each ending is allowed, and the one way forward from each state |
| Attempts.SomeoneCanMove | packages/runner-core/src/index.ts:402-674 | No deadlock: while an attempt is unfinished and no private lock has leaked, some attempt can move |
| Attempts.QuietExactlyIf | packages/runner-core/src/index.ts:402-674 | Nothing can move if and only if no attempt is unfinished, or a lock has leaked and every unfinished attempt waits for a phase |
| Attempts.LeaksExactlyIf | packages/runner-core/src/index.ts:582-605 | A turn leaks the private lock if and only if removing the private workspace fails in it, after the private phase or after a copy that failed |
| Attempts.ScheduleLeaksExactlyIf | packages/runner-core/src/index.ts:582-605 | A schedule leaks one if and only if such a removal fails in one of its turns |
| Attempts.LeakBlocksForEver | packages/runner-core/src/index.ts:582-605 | After a leak no continuation lets another attempt into its agent or private phase, and who waits goes on waiting |
| Attempts.StrandedExactlyIf | packages/runner-core/src/index.ts:582-605 | After a leak some continuation strands another attempt, so that nothing moves it any more, if and only if it is not yet past its last wait |
| Attempts.LeakReachable | packages/runner-core/src/index.ts:402-674 | From every start, with any number of attempts and checks, some schedule makes any attempt leak its lock and strands any other |
| Attempts.MovesBounded | packages/runner-core/src/index.ts:402-674 | Every schedule makes at most a fixed number of moves |
| Attempts.QuietMeansDone | packages/runner-core/src/index.ts:402-674 | When nothing can move any more, every attempt has returned or thrown if and only if no removal of a private workspace failed in the schedule |
| HostedCapacity.CapacityAlways | packages/hosted-compute/src/index.ts:445-684 | Over every run in which a provider answer finds its lease still PROVISIONING, occupied machines stay within `global_max_active` and each `max_concurrency`, and REQUESTED plus PROVISIONING within `global_max_queued` + `global_max_active` |
| HostedCapacity.CapacityFromEmpty | packages/hosted-compute/src/index.ts:445-684 | The same from empty tables, over every such run of the service |
| HostedCapacity.ReservesExactlyIf | packages/hosted-compute/src/index.ts:572-637 | A queued lease is provisioned exactly while its organization is served and the leases in the five active states and TERMINATING leave room under both limits |
| HostedCapacity.UnguardedProvisioned | packages/hosted-compute/src/index.ts:663-666 | The unguarded success answer takes one machine more, of the deployment and of its organization, exactly when its lease no longer occupies one, and one lease from the waiting exactly when it was waiting |
| HostedCapacity.UnguardedFailure | packages/hosted-compute/src/index.ts:670-683 | The unguarded failure answer frees the machine if its lease still occupies one; a retryable one adds a waiting lease exactly when its lease was no longer waiting |
| HostedCapacity.CapacityStepExactlyIf | packages/hosted-compute/src/index.ts:445-684 | A step keeps the limits if and only if it is not a provider answer for a lease that has given its place up while there is no room for another |
| HostedCapacity.CapacityExactlyIf | packages/hosted-compute/src/index.ts:445-684 | The limits hold at every point of a run if and only if every provider answer in it fits in this sense |
| HostedCapacity.CancelBetweenBreaksCapacity | packages/hosted-compute/src/index.ts:663-666 | Without that hypothesis the limit is broken: a cancel between the halves of `provisionNext` |
| HostedBudget.RequestReplays | packages/hosted-compute/src/index.ts:449-462 | One job has one lease: a repeated request returns it and changes nothing, whatever happened in between |
| HostedBudget.PreflightBacksLease | packages/hosted-compute/src/index.ts:353-420 | Preflight passes only entitled, priced, allowed requests within both wall-time ceilings; the new lease then reserves exactly its estimate, within the caller's budget, and no bill for a duration within its limit passes that budget |
| HostedMetering.MeteringAlways | packages/hosted-compute/src/index.ts:773-823 | The books hold over every run: a lease is billed at most once, reserves its estimate until then and its cost afterwards, and jobs have distinct leases |
| HostedMetering.BilledAtMostOnce | packages/hosted-compute/src/index.ts:782-786 | Whatever order cancel, complete and reconcile take, a lease has at most one usage row |
| HostedMetering.BillFrozen | packages/hosted-compute/src/index.ts:817-821 | Once metered, what a lease reserves never changes |
| HostedMetering.ReportsMove | packages/hosted-compute/src/index.ts:685-696 | Its own heartbeat alone makes a booting lease ready, its own claim of its own job alone makes a ready one run, and the first claim stamps the start |
| HostedMetering.ReservedIsBilledPlusOpen | packages/hosted-compute/src/index.ts:506-544 | An organization's reservations equal its bills plus the estimates still open |
| HostedBudget.StartedMinutes | packages/hosted-compute/src/index.ts:795 | A duration is n started minutes if and only if 60000 n - 60000 < ms <= 60000 n |
| HostedBudget.ChargedByTheMinute | packages/hosted-compute/src/index.ts:773-823 | Metering adds one usage row and sets the reservation to it: the rate times the minutes started from provisioning, or the first reading of the clock, to termination, or the second |
| HostedMetering.BilledFromProvisioning | packages/hosted-compute/src/index.ts:663-823 | A lease provisioned at one time and terminated at another is billed for the time between |
| HostedBudget.ReservedByTheMinute | packages/hosted-compute/src/index.ts:422-570 | A new lease reserves the rate times the minutes that its wall time can start |
| HostedBudget.PreflightExactlyIf | packages/hosted-compute/src/index.ts:353-420 | Preflight passes exactly an entitled, priced, allowed request within the wall-time ceilings whose price by the started minute is within the budget, with either error code exactly when due |
| HostedBudget.RefusedExactlyIf | packages/hosted-compute/src/index.ts:463-519 | Each refusal of a request for a new job has its own condition, and without one the request is granted |
| HostedBudget.CountsFrom | packages/hosted-compute/src/index.ts:506-519 | The budget check counts the reservations of every month from the present one on, and of no earlier one |
| HostedBudget.CostWithinEstimate | packages/hosted-compute/src/index.ts:795 | A bill is within its estimate if and only if it is free or starts no more minutes than the limit does |
| HostedBudget.TimeoutOvershoots | packages/hosted-compute/src/index.ts:789-795 | The wall-time timeout bills longer than the limit, because the bill's clock starts at provisioning; with a limit in whole minutes and a price it costs more than the estimate |
| HostedBudget.UnprovisionedBill | packages/hosted-compute/src/index.ts:787-795 | A lease that never got a machine and has no end stamp is billed for what passes between two readings of the clock: nothing if and only if it is free or the clock has not moved |
| HostedBudget.BudgetStepExactlyIf | packages/hosted-compute/src/index.ts:773-823 | A step keeps every monthly budget if and only if it is no bill that, in place of its reservation, passes the budget of its month |
| HostedBudget.BudgetExactlyIf | packages/hosted-compute/src/index.ts:506-519 | The monthly budgets hold at every point of a run if and only if every bill in it fits in this sense |
| HostedBudget.BudgetAlways | packages/hosted-compute/src/index.ts:506-519 | While every bill is free or starts no more minutes than its limit does, no month's reservations pass the monthly budget |
| HostedBudget.BudgetFromEmpty | packages/hosted-compute/src/index.ts:506-519 | The same from empty tables, under the same condition on the bills |
| HostedService.HostedComputeService.RequestLease | packages/hosted-compute/src/index.ts:422-570 | Takes the request step, refusals included |
| HostedService.HostedComputeService.ReserveNext | packages/hosted-compute/src/index.ts:572-637 | Reserves the oldest unlocked queued lease, and only when there is room |
| HostedService.HostedComputeService.RecordProvisioned | packages/hosted-compute/src/index.ts:649-668 | Takes the second half after a provider success |
| HostedService.HostedComputeService.RecordProvisionFailure | packages/hosted-compute/src/index.ts:670-683 | Requeues a retryable failure; fails and meters any other |
| HostedService.HostedComputeService.RunnerHeartbeat | packages/hosted-compute/src/index.ts:685-690 | Takes the heartbeat step |
| HostedService.HostedComputeService.RunnerClaimedJob | packages/hosted-compute/src/index.ts:691-696 | Takes the claimed step |
| HostedService.HostedComputeService.FinalizeUsage | packages/hosted-compute/src/index.ts:773-823 | Takes the metering step |
| HostedService.HostedComputeService.Cancel | packages/hosted-compute/src/index.ts:707-756 | Ends TERMINATED and metered, or ORPHANED exactly when the provider fails, or does nothing exactly when already over |
| HostedService.HostedComputeService.Complete | packages/hosted-compute/src/index.ts:850-878 | The same for completion, which only a TERMINATED lease skips |
| HostedService.HostedComputeService.ReconcileActive | packages/hosted-compute/src/index.ts:930-985 | The second loop: exactly the lost active leases become FAILED and metered, all other rows are kept, and the count is right |
| HostedService.HostedComputeService.ReconcileManaged | packages/hosted-compute/src/index.ts:903-929 | The first loop: sweeps the provider listing with its three counters as the sweep function says |
| HostedService.ManagedSwept | packages/hosted-compute/src/index.ts:903-929 | Exactly the unfinished leases named by a missing resource of this deployment become FAILED and metered, all other rows are kept |
| HostedService.ManagedCounted | packages/hosted-compute/src/index.ts:903-929 | `lost` counts those leases, each once, however many of its resources are missing |
| HostedService.OthersCounted | packages/hosted-compute/src/index.ts:903-929 | The other counters are the resources of other deployments, and those whose lease is over or was given up for an earlier resource |
| HostedService.LostByState | packages/hosted-compute/src/index.ts:930-985 | State by state, when an active lease is given up: its resource is missing, it runs longer than its wall time, or it is not ready for more than 120 seconds |
| GlobMeaning.TranslationPreservesMeaning | packages/github-integration/src/index.ts:32-39 | For every pattern and value: constructing the expression throws exactly when a question mark has nothing before it, and otherwise the compiled expression accepts exactly the values over which the pattern's tokens can be laid |
| GlobCompiler.TranslateStep | packages/github-integration/src/index.ts:33-37 | What the escape and the three replacement passes make of each leading pattern item |
| GlobCompiler.ParseTranslate | packages/github-integration/src/index.ts:33-38 | Reading the produced text by the Pattern grammar gives the pattern's own tokens, or fails exactly when they do |
| GlobMeaning.BacktrackSound | packages/github-integration/src/index.ts:38 | The backtracking matcher accepts only values that can be cut into pieces |
| GlobMeaning.BacktrackComplete | packages/github-integration/src/index.ts:38 | and accepts all of them |
| GlobMeaning.OneLineGlob | packages/github-integration/src/oidc.ts:49-57 | Without question marks and on one-line values the result is the path glob: `*` within a segment, `**` any text |
| GlobMeaning.OneLineExactlyIf | packages/github-integration/src/index.ts:32-39 | All patterns without question marks mean the path glob for a value if and only if the value is on one line |
| GlobMeaning.SegmentsStay | packages/github-integration/src/index.ts:36 | Without `**` a match has exactly the slashes the pattern spells out |
| GlobMeaning.LiteralPattern | packages/github-integration/src/index.ts:34 | A pattern without wildcards matches itself only, whatever expression syntax it contains |
| GlobMeaning.LiteralExactlyIf | packages/github-integration/src/index.ts:34 | A pattern without stars matches itself and nothing else if and only if it holds no question mark |
| GlobMeaning.CrossStopsAtLineEnd | packages/github-integration/src/index.ts:37 | `**` accepts exactly the values without line terminators |
| GlobMeaning.QuestionMarkIsNotAWildcard | packages/github-integration/src/index.ts:34 | A question mark makes the character before it optional, and alone makes the constructor throw |
| Ranking.DominanceTransitive | packages/optimizer/src/index.ts:156-180 | Dominance is transitive |
| Ranking.DominanceIrreflexive | packages/optimizer/src/index.ts:156-180 | Dominance is irreflexive |
| Ranking.ReadingsAgree | packages/optimizer/src/index.ts:161-202 | Treating a missing value as infinite and as the largest safe integer disagree if and only if a known value reaches that integer while the other is missing |
| Ranking.RanksByObjective | packages/optimizer/src/index.ts:181-206 | What ranks first on each objective alone, missing values and ties included |
| Ranking.FirstObjectiveDecides | packages/optimizer/src/index.ts:181-206 | The first objective that tells two trials apart decides |
| Ranking.DominatesExactlyIf | packages/optimizer/src/index.ts:156-180 | A trial dominates another if and only if it is better on some objective and the other is better on none |
| Ranking.DominatesByObjective | packages/optimizer/src/index.ts:156-180 | What better means on each objective |
| Ranking.DominatingRanksFirst | packages/optimizer/src/index.ts:181-206 | A dominating trial with its own known values in range is ranked before the trial it dominates, whatever that one's values |
| Ranking.AlwaysRanksFirstExactlyIf | packages/optimizer/src/index.ts:156-206 | A trial with given metrics is ranked before everything it dominates, under all objectives, if and only if its known cost and duration are below the largest safe integer |
| Ranking.OutOfRangeInverts | packages/optimizer/src/index.ts:198-202 | Out of range, any trial is ranked behind the same trial without known cost and duration that it dominates |
| Ranking.SortedUnique | packages/optimizer/src/index.ts:192-206 | Any sort that respects the comparator gives the same list |
| Ranking.RecommendedOnFront | packages/optimizer/src/index.ts:296-308 | With all known costs and durations in range the first-ranked trial is on the Pareto front |
| Ranking.RecommendedExactlyIf | packages/optimizer/src/index.ts:296-308 | Trials with given metrics, beside others in range, never make the first-ranked trial leave the front if and only if those metrics are in range |
| Ranking.OffFrontDominated | packages/optimizer/src/index.ts:297-304 | Every trial off the front is dominated by one on it, for every list and all metrics |
| Optimizer.Optimize | packages/optimizer/src/index.ts:223-295 | The loop as written computes the search function |
| Optimizer.PlacesExactly | packages/optimizer/src/index.ts:222-226 | The candidates tried after the baseline are exactly those with another identifier |
| Optimizer.OthersInOrder | packages/optimizer/src/index.ts:222-226 | in the order given, each as often as given |
| Optimizer.TrialInOrder | packages/optimizer/src/index.ts:228-292 | The i-th trial is that of the i-th candidate, was begun unaborted and in time, and only the last can have been aborted |
| Optimizer.StopsExactlyIf | packages/optimizer/src/index.ts:228-292 | A search goes on until all are tried unless it is aborted or one of the four limits is reached, and reports exhaustion exactly in the latter case |
| Optimizer.TriesAll | packages/optimizer/src/index.ts:222-292 | With no abort and no limit reached the baseline and every other candidate are tried, once each and in order |
| Optimizer.TrialsIndependent | packages/optimizer/src/index.ts:248-292 | Each trial's status and metrics depend on its own candidate alone: what the cache held before the search, or the executor's answer, and the range of the success rate |
| Optimizer.EntriesExactly | packages/optimizer/src/index.ts:181-191 | Ranked are exactly the trials that have metrics |
| Optimizer.SearchWithinBudget | packages/optimizer/src/index.ts:231-269 | At most `max_trials` trials, and before each executed one the attempts and the cost spent, with a missing cost as 0, are below their limits |
| Optimizer.WarmRefinesCold | packages/optimizer/src/index.ts:248-269 | With a deterministic executor, a faithful cache, no abort and no wall-time limit the cold findings are a prefix of the warm ones, and equal with only `max_trials` set |
| Optimizer.RecommendationSound | packages/optimizer/src/index.ts:208-308 | Whatever the budgets, cache, clock and aborts, each ranked trial off the front is dominated by one on it; and if every cached and answered cost and duration of the candidates is in range, the recommended trial is on the front |
| WorkerPool.StepKeepsInv | packages/benchmark-engine/src/index.ts:172-375 | Every step of every worker, of the write chain and of the abort keeps the invariant |
| WorkerPool.ClaimedOnceInOrder | packages/benchmark-engine/src/index.ts:174-177 | Under every interleaving the jobs are claimed once each, in job order |
| WorkerPool.RunWithinLimits | packages/benchmark-engine/src/index.ts:172-251 | At no moment more than `parallelism` jobs run, and no job is invoked more than 1 + provider limit + infrastructure limit times |
| WorkerPool.ThrownExactlyIf | packages/benchmark-engine/src/index.ts:217-250 | In every run a worker is thrown out if and only if its job had a fatal error, an error whose class had used up its limit, or a link of the write chain that will never be written |
| WorkerPool.RetriedStep | packages/benchmark-engine/src/index.ts:217-250 | Any other error calls the same job once more and adds one retry of that class |
| WorkerPool.SlotHoldsEvidence | packages/benchmark-engine/src/index.ts:275-372 | In every run a slot holds the evidence of the call that finished its job, from then on and unchanged |
| WorkerPool.UnwrittenIsHeld | packages/benchmark-engine/src/index.ts:370-373 | A finished attempt missing from the run file belongs to a worker that still waits for its write or was thrown out |
| WorkerPool.NextJobAfterWrite | packages/benchmark-engine/src/index.ts:370-373 | A worker about to take a job has its previous attempt in the run file, as stored in the slots |
| WorkerPool.FileOnlyGrows | packages/benchmark-engine/src/index.ts:136-171 | Every version of the run file lists unchanged all that any earlier version listed |
| WorkerPool.ReturnedMeansWritten | packages/benchmark-engine/src/index.ts:376-384 | Once all workers have returned the write chain has ended well and the file lists every finished attempt |
| WorkerPool.CompletedRunIsFull | packages/benchmark-engine/src/index.ts:376-384 | A run whose workers all returned and that was not aborted has exactly one attempt per job, in job order |
| WorkerPool.BenchmarkComplete | packages/benchmark-engine/src/index.ts:104-384 | A completed benchmark lists exactly the (task, agent, index) triples asked for, as often as asked for, sorted, whatever the interleaving and the input order |
| WorkerPool.BrokenForGood | packages/benchmark-engine/src/index.ts:370-379 | After one failed write the file is never written again and the workers never all return |
| WorkerPool.WriteEnds | packages/benchmark-engine/src/index.ts:136-171 | A write that ends well makes its snapshot the run file; a failed one leaves the file and breaks the chain |
| WorkerPool.BrokenExactlyIf | packages/benchmark-engine/src/index.ts:370-379 | In every run the chain is broken if and only if some write in it failed |
| WorkerPool.SomethingCanHappen | packages/benchmark-engine/src/index.ts:172-375 | No worker is ever stuck |
| WorkerPool.RunEnds | packages/benchmark-engine/src/index.ts:172-384 | Every run has at most (provider + infrastructure limit + 6) * jobs + parallelism + 3 events |
| WorkerPool.CallWithRetries | packages/benchmark-engine/src/index.ts:179-251 | The retry loop: calls up to the first success, fatal error or exhausted budget, and each class stays within its own limit |
| WorkerPool.SortSorts | packages/benchmark-engine/src/index.ts:104-119 | Job order: sorted by task, agent and index, nothing lost or added |
| BenchmarkRun.BenchmarkRun.ClaimNext | packages/benchmark-engine/src/index.ts:174-177 | Takes the claim step: leaves on abort or when no job is left |
| BenchmarkRun.BenchmarkRun.FinishAttempt | packages/benchmark-engine/src/index.ts:275-372 | Stores the result in its slot and appends one write |
| BenchmarkRun.BenchmarkRun.CatchError | packages/benchmark-engine/src/index.ts:217-250 | Retries within the class budget or leaves the worker |
| BenchmarkRun.BenchmarkRun.BeginWrite | packages/benchmark-engine/src/index.ts:370-372 | The link takes its snapshot when its turn comes |
| BenchmarkRun.BenchmarkRun.EndOfWrite | packages/benchmark-engine/src/index.ts:370-372 | A failed write breaks the chain |
| BenchmarkRun.BenchmarkRun.AwaitWrite | packages/benchmark-engine/src/index.ts:373-373 | Resumes a worker whose link is written, throws it out when the chain broke |
| BenchmarkRun.BenchmarkRun.Completed | packages/benchmark-engine/src/index.ts:379-384 | The final snapshot equals the last written one |
| Statistics.PassAtK | packages/statistics/src/index.ts:1-18 | Throws exactly on invalid inputs; otherwise, early returns included, returns 1 - C(n-c,k)/C(n,k) |
| Statistics.Product | packages/statistics/src/index.ts:16-17 | The product loop computes C(n-c,k)/C(n,k) |
| Statistics.PassIsFractionOfSubsets | packages/statistics/src/index.ts:1-18 | That value is the fraction of k-subsets of the attempts that contain a solved one, counted as sets |
| Statistics.SubsetsCounted | packages/statistics/src/index.ts:1-18 | The binomial coefficient counts the k-subsets |
| Statistics.PassInUnitInterval | packages/statistics/src/index.ts:14-18 | It lies in [0, 1], is 1 exactly when n - c < k and 0 exactly when nothing was solved |
| Statistics.PassMonotoneInSolved | packages/statistics/src/index.ts:1-18 | It never falls when more attempts are solved |
| Statistics.PassMonotoneInK | packages/statistics/src/index.ts:1-18 | It never falls when k grows |
| Statistics.PassAtOneIsSuccessRate | packages/statistics/src/index.ts:96-98 | At k = 1 it is the success rate |
| Redaction.SecretRedactor.RedactText | packages/redaction/src/index.ts:7-15 | The loop over the prepared secrets and the token pass compute the redaction function |
| Redaction.SecretRemoved | packages/redaction/src/index.ts:7-15 | A configured secret that no overlap with the marker can imitate is no substring of the output, whatever the text and the other secrets |
| Redaction.LongestFirst | packages/redaction/src/index.ts:3-6 | The configured secrets of eight characters or more, each as often as given, are replaced from the longest to the shortest |
| Redaction.OrdinarySecret | packages/redaction/src/index.ts:3-6 | Secrets of eight characters or more without brackets, other than REDACTED itself, are of that kind |
| Redaction.RemovedExactlyIfUnalignable | packages/redaction/src/index.ts:8-10 | The replacement passes remove a secret from every text under every configuration if and only if it is of that kind |
| Redaction.RedactedExactlyIfUnalignable | packages/redaction/src/index.ts:7-15 | For secrets that hold no token-like piece the whole of redaction removes the secret from every text under every configuration if and only if it is of that kind |
| Redaction.ShortTokenFree | packages/redaction/src/index.ts:11-14 | Secrets of at most 22 characters hold no token-like piece |
| Redaction.BracketSecretIsAlignable | packages/redaction/src/index.ts:10 | A concrete secret that two neighbouring markers spell out |
| Redaction.NoTokenSurvives | packages/redaction/src/index.ts:11-14 | Redacted text contains no token-like string at all, neither a left-over nor one made by a marker's edge |
| Redaction.KeyParts | packages/redaction/src/index.ts:12 | A key is `gh`, one of p, o, u, s, r and `_`, or `sk-`, and then at least twenty word characters, with dashes only in the latter |
| Redaction.TokenParts | packages/redaction/src/index.ts:12 | A token is a key, or `Bearer`, white space and a key |
| Redaction.TokenDelimited | packages/redaction/src/index.ts:11-14 | It is recognized exactly where no word character stands before it and none behind it, or, if it ends in a dash, one does |
| Redaction.TokenPassIdempotent | packages/redaction/src/index.ts:11-14 | Repeating the token pass on redacted text changes nothing |
| Billing.ReplayKeepsNewest | packages/billing/src/index.ts:438-470 | Applying any snapshots in any order ends in the last applied of those with the latest time |
| Billing.OrderIrrelevant | packages/billing/src/index.ts:438-470 | With one snapshot per time neither order nor repetition matters |
| Billing.EventLife | packages/billing/src/index.ts:273-347 | Over every run an event is claimed at most eight times, dead-lettered only after the eighth, ignored only if its type is unsupported; its job mirrors it, and a processed, ignored or dead-lettered event, or one whose process died, never changes again |
| Billing.PlanFollowsStored | packages/billing/src/index.ts:479-484 | In every run, whatever the time stamps, the organization's plan is the one the stored subscription entitles it to |
| Billing.EntitledExactly | packages/billing/src/index.ts:46-54 | A trialing, active or past-due subscription entitles to its plan, and every other status to the community plan |
| Billing.StepSound | packages/billing/src/index.ts:438-500 | A step keeps it that no applied event is undone and no change shut out if and only if it does not put a change before the stored time, store a fetched value over an equal time when an event newer than it was applied, or store an answer over a change it does not show |
| Billing.NothingLostExactlyIf | packages/billing/src/index.ts:273-540 | That holds at every point of a run if and only if every step of the run is of this kind |
| Billing.LatestChangeWins | packages/billing/src/index.ts:273-540 | In such a run, once any subscription event emitted with or after the provider's latest change is processed, the stored subscription is the provider's and the organization has the plan it entitles to, however other events were ordered, repeated, lost or dead-lettered |
| Billing.ApartRunHarmless | packages/billing/src/index.ts:446-450 | Every run without own changes in which each change comes in a later second than all events before it is of this kind |
| Billing.ShutOutEventIsStale | packages/billing/src/index.ts:446-450 | An event stamped before the stored time is delivered and processed without changing the stored subscription or the plan |
| Billing.EarlyChangeIsLost | packages/billing/src/index.ts:446-450 | The first way to fail: a change before the stored time; its event is processed and the stored version still does not show it |
| Billing.PassedOverChangeIsLost | packages/billing/src/index.ts:525-539 | The second: an answer stored at a time later than a change it does not show; that change's event is then processed in vain |
| Billing.OverwrittenEventIsLost | packages/billing/src/index.ts:446-450 | The third: an older value stored over an equal time after a newer event was applied; that event is completed and its change is gone |
| Billing.SameSecondLosesLatest | packages/billing/src/index.ts:446-450 | A run from the start: two changes within one second leave the outdated subscription although both events are processed |
| Billing.SlowAnswerLosesLatest | packages/billing/src/index.ts:502-540 | A run from the start: a change seconds after the provider's answer and before the service stores it is lost although its event is processed |
| Billing.BillingService.IngestEvent | packages/billing/src/index.ts:240-270 | Inserts event and job once; a second delivery changes nothing |
| Billing.BillingService.ClaimEvent | packages/billing/src/index.ts:274-287 | Claims exactly queued and failed events |
| Billing.BillingService.ReconcileSubscription | packages/billing/src/index.ts:417-500 | Refuses unknown prices, statuses and customers; stores unless a later value is stored, and sets the plan with it |
| Billing.BillingService.StoreOwnChange | packages/billing/src/index.ts:525-539 | The end of the organization's own change: stores the provider's earlier answer at the service's present time |
| Billing.BillingService.IgnoreEvent | packages/billing/src/index.ts:292-305 | An event of an unsupported type ends IGNORED with its job succeeded |
| Billing.BillingService.CompleteEvent | packages/billing/src/index.ts:317-326 | Finishes event and job together |
| Billing.BillingService.FailEvent | packages/billing/src/index.ts:328-346 | The eighth failed attempt, and only that, dead-letters event and job |
| GitRecords.ParseChangedFiles | packages/git/src/index.ts:148-177 | The loop over tokens computes the parse function |
| GitRecords.ParseWorkingTreeFiles | packages/git/src/index.ts:204-225 | The second copy of the loop computes the same function, so the two agree |
| GitRecords.FilesRoundTrip | packages/git/src/index.ts:148-177 | Printing any list of status records, renames and copies with two paths, and parsing it returns the list |
| GitRecords.CutShort | packages/git/src/index.ts:148-177 | Output cut short after printed records: a status alone is dropped, and a path is taken as far as it goes, for a rename or copy as the previous path |
| GitRecords.AnyOutputNormalises | packages/git/src/index.ts:148-177 | For every raw output, even cut short, the parsed records are proper and survive printing and parsing |
| GitRecords.ParseCommits | packages/git/src/index.ts:121-147 | The stride-five loop computes the parse function |
| GitRecords.CommitsRoundTrip | packages/git/src/index.ts:121-147 | Printing any log of commits, parents and multi-line bodies included, and parsing it returns the commits |
| GitRecords.PaddedCommit | packages/git/src/index.ts:133-145 | White space around a commit hash is taken off, and nothing else of the record changes |
| GitRecords.BlankSkipped | packages/git/src/index.ts:135-136 | Five fields with a blank hash are passed over, whatever the others hold |
| GitRecords.CommitCutShort | packages/git/src/index.ts:121-147 | A log cut short within the time of its last commit still gives that commit |

## Left out

- HTTP servers, routing, UI assets, CLI commands and the Action wrapper: plumbing around the modelled services.
- Authorization, entitlements, audit rows, job credentials, artifacts and `assertPublicResult`: guards in front of the steps that change none of the modelled rows.
- `setMembership`, role tables, `evaluateTrigger`, `checkConclusion`, readiness scores, leaderboard labels and reports: single-branch or finite facts.
- Cryptography, tokens, webhook signatures, zod and YAML parsing, and the provider, Stripe, GitHub and S3 clients: their answers are parameters.
- SQL isolation, deadlocks, collation and time zones; `SKIP LOCKED` appears as a set of locked rows in `ClaimJob` and `ReserveNext`, and not in the scheduler tick.
- Runner heartbeats that change capabilities; a job's requirements are a set that must be within the runner's, and that a hosted request replaces.
- Leases: budgets, payloads, usage rows and time stamps other than `created_at`, `available_at` and `lease_expires_at`.
- `runIsolatedAttempt` is a step function from await to await and not a method, because N attempts interleave; process spawning, workspace copies, evidence contents, artifacts, `limitOutput` and the sandbox are not part of this model.
- Provider errors inside hosted `reconcile`, which end the call where it is, and provider answers that change while it runs.
- Hosted settings, policies and entitlements are fixed during a run; a lease's run and job are taken to belong together; runner rows of hosted machines are not kept.
- `enumerateCandidates`, the optimizer's serialization, and `median`, `percentile` and the other columns of `aggregateAttempts`: sorting, sums and counts over one list.
- Optimizer: the cache is a map from candidates, since only the candidate varies within one search; metric values are exact numbers, so rounding and NaN do not occur.
- Worker pool: the contents of an attempt result, retry delays, and the time stamps and statistics of a snapshot; the first and the last write of the run file, which happen outside the workers, are assumed to succeed.
- Rate limiter: one process clock; calls update the row in the order of their readings inside the transaction, which `TraceBound` needs and the window results do not.
- Clock: a hosted `cancel`, `complete` or `reconcile` call takes the clock to stand still while it runs, and in `createRun` the application's clock and the database's agree; the hosted theorems on runs are about single steps, each with readings of its own.
- Pagination: the table does not change between pages, and `id` order stands for the order of uuids.
- Redaction: characters instead of UTF-16 code units. For a secret that itself holds a token-like piece, which takes 23 characters, the converse is about the replacement passes (`RemovedExactlyIfUnalignable`); without one it is about the whole of redaction.
- Billing: one organization and one subscription; checkout, portal and invoices; `setPlan`, which overwrites the organization's plan by hand; the mapping of status names; job back-off times. Of `changeSubscription` the model has the provider's answer and the later store of it, at any time the clock may show.
- A webhook event without a linked customer gets no job and is therefore never picked up from the queue; the model lets any event be claimed.
- Git: running the commands, `getCommit`, and decoding of bytes to text.
