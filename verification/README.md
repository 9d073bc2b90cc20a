# Verification of the job-run lifecycle

The system schedules HTTP jobs. A schedule that is due is *claimed* by a scheduler, which inserts a
run in status `scheduled` and publishes a fetch message. A fetcher gates the run to `fetching`, calls
the source of the job, checks the answer against a schema and publishes a delivery message. A
deliverer gates the run to `delivering`, sends the fetched body to the target and sets the run `idle`.
Errors end a run as `error`; a monitor ends runs that hang, another one disables schedules that have
used up their target. Any number of schedulers, workers, monitors and API servers race over the same
tables and queues; messages are redelivered, answers get lost, and database calls fail before or
after they took effect.

This project models that protocol and proves what it guarantees over every interleaving.

## Structure

| file | content |
|---|---|
| `Model.dfy` | rows of the four tables and the shared vocabulary |
| `Sql.dfy` | every SQL statement as a function of the tables |
| `Patches.dfy` | the algebra of patches |
| `Lifecycle.dfy` | the database as a state machine, its invariants, and every transition row by row |
| `Statements.dfy` | what every statement writes, column by column and without the functions of `Sql` |
| `Safety.dfy`, `Timing.dfy`, `Due.dfy`, `Quietness.dfy`, `LastRun.dfy`, `Endings.dfy` | theorems over all behaviours of that machine |
| `Scenarios.dfy`, `LostAck.dfy` | behaviours, of the database and of the whole pipeline, that reach the failures which the theorems delimit |
| `Requests.dfy` | the patch law over every reachable state, and what request validation adds to it and to budgets |
| `Database.dfy`, `Repository.dfy` | mutable tables whose statements perform exactly those transitions; API transactions, commands and reads |
| `Scheduling.dfy` | one scheduler tick among all other processes, proved to be steps of `Protocol` |
| `Retry.dfy` | retry policy, its validation, 64-bit backoff |
| `Worker.dfy`, `RetryLoop.dfy` | one delivery of one message as an automaton over visible events, and what all its event sequences satisfy |
| `Attempts.dfy` | the same processing in terms of its events alone: their order, the end of an attempt, retries, the result, the answer |
| `Handlers.dfy` | handlers, retry loop and consumer callback as methods proved to follow that automaton |
| `Protocol.dfy`, `Pipeline.dfy` | database, messages, handlers and pending claims as one world, and what a step does to each part |
| `Effects.dfy`, `Order.dfy`, `Outcome.dfy`, `Answers.dfy` | theorems over all behaviours of the world |
| `Sources.dfy`, `Deliveries.dfy`, `Records.dfy` | likewise: which requests are made, how often messages are delivered, what calls may come to and what the log records |
| `Refinement.dfy` | the world refines the database machine, so the theorems about that machine hold for it |

An imperative method is tied to the theorems in three ways. A database statement states that it
performs one `Lifecycle` action. The scheduler moves a ghost `Protocol` world by its steps. A handler
method may make a call only where the automaton accepts every outcome of that call, so each of its
executions is one of the automaton's event sequences; and `Protocol` runs any number of such automata
concurrently.

## Assumptions

- One SQL statement, and one create or patch transaction, is one atomic step; any of them may also
  abort without effect. The database clock never goes back.
- `next_run_at` is nullable, as `internal/postgres/queries/scheduler.sql.go:19` and `:41` need it.
  `sql/migrations/000001_init.up.sql:31` still declares it `NOT NULL`; with that column every claim of
  a last run aborts, which the machine also allows.
- Run identifiers generated by a claim have never been used before.
- Where a theorem needs that 0, the status code standing for "no HTTP status", is not configured as
  retryable, it says so; `RetryLoop.SinglePublishExact` shows that single publishing depends on
  exactly that.
- Counters are unbounded integers; instants and durations are unbounded nanoseconds except in the
  backoff, which is computed modulo 2^64.

## Findings

- The target rule. The HTTP layer rejects negative targets (`internal/api/transport/http/dto.go:141-153`),
  but nothing checks that a new target covers what a job has done and has in flight. A job exceeds its
  budget exactly if a patch sets a positive target below that (`Requests.BudgetOfRequests`), and the
  monitor disables a schedule around a running run exactly if a patch sets a nonzero target at or
  below the runs done on a busy job (`Quietness.QuietExact`, reached in `Scenarios.DisabledAroundARun`).
- The last run. After the last claim of a job with a target nothing but a patch of `next_run_at`
  schedules another run, so the target is met exactly if a worker and not the timeout sweep ends that
  run, unless a patch changes the target itself (`LastRun.TargetMetExactly`, reached in
  `Scenarios.SweepLeavesTargetUnmet`).
- A NULL `next_run_at` does not scan into the row type of `GetJobSchedule`. Reading such a job fails,
  and a conflicting activate or deactivate is reported as a failed check instead of a conflict
  (`Repository.GetJobByID`, `Repository.Command`).
- Reading a job takes three statements. A patch between them yields a view that no state holds, and a
  deletion one with two empty configurations instead of "not found" (`Scenarios.TornByPatch`,
  `Scenarios.TornByDelete`); without either the view is whole (`Repository.ViewIsWhole`).
- Two patch calls may differ from their override only if exactly one of them sets a negative interval,
  and then do unless every value that only one of the two ways writes is there already
  (`Requests.PatchLawExact`, `Requests.UnlawfulPairs`). Validated requests never do (`Requests.PatchLaw`).
- A run may fail after its target has accepted it. If the ack of a fetch message is lost, the redelivery
  cannot pass the gate again, and its error write may come before the deliverer's write of idle
  (`LostAck.DeliveredThenFailed`). A run ends idle exactly if that write is the first to end it
  (`Endings.FirstDecides`, `Outcome.IdleExactly`).
- The backoff goes negative for some attempt exactly if some doubling of the base lands between 2^62
  and the cap (`Retry.BackoffExact`).
- If 0 is configured as a retryable status and several attempts are allowed, a fetch may publish twice
  and an exhausted time budget may end a message instead of asking for redelivery
  (`RetryLoop.SinglePublishExact`, `RetryLoop.ExhaustionExact`).
- Two statuses pass the check of the worker repository but can never be written
  (`Database.NeverWritten`).

## Model

| member | source | states |
|---|---|---|
| Safety.MutualExclusion | internal/postgres/queries/scheduler.sql.go:25-65 | in every reachable state every job has at most one run in scheduled, fetching or delivering, for any number of schedulers and any batch size |
| Safety.Conservation | internal/postgres/queries/worker.sql.go:51-91 | the runs of a live job are exactly done_runs plus the runs ended by sweeps plus the active run, in every reachable state |
| Safety.BudgetStep | internal/postgres/queries/scheduler.sql.go:18-30 | from a reachable state within all budgets, an action leads to such a state if and only if it respects the target rule |
| Safety.BudgetExact | internal/postgres/queries/worker.sql.go:71-86 | all states of a behaviour are within all budgets if and only if all its actions respect the target rule |
| Safety.RunBudget | internal/postgres/queries/scheduler.sql.go:18-30 | under the target rule, done_runs plus the active runs of a job with a nonzero target never exceed it, over every interleaving |
| Requests.ValidatedRule | internal/api/transport/http/dto.go:137-155 | every validated create respects the target rule, and a validated action breaks it exactly if it is such an undercutting patch |
| Requests.BudgetOfRequests | internal/api/transport/http/dto.go:137-155 | with validated creates and patches, all states are within budget if and only if no patch sets a positive target below the runs done and in flight |
| Requests.CreateIsLetThrough | internal/api/transport/http/dto.go:101-115 | a create with a name is let through if and only if the repository can store it under a new identifier and it keeps the target rule |
| Requests.PatchIsLetThrough | internal/api/transport/http/dto.go:117-155 | a patch is let through if and only if it sets neither an empty name nor a negative target and the repository can apply it to an existing job |
| Requests.AbsentIsNotPatched | internal/api/repository/impl.go:178-259 | of a job that does not exist only the patch without any part succeeds, and it changes nothing |
| Quietness.QuietStep | internal/postgres/queries/scheduler.sql.go:121-127 | from a safe state, an action and a pass of the monitor leave every inactive schedule without a run in flight if and only if the action is not a patch of a busy job to a nonzero target at or below its runs done |
| Quietness.QuietExact | internal/postgres/queries/scheduler.sql.go:121-127 | over a whole behaviour, a pass of the monitor at any point leaves the tables quiet if and only if all actions respect that rule |
| Quietness.UnspentAlways | internal/postgres/queries/api.sql.go:15-33 | under the rule, every job with a run in flight is active and not spent, over every interleaving of claims, finishes, commands and the monitor |
| Quietness.DisabledMeansQuiet | internal/postgres/queries/api.sql.go:135-146 | under the rule, every run in flight belongs to a live schedule that is active |
| Scenarios.DisabledAroundARun | internal/postgres/queries/api.sql.go:354-366 | a behaviour from the empty tables (create, claim, finish, claim, set target 1, monitor) that exceeds the budget and in which the monitor disables a job around its run |
| LastRun.NoRunAfterTheLast | internal/postgres/queries/scheduler.sql.go:39-45 | while next_run_at is NULL and nobody patches it, the runs of the job stay the same, and done_runs grows by one exactly if a worker and not a sweep ends the run in flight |
| LastRun.TargetMetExactly | internal/postgres/queries/scheduler.sql.go:39-45 | after the claim of a last run, until a patch of next_run_at or of the target, the target is met if and only if that run has ended and no sweep ended it |
| LastRun.NeverMet | internal/postgres/queries/scheduler.sql.go:97-106 | if a sweep ended it, the target is unmet in every later state of every such behaviour |
| LastRun.SweptExactly | internal/postgres/queries/scheduler.sql.go:97-106 | a run counts as swept if and only if some reset took it from an active to a final status |
| Scenarios.SweepLeavesTargetUnmet | internal/scheduler/service/scheduler.go:80-110 | a behaviour from the empty tables (create with target 1, claim, wait, reset) that leaves the target unmet |
| Safety.StagesOnlyAdvance | internal/postgres/queries/worker.sql.go:71-77 | a run's row is rewritten at most three times less its rank, each time to a later stage, and never once it is terminal |
| Safety.GoneForever | sql/migrations/000007_add_run_job_table.up.sql:14-22 | a run deleted with its job never reappears |
| Safety.ResetPrecision | internal/postgres/queries/scheduler.sql.go:97-106 | in every reachable state a sweep ends exactly the active runs that have been in their present status for longer than that status allows, and leaves all other rows alone |
| Lifecycle.InvAlways | internal/postgres/queries/worker.sql.go:51-91 | key agreement, one active run, exact counters and ordered time stamps hold in every reachable state |
| Lifecycle.StampsOrderedStep | internal/postgres/queries/worker.sql.go:54-70 | scheduled, fetch, deliver and end stamps stay ordered, the end stamp is set exactly for terminal runs, and COALESCE yields the entry time of the present status |
| Lifecycle.FinishedStep | internal/postgres/queries/worker.sql.go:79-86 | the set of runs finished by workers grows by exactly the run of a successful final write and by no other action |
| Timing.BoundedOccupancy | internal/scheduler/service/scheduler.go:80-110 | if sweeps succeed in every interval of length P, every run is terminal or gone after schedule timeout + 2 processing timeouts + 3 P, whatever workers and queue do |
| Timing.RateLimit | internal/postgres/queries/scheduler.sql.go:37-45 | without patches of next_run_at and with an interval of at least I, any n runs of a job inside a window of length W satisfy (n-1) I <= W |
| Timing.PassingOverShrinks | internal/postgres/queries/scheduler.sql.go:31-33 | a claim that leaves an eligible job behind removes a full batch from the schedules due no later |
| Timing.BoundedBypass | internal/postgres/queries/scheduler.sql.go:15-50 | a job continuously eligible with due time d is passed over by at most \|B\| / batch claims, B being the other schedules due at or before d |
| Due.DueAgainExactly | internal/postgres/queries/scheduler.sql.go:37-45 | while nobody claims, commands, patches or deletes a claimed job, it is eligible again if and only if its run has ended, the claim was not its last, and at least one interval has passed since that claim |
| Due.FirstDueExactly | internal/postgres/queries/api.sql.go:102-113 | while nobody claims, commands, patches or deletes it, a job created by a validated request is eligible if and only if the next_run_at of that request has come |
| Due.DueIsClaimed | internal/postgres/queries/scheduler.sql.go:15-65 | a claim inserts at most one batch of runs, only for jobs that are active, due, within budget, free and not locked, and if it inserts fewer then for every such job |
| Due.InactiveGetsNoRun | internal/postgres/queries/scheduler.sql.go:18-30 | the runs of an inactive job stay the same until it is activated or deleted |
| Due.StampsAreKept | internal/postgres/queries/worker.sql.go:54-77 | from the step on that brings a run into a status, the column of that status holds the time of that step in every state |
| Sql.ClaimAllRuns | internal/postgres/queries/scheduler.sql.go:51-65 | the inserted rows are scheduled runs of the picked jobs and every older run is unchanged |
| Statements.ClaimWrites | internal/postgres/queries/scheduler.sql.go:35-65 | column by column: a picked schedule has been scheduled now and is next due now plus its interval, now if it has none, and never exactly if this was its last run; its run is inserted; nothing else is written |
| Statements.EligibleIsDue | internal/postgres/queries/scheduler.sql.go:15-34 | eligible means active, due by now, below a nonzero target and without a run in one of the three statuses |
| Statements.StatusWrites | internal/postgres/queries/worker.sql.go:51-91 | the guarded write sets the status and the stamp of its stage only, counts a final status in done_runs, and does so exactly if run, job and present status match |
| Statements.ResetWrites | internal/postgres/queries/scheduler.sql.go:97-106 | a sweep ends exactly the runs whose last stage began too long ago, with status error and an end stamp, and writes no schedule |
| Statements.DisableWrites | internal/postgres/queries/scheduler.sql.go:121-127 | the monitor clears is_active exactly where a nonzero target is met, and nothing else |
| Statements.SwitchWrites | internal/postgres/queries/api.sql.go:15-26 | activate and deactivate set is_active and updated_at of that job exactly if it has no run in flight |
| Statements.CreateWrites | internal/postgres/queries/api.sql.go:35-113 | a create fails exactly on a taken identifier or a negative interval, and otherwise adds one job, one active schedule with no run done and two configurations with the given values |
| Statements.DeleteWrites | internal/postgres/queries/api.sql.go:155-157 | a delete removes the rows that belong to the job from all four tables and keeps all others |
| Statements.PatchWrites | internal/postgres/queries/api.sql.go:301-366 | a patch of an existing job fails exactly on a negative interval; otherwise every field that it sets has its value, JSON fields also NULL, and every other column of every row its old one |
| Database.Db.Pick | internal/postgres/queries/scheduler.sql.go:15-34 | the selection loop yields eligible unlocked jobs in order of due time, and leaves an eligible one out only if the batch is full of jobs due no later |
| Database.Db.ClaimNextJobs | internal/postgres/queries/scheduler.sql.go:77-95 | the returned rows are such a selection, and the tables afterwards are exactly those of their claim, stated as one action and column by column |
| Database.Db.SetJobRunStatus | internal/shared/repository/repository.go:44-56 | a text that is no status changes nothing; otherwise exactly the guarded write happens, and success is reported if and only if the guard matched |
| Database.NeverWritten | internal/shared/repository/repository.go:69-78 | scheduled and disabled are exactly the statuses that pass the check and match no row in any tables |
| Database.ParseStatus | internal/shared/repository/repository.go:69-78 | exactly the six texts are accepted, and each yields its status |
| Database.Db.GetConfig | internal/shared/repository/repository.go:22-42 | a configuration is found if and only if the text names one of the two kinds and the job has one of it |
| Database.Db.ResetHungMessage | internal/postgres/queries/scheduler.sql.go:113-119 | the sweep performs exactly the reset action and reports the number of hung runs |
| Database.Db.SwitchToDisabledIfNeed | internal/postgres/queries/scheduler.sql.go:129-135 | the monitor performs exactly the disable action and reports the number of spent schedules |
| Database.Db.SetActive | internal/postgres/queries/api.sql.go:15-33 | activate and deactivate change the row if and only if it exists and has no active run |
| Database.Db.DeleteJob | internal/postgres/queries/api.sql.go:155-165 | a delete removes the job with its schedule, configurations and runs and nothing else |
| Database.Db.GetJobSchedule | internal/postgres/queries/api.sql.go:189-248 | the shown status is disabled, idle or that of the latest active run; no rows and the scan failure occur exactly for a missing row and a NULL next_run_at |
| Database.Db.ListJobIOConfigs | internal/postgres/queries/api.sql.go:273-299 | the list holds every configuration of the job exactly once |
| Repository.CreateJob | internal/api/repository/impl.go:35-95 | success means that the whole job was created, any other result that nothing was, except for a lost commit reply; without faults it succeeds exactly when all constraints hold |
| Repository.PatchJob | internal/api/repository/impl.go:178-259 | a failing part leaves all four row groups unchanged, success means the whole patch; without faults the result is decided by the patch alone |
| Repository.Command | internal/api/repository/impl.go:278-312 | accepted exactly when the row exists and is free, with the row written; otherwise nothing is written, and the reason given is that of the tables the second statement finds, whatever happened between |
| Repository.GetJobByID | internal/api/repository/impl.go:101-172 | each part of the view is that of the tables its own statement read, the two configurations are assembled by kind, and each error occurs exactly for its cause |
| Repository.ViewOfSecond | internal/api/repository/impl.go:101-172 | a view is the one of the moment of its second read if and only if the job row and the configurations there are the ones shown |
| Repository.ViewIsWhole | internal/api/repository/impl.go:101-172 | along any behaviour without a patch or deletion of the job between the first read and the third, it is |
| Repository.DeletedView | internal/api/repository/impl.go:120-150 | the configurations shown are those of the job if it still exists at the third read, and both empty if it was deleted before |
| Scenarios.TornByPatch | internal/api/repository/impl.go:101-172 | a behaviour from the empty tables whose view shows the old name with the new target, as no state does |
| Scenarios.TornByDelete | internal/api/repository/impl.go:120-150 | a behaviour from the empty tables whose view shows a job with empty configurations |
| Repository.CreateThenGet | internal/api/repository/impl.go:35-172 | what a validated request created is read back exactly, through any behaviour that does not claim, command, patch or delete the job before the last read |
| Repository.ViewIsTrue | internal/postgres/queries/api.sql.go:189-217 | in every reachable state the view shows the one active run, and idle means active and free; disabled means free while callers respect the rule for targets of busy jobs |
| Patches.PatchIsRowWise | internal/postgres/queries/api.sql.go:301-366 | a patch succeeds if and only if the rows it names exist and the interval left is not negative, and then rewrites exactly those rows |
| Requests.PatchLaw | internal/api/transport/http/handler.go:155-164 | in every reachable state, for any job, existing or not: one validated patch request after another leaves the same tables as their field-wise override, but for updated_at |
| Requests.PatchLawExact | internal/api/repository/impl.go:178-259 | in every reachable state, for any two patches, each its own transaction: one call after the other agrees with their override, but for updated_at, if and only if the job does not exist, or both or neither set a negative interval, or every value that only one of the two ways writes is there already |
| Requests.UnlawfulPairs | internal/api/repository/impl.go:198-216 | two pairs of patches on which they differ, in every state that holds the job with another target |
| Patches.SameResult | internal/postgres/queries/api.sql.go:301-366 | two patches of the same tables leave the same result, but for updated_at, if and only if they agree field by field on the rows of the job |
| Patches.PatchThenPatch | internal/api/repository/impl.go:178-259 | the step behind both: after a patch p that succeeded, q fails exactly when the override does, and otherwise yields the same tables but for updated_at |
| Patches.OverrideNeedsTheFirst | internal/api/repository/impl.go:198-216 | an input at which they differ, on any existing schedule; the validator rejects its first patch |
| Patches.PatchIsIdempotent | internal/api/repository/impl.go:178-259 | a second application succeeds, equals a single later one, and changes only updated_at |
| Patches.PatchesCommute | internal/api/repository/impl.go:178-259 | patches of different jobs commute exactly |
| Scheduling.Poller.Tick | cmd/scheduler/main.go:107-128 | whatever steps all other processes take meanwhile, a tick claims at most once, a lost reply yields no runs, and every claimed run is then either still running or tried, by exactly one step of the pipeline |
| Scheduling.Poller.Acquire | cmd/scheduler/main.go:119-126 | waiting for a token ends goroutines, each of which tries its claim once, until fewer than maxPushers run |
| Scheduling.TakenOnceStep | cmd/scheduler/main.go:119-126 | over any steps of the pipeline, no claim is published or lost twice |
| Scheduling.Poller.Crash | cmd/scheduler/main.go:107-128 | when the process ends, every claim it still holds is one crash step of the pipeline and a recorded loss |
| Retry.BackoffDuration | internal/shared/utils/retry.go:5-19 | the loop computes the capped doubling in wrapping 64-bit arithmetic |
| Retry.BackoffClosedForm | internal/shared/utils/retry.go:5-19 | the delay is min(base * 2^n, max) even where base * 2^n exceeds 64 bits, unless a doubling lands between 2^62 and the cap |
| Retry.BackoffExact | internal/shared/utils/retry.go:5-19 | the closed form holds for every attempt if and only if no doubling of the base lands between 2^62 and the cap |
| Retry.OverflowGoesNegative | internal/shared/utils/retry.go:11-17 | otherwise some attempt gets a negative delay |
| Retry.HttpRetryPolicySection.Validate | internal/config/validator.go:81-100 | field by field: no attempts become 3, no base becomes 5 seconds, the cap becomes the larger of cap and base, an unknown kind becomes fixed, and every other value is kept, whatever the other fields are |
| Retry.DefaultsExactly | internal/config/validator.go:81-100 | the same for the validated policy that the theorems about delays use |
| Retry.ValidationIsExact | internal/config/validator.go:81-100 | validation changes a policy if and only if it is not of that form, and is idempotent |
| Retry.ValidatedBackoff | internal/config/validator.go:81-100 | after validation with a cap below 2^62 delays follow the closed form, grow with the attempt and lie between base and cap |
| Worker.LocalInvStep | internal/fetcher/service/fetcher.go:223-287 | every event of a delivery keeps the counters, the publishing bound and the meaning of results and answers |
| Worker.LocalInvAlways | internal/delivery/service/deliver.go:197-262 | these hold after every event sequence of one delivery |
| RetryLoop.RequestsBounded | internal/delivery/service/deliver.go:197-262 | one delivery makes at most MaxAttempts requests, and none with malformed headers |
| RetryLoop.NilResult | internal/delivery/service/deliver.go:213-217 | a nil result ends in the successful publish or write of idle, and every earlier attempt ended with a retryable status (0 standing for no HTTP status) |
| RetryLoop.ErrorResults | internal/delivery/service/deliver.go:228-261 | nil with a retryable status never reaches the end of the loop, and the closing error occurs exactly when no attempt is allowed |
| RetryLoop.ExhaustionExact | internal/delivery/service/deliver.go:239-250 | for well-formed messages with time to process them, an exhausted budget asks for redelivery on every event sequence if and only if 0 is not retryable or at most one attempt is allowed |
| RetryLoop.SleepsFitBudget | internal/fetcher/service/fetcher.go:289-300 | every planned wake-up is no later than ten seconds before the deadline and all planned sleeps together fit into the rest, however late timers fire |
| RetryLoop.EarlierSleepsAreNominal | internal/fetcher/service/fetcher.go:261-284 | a sleep cut short by the deadline is never followed by another, so every earlier sleep is the full backoff |
| RetryLoop.SinglePublishExact | internal/fetcher/service/fetcher.go:160-176 | a delivery whose responses carry HTTP statuses publishes at most once on every event sequence if and only if 0 is not retryable, or at most one attempt is allowed, or every HTTP status is retryable |
| Attempts.OrderExactly | internal/fetcher/service/fetcher.go:40-177 | within an attempt, after any accepted events, exactly the stated ones may follow: gate, configuration, request as configured, response, schema check of that response against that configuration, publication of that response (deliverer: write of idle) |
| Attempts.AttemptEnds | internal/delivery/service/deliver.go:213-237 | an attempt that ends with an error is retried if and only if its status is retryable and fewer than MaxAttempts attempts have been made, and otherwise its error is the result |
| Attempts.AllAttemptsMade | internal/delivery/service/deliver.go:206-261 | if the loop returns after a retryable end, and neither time nor context ran out, exactly MaxAttempts attempts have been made |
| Attempts.RetryExactly | internal/fetcher/service/fetcher.go:261-300 | after a retryable end with attempts left, with more than ten seconds to the deadline exactly one sleep may be planned, of the policy's delay or the time left if that is less, and otherwise the loop gives up with the error at hand |
| Attempts.SleepExactly | internal/fetcher/service/fetcher.go:279-284 | a planned sleep ends after its full length or with the context, and the former begins the next attempt |
| Attempts.ResultExactly | internal/fetcher/service/fetcher.go:223-287 | every result is what the last events conclude: no attempt allowed, cancelled, out of time with the error of a retryable end, success, or an error that is not retryable or used up all attempts |
| Attempts.AnsweredExactly | internal/shared/queue/nats/consumer.go:110-135 | every completed event sequence is a result followed by exactly the answer that belongs to it, with the error write before it exactly where one is due |
| Handlers.FetcherHandle | internal/fetcher/service/fetcher.go:40-177 | every execution is accepted by the automaton and ends where its error and status code lead, and these are what its last event means |
| Handlers.DelivererHandle | internal/delivery/service/deliver.go:37-152 | likewise for the deliverer |
| Handlers.PipelineHandler | internal/fetcher/service/fetcher.go:223-287 | the loop follows the automaton with its variables and returns what its events conclude: a retryable end is returned only after MaxAttempts attempts or when the time or the context ran out |
| Handlers.ErrorHandler | internal/fetcher/service/fetcher.go:179-221 | it runs only for final errors and reports whether the error status was written |
| Handlers.ConsumeMessage | internal/shared/queue/nats/consumer.go:110-135 | the callback answers exactly once and as its events require: ack for nil; the error handler, then term if its write succeeded or the delivery is the last and nak if not, for a final error or any error on the last delivery; a plain nak for every other error |
| Handlers.InSlice | internal/shared/utils/generic.go:3-10 | membership, in both directions |
| Effects.EffectBound | internal/fetcher/service/fetcher.go:65-177 | over all deliveries and racing workers a run passes each gate at most once, makes at most MaxAttempts requests per stage, publishes no more often than it fetches and at most once unless 0 is retryable, and has no more delivery messages than publications |
| Effects.GatesStep | internal/delivery/service/deliver.go:63-76 | at any time at most one handler of a stage is past the gate of a run, and its status is at least that of the gate |
| Effects.OwnTally | internal/fetcher/service/fetcher.go:65-177 | the log's counts for a run are exactly the counters of the one handler past the gate |
| Order.StageOrder | internal/delivery/service/deliver.go:111-137 | every request to a target is preceded by a non-retryable, schema-accepted source response of the same run with the same body |
| Outcome.IdleMeansDelivered | internal/delivery/service/deliver.go:111-151 | for every idle run the log shows, in order, an accepted source response, the request to the target with that body, and its non-retryable response |
| Outcome.IdleExactly | internal/delivery/service/deliver.go:146-151 | a run that exists is idle if and only if a deliverer's write of idle took effect on it |
| Sources.RequestsAreConfigured | internal/fetcher/service/fetcher.go:77-112 | over all behaviours: just before a request its handler read the configuration of its stage and job from the tables, and the request has that verb, URL and headers, the configured payload for a source (empty if there is none) and the message for a target |
| Deliveries.LastDeliveryExactly | internal/shared/queue/nats/consumer.go:114-121 | a handler gets the body and run of its message and the time of its stage, and treats the delivery as the last if and only if it can read the metadata and the message has been delivered at least maxDeliver times |
| Deliveries.SettledIsNotRedelivered | internal/shared/queue/nats/consumer.go:117-134 | once an ack or a term has arrived, the message is never delivered again |
| Deliveries.UnsettledMayComeAgain | internal/shared/queue/nats/consumer.go:117-134 | until then, unless dropped at its limit, it may be delivered again exactly while that limit is not reached |
| Records.CallsMayFail | internal/shared/repository/repository.go:44-56 | any call may fail without effect, a write also after it, and a write is reported as done only if its guard matched |
| Records.LogExactly | internal/scheduler/service/scheduler.go:54-78 | the log holds exactly the events of handlers and the losses of runs, each loss exactly for its cause |
| Endings.FirstDecides | internal/postgres/queries/worker.sql.go:71-77 | a run is active while no final write or sweep would have ended it, idle if and only if the first such action writes idle, and failed if and only if it writes error or is a sweep |
| LostAck.DeliveredThenFailed | internal/fetcher/service/fetcher.go:65-76 | for every configuration that can deliver a fetch message twice, a behaviour in which the target answers acceptably and the run still ends failed |
| Answers.NoSilentLoss | internal/shared/queue/nats/consumer.go:110-135 | every active run has a held claim or a live message of the stage its status calls for, unless a named loss event hit it |
| Answers.AnswerSoundness | internal/shared/queue/nats/consumer.go:117-134 | a fetch ack implies a published delivery message, a delivery ack an idle run, and a term before the last delivery a failed run, then and in every later state |
| Answers.AnswerStep | internal/delivery/service/deliver.go:146-195 | what handlers were told stays true, and a run in the status of a stage has a message of that stage |
| Answers.LossStep | internal/fetcher/service/fetcher.go:160-221 | a message is given up only for a run that is settled, recorded as lost or has its next message |
| Refinement.PipelineRefinesDatabase | internal/scheduler/service/scheduler.go:30-139 | the database states of every pipeline behaviour form a behaviour of the database machine |
| Refinement.PipelineIsSafe | internal/scheduler/service/scheduler.go:30-78 | mutual exclusion and conservation hold in every state of the pipeline |
| Pipeline.RefsStep | internal/scheduler/service/scheduler.go:54-78 | messages, claims and handlers always refer to runs that were claimed, and a handler to the message it was started for |

## Left out

- PostgreSQL snapshots, row locks and re-checks under read committed: statements are atomic; rows held by other transactions appear only as an arbitrary excluded set of the claim.
- The NATS server: storage, retention and redelivery timing. A live message may be delivered again at any time while its delivery count allows it.
- HTTP, URL, UUID, JSON and JSON-schema processing: their outcomes are arbitrary. A request carries the verb, the URL and the undecoded headers column of its configuration; whether that column decodes is arbitrary.
- The HTTP transport and service layers but for the validation of names, intervals and targets; error-to-status mapping, config loading, logging, metrics and telemetry.
- The resolution of maxProcessingTime and maxDeliver from the consumer configuration (`internal/shared/queue/nats/consumer.go:90-97`): both are parameters.
- The endless ticker loops of the scheduler and its monitors: every number of claims, sweeps and disables at any time is covered by the machine; one tick of the claim loop is `Scheduling.Poller.Tick`.
- Eventual completion of a finite job: not guaranteed by the code, see `LastRun.TargetMetExactly`.
- Repository.CreateThenGet: values are read back up to JSON equality and microseconds, as the columns are JSONB and TIMESTAMPTZ (`sql/migrations/000001_init.up.sql:31` and `:50-51`).
- int32 counters, saturation of durations and clocks that go back.
- Rows of job_io_configs have no created_at in the model; nothing reads it.
- Repository.Command: database errors other than "no rows" are passed through by the source and not modelled here; they are aborts of the machine.
- Database.Db.ClaimNextJobs: rows come back in the order of selection, which SQL does not promise; no theorem uses the order of the returned rows.
- Timing.BoundedBypass: assumes that the claims it counts neither abort nor skip locked rows.
- Pipeline deadlines: the timeouts of 5 s, 30 s and 10 min around single calls appear only as calls that fail.
