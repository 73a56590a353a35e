# A model of CloudOptix's coordination and simulation code

CloudOptix runs background workers on several replicas, ingests (or simulates) daily cloud cost, and is
assembled by one composition root. This project models the parts of it whose behaviour is hardest to see
from one function, and proves what they keep over every run and every input.

| file | models |
|---|---|
| `Lease.dfy` | the TTL lock table, and every run of replicas that acquire, work, overrun, crash, restart and release |
| `Cycle.dfy` | one worker cycle over all tenants: visits, error and panic isolation, counters, tenant enumeration |
| `Claims.dfy` | the atomic claim of executed plans, and the validation sweep over a claim |
| `PlanRuns.dfy`, `PlanCalls.dfy` | every run of replicas that claim and of service calls that read a plan, hold it and write it back over what is stored; what one such call does undisturbed |
| `Dedup.dfy` | the lazily swept idempotency cache against its whole call history, and its refreshing twin for alerts |
| `ArgLine.dfy`, `Splitter.dfy` | the index-jumping command-line splitter, and Go's standard flag grammar that reads its halves |
| `Money.dfy`, `Calendar.dfy` | integer micro-dollars with their rounding; UTC days and the bucketing of a period |
| `CostSeries.dfy`, `CostIngest.dfy` | line items, the seeded draws, the day-by-item loop, the spike, the in-place rescale |
| `Reconciliation.dfy`, `CostOrder.dfy` | what the rescaled series adds up to; when the order its items were walked in shows |
| `CostShape.dfy`, `CostBilled.dfy`, `CostWeek.dfy` | what the series looks like: tiling, spike and week, as drawn and as billed |
| `Lifecycle.dfy` | acquiring, failing and releasing in the composition root |
| `Paging.dfy` | keyset pages, the loop that walks them while the store changes, the top ten of a copy sorted in place |
| `Dispatch.dfy`, `Selection.dfy` | choosing a subcommand; resolving a worker list |
| `AuditChain.dfy`, `AuditPayload.dfy` | the hash-chained audit log and its two verification walks; what a record hashes and what its copy keeps |
| `Mulberry.dfy` | the frontend's 32-bit generator |
| `Wrappers.dfy` | an optional value |
| `Order.dfy` | Go's string order and the contracts of `sort.Slice` and `sort.SliceStable` |

Conventions. `float64` is `real`; rounding is explicit exactly where Money is made. Clocks, random draws,
hashes, callbacks and the answers of stores are parameters, so a theorem holds for all of them. A stream
is any function from draw numbers to reals, and a theorem says so when it needs them in [0, 1). Objects
the source updates in place are classes; each of their methods is tied to functions of the old state,
and the lemmas are about those functions. Locks held around a method body make it one step.

## Where code and comments part

The models follow the code. These are the places where its comments or documentation promise more.

- `internal/app/workers.go:51-53` says the lease outlives the cycle interval, but the default at 256-259 is
  five minutes against intervals of hours. Exclusion holds when every body ends within its lease
  (`Lease.MutualExclusion`). Without that, `Lease.JoinsIff` says exactly when a second agent gets in beside a
  running body, and every run that overruns goes on to one in which one does (`Lease.OverrunExtends`).
- `internal/adapters/memstore/execution.go:76-85` and `internal/app/workers.go:459-462` say that claim sets are
  disjoint. Two claims that run at once are. But `UpdatePlan` (46-57) overwrites whatever is stored with the plan a
  call read earlier, and `Execute` (`internal/application/automation/execute.go:62-78`) does so before it takes the
  plan's lock: of two calls that read a plan awaiting approval, the slower can write it approved again after it was
  executed and claimed, and it is then executed and claimed a second time (`PlanRuns.ClaimedTwice`).
  `PlanRuns.SecondClaimIff` says exactly when a claimed plan can be claimed again, `PlanRuns.LockedSecondClaimIff`
  when plan locks outlast what runs under them. The same write-back fails a plan that is being executed, which then
  goes on to be executed and claimed (`PlanRuns.FailedRunsOn`).
- `internal/app/workers.go:477-488` recovers nothing around `Validate`, so a panic there unwinds the sweep and the
  plans claimed behind it get no call (`Claims.EveryPlanCalledIff`, `PlanRuns.StrandedForGood`). A plan with a finish
  and no start is such an input: `internal/application/automation/validate.go:40` checks the finish, 63 reads
  through the start (`Claims.PanicStrands`). The service itself never makes one (`PlanRuns.ServicesSetStart`); it
  would have to be put in the store by something else.
- `internal/app/workers.go:90,153-159`: a panic in a global body, or while listing tenants, is recovered into a
  nil result, so the failure counter misses exactly those (`Cycle.ReportsIff`, `Cycle.FailuresMissPanics`).
- `internal/app/workers.go:237` reads one page of 500 tenants; `Cycle.EnumeratesAllIff` says when that is all.
- `internal/adapters/events/dedup.go:30-31` reads the clock before taking the mutex, so timestamps in lock order
  can go back. `Dedup.DepartsFromDocumentedRule` says exactly when the documented rule then fails and
  `Dedup.ClockOrderMatters` shows it. The locker reads its clock the same way, which costs it nothing proved here.
- `internal/application/automation/validate.go:161-168` leaves an inconclusive plan in validation for a later
  call; no worker's claim selects it again, unless a write-back of the kind above has revived it
  (`PlanRuns.InconclusiveNeverReclaimed`).
- `internal/adapters/awssim/cost.go:6-8` says the records reconcile exactly. Before rounding they do; in
  micro-dollars they cannot unless 487 divides total times days (`Reconciliation.ExactOnlyIf`), and are within
  1.0721 micros a record (`Reconciliation.FetchAddsUp`). The divisibility is not enough either, and nothing about
  the total and the days is (`Reconciliation.ExactUndecided`).
- `internal/adapters/awssim/cost.go:79-84` sorts by key so that the walk of the estate does not show. It does not
  exactly when items of one key are alike (`CostOrder.OrderIrrelevantIff`), which they are when no two resources
  share an id and none is spelled like a NAT gateway's line (`CostOrder.NoClashNoOrder`, `CostSeries.KeysDistinctIff`).
- `internal/adapters/awssim/cost_test.go:68-132` compares billed amounts. Those are rounded, so on lines of a few
  micros a month the comparisons fail (`CostBilled.BilledSpikeVanishes`); the sizes from which they hold are in
  `CostBilled.BilledSpikeBeatsMean` and `CostWeek.BilledWeekendHeavier`.
- `internal/adapters/awssim/cost.go:154-160` gives traffic-driven lines the flat jitter too; the code draws it
  and discards it (`CostSeries.DayFactor`).
- `internal/adapters/awssim/cost.go:178-179` says every day of the half-open period is bucketed;
  `Calendar.CoversIff` says when.
- `internal/app/flags.go:22-24` sends everything unknown to `rest`; a foreign flag's separate value that is
  spelled like an own flag is not (`Splitter.SharedLine`, exactly when).
- `README.md:432` of the repository says removing a record breaks the audit chain at every later entry. That is
  so when there is a later entry; the last records need the stored head (`AuditChain.RemovalReportedIff`), and
  an edit is reported when it touches a hashed field (`AuditChain.EditReportedIff`).
- `internal/adapters/memstore/audit.go:35-37` seals a record and stores a copy of it made through JSON
  (`internal/adapters/memstore/clone.go:23-33`). `internal/domain/audit/audit.go:146-147` leaves empty attribute maps
  out of the copy while 186-187 hash them, so a record with a map that was made and left empty is reported as altered
  though nobody touched it (`AuditPayload.EmptyMapReported`, `AuditPayload.EmptyAfter`). An executor answers a wait step with
  such a map (`internal/adapters/awssim/executor.go:318-319`), and `internal/application/automation/execute.go:187-189`
  records it.
  `AuditPayload.LogIntactIff` says exactly when an untouched log verifies.

## Model

| member | source | states |
|---|---|---|
| Lease.LockTable.Acquire | internal/adapters/memstore/locker.go:30-44 | granted exactly if no lock stands at the key that expires after the reading; the key is then the caller's until the reading plus its own TTL, or plus 30 seconds for one that is not positive; otherwise nothing changes |
| Lease.LockTable.Release | internal/adapters/memstore/locker.go:46-52 | frees the key only while the caller's token is still the lock's |
| Lease.StepKeeps | internal/adapters/memstore/locker.go:12-54 | every step of any replica, crashes and restarts included, keeps: tokens unique, a body in time holds its lock, a body's token is only ever at its own key with its own deadline |
| Lease.RunKeeps | internal/app/workers.go:130-151 | that invariant holds in every state of every run from an empty table |
| Lease.OneUnexpiredHolder | internal/ports/services.go:345-350 | with no assumption on how long bodies take, no key has two holders whose leases have both not run out |
| Lease.RefusedIff | internal/adapters/memstore/locker.go:30-52 | which asks of a run are answered conflict, told by its history alone: those for a key that somebody got, has not released and nobody has got since, read less than that lease's own TTL after the reading it was given at |
| Lease.DeadlineIs | internal/adapters/memstore/locker.go:42 | whoever gets in has until the reading it was given at plus its own TTL |
| Lease.MutualExclusion | internal/app/workers.go:46-53 | if bodies end within their leases, no two agents are inside the same key in any state of any run |
| Lease.OverlapNeedsOverrun | internal/app/workers.go:46-53 | whoever gets in beside a running body finds that body past its deadline |
| Lease.JoinsIff | internal/app/workers.go:46-53 | in any state of any run an idle agent that asks now gets in beside a running body if and only if that body is past its deadline and no later grant of the key stands unexpired |
| Lease.OverrunExtends | internal/app/workers.go:256-259 | every run that ends with a body past its deadline extends to one in which any idle agent is inside beside it: the time bound is needed everywhere |
| Lease.OverrunOverlaps | internal/app/workers.go:256-259 | witness: for any key and TTL, a three-step run from the empty table ends in such an overlap |
| Lease.OnlyHolderReleases | internal/adapters/memstore/locker.go:14-19 | a release by anyone else leaves a holder's lock exactly as it was |
| Lease.ExpiryBounded | internal/adapters/memstore/locker.go:42 | no lock ever expires later than the longest lease from now |
| Lease.LockStands | internal/adapters/memstore/locker.go:38-43 | a lock never changes while it stands; a different lock under its key carries a later token |
| Lease.CrashBlocksAtMostTTL | internal/app/workers.go:60-62 | once the longest lease has passed, a key that stood when its holder crashed is free or has since been granted anew |
| Lease.ConflictStands | internal/app/workers.go:144-147 | a turn is only ever skipped rightly: behind every conflict answer is an earlier grant of that very key that has stood ever since, was not released by its holder, and has not run out at the time the caller read |
| Lease.LeaseKeysInjective | internal/app/workers.go:93-131 | for worker names without a colon two leases share a key if and only if they are the same work, or a global worker meets a tenant called "global" under one name |
| Lease.BlockedByOwnKeyOnly | internal/adapters/memstore/locker.go:38-43 | a lock under a key is there by an earlier grant of that very key |
| Lease.TenantsApart | internal/app/workers.go:46-50 | different tenants never block each other: a tenant's turn is only ever skipped for an earlier grant to that worker and tenant, or to a global worker of that name if the tenant is called "global" |
| Cycle.Worker.Leased | internal/app/workers.go:139-151 | a held lease is success with nothing run; otherwise take, run, give back, in that order, whether the body returns, errs or panics |
| Cycle.Worker.RunTenant | internal/app/workers.go:118-134 | a panic becomes an error naming worker and tenant |
| Cycle.Worker.RunOnce | internal/app/workers.go:89-116 | the events and result of a whole cycle, global or per tenant, with the nil result of a recovered panic |
| Cycle.Worker.RunTenants | internal/app/workers.go:102-115 | the loop visits the tenants the specification says and joins the errors it says |
| Cycle.Worker.Run | internal/app/workers.go:174-191 | runs counts the cycles and failures those whose result is not nil |
| Cycle.EventsIff | internal/app/workers.go:139-151 | in any cycle, global or per tenant, a lease is taken, a body run and the lease given back at exactly the keys of visited work whose Acquire answered with the lease |
| Cycle.ErrorsExact | internal/app/workers.go:104-147 | which error each visited tenant is joined with: none for a conflict or done work, the lease's, the work's, or the panic with worker and tenant |
| Cycle.VisitsPrefix | internal/app/workers.go:103-114 | the visited tenants are a prefix in order, each once, non-empty if there are any, complete unless the context was done right after the last one visited |
| Cycle.ErrorsNameFaulty | internal/app/workers.go:104-115 | the joined error names exactly the visited tenants whose lease or work failed, in order; lease conflicts are none of them |
| Cycle.TenantAlone | internal/app/workers.go:104-134 | what happens under a tenant's key depends only on that tenant's own lease and body: taken, run, given back once each if granted, however the body ends; nothing otherwise |
| Cycle.CycleBracketed | internal/app/workers.go:139-151 | in a whole cycle each lease taken is given back before the next is taken |
| Cycle.ReportsIff | internal/app/workers.go:90-159 | a cycle reports an error if and only if something went wrong other than a panic outside any tenant's turn |
| Cycle.FailuresMissPanics | internal/app/workers.go:185-191 | over any run the failure counter plus those panics is the number of troubled cycles |
| Cycle.ActiveTenants | internal/app/workers.go:225-249 | the active tenants of the first 500 records, ascending |
| Cycle.EnumeratesAllIff | internal/app/workers.go:237-246 | every active tenant is enumerated if and only if none stands past the first 500 records |
| Cycle.EveryTenantServed | internal/app/workers.go:98-115 | in a store of at most 500 tenants an uncancelled cycle serves each active tenant once, whatever befalls the others |
| Claims.PlanStore.Candidates | internal/adapters/memstore/execution.go:153-165 | in whatever order the maps are walked, each due plan once and nothing else |
| Claims.CandidatesAre | internal/adapters/memstore/execution.go:155-164 | told by the stored plans alone, the candidates are one for each executed plan that has finished and whose window has closed by now, with the moment it closed |
| Claims.PlanStore.ClaimAwaitingValidation | internal/adapters/memstore/execution.go:141-185 | takes the head of the due queue up to the limit (50 when not positive), moves exactly those to validating, touches nothing else |
| Claims.ClaimTakesSoonest | internal/adapters/memstore/execution.go:166-174 | claimed plans are due and distinct, as many as the limit allows, and none left behind became ready before one taken |
| Claims.ClaimExact | internal/adapters/memstore/execution.go:151-183 | told by the stored plans alone: claimed plans are executed with finish plus window not after now; every such plan is if there is room; none whose window closed later than that of one left, ids deciding between equals; those become validating and nothing else changes |
| Claims.ClaimMoves | internal/adapters/memstore/execution.go:176-183 | no plan appears or disappears; claimed ones were due and are validating after; others are unchanged |
| Claims.DueShrinks | internal/adapters/memstore/execution.go:174-183 | a claim removes from the due set exactly what it took |
| Claims.ClaimsDrain | internal/adapters/memstore/execution.go:172-174 | repeated claims at one time and limit leave max(0, due - i * limit) after i of them: nothing starves |
| Claims.ValidateDuePlans | internal/app/workers.go:466-490 | one call per claimed plan in claim order up to the first that panics, limit 4 when not positive; an error moves on, a panic leaves with the errors gathered; a failed claim is the only error and makes no call |
| Claims.EveryPlanCalledIff | internal/app/workers.go:477-488 | every claimed plan has its call if and only if no call before the last one panics |
| Claims.ErrorsAreRefusals | internal/app/workers.go:477-489 | the sweep returns if and only if no call panics, and then its errors are those of exactly the refused plans |
| Claims.ErrorsInOrder | internal/app/workers.go:477-489 | those errors come in the order of the plans |
| Claims.PanicStrands | internal/application/automation/validate.go:40-63 | two due plans, the sooner with a finish and no start: if Validate panics on such plans, the other one is stranded |
| PlanRuns.ClosedForever | internal/application/automation/execute.go:46-222 | a plan that is neither stored as still to be executed or claimed nor held by a call of Execute that can bring it there stays so in every run, and is in no claim |
| PlanRuns.FreshMoves | internal/application/automation/execute.go:73-199 | a step whose writer holds the plan as stored moves it along the lifecycle, setting its start when it begins to execute and its finish when it is executed or rolled back, and at no other time |
| PlanRuns.WhoWrites | internal/application/automation/execute.go:62-199 | only Execute approves, executes; only Execute and Validate fail a plan; only Validate validates, Rollback rolls back, Cancel cancels |
| PlanRuns.EveryMove | internal/domain/execute/plan.go:22-40 | every move of that lifecycle is one some such step makes |
| PlanCalls.CallReaches | internal/application/automation/execute.go:46-222 | exactly where one call of Execute, Cancel, Validate or Rollback that nothing disturbs can leave a plan, by the state, soundness and finish it is stored with |
| PlanCalls.PlansBegin | internal/application/automation/plan.go:120-139 | a plan comes into the store awaiting approval or approved, without start or finish, and in no other way |
| PlanRuns.ClaimableIff | internal/adapters/memstore/execution.go:46-57 | in any reachable state some way on claims a stored plan if and only if it is so stored or so held |
| PlanRuns.SecondClaimIff | internal/ports/repositories.go:356-358 | a plan just claimed can be claimed again if and only if some call of Execute read it as awaiting approval and has yet to promote it, or is still executing it |
| PlanRuns.LockedSecondClaimIff | internal/application/automation/execute.go:19-23 | while plan locks outlast what runs under them, if and only if it is the former |
| PlanRuns.ClaimsDisjoint | internal/adapters/memstore/execution.go:76-85 | two claims of a run are disjoint when, right after the first, no call holds what it took in that way |
| PlanRuns.ClaimsShareOnlyIf | internal/adapters/memstore/execution.go:76-85 | a plan in two claims of a run was so held right after the first |
| PlanRuns.ClaimedTwice | internal/application/automation/execute.go:73-100 | witness, with no lock lapsing: two calls read a plan awaiting approval, and it is executed and claimed twice |
| PlanRuns.FailedRunsOn | internal/application/automation/execute.go:62-72 | witness: a second call fails a plan the first is executing, and it is executed and claimed all the same |
| PlanRuns.InconclusiveNeverReclaimed | internal/application/automation/validate.go:161-168 | a plan in validation that no call so holds is in no later claim |
| PlanRuns.ValidatedTwiceOnlyIf | internal/app/workers.go:459-465 | the workers validate a plan twice in a run only if it was so held right after the first claim, and each call's principal is of the plan's own tenant |
| PlanRuns.StrandedForGood | internal/app/workers.go:469-488 | a plan claimed and not called has no call, is in validation after the claim, and is in a later claim only if it was so held |
| PlanRuns.ServicesSetStart | internal/application/automation/execute.go:127-132 | in a store whose executed plans have a start no run of claims and service calls leaves one executing, executed or in validation without |
| Dedup.DedupCache.Sweep | internal/adapters/events/dedup.go:34-40 | deletes during iteration, in any order, exactly what has expired |
| Dedup.DedupCache.Seen | internal/adapters/events/dedup.go:29-47 | the map after a call, and that map and whole call history stay in step whatever the clock read |
| Dedup.SeenStep | internal/adapters/events/dedup.go:29-47 | one call keeps the map equal to the accepts no later call found expired, and every answer the one the history calls for |
| Dedup.AnswersDetermined | internal/adapters/events/dedup.go:29-47 | the inputs alone fix every answer |
| Dedup.RefinesDocumentedRule | internal/adapters/events/dedup.go:25-28 | a hit is never wrong, and a call whose clock is no older than its predecessors' is answered exactly by "recorded within the window" |
| Dedup.DepartsFromDocumentedRule | internal/adapters/events/dedup.go:30-40 | the documented rule fails for a call if and only if the key has recent accepts and each was swept by a call whose clock ran ahead |
| Dedup.ClockOrderMatters | internal/adapters/events/dedup.go:30-31 | a three-call history in which it does fail |
| Dedup.AcceptGap | internal/adapters/events/dedup.go:36-46 | with clocks at most skew out of order two accepts of a key are more than window - skew apart |
| Dedup.AcceptRate | internal/adapters/events/dedup.go:42-46 | in any span of length L a key is accepted at most L / (window - skew + 1) + 1 times |
| Dedup.MapBounded | internal/adapters/events/dedup.go:25-28 | after a call every entry is unexpired and there are no more than the accepts within its window |
| Dedup.AlertDedup.Seen | internal/adapters/notify/dedup.go:32-45 | sweeps, then records the call either way, in step with its own history rule |
| Dedup.RefreshingSuppressesMore | internal/adapters/notify/dedup.go:28-31 | on the same calls under an ascending clock the refreshing cache suppresses whatever the other does |
| Splitter.SplitArgs | internal/app/flags.go:26-63 | the index-jumping loop, value lookahead included, computes the one-argument-at-a-time partition |
| Splitter.RespellTrims | internal/app/flags.go:51-59 | an own flag is written out with one dash: verbatim if it had one, without the first if it had two |
| Splitter.RespellReads | internal/app/flags.go:69-78 | and reads back with the same name and value |
| ArgLine.Conservation | internal/app/flags.go:36-63 | every argument lands in exactly one half, in order, and the lengths add up |
| Splitter.Fixpoints | internal/app/flags.go:26-63 | splitting own gives own and nothing; splitting rest gives nothing and rest |
| Splitter.Rejoin | internal/app/flags.go:55-59 | own followed by rest splits back into the two if and only if own does not end in a flag still waiting for a value that rest would supply |
| Splitter.RoundTrip | internal/app/flags.go:11-18 | the standard parser consumes own whole and reads exactly the known flags of the line, in order, with their values |
| Splitter.FailsIffDangling | internal/app/flags.go:58-60 | the only failure is a last flag without its value |
| Splitter.ExtendsStandardParse | internal/app/flags.go:11-18 | a line the standard parser accepts gets the same assignments, then those of its positional tail |
| Splitter.SharedLine | internal/app/flags.go:15-17 | a line one parser with both flag sets would accept is divided so that each parser reads exactly its share, unless, and exactly when, a foreign value is spelled like an own flag |
| Money.RoundNearest | internal/domain/core/money.go:59 | rounding is to the nearest micro, ties away from zero |
| Money.RoundMonotone | internal/domain/core/money.go:133-137 | and keeps order |
| Money.UnitsRoundTrip | internal/domain/core/money.go:54-89 | an amount written out in dollars reads back as itself |
| Money.ScaleError | internal/domain/core/money.go:133-137 | rounding, rescaling and rounding again is out by at most (scale + 1) / 2 micros |
| Calendar.DailyBuckets | internal/adapters/awssim/cost.go:183-197 | the loop terminates with max(1, day difference) consecutive midnights, none for an empty period |
| Calendar.CoversIff | internal/adapters/awssim/cost.go:178-182 | every instant of the period has its day bucketed if and only if it ends at a midnight or on its first day |
| Calendar.BucketsTouchPeriod | internal/adapters/awssim/cost.go:183-197 | no bucket is a day the period does not touch |
| Calendar.SplitsIff | internal/adapters/awssim/cost.go:183-197 | adjoining periods bucket into what the whole does if and only if the three endpoints fall on three days |
| CostSeries.BuildLineItems | internal/adapters/awssim/cost.go:203-351 | one line a resource, two for a NAT gateway, none for a line with nothing to bill |
| CostSeries.LinesAreBilled | internal/adapters/awssim/cost.go:203-351 | the lines of an estate are those its resources bill, once for each that does, with its own id, dimensions, price and traffic; a NAT gateway's two are the flat hours and the varying, anomalous bytes |
| CostSeries.RecordIs | internal/adapters/awssim/cost.go:109-131 | a record is worth its line's price over 30.4375, times its weekday's season and its draw, times 4.5 on the spike day of a NAT-processed line |
| CostSeries.ItemsSumToTotal | internal/adapters/awssim/costmodel.go:292-369 | the lines add up to the estate's total if and only if no price is negative, and otherwise to more |
| CostSeries.ItemsBillable | internal/adapters/awssim/cost.go:205-209 | every line is positive, and NAT-processed lines are traffic-driven |
| CostSeries.KeysDistinctIff | internal/adapters/awssim/cost.go:205-317 | the sort keys are distinct if and only if no two resources bill a line under one key: two of one id, or one whose id is spelled like a billed line of a NAT gateway |
| CostSeries.DayFactor | internal/adapters/awssim/cost.go:161-176 | a flat line takes one draw, within 3%; a traffic-driven one takes two, discards the first, and is its weekday's season within 8% by the second |
| CostSeries.FactorBounds | internal/adapters/awssim/cost.go:161-176 | the factor lies in [0.874, 1.3176), and within 8% of its weekday's season |
| CostSeries.SpikeDayInside | internal/adapters/awssim/cost.go:95-101 | the spike day is inside [1, n - 1], so the cap never applies; one-day periods have none |
| CostSeries.RawAt | internal/adapters/awssim/cost.go:107-132 | record (d, k) is at d * items + k and reads the stream at d rows of draws plus those of the items before |
| CostSeries.DrawsCount | internal/adapters/awssim/cost.go:161-176 | a row takes one draw an item and one more for each traffic-driven item |
| CostIngest.Draw | internal/adapters/awssim/cost.go:103-132 | the nested loop appends exactly the specified records, leaves the running total equal to their sum, and the stream at days times draws |
| CostIngest.SeedCounts | internal/adapters/awssim/cost.go:60-66 | a period that starts in second s and ends in second t has seed 31 s + t |
| CostIngest.RescaleAll | internal/adapters/awssim/cost.go:139-142 | overwriting by index rescales every record once |
| CostIngest.Fetch | internal/adapters/awssim/cost.go:70-145 | the session's error, or the specified series of the estate's items in some order sorted by key |
| Reconciliation.Reconciles | internal/adapters/awssim/cost.go:134-143 | for any positive records the rescaled sum is the target exactly, and in micros within (scale + 1) / 2 a record |
| Reconciliation.FetchAddsUp | internal/adapters/awssim/cost.go:3-14 | with no negative price, for every estate, period, stream and sort, the records add up to the pro-rated total: exactly before rounding, within 1.0721 micros a record after |
| Reconciliation.DaysAgreeIff | internal/adapters/awssim/cost.go:136 | the bucket count is the period's own length in days if and only if it does not run backwards and holds whole days |
| Reconciliation.WithinTenthOfAPercent | internal/adapters/awssim/cost_test.go:40-42 | on periods of whole days the test's tolerance, around the total pro-rated to the period's own days, holds whenever the average record is worth 1073 micros |
| Reconciliation.ExactOnlyIf | internal/adapters/awssim/cost.go:6-8 | micro amounts equal the pro-rated total only if 487 divides total times days |
| Reconciliation.ExactUndecided | internal/adapters/awssim/cost.go:6-8 | that is not enough, and no condition on total and days is: of two estates of one total, on one day and one stream, one is exact and one is not |
| CostOrder.WalkOrderIrrelevant | internal/adapters/awssim/cost.go:79-84 | when keys determine items any two walks of the estate and any two sorts give the same records |
| CostOrder.OrderIrrelevantIff | internal/adapters/awssim/cost.go:79-84 | for an estate that costs something, over any period, the records are the same for every allowed sort on every stream if and only if items of one key are alike: equal, or on a one-day period equal but for the anomaly flag |
| CostOrder.DistinctDetermine | internal/adapters/awssim/cost.go:79-84 | distinct keys determine items |
| CostOrder.NoClashNoOrder | internal/adapters/awssim/cost.go:79-84 | so when no two resources bill a line under one key any two walks and sorts give the same records |
| CostOrder.PlainSeries | internal/adapters/awssim/cost.go:95-118 | the records of a one-day period do not depend on the anomaly flag |
| CostOrder.OrderTells | internal/adapters/awssim/cost.go:79-84 | two items of one key that are not alike give two allowed fetches whose records differ on some stream |
| CostOrder.RepeatedKeyTells | internal/adapters/awssim/cost.go:122-131 | on every stream, for any period with a day, if they differ in a dimension |
| CostOrder.AmountTells | internal/adapters/awssim/cost.go:107-131 | on every stream if they vary alike and differ in amount |
| CostOrder.AnomalyTells | internal/adapters/awssim/cost.go:111-118 | on every stream, from two days on, if the anomaly lifts only one of them |
| CostOrder.VariationTells | internal/adapters/awssim/cost.go:161-176 | on some stream if only one of them follows the week, whatever the amounts |
| CostShape.SeriesAt | internal/adapters/awssim/cost.go:107-143 | closed form of every fetched record, by day and item |
| CostShape.RecordsTile | internal/adapters/awssim/cost.go:122-131 | a line's records tile the bucketed days without gap or overlap |
| CostShape.SpikeDominates | internal/adapters/awssim/cost.go:111-118 | on every NAT-processed line the spike day exceeds any other by more than 2.98 times, and stays a maximum after both roundings |
| CostShape.GatewaySpikes | internal/adapters/awssim/cost.go:111-118 | so every NAT gateway of the estate that processes anything has a line, in its own dimensions and at its own price, that spikes like that |
| CostShape.OnlySpikeMoves | internal/adapters/awssim/cost.go:111-118 | no other record is touched, and those moved are 4.5 times what they were |
| CostShape.SpikeBeatsMean | internal/adapters/awssim/cost_test.go:102-132 | unrounded, from eleven days on the spike exceeds 2.5 times the daily mean, whatever the stream |
| CostBilled.BilledSpikeBeatsMean | internal/adapters/awssim/cost_test.go:102-132 | the test's own comparison, of amounts rounded twice, holds on every stream from eleven days on once NAT-processed lines average 17200 micros a month |
| CostBilled.TooSmallToBill | internal/adapters/awssim/cost.go:127-142 | lines of at most two micros a month are billed nothing on any day, the spike's included |
| CostBilled.BilledSpikeVanishes | internal/adapters/awssim/cost_test.go:102-132 | so that comparison fails, on every stream, for a NAT-processed line of one micro a month |
| CostWeek.WeekendHeavier | internal/adapters/awssim/cost_test.go:68-100 | unrounded, over the first whole weeks of a period a traffic-driven line outside NAT processing spends more on an average weekend day than on an average other day, whatever the stream |
| CostWeek.TrafficHeavier | internal/adapters/awssim/cost.go:263-300 | so every traffic-driven resource of the estate with a price has a line, in its own dimensions and at that price, that weekends make heavier |
| CostWeek.BilledWeekendHeavier | internal/adapters/awssim/cost_test.go:68-100 | and so do its billed amounts, once it is worth 5700 micros a month |
| Lifecycle.App.CloseAll | internal/app/app.go:175-187 | closes what the non-nil closers hold, last first, keeps every error, and leaves no closers |
| Lifecycle.App.Close | internal/app/app.go:171-173 | the same, so a second call finds nothing |
| Lifecycle.HeldAppend | internal/app/app.go:175-182 | closers hold what each holds, in order, a nil one nothing |
| Lifecycle.BuildStorage | internal/app/storage.go:37-83 | memory: ready; Postgres: ready with the database open if opening and migrating pass, else the failing stage's error and nothing open; other kinds: unknown |
| Lifecycle.BuildCache | internal/app/storage.go:98-139 | likewise for the memory cache and for Redis, opened and then pinged |
| Lifecycle.BuildEvents | internal/app/events.go:30-76 | likewise for the in-process bus and for AWS, whose credentials are resolved first |
| Lifecycle.Build | internal/app/app.go:91-169 | the error is that of the first failing step and everything opened before it has been closed, last first; on success nothing has and the closers hold exactly what was opened |
| Lifecycle.ReadyIff | internal/app/app.go:91-169 | Build is ready if and only if every kind is known, every stage its configuration calls for passes, and so do the five late ones |
| Lifecycle.StageDecides | internal/app/app.go:91-169 | the first needed stage that fails gives the error, whatever those after it do |
| Lifecycle.ErrorIsComplaint | internal/app/app.go:86-169 | the steps Build is proved against fail with what is first wrong with configuration and world, or acquire one handle for each of storage, cache and events |
| Lifecycle.FailsAt | internal/app/app.go:86-91 | nothing after the first failing step is opened |
| Lifecycle.BuildNeverLeaks | internal/app/app.go:113-164 | whatever configuration and stage, the journal stays a well-bracketed stack that leaves open exactly what the closers hold |
| Lifecycle.ClosedForGood | internal/app/app.go:171-187 | after one or more closes the stack is what it was before Build, and later closes add nothing |
| Lifecycle.AcquiredOnce | internal/app/app.go:105-127 | no handle is opened twice |
| Lifecycle.EveryComplaintKept | internal/app/app.go:176-186 | the joined errors are those of exactly the handles that complain, and all are closed |
| Lifecycle.ErrorsInTurn | internal/app/app.go:176-186 | the joined errors come in the order in which the handles are closed, the last opened first |
| Paging.Paginate | internal/adapters/memstore/clone.go:76-109 | the page after the first item at the cursor, none if it is gone, with a next cursor exactly when items remain |
| Paging.PageIs | internal/adapters/memstore/clone.go:76-109 | 50 items if no limit is asked for and never more than 500, from after the cursor's item, with the total, and the last item's cursor just when items remain |
| Paging.OrderedIff | internal/adapters/memstore/clone.go:35-45 | list order is newest first, then by id |
| Paging.ListAllOpen | internal/app/seed.go:672-687 | the loop gathers what the recursive walk over changing snapshots does, and nothing if a request fails |
| Paging.StillStore | internal/app/seed.go:666-687 | a store that holds still is read out exactly, in the number of requests its size takes |
| Paging.NothingTwice | internal/adapters/memstore/clone.go:71-75 | whatever is inserted or deleted between requests the result is strictly ordered, so nothing is repeated |
| Paging.MissedIff | internal/adapters/memstore/clone.go:71-91 | an item present throughout is missed if and only if the anchor of the cursor was deleted and the item lies beyond it |
| Paging.TopTen | internal/app/seed.go:692-704 | sorts a copy in place: the caller's array is as it was, and the first ten and what is dropped are together its recommendations, ranked, ties in its order |
| Paging.TopTenBest | internal/app/seed.go:689-704 | such a top is ranked by priority, then saving, highest first; outranked by nothing dropped; and the only one there is |
| Dispatch.MatchesPath | cmd/coptx/main.go:94-104 | true exactly if the path is a prefix of the arguments |
| Dispatch.DispatchArgs | cmd/coptx/main.go:64-92 | usage and 0 for nothing, help, -h or --help; usage and 2 for no match; else the longest match with the arguments after it and its exit code, 1 for an error without one |
| Dispatch.ScanDecides | cmd/coptx/main.go:70-87 | the first match of the stably sorted commands is the longest match, the earliest declared among equals |
| Dispatch.DecidesIff | cmd/coptx/main.go:70-104 | told by the commands alone: none runs just when no path begins the line; else one of the longest path that does, the first declared with that path |
| Dispatch.DecidesUnique | cmd/coptx/main.go:76-87 | there is one such command |
| Dispatch.ParentDoesNotShadow | cmd/coptx/main.go:70-72 | adding a command with a shorter path, anywhere, never changes what a line runs |
| Dispatch.ShortestFirstShadows | cmd/coptx/main.go:70-72 | scanning shortest first would give a child's line to its parent |
| Selection.SelectWorkers | internal/app/workers.go:495-519 | the workers of the requested names in order, the first unknown name, or none selected |
| Selection.SelectsIff | internal/app/workers.go:507-518 | selection succeeds if and only if some name remains and all are known, and has one result |
| Selection.JoinRequests | internal/app/workers.go:496-506 | joining names with commas requests exactly them, repeats kept, save that "all" alone means the seven workers in their order |
| Selection.BlankRequestsAll | internal/app/workers.go:496-498 | and so does a blank list |
| Selection.RequestsListable | internal/app/workers.go:499-506 | however a list is spaced, the names it requests are not blank and have no comma and no space at either end |
| Selection.SpaceIs | internal/app/workers.go:497-500 | space is what unicode.IsSpace says, by code point |
| Selection.RequestsSettle | internal/app/workers.go:496-506 | joined again they request themselves, unless the one name is "all" |
| Selection.NoneSelectedIff | internal/app/workers.go:497-517 | no worker is selected exactly for a list of commas and space with a comma in it |
| AuditChain.AuditLog.Append | internal/adapters/memstore/audit.go:27-37 | seals onto the tenant's head and keeps a copy; every tenant's log stays numbered, each record sealed as the original onto the one before, with its head |
| AuditChain.LinkedIff | internal/domain/audit/audit.go:241-256 | a log is linked if and only if its first record continues from nothing, every other from the hash before it, and each has the hash of its own sequence, content and predecessor |
| AuditChain.StoredLogIntactIff | internal/adapters/memstore/clone.go:15-33 | a log only Append has touched verifies if and only if the copy of every sealed content serialises as the original |
| AuditChain.StoredLogReport | internal/domain/audit/audit.go:243-256 | otherwise the report is of altered content, at the first record whose copy serialises differently, never of a broken link |
| AuditPayload.LogIntactIff | internal/domain/audit/audit.go:146-207 | such a log verifies if and only if no attribute map sealed into it was made and left empty, and every value in one is spelled the same once read back |
| AuditPayload.EmptyMapsTell | internal/domain/audit/audit.go:146-187 | with values that keep their spelling, if and only if no sealed map was made and left empty |
| AuditPayload.EmptyMapReported | internal/adapters/memstore/audit.go:105-132 | an empty map sealed into a record is reported there or before |
| AuditPayload.EmptyAfter | internal/application/automation/execute.go:187-189 | witness: one append of a record whose After is an empty map, and the walk reports that record as altered |
| AuditChain.Walk | internal/adapters/memstore/audit.go:105-132 | reports the first record that does not continue the chain, and why, with the window's count so far |
| AuditChain.InWindowIs | internal/adapters/memstore/audit.go:107-111 | that count is of the records in the window |
| AuditChain.VerifyChain | internal/domain/audit/audit.go:234-261 | the same walk over the records sorted by sequence |
| AuditChain.ReportIntactIff | internal/domain/audit/audit.go:233-261 | the report is valid if and only if every record is sealed onto the one before |
| AuditChain.ReportIs | internal/adapters/memstore/audit.go:105-132 | told by the records alone: the report names the sequence number of the first record that does not continue from the one before, its link checked before its content, and counts the records of the window up to and including it |
| AuditChain.SortRestores | internal/domain/audit/audit.go:236-238 | over an appended log both walks see the same records |
| AuditChain.LastHashBinds | internal/domain/audit/audit.go:168-172 | two valid chains with one last hash agree in length and in how every hashed field serialises |
| AuditChain.RemovalReportedIff | internal/domain/audit/audit.go:243-250 | removing records leaves a valid chain if and only if none follow them, and never one with the same head |
| AuditChain.EditReportedIff | internal/domain/audit/audit.go:174-206 | changing a record leaves a valid chain if and only if nothing hashed serialises differently, or it is the last and sealed anew |
| Mulberry.Generator.Next | frontend/src/lib/utils.ts:65-73 | the captured word moves on by the step modulo 2^32, and the draw is that word's |
| Mulberry.OutputIs | frontend/src/lib/utils.ts:69-71 | a word's draw is the fraction of its two multiplies and last shift |
| Mulberry.MixIs | frontend/src/lib/utils.ts:69 | the first multiply |
| Mulberry.FoldIs | frontend/src/lib/utils.ts:70 | the second, folded back in |
| Mulberry.TemperIs | frontend/src/lib/utils.ts:71 | the last shift, read as a fraction of 2^32 |
| Mulberry.StateIs | frontend/src/lib/utils.ts:67-68 | the word after n calls is seed + n * step modulo 2^32 |
| Mulberry.FullPeriod | frontend/src/lib/utils.ts:67-68 | two words of one generator are equal if and only if their positions agree modulo 2^32 |
| Mulberry.Reaches | frontend/src/lib/utils.ts:67-68 | every word is reached within 2^32 calls |
| Mulberry.OneCycle | frontend/src/lib/utils.ts:65-68 | any seed's words are any other's from some call on |
| Mulberry.ShiftInjective | frontend/src/lib/utils.ts:71 | the final shift is injective |
| Mulberry.DrawRange | frontend/src/lib/utils.ts:71 | every draw is in [0, 1) |
| Order.StableSortUnique | internal/app/seed.go:694-699 | ordered and stable leaves one result: a stable sort is a function |
| Order.LexLessIff | internal/adapters/awssim/cost.go:84 | strings stand as their first difference does, a proper prefix first |
| Order.SortUnique | internal/adapters/awssim/cost.go:84 | an unstable sort is one too when equal rank means equal elements |
| Order.SortAmbiguous | internal/adapters/awssim/cost.go:84 | and is not when two different elements rank alike |

## Left out

- Lease.MutualExclusion: needs bodies to end within their leases, because the code does not stop a body whose lease has run out; `Lease.OneUnexpiredHolder` is what holds without it, and `Lease.JoinsIff` says when it fails.
- Reconciliation.ExactOnlyIf: one direction only, because whether the rounding errors of all records cancel depends on every line and draw (`Reconciliation.ExactUndecided`); the bound of `Reconciliation.FetchAddsUp` holds always.
- CostOrder.VariationTells: names a stream; whether items of which only one follows the week show on a given other stream depends on its draws.
- CostBilled.BilledSpikeBeatsMean: its size is sufficient, not necessary; below it the outcome depends on how the draws round.
- CostWeek.BilledWeekendHeavier: its size is sufficient, not necessary, likewise.
- Reconciliation.WithinTenthOfAPercent: its size is sufficient, not necessary, for the same reason.
- PlanRuns.ValidatedTwiceOnlyIf: counts validations by the workers; a person may call Validate on a plan in validation at any time.
- PlanRuns.ClaimableIff: a way on may wait for the schedule, pass the authorization re-check and let every step succeed; whether it will is not said.
- The parts of a plan besides its state, start, finish and window are written back too; they are not modelled, save whether Executable has anything against them.
- Claims of due plans for execution (`ClaimDuePlans`, which nothing calls) are one plan at a time in runs.
- SHA-256 over the JSON payload is any function that is never empty and tells payloads apart exactly when their JSON differs.
- AuditPayload.LogIntactIff: takes the spelling of a value, and its spelling once read back, as given; nested structs and integers beyond 2^53 are values whose spelling may change.
- That copying content JSON cannot hold panics is not modelled; the unhashed fields of a record survive its copy.
- The Redis locker and the Postgres repositories are not modelled; the lock table and the claims are those of the memory store.
- The `ExecLeases` table is written by claims and never read, and is not modelled.
- The sleep jitter and the ticker of `Worker.Run` are left to the environment, which decides how many cycles run.
- Process-wide claims other than of plans (notifications, approval expiry) have the same shape and are left out.
- `ListAllOpen` reads a finite list of replies; a walk that outlives it ends as unanswered, so termination is proved for a store that holds still.
- Cursor encoding, filters and tenant guards are taken as done by the caller of the modelled part; an unreadable cursor is the same as none.
- Float rounding inside the cost loop, record ids, tags and ingest times, and 64-bit overflow of amounts and seeds are not modelled.
- Prices are given amounts: the pricing formulas of the estate and the catalog are not part of this model.
- HTTP, database, AWS, model-provider and event wiring inside Build appear only as stages that can fail; what they construct is not modelled.
- Go's flag package is modelled as far as `Parse` goes; conversion of values to their types is not.
- The policy engine, economics, budgets, savings ladder, governance and twin would need models of their own.
