# Uptimy agent: verified model of the self-healing core

The agent watches services with periodic checks, turns unhealthy results into incidents, and repairs
incidents with recipes of actions, under guardrails. This project models that core in Dafny and proves what it
keeps under every interleaving of its goroutines, every outcome of checks, actions and saves, and across crashes.

| file | what it holds |
|---|---|
| `Incidents.dfy` | the incident manager as a class over mutable incidents, a store, an event channel and a recorder, proved against operations on the value `ManagerState` |
| `IncidentHistory.dfy` | the manager as a function of the check-result history |
| `Recovery.dfy`, `FailedSaves.dfy` | agreement of store and memory and `Rehydrate` after a crash; which runs recover when saves fail |
| `Identifiers.dfy` | incident identifiers over the processes of restarts |
| `Guardrails.dfy`, `Windows.dfy`, `Pruning.dfy` | the guardrails class, time logs and sliding windows with the admission gate, and pruning over whole runs |
| `Recipes.dfy` | the recipe interpreter: methods with the source's loops, and a recursive semantics |
| `Engine.dfy` | loading the configuration |
| `RepairProtocol.dfy` | the repair protocol: manager loop, event channel, engine loop, semaphore, goroutines with program counters |
| `RepairInvariants.dfy`, `RecipeRuns.dfy`, `Announcements.dfy`, `RateBound.dfy`, `Quiescence.dfy`, `Settling.dfy`, `Lifecycle.dfy`, `StaleRepair.dfy` | its theorems |
| `Tightness.dfy`, `CooldownTightness.dfy` | runs that reach the bounds |
| `Scheduler.dfy`, `SchedulerProofs.dfy`, `Staffing.dfy` | the check scheduler as a transition system, and its theorems |
| `Telemetry.dfy` | the telemetry ring buffer |
| `Rollback.dfy` | the revision search of the rollback action |
| `Tally.dfy`, `Wrappers.dfy` | sums over sequences; the optional value |

How the concurrent parts are modelled. A mutex-protected body is one step; so is every channel operation. Events are
emitted after the lock is released, so emitting is a step of its own. A label of the protocol that is not enabled
changes nothing, so every label sequence is a run and theorems about `Exec` are about all interleavings. The protocol
steps use the same value operations that the methods of `Manager` and `Guardrails` are proved against, and its
goroutines are proved to compute what the recipe interpreter computes.

Inputs that become parameters: clock readings (integers that never go back), outcomes of actions, attempt durations,
verdicts of checks, whether a save succeeds, the 30-second semaphore timeout and context cancellation (free choices),
and the order in which the store lists its records. Incident identifier "inc-n" is the number n.

Where the code and its comments differ, the model follows the code:

- `findPreviousRevision` is said to return the second-highest revision; it returns nothing when that revision does not
  stand after the first highest one (`PromiseKeptIff`, `AscendingBreaksPromise`).
- Identifiers are said never to collide after a restart; they are unique exactly when the counters of the processes
  that open incidents do not overlap, and a collision loses an incident (`IdsUniqueIff`, `QuickRestartCollides`).
- `Rehydrate` is said to load the active incidents so that repairs continue after a restart; a failed save is only
  logged, and with a moving clock the active incidents are rebuilt exactly when each incident whose last change was not
  saved was resolved without ever having been saved (`RecoversIffLastSaves`).
- The hourly limit is tested long before a repair is recorded, so a rule can exceed its limit by up to the number of
  permits minus one, and this bound is reached: the limit holds exactly with a single permit (`RepairsPerHour`,
  `BoundIsReached`, `LimitKeptIffSerial`). A cooldown likewise admits as many successes as there are permits
  (`SuccessesPerCooldown`, `CooldownBoundIsReached`). The records live in memory, so both bounds are per process.
- The gauge of active incidents counts opened minus resolved ones, so after a restart it is short of the active count
  by the rehydrated ones (`Accounting`).
- `Scheduler.Start` is said to block until its context is cancelled; it returns once its goroutines are started, its
  context still live (`StartReturns`).

## Model

| member | source | states |
|---|---|---|
| `RateBound.RepairsPerHour` | internal/repair/engine.go:109-209 | For every interleaving and every window of 3600 seconds of a process, at most limit - 1 + permits repairs of a limited rule are recorded: limit + 9 with ten permits, the limit with one |
| `Tightness.BoundIsReached` | internal/repair/engine.go:117-188 | For every configuration with a limited, runnable rule there is a run that repairs one single incident limit - 1 + permits times at one instant: the hourly bound is exact, and neither one repair per incident nor the limit per hour holds |
| `Tightness.LimitKeptIffSerial` | internal/repair/engine.go:41-188 | For a limited, runnable rule every run keeps every hour within the limit iff there is a single permit |
| `Tightness.UnlimitedIsUnbounded` | internal/repair/guardrails.go:117-123 | For a runnable rule without a limit there is, for every n, a run that repairs one single incident n times at one instant |
| `Windows.GateAdmit` | internal/repair/guardrails.go:126-142 | Admitting while fewer than the limit are in the window keeps the gate invariant: in any still open window, records plus work in flight stay within limit - 1 + permits |
| `Windows.GateRecord` | internal/repair/guardrails.go:147-162 | Recording moves one piece of work from in flight to the log and leaves every window within limit - 1 + permits |
| `RateBound.SuccessesPerCooldown` | internal/repair/guardrails.go:101-109 | For every interleaving, no window as long as an action's cooldown holds more recorded successes of it than there are permits |
| `CooldownTightness.CooldownBoundIsReached` | internal/repair/engine.go:271-297 | For every configuration with a rule, limited or not, whose recipe begins with a permitted action that has a cooldown there is a run with exactly as many successes of it within one cooldown as there are permits: that bound is exact |
| `RateBound.SerialSuccessesApart` | internal/repair/guardrails.go:101-109 | With one permit, successive successes of an action are at least its cooldown apart |
| `RateBound.LimitReopens` | internal/repair/guardrails.go:126-142 | In every run, a rule with a positive limit is under it again as soon as an hour has passed without a step |
| `RateBound.CooldownEnds` | internal/repair/guardrails.go:101-109 | In every run, an action is no longer held back once its cooldown has passed since its last recorded success |
| `Pruning.PruningInvisible` | internal/repair/guardrails.go:116-143 | With a clock that never goes back, each rate-limit answer from the pruned history is the answer from the complete log of that rule's repairs |
| `Pruning.HistoryIsSuffix` | internal/repair/guardrails.go:126-161 | The kept history is always the end of the complete log, which is sorted, and only entries at least an hour old are missing |
| `Pruning.OnlyListedActions` | internal/repair/guardrails.go:77-99 | In any run the allowed list is never empty and disjoint from the forbidden one, and an action is permitted only if it is built in or was explicitly allowed |
| `Pruning.VerdictAfter` | internal/repair/guardrails.go:87-112 | After any timely run of calls the verdict on an action is: forbidden iff built in as such and never allowed, else not allowed iff neither built in nor allowed, else cooling down iff it was given a cooldown and the complete log of its executions has an entry within the last one given, else permitted |
| `Guardrails.Prune` | internal/repair/guardrails.go:126-134 | The pruning loop keeps exactly the entries after the cutoff, in order |
| `Guardrails.Guardrails.CheckRateLimit` | internal/repair/guardrails.go:116-143 | Allows iff the rule has no limit or fewer than the limit lie within the last hour; prunes the rule's history only when it has a limit; changes nothing else |
| `Guardrails.Guardrails.RecordRepair` | internal/repair/guardrails.go:147-162 | Prunes the rule's history at one clock reading and appends a second one; changes nothing else |
| `Guardrails.Guardrails.CheckAction` | internal/repair/guardrails.go:87-112 | Forbidden before not allowed before cooling down; the cooldown blocks iff less than it has passed since the last execution |
| `Guardrails.Guardrails.RecordActionExecution` | internal/repair/guardrails.go:165-169 | Sets the action's last execution and nothing else |
| `Guardrails.Guardrails.AllowAction` | internal/repair/guardrails.go:78-83 | Adds the action to the allowed set and removes it from the forbidden one |
| `Engine.Engine.LoadConfig` | internal/repair/engine.go:64-104 | Fills rules by check, compiled recipes by name, with their timeouts and parameters, and positive hourly limits, later entries replacing earlier ones |
| `Engine.LimitsLoaded` | internal/repair/engine.go:65-69 | After loading on fresh guardrails a rule's limit is that of its last entry with a positive limit, and it is unlimited iff it has none |
| `Engine.RulesLoaded` | internal/repair/engine.go:65-66 | A check has a rule iff some entry names it, and it is the one of the last such entry |
| `Engine.RecipesLoaded` | internal/repair/engine.go:73-103 | A recipe name is known iff some entry has it, and its steps are those of the last such entry, numbered in order, each with its action, retries, condition and timeout, and with its parameters, a positive duration and a named check written over them |
| `Engine.ConfiguredLimitHolds` | internal/repair/engine.go:41-71 | In every run on a loaded configuration, each rule with a positive configured limit keeps to that limit plus nine per hour |
| `Engine.ConfiguredLimitIsReached` | internal/repair/engine.go:41-71 | For every loaded configuration and every limited, runnable rule of it some run records its configured limit plus nine repairs within one hour |
| `Engine.BurstIsKept` | internal/runtime/runtime.go:73 | The agent's event channel takes a burst of 256 events in order and drops only what exceeds it |
| `Engine.StepNamesDiffer` | internal/repair/engine.go:80-82 | No two steps of a compiled recipe have the same name |
| `Settling.SelfEventsDieOut` | internal/repair/engine.go:109-209 | From any reachable state, with no further check results, the repairs still started are at most the queued, pending or received Opened and Updated events whose check is Open plus the goroutines holding an Open snapshot, and the number of moves is at most the measure |
| `Quiescence.RepairsBounded` | internal/incidents/manager.go:195-233 | Along any run without check results, repairs started plus repairs ahead never grow |
| `Settling.MeasureFalls` | internal/repair/engine.go:109-209 | Every enabled internal step except a clock tick makes the weighted measure over queue, loops and goroutines smaller |
| `Settling.NeverStuck` | internal/repair/engine.go:125-147 | Until nothing is left to emit, receive or do, some loop or goroutine has an enabled step that is not an acquire timing out: when every live goroutine waits for a permit, one is free |
| `Settling.ComesToRest` | internal/repair/engine.go:109-209 | From any state whose permits and incidents add up, as in every reachable one, the protocol left to itself comes to rest without any timeout, every goroutine ended, within as many moves as the measure is |
| `Quiescence.MarkEffect` | internal/incidents/manager.go:195-225 | A status set by the engine opens no check, closes its own, and is announced by at most one event, repairable exactly for Verifying |
| `RepairInvariants.Accounting` | internal/incidents/manager.go:136-183 | In every reachable state opened plus rehydrated incidents equal resolved plus active ones, and repairs started minus completed are the goroutines between those points, at most the permits taken and at most the permits |
| `RepairInvariants.PermitsStep` | internal/repair/engine.go:128-132 | Every step keeps the semaphore's count equal to the goroutines between acquire and release, and within its size |
| `RepairInvariants.GoroutinesSound` | internal/repair/engine.go:151-209 | In every reachable state a goroutine past the Open test holds an Open snapshot and its check's rule, and in its recipe its results and remaining steps make up the recipe and its flag is the backward scan of the results |
| `RecipeRuns.GoroutineRunsInterpreter` | internal/repair/engine.go:185-328 | In every run a goroutine at the end of its recipe has the results of the recursive semantics in the world that answered it: blocked by the guardrails' verdict when it came to the step, registered by the registry, and each attempt's outcome that of its label; it made exactly the attempts its results count, and its verdict is the forward flag |
| `RecipeRuns.GoroutinesTold` | internal/repair/engine.go:264-328 | The same amid the recipe: in every reachable state each result follows from the answers heard, and a goroutine trying a step was permitted, found the action and has heard only of failed attempts, as many as it counts |
| `RecipeRuns.RetriesUntilSuccess` | internal/repair/engine.go:287-311 | A goroutine whose attempts fail before attempt k, within the allowed retries, and succeed at it ends the step with success and k + 1 attempts after exactly that many moves |
| `RecipeRuns.RetriesExhausted` | internal/repair/engine.go:284-328 | It ends the step with failure only after all allowed attempts have failed |
| `RecipeRuns.CancelStopsLoop` | internal/repair/engine.go:112-116 | From any state a cancel lets the event loop return after at most the incident it is looking up |
| `RecipeRuns.StoppedSpawnsNothing` | internal/repair/engine.go:112-116 | Once the event loop has returned, the process spawns no goroutine any more |
| `Announcements.ResultIsOffered` | internal/incidents/manager.go:98-153 | A result that changes an incident leaves exactly the event of that change pending, and it is offered to the channel before the next result is taken |
| `Announcements.MarkIsOffered` | internal/incidents/manager.go:195-233 | A goroutine that sets the status of its check's active incident offers the incident with that status, under the kind of that status, by its next move; the channel takes it iff there is room |
| `Announcements.PendingIsOffered` | internal/incidents/manager.go:269-278 | A pending event is offered by the goroutine's next move, and it goes on only when none is left |
| `RepairInvariants.MoveSetsStatus` | internal/repair/engine.go:181-208 | A repair goroutine touches no incident except at two steps: it sets its check's active incident, whichever that is by now, to Repairing when the recipe begins and to Verifying or Failed by the verdict when it ends; every other incident, all counters, and the store but for that incident's save are unchanged |
| `RepairInvariants.SuccessIsRecorded` | internal/repair/engine.go:297-313 | A step of the recipe adds one result at a time, and the action's execution is recorded exactly when that result is a success, under the action's own name |
| `Lifecycle.CrashRecovery` | internal/incidents/manager.go:53-83 | After any durable run, crashing at any point and rehydrating from any listing of the store gives exactly the active incidents of before the crash |
| `Lifecycle.AgreeAlways` | internal/incidents/manager.go:98-225 | In every state of a durable run store and memory agree: active incidents are stored as they are, and unresolved stored ones are the active ones |
| `Lifecycle.NeverReopens` | internal/incidents/manager.go:156-225 | Over durable runs with restarts, an incident that left Open is never Open again and a resolved one is never active again |
| `Lifecycle.StartsFromOpenSnapshot` | internal/repair/engine.go:117-183 | A step that starts a repair belongs to a goroutine whose snapshot is Open and was the active incident of its check at an earlier point of the run |
| `Lifecycle.NoRetrigger` | internal/repair/engine.go:158-182 | When a repair of an incident starts after another repair of it was marked, its snapshot was taken before that mark |
| `Lifecycle.MarkedStaysClosed` | internal/repair/engine.go:181-208 | Once one repair of an incident is marked, the incident is never Open again |
| `Lifecycle.OneUnresolvedPerCheck` | internal/incidents/manager.go:107-138 | In no state of a durable run does the store hold two unresolved incidents of one check |
| `Lifecycle.RecoversExactly` | internal/incidents/manager.go:53-83 | In every state of every run, whatever saves failed, a restart rebuilds the active map in every listing order iff active incidents are stored as they are and nothing else stored is unresolved |
| `StaleRepair.MarkHitsOther` | internal/repair/engine.go:181-208 | A goroutine that sets the status of its check hits another incident than its own iff its own is resolved and the check has an active one again |
| `StaleRepair.StaleRepairSilencesNewer` | internal/incidents/manager.go:195-225 | For every configuration with a limited, runnable rule there is a run where a repair outlives its incident and sets the newer, Open incident of the check to Verifying or Failed while no goroutine holds that one |
| `StaleRepair.NeverRepaired` | internal/repair/engine.go:158-162 | An incident that left Open while no goroutine held an Open snapshot of it is never repaired in any continuation |
| `Recovery.RehydrateRebuilds` | internal/incidents/manager.go:53-83 | From a state where store and memory agree, loading the store in any order rebuilds exactly the active map, and agreement holds again when the new counter is past the old |
| `Recovery.StepAgrees` | internal/incidents/manager.go:98-225 | Every result and every external status change whose saves succeed keeps store and memory in agreement |
| `FailedSaves.RecoversIff` | internal/incidents/manager.go:53-83 | For a state with well-keyed maps, a restart rebuilds the active map from every listing order iff each active incident is stored as it is and each unresolved stored one is the active one of its check |
| `FailedSaves.FailedSaveRecoversIff` | internal/incidents/manager.go:255-267 | After any operation none of whose saves succeeded, a restart rebuilds the active map iff the operation changed no active incident |
| `FailedSaves.RecoversIffSurvive` | internal/incidents/manager.go:98-233 | After any run with any statuses set and any save outcomes recovery succeeds iff every incident survives: unresolved and stored as it is, or resolved and not stored as unresolved |
| `FailedSaves.RecoversIffLastSaves` | internal/incidents/manager.go:98-233 | With a moving clock recovery succeeds iff each incident whose last change was not saved was resolved without ever having been saved |
| `Recovery.StepAdvances` | internal/incidents/manager.go:98-225 | No operation loses a stored incident, changes its check, service or creation time or changes a resolved one, and an incident returns to Open iff SetStatus with Open is saved for an active one that is not Open |
| `Identifiers.IdsUniqueIff` | internal/incidents/manager.go:47-49 | For any processes, each a start manager and its inputs, whatever their clocks: the identifiers they announce are all distinct iff of any two that open incidents one starts no lower than the counter at which the other ended |
| `Identifiers.EachStartPastPrevious` | internal/incidents/manager.go:47-49 | The announced identifiers are all distinct when each process starts at least the previous start plus the incidents opened there |
| `Identifiers.QuickRestartCollides` | internal/incidents/manager.go:47-49 | Two checks fail in a process started at millisecond 5 and a third one in its successor restarted at 6: the third incident reuses the second one's identifier, and although all saves succeed the next restart loses the second incident |
| `Identifiers.IdsAreConsecutive` | internal/incidents/manager.go:156-160 | Within a process the announced identifiers are consecutive from the counter's start |
| `IncidentHistory.ManagerRefinesHistory` | internal/incidents/manager.go:98-225 | From a start that reflects earlier results, such as an empty one, and under any engine status changes, a check has an active incident iff its latest recognised result is unhealthy, its failure count is the length of the current outage, and one incident is opened per outage |
| `IncidentHistory.AnnouncesChange` | internal/incidents/manager.go:98-233 | An operation changes something iff it is unhealthy or about an active incident; the change is announced by exactly one event that carries the incident as it now is, with its identity, times and failure count, under the kind of what became of it; nothing else is announced and no other check is touched |
| `Lifecycle.HistoryOverRestarts` | internal/incidents/manager.go:53-225 | The same over every durable run of the protocol with restarts anywhere, and the store gains exactly one incident of the check per outage |
| `Incidents.Manager.ProcessResult` | internal/incidents/manager.go:98-153 | Resolves, counts on or opens the check's incident as the value operation says, touching no other check, and emits the events after, dropping them when the channel is full |
| `Incidents.Manager.ResolveIncidentLocked` | internal/incidents/manager.go:172-192 | Marks the incident resolved with its time, persists it, counts it, removes only its check from the active map and announces it |
| `Incidents.Manager.CountFailure` | internal/incidents/manager.go:115-123 | One more failure on the existing incident, persisted and announced as updated, its status kept |
| `Incidents.Manager.OpenIncident` | internal/incidents/manager.go:129-138 | A new Open incident with the next identifier and failure count one, filed, persisted, counted and announced |
| `Incidents.Manager.SetStatus` | internal/incidents/manager.go:195-233 | Changes only the named check's active incident, persists it and emits the event of the new status; resolving also removes it |
| `Incidents.Manager.Rehydrate` | internal/incidents/manager.go:55-83 | Adds the unresolved listed records to the active map under their checks, later ones replacing earlier ones; a failed listing changes nothing |
| `Incidents.Manager.GetActive` | internal/incidents/manager.go:236-246 | A copy of the check's active incident, or none |
| `Incidents.Manager.ActiveCount` | internal/incidents/manager.go:249-253 | The number of active incidents |
| `Incidents.Manager.EmitEvents` | internal/incidents/manager.go:269-278 | The first events are appended in order, as many as the channel has room for, and the rest are dropped |
| `Incidents.EmitAllFills` | internal/incidents/manager.go:269-278 | Offering events one by one to a channel of any capacity appends exactly as many of them as fit |
| `Recipes.ExecuteStep` | internal/repair/engine.go:264-328 | A blocked or unregistered step fails without an attempt, with the error that says so; otherwise the retry loop ends with the step outcome of the recursive definition; an execution is recorded iff the step succeeded, so only of permitted, registered actions |
| `Recipes.StepOutcome` | internal/repair/engine.go:264-328 | A step succeeds iff it is permitted, registered and some allowed attempt succeeds; it stops at the first success and fails only after all allowed attempts, its duration being that of the attempts made |
| `Recipes.ExecuteRecipe` | internal/repair/engine.go:212-261 | For any answers of guardrails, registry and actions, the loop's results are the recursive semantics, its verdict and error those of the last step not skipped, with an error iff it failed, and the recorded executions the successful steps in order |
| `Recipes.Verdict` | internal/repair/engine.go:246-258 | The backward loop finds the status and error of the last result that is not skipped |
| `Recipes.VerdictIsLastExecuted` | internal/repair/engine.go:246-258 | Verdict and error are those of the last result that is not skipped, whichever index it has |
| `Recipes.VerdictIsFinalFlag` | internal/repair/engine.go:220-258 | The verdict of the backward scan is the previousFailed flag at the end of the forward loop |
| `Recipes.ResultIs` | internal/repair/engine.go:222-242 | One result per step in order; a step is skipped iff it is on-failure-only and the last executed step did not fail, and otherwise has its own outcome |
| `Recipes.FallbackBlock` | internal/repair/engine.go:220-242 | A block of on-failure-only steps entered after a failure executes exactly the steps up to and including the first success and skips the rest; entered otherwise it is skipped whole |
| `SchedulerProofs.SchedulerSafe` | internal/checks/scheduler.go:51-124 | In every run of non-overlapping Start and Stop calls nothing sends on a closed channel, no channel is closed twice, and no more than the configured workers are alive |
| `SchedulerProofs.JobsConserved` | internal/checks/scheduler.go:74-101 | For each check and each Start, while the context is live jobs sent equal jobs queued, held by workers and delivered; afterwards jobs may be lost but none is duplicated |
| `SchedulerProofs.OneTickerPerCheck` | internal/checks/scheduler.go:73-101 | In every run each Start makes exactly one ticker for every configured check, and none for anything else, however often Start and Stop are repeated |
| `Staffing.NobodyLeavesEarly` | internal/checks/scheduler.go:81-145 | In every run a ticker or worker that has returned belongs to a cancelled Start: while a context is live its tickers go on and its workers stay |
| `Staffing.FullyStaffed` | internal/checks/scheduler.go:66-101 | A started scheduler whose context is live has exactly the configured workers at work and one live ticker for each check |
| `Staffing.FirstJobAtOnce` | internal/checks/scheduler.go:81-86 | A ticker waits for a tick only after it has sent its first job |
| `Staffing.LiveTicker` | internal/checks/scheduler.go:81-99 | A ticker of a live context can move unless it wants to send and the jobs channel is full, and it never quits |
| `Staffing.TickSends` | internal/checks/scheduler.go:88-99 | A tick makes a ticker of a live context send one more job, to the end of the queue, whenever there is room, and wait again |
| `Staffing.LiveWorker` | internal/checks/scheduler.go:130-145 | A worker of a live context can move unless it waits for a job and there is none, or to deliver and there is no room, and it never quits |
| `Staffing.JobIsDelivered` | internal/checks/scheduler.go:130-162 | With room for its result an idle worker takes the first job of the queue, runs and delivers it, and is idle again |
| `Staffing.ResultsConserved` | internal/checks/scheduler.go:130-147 | In every run, over all Starts, the jobs delivered as results are exactly the results read and those still in the results channel, which never holds more than its capacity |
| `Staffing.StopLeavesNothing` | internal/checks/scheduler.go:105-124 | After a Stop all tickers and workers have returned, and the channel it took is cancelled and closed |
| `SchedulerProofs.CancelledCanMove` | internal/checks/scheduler.go:81-97 | After the cancel every live ticker can return and every live worker has an enabled step, however full the channels are |
| `SchedulerProofs.CallsNeverStuck` | internal/checks/scheduler.go:51-124 | While a Start or Stop is in progress, it or a goroutine it waits for has an enabled step |
| `SchedulerProofs.WaitMustEnd` | internal/checks/scheduler.go:51-145 | While Stop, or a Start over a running scheduler, waits for the workers, the worker steps still possible are at most three per queued job plus the live workers' phases |
| `SchedulerProofs.WaitedWorkersHaveExited` | internal/checks/scheduler.go:56-145 | When that wait has no worker left that can step, all workers have returned and the call goes on |
| `SchedulerProofs.StartReturns` | internal/checks/scheduler.go:49-102 | Whenever Start is called there is a run of it and of the goroutines before it, without any cancel, after which it has returned with its context live and one worker per configured worker and one ticker per check more |
| `Telemetry.RingBuffer.constructor` | internal/telemetry/buffer.go:27-32 | A new buffer of the capacity, empty |
| `Telemetry.RingBuffer.Push` | internal/telemetry/buffer.go:35-48 | The contents become the newest events of the old contents and the new one, up to the capacity |
| `Telemetry.RingBuffer.Drain` | internal/telemetry/buffer.go:51-69 | Returns the contents in order and leaves the buffer empty |
| `Telemetry.RingBuffer.Snapshot` | internal/telemetry/buffer.go:79-93 | Returns the contents in order and changes nothing |
| `Telemetry.RingBuffer.Len` | internal/telemetry/buffer.go:72-76 | The number of events held |
| `Telemetry.BufferRefinesNewest` | internal/telemetry/buffer.go:35-93 | Over any run the contents are exactly the last min(capacity, n) of the n events pushed since the last drain, and pushed = drained + dropped + held |
| `Telemetry.RunCalls` | internal/telemetry/buffer.go:27-93 | Executing any calls on a new buffer leaves exactly the newest events since the last drain in it, and its drains have handed out everything else that was not overwritten |
| `Rollback.FindPreviousRevision` | internal/plugins/actions/rollback_deployment.go:98-126 | The result is the last owned ReplicaSet with the second-highest positive revision that stands after the first one with the highest, and nothing iff there is none |
| `Rollback.PromiseKeptIff` | internal/plugins/actions/rollback_deployment.go:96-126 | The second-highest ReplicaSet is found iff there is no second-highest revision or a ReplicaSet with it stands after the first one with the highest |
| `Rollback.AscendingBreaksPromise` | internal/plugins/actions/rollback_deployment.go:96-126 | For revisions 1, 2 in this order the search finds nothing |
| `Rollback.IsOwnedBy` | internal/plugins/actions/rollback_deployment.go:128-135 | Owned iff the UID is among the owner references |

## Left out

- Checkers and all actions but the revision search: I/O around libraries; a check is a status and an action a success or failure.
- Storage and its encodings: the store is a map from identifier to record; repair records ("rep-" plus milliseconds, which can collide) are not modelled.
- Failed listings of the store in the protocol: `Manager.Rehydrate` has that path, protocol restarts list successfully.
- Control-plane client, metrics export, logging, command line, configuration parsing and validation, Kubernetes watcher.
- `Engine.Run` and `handleIncident` as object methods: their steps interleave, so they are program counters of the protocol; `Scheduler.Start`, `Stop`, tickers and workers likewise.
- Real time, fairness and timeouts: the clock is an integer that never goes back, timeouts are free choices, and no step is forced to happen.
- Deadlines of attempts: a step's timeout is loaded, and a timed-out attempt is one that fails. The rendering of a duration is an input.
- Error texts.
- Overlapping Start and Stop calls of the scheduler: Start releases its lock before it adds its tickers, so the single-caller assumption is explicit in `Scheduler.Control`.
- The unbuffered results channel: results are delivered into free slots of a buffered channel, as the agent configures it.
- Changing cooldowns or limits while repairs run: the bounds are for a fixed configuration.
