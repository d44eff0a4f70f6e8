# Verified models of the community mod's core logic

This project models the stateful and arithmetic core of a game mod and of its macOS launcher in
Dafny 4.11 and proves what that code is meant to guarantee. `dafny verify dfyconfig.toml` checks
all of it.

| files | what they model |
|---|---|
| `FleetTrace`, `FleetWatch`, `FleetDelays`, `FleetTicks`, `FleetRuns` | the ten-slot fleet observer: seeding, stable baseline, published transitions, restarts, counted fast polling, and how long each may take |
| `ScreenUpdate` | the callback registry and the non-reentrant dispatcher that drives it |
| `QueueLedger`, `RecoveryRequests`, `NativeCalls`, `RecoveryTrail`, `HookSteps`, `RecoveryHooks` | the eight-record request table on weak handles, the re-entrant hooks around it, and which retries they may answer how |
| `PrunePolicy` | the guard that recognizes a removed prefix of a target queue |
| `Leb128`, `StartTable`, `MachImage`, `WrittenImage` | the function-extent decoder: load commands, ULEB128 deltas, addresses, and a writer for them |
| `Disk`, `PatchPath`, `UpdatePlan`, `PlanRules`, `GameUpdater`, `Decimal` | the game updater: staging, overlay, deferred deletes, version |
| `Placeholders`, `Templates`, `RichText` | placeholder substitution and tag stripping of notifications |
| `StrUtils`, `KeyNames`, `Shortcuts`, `ShortcutRoundTrip`, `ShortcutLists`, `ShortcutConfig`, `TypedShortcuts` | shortcut strings: splitting, parsing, printing, configuration |
| `KeyCache` | the per-frame key cache and directional claims |
| `HavenZoom` | the camera arithmetic of the zoom extension, over the reals |
| `Options` | the one wrapper type |

How the pieces are put together:

* Code that updates state step by step is a class or a method with loops. A method is proved against
  a function or predicate on values, and what the code promises is proved about that as lemmas.
* What happens over a whole run is recorded in a ghost log. A monitor (`FleetTrace.Monitor`,
  `QueueLedger.Ledger`) says which event may come next; the class never leaves its rules, and the
  theorems then speak of positions in the log without mentioning the monitor or the class.
* What is promised to a caller is stated once more without the functions the code is specified by:
  bounds in time in milliseconds over the times of ticks (`FleetDelays`), answers to retries over the
  native calls (`NativeCalls`), the installed content over the texts of rules (`PlanRules`), extents
  over a written image (`WrittenImage`).
* The environment is arbitrary. A tick gets any fleet service, a native call any tree of nested
  calls, a file operation may fail at any point, an image is any bytes, a curve any real function.

Where the code does not do what one might expect, the code is modelled as it is and the exact
condition is proved:

* A restart caused by one slot re-arms fast polling that had run out in another. A tick says exactly
  when it restarts, and an exhausted slot that holds the same stays exhausted exactly when it does not
  (`FleetWatch.FleetWatch.Tick`, `FleetWatch.FleetWatch.RestartForgetsExhaustion`); only a restart or a
  transition of the slot itself can re-arm it (`FleetTrace.ExhaustedStaysOff`).
* Two successive prune acceptances need not compose when a target is queued twice, and an accepted
  snapshot need not be stable then (`PrunePolicy.AcceptancesCompose`,
  `PrunePolicy.RepeatedHeadDoesNotCompose`, `PrunePolicy.RepeatedTargetIsUnstable`).
* The installed content of a path does not depend only on the rules naming it when another rule
  reaches it: a delete above it, a create or a copy above or below it, or a patch below it or with the
  path at or under its temporary name. Those are all such rules (`UpdatePlan.FinalAtPath`) and each of
  them does reach it (`UpdatePlan.ReachesExactly`); a patch above it or a delete below it never matters.
* Placeholders with two digits can make the search jump over the next placeholder
  (`Templates.SequentialIsSimultaneous`, `Templates.JumpedPlaceholder`).
* A shortcut whose only key stands first does not survive printing in the middle of a list, because
  only the last piece of a split is stripped (`ShortcutConfig.ConfigRoundTrip`,
  `ShortcutConfig.LostLetters`), and `NONE` with a blank around it does not switch an action off
  (`ShortcutConfig.SpacedNone`). The trailing strip in front of the upper-casing has no effect, since
  the upper-casing copies from the start of the text to its terminator (mods/src/str_utils.h:58-63).

## Model

| member | source | states |
|---|---|---|
| `FleetRuns.Run` | mods/src/patches/fleet_watch.cc:304-447 | Any sequence of subscriptions and ticks, under any fleet service in any tick: every transition in the trace continues an unbroken chain that starts at a baseline; baselines are separated by resets, stable, and, like transitions, what the service reports; every observed change after a baseline is published or followed by a reset; fast polling that ran out is not begun again for the same before a reset or a transition of its slot; and all bounds in time of the rows below hold for the ticks of the run. |
| `FleetRuns.EveryTraceHolds` | mods/src/patches/fleet_watch.cc:185-231 | The same for every trace that stays within the rules, which is every trace the class produces. |
| `FleetTicks.EveryLogInTime` | mods/src/patches/fleet_watch.cc:304-447 | All bounds in time hold of every logged run, stated with the times of its ticks, its trace and literal numbers of milliseconds. |
| `FleetTicks.EverySlotIsShown` | mods/src/patches/fleet_watch.cc:402-423 | While a baseline stands, ten ticks each at least 250 ms after the one before look at every slot: at the end of one of them what was last published of the slot is what the service reports. |
| `FleetTicks.EverySlotIsPublished` | mods/src/patches/fleet_watch.cc:402-423 | If from some tick on the service stays as it is, available and with the baselined fleets, nothing is reset and after ten such ticks what was last published of every slot is what it reports. |
| `FleetTicks.LossIsNoticed` | mods/src/patches/fleet_watch.cc:402-409 | A service that is lost after a baseline causes a reset by the next tick 250 ms later. |
| `FleetTicks.MoveIsNoticed` | mods/src/patches/fleet_watch.cc:410-420 | A slot whose occupancy or fleet differs from the baselined one for ten such ticks causes a reset. |
| `FleetTicks.BaselineComes` | mods/src/patches/fleet_watch.cc:336-384 | While seeding with a service that stays as it is, a tick five seconds on has looked, and a tick five more seconds after a later one and the tick after that announce the baseline, unless the seeding was given up before the look. |
| `FleetTicks.GivingUpComes` | mods/src/patches/fleet_watch.cc:336-389 | While seeding without a service, five seconds and then two minutes on the seeding has been given up. |
| `FleetTicks.DiscoveryComes` | mods/src/patches/fleet_watch.cc:393-401 | After that a service that is there again causes a reset within five seconds. |
| `FleetTicks.FastLookComes` | mods/src/patches/fleet_watch.cc:425-446 | When a slot comes into a state that some subscriber wants fast-polled, out of one that none does, then for half a minute, until its state changes again, a tick 250 ms after any other has looked at the slot. |
| `FleetTrace.TransitionContinuesChain` | mods/src/patches/fleet_watch.cc:195-230 | Each published transition has a baseline before it with no reset between; its `before` is what was last published or baselined for the slot, under the same fleet id; it differs from `after`; the event just before it is the observation it reports. |
| `FleetTrace.SeenIsPublished` | mods/src/patches/fleet_watch.cc:192-230 | After a baseline an observation that differs from what was last published is followed at once by exactly the transition that publishes it, or by a reset when the slot held another fleet or none; one that does not differ publishes nothing. |
| `FleetTrace.LiveHasBaseline` | mods/src/patches/fleet_watch.cc:336-391 | Whenever the record of the trace counts as live there is a baseline with no later reset, and the record holds for every slot what was last published since. |
| `FleetTrace.LiveAfterBaseline` | mods/src/patches/fleet_watch.cc:336-391 | Conversely every position after a baseline with no reset between counts as live. |
| `FleetTrace.EventsReportService` | mods/src/patches/fleet_watch.cc:192-230 | What a baseline or a transition announces is what the fleet service reports in the tick that announces it. |
| `FleetTrace.BaselineOncePerReset` | mods/src/patches/fleet_watch.cc:356-384 | Between two announced baselines there is a reset. |
| `FleetTrace.BaselineIsStable` | mods/src/patches/fleet_watch.cc:356-384 | A baseline is announced only in a tick after one that set the candidate, all since the last reset, and only if every scan of the last five seconds left occupancy, ids and states as they were or thirty seconds have passed since the first scan. |
| `FleetTrace.ScansRemembered` | mods/src/patches/fleet_watch.cc:219-227 | What the seeding timers stand for: the first scan, the latest scan that changed something and the candidate, all since the last reset. |
| `FleetTrace.ExhaustedStaysOff` | mods/src/patches/fleet_watch.cc:205-208 | A slot whose fast polling ran out is not armed again for the same fleet and state unless in between everything was reset or a transition of that very slot was published. |
| `FleetTrace.SpentRemembered` | mods/src/patches/fleet_watch.cc:203-210 | Until one of these two happens the exhaustion is remembered and the slot is known to hold the same. |
| `FleetWatch.FleetWatch.RestartForgetsExhaustion` | mods/src/patches/fleet_watch.cc:111-447 | A tick after seeding restarts exactly under the condition stated for it, whatever slot causes it; if it does, the next tick that finds the same fleet in the same state leaves the slot fast-polled again exactly when some subscriber wants that, and if it does not, the slot stays exhausted. |
| `FleetWatch.FastCountUpdate` | mods/src/patches/fleet_watch.cc:135-141 | Replacing one slot changes the number of fast-polled slots by what that slot was and becomes. |
| `FleetWatch.FastCountZero` | mods/src/patches/fleet_watch.cc:425-427 | The count is zero exactly when no slot is fast-polled, so returning early at zero misses none. |
| `FleetWatch.ObservationAgrees` | mods/src/patches/fleet_watch.cc:192-230 | A completed observation of one slot keeps table, counter and seeding state in agreement with the record of the trace. |
| `FleetWatch.SeedScanOutcome` | mods/src/patches/fleet_watch.cc:250-290 | A scan during seeding leaves the table as the service reports it, and the quiet period is untouched exactly when nothing moved. |
| `FleetWatch.PassStep` | mods/src/patches/fleet_watch.cc:281-290 | One slot more of a scan pass extends what the pass has established. |
| `FleetWatch.PassSoFarStep` | mods/src/patches/fleet_watch.cc:281-290 | The same with the restart that may end the pass: it came from the first slot that changed hands, and leaves the rest of the table empty. |
| `FleetWatch.RestartAfterProbe` | mods/src/patches/fleet_watch.cc:393-446 | Whether the fast-poll scan after a probe restarts can be told before the probe: a probe may begin fast polling in its own slot and so make the scan due, but then no other slot is fast-polled. |
| `FleetWatch.FastScanned` | mods/src/patches/fleet_watch.cc:425-446 | A due fast-poll scan after expiry restarts, keeps and refreshes exactly as stated for the tick. |
| `FleetWatch.OneFastPolled` | mods/src/patches/fleet_watch.cc:211-217 | When the count of fast-polled slots is one, two such slots are the same. |
| `FleetWatch.FleetWatch.NeedsFastPoll` | mods/src/patches/fleet_watch.cc:81-109 | Some subscriber wants fast polling of the state; a predicate that throws counts as no. |
| `FleetWatch.FleetWatch.ResetObservation` | mods/src/patches/fleet_watch.cc:111-127 | Everything is forgotten and seeding begins anew, with the clock as its start. |
| `FleetWatch.FleetWatch.ClearSlot` | mods/src/patches/fleet_watch.cc:135-141 | One slot is emptied and the count of fast-polled slots follows. |
| `FleetWatch.FleetWatch.StoreObservation` | mods/src/patches/fleet_watch.cc:203-218 | The observation is in its slot, exhaustion survives only an unchanged state, fast polling keeps its start for the same fleet and begins anew for another, and the count stays the number of fast-polled slots. |
| `FleetWatch.FleetWatch.SeeFleet` | mods/src/patches/fleet_watch.cc:192-199 | Another fleet than the slot held, after a baseline, restarts everything; otherwise the transition that is due is exactly the change of state. |
| `FleetWatch.FleetWatch.NoteChange` | mods/src/patches/fleet_watch.cc:219-227 | During seeding a change restarts the quiet period and withdraws the candidate. |
| `FleetWatch.FleetWatch.PublishObservation` | mods/src/patches/fleet_watch.cc:149-166 | A due transition is published, and only a due one. |
| `FleetWatch.FleetWatch.ObserveFleet` | mods/src/patches/fleet_watch.cc:185-231 | The whole observation: what it leaves in its slot and in the others, when it restarts, and what it does to the seeding state. |
| `FleetWatch.FleetWatch.GatherFleets` | mods/src/patches/fleet_watch.cc:250-271 | Which fleets a scan looks at, and that topology counts as changed exactly when some slot differs in occupancy or id. |
| `FleetWatch.FleetWatch.NoteTopology` | mods/src/patches/fleet_watch.cc:273-279 | A changed topology restarts after a baseline and only restarts the quiet period during seeding. |
| `FleetWatch.FleetWatch.VisitAll` | mods/src/patches/fleet_watch.cc:281-290 | What the second pass leaves in every slot; and it restarts exactly when a fast-polled slot turns out to hold another fleet, which ends the pass. |
| `FleetWatch.FleetWatch.ScanManager` | mods/src/patches/fleet_watch.cc:241-293 | Nothing happens without a service; with one, what a full or a fast-poll scan leaves in the table and in the seeding state, and that a fast-poll scan restarts exactly when a fast-polled slot changed hands. |
| `FleetWatch.FleetWatch.AttemptSeed` | mods/src/patches/fleet_watch.cc:340-354 | The periodic scan of seeding is done exactly when due, and a service lost after it was seen resets. |
| `FleetWatch.FleetWatch.FinishSeed` | mods/src/patches/fleet_watch.cc:356-384 | Seeding ends exactly when the candidate stands, the service is there, and the table was quiet to the last scan or thirty seconds are over; then what subscribers know is what the service reports. |
| `FleetWatch.FleetWatch.TickSeeding` | mods/src/patches/fleet_watch.cc:336-391 | One tick of seeding scans when due, which leaves every slot fast-polled exactly when that is wanted and has not run out; it sets the candidate after a quiet period, announces the baseline once it stands, and gives up only if no service was ever seen for two minutes. |
| `FleetWatch.FleetWatch.Probe` | mods/src/patches/fleet_watch.cc:403-423 | One slot in turn is looked at; a lost service or a changed topology of it restarts. |
| `FleetWatch.FleetWatch.ExpireFastPolls` | mods/src/patches/fleet_watch.cc:428-441 | Exactly the slots fast-polled for a day or more become exhausted; says whether any began in the last half minute. |
| `FleetWatch.FleetWatch.PollFast` | mods/src/patches/fleet_watch.cc:425-446 | It restarts exactly when its scan is due and a slot that is still fast-polled holds another fleet; otherwise no slot has been fast-polled for a day, every slot whose fast poll was due holds what the service reports, and what had run out stays so. |
| `FleetWatch.FleetWatch.TickLive` | mods/src/patches/fleet_watch.cc:393-446 | One tick after seeding restarts exactly when the service is found again or lost, or the probed slot or a slot whose fast poll is due holds another fleet; an exhausted slot that holds the same stays exhausted exactly when it does not restart. |
| `FleetWatch.FleetWatch.Tick` | mods/src/patches/fleet_watch.cc:329-447 | The whole tick keeps the invariant of tick boundaries, does nothing without subscribers, makes the progress stated for its phase, with the exact condition of a restart, leaves no slot fast-polled for a day or more, and moves each timer and the cursor only as stated. |
| `FleetWatch.FleetWatch.Subscribe` | mods/src/patches/fleet_watch.cc:306-327 | Accepted exactly when the callback is there, is new and the observer is or can be installed; the first one starts the seeding and refused ones change nothing. |
| `FleetWatch.FleetWatch.constructor` | mods/src/patches/fleet_watch.cc:43-59 | The initial statics satisfy the invariant of tick boundaries. |
| `ScreenUpdate.Dispatcher.RegisterCallback` | mods/src/patches/screen_update_hook.cc:15-29 | Refused for a null callback and during a dispatch; a repeated registration is accepted without effect. |
| `ScreenUpdate.Dispatcher.DispatchCallbacks` | mods/src/patches/screen_update_hook.cc:31-48 | Every registered callback runs once, in order, whatever the callbacks themselves call; a nested dispatch runs none. |
| `ScreenUpdate.Run` | mods/src/patches/screen_update_hook.cc:11-48 | Over any sequence of calls the callbacks and the order in which they ran are those of the specification. |
| `ScreenUpdate.CallbacksAreDistinct` | mods/src/patches/screen_update_hook.cc:24-27 | The registered callbacks are exactly the non-null ones ever registered, each once. |
| `ScreenUpdate.OncePerDispatch` | mods/src/patches/screen_update_hook.cc:31-48 | A callback runs as often as there are dispatches after its first registration. |
| `RecoveryHooks.Run` | mods/src/patches/parts/action_queue.cc:134-220 | Any run of native calls nested to any depth, judged by the calls and the answers alone: a retry is answered as natively, or forced by an engagement earlier in the run, under thirty seconds old, of the same queue, fleet and attempt, whose first target is the failed one, and which nothing has ended since, while the innermost response being handled is the failure of that target; and it is forced whenever there is such an engagement that was not seen past its lifetime and not displaced as the oldest of eight. Besides, no engagement of the log authorizes two recoveries. |
| `HookSteps.RunAnswersRight` | mods/src/patches/parts/action_queue.cc:134-220 | Every run of steps of the hooks keeps grants, context and calls in progress as the calls so far make them, and answers its retries right. |
| `HookSteps.DecidedRight` | mods/src/patches/parts/action_queue.cc:156-182 | The test of the hook, on its context and its table, decides as the calls before require. |
| `HookSteps.BeginFollows` | mods/src/patches/parts/action_queue.cc:134-214 | A call that begins leaves a state that follows from the calls, whether it remembers, clears, collects or opens a context. |
| `HookSteps.EndFollows` | mods/src/patches/parts/action_queue.cc:134-214 | So does a call that ends: the grant of an engagement that was not dispatched is gone, and the context around the call is back. |
| `RecoveryTrail.RememberedOne` | mods/src/patches/parts/action_queue.h:39-57 | Remembering an engagement keeps each grant backed by a standing engagement and each such engagement granted, unless it is past its lifetime or the oldest of eight. |
| `RecoveryTrail.PositionsDiffer` | mods/src/patches/parts/action_queue.h:39-57 | The grants of different fleets stem from different engagements, so eight grants are eight engagements. |
| `QueueLedger.GrantsAreStandingEngagements` | mods/src/patches/parts/action_queue.h:39-88 | A fleet holds a grant exactly when an engagement remembered for it has not been superseded, cancelled, cleared, collected, expired, evicted or spent, and the grant is what it was remembered with. |
| `QueueLedger.ConsumeIsAuthorized` | mods/src/patches/parts/action_queue.h:67-82 | A successful consumption matches one earlier engagement in queue, fleet, target and attempt, younger than thirty seconds and ended by nothing since. |
| `QueueLedger.NoGrantConsumedTwice` | mods/src/patches/parts/action_queue.h:67-82 | Two consumptions never spend the same engagement. |
| `QueueLedger.NoMoreRecoveriesThanEngagements` | mods/src/patches/parts/action_queue.h:39-82 | At every position the recoveries so far and the grants still standing together are at most the usable engagements so far. |
| `QueueLedger.CancelSparesNested` | mods/src/patches/parts/action_queue.cc:149-153 | Cancelling an outer engagement leaves the grant of one remembered after it alone. |
| `QueueLedger.EvictionOnlyWhenFull` | mods/src/patches/parts/action_queue.h:41-52 | A live engagement under thirty seconds old loses its place to another fleet only when eight such stand, and it is the oldest. |
| `QueueLedger.SerialsIncrease` | mods/src/patches/parts/action_queue.h:53-53 | Later engagements have larger serials. |
| `QueueLedger.SerialsBounded` | mods/src/patches/parts/action_queue.h:53-56 | Standing grants carry distinct serials already given out. |
| `RecoveryRequests.RequestsAreDistinct` | mods/src/patches/parts/action_queue.h:91-106 | Two records that agree in fleet, serial or handle are the same record. |
| `RecoveryRequests.FullTable` | mods/src/patches/parts/action_queue.h:105-105 | Eight live records mean eight grants. |
| `RecoveryRequests.OldestRecord` | mods/src/patches/parts/action_queue.h:49-50 | The record with the earliest start holds the oldest grant. |
| `RecoveryRequests.ReleaseTracks` | mods/src/patches/parts/action_queue.h:98-103 | Releasing a record keeps the table equal to the grants less that record's one, with exactly the handles of the remaining records alive. |
| `RecoveryRequests.ReleaseOfFleet` | mods/src/patches/parts/action_queue.h:98-103 | Releasing a fleet's record takes that fleet's grant, if it has one, and no other. |
| `RecoveryRequests.InsertTracks` | mods/src/patches/parts/action_queue.h:54-55 | Storing a new request under a new handle and serial keeps the table equal to the grants. |
| `RecoveryRequests.CollectionTracks` | mods/src/patches/parts/action_queue.h:32-33 | A garbage collection of a queue takes exactly the grants of that queue, without touching a record. |
| `RecoveryRequests.MakeRoomTracks` | mods/src/patches/parts/action_queue.h:41-52 | Emptying the chosen record takes the new request's own fleet's grant and, only in a table full of live unexpired others, the oldest grant. |
| `RecoveryRequests.RememberingOutcome` | mods/src/patches/parts/action_queue.h:52-56 | What storing does to the grants, for a usable and an unusable state. |
| `RecoveryRequests.RememberingAfterSweep` | mods/src/patches/parts/action_queue.h:39-57 | Sweeping first and storing then amounts to one remembering: other fleets lose a grant only when stale or as the oldest of eight. |
| `RecoveryRequests.Requests.Remember` | mods/src/patches/parts/action_queue.h:39-57 | The fleet gets the new grant if the state is usable and loses its old one in any case; another fleet keeps its grant unless it was stale or the oldest of eight; the serial is the next one. |
| `RecoveryRequests.Requests.ChooseSlot` | mods/src/patches/parts/action_queue.h:41-51 | The chosen record is the fleet's own or the oldest, and it holds another fleet's live unexpired request only when all eight do. |
| `RecoveryRequests.Requests.SweepRecord` | mods/src/patches/parts/action_queue.h:43-50 | One record of that search; a stale one is released on the way. |
| `RecoveryRequests.Requests.Replace` | mods/src/patches/parts/action_queue.h:52-56 | The chosen record is emptied, also for an unusable state, and refilled for a usable one. |
| `RecoveryRequests.Requests.Cancel` | mods/src/patches/parts/action_queue.h:60-65 | Exactly the grant with the serial is gone. |
| `RecoveryRequests.Requests.Consume` | mods/src/patches/parts/action_queue.h:67-82 | Succeeds exactly when the fleet's grant matches queue, target and attempt and is fresh, and then spends exactly it; otherwise only a stale grant may be lost. |
| `RecoveryRequests.Requests.Clear` | mods/src/patches/parts/action_queue.h:84-88 | No grant and no live handle is left. |
| `RecoveryRequests.Requests.Release` | mods/src/patches/parts/action_queue.h:98-103 | The record is empty and its handle freed, once. |
| `RecoveryHooks.Inspect` | mods/src/patches/parts/action_queue.cc:52-91 | A queue is valid exactly when its fleet is not zero, its storage is readable and the entries looked at are queueable actions; then count, front and presence of the target are right. |
| `RecoveryHooks.AbsentFromAllQueues` | mods/src/patches/parts/action_queue.cc:112-126 | True exactly when every queue of the manager could be read and none holds the target. |
| `RecoveryHooks.Hooks.RunEngage` | mods/src/patches/parts/action_queue.cc:134-155 | The attempt is remembered under the next serial, as what was seen of its queue, and cancelled at the end if the native call did not dispatch; disabled or on an exception everything is cleared. |
| `RecoveryHooks.Hooks.RunRetry` | mods/src/patches/parts/action_queue.cc:156-182 | A native refusal is turned into a retry only for the failed response being handled, with the target gone from every queue, by spending the fleet's grant; and it is, when no nested call intervenes and a matching grant stands. |
| `RecoveryHooks.Hooks.RunCourse` | mods/src/patches/parts/action_queue.cc:190-214 | The context of the response lasts for the native call and the previous one is restored, whatever nests inside. |
| `RecoveryHooks.Hooks.RunCall` | mods/src/patches/parts/action_queue.cc:215-220 | Every hook leaves a run of allowed steps: the begin and end of the call and of all calls within, its answers, the context as before, and a log that only grew. |
| `PrunePolicy.IsNativePruneResumeCandidate` | mods/src/patches/action_queue_guard_policy.h:76-99 | Accepts exactly when the old targets are a non-empty removed prefix followed by the new targets, both latches name nothing or a removed target, and the flags, fleets, heads and counts fit; all indices stay in bounds. |
| `PrunePolicy.IsNoTargetOrRemovedPrefix` | mods/src/patches/action_queue_guard_policy.h:48-60 | True exactly for no target or one of the removed ones. |
| `PrunePolicy.LatchNamesSurvivingTarget` | mods/src/patches/action_queue_guard_policy.h:62-74 | True exactly for a target that is still queued. |
| `PrunePolicy.IsStableResumePostcondition` | mods/src/patches/action_queue_guard_policy.h:101-122 | True exactly when both snapshots hold the same whole queue, heads, fleet and latches, idle, and no latch names a queued target. |
| `PrunePolicy.AcceptancesCompose` | mods/src/patches/action_queue_guard_policy.h:76-99 | Two successive acceptances make one over both prunes exactly when the head changed over both, which distinct ids guarantee. |
| `PrunePolicy.RepeatedHeadDoesNotCompose` | mods/src/patches/action_queue_guard_policy.h:76-99 | From 5, 7, 5 to 7, 5 to 5 both prunes are accepted one by one and not as one. |
| `PrunePolicy.AcceptedIsStable` | mods/src/patches/action_queue_guard_policy.h:101-122 | An accepted snapshot meets the stable-resume postcondition against itself exactly when no latch names one of its targets, which distinct ids guarantee. |
| `PrunePolicy.RepeatedTargetIsUnstable` | mods/src/patches/action_queue_guard_policy.h:76-122 | With a target queued twice an accepted snapshot can fail the postcondition. |
| `Leb128.ReadDelta` | mods/src/patches/native_hook_extent.cc:63-74 | The bounded loop, with its shift and overflow guards, returns exactly the acceptable number at the position and the position after it. |
| `Leb128.DeltaAccepts` | mods/src/patches/native_hook_extent.cc:63-74 | A number is accepted exactly when an encoding of at most ten bytes ends within the data and its value fits in 64 bits; the result is that value. |
| `Leb128.DecodeEncode` | mods/src/patches/native_hook_extent.cc:63-74 | Decoding the encoding of any 64-bit number, wherever it is written, gives the number and the position behind it. |
| `Leb128.Encode` | mods/src/patches/native_hook_extent.cc:63-74 | The encoding of a number is well formed (section 7.6 of DWARF Version 5) and has that value. |
| `Leb128.OrDisjoint` | mods/src/patches/native_hook_extent.cc:72-72 | Or-ing in the shifted bits adds them: no bit is lost or doubled. |
| `Leb128.AddGroup` | mods/src/patches/native_hook_extent.cc:70-73 | Under the guards no bit leaves the 64-bit word. |
| `StartTable.TableExtent` | mods/src/patches/native_hook_extent.cc:60-84 | The extent is the gap from the target's exact start to the next decoded start, and 0 for the last start and for anything else. |
| `StartTable.StartsAscend` | mods/src/patches/native_hook_extent.cc:75-77 | Decoded starts strictly ascend and stay within the text. |
| `StartTable.ExtentIsSound` | mods/src/patches/native_hook_extent.cc:75-84 | A nonzero extent runs from one decoded start to another, stays within the text, and no start lies inside it. |
| `StartTable.StartsOfEncoded` | mods/src/patches/native_hook_extent.cc:62-77 | Decoding what a linker writes for ascending starts gives back those starts, also when zero padding follows. |
| `StartTable.ExtentIsComplete` | mods/src/patches/native_hook_extent.cc:62-84 | On such a table, padded or not, every start but the last gets the nonzero gap to the next. |
| `MachImage.CommandsTile` | mods/src/patches/native_hook_extent.cc:30-46 | The walk finds exactly the one way to lay the stated number of load commands end to end within the bounds. |
| `MachImage.Walk` | mods/src/patches/native_hook_extent.cc:25-46 | Fails exactly when the commands do not fit; otherwise the last text and link-edit segments and the last start table are found. |
| `MachImage.InBounds` | mods/src/patches/native_hook_extent.cc:47-52 | The wrap-free bound checks say that the table lies within the link-edit segment, as filed and as mapped. |
| `MachImage.FindTable` | mods/src/patches/native_hook_extent.cc:22-59 | The table is found exactly when magic, commands, segments and bounds all fit, and its bytes are those mapped there. |
| `MachImage.FunctionExtent` | mods/src/patches/native_hook_extent.cc:17-85 | On arbitrary bytes the result is the gap of the table, for a target within the text, and 0 in every other case; unless it is 0, it runs from the target's own start to the next one, within the text. |
| `WrittenImage.ExtentOfWritten` | mods/src/patches/native_hook_extent.cc:17-85 | For an image whose load commands are written field by field, least byte first, around any other commands, with the encoded starts and padding at the mapped place of the table: each start but the last has the gap to the next as its extent, every other address 0. |
| `WrittenImage.TableRead` | mods/src/patches/native_hook_extent.cc:22-59 | From such an image exactly the written table is read. |
| `WrittenImage.ReadEight` | mods/src/patches/native_hook_extent.cc:22-59 | Eight bytes written least first are read as the number. |
| `WrittenImage.SegmentRead` | mods/src/patches/native_hook_extent.cc:33-41 | The fields of a written segment command are read back. |
| `WrittenImage.AddressIs` | mods/src/patches/native_hook_extent.cc:57-58 | A byte of the table lies at the base less the text address plus the link-edit address plus its file offset within the segment. |
| `UpdatePlan.FinalAtPath` | macos-launcher/src/XsollaLib.swift:403-476 | Over trees, the installed content of a path depends only on the rules that name it, provided that no other rule reaches it: it is the fold of its patch, create and copy rules over the old content, else nothing if it is deleted, else what it was. |
| `UpdatePlan.StagedAllAtPath` | macos-launcher/src/XsollaLib.swift:403-476 | The same for what is staged; or else a patched file lies above the path, and nothing was installed there either. |
| `UpdatePlan.StagedAtPath` | macos-launcher/src/XsollaLib.swift:420-474 | One rule that does not reach a path changes what is staged there only if it names it. |
| `UpdatePlan.StagedNode` | macos-launcher/src/XsollaLib.swift:420-474 | What each kind of rule leaves at every single path. |
| `UpdatePlan.PatchedAbove` | macos-launcher/src/XsollaLib.swift:421-449 | A patch above a path never matters for it: it finds a file, so nothing lies or comes to lie there. |
| `UpdatePlan.ReachesExactly` | macos-launcher/src/XsollaLib.swift:403-476 | The condition is exact, for every path, kind and path of another rule: the rule reaches the path if and only if in some completing plan over trees, whose only other rules name the path, the installed content is not what the rules naming it say. |
| `UpdatePlan.DeleteAbove` | macos-launcher/src/XsollaLib.swift:459-461 | A delete above the path takes it away. |
| `UpdatePlan.CreateAbove` | macos-launcher/src/XsollaLib.swift:451-457 | A new file above the path hides it. |
| `UpdatePlan.CreateBelow` | macos-launcher/src/XsollaLib.swift:451-457 | A new file below the path makes it a directory. |
| `UpdatePlan.CopyOver` | macos-launcher/src/XsollaLib.swift:463-470 | So does a copy below it, and a copy above it brings its own content. |
| `UpdatePlan.PatchBelow` | macos-launcher/src/XsollaLib.swift:421-449 | A patch below the path keeps it from being deleted. |
| `UpdatePlan.PatchTemporary` | macos-launcher/src/XsollaLib.swift:421-449 | A patch whose temporary name is the path, or lies above it, sweeps away what was staged there. |
| `UpdatePlan.RelatedRulesInterfere` | macos-launcher/src/XsollaLib.swift:463-470 | For instance, copying a file over a directory takes a staged file below it away. |
| `UpdatePlan.DeletesMayMove` | macos-launcher/src/XsollaLib.swift:459-461 | Where a delete rule stands in the plan, and how often, makes no difference to the final tree. |
| `UpdatePlan.StagedWellFormed` | macos-launcher/src/XsollaLib.swift:420-474 | Every rule keeps the staging tree a tree. |
| `Disk.CopyResumes` | macos-launcher/src/UpdaterFileOperations.swift:6-42 | Running the copy again from wherever it stopped gives what one uninterrupted copy gives, and gets stuck only where that one would. |
| `Disk.PartlyCopiedTransitive` | macos-launcher/src/UpdaterFileOperations.swift:6-42 | A partial copy continued is a partial copy. |
| `Disk.OverlayWellFormed` | macos-launcher/src/UpdaterFileOperations.swift:6-42 | The overlay of two trees without a clash is a tree. |
| `GameUpdater.Updater.CopyContentsOfDirectory` | macos-launcher/src/UpdaterFileOperations.swift:6-42 | Items in any order, any of which may fail: what it leaves is a partial copy, outside the directory nothing changes, and on success it is exactly the overlay; ends by the staged tree. |
| `GameUpdater.Updater.CopyItem` | macos-launcher/src/UpdaterFileOperations.swift:13-41 | The same for one item: a file or link replaces what is there, a directory is copied into. |
| `GameUpdater.Updater.CopyAgain` | macos-launcher/src/UpdaterFileOperations.swift:6-42 | A copy that stopped anywhere, run again to its end, leaves the overlay of the staged tree on the tree before the first run. |
| `GameUpdater.DirectoryDone` | macos-launcher/src/UpdaterFileOperations.swift:6-42 | A directory whose listed items are done is done as a whole. |
| `GameUpdater.LeafReplaced` | macos-launcher/src/UpdaterFileOperations.swift:31-34 | However far the replacement of a file or link got, it never leaves the bounds of a partial copy. |
| `GameUpdater.Updater.DeleteGamePaths` | macos-launcher/src/UpdaterFileOperations.swift:44-71 | Deletes apply one after another, a staged replacement keeps its path; on success all have applied, and on failure all before one, of whose directory part may be gone. |
| `GameUpdater.DeletesResume` | macos-launcher/src/UpdaterFileOperations.swift:44-71 | Applying the deletes again from wherever they stopped gives what one whole run gives. |
| `GameUpdater.Updater.RemoveFromGame` | macos-launcher/src/UpdaterFileOperations.swift:32-34 | Removing a directory may fail after part of it is gone; what is left is a tree that differs only at and under it. |
| `GameUpdater.Updater.WriteInstalledGameVersion` | macos-launcher/src/UpdaterFileOperations.swift:73-77 | The version file alone changes, and only on success. |
| `GameUpdater.VersionReadsBack` | macos-launcher/src/XsollaLib.swift:222-232 | The version written is the version the launcher reads back. |
| `GameUpdater.Updater.ApplyPatch` | macos-launcher/src/XsollaLib.swift:421-449 | A patch that succeeds leaves the staged tree the specification gives, with nothing under its temporary name. |
| `GameUpdater.Updater.ApplyRule` | macos-launcher/src/XsollaLib.swift:420-474 | Each kind of rule does to the staging tree and the deferred deletes what the specification says. |
| `GameUpdater.Updater.StageRules` | macos-launcher/src/XsollaLib.swift:403-476 | A rule list is staged as its steps, one after another, skipping code signatures; an invalid path fails. |
| `GameUpdater.Updater.StageActions` | macos-launcher/src/XsollaLib.swift:344-490 | Staging all actions never touches the game tree; the last version action decides the version. |
| `GameUpdater.Updater.UpdateGame` | macos-launcher/src/XsollaLib.swift:344-523 | A failure before finalizing leaves the game tree as it was; a failure while finalizing leaves a partial copy, or the overlay with some deletes applied and perhaps one begun; success leaves the final tree with the version, which at every path that no other rule disturbs is what the texts of the rules naming it say, "patch", "create", "delete", "copy" or anything else; for plans that spare the version file it changes only in a finished run; and when no operation fails and the plan can be staged without a clash, the update finishes. |
| `GameUpdater.Updater.Finalize` | macos-launcher/src/XsollaLib.swift:494-518 | Copying, deleting and writing the version: what any stop leaves, what success leaves, and that it succeeds when nothing fails and nothing clashes. |
| `PlanRules.FinalIsAsRuledAt` | macos-launcher/src/XsollaLib.swift:403-476 | The final content of an undisturbed path is the fold of the rules that normalize to it, told apart by their texts. |
| `PlanRules.SaidByRule` | macos-launcher/src/XsollaLib.swift:420-474 | What one rule says of its path by its text is what its step does. |
| `PlanRules.UndisturbedIsAlone` | macos-launcher/src/XsollaLib.swift:403-476 | A path that no rule disturbs, by the texts of the rules, is one that no other step reaches. |
| `PlanRules.StepsAreListed` | macos-launcher/src/XsollaLib.swift:344-490 | The steps of a plan are its rules in order, without the code signatures. |
| `PlanRules.SkippedIsSignature` | macos-launcher/src/XsollaLib.swift:409-412 | A rule is skipped exactly when a code signature directory is named in its path. |
| `PlanRules.LastVersion` | macos-launcher/src/XsollaLib.swift:344-490 | The version is that of the last version action. |
| `GameUpdater.VersionSpared` | macos-launcher/src/XsollaLib.swift:498-506 | No partial copy of such a plan touches the version file. |
| `GameUpdater.VersionNotDeleted` | macos-launcher/src/XsollaLib.swift:508-512 | Nor do its deletes, wherever they stop. |
| `PatchPath.NormalizedRelativePatchPath` | macos-launcher/src/XsollaLib.swift:57-74 | A path is accepted exactly when it has components and none is "." or "..", and the result is those components. |
| `PatchPath.NormalizeWritten` | macos-launcher/src/XsollaLib.swift:57-74 | However its names are separated, by any run of slashes of either kind, in front, between and behind, and with any blanks around, a path comes out as its names, or is refused when one of them is "." or "..". |
| `PatchPath.JoinedSplits` | macos-launcher/src/XsollaLib.swift:57-74 | Splitting a joined path of plain names gives it back. |
| `Decimal.ParseNumeral` | macos-launcher/src/UpdaterFileOperations.swift:75-75 | Parsing the numeral of a number gives the number. |
| `Decimal.NumeralEnds` | macos-launcher/src/UpdaterFileOperations.swift:75-75 | A numeral ends with the decimal digit of the number's rest, behind the numeral of its tenth. |
| `Decimal.ZerosInFront` | mods/src/patches/notification_service.cc:226-232 | Zeros in front of a numeral do not change the number. |
| `Placeholders.FormatWithArray` | mods/src/patches/notification_service.cc:201-236 | The in-place editing ends on every template and value list and computes the specified text; null and empty values change nothing. |
| `Templates.FormatNumber` | mods/src/patches/notification_service.cc:201-236 | A placeholder with a format of zeros longer than the value is filled with as many characters as the format, zeros in front and the value at the end, which for a numeral is the same number; any other format gives the value itself; without a value it stays. |
| `Placeholders.ReplaceAll` | mods/src/patches/notification_service.cc:217-233 | The loop of one value ends although zero padding can make the text grow: the rest after the search position shrinks. |
| `Placeholders.Edit` | mods/src/patches/notification_service.cc:219-232 | One edit: the plain form, the zero-padded form, another format, and another name left alone. |
| `Placeholders.FindFirst` | mods/src/patches/notification_service.cc:218-219 | A search result is the first occurrence, and no result means none. |
| `Placeholders.HoleMatches` | mods/src/patches/notification_service.cc:217-218 | A placeholder is found at its brace exactly when its name starts with the index searched for. |
| `Placeholders.HoleFound` | mods/src/patches/notification_service.cc:218-233 | There it is filled if the name is the index, left alone otherwise, and the search resumes a value's length further on. |
| `Placeholders.PassOnText` | mods/src/patches/notification_service.cc:217-233 | One value's edits on any template fill exactly the placeholders that the search reaches. |
| `Templates.EditsFillPlaceholders` | mods/src/patches/notification_service.cc:209-234 | All values' edits fill placeholders and touch nothing else. |
| `Templates.SequentialIsSimultaneous` | mods/src/patches/notification_service.cc:201-236 | For any template of well-formed placeholders and brace-free values the sequential edits equal one simultaneous substitution exactly when no search jumps over a placeholder of its own value. |
| `Templates.DistinctNames` | mods/src/patches/notification_service.cc:201-236 | They do whenever no placeholder has a longer name that starts with a given index. |
| `Templates.SingleDigits` | mods/src/patches/notification_service.cc:201-236 | In particular for single-digit placeholders. |
| `Templates.JumpedPlaceholder` | mods/src/patches/notification_service.cc:218-224 | With {10}{1} and a value 1 longer than four characters they do not: the second placeholder stays. |
| `Templates.InOrderExact` | mods/src/patches/notification_service.cc:209-234 | On the level of segments: the passes give the simultaneous substitution exactly when nothing is jumped over. |
| `Templates.FewerHoles` | mods/src/patches/notification_service.cc:209-234 | Filling placeholders leaves fewer of them, and as many only if none was filled; so texts that are equal, and thus hold equally many braces, had the same ones filled. |
| `RichText.StripUnityRichText` | mods/src/patches/notification_service.cc:432-445 | The loop computes the stripped text. |
| `RichText.StrippedIsUntagged` | mods/src/patches/notification_service.cc:432-445 | The result holds no tag; a text is unchanged exactly when it holds none; stripping twice is stripping once. |
| `RichText.TagRemoved` | mods/src/patches/notification_service.cc:437-440 | A tag is removed whole and the text around it kept. |
| `StrUtils.StrSplit` | mods/src/str_utils.h:72-96 | Only the last piece is stripped and empty pieces are dropped, as specified. |
| `StrUtils.SplitFront` | mods/src/str_utils.h:77-85 | A piece in front of a delimiter comes out as it is. |
| `StrUtils.SplitLast` | mods/src/str_utils.h:87-93 | A text without the delimiter is its stripped self, or no piece. |
| `StrUtils.StripEnds` | mods/src/str_utils.h:25-40 | Stripping is stripping both ends, and only a blank text becomes empty. |
| `StrUtils.StripStripped` | mods/src/str_utils.h:25-40 | Stripping is idempotent and absorbs stripping either end first. |
| `KeyNames.NamesAreOk` | mods/src/patches/key.cc:34-180 | All 145 key names are capitals without blanks and dashes, none is NONE, and none stands for no key. |
| `KeyNames.LetterCodes` | mods/src/patches/key.cc:34-180 | Among them A, B and X stand for their codes. |
| `KeyNames.SpelledCodes` | mods/src/patches/key.cc:34-180 | Every name has the code its spelling says: a character that character's, letters the lower-case one; function, keypad and mouse keys by their number; the left and right keys of the modifiers. |
| `KeyNames.TypedCharacter` | mods/src/patches/key.cc:182-192 | Every letter and digit names a key, in whichever case it is typed. |
| `TypedShortcuts.TypedShortcut` | mods/src/patches/mapkey.cc:120-152 | A modifier word, a dash and a letter or digit, in whichever case, bind that character's key with the left and right key of the modifier, by their numbers. |
| `TypedShortcuts.WordToken` | mods/src/patches/modifierkey.cc:20-50 | A modifier word alone is a modifier of its two keys. |
| `Shortcuts.ParseModifier` | mods/src/patches/modifierkey.cc:20-50 | The loop over the names computes the specified modifier, which holds exactly the codes of the names in the text, each once. |
| `Shortcuts.ModifierCodes` | mods/src/patches/modifierkey.cc:20-50 | So does the specification: a code is there if and only if some name between the dashes stands for it, and none is there twice. |
| `Shortcuts.ModifierKey.AddModifier` | mods/src/patches/modifierkey.cc:61-74 | Afterwards both codes are there, none twice, and earlier ones stay in front. |
| `Shortcuts.ParseMapKey` | mods/src/patches/mapkey.cc:120-154 | The loop over the pieces computes the specified binding: the last key, all modifiers in order, the pieces that were either. |
| `Shortcuts.GetParsedValues` | mods/src/patches/mapkey.cc:278-289 | The tokens joined by dashes, for tokens that are not empty. |
| `Shortcuts.GetShortcuts` | mods/src/patches/mapkey.cc:156-172 | The bindings joined by " | ". |
| `ShortcutRoundTrip.StrippedToken` | mods/src/patches/modifierkey.cc:22-50 | Blanks around a kept piece do not change what it stands for when they are stripped. |
| `ShortcutRoundTrip.BlankedToken` | mods/src/patches/mapkey.cc:129-143 | A modifier with a blank in front is still that modifier; a key with one is no key. |
| `ShortcutRoundTrip.TokenInFront` | mods/src/patches/mapkey.cc:126-143 | What one more piece in front does to key and modifiers. |
| `ShortcutRoundTrip.FirstReparsed` | mods/src/patches/mapkey.cc:120-154 | A printed binding with a blank behind it has its tokens again. |
| `ShortcutRoundTrip.MiddleReparsed` | mods/src/patches/mapkey.cc:120-154 | With a blank on both sides too, except that it loses its key exactly when its first token is its only key and not its last token. |
| `ShortcutRoundTrip.LastReparsed` | mods/src/patches/mapkey.cc:120-154 | The last printed binding has its tokens again, with or without a blank in front. |
| `ShortcutLists.ParsedIsPrintable` | mods/src/patches/mapkey.cc:120-154 | The tokens that parsing keeps give the same key and modifiers when parsed again. |
| `ShortcutLists.ListReread` | mods/src/patches/mapkey.cc:156-172 | A printed list read again gives the same keys and modifiers in order exactly when no binding in the middle begins with its only key and goes on behind it. |
| `ShortcutConfig.ChooseValue` | mods/src/config.cc:850-878 | The item comes before its aliases, the first alias present before the default. |
| `ShortcutConfig.Config.ParseValue` | mods/src/config.cc:751-816 | A value is put into effect as decided: off, bindings added to those of the action and all of them shown, or the default instead; nothing else changes; the recursion ends. |
| `ShortcutConfig.Config.AddAll` | mods/src/config.cc:776-787 | Exactly the alternatives with a key are added, in order, to the one action. |
| `ShortcutConfig.ConfigRoundTrip` | mods/src/config.cc:751-816 | What is shown for the bindings of any value, configured again, is taken from the configuration and gives the same keys and modifiers in order exactly under that condition. |
| `ShortcutConfig.KeysLastRoundTrip` | mods/src/config.cc:751-816 | So it does for lists of at most two bindings and for lists whose bindings all end with their keys. |
| `ShortcutConfig.LostBinding` | mods/src/config.cc:751-816 | And it does not for x|a-m|b with keys x, a, b and a modifier m. |
| `ShortcutConfig.LostLetters` | mods/src/config.cc:751-816 | With the key names of the source this happens to X|A-SHIFT|B. |
| `ShortcutConfig.OffHasNoBindings` | mods/src/config.cc:777-782 | A value that switches an action off holds no binding. |
| `ShortcutConfig.SpacedNone` | mods/src/config.cc:773-782 | NONE switches off only when it stands alone; with a blank around it the setting falls back to its default. |
| `ShortcutConfig.SwitchesOff` | mods/src/config.cc:773-782 | A text switches an action off exactly when it is blank or the four letters of none, in any case. |
| `KeyCache.Cache.Pressed` | mods/src/patches/key.cc:307-319 | The answer is what polling the frame gives; only the first question of a frame resets; the recursion through the reset ends. |
| `KeyCache.Cache.EnsureCurrentFrame` | mods/src/patches/key.cc:286-291 | The cache belongs to the frame, and nothing changes within one. |
| `KeyCache.Cache.ResetCache` | mods/src/patches/key.cc:266-284 | All entries are forgotten and exactly the claims of keys held in the new frame are kept. |
| `KeyCache.Cache.PruneClaims` | mods/src/patches/key.cc:278-283 | A claimed direction stays claimed exactly when its key is held. |
| `KeyCache.Cache.Down` | mods/src/patches/key.cc:293-305 | The answer is what polling the frame gives. |
| `KeyCache.Cache.IsModified` | mods/src/patches/key.cc:249-264 | True exactly when one of the modifiers is held, although the answer is stored before the keys are asked for. |
| `KeyCache.Cache.ClaimDirectionalInput` | mods/src/patches/key.cc:214-226 | Only directions can be claimed, from now on. |
| `KeyCache.Cache.IsDirectionalInputClaimed` | mods/src/patches/key.cc:228-247 | True exactly when a claim stands whose key was held in every frame observed since; claims are given up only for keys that are not held. |
| `KeyCache.HeldLonger` | mods/src/patches/key.cc:278-283 | One more observed frame keeps a claim exactly when the key is held in it. |
| `KeyCache.ClaimUntilReleased` | mods/src/patches/key.cc:266-284 | Whatever frames are observed after a claim, it stands exactly until the first of them in which the key is not held. |
| `KeyCache.Run` | mods/src/patches/key.cc:214-319 | Over any calls of the queries and of claiming, in any order of frames, every answer depends only on the calls so far and on what the engine reports in their frames. |
| `KeyCache.ClaimedSince` | mods/src/patches/key.cc:214-284 | A direction is claimed exactly when it was at some earlier call and no call since dropped the claim: the first question of a frame, and every question for claims, drops it unless the key is held. |
| `KeyCache.ModifierHeld` | mods/src/patches/key.cc:193-212 | The modifiers are the keys 303 to 313. |
| `KeyCache.Cache.Do` | mods/src/patches/key.cc:214-319 | One call changes the claims and answers as stated. |
| `HavenZoom.DistanceIs` | mods/src/patches/parts/haven_zoom.cc:131-136 | The distance is the native one plus a share of the room beyond the outer limit, cut off at the maximum. |
| `HavenZoom.DistanceBounds` | mods/src/patches/parts/haven_zoom.cc:131-136 | It lies between native and maximum, is native exactly up to the inner limit and maximal exactly from the outer limit on. |
| `HavenZoom.DistanceMonotone` | mods/src/patches/parts/haven_zoom.cc:131-136 | It never falls with the weight and strictly rises until it is maximal. |
| `HavenZoom.ProgressAt` | mods/src/patches/parts/haven_zoom.cc:135-135 | Progress is 0 exactly up to the inner and 1 exactly from the outer limit on. |
| `HavenZoom.QualifiedZoom` | mods/src/patches/parts/haven_zoom.cc:124-134 | For a blend that passes the guards the limits are in order, the weight lies between 0 and 1, and the native distance runs between the two radii whichever is far. |
| `HavenZoom.WeightIsDistance` | mods/src/patches/parts/haven_zoom.cc:124-133 | At the weight of a value of the curve the native distance is the source's radius up to 0, the target's from 1 on and in proportion between, whichever end is far; and the two limits are those of the curve on the near and on the far side. |
| `HavenZoom.BackAxisIsRotated` | mods/src/patches/parts/haven_zoom.cc:143-147 | For a unit rotation the displacement's axis is the axis (0, 0, -1) rotated by it. |
| `HavenZoom.BackAxisLength` | mods/src/patches/parts/haven_zoom.cc:145-147 | Its squared length is 1 + 4s(L - 1), L being the rotation's squared length and s the part of it in x and y. |
| `HavenZoom.UnitDisplacement` | mods/src/patches/parts/haven_zoom.cc:145-147 | A unit rotation moves the camera by exactly the extra distance. |
| `HavenZoom.BackAxisTolerance` | mods/src/patches/parts/haven_zoom.cc:112-115 | Within the accepted tolerance the squared scale is off by at most 4 L times the tolerance. |
| `HavenZoom.StretchedLength` | mods/src/patches/parts/haven_zoom.cc:145-147 | The displacement's squared length is that scale times the square of the extra distance. |
| `HavenZoom.UpdateCameraFrame` | mods/src/patches/parts/haven_zoom.cc:57-163 | Position and far clip are changed together or not at all, exactly when the guards pass, the weight is beyond the inner limit and the native clip is positive; both by the distance gained. |

## Left out

- FleetWatch.FleetWatch.Tick: callbacks do not call back into the observer, so the dispatch depth, which makes `Subscribe` fail from within a callback, and the guard against recursive predicates are not modelled; the service is read once per tick and the clock does not go back.
- FleetWatch.FleetWatch.ScanManager: the counts that a scan returns only for log messages are left out.
- FleetWatch.FleetWatch.TickLive: the exact condition of a restart is stated for clock values above 0, because the timers use 0 for no time at all.
- FleetTicks.EveryLogInTime: speaks of the wait of five seconds between looks during seeding and of the first half minute of fast polling; the shorter wait at the start of a seeding and the longer one after the half minute are in the contract of a tick only.
- RecoveryHooks.Run: an engagement that is the oldest of eight, perhaps as old as another, is not promised to survive a ninth fleet's, because among equally old ones the order of the records decides.
- RecoveryRequests.Requests.Remember: serials are unbounded, so a wrap of the 64-bit counter is not modelled; a valid state is required to carry a fleet other than zero and a queue, which `RecoveryHooks.Inspect` guarantees.
- RecoveryHooks.Inspect: raw field reads and class checks are replaced by a value that says what could be read; finding the queue of a fleet is an input, and the locks around the table are left out.
- RecoveryRequests.Requests.Consume: the attempt number is a real, so a NaN, which never matches, is not modelled.
- MachImage.FunctionExtent: asking the runtime which image an address belongs to is an input, as is the memory behind the mapped segment; bit operations are written as arithmetic.
- WrittenImage.ExtentOfWritten: the written addresses and offsets fit their fields, and the table's place does not wrap around the address space.
- UpdatePlan.FinalAtPath: requires that the game and the deltas are trees and that no other rule reaches the path; without that it is false, by `UpdatePlan.ReachesExactly` for every rule that does.
- GameUpdater.Updater.StageActions: what is downloaded and extracted is assumed to lie outside the game tree.
- GameUpdater.Updater.CopyContentsOfDirectory: links are copied and never followed, so a check for existence through a link and a directory reached through one are not modelled; nor are permissions and file systems that ignore case.
- GameUpdater.Updater.UpdateGame: downloads and extraction may only fail or succeed, applying a delta is any partial function of basis and delta, the temporary directory is fresh, and progress reports are left out.
- PatchPath.NormalizedRelativePatchPath: only the four ASCII blanks are trimmed.
- Templates.SequentialIsSimultaneous: speaks of templates whose braces enclose a name and an optional format; on other templates the edits are specified by `Placeholders.FormatFrom` and proved to end.
- Shortcuts.ParseMapKey: texts hold no null character, and the upper-casing and the blanks are those of the C locale.
- ShortcutConfig.Config.ParseValue: log messages and the parsing of the configuration file are left out; an entry is a text or something else.
- KeyCache.Cache.Pressed: the input does not change within a frame; text focus and the shift, alt and control shorthands of the same file are left out.
- HavenZoom.UpdateCameraFrame: numbers are reals, so rounding, NaN and infinity are not modelled; object identities are given as two flags, and the road depth bias is a foreign call.
- The lookup of game classes and methods, detours and native calls: foreign code without visible semantics.
- Network, XML, archive and signing steps of the launcher and its views: libraries.
- Log rotation, chat tab indices, double-click detection, the destroyed-head predicate, shortcut hints and other single-expression helpers: they would only add easy members.
