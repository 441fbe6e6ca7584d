# Honor Control: a verified model

Honor Control is a root daemon that owns a laptop's fan controller, power limits, battery
thresholds and touchpad firmware. This project models the parts of it that are protocols,
transactions, parsers and arithmetic, and proves what they promise over every input, every
schedule or every run.

| file | models |
|---|---|
| `CommandQueue.dfy`, `HardwareQueue.dfy` | the two-thread hardware command queue: as steps of its participants, and as the object with its fields |
| `FanFailSafe.dfy`, `FanRuns.dfy`, `FanCodes.dfy`, `FanService.dfy` | the fan fail-safe on top of the queue: one command, one restoration and the manual-speed sequence; whole runs with the watchdog's and the curve loop's polls; what each answer says about the hardware; and the service object |
| `HidDescriptor.dfy`, `HidMeaning.dfy`, `HidScan.dfy` | the HID report-descriptor parser (sections 6.2.2.2 to 6.2.2.8 of the USB Device Class Definition for HID 1.11), its meaning on trees of collections, and a second reading that looks back for what is in force at each item |
| `PowerTransaction.dfy`, `PowerHardware.dfy` | applying a power profile with verified writes and rollback |
| `ChangeNotification.dfy`, `ServiceRestart.dfy`, `NotificationObjects.dfy` | change sequences from the snapshot store through the D-Bus client to the view, also across restarts of the service |
| `TomlPrinter.dfy`, `ServiceConfig.dfy`, `ConfigStore.dfy`, `ProfileRegistry.dfy` | the TOML printer, the persisted state and its validation, the store with its backup, the profile use cases |
| `TouchpadSettings.dfy`, `TouchpadBatch.dfy` | the touchpad setting table and the batch writer |
| `FanCurve.dfy`, `FanCurveText.dfy`, `FanControllers.dfy`, `FanCurveLoop.dfy` | fan curves as numbers and as text, the curve loop's choice of speed, and the loop with its commands on the hardware queue |
| `FanWatchdog.dfy` | a whole session of the manual override, with what it puts on the hardware queue |
| `BatteryThresholds.dfy` | the order of battery threshold writes |
| `Wrappers.dfy` | `Option` and `Result` |

Where the source changes things in place the model has a class or a loop, proved equal to a
function on values; the theorems are about those functions. What hardware, clock, other tasks
and file system do is always a parameter: a list of interleaved actions, an oracle indexed by
the number of the call, or the fate of a save. Nothing is assumed about these parameters except
what a lemma's `requires` says.

## Findings

Promises that do not hold as documented. Each has a concrete case and the exact condition.

- A recovery reserved after `shutdown` has put its stop marker on the queue never runs
  (`CommandQueue.StrandedRecoveryExample`, `CommandQueue.RecoveryCanRunIff`).
- A fan command cancelled while it waits for the queue lock takes any future that poisons the
  queue for its own recovery (`FanFailSafe.AdoptionExample`, `FanFailSafe.LockWaitCancelAccountedIff`).
- A restoration that is cancelled before the controller has confirmed stock auto leaves nothing on
  record. The supervisor does that to a watchdog's clean-up after five seconds, while the queue allows
  ten (`honor_control/backend/supervisor.py:119-152`): nobody is in control, nothing is awaited, no error
  is recorded, and the controller is manual at that moment. If the answer of its request had not arrived,
  a stock-auto request is still on the queue and only the record is silent
  (`FanRuns.CutCleanupExample`); if a refusal had arrived, nothing is under way and the controller stays
  manual (`FanRuns.AbandonedCleanupExample`); `FanFailSafe.LostRestoreReservedIff` separates the two. The
  same happens in the `except Exception` handler of `_apply_manual_fan_speed`
  (`FanFailSafe.HandlerCancelExample`). The exact conditions are `FanFailSafe.RestoreExact`,
  `FanFailSafe.ManualRestoreLostIff` and `FanFailSafe.HandlerCancelAccountedIff`, and over whole runs
  `FanRuns.FanRunHonestIff`.
- Power rollback writes governors before preferences, so even where every acceptable write is taken at
  once it is reliable exactly when no prior governor was `performance`
  (`PowerTransaction.RestoreMisses`, `PowerTransaction.RestoreReliableIff`).
- Rollback writes each preference once, while applying a profile tries it up to three times: a driver that
  takes preferences at the second try gets its profile and does not get its snapshot back
  (`PowerTransaction.RollbackNotRetried`, `PowerTransaction.ApplySucceedsIff`; the exact condition for
  drivers that take writes at once is `PowerTransaction.RestoreReliableIff`).
- The curve loop keeps its last speed after a failed write, and over a change to stock auto and back
  between two wake-ups, and can then report success while the controller is in stock auto
  (`FanCurveLoop.StockAutoUnnoticed`, `FanCurveLoop.StaleIff`, `FanCurveLoop.FailedWriteMeansStock`).
- A client that gives up refreshing stays behind the newest signal, with nothing pending, until the
  next change (`ChangeNotification.GivingUpExample`, `ChangeNotification.BehindUntilNextChange`). It
  gives up exactly when the fourth refresh in a row is overtaken by a signal newer than its answer
  (`ChangeNotification.RefreshCoversIff`, `ChangeNotification.GivingUpMeansChurn`).
- A service that restarts counts its snapshots from 0 again, and the client learns of that only from a
  call or a listener that fails (`honor_control/client/sdbus_client.py:326-329` and `:373-376`). If none
  does, the view stays on the old process's snapshot until the new count reaches it
  (`ServiceRestart.RestartExample`, `ServiceRestart.UnnoticedRestartIff`); after a reconnection it does
  not (`ServiceRestart.ReconnectedShows`).
- With an unreadable start threshold the battery write can put end below start
  (`BatteryThresholds.UnreadableStartExample`, `BatteryThresholds.InOrderThroughoutIff`).
- A hand-edited `profile = "Balanced"` passes validation and is not a key of the registry
  (`ProfileRegistry.HandEditedMisses`, `ProfileRegistry.ReferenceIsKeyIff`).
- A state without the built-in profiles passes validation and does not survive the file
  (`ServiceConfig.WithoutBuiltInsExample`, `ConfigStore.WithoutBuiltInsDiverges`,
  `ServiceConfig.StateRoundTripIff`, `ConfigStore.SuccessfulUpdate`); no run of the use cases produces
  one (`ProfileRegistry.RunsStayIntact`).
- When the state directory cannot be opened after the new file is in place, the update is reported as
  failed and a restart finds its state all the same (`ConfigStore.DirectoryLostExample`,
  `ConfigStore.RestartFinds`; `honor_control/backend/config_store.py:541-549`). A sync that fails on the
  open directory is ignored by the code, and the update succeeds.

As documented in `docs/hardware-support.md:35-37`, a definition with the performance governor is not
applied where the driver refuses preferences under it; `PowerTransaction.ApplySucceedsIff` proves that
this is the only obstacle.

## Model

| member | source | states |
|---|---|---|
| `CommandQueue.ReachedInv` | honor_control/backend/command_queue.py:80-244 | the invariant of every reachable state: FIFO history, numbering of futures, posted completions, at most one waiter and its recovery outstanding |
| `CommandQueue.AcceptedOnlyWhenSettled` | honor_control/backend/command_queue.py:99-125 | in every interleaving a call is enqueued only when every earlier item has run, the worker is idle and no completion is undelivered |
| `CommandQueue.RunsOnceInOrder` | honor_control/backend/command_queue.py:201-233 | hardware calls are a prefix of the enqueued items in that order, no item twice, at most two unfinished, and of two the second is the poison |
| `CommandQueue.RecoveryRunsNext` | honor_control/backend/command_queue.py:125-174 | after a timeout or cancellation with a recovery, the very next hardware call is that recovery, and until it completes every submission is refused and enqueues nothing |
| `CommandQueue.NothingRunsAfterStop` | honor_control/backend/command_queue.py:201-244 | nothing behind the stop marker is ever executed |
| `CommandQueue.RecoveryCanRunIff` | honor_control/backend/command_queue.py:157-244 | a reserved recovery can run in some continuation if and only if the queue had not been shut down |
| `CommandQueue.StrandedRecoveryExample` | honor_control/backend/command_queue.py:235-244 | a concrete run after which the reserved stock-auto request never runs, whatever follows |
| `CommandQueue.NeverStuck` | honor_control/backend/command_queue.py:99-155 | without shutdown, every reachable state can admit calls again |
| `CommandQueue.AwaitLeaves` | honor_control/backend/command_queue.py:125-199 | however the wait ends (value, exception, timeout, the call's own TimeoutError, cancellation), what is left on the queue and which future poisons it |
| `CommandQueue.RunCallLeaves` | honor_control/backend/command_queue.py:80-155 | one whole `run` against any schedule: cancelled while it waits for a contended lock it leaves the lock to its holder, refused it enqueues nothing, otherwise it leaves as above |
| `CommandQueue.RefusalIff` | honor_control/backend/command_queue.py:97-110 | which refusal a call of `run` gets, for every schedule: a bad timeout exactly for one that is not positive, with nothing touched; past that, and unless it is cancelled waiting for the lock, unavailable if and only if the queue is closed by then, busy if and only if it is open and a timed-out command is unfinished, and admitted if and only if neither |
| `CommandQueue.AdmittedExitIff` | honor_control/backend/command_queue.py:125-199 | how an admitted call ends is read off its schedule: cancelled, the value or exception that a poll finds, or a timeout in every other case, a TimeoutError of the hardware call itself included |
| `CommandQueue.CancelledIff` | honor_control/backend/command_queue.py:125-150 | an admitted call ends by cancellation if and only if its schedule says so; the trace has then grown by exactly what the hardware had answered, and the queue is poisoned if and only if that answer had not arrived |
| `HardwareQueue.HardwareCommandQueue.TrySubmit` | honor_control/backend/command_queue.py:99-124 | refusal when closed or poisoned, otherwise one item enqueued: the object takes the step `Submit` of the protocol |
| `HardwareQueue.HardwareCommandQueue.WorkerTake` | honor_control/backend/command_queue.py:201-212 | the worker's `get` is the step `Take`, including its return on the stop marker |
| `HardwareQueue.HardwareCommandQueue.WorkerFinish` | honor_control/backend/command_queue.py:201-220 | the end of a hardware call is the step `Finish` |
| `HardwareQueue.HardwareCommandQueue.RunCallback` | honor_control/backend/command_queue.py:221-233 | delivering a completion is the step `Deliver` |
| `HardwareQueue.HardwareCommandQueue.ShutDown` | honor_control/backend/command_queue.py:235-244 | closing is the step `Shutdown`, with one stop marker |
| `HardwareQueue.HardwareCommandQueue.Run` | honor_control/backend/command_queue.py:80-155 | the object's `run` refines `RunCall`: same state, same exit, for every schedule |
| `HardwareQueue.HardwareCommandQueue.WaitForCompletion` | honor_control/backend/command_queue.py:185-199 | the polling loop refines `Await` |
| `FanFailSafe.CommandExact` | honor_control/backend/application.py:1013-1039 | one fan command against every schedule: a tracked recovery is a stock-auto request with no manual write behind it if and only if the command is not lost waiting behind a foreign poison; a timeout is always tracked |
| `FanFailSafe.RestoreExact` | honor_control/backend/application.py:2282-2327 | one restoration against every schedule, cancellation at any point included: stock auto is confirmed, or pending, or an error is on record, if and only if the schedule does not cancel it before the confirmation of a controller that was not there already |
| `FanFailSafe.ShieldedNeverLost` | honor_control/backend/application.py:1005-1008 | a shielded restoration is never lost |
| `FanFailSafe.ApplyExact` | honor_control/backend/application.py:976-1011 | the manual-speed sequence against every schedule: success leaves nothing pending, and every other exit leaves stock auto confirmed after the last manual write, or a restoration queued, or an error on record, if and only if the schedule loses none of its steps |
| `FanFailSafe.LockWaitCancelAccountedIff` | honor_control/backend/application.py:1033-1039 | cancelled while waiting for the lock, the record is honest if and only if there is no poison or the poison is itself a stock-auto request |
| `FanFailSafe.ManualRestoreLostIff` | honor_control/backend/supervisor.py:119-152 | a cancelled clean-up of a controller left manual is lost if and only if it was cancelled waiting for the lock or before its request was confirmed |
| `FanFailSafe.LostRestoreReservedIff` | honor_control/backend/command_queue.py:143-149 | of a lost restoration that had been admitted, a stock-auto request is still reserved on the queue if and only if the answer of its own had not arrived; otherwise nothing is under way and the controller stays manual |
| `FanFailSafe.HandlerCancelAccountedIff` | honor_control/backend/application.py:1009-1011 | cancelled in the exception handler, the record is honest if and only if the manual-mode call found the queue closed or poisoned, or the handler's own request was confirmed first |
| `FanFailSafe.HandlerCancelExample` | honor_control/backend/application.py:1009-1011 | a concrete run, with another task holding the lock, that leaves the controller manual and nothing on record |
| `FanFailSafe.AdoptionExample` | honor_control/backend/application.py:1034-1039 | a concrete run in which a foreign completion is taken for the confirmation of stock auto |
| `FanRuns.SetManualHonestIff` | honor_control/backend/application.py:900-974 | `set_fan_manual` keeps the record honest if and only if its schedule loses nothing, and answers `fan_manual_failed` only in confirmed stock auto |
| `FanCodes.OverrideAnswers` | honor_control/backend/application.py:900-974 | the answer of `set_fan_manual`, for every schedule, from what it leaves behind: it raises if and only if it is cancelled; otherwise success, or watchdog failure, if and only if mode and speed both stand confirmed, by whether the watchdog started; short of that, restore-pending if and only if a restoration is awaited (then a stock-auto request with no manual write behind it), restore-failed if and only if none is and an error is on record, plain failure if and only if neither (then stock auto) |
| `FanCodes.ApplyTold` | honor_control/backend/application.py:976-1011 | the manual-speed sequence raises a cancellation if and only if its schedule cuts one of its waits, and otherwise reports success if and only if both writes were confirmed to it |
| `FanCodes.RestoreAnswers` | honor_control/backend/application.py:2282-2327 | a restoration answers yes if and only if the confirmation of the awaited request, or else of its own, has arrived, and is cancelled if and only if its schedule says so |
| `FanCodes.StockAnswers` | honor_control/backend/application.py:781-816 | `set_fan_stock_auto` answers yes if and only if the confirmation of its request has arrived |
| `FanCodes.WatchAnswers` | honor_control/backend/application.py:2158-2199 | how a pass of the watchdog ends, from the answers it gets: it goes on if and only if a temperature from 1 to 150 degrees arrives and nothing has to be raised, or the raise (100 from 95 degrees, 80 from 90, over a lower target) is confirmed; refusals, bad temperatures and shutdown are told apart |
| `FanCodes.CurveAnswers` | honor_control/backend/application.py:2065-2145 | how a pass of the curve loop ends: passed over, kept, written (both writes confirmed), and given up only on the third failure |
| `FanRuns.WatchdogExact` | honor_control/backend/application.py:2158-2210 | one poll of the watchdog with its hardware commands: every end but shutdown and cancellation has restored stock auto or left that on record |
| `FanRuns.CurvePollHonestIff` | honor_control/backend/application.py:2065-2145 | one poll of the curve loop with its hardware commands keeps the record honest if and only if none of them is lost waiting behind a foreign poison and its write's exception handler is not lost |
| `FanRuns.StockRequestHonest` | honor_control/backend/application.py:781-816 | `set_fan_stock_auto` never spoils the record, and success means stock auto with nobody in control even if the watchdog's clean-up fails |
| `FanRuns.CleanupHonestIff` | honor_control/backend/supervisor.py:119-152 | a clean-up keeps the record honest if and only if its schedule does not lose it |
| `FanRuns.RecoveryTaskHonest` | honor_control/backend/application.py:2231-2254 | the recovery task clears the record only when the reserved request confirmed stock auto |
| `FanRuns.StepHonestIff` | honor_control/backend/application.py:781-1039 | every operation of the fan layer, from an honest record: it stays honest if and only if nothing is lost |
| `FanRuns.FanRunHonestIff` | honor_control/backend/application.py:2036-2327 | over every run of overrides, watchdog polls, curve polls, clean-ups, stock requests and foreign activity: throughout, with nobody in control, nothing pending and nothing on record the controller is in stock auto, if and only if no step is lossy |
| `FanRuns.HonestThroughoutMeans` | honor_control/backend/application.py:2036-2327 | honest throughout means honest after every prefix of the run |
| `FanRuns.StepRecordedIff` | honor_control/backend/application.py:2212-2229 | a pending restoration stays what it claims to be if and only if no command adopts a foreign poison |
| `FanRuns.PlainFailureMeansStock` | honor_control/backend/application.py:966-974 | from process start, after any run without adoption, however much of it was cancelled, the plain failure result is returned only in stock auto |
| `FanRuns.CutCleanupExample` | honor_control/backend/supervisor.py:140-150 | a clean-up cancelled while its request runs: manual and unrecorded, with that request running and another reserved behind it |
| `FanRuns.AbandonedCleanupExample` | honor_control/backend/supervisor.py:140-150 | a clean-up cancelled when the refusal has arrived: manual and unrecorded, with nothing under way |
| `FanService.FanController.TrackTimeoutRecovery` | honor_control/backend/application.py:2212-2229 | the object's bookkeeping is `Track` |
| `FanService.FanController.CompleteTimeoutRecovery` | honor_control/backend/application.py:2231-2254 | the recovery task's bookkeeping is `CompleteRecovery` |
| `FanService.FanController.RunCommand` | honor_control/backend/application.py:1013-1039 | refines `RunFanCommand` |
| `FanService.FanController.RestoreAuto` | honor_control/backend/application.py:2282-2327 | refines `RestoreFanAuto` |
| `FanService.FanController.ApplyManual` | honor_control/backend/application.py:976-1011 | refines `ApplyManualSpeed`, exits included |
| `FanService.FanController.SetManualSpeed` | honor_control/backend/application.py:900-974 | refines `SetFanManual`, result codes included |
| `FanService.FanController.Watchdog` | honor_control/backend/application.py:2158-2210 | refines `PollWatchdog`, exits included |
| `FanService.FanController.CurveControl` | honor_control/backend/application.py:2065-2145 | refines `PollCurve` |
| `FanService.FanController.SetStockAuto` | honor_control/backend/application.py:781-816 | refines `RequestStock` |
| `HidDescriptor.ParseDescriptor` | honor_control/backend/touchpad_firmware.py:127-242 | the loop terminates on every byte string and equals: tokenise, then fold the items over the parser's state |
| `HidDescriptor.SelectReportId` | honor_control/backend/touchpad_firmware.py:224-229 | the report identifier chosen from those with counted bits |
| `HidDescriptor.PayloadValue` | honor_control/backend/touchpad_firmware.py:123-124 | the little-endian value of an item's payload |
| `HidMeaning.TokeniseEncoded` | honor_control/backend/touchpad_firmware.py:149-175 | tokenising the bytes of items gives those items back |
| `HidMeaning.EncodeTokenised` | honor_control/backend/touchpad_firmware.py:149-175 | every byte string is the bytes of its tokens followed by what is truncated |
| `HidMeaning.IgnoredItemsAreInvisible` | honor_control/backend/touchpad_firmware.py:152-195 | a well-formed long or reserved item inserted between any two items never changes the result |
| `HidMeaning.RejectedIff` | honor_control/backend/touchpad_firmware.py:149-195 | rejected if and only if an item is truncated or some prefix pops more than it pushed, with the right error |
| `HidMeaning.FlattenRealises` | honor_control/backend/touchpad_firmware.py:172-222 | folding a flattened tree has exactly the tree's recursive effect on globals, locals and bit totals |
| `HidMeaning.ParseIsMeaning` | honor_control/backend/touchpad_firmware.py:127-242 | parsing the bytes of any tree of collections gives the recursive sum of size times count under a vendor application collection |
| `HidMeaning.EveryDescriptorIsATree` | honor_control/backend/touchpad_firmware.py:197-209 | every byte string that is not truncated is the bytes of such a tree, unmatched and unclosed collections included |
| `HidMeaning.WritableIff` | honor_control/backend/touchpad_firmware.py:39-52 | writable if and only if report 0x0E has 57 to 64 input bits and 57 to 64 output bits there |
| `HidScan.FoldIsScan` | honor_control/backend/touchpad_firmware.py:172-222 | after any items the parser accepts, its page, size, identifier and count are those of the last global item with tag 0x0, 0x7, 0x8 and 0x9 that no pop has undone; likewise the pending usage, the open collections, and the bit totals per report |
| `HidScan.ParseIsScan` | honor_control/backend/touchpad_firmware.py:127-242 | for every byte string that is accepted: found, report identifier, sizes and whether it can be read or written are determined by that backward reading of its items |
| `HidScan.ValueByPlace` | honor_control/backend/touchpad_firmware.py:123-124 | an item's value is the sum of payload[i] * 256^i |
| `HidScan.VendorExample` | honor_control/backend/touchpad_firmware.py:127-242 | the touchpad's 18-byte descriptor gives report 0x0E with nine bytes each way, writable |
| `PowerTransaction.VerifyMatches` | honor_control/backend/hardware.py:106-152 | the five flags all hold if and only if every control of every CPU and tree reads as the definition says |
| `PowerTransaction.VerifyFlags` | honor_control/backend/hardware.py:113-152 | each of the five flags holds if and only if its own controls read as the definition says; none does for an empty set of CPUs or trees |
| `PowerTransaction.RetryExact` | honor_control/backend/hardware.py:1478-1485 | on any device a retried write succeeds if and only if one of its allowed tries does; the state is the one after the first success, or after the last try, and no further write is made |
| `PowerTransaction.WriteEppBounds` | honor_control/backend/hardware.py:1470-1486 | writing the preferences makes between one and three writes for each CPU |
| `PowerTransaction.WriteAllExact` | honor_control/backend/hardware.py:1291-1348 | a sequence of verified writes makes every one of them in order, and reports success if and only if each reads back |
| `PowerTransaction.ApplySound` | honor_control/backend/hardware.py:1271-1378 | whatever the device does: applied means every control matches; otherwise a rollback was made and reports success if and only if the controls read as before |
| `PowerTransaction.ChecksMean` | honor_control/backend/hardware.py:1277-1378 | whatever the device does, each flag that is reported to hold is true of the controls as observed |
| `PowerTransaction.MovedAsideFirst` | honor_control/backend/hardware.py:1288-1297 | the governor flag holds only if every governor was first moved to powersave, each write reading back |
| `PowerTransaction.InvalidTouchesNothing` | honor_control/backend/hardware.py:1277-1286 | a definition is refused before anything is touched if and only if it is outside the supported values |
| `PowerTransaction.ApplySucceedsIff` | honor_control/backend/hardware.py:1277-1378 | even if the daemon call disturbs every file, and if preferences are taken only after as many tries as the deadline leaves, an obeying device ends in the definition if and only if its governor is powersave |
| `PowerTransaction.RetriedExample` | honor_control/backend/hardware.py:1478-1485 | a concrete driver that raises on the first preference write: the definition is applied |
| `PowerTransaction.PerformanceRefusedExample` | honor_control/backend/hardware.py:1277-1378 | a concrete driver and valid performance-governor definition that is not applied |
| `PowerTransaction.RestoreExact` | honor_control/backend/hardware.py:1380-1458 | rollback with accepted writes re-establishes the snapshot from any state when no prior governor was performance |
| `PowerTransaction.RestoreMisses` | honor_control/backend/hardware.py:1380-1458 | with a prior performance governor there is an obeying device on which rollback misses |
| `PowerTransaction.RestoreReliableIff` | honor_control/backend/hardware.py:1380-1458 | on devices that take every acceptable write at once, rollback is exact from all states if and only if no prior governor was performance |
| `PowerTransaction.RollbackNotRetried` | honor_control/backend/hardware.py:1422-1432 | for every machine and snapshot there is a device that takes each preference at the second try at the latest, and from which a rollback does not return, which it reports |
| `PowerTransaction.AllOrNothing` | honor_control/backend/hardware.py:1271-1458 | after any misbehaviour before it, rollback on an obeying device leaves exactly the old state or exactly the definition |
| `PowerHardware.PowerAdapter.WriteVerified` | honor_control/backend/hardware.py:1460-1468 | one write and its readback |
| `PowerHardware.PowerAdapter.WriteEachEpp` | honor_control/backend/hardware.py:1470-1486 | preferences with retries, in CPU order |
| `PowerHardware.PowerAdapter.RestoreStatus` | honor_control/backend/hardware.py:1380-1458 | the loops refine `Restore` |
| `PowerHardware.PowerAdapter.ApplyProfile` | honor_control/backend/hardware.py:1271-1378 | the whole transaction refines `Apply` |
| `ChangeNotification.CoverageIsComplete` | honor_control/client/sdbus_client.py:331-371 | whenever the refresh task has ended by coverage, the delivered snapshot is at least as new as every signal so far |
| `ChangeNotification.GivingUpMeansChurn` | honor_control/client/sdbus_client.py:344-371 | giving up after four refreshes means that each of them was overtaken: between its answer and its final check the client received a signal newer than the answer |
| `ChangeNotification.RefreshCoversIff` | honor_control/client/sdbus_client.py:357-371 | a refresh covers if and only if it was not overtaken in that way; an overtaken one is tried again, or given up if and only if it is the fourth |
| `ChangeNotification.NoSignalIsLost` | honor_control/client/sdbus_client.py:331-371 | an idle client has covered every signal, unless it gave up or the request failed |
| `ChangeNotification.ConvergesIff` | honor_control/client/sdbus_client.py:341-371 | once changes stop and signals have arrived, any running refresh settles within two rounds on a snapshot that covers every signal, if and only if it is not a fourth one already overtaken |
| `ChangeNotification.BehindUntilNextChange` | honor_control/client/sdbus_client.py:366-371 | an idle client that has heard every signal changes nothing until the next change, so one that gave up stays behind |
| `ChangeNotification.GivingUpExample` | honor_control/client/sdbus_client.py:319-371 | a concrete run that ends showing sequence 4 after being told of 5, for as long as nothing changes |
| `ChangeNotification.ShownNeverDecreases` | honor_control/frontend/gui/state.py:54-71 | the sequence shown never decreases within one connection |
| `ChangeNotification.CoveredIsShown` | honor_control/frontend/gui/state.py:54-71 | from store to screen: after coverage the view is at least as new as every signal and no newer than the store |
| `ServiceRestart.ShownIsNewest` | honor_control/frontend/gui/state.py:54-63 | within a connection the view shows the newest of what it is handed, and of what it showed before unless it accepts a fresh start |
| `ServiceRestart.FirstIsShown` | honor_control/frontend/gui/state.py:65-71 | the first snapshot after a disconnection is shown, whatever was shown before |
| `ServiceRestart.ReconnectedShows` | honor_control/frontend/gui/controller.py:86-118 | after any history, restarts of the service included, and a reconnection: the view shows the newest snapshot handed to it since, at least the covering reply and never ahead of the store, and exactly the covering reply if nothing else was shown |
| `ServiceRestart.ReconnectedNeverDecreases` | honor_control/frontend/gui/state.py:54-71 | from there on it never goes back until the next disconnection |
| `ServiceRestart.UnnoticedRestartIff` | honor_control/client/sdbus_client.py:319-378 | a restart without a disconnection: the view stays on the old snapshot if and only if it is handed nothing newer |
| `ServiceRestart.RestartExample` | honor_control/client/sdbus_client.py:319-378 | a concrete restart: unnoticed the view still shows 2 when the refresh has covered 1, after a reconnection it shows 1 |
| `NotificationObjects.SnapshotStore.Update` | honor_control/backend/snapshot_store.py:63-86 | an update raises the sequence by one and signals it |
| `NotificationObjects.SnapshotStore.MarkStale` | honor_control/backend/snapshot_store.py:88-106 | marking a domain stale does likewise |
| `NotificationObjects.RefreshClient.QueueSnapshotRefresh` | honor_control/client/sdbus_client.py:331-339 | pending sequence and refresh task change as in the protocol |
| `NotificationObjects.RefreshClient.NotifySnapshot` | honor_control/client/sdbus_client.py:341-378 | the refresh loop takes the protocol's refresh steps |
| `NotificationObjects.GuiState.ShowSnapshot` | honor_control/frontend/gui/state.py:54-63 | older snapshots are ignored |
| `NotificationObjects.GuiState.ShowConnected` | honor_control/frontend/gui/state.py:65-71 | the object's step is `SetConnected`: a disconnection allows one reset |
| `TomlPrinter.DumpTable` | honor_control/backend/config_store.py:728-745 | the recursive appending loop emits exactly the specified lines |
| `TomlPrinter.DumpLaid` | honor_control/backend/config_store.py:728-732 | every header but one on the first line follows a blank line, and blank lines stand nowhere else |
| `TomlPrinter.PrintedReplays` | honor_control/backend/config_store.py:718-747 | replaying the lines under the current-table rule rebuilds the nested dictionary at any depth, with no header and no key emitted twice |
| `ServiceConfig.ReadEach` | honor_control/backend/config_store.py:265-325 | the loops that fill a dictionary read every entry by its rule, or fail if one cannot be read |
| `ServiceConfig.ReadSettings` | honor_control/backend/config_store.py:331-346 | touchpad settings under canonical names, the later of two spellings winning |
| `ServiceConfig.StateRoundTripIff` | honor_control/backend/config_store.py:178-364 | state to dictionary and back is the identity if and only if the state is valid and has the three built-ins |
| `ServiceConfig.VersionIff` | honor_control/backend/config_store.py:233-249 | a document is refused as newer if and only if its version is a number above 3, and as invalid if it is no number or below 1; without one it is read as version 1 |
| `ServiceConfig.DocumentKeys` | honor_control/backend/config_store.py:160-182 | the key of every section in the file |
| `ServiceConfig.SectionTables` | honor_control/backend/config_store.py:111-151 | the keys of the power, fan, gesture and touchpad sections |
| `ServiceConfig.BatteryKeys` | honor_control/backend/config_store.py:59-65 | the keys of the battery section |
| `ServiceConfig.AutoKeys` | honor_control/backend/config_store.py:68-76 | the keys of the automatic switch: mains and battery each with its own profile and script |
| `ServiceConfig.ProfileKeys` | honor_control/backend/config_store.py:79-91 | the keys of a profile |
| `ServiceConfig.MappingKeys` | honor_control/backend/config_store.py:130-135 | the keys of a gesture |
| `ServiceConfig.EmptyEntries` | honor_control/backend/config_store.py:265-283 | what a profile or gesture table with nothing in it stands for |
| `ServiceConfig.PrintedStateReadsBack` | honor_control/backend/config_store.py:178-747 | through the printed lines as well |
| `ServiceConfig.EveryStatePrints` | honor_control/backend/config_store.py:178-747 | such a listing exists for every valid state with the built-ins |
| `ServiceConfig.WithoutBuiltInsExample` | honor_control/backend/config_store.py:265-283 | a valid state without built-in profiles that does not come back |
| `ServiceConfig.EmptyDocumentIsDefault` | honor_control/backend/config_store.py:185-364 | an empty document reads as the default state |
| `ServiceConfig.UnknownKeyIgnored` | honor_control/backend/config_store.py:185-190 | a top-level key outside the schema never changes the result |
| `ServiceConfig.UnknownSectionKeyIgnored` | honor_control/backend/config_store.py:185-190 | nor does a key outside the schema in any of the six sections |
| `ServiceConfig.CleanedIdentifier` | honor_control/core/validation.py:339-355 | cleaning a profile name yields an identifier and leaves identifiers alone |
| `ServiceConfig.DefaultValid` | honor_control/backend/config_store.py:94-175 | the default state is valid |
| `ConfigStore.WrittenReads` | honor_control/backend/config_store.py:491-532 | a saved document reads back as its state if and only if that is valid and has the built-ins |
| `ConfigStore.MemoryAlwaysValid` | honor_control/backend/config_store.py:408-532 | over every run of loads, reloads, updates, failures, restarts and damage to either file, memory is valid |
| `ConfigStore.BackupStaysGood` | honor_control/backend/config_store.py:495-504 | a readable backup is only ever replaced by a readable one |
| `ConfigStore.FailedUpdate` | honor_control/backend/config_store.py:459-532 | a failed update leaves memory alone; the primary holds the new document if and only if only the directory was lost |
| `ConfigStore.SuccessfulUpdate` | honor_control/backend/config_store.py:459-489 | after success memory is the new state, the backup is the former primary if that could be read and copied, and disk equals memory if and only if the new state has the built-ins |
| `ConfigStore.WithoutBuiltInsDiverges` | honor_control/backend/config_store.py:459-489 | a concrete successful update after which the file says something else |
| `ConfigStore.ValidMeansInSync` | honor_control/backend/config_store.py:408-532 | over every run without outside damage, a store that calls itself valid agrees with its file |
| `ConfigStore.RecoversBackup` | honor_control/backend/config_store.py:427-457 | a fresh process with a damaged primary starts from the backup, degraded |
| `ConfigStore.RecoversPreviousSave` | honor_control/backend/config_store.py:427-532 | after two saves, losing the second file brings back the first state |
| `ConfigStore.RestartFinds` | honor_control/backend/config_store.py:427-532 | what a restart finds after each way a save can end |
| `ConfigStore.DirectoryLostExample` | honor_control/backend/config_store.py:541-549 | a concrete update, refused because the directory cannot be opened after the new file is in place, that a restart finds |
| `ConfigStore.MissingMeansDefaults` | honor_control/backend/config_store.py:430-435 | a missing primary means defaults even beside a good backup |
| `ConfigStore.ReloadKeepsLive` | honor_control/backend/config_store.py:417-457 | a damaged primary never replaces a live state |
| `ConfigStore.LiveNeverFromBackup` | honor_control/backend/config_store.py:417-457 | over every run until a restart, a store that has loaded behaves the same whatever its backup holds |
| `ConfigStore.Config.LoadFile` | honor_control/backend/config_store.py:427-457 | the object's load refines the specified one |
| `ConfigStore.Config.SaveAtomic` | honor_control/backend/config_store.py:491-532 | which file holds what after each way a save can end |
| `ConfigStore.Config.UpdateState` | honor_control/backend/config_store.py:459-489 | validate, save, then adopt: refines the step `Update` |
| `ProfileRegistry.Lookup` | honor_control/core/validation.py:358-369 | a name is accepted if and only if its cleaned form is registered, and is returned in that form |
| `ProfileRegistry.RunsStayIntact` | honor_control/backend/application.py:462-859 | from the default state, every run of save, delete, select, auto-switch and curve calls keeps the built-ins, all references and all curve keys registered, and curve texts canonical |
| `ProfileRegistry.ReferencesApply` | honor_control/backend/application.py:470-493 | after every run, the selected profile and those of the automatic switch are stored under that very name, and the hardware's own validation accepts them |
| `ProfileRegistry.SelectStores` | honor_control/backend/application.py:463-468 | selecting is accepted if and only if the name is registered, stores that name, and changes nothing else |
| `ProfileRegistry.AutoSwitchStores` | honor_control/backend/application.py:593-779 | the policy is accepted if and only if both profiles are registered and the scripts may run; mains and battery parts are stored as such; switching on or off changes only that |
| `ProfileRegistry.SaveStores` | honor_control/backend/application.py:622-684 | a definition is stored under its cleaned name with stripped texts, and no other profile changes |
| `ProfileRegistry.CurveStores` | honor_control/backend/application.py:782-859 | a curve is accepted if and only if it reads, its profile is known and the fan is writable; what is stored means the same points and no other curve changes; stock mode keeps every curve |
| `ProfileRegistry.DeletableIff` | honor_control/backend/application.py:686-709 | the deletion check and the store's validation agree: a custom profile can go if and only if nothing refers to it |
| `ProfileRegistry.DeletedLeavesNothing` | honor_control/backend/application.py:710-729 | deletion removes the profile and its curve, and nothing else |
| `ProfileRegistry.ReferenceIsKeyIff` | honor_control/backend/config_store.py:591-663 | in any valid state with identifier keys, a stored reference is a key if and only if it is written as an identifier |
| `ProfileRegistry.HandEditedMisses` | honor_control/backend/config_store.py:643-643 | a valid, loadable state whose selected profile is not a key |
| `ProfileRegistry.Perform` | honor_control/backend/application.py:462-859 | a use case against the store: memory is the committed state, and success means the file says the same |
| `TouchpadSettings.NameParses` | honor_control/core/touchpad.py:159-184 | every public name is read as its own setting |
| `TouchpadSettings.ParseValue` | honor_control/core/touchpad.py:187-232 | accepted values are in range and integers in range are themselves |
| `TouchpadSettings.TextValueParses` | honor_control/core/touchpad.py:187-232 | decimal text and labels are read as their value |
| `TouchpadSettings.SwitchWords` | honor_control/core/touchpad.py:187-232 | truth values and their words are 1 and 0 for every setting of two values, and refused for vibration |
| `TouchpadSettings.LabelTable` | honor_control/core/touchpad.py:64-79 | the value of each label |
| `TouchpadSettings.AliasTable` | honor_control/core/touchpad.py:159-184 | the setting each registry name stands for |
| `TouchpadSettings.ReportTable` | honor_control/core/touchpad.py:64-152 | the report bytes of every setting |
| `TouchpadSettings.ReportsIdentify` | honor_control/core/touchpad.py:235-253 | a report belongs to one setting and one value |
| `TouchpadBatch.NormalizeItems` | honor_control/backend/touchpad_firmware.py:502-511 | the normalisation loop: all or nothing, duplicates refused |
| `TouchpadBatch.OrderIrrelevant` | honor_control/backend/touchpad_firmware.py:495-519 | the order of the settings map does not matter |
| `TouchpadBatch.CanonicalAgain` | honor_control/backend/application.py:1220-1229 | normalising a normalised profile changes nothing |
| `TouchpadBatch.TimestampCarries` | honor_control/core/touchpad.py:256-264 | the clock report is refused outside five bytes and otherwise carries the time |
| `TouchpadBatch.WriteReports` | honor_control/backend/touchpad_firmware.py:515-562 | the accepted reports are the prefix of clock and flattened declaration-ordered reports up to the first refused write; count, total and completed settings follow from it |
| `TouchpadBatch.ApplySettings` | honor_control/backend/touchpad_firmware.py:487-562 | refused before opening if and only if the profile is invalid or empty, otherwise as above |
| `TouchpadBatch.CompletedIff` | honor_control/backend/touchpad_firmware.py:525-553 | a setting is completed if and only if all its reports were accepted |
| `TouchpadBatch.ApplyTouchpad` | honor_control/backend/application.py:1210-1330 | the use case, every reply exactly: bad argument if and only if the profile is empty or does not normalise, unavailable if and only if it does and the device is not there, applied or not persisted if and only if every report was accepted, by whether it could be saved, partial if and only if some were, failed otherwise; and the desired state after each |
| `TouchpadBatch.SavedIffAccepted` | honor_control/backend/application.py:1241-1312 | a setting's desired value changes if and only if all its reports were accepted |
| `FanCurve.ValidateCurvePoints` | honor_control/core/validation.py:140-199 | accepts exactly the valid curves, unchanged, and otherwise names the first defect in the order of the checks |
| `FanCurve.ValidCurveIff` | honor_control/core/validation.py:140-199 | a curve is valid if and only if it has 2 to 12 points from 40 to 100 degrees and 0 to 100 per cent, full speed from 95 degrees, and of any two points the later is hotter and not slower |
| `FanCurve.CurveShape` | honor_control/backend/application.py:2337-2345 | constant outside, and inside any segment the nearest integer to the line, ties to even |
| `FanCurve.TargetMonotone` | honor_control/backend/application.py:2085-2085 | the target never falls as temperature rises, over segment boundaries and the override, and stays between the first speed and 100 |
| `FanCurve.KnotsExact` | honor_control/backend/application.py:2337-2345 | every knot is hit exactly |
| `FanCurve.InterpolationsAgree` | honor_control/core/validation.py:207-226 | in exact arithmetic the divide-first interpolation is the same function on every rising curve |
| `FanCurveText.ParseCurve` | honor_control/core/validation.py:110-137 | the points a text means, the first bad segment, or the first defect |
| `FanCurveText.PointReadIff` | honor_control/core/validation.py:107-107 | a segment is read as a point if and only if it matches the pattern, with the matched numbers |
| `FanCurveText.ValueByPlace` | honor_control/core/validation.py:110-137 | digits count from the left by their powers of ten |
| `FanCurveText.CurveTextExample` | honor_control/core/validation.py:110-204 | a concrete text and its points, both ways |
| `FanCurveText.FormatThenParse` | honor_control/core/validation.py:202-204 | parsing the text of a valid curve gives the curve |
| `FanCurveText.ParseThenFormat` | honor_control/core/validation.py:110-204 | parse-then-format is stable after one pass, and texts are formatted alike if and only if they mean the same |
| `FanControllers.CleanRunsTrack` | honor_control/backend/application.py:2062-2097 | the abstract controller, from any state in step: without refused writes or interference it holds the last written speed, within 2 points of the target (at least 98 when hot), and writes differ by at least 3 |
| `FanControllers.StaleIff` | honor_control/backend/application.py:2086-2098 | a successful poll of the abstract controller from any state: whether it writes, and whether speed and record agree afterwards |
| `FanControllers.ThreeStrikes` | honor_control/backend/application.py:2111-2145 | the loop gives up at exactly the third failed poll, whether by sensor, text or refused write; skipped wake-ups neither count nor clear, a success clears |
| `FanCurveLoop.CurveLoop` | honor_control/backend/application.py:2036-2145 | the loop over the service object, give-up and its restoration included, refines `LoopRun` |
| `FanCurveLoop.TurnSimulates` | honor_control/backend/application.py:2036-2145 | one turn with its hardware commands is one or two steps of the abstract controller, with the state of the EC read off the hardware trace |
| `FanCurveLoop.CurveLoopIsController` | honor_control/backend/application.py:2036-2145 | so every run of the loop over the queue, among all other fan use cases, is the run of the abstract controller on exactly what the loop observed |
| `FanCurveLoop.CleanLoopTracks` | honor_control/backend/application.py:2062-2097 | every run of the loop over the queue without interference: the speeds on the wire are exactly its writes, at least 3 apart; the EC, read off the hardware trace, holds the last of them, and after a wake-up whose read returned is within 2 points of the target, at least 98 when hot |
| `FanCurveLoop.CoolRunIsClean` | honor_control/backend/application.py:2062-2097 | there are such runs |
| `FanCurveLoop.StaleIff` | honor_control/backend/application.py:2086-2098 | a wake-up that reports success: the EC holds the speed the loop believes if and only if it did before, or the loop had no belief, or the target was far enough from it |
| `FanCurveLoop.ResumingWrites` | honor_control/backend/application.py:2041-2056 | the first successful wake-up after one at which the loop stood back writes the target and puts it into effect |
| `FanCurveLoop.FailedWriteMeansStock` | honor_control/backend/application.py:2092-2114 | after a failed write the last speed is kept, and either the next wake-up is passed over, which clears it, or the EC is in stock auto |
| `FanCurveLoop.StockAutoUnnoticed` | honor_control/backend/application.py:2065-2098 | two concrete runs over the queue that report success while the EC is in stock auto and nothing is on record |
| `FanWatchdog.Preflight` | honor_control/backend/application.py:870-899 | a manual speed is admitted if and only if it is 0 to 100, the lifetime 0 to 900, the temperature believable, and it is 100 from 95 °C and at least 80 from 90 °C; no temperature is told from a bad argument; a lifetime of 0 means 300 |
| `FanWatchdog.Sleep` | honor_control/backend/application.py:2156-2161 | no sleep is longer than two seconds or goes past the deadline, but for oversleeping |
| `FanWatchdog.PollSpeeds` | honor_control/backend/application.py:2163-2199 | a poll after which the watchdog goes on has put on the wire exactly the speed it reports, or none |
| `FanWatchdog.ManualFanExpiry` | honor_control/backend/application.py:2147-2210 | the loop over the service object terminates by the remaining time and refines `Session`, restorations included |
| `FanWatchdog.SessionSafe` | honor_control/backend/application.py:2154-2210 | from any point of a session: the speeds on the wire only rise, each poll meets its floor, wake-ups are bounded by the remaining time, and every end but shutdown and cancellation accounts for stock auto |
| `FanWatchdog.ManualSessionSafe` | honor_control/backend/application.py:879-926 | every override that is admitted and started: the speed the controller last accepted is the target, 100 from 95 °C and at least 80 from 90 °C after each poll, at most 450 wake-ups, and every end but shutdown and cancellation leaves stock auto confirmed, pending or an error on record |
| `BatteryThresholds.InOrderThroughoutIff` | honor_control/backend/hardware.py:1160-1178 | every intermediate pair is in order if and only if start was readable, or end is not lowered below it, or the first write is refused |
| `BatteryThresholds.UnreadableStartExample` | honor_control/backend/hardware.py:1166-1176 | 90/85 to 60/55 with an unreadable start passes through 60/85 |
| `BatteryThresholds.ConfirmedMeansWritten` | honor_control/backend/hardware.py:1177-1192 | the three flags together mean both thresholds read as requested |
| `BatteryThresholds.FlagsMean` | honor_control/backend/hardware.py:1160-1192 | each flag says whether its own threshold moved, and start moves first if and only if it was read and end is to fall below it |
| `BatteryThresholds.UseCaseInOrderIff` | honor_control/backend/application.py:367-452 | through write, failure and rollback start never exceeds end if and only if the order of both writes is safe |
| `BatteryThresholds.UseCaseOutcome` | honor_control/backend/application.py:367-452 | success only with matching readback; desired state changes exactly then; rollback restores the remembered pair |
| `BatteryThresholds.AnswerIff` | honor_control/backend/application.py:367-452 | which answer is given: bad argument outside 40 to 100 or closer than 5, unavailable, applied or not persisted if and only if both writes are confirmed, failed if and only if the first is refused, partial otherwise, rolled back if and only if the remembered pair reads back |
| `BatteryThresholds.DeriveMode` | honor_control/core/models.py:72-85 | the mode is the one whose preset is the pair, or custom |
| `BatteryThresholds.ChargeControl.WriteThresholds` | honor_control/backend/hardware.py:1160-1195 | the adapter call refines the specified sequence of states and flags |
| `BatteryThresholds.ChargeControl.Set` | honor_control/backend/application.py:367-452 | the use case refines `SetThresholds` |

## Left out

- D-Bus transport, polkit, the command line, the service entry point, Qt pages, tray and widgets.
- Wire codec and snapshot decoding: long field-by-field mapping that would add only easy members.
- Transition-hook subprocesses and script ownership checks; whether a hook passes them is an input.
- Sysfs, DMI and hidraw discovery, ACPI call parsing, uinput: fallible reads and writes stand for them.
- GPU mitigation, gesture runtime, diagnostics, support-report decoding: no hard property.
- The supervisor's health records: whether the watchdog starts is an input of `set_fan_manual`, and its
  five-second limit on a clean-up is a cancellation in the schedule.
- Command queue: one live event loop, and nobody cancels the poison future.
- Fan layer: sections under the mutation lock and `_refresh_fan` are atomic, so a recovery task whose
  future is done has resumed before the next fan command ends; stopping an earlier watchdog is a
  clean-up step of its own; a cancellation of the caller between an accepted speed and the start of the
  watchdog, and a second one of the shielded restoration, are not modelled.
- FanRuns.FanRunHonestIff: while a cancelled watchdog poll, or a cancelled temperature read or give-up of
  the curve loop, waits for the supervisor's clean-up, its speed counts as still in control; that the
  clean-up follows is assumed, and what it leaves is its own operation.
- FanCurveLoop.CurveLoopIsController: speaks of runs in which no command adopts a foreign poison.
- Power: reads never fail, the capability and platform gates are not modelled, and nobody else
  writes the controls, so the brief cache of the daemon's profile is not modelled.
- Notification: a reconnection is one step, which ends the old client's refresh and its other fetches;
  what the worker's backoff and its fifteen-second check do to the time in between is not modelled.
- TomlPrinter.PrintedReplays: lines carry keys and scalars as values, so the escaping of strings is
  not modelled; floats and arrays do not occur in the state.
- Text: only ASCII digits and ASCII letter case; Python's limit on the length of integer texts is
  not modelled.
- ServiceConfig.UnknownSectionKeyIgnored: unknown keys inside one profile, gesture or auto-switch table
  are not covered.
- ConfigStore: copying the backup and replacing the file are atomic; importing a dictionary is not
  modelled.
- ConfigStore.BackupStaysGood: speaks of the store's own steps; outside damage to the backup is excluded.
- ProfileRegistry: a profile counts as selected once the hardware has applied it; refreshing the
  snapshot afterwards is not modelled.
- Touchpad: queue timeouts during a batch, and the device's reopening.
- FanCurve.InterpolationsAgree: exact arithmetic; the source divides floating-point numbers.
- FanWatchdog.ManualFanExpiry: time is in whole milliseconds.
- FanControllers.CleanRunsTrack: cannot promise exactly 100 when hot, since the source's hysteresis
  keeps 98 or 99.
- BatteryThresholds.InOrderThroughoutIff: assumes that an accepted write stores its value.
- BatteryThresholds.UseCaseInOrderIff: likewise.
