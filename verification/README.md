# Verification of the block agent's stateful cores

The block agent sits between a machine's PLC and its HMI. This project models the
parts of it that keep state over time and proves what they promise, with Dafny 4.11:

    dafny verify --resource-limit 2000000 --verification-time-limit 0 dfyconfig.toml

What is proved, by core:

- **Command pipeline** (`Contract`, `CommandResults`, `CommandStore`, `StoreTheorems`,
  `CommandQueue`, `CommandRuns`, `CommandTheorems`, `CommandSimulator`). The idempotent protocol begin,
  check, call, answer, read back, confirm, complete is a step system with crashes at every
  point (also between a call and its answer), restarts, transactions that fail and
  transactions whose acknowledgement is lost, interleaved with sampling. The class `Queue`
  runs the agent's code and is proved to take only these steps; the class `Store` holds
  the tables. The theorems hold in every state of every run, and every stored result has
  its cause in it.
- **Simulator engine** (`Engine*`). The production line with its catch-up loop,
  revision-guarded commands, injected faults and derived alarms: when each operation takes
  effect and exactly what it changes (`EngineEffects`), and over all its runs
  conservation of parts, safety interlocks, the revision ledger, replay and independence
  from sampling times. It is also the concrete device of the pipeline: its executed commands always
  pass the agent's confirmation.
- **PLC worker** (`ScanPlan`, `PointValues`, `Float32`, `Scan`, `ScanTheorems`, `ScanEntries`, `PlcWorker`,
  `CommandFifo`, `WriteReadBack`). The greedy request plan is legal, complete, ordered
  and minimal; the batched scan refines point-by-point reads; values follow the latest
  good read through errors and disconnects; the bounded queue answers every admitted
  command exactly once through any shutdown.
- **Alarm history** (`AlarmEdges`, `AlarmRuns`, `AlarmChanges`). The delta filter in front of the edge
  detector does not change any alarm's history on valid updates, and exactly when it
  does on refused ones.
- **Wire codecs and the replay table** (`Octets`, `Bits`, `Modbus*`, `Mqtt*`, `Nonce`).
  Modbus TCP end to end with losses and fallbacks (MODBUS Application Protocol
  Specification V1.1b3, sections 6.3, 6.6, 6.12 and 6.16), MQTT framing over a stream in
  arbitrary pieces (MQTT Version 5.0, sections 1.5.4, 1.5.5 and 3.3), and single use of
  signed tokens by overlapping requests.

How it is modelled: instants are integers and 0 is Go's zero time. A transaction is one
atomic step with an outcome (`Committed`, `Lost` or `Failed`, `Unacknowledged`); a state
file write is a boolean. The command fingerprint is the canonical tuple itself. The
inspection verdict is an arbitrary predicate of the inspection index. A float32 is its
32-bit pattern and a float64 is an integer times a power of two; equality is that of
numbers, with NaN equal to nothing. Go maps that are iterated become sequences in an arbitrary visiting
order, or sets from which any element is taken next. Clocks, device answers, lost
connections and the sizes in which a stream arrives are inputs or nondeterministic.

Where the code does not do what one would expect, the exact condition is proved:

- A manual `inspect` does not look at the reject bin's capacity. A full bin can overflow,
  and the state file is then refused at the next start-up
  (`PlcSimTheorems.RejectBinOverflowsExactlyWhen`, `RejectBinFitsFromStart`,
  `RestartsExactlyWhenRejectBinFits`, `PlcSimWitness.ManualInspectionsOverflowTheRejectBin`).
- An alarm on an int16, uint16 or int32 point can never activate, because the decoded
  value and the configured value have different dynamic types, and neither can one on a
  float32 point whose alarm value is not exactly a float32, such as 0.1
  (`PointValues.AlarmCanActivateExactlyWhen`, `AnAlarmAtATenthNeverActivates`).
- `pointstore.Update` keeps what it stored before an entry it refuses, such as a NaN, but
  reports none of it; an alarm edge in that part is lost
  (`AlarmRuns.RefusedBatchLosesAnEdgeExactlyWhen`).
- `writePacket` accepts payloads of 2^28 bytes and more, which no reader can read back
  (`Mqtt.PacketIsReadBackExactlyWhen`).
- The replay table needs a clock that does not go back and requests that reach it in the
  order they read the clock. Requests overlap, and one that read the clock later can purge
  the row a waiting replay would have met; the token is then accepted twice
  (`Nonce.AReplayIsAcceptedExactlyWhenOvertaken`, `AnOvertakenReplayIsAccepted`,
  `ABackwardsClockAcceptsAReplay`, `RowsExpireWithinTwoWindowsExactlyWhen`).
- The read-modify-write fallback for FC22 loses what another writer does to the same word
  between its two requests (`ModbusClient.Client.ReadModifyWrite`, `FallbackLosesAWrite`).

## Model

| member | source | states |
|---|---|---|
| `Contract.CommandIdentity` | services/block-agent/internal/plccontract/types.go:127-152 | normalizing is idempotent, and two commands normalize to one command exactly when their trimmed ids and their fingerprints agree |
| `Contract.TrimSpaceTakesOnlySpaces` | services/block-agent/internal/plccontract/types.go:127-131 | trimming takes spaces from both ends and nothing else |
| `CommandResults.ValidatedResult` | services/block-agent/internal/command/queue.go:230-253 | the device's answer is kept exactly when it names this command by id and name and is terminal; anything else becomes an UNKNOWN result of this command |
| `CommandResults.EnsureResultCode` | services/block-agent/internal/command/queue.go:311-323 | a given code is kept, a missing one is filled for every terminal result other than EXECUTED, and nothing else changes |
| `CommandResults.ConfirmedExactlyWhenEffective` | services/block-agent/internal/command/queue.go:325-378 | a reading confirms an answer exactly when it shows the answered revision, not 0, and for each command name its own effect |
| `CommandResults.MessagesTellStatusAndReason` | services/block-agent/internal/command/queue.go:380-411 | the message of a command that was not executed is its status, with the reason if there is one |
| `CommandStore.Store.BeginCommand` | services/block-agent/internal/storage/store.go:476-508 | a first submission creates one PENDING record; a known id answers its stored result or a conflict and writes nothing; a failed commit answers an error |
| `CommandStore.Store.CompleteCommand` | services/block-agent/internal/storage/store.go:514-650 | record, snapshot, operation row and audit row change together or not at all; a repeat of a stored completion writes nothing; anything else that is not PENDING is refused |
| `CommandStore.Store.SavePLC` | services/block-agent/internal/storage/store.go:299-327 | the code computes the merge, whose cases StoreTheorems.ASampleIsStoredExactlyWhen tells; a failed transaction answers an error |
| `CommandStore.Store.MarkStale` | services/block-agent/internal/storage/store.go:446-474 | the stored snapshot is kept and marked stale and availability is withdrawn with the given code; a failed transaction withdraws it as BACKEND_UNAVAILABLE, unless there was no snapshot to mark |
| `CommandStore.CloseAllPending` | services/block-agent/internal/storage/store.go:675-745 | whatever the visiting order, every PENDING record and no other becomes UNKNOWN with one operation and one audit row |
| `CommandStore.Store.RecoverPending` | services/block-agent/internal/storage/store.go:675-750 | start-up recovery: on commit nothing is left PENDING, on a failure nothing changed |
| `StoreTheorems.MergedExactlyWhen` | services/block-agent/internal/storage/store.go:420-444 | a reading is malformed, refused as late, or merged, each exactly in its own case: it is late exactly when storing it would move revision, sequence or source time back |
| `StoreTheorems.ASampleIsStoredExactlyWhen` | services/block-agent/internal/storage/store.go:299-327 | with a committed transaction a sample is stored exactly when it is well formed and not before what is stored; then session, sequence, revision, instants, quality and connection are its own, it is stale unless fresh and good at its receipt, and availability follows it; otherwise nothing changes |
| `StoreTheorems.ASampleMayBeStoredUnacknowledged` | services/block-agent/internal/storage/store.go:299-327 | a failing transaction answers an error and withdraws availability; the sample is stored only if its commit happened |
| `StoreTheorems.MarkingStaleWithdraws` | services/block-agent/internal/storage/store.go:446-474 | the stored snapshot's fields stay and it is marked stale unless the transaction failed; availability is withdrawn with the given code, or as backend_unavailable for a failure while there is a snapshot to mark |
| `StoreTheorems.ACommandBeginsExactlyWhen` | services/block-agent/internal/storage/store.go:476-508 | with a committed transaction a new id gets a PENDING record, a known id with the same content its stored result, and one with other content a conflict, each exactly then |
| `StoreTheorems.ACommandMayBeginUnacknowledged` | services/block-agent/internal/storage/store.go:476-508 | a failing transaction of a new id answers an error; the PENDING record is there only if its commit happened |
| `StoreTheorems.ACompletionIsStoredExactlyWhen` | services/block-agent/internal/storage/store.go:514-650 | a pending record is completed exactly with a terminal result and no malformed readback: the record, one operation row and one audit row are written, and the readback replaces the stored snapshot exactly when it is not before it |
| `StoreTheorems.HealthAfterCompletion` | services/block-agent/internal/storage/store.go:590-650 | availability follows a readback that was stored, and is otherwise left alone |
| `StoreTheorems.ARepeatedCompletionSucceedsExactlyWhen` | services/block-agent/internal/storage/store.go:530-573 | on a record that is not pending a completion writes nothing and succeeds exactly when it repeats the stored id, name and status |
| `CommandQueue.Queue.Submit` | services/block-agent/internal/command/queue.go:77-122 | a living queue answers one outcome; a queue that ended after a fatal persistence error answers an error and changes nothing |
| `CommandQueue.Queue.Process` | services/block-agent/internal/command/queue.go:124-196 | every request drives the system only by steps of the step system, and an answer is what the run's last reply says |
| `CommandQueue.Queue.Begin` | services/block-agent/internal/command/queue.go:128-148 | the durable record comes first: new, replayed, conflicting or fatal |
| `CommandQueue.Queue.CommandAvailability` | services/block-agent/internal/command/queue.go:198-228 | one readiness step on the stored snapshot and the clock decides: ready, or persisted as REJECTED with the code and reason of the case |
| `CommandQueue.Queue.ExecuteAndRead` | services/block-agent/internal/command/queue.go:165-192 | one call is started and answered, and exactly one reading follows if it answered EXECUTED; what is persisted is what CommandTheorems.AReadingDecidesTheOutcome tells |
| `CommandQueue.Queue.PersistOutcome` | services/block-agent/internal/command/queue.go:277-300 | completion is attempted until the first acknowledged attempt; only after every attempt before the deadline failed it gives up, and only that is fatal |
| `CommandQueue.Queue.TryComplete` | services/block-agent/internal/command/queue.go:280-283 | one attempt is one step and is acknowledged exactly when the store answers without an error |
| `CommandRuns.StepKeeps` | services/block-agent/internal/command/queue.go:124-300 | every step, crashes and lost acknowledgements included, keeps the whole pipeline invariant |
| `CommandRuns.RecordsRecovered` | services/block-agent/internal/storage/store.go:675-750 | recovery keeps the evidence and replies of every record it does not close |
| `CommandTheorems.EveryRunIsSafe` | services/block-agent/internal/command/queue.go:124-300 | the invariant holds in every state of every run from an empty database |
| `CommandTheorems.EachCommandIsSentAtMostOnce` | services/block-agent/internal/command/queue.go:124-167 | in every run at most one device call is started for each commandId, calls that a crash cuts short included |
| `CommandTheorems.EachCommandExecutesAtMostOnce` | services/block-agent/internal/command/queue.go:124-196 | in every run the device answers each commandId at most once, and each answer directly follows the start of its own call |
| `CommandTheorems.ExecutedMeansAnsweredAndConfirmed` | services/block-agent/internal/command/queue.go:165-196 | a record is stored EXECUTED only with an answer of the device for the same id and name and, after that answer, a reading that passed confirm |
| `CommandTheorems.AReadingDecidesTheOutcome` | services/block-agent/internal/command/queue.go:165-192 | in every run, after the reading the result to persist is EXECUTED exactly when the reading came and confirms, UNKNOWN/command_outcome_unknown exactly when it failed, and FAILED/readback_failed exactly when it came and does not confirm |
| `CommandTheorems.ExecutedAnswersEndAsTheyWereRead` | services/block-agent/internal/command/queue.go:165-196 | in every run a stored command whose device answer was EXECUTED is EXECUTED with a later confirming reading, FAILED/readback_failed with a later reading that does not confirm, UNKNOWN/command_outcome_unknown with a later reading that failed, or closed by recovery |
| `CommandTheorems.EveryStoredResultIsExplained` | services/block-agent/internal/command/queue.go:124-196 | in every run a terminal record was closed by recovery, REJECTED without the device being called, or holds what the one answer of the device became: itself with a code, UNKNOWN if it was not for this command or not final, or what its reading made of it |
| `CommandTheorems.ReadyExactlyWhenFresh` | services/block-agent/internal/command/queue.go:198-228 | a command is made ready exactly when the stored snapshot is available, connected, GOOD and fresh; otherwise it is REJECTED with the code of the first of these that fails, and availability is withdrawn with it |
| `CommandTheorems.RepliesAreStoredResultsOrConflicts` | services/block-agent/internal/command/queue.go:124-148 | in every run a reply is the stored final result of the same command, or idempotency_conflict for other content under its id |
| `CommandTheorems.TerminalCommandsHaveExactlyOneRow` | services/block-agent/internal/storage/store.go:514-650 | a terminal record has exactly one operation and one audit row, with its outcome; a pending or unknown id has none |
| `CommandTheorems.DeviceIsCalledOnlyAfterAFreshCheck` | services/block-agent/internal/command/queue.go:155-166 | even if samples were taken without the lock, a command is sent only after a check, made after its admission, that found the stored snapshot connected, GOOD and younger than the limit |
| `CommandTheorems.TheCheckedSnapshotIsStoredAtTheCall` | services/block-agent/internal/adapter/adapter.go:27-44 | when samples are taken under the coordinator's lock, the call directly follows its check and the snapshot that was checked is the stored one at the call |
| `CommandTheorems.TerminalResultsAreFinal` | services/block-agent/internal/storage/store.go:540-560 | a terminal record never changes in any later state, and nothing observed is taken back |
| `CommandTheorems.RepliesAgree` | services/block-agent/internal/command/queue.go:141-148 | any two replies for the same command carry the same result, across crashes and restarts |
| `CommandTheorems.NoPendingSurvivesRestart` | services/block-agent/internal/storage/store.go:675-750 | after a successful restart no record is PENDING, and each that was is UNKNOWN with one operation row |
| `CommandTheorems.RetryAfterLostAcknowledgement` | services/block-agent/internal/storage/store.go:546-573 | repeating a completion whose commit was not acknowledged succeeds, changes no table and answers the stored snapshot |
| `CommandTheorems.StepNotBefore` | services/block-agent/internal/storage/store.go:420-474 | no step, late readback or late sample replaces the stored snapshot by an older one, by all three merge rules |
| `CommandTheorems.RevisionNeverDecreases` | services/block-agent/internal/storage/store.go:420-444 | over every run the persisted control revision never decreases |
| `CommandTheorems.SessionNeverGoesBack` | services/block-agent/internal/storage/store.go:420-444 | between snapshots of one session (revision, sample sequence) never decreases lexicographically |
| `PlcSim.Engine.Open` | services/block-agent/internal/plcsim/engine.go:44-80 | start-up refuses an invalid file, else opens it under a new session; nothing is adopted unless persisted |
| `PlcSim.Engine.Tick` | services/block-agent/internal/plcsim/engine.go:148-180 | one sample: frozen data stays, otherwise the candidate is adopted only when valid and persisted |
| `PlcSim.Engine.ProduceDue` | services/block-agent/internal/plcsim/engine.go:163-168 | the catch-up loop ends and produces every part that is due |
| `PlcSim.Engine.ApplyCommand` | services/block-agent/internal/plcsim/engine.go:182-200 | validation, replay and conflict answer without a change; only a new id is decided |
| `PlcSim.Engine.ApplyNew` | services/block-agent/internal/plcsim/engine.go:198-261 | the refusals in order, the decision, and one persisted candidate with the recorded result |
| `PlcSim.Engine.SetFault` | services/block-agent/internal/plcsim/engine.go:338-384 | fault requests are validated, and a fault takes effect only when persisted |
| `PlcSim.Engine.RestartSession` | services/block-agent/internal/plcsim/engine.go:386-410 | a new session resets the sample sequence and reschedules a line that can produce |
| `PlcSimAlarms.FindIsTheLast` | services/block-agent/internal/plcsim/engine.go:430-434 | of several alarms with one id the map keeps the last, and it has none exactly when no alarm has the id |
| `PlcSim.Engine.Acknowledge` | services/block-agent/internal/plcsim/engine.go:311-322 | the loop marks every active alarm of the id and finds one exactly when there is one |
| `PlcSimAlarms.FindAcknowledged` | services/block-agent/internal/plcsim/engine.go:311-322 | after acknowledging, looking up the id finds the same alarm as before, acknowledged |
| `PlcSimAlarms.RefreshIsIdempotent` | services/block-agent/internal/plcsim/engine.go:429-465 | deriving bins and alarms twice is deriving them once |
| `PlcSimAlarms.QuietedStays` | services/block-agent/internal/plcsim/engine.go:454-465 | an acknowledged alarm whose condition persists stays acknowledged when alarms are derived again |
| `PlcSimRuns.CatchUpKeeps` | services/block-agent/internal/plcsim/engine.go:148-180 | catching up any number of parts keeps the counters sound, the parts conserved and the reject bin within capacity |
| `PlcSimRuns.ApplyActionKeeps` | services/block-agent/internal/plcsim/engine.go:263-326 | every accepted command keeps the counters sound; only inspection can push the reject bin over, only clear_bins can break conservation |
| `PlcSimRuns.DecisionInv` | services/block-agent/internal/plcsim/engine.go:198-261 | every decision on a new command keeps the whole invariant, revision ledger included |
| `PlcSimTheorems.EveryRunIsSound` | services/block-agent/internal/plcsim/engine.go:148-336 | over every run from the initial state ToolUsed equals Output, and while no clear_bins executed since start or reset Finished = Passed + Pending, RejectBin = NG, and Blank + Finished + RejectBin is the blank-bin capacity |
| `PlcSimTheorems.TickGuardNeverFires` | services/block-agent/internal/plcsim/engine.go:582-596 | in reachable states the counter guard of Tick never fires |
| `PlcSimTheorems.CommandGuardNeverFires` | services/block-agent/internal/plcsim/engine.go:582-596 | in reachable states the counter guard of ApplyCommand never fires |
| `PlcSimTheorems.RevisionsAreExact` | services/block-agent/internal/plcsim/engine.go:182-261 | ControlRevision is one plus the number of EXECUTED entries, which carry exactly the revisions 2 to ControlRevision, once each |
| `PlcSimEffects.CommandExecutesExactlyWhenGranted` | services/block-agent/internal/plcsim/engine.go:182-326 | a command executes exactly when its id is usable and new, its expected revision holds, no fault or disconnect bars it, it can be persisted, and: start with the interlocks safe; pause, reset and clear_bins always; set_mode with auto or manual; a pause switch with a value; inspect with a part pending; update_settings with three positive settings; acknowledge_alarm with such an active alarm; no other name |
| `PlcSimEffects.RefusalsTellWhy` | services/block-agent/internal/plcsim/engine.go:201-236 | every refusal of a new command carries the status and code of its first reason, and changes nothing but the ledger |
| `PlcSimEffects.OtherCommandsChangeNothing` | services/block-agent/internal/plcsim/engine.go:182-200 | without a usable id, for an answered id, or when the write fails nothing changes: an error, the stored result, or idempotency_conflict |
| `PlcSimEffects.ExecutedCommandsDo` | services/block-agent/internal/plcsim/engine.go:227-326 | field by field what each executed command changes: its own switches and settings, its own effect on the stock, one revision, the schedule of a line it may have started, the recorded answer, and nothing else |
| `PlcSimEffects.PartsAre` | services/block-agent/internal/plcsim/engine.go:551-580 | of the parts made exactly those are inspected whose number is a multiple of the interval; each is a blank and a tool use, failing ones go to the reject bin and all others to the finished bin |
| `PlcSimEffects.ATickMakesWhatIsDue` | services/block-agent/internal/plcsim/engine.go:148-180 | a tick makes exactly the parts whose cycles are over while there is room, and moves the schedule by as many cycles; a line that begins to run waits one cycle, any other makes nothing and loses its schedule; only the sample is counted besides |
| `PlcSimEffects.OtherTicksChangeNothing` | services/block-agent/internal/plcsim/engine.go:148-180 | frozen data is answered as it is, and a tick that cannot be written changes nothing |
| `PlcSimEffects.AFaultIsSetExactlyAsAsked` | services/block-agent/internal/plcsim/engine.go:338-384 | a fault is injected exactly when injection is allowed, the request is proper and persisted; it sets its own fault and no other, the inputs show it at once, and only an unsafe line stops |
| `PlcSimEffects.EveryStateShows` | services/block-agent/internal/plcsim/engine.go:418-452 | every state of a run shows the inputs of its faults, each bin with the status of its bounds, each alarm exactly while its condition holds, and the quality of its sample |
| `PlcSimEffects.LastingAlarmsKeepTheirItems` | services/block-agent/internal/plcsim/engine.go:454-465 | an alarm that lasts over a tick keeps its item, a new one is dated by the tick |
| `PlcSimEffects.ARestartKeepsTheLine` | services/block-agent/internal/plcsim/engine.go:386-410 | a session restart changes session, sample count, instant and schedule and nothing else |
| `PlcSimEffects.AStartUpKeepsTheLine` | services/block-agent/internal/plcsim/engine.go:44-80 | a start from the file of a reachable state keeps everything but session, instant and schedule |
| `PlcSimEffects.WhateverFileStartsIsSound` | services/block-agent/internal/plcsim/engine.go:105-140 | whatever file a simulator starts from, its counters, bins and settings are sound and its lists current |
| `PlcSimEffects.AFirstStart` | services/block-agent/internal/plcsim/engine.go:82-103 | a first start is an idle safe line in automatic mode with a full bin of blanks at revision 1 |
| `PlcSimTheorems.OneExecutionPerExpectedRevision` | services/block-agent/internal/plcsim/engine.go:202-207 | two distinct commands that expect the same revision never both execute |
| `PlcSimTheorems.ReplayReturnsTheFirstAnswer` | services/block-agent/internal/plcsim/engine.go:189-200 | after any run with restarts and failed writes a replay returns the first answer and changes nothing |
| `PlcSimTheorems.RestartsExactlyWhenRejectBinFits` | services/block-agent/internal/plcsim/engine.go:105-140 | the state file after any run from a first start, at real clock readings and session ids, is accepted at the next start-up exactly when the reject bin is within its capacity |
| `PlcSimTheorems.RejectBinOverflowsExactlyWhen` | services/block-agent/internal/plcsim/engine.go:564-580 | a step pushes the reject bin over its capacity exactly when it is a new, unbarred, persisted inspect command, a part is pending, the bin is full and the part fails: all told before the call |
| `PlcSimTheorems.RejectBinFitsFromStart` | services/block-agent/internal/plcsim/engine.go:564-580 | on every run from a first start the reject bin stays within its capacity unless such an inspection happens |
| `PlcSimSafety.PartsAreMadeOnlyWhenSafe` | services/block-agent/internal/plcsim/engine.go:148-180 | a part is made only by a tick, with the line running in automatic mode, unpaused, and no disconnect, emergency stop or open door injected |
| `PlcSimSafety.OnlyStartStartsTheLine` | services/block-agent/internal/plcsim/engine.go:263-296 | a stopped line runs again only through an executed start command with no interlock active |
| `PlcSimSafety.InterlocksStopTheLine` | services/block-agent/internal/plcsim/engine.go:338-384 | injecting a disconnect, an emergency stop or an open door stops the line at once |
| `PlcSimWitness.ManualInspectionsOverflowTheRejectBin` | services/block-agent/internal/plcsim/engine.go:297-301 | a concrete run of four operations from a first start that overflows the reject bin and whose state file is refused at start-up |
| `PlcSimSampling.CatchUpInTwo` | services/block-agent/internal/plcsim/engine.go:163-168 | catching up in two stages is catching up in one |
| `PlcSimSampling.SamplingIndependence` | services/block-agent/internal/plcsim/engine.go:148-180 | with the schedule set, ticks at any nondecreasing times leave all production counters, bins and settings that one tick at the last time leaves |
| `PlcSimConfirm.ExecutedCommandsAreConfirmed` | services/block-agent/internal/command/queue.go:325-378 | every command the simulator executed passes confirm after any number of later ticks |
| `PlcSimConfirm.ReadbackKeepsTheAnswer` | services/block-agent/internal/command/queue.go:165-192 | so the readback never changes the result the simulator answered |
| `CommandSimulator.SimulatorExecutionsAreStored` | services/block-agent/internal/command/queue.go:165-196 | in every run with the simulator as the device, once it executed a command and was read back, the record is from then on pending, EXECUTED with the very result answered, or UNKNOWN after a crash, never readback_failed |
| `CommandSimulator.SimulatorExecutionsAreAnswered` | services/block-agent/internal/command/queue.go:277-300 | when that completion is acknowledged, the caller is answered this result and the record is EXECUTED with it |
| `ScanPlan.PlannedAddressesAreSpans` | services/block-agent/internal/plcworker/worker.go:812-837 | a planned address of a valid layout is one or two words inside the 65536-word space |
| `ScanPlan.PlannedExactlyWhenAddressable` | services/block-agent/internal/plcworker/worker.go:812-856 | a point is planned exactly when it is a bit written by mask writes or a number inside the address space written by FC06 or FC10, at its own word, bit and length |
| `ScanPlan.SortedSorts` | services/block-agent/internal/plcworker/worker.go:784-789 | the sort orders by word then count and keeps every point |
| `ScanPlan.PackBatches` | services/block-agent/internal/plcworker/worker.go:790-809 | the greedy loop packs legal FC03 requests of 1 to 125 words that cover every span, with strictly increasing starts and ends, at most one shared word between neighbours, and no plan of such requests has fewer |
| `ScanPlan.ApartPointsNeedOwnBatches` | services/block-agent/internal/plcworker/worker.go:795-806 | points no legal request can join need as many requests as there are such points, in any plan |
| `ScanPlan.PlanBatches` | services/block-agent/internal/plcworker/worker.go:784-809 | the same, for the readable points in configuration order |
| `ScanPlan.IndexPoints` | services/block-agent/internal/plcworker/worker.go:756-775 | the first loop builds the point table, the word index and the readable set, or fails at an address that cannot be planned |
| `ScanPlan.BuildPlan` | services/block-agent/internal/plcworker/worker.go:756-810 | planning succeeds exactly when every address is plannable and every writable point writes to a point of its own type |
| `PointValues.DecodesItsSpan` | services/block-agent/internal/plcworker/worker.go:498-533 | a point of a valid layout decodes any span of its own length |
| `ScanEntries.DecodesToWhatTheRegistersSay` | services/block-agent/internal/plcworker/worker.go:498-533 | the decoded value is the bit, the two's complement number or the float pattern the registers hold, in the point's type and word order |
| `ScanEntries.WrittenRegistersSayTheValue` | services/block-agent/internal/plcworker/worker.go:460-497 | exactly the values of the point's own type, in range and finite, are encoded, into registers that say them |
| `PointValues.WrittenValuesReadBack` | services/block-agent/internal/plcworker/worker.go:460-533 | what is written to a numeric point in either word order is what reading it back decodes |
| `Float32.SameExactlyWhenOddsAgree` | services/block-agent/internal/plcworker/worker.go:519-530 | two numbers are equal exactly when their odd normal forms are |
| `Float32.IsAFloat32ExactlyWhenItFits` | services/block-agent/internal/plcworker/worker.go:519-530 | a number equals some float32 exactly when it needs at most 24 bits, none below 2^-149 and none from 2^128 up |
| `PointValues.AlarmCanActivateExactlyWhen` | services/block-agent/internal/plcworker/worker.go:630-633 | some reading activates a configured alarm exactly on a bool point, and on a float32 point whose alarm value is exactly a float32; on integer points the comparison can never hold |
| `PointValues.AnAlarmAtATenthNeverActivates` | services/block-agent/internal/plcworker/worker.go:630-633 | an alarm configured at 0.1 on a float32 point never activates, whatever the PLC sends |
| `PlcWorker.Worker.GoodValues` | services/block-agent/internal/plcworker/worker.go:616-638 | the loops over words and points set exactly the points a good batch holds wholly |
| `PlcWorker.Worker.FailureValues` | services/block-agent/internal/plcworker/worker.go:710-729 | a failed batch re-marks every point that starts in it and keeps its last value |
| `PlcWorker.Worker.StaleValuesLocked` | services/block-agent/internal/plcworker/worker.go:676-690 | every readable point becomes stale, in any visiting order |
| `PlcWorker.Worker.ConfirmDisconnected` | services/block-agent/internal/plcworker/worker.go:205-215 | a confirmed disconnect publishes one complete stale snapshot, once |
| `PlcWorker.Worker.ReadAll` | services/block-agent/internal/plcworker/worker.go:569-614 | a scan computes its specification, whose entries ScanEntries tells: the readable points are its keys, every value is the latest decode, a scan that ends disconnected is all stale, and the error is the first one |
| `Scan.GoodPointsSet` | services/block-agent/internal/plcworker/worker.go:616-638 | in a good batch a point is set exactly when its whole span is inside, and no other point moves |
| `Scan.ScanTracks` | services/block-agent/internal/plcworker/worker.go:569-729 | through any scan a point is null until a batch with its whole span is first read and then has the decode of the latest such read |
| `ScanTheorems.ScanKeysAreTheReadablePoints` | services/block-agent/internal/plcworker/worker.go:569-614 | whatever the PLC answers, the result has exactly the readable points as keys |
| `ScanTheorems.DisconnectedMeansStale` | services/block-agent/internal/plcworker/worker.go:599-603 | a scan that ends disconnected publishes stale entries only |
| `ScanTheorems.ScanRefinesPointReads` | services/block-agent/internal/plcworker/worker.go:569-638 | on unchanged memory the sorted, merged, batched scan returns one entry per readable point, equal to decoding that point's own registers |
| `ScanEntries.CleanScansPublishTheMemory` | services/block-agent/internal/plcworker/worker.go:569-638 | after a scan answered in full from unchanged memory the entry of every readable point holds what its registers say, quality good, the clock of a batch that read it, and an alarm flag exactly if an alarm is configured, which says whether the value is the configured one |
| `ScanEntries.AnAnswerEntersItsPoints` | services/block-agent/internal/plcworker/worker.go:574-638 | a full answer gives good entries to the points it holds wholly; a failed one re-marks the points that start in it as error, or stale when disconnected, with their last value and the clock; no other entry moves |
| `ScanEntries.AnAnswerMovesTheLink` | services/block-agent/internal/plcworker/worker.go:578-596 | only a lost connection disconnects and ends the scan, and the first error is kept |
| `ScanEntries.AnInterruptMarksWhatIsKnown` | services/block-agent/internal/plcworker/worker.go:660-690 | a disconnect confirmed from outside marks what is known of every readable point stale, once, and leaves the running scan's values |
| `ScanEntries.AScanEnds` | services/block-agent/internal/plcworker/worker.go:599-604 | a scan without an error reconnects and publishes what it read; one that ends disconnected publishes every readable point as stale with its last value |
| `ScanEntries.GoodEntriesSpeakExactlyWhenConfigured` | services/block-agent/internal/agent/mqtt_runtime.go:66-75 | such a good entry is heard by the alarm detector exactly if an alarm is configured |
| `ScanTheorems.BuiltPlansScan` | services/block-agent/internal/runtimeconfig/config.go:218-247 | the points of a normalized configuration have distinct ids and decode their own spans |
| `CommandFifo.Fifo.TrySubmit` | services/block-agent/internal/plcworker/worker.go:154-168 | never blocks: admits exactly when not stopping and fewer than 64 wait, else answers at once why not |
| `CommandFifo.Fifo.FinishCommand` | services/block-agent/internal/plcworker/worker.go:277-290 | the command in flight gets its reply, one step of the step system |
| `CommandFifo.Fifo.RejectQueued` | services/block-agent/internal/plcworker/worker.go:739-748 | the drain answers everything queued, in order, by steps of the step system |
| `CommandFifo.Fifo.ShutDown` | services/block-agent/internal/plcworker/worker.go:220-228 | the deferred shutdown is a run that ends with an empty queue and done closed |
| `CommandFifo.StepKeepsPlaces` | services/block-agent/internal/plcworker/worker.go:154-287 | under every interleaving the admitted commands are the answered ones, then the one in flight, then the queue, in admission order |
| `CommandFifo.EveryAdmittedCommandIsAnsweredOnce` | services/block-agent/internal/plcworker/worker.go:220-287 | when done closes a command has exactly one reply if and only if it was admitted |
| `CommandFifo.NeverAnsweredTwice` | services/block-agent/internal/plcworker/worker.go:735-748 | at any moment no command has two replies and at most 64 wait |
| `CommandFifo.ASubmissionIsAdmittedExactlyWhen` | services/block-agent/internal/plcworker/worker.go:154-168 | on every run a submission is admitted exactly while the worker admits and fewer than 64 commands wait |
| `CommandFifo.EveryReplyHasItsStep` | services/block-agent/internal/plcworker/worker.go:277-290 | every reply tells the success of that very command's execution, or that it was at the head of the queue when the shutdown rejected it |
| `CommandFifo.OnlyCancellationEndsTheLoop` | services/block-agent/internal/plcworker/worker.go:244-274 | the worker leaves its loop only after the context was cancelled |
| `CommandFifo.ExecutedInAdmissionOrder` | services/block-agent/internal/plcworker/worker.go:244-287 | commands execute in admission order with none skipped |
| `CommandFifo.NothingIsAdmittedAfterDone` | services/block-agent/internal/plcworker/worker.go:750-754 | after done nothing is admitted |
| `CommandFifo.WorkerCanAlwaysMove` | services/block-agent/internal/plcworker/worker.go:244-274 | before done the worker always has a step to take |
| `CommandFifo.ShutdownIsBounded` | services/block-agent/internal/plcworker/worker.go:220-287 | once admission is closed the worker is done after exactly the queued replies and one close, at most 65 steps |
| `CommandFifo.CancellationEndsTheWorker` | services/block-agent/internal/plcworker/worker.go:220-274 | from cancellation, wherever the worker stands, it takes at most 69 more steps until done, and until done it always has one |
| `AlarmEdges.Store.Replace` | services/block-agent/internal/pointstore/store.go:31-45 | a configuration that does not normalize changes nothing; otherwise the new session has exactly the configured points and no value |
| `AlarmEdges.Store.Update` | services/block-agent/internal/pointstore/store.go:88-121 | Update stores and reports exactly the changed entries up to the first one it refuses, and reports nothing when it refuses one |
| `AlarmChanges.ABatchSucceedsExactlyWhen` | services/block-agent/internal/pointstore/store.go:92-113 | a batch succeeds exactly when every entry is of a configured point, dated, of a known quality, with a value unless it is not good, and the value is one its type takes |
| `AlarmChanges.TakesExactlyWhen` | services/block-agent/internal/runtimeconfig/config.go:271-342 | the values a type takes: truth values, integers of its range however they are held, finite numbers |
| `AlarmChanges.UpdateReportsExactlyTheChanges` | services/block-agent/internal/pointstore/store.go:114-125 | a batch that succeeds reports exactly the entries that are new or differ in quality, value or alarm flag from what was stored before it, in its order, and stores them all |
| `AlarmEdges.Store.Clear` | services/block-agent/internal/pointstore/store.go:47-53 | ending a session leaves no point and no value |
| `AlarmEdges.Store.ClearValues` | services/block-agent/internal/pointstore/store.go:55-61 | a reconnect forgets every value and keeps the points |
| `AlarmEdges.AlarmSession.RecordAlarmChanges` | services/block-agent/internal/agent/mqtt_runtime.go:53-103 | the detector loop decides the records of its specification, in visiting order |
| `AlarmRuns.DetectAt` | services/block-agent/internal/agent/mqtt_runtime.go:66-95 | an observation makes a record for its alarm exactly when it is an edge, and touches no other alarm |
| `AlarmChanges.ARecordIsMadeExactlyAtAnEdge` | services/block-agent/internal/agent/mqtt_runtime.go:66-95 | a record is made exactly when a good observation of a configured alarm says other than the last one heard, none heard counting as cleared: RAISED or CLEARED, with its instant and value |
| `AlarmRuns.AnyOrderIsAlike` | services/block-agent/internal/agent/mqtt_runtime.go:66-95 | visiting the changes in any order decides the same records for every alarm |
| `AlarmRuns.ChangesSuffice` | services/block-agent/internal/pointstore/store.go:88-125 | the changes of a valid batch decide for every alarm what the whole batch would have decided |
| `AlarmRuns.FilteringKeepsTheAlarmHistory` | services/block-agent/internal/agent/mqtt_runtime.go:53-103 | in every session of valid updates and value clears each alarm's records alternate RAISED, CLEARED from RAISED, and are the records of the unfiltered observations |
| `AlarmRuns.KeepsHistoryExactlyWhenSettled` | services/block-agent/internal/pointstore/store.go:88-132 | a state decides the unfiltered records in every later run exactly when it hides no observation the detector never heard |
| `AlarmRuns.RefusedBatchLosesAnEdgeExactlyWhen` | services/block-agent/internal/pointstore/store.go:92-119 | a refused batch loses no alarm edge exactly when no entry it had already stored was one that will be filtered when seen again |
| `AlarmRuns.UnchangedPointsAreNotHeard` | services/block-agent/internal/pointstore/store.go:114-125 | as long as every scan, accepted or refused, shows of a point what is stored of it, nothing is decided about its alarm |
| `AlarmRuns.DecodedValuesAreAcceptedUnlessNotFinite` | services/block-agent/internal/runtimeconfig/config.go:271-307 | a decoded value is refused exactly when it is an infinite or undefined float |
| `AlarmRuns.NaNInAScanHidesAnAlarm` | services/block-agent/internal/pointstore/store.go:106-119 | a concrete scan with a NaN beside a raised alarm: no record is made, and none by any later scans as long as they all show the alarm still raised |
| `Bits.SetBitSetsOnlyThatBit` | services/block-agent/internal/easy521/client.go:217-230 | setting a bit sets that bit and leaves every other |
| `Modbus.RequestIsReadBackExactlyWhen` | tools/plc-simulator/server.go:264-285 | a request survives MBAP framing exactly when its PDU has 1 to 253 bytes |
| `Modbus.ResponseIsParsed` | services/block-agent/internal/easy521/client.go:257-285 | a framed response is parsed to what its PDU means |
| `Modbus.FramingIsInvisible` | services/block-agent/internal/easy521/client.go:232-285 | for every request and every loss on the way the framed exchange equals a direct call of the device |
| `ModbusWire.RequestsAreFrames` | tools/plc-simulator/server.go:264-285 | a device takes for a request exactly a frame with protocol 0 and a PDU of 1 to 253 bytes |
| `ModbusWire.ResponsesAreFrames` | services/block-agent/internal/easy521/client.go:257-285 | a client takes for a response exactly a frame of its own transaction, unit and function; exceptions and other functions are errors |
| `ModbusWire.RequestsOnTheWire` | services/block-agent/internal/easy521/client.go:100-230 | the bytes of FC03, FC06 and FC22 requests |
| `ModbusWire.SimulatorRefuses` | tools/plc-simulator/server.go:287-337 | the exception codes of the simulator for unknown functions, malformed requests, bad counts and ranges; none changes a register |
| `ModbusWire.SimulatorServes` | tools/plc-simulator/server.go:301-333 | FC03 answers the words; FC22 changes one register bit by bit by its masks, is echoed, and leaves all other registers |
| `Modbus.DeviceReads` | tools/plc-simulator/server.go:301-321 | FC03 answers exactly the requested registers and changes nothing |
| `Modbus.MaskWriteSetsTheBit` | tools/plc-simulator/server.go:49-57 | the FC22 formula with the client's masks changes exactly one bit |
| `Modbus.ModifySetsTheBit` | services/block-agent/internal/easy521/client.go:217-230 | the fallback computes the same word |
| `Modbus.FallbackEqualsMaskWriteExactlyWhen` | services/block-agent/internal/easy521/client.go:217-230 | on one word, modifying what was seen equals masking what is there now exactly when the other bits agree |
| `Modbus.MaskedBits` | tools/plc-simulator/server.go:49-57 | bit by bit, a set bit of the AND mask keeps the register and a clear one takes the OR mask |
| `Modbus.LastBitWriteStays` | tools/plc-simulator/server.go:287-340 | on the simulator, after any Modbus requests of any clients each bit holds what the last mask write that decides it says, so no bit write is lost to a neighbour's |
| `ModbusServer.Server.HandleReadHoldingRegisters` | tools/plc-simulator/server.go:301-321 | the response loop builds the FC03 response, or the right exception |
| `ModbusServer.Server.HandleMaskWriteRegister` | tools/plc-simulator/server.go:323-333 | one register changes by the mask formula and the request is echoed |
| `ModbusServer.Server.HandlePDU` | tools/plc-simulator/server.go:287-299 | each function code is handled as specified; an unsupported one is an illegal-function exception and an empty request an empty response |
| `ModbusServer.Server.Serve` | tools/plc-simulator/server.go:218-256 | a frame that cannot be read or is for another unit is not answered; any other is answered in the same transaction |
| `ModbusClient.Client.Exchange` | services/block-agent/internal/easy521/client.go:232-285 | one exchange over frames is one call of the device; any failure closes the connection; transaction ids skip zero |
| `ModbusClient.Client.ReadHoldingRegisters` | services/block-agent/internal/easy521/client.go:85-106 | succeeds exactly on a valid range, a supporting device and an undisturbed exchange, and returns exactly those registers; never writes |
| `ModbusClient.Client.WriteSingleRegister` | services/block-agent/internal/easy521/client.go:108-124 | succeeds exactly when the echo arrives; writes one register or, undelivered or unsupported, nothing |
| `ModbusClient.Client.ReadModifyWrite` | services/block-agent/internal/easy521/client.go:217-230 | with any writes of others between its FC03 and its FC06 a success leaves their memory with this word as seen and the bit set, which is what FC22 would leave exactly when they did not change another bit of the word |
| `ModbusClient.Client.MaskWriteBit` | services/block-agent/internal/easy521/client.go:175-215 | over FC22 or its fallback and under every loss, with no other writer in the gap of the fallback, the memory is the old one or the old one with this bit set, the latter on success; with other writers the exact condition of the fallback; undisturbed it succeeds exactly when the device has FC22 or both FC03 and FC06 |
| `ModbusClient.FallbackLosesAWrite` | services/block-agent/internal/easy521/client.go:175-230 | a concrete run on a device without FC22 that reports success and loses another writer's bit |
| `ModbusClient.Client.WriteMultipleRegisters` | services/block-agent/internal/easy521/client.go:126-173 | over FC10 or its fallback and under every loss some first part of the values is written, all of them on success; undisturbed it succeeds exactly when the device has FC10 or FC06 |
| `WriteReadBack.BitWriteReadsBackAndNothingElseMoves` | services/block-agent/internal/plcworker/worker.go:437-441 | a written bit reads back, and every other point keeps its value, other bits of the same word included |
| `WriteReadBack.NumberWriteReadsBackAndNothingElseMoves` | services/block-agent/internal/plcworker/worker.go:443-496 | a written number reads back, and every point on other words keeps its value |
| `WriteReadBack.TheNextScanShowsTheWrite` | services/block-agent/internal/plcworker/worker.go:422-441 | after a successful bit write the next undisturbed scan shows the written value and every other point as before the write |
| `Mqtt.EncodeRemainingLength` | services/block-agent/internal/mqttv2/session.go:371-384 | the loop computes the encoding |
| `Mqtt.DecodeVariableByteInteger` | services/block-agent/internal/mqttv2/session.go:424-438 | the loop computes the decoding, with its errors |
| `Mqtt.DecodeInvertsEncodeExactlyBelow` | services/block-agent/internal/mqttv2/session.go:424-438 | decoding inverts encoding exactly on numbers its bytes can hold, and is an error on all others |
| `Mqtt.EncodingIsLittleEndian` | services/block-agent/internal/mqttv2/session.go:371-384 | the encoding is the base-128 digits, the lowest first, with the top bit set on all but the last |
| `Mqtt.EncodingIsMinimal` | services/block-agent/internal/mqttv2/session.go:371-384 | no byte string that decodes to a number is shorter than its encoding |
| `Mqtt.FourBytes` | services/block-agent/internal/mqttv2/session.go:371-384 | an encoding has at most four bytes exactly below 2^28 |
| `Mqtt.WritePacket` | services/block-agent/internal/mqttv2/session.go:341-348 | one framed packet is written, or a part of it with an error |
| `Mqtt.ReadPacket` | services/block-agent/internal/mqttv2/session.go:439-465 | however the stream is cut into pieces, the packet at its front is read and exactly its bytes are consumed; otherwise an error |
| `Mqtt.PacketIsReadBackExactlyWhen` | services/block-agent/internal/mqttv2/session.go:341-348 | a written packet is read back exactly when its payload is below 2^28 bytes |
| `Mqtt.StreamIsReadBack` | services/block-agent/internal/mqttv2/session.go:439-465 | any sequence of such packets is read back exactly |
| `Mqtt.CutStreamsYieldAPrefix` | services/block-agent/internal/mqttv2/session.go:439-465 | a stream cut anywhere yields the whole packets and nothing else |
| `MqttPublish.HandlePublish` | services/block-agent/internal/mqttv2/session.go:288-306 | the handler computes its specification, errors included |
| `MqttPublish.PublicationIsRecoveredExactlyWhen` | services/block-agent/internal/mqttv2/session.go:288-306 | topic and message are recovered, whatever the property list, exactly for topics of 1 to 65535 bytes and properties below 2^28 bytes |
| `MqttPublish.HandledExactlyWhenLaid` | services/block-agent/internal/mqttv2/session.go:288-306 | a PUBLISH is handled exactly when it is of quality of service 0, not retained and in the layout of section 3.3 with any property list; topic and message are those of the layout |
| `MqttPublish.OwnPayloadsHaveNoProperties` | services/block-agent/internal/mqttv2/session.go:356-370 | the payload written is in that layout with an empty property list |
| `MqttPublish.Serve` | services/block-agent/internal/mqttv2/session.go:254-270 | the reading loop delivers the messages of the stream up to the first error |
| `MqttPublish.PublicationsAreDelivered` | services/block-agent/internal/mqttv2/session.go:254-306 | every publication, with any property list, is delivered once and in order, whatever other packets are on the wire |
| `MqttPublish.BrokenConnectionsDeliverAPrefix` | services/block-agent/internal/mqttv2/session.go:254-306 | if the connection breaks anywhere, what was delivered is the first part of what was sent, unaltered |
| `Nonce.NonceStore.Register` | services/block-agent/internal/sshbootstrap/nonce.go:58-96 | purge and insert are one transaction; true exactly when the row is new and the commit acknowledged |
| `Nonce.Check` | services/block-agent/internal/sshbootstrap/handler.go:141-157 | OutOfWindow exactly for a well-formed token more than a minute from the clock, Unauthorized exactly for a malformed token or an unsigned one inside the window, and on to the table exactly a genuine one |
| `Nonce.NonceStore.Finish` | services/block-agent/internal/sshbootstrap/handler.go:159-176 | on its earlier clock reading the request purges and registers, and is accepted exactly when its row is new and committed |
| `Nonce.RowLivesUntilPurged` | services/block-agent/internal/sshbootstrap/nonce.go:71-84 | whatever the clock readings and their order, a row is in the table exactly until a committed request with a reading past its expiry reaches the table |
| `Nonce.ReuseIsAcceptedExactlyWhenPurged` | services/block-agent/internal/sshbootstrap/nonce.go:58-96 | whatever the clock readings and their order, a used (kid, nonce) is accepted again exactly when such a request came since its insertion, or its own reading is past that expiry |
| `Nonce.FirstUseIsAccepted` | services/block-agent/internal/sshbootstrap/nonce.go:78-95 | a first use is always accepted |
| `Nonce.RunIsValid` | services/block-agent/internal/sshbootstrap/handler.go:141-165 | in every run of overlapping requests the rows are what the accesses made of them, and each request reaches the table at most once, on its own reading |
| `Nonce.OnlyGenuineRequestsReachTheTable` | services/block-agent/internal/sshbootstrap/handler.go:141-165 | in every run each access to the table, so every acceptance, is by a well-formed, signed request whose timestamp is within 60 seconds of its own clock reading |
| `Nonce.OtherRequestsChangeNothing` | services/block-agent/internal/sshbootstrap/handler.go:141-157 | any other request changes no row |
| `Nonce.GenuineRequestsAreAnswered` | services/block-agent/internal/sshbootstrap/handler.go:159-173 | a genuine request is accepted exactly when its commit is acknowledged and its key has no row that lives at its reading |
| `Nonce.AReplayIsAcceptedExactlyWhenOvertaken` | services/block-agent/internal/sshbootstrap/handler.go:141-173 | with a clock that does not go back, a replay is accepted exactly when a committed request that read the clock after it, past the token's expiry, reached the table before it |
| `Nonce.ASecondAcceptanceWasOvertaken` | services/block-agent/internal/sshbootstrap/handler.go:141-173 | with such a clock, any second acceptance of a (kid, nonce) that is not of a later token was overtaken in this way |
| `Nonce.ATokenIsAcceptedAtMostOnce` | services/block-agent/internal/sshbootstrap/handler.go:141-173 | with such a clock, and when requests reach the table in the order of their readings, two acceptances of one (kid, nonce) carry increasing timestamps, so no token is accepted twice |
| `Nonce.AnOvertakenReplayIsAccepted` | services/block-agent/internal/sshbootstrap/handler.go:141-173 | a nondecreasing clock alone is not enough: a concrete overlapping run accepts one token twice |
| `Nonce.ABackwardsClockAcceptsAReplay` | services/block-agent/internal/sshbootstrap/handler.go:141-173 | nor is order alone: requests served one after the other accept one token twice when the clock goes back |
| `Nonce.TableStaysSmall` | services/block-agent/internal/sshbootstrap/nonce.go:71-84 | with a clock that does not go back, after each Register nothing expired at its reading is left and every row expires within 120 seconds of the latest reading |
| `Nonce.RowsExpireWithinTwoWindowsExactlyWhen` | services/block-agent/internal/sshbootstrap/nonce.go:71-84 | every row expires within 120 seconds of the request's own reading exactly when no overtaking request left a row of a token more than a window ahead of it |
| `Nonce.InOrderRowsExpireWithinTwoWindows` | services/block-agent/internal/sshbootstrap/nonce.go:71-84 | when requests reach the table in the order of their readings, that always holds |
| `Nonce.AnOvertakenRequestKeepsALongRow` | services/block-agent/internal/sshbootstrap/nonce.go:71-84 | a concrete overlapping run where it does not |

## Left out

- CommandStore.Store.CompleteCommand: does not model the times in the rows and the snapshot and alarm history tables, because the promises are about which rows exist and what they say.
- CommandStore.Store.SavePLC: keeps only the copied source fields of a snapshot (revision, instants, session, sequence, quality, connected), because the display text derived from it is presentation.
- CommandQueue.Queue.Process: does not model the exact wording of confirmation and decode errors inside a reason, because nothing decides on it; timeouts are outcomes of the device call.
- CommandQueue.Queue.Submit: does not model a caller that leaves before the answer (the command goes on as if it had stayed) nor a queue closed by its owner, which answers an error like a dead one.
- PlcSim.Engine.Open: an engine that fails to re-open is modelled as leaving the state file as it was, because the process then ends.
- PlcWorker.Worker.ReadAll: takes one clock reading per batch where the code takes one per point, and confirms of a disconnect fall between batches, not inside the last step of a scan.
- CommandFifo.Fifo.TrySubmit: what a command does on the PLC (set, pulse, press, release, toggle) is one step that ends in success or failure; the writes themselves are in ModbusClient and WriteReadBack.
- AlarmEdges.AlarmSession.RecordAlarmChanges: does not model record ids, message texts and append failures, because alternation is about the records decided.
- ScanPlan.BuildPlan: takes addresses as parsed (a D word, and a bit for bool points).
- PointValues.WrittenValuesReadBack: takes values already of the point's own type, because converting and rounding other number types before the write is floating-point arithmetic.
- ModbusClient.Client.WriteMultipleRegisters: does not model other writers between the words of its fallback, because each word is one FC06 that reads nothing; FC06 and FC10 of the device follow the Modbus specification, because the simulator has neither.
- MqttPublish.Serve: the message callback always succeeds; a client without one drops messages.
- Nonce.Check: parsing and signature are two booleans of the request, and the header, body and target checks before them and the certificate after them are left out.
- Integer widths: counters, revisions, durations and instants are unbounded; 16-bit and 8-bit arithmetic is exact where the wire or the address space needs it.
- Command submission by several callers is serialized, as the queue's unbuffered channel does; the ready signal, timers and poll spacing keep their order only.
- SQL, JSON, file renames, cryptography, session-id generation, MQTT connection set-up, trace output and everything of the HMI, HTTP and WebSocket layers.
- `SaveSnapshot`, a writer only the tests use, which bypasses the merge rule.
