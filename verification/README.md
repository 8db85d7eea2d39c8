# BeamControl verification

BeamControl steers phased-array receiver boards over a CAN bus. A Raspberry Pi client sends
commands; each STM32 receiver decodes them, plans and performs SPI writes to one phase shifter
(PE44820) and one attenuator (F0480), and answers. This project models both programs in Dafny and
proves what they promise one another: what an ACK is worth, that a phase word never moves while
the attenuator is below 23 dB, that the queues lose nothing silently, and when a board locks itself out.

`dafny verify dfyconfig.toml` checks everything.

## How it is laid out

| file | follows |
|:--|:--|
| `Bits.dfy` | shifts, masks and exclusive or on the words both programs use |
| `Protocol.dfy`, `PiProtocol.dfy` | the 29-bit identifier, the decoder and the frame builders, in C and in Python |
| `Filter.dfy` | the two bxCAN acceptance banks |
| `RfCommands.dfy` | the serial words of the two RF devices |
| `RfPlan.dfy`, `RfExecute.dfy`, `RfSafety.dfy` | planning, prefix execution under SPI faults, and what every plan keeps |
| `TxQueue.dfy`, `CanBus.dfy` | the prioritised transmit queue and the driver around it |
| `RxQueue.dfy` | the receive ring shared by interrupt and main loop |
| `Firmware.dfy`, `DiagnosticRecord.dfy`, `BootHistory.dfy` | the retained record, its checksum, and the lockout over a history of boots |
| `Runtime.dfy`, `RuntimeSafety.dfy` | the command runtime, its invariants and its replies |
| `Client.dfy` | the Pi client's transactions |
| `EndToEnd.dfy` | client and receiver together over a bus that loses, doubles and reorders frames |
| `DeviceTruth.dfy`, `Freshness.dfy`, `Progress.dfy` | what an ACK says about the devices, when an old one misleads, and when a call must succeed |
| `Session.dfy` | call after call on one client |
| `Vectors.dfy` | the protocol's shared vectors and other known values |
| `Startup.dfy` | `main`: start-up, lockout, service loop |

Code that updates state in place is a class here too (`TxQueue.Queue`, `CanBus.Driver`,
`RxQueue.Ring`, `RfPlan.PlanBuffer`, `RfExecute.RfDevices`, `Runtime.CommandRuntime`,
`BootHistory.RetainedDiagnostics`, `Client.BeamControlClient`). Each method is tied to a function of
the old state, and the theorems are about those functions and about whole runs of them.

## The main results

- **An ACK tells the truth about the state** (`EndToEnd.EndToEndCommand`). One client and one
  receiver, requests in order but lost and retransmitted, replies lost, doubled and reordered at will,
  any SPI failures, any cache to start with. When a call returns an ACK the receiver's state holds what
  was asked for, and the plan was completed at most once over all retries and the one resequencing. The
  call never ends in a protocol violation or a sequence-reuse error. It needs the call's two sequences
  to be fresh; `Freshness.MisledExactly` says exactly which old replies mislead the client otherwise.
- **And about the devices** (`DeviceTruth.AckMeansDevicesSet`): under any SPI failures and whatever the
  devices held before, the requested words are latched, unless the cache already held this very
  command when the call began. `DeviceTruth.AckSetsDevicesExactly` makes that an if-and-only-if.
- **Call after call** (`Session.EveryCallIsTruthful`, `Session.EveryAckSetsDevices`,
  `Session.QuietBusMayRun`): from a quiet bus both hold for 32767 calls in a row with no further
  assumption about sequences, however the calls end; for the devices the node must also have just
  started, or cache no sequence still ahead.
- **With working hardware a call succeeds if it is heard** (`Progress.HeardCallIsAcknowledged`,
  `Progress.DeliveredCallIsAnswered`, `Progress.WorkingCallIsNeverRefused`), on every run.
- **Phase moves only at 23 dB** (`Startup.BootIsSafe`): from power-up, under any faults and frames.
  Skipping the guard write when the software state says 23 dB is sound because the latch always holds
  the state's attenuation or 23 dB.
- **Every frame gets what it asks for** (`RuntimeSafety.DispositionExactly`): which of eight things becomes of
  a frame, with nothing left open; a broadcast ENTER_SAFE is obeyed by every node, locked out or not
  (`RuntimeSafety.BroadcastIsObeyed`). `Startup.StartupEndings` does the same for start-up.
- **No priority inversion and no silent loss** on the transmit path (`CanBus.TransmissionIsOrderly`,
  `CanBus.TransmissionConserves`), for any capacity and any interleaving of sends and interrupts.
- **The receive ring is a bounded queue** through index wrap and through arrivals in the middle of a
  pop (`RxQueue.RingRefinesFifo`).
- **Lockout, exactly** (`Startup.SafeLockoutOverHistory`), and a checksum that catches every
  single-byte change (`DiagnosticRecord.OneByteChangeIsRejected`).

## Where the code and its documentation differ

The model follows the code.

- `docs/can-protocol.md:83` and `:102` promise that an ACK follows completed SPI transfers. A replayed
  ACK need not: a plan that faults part way leaves the older cached ACK in place
  (`stm32/app/src/can/runtime.c:347-356`) although it has moved the devices. A node serves ENTER_SAFE,
  a SET_COMBINED then fails at its third write with its phase word latched, the client restarts, its
  first ENTER_SAFE comes under the cached sequence, and is acknowledged with no write: the phase is
  not state 0's (`DeviceTruth.FaultThenRestartMisleads`). The promise holds if and only if the cache does not
  hold the very command that the call opens with, or the devices hold its words anyway
  (`DeviceTruth.AckSetsDevicesExactly`).
- `docs/can-protocol.md:72` and `docs/overview.md:60` show every SET_PHASE starting with a 23 dB write;
  the planner leaves it out, and the restoring write too, when the state is already at 23 dB
  (`stm32/app/src/rf/plan.c:53-69`). `RfSafety.ExecutionOrder` has the shortcut, and
  `RfSafety.PlanRunsQuietly` shows that it is harmless.
- `docs/can-protocol.md:95` calls any same-key request with another DLC or other data sequence reuse.
  The decoder runs first, so a copy with another DLC is refused for its length and one with an
  attenuation above 23 for its payload. `RuntimeSafety.ReuseExactly` states when each answer is given,
  and `RuntimeSafety.LongerCopyIsNotReuse` gives an instance. Results 3 and 7 are never sent at all
  (`RuntimeSafety.ReplyTellsWhy`).
- `docs/hardware-validation.md:23` speaks of three incomplete boots. The code counts a boot that
  became healthy and then recorded a fault as the first of the three (`BootHistory.LockoutExactly`).

## Model

| member | source | states |
|---|---|---|
| `Protocol.MakeIdIsPositional` | stm32/app/src/can/protocol.c:73-106 | an identifier exists exactly for fields that fit their bits, and it is TYPE, DEST, SOURCE, SEQUENCE laid side by side |
| `Protocol.ParseAfterMake` | stm32/app/src/can/protocol.c:73-150 | parsing an identifier gives back every field it was built from |
| `Protocol.MakeAfterParse` | stm32/app/src/can/protocol.c:108-150 | building from parsed fields gives back every 29-bit identifier; larger numbers are refused |
| `PiProtocol.BuildIdAgreesWithC` | pi/src/beamcontrol/protocol.py:49-59 | Python and C accept the same tuples and compute the same identifier |
| `PiProtocol.ParseAgreesWithC` | pi/src/beamcontrol/protocol.py:62-68 | Python and C read the same fields from every 29-bit identifier |
| `Filter.Registers.Configure` | stm32/app/src/can/filter.c:44-109 | writes both banks for nodes 1..30 and touches nothing for any other node |
| `Filter.FilterAdmits` | stm32/app/src/can/filter.c:23-109 | the banks pass exactly the extended data frames from the controller to this node, and broadcast ENTER_SAFE |
| `Filter.FilterAgreesWithDecoder` | stm32/app/src/can/protocol.c:152-246 | what the decoder accepts passes the filter; what passes is never ignored, misaddressed or a forbidden broadcast |
| `RfCommands.ReverseBits` | stm32/app/src/rf/commands.c:82-92 | the shifting loop reverses the low bits of a 16-bit word |
| `RfCommands.ReversedSwapsOrder` | stm32/app/src/rf/commands.c:82-92 | the reversed word read most significant bit first is the original read least significant bit first |
| `RfCommands.ReverseIsInvolution` | stm32/app/src/rf/commands.c:82-92 | reversing n bits twice gives back every n-bit word |
| `RfCommands.BuildPhaseCommand` | stm32/app/src/rf/commands.c:99-113 | the packing of reversed data, OPT and reversed address, with the bit-reversal loop it calls |
| `RfCommands.PhaseCommandOnTheWire` | stm32/app/src/rf/commands.c:99-113 | the 13 bits go out as D0..D7, OPT, A0..A3, and the word is at most 0x1fff |
| `RfCommands.PhaseCommandIsInjective` | stm32/app/src/rf/commands.c:99-113 | no two pairs of nine-bit word and address share a command |
| `RfCommands.VgaCommandFields` | stm32/app/src/rf/commands.c:131-139 | four times the attenuation up to 23 dB, refused above |
| `RfCommands.PhaseStateIsNearest` | stm32/app/src/rf/commands.c:115-129 | the state is within half a step of the angle on the circle, and no other state is nearer |
| `RfCommands.StartupAngles` | stm32/app/src/main.c:22-23 | 0 degrees is state 0 and 205.3 degrees is state 146 |
| `RfPlan.PlanBuffer.Append` | stm32/app/src/rf/plan.c:8-21 | appends in place, or refuses with BUSY and leaves the plan alone when three writes are there |
| `RfPlan.PlanBuffer.Phase` | stm32/app/src/rf/plan.c:23-32 | the named state's word is appended and the state moves, or neither; `RfSafety.EncodedWord` says which word that is |
| `RfPlan.PlanBuffer.Vga` | stm32/app/src/rf/plan.c:34-46 | the state moves only if the write was appended; above 23 dB nothing is |
| `RfPlan.PlanBuffer.PhaseSafely` | stm32/app/src/rf/plan.c:48-71 | guard, phase, restore, with the early returns |
| `RfPlan.PlanBuffer.Combined` | stm32/app/src/rf/plan.c:73-91 | guard, phase, then the requested attenuation unless it is 23 dB |
| `RfPlan.PlanBuffer.Startup` | stm32/app/src/rf/plan.c:93-105 | the buffer holds the start-up plan, built from empty |
| `RfPlan.PlanBuffer.ForCommand` | stm32/app/src/rf/plan.c:107-139 | the buffer holds the plan for the command and state, whatever it held before |
| `RfSafety.EncodedWord` | stm32/app/src/rf/plan.c:23-32 | the word written for a phase state is, bit by bit on the wire, that state's own control word for the unit at serial address 1 |
| `RfSafety.FourthWriteIsRefused` | stm32/app/src/rf/plan.c:8-46 | an append adds the named write and moves the named field, up to three writes; a fourth is BUSY and changes nothing |
| `RfSafety.StartupPlanExactly` | stm32/app/src/rf/plan.c:93-105 | any start-up setting is planned attenuation first; one above 23 dB is refused before the buffer is touched |
| `RfSafety.PlannerRefusesExactly` | stm32/app/src/rf/plan.c:107-139 | the planner refuses exactly unsupported types and attenuations above 23, with their own codes |
| `RfSafety.PlannerNeverFails` | stm32/app/src/rf/plan.c:107-139 | every decoded command gets a plan: the documented writes in the documented order, resulting in the state asked for |
| `RfExecute.RfDevices.WriteVga` | stm32/app/src/rf/vga.c:50-76 | latches the byte, or fails without latching |
| `RfExecute.RfDevices.WritePhase` | stm32/app/src/rf/phase_shifter.c:76-103 | latches a word of at most 0x1fff, or fails without latching |
| `RfExecute.RfDevices.ExecuteOperation` | stm32/app/src/rf/execute.c:22-51 | one write, its fault, and the record of the last command, which moves only on success |
| `RfExecute.RfDevices.ExecutePlan` | stm32/app/src/rf/execute.c:53-75 | the loop performs the successful prefix of the plan and reports the first fault |
| `RfSafety.WhatFails` | stm32/app/src/rf/phase_shifter.c:76-85 | a write fails when its transfer does, and a phase word of more than thirteen bits always |
| `RfSafety.FirstFaultStops` | stm32/app/src/rf/execute.c:8-75 | writes reach the devices in plan order up to the first failure and none after; the fault names its device and whether it timed out |
| `RfSafety.GuardedOrderIsQuiet` | stm32/app/src/rf/execute.c:53-75 | any prefix of a plan whose phase writes follow a 23 dB write moves the phase only at 23 dB |
| `RfSafety.LatchesAfterPrefix` | stm32/app/src/rf/plan.c:48-139 | the latches after a partial plan and after the whole of it |
| `RfSafety.PlanRunsQuietly` | stm32/app/src/rf/plan.c:48-139 | every prefix of a command's plan moves the phase only at 23 dB and keeps the latch at the state's attenuation or 23 dB |
| `RfSafety.AttemptIsSafe` | stm32/app/src/can/runtime.c:338-357 | the same after one attempt under any SPI failures; the recorded last commands equal the latches |
| `RfSafety.CompletionRestoresAgreement` | stm32/app/src/can/runtime.c:347-357 | a completed command makes devices and state agree if and only if it was not SET_VGA or the phase agreed already |
| `RfSafety.FaultFreeAttemptCompletes` | stm32/app/src/rf/execute.c:53-75 | without SPI failures no decoded command ends in a fault |
| `TxQueue.PriorityOrder` | stm32/app/include/can/tx_queue.h:11-18 | errors before acknowledgements before requested status before telemetry, and no fifth class |
| `TxQueue.Queue.Push` | stm32/app/src/can/tx_queue.c:28-53 | appends exactly when there is room and the priority is valid |
| `TxQueue.Queue.SelectHighest` | stm32/app/src/can/tx_queue.c:75-81 | the scan finds the oldest of the most important entries |
| `TxQueue.Queue.PeekHighest` | stm32/app/src/can/tx_queue.c:55-86 | that entry and its index, or nothing from an empty queue |
| `TxQueue.Queue.HighestPriority` | stm32/app/src/can/tx_queue.c:110-136 | the priority of that entry, or nothing |
| `TxQueue.Queue.ShiftDown` | stm32/app/src/can/tx_queue.c:102-104 | the in-place shift takes out one entry and keeps the order of the others |
| `TxQueue.Queue.Remove` | stm32/app/src/can/tx_queue.c:88-108 | takes out the entry named, or changes nothing for an index out of range |
| `TxQueue.Queue.ReplaceLowerPriority` | stm32/app/src/can/tx_queue.c:138-191 | succeeds exactly when the queue is full and holds something less important; evicts and appends in place |
| `TxQueue.EvictionKeepsTheImportant` | stm32/app/src/can/tx_queue.c:138-191 | the frame lost is no more important than any kept, ties lose the newest, survivors keep their order, refusal exactly when all are at least as important |
| `TxQueue.EvictionLosesOne` | stm32/app/src/can/tx_queue.c:160-188 | queue and newcomer, less the one frame dropped, are what the queue holds afterwards |
| `TxQueue.Queue.SelectVictim` | stm32/app/src/can/tx_queue.c:158-178 | the backward scan finds the newest of the least important entries, or reports that none is less important |
| `CanBus.Driver.constructor` | stm32/app/src/can/bus.c:38-42 | a new driver is at the start of a run |
| `CanBus.Driver.Setup` | stm32/app/src/can/bus.c:142-199 | an invalid node changes nothing; otherwise queues and counters are cleared and the result says whether the bus is up |
| `CanBus.Driver.TryTransmit` | stm32/app/src/can/bus.c:65-82 | fills a free mailbox, or leaves everything as it is |
| `CanBus.Driver.DrainOneFrame` | stm32/app/src/can/bus.c:117-140 | hands over exactly the most important queued frame when there is one and a mailbox is free |
| `CanBus.Driver.DrainQueue` | stm32/app/src/can/bus.c:88-109 | the loop drains until the queue is empty or no mailbox is free |
| `CanBus.Driver.SendFrame` | stm32/app/src/can/bus.c:210-291 | exactly which frames pass the checks, and all five branches; a driver somewhere on a run is then one offer further on it |
| `CanBus.Driver.SendToFullQueue` | stm32/app/src/can/bus.c:243-286 | the full-queue branches: overtake, drain one and enqueue, or evict and count |
| `CanBus.Driver.ServiceInterrupt` | stm32/app/src/can/bus.c:310-347 | counts an overrun, is an arrival in the receive ring for each pending frame in order, then drains, which is one interrupt further on the run |
| `CanBus.Driver.Receive` | stm32/app/src/can/bus.c:201-208 | the oldest frame in the ring, or nothing before set-up |
| `CanBus.Driver.RxDropped` | stm32/app/src/can/bus.c:293-298 | whatever the true numbers of overruns and refused frames behind the two counters, the result is their sum, saturated |
| `CanBus.SendConserves` | stm32/app/src/can/bus.c:210-291 | one send loses at most one frame, only with all mailboxes busy and the queue full, counts it, and reports failure exactly when the newcomer is lost |
| `CanBus.NothingWaitsNeedlessly` | stm32/app/src/can/bus.c:88-109 | no frame waits beside a free mailbox after an interrupt, nor after a send unless an urgent newcomer overtook a full queue; each handover takes one mailbox |
| `CanBus.TransmissionIsOrderly` | stm32/app/src/can/bus.c:88-140 | on every run each frame handed over was least by priority and arrival of all that waited, and each class leaves in order |
| `CanBus.TransmissionConserves` | stm32/app/src/can/bus.c:210-291 | on every run frames offered are handed over, queued or dropped, the counter is the drop count saturated, and the queue stays within capacity |
| `RxQueue.Ring.Push` | stm32/app/src/can/rx_queue.c:33-51 | stores at the wrapped head, or drops and counts when full |
| `RxQueue.Ring.Pop` | stm32/app/src/can/rx_queue.c:53-68 | the frame at the wrapped tail, or nothing |
| `RxQueue.UninterruptedPop` | stm32/app/src/can/rx_queue.c:53-68 | the four micro-steps in a row are exactly that pop |
| `RxQueue.StepRefines` | stm32/app/src/can/rx_queue.c:33-68 | each micro-step of push or pop is one step of a bounded drop-newest queue, or none |
| `RxQueue.RingRefinesFifo` | stm32/app/src/can/rx_queue.c:24-68 | so is every run, across index wrap and with arrivals between any steps of a pop |
| `RxQueue.InterruptIsArrivals` | stm32/app/src/can/bus.c:325-343 | emptying the hardware FIFO is a run of arrivals |
| `RxQueue.InterruptKeepsTheFirst` | stm32/app/src/can/bus.c:325-343 | whatever the main loop is doing, the ring then holds its old frames and the pending ones in order up to eight, and the rest are counted |
| `RxQueue.EveryArrivalAccounted` | stm32/app/src/can/rx_queue.c:33-68 | every frame offered is delivered once, still held, or counted as lost |
| `RxQueue.SaturationCommutesWithSum` | stm32/app/src/can/bus.c:44-56 | saturating both counters and then their sum is saturating the true total |
| `DiagnosticRecord.ChecksumIsFold` | stm32/app/src/platform/diagnostic_record.c:8-43 | the checksum is 32-bit FNV-1a over the record's thirty covered bytes in order |
| `DiagnosticRecord.BytesDetermineRecord` | stm32/app/src/platform/diagnostic_record.c:25-43 | the bytes covered, with the checksum, leave no field out |
| `Vectors.FnvVectors` | stm32/app/src/platform/diagnostic_record.c:5-11 | the hash gives the published 32-bit FNV-1a values of the empty string, "a" and "foobar" |
| `DiagnosticRecord.PrimeIsInvertible` | stm32/app/src/platform/diagnostic_record.c:8-11 | multiplication by the prime can be undone modulo 2^32 |
| `DiagnosticRecord.MixByteIsInjective` | stm32/app/src/platform/diagnostic_record.c:8-11 | a hash step is injective in the hash and in the byte |
| `DiagnosticRecord.OneByteChangesHash` | stm32/app/src/platform/diagnostic_record.c:8-43 | strings of bytes that differ in one place hash differently |
| `DiagnosticRecord.OneByteChangeIsRejected` | stm32/app/src/platform/diagnostic_record.c:74-80 | a valid record with any one byte changed, the checksum's own included, is invalid |
| `DiagnosticRecord.SealedIsValid` | stm32/app/src/platform/diagnostic_record.c:45-50 | a sealed record of the current format is valid |
| `DiagnosticRecord.FirmwareBuildId` | stm32/app/src/platform/build_info.c:11-22 | the loop hashes the revision up to its terminator and then the node id |
| `DiagnosticRecord.BuildIdIsFold` | stm32/app/src/platform/build_info.c:11-22 | the build id is the hash of the revision's bytes and then the node id |
| `DiagnosticRecord.BuildIdsDistinguishNodes` | stm32/app/src/platform/build_info.c:11-22 | one revision gives two nodes two build ids |
| `Firmware.CodesArePlaces` | stm32/app/include/platform/diagnostic_record.h:11-40 | each stored fault, clock and state code is the place of its value in the header's enumeration, so no two share one |
| `BootHistory.UpdateRepairs` | stm32/app/src/platform/retained_diagnostics.c:7-15 | an update of an invalid record starts from a blank one and trusts nothing of the old |
| `BootHistory.RetainedDiagnostics.Begin` | stm32/app/src/platform/retained_diagnostics.c:17-22 | the new record is valid and of this build, carries on count, fault and commands only from an intact record of this build, and requires lockout exactly when that one was left unhealthy with two incomplete boots |
| `BootHistory.RetainedDiagnostics.LockoutRequired` | stm32/app/src/platform/retained_diagnostics.c:24-28 | lockout takes a record of this format whose checksum is the FNV-1a of its thirty bytes and that counts three incomplete boots |
| `BootHistory.RetainedDiagnostics.Update` | stm32/app/src/platform/retained_diagnostics.c:30-65 | each setter repairs an invalid record, changes it and seals it |
| `BootHistory.LockoutAtReset` | stm32/app/src/platform/diagnostic_record.c:82-114 | lockout at a reset needs an intact record of this build, left unhealthy, with two incomplete boots counted |
| `BootHistory.RecordCountsIncompleteBoots` | stm32/app/src/platform/diagnostic_record.c:89-99 | the record's count is a function of the history alone, on every history |
| `BootHistory.UpdatesRecordTheLast` | stm32/app/src/platform/diagnostic_record.c:116-160 | after any updates the record shows the last fault, state, clock and commands set, and keeps its other fields |
| `BootHistory.RecordTellsPreviousBoot` | stm32/app/src/platform/diagnostic_record.c:82-108 | at each boot it names the previous boot's last fault and the last commands, and numbers the boots |
| `BootHistory.LockoutExactly` | stm32/app/src/platform/diagnostic_record.c:82-114 | lockout if and only if the two latest boots never became healthy and the one before them ended unhealthy |
| `BootHistory.LockoutIsSticky` | stm32/app/src/platform/diagnostic_record.c:110-114 | once required it is required at every later boot |
| `BootHistory.LockoutEndsWithTheRecord` | stm32/app/src/platform/diagnostic_record.c:89-99 | another build or an invalid record ends it |
| `Runtime.CommandRuntime.Start` | stm32/app/src/can/runtime.c:257-287 | succeeds exactly for a node in range, an attenuation of at most 23 and a bus that is up, and then leaves a clean runtime with the state and commands given |
| `Runtime.CommandRuntime.SendAck` | stm32/app/src/can/runtime.c:126-146 | caches and sends the ACK of a unicast command; nothing for a broadcast |
| `Runtime.CommandRuntime.SendErrorForCommand` | stm32/app/src/can/runtime.c:148-167 | one ERROR for a unicast command, none for a broadcast |
| `Runtime.CommandRuntime.SendErrorForFrame` | stm32/app/src/can/runtime.c:169-204 | one ERROR to a controller request for this node, none for any other frame |
| `Runtime.CommandRuntime.CollectHealthFlags` | stm32/app/src/can/runtime.c:206-230 | joining the bits one by one gives the health byte |
| `Runtime.CommandRuntime.SendStatus` | stm32/app/src/can/runtime.c:232-255 | one STATUS carrying the health byte and the counters |
| `Runtime.CommandRuntime.PerformCommand` | stm32/app/src/can/runtime.c:338-372 | plan, execute, record, cache and reply, with both failure exits |
| `Runtime.CommandRuntime.ServiceNext` | stm32/app/src/can/runtime.c:289-373 | the object's whole new state, replies, diagnostics and device writes for one received frame |
| `RuntimeSafety.DecodedCommand` | stm32/app/src/can/protocol.c:152-246 | a decoded command is in range, from the controller, for this node or broadcast ENTER_SAFE, and spelled out by identifier and payload |
| `RuntimeSafety.DecodingOf` | stm32/app/src/can/protocol.c:152-246 | conversely, a frame that spells out a command for this node decodes to it |
| `RuntimeSafety.ServiceIsSafe` | stm32/app/src/can/runtime.c:289-373 | one frame under any SPI failures keeps truthful replay, the attenuator bound and lockout, and moves the phase only at 23 dB |
| `RuntimeSafety.DispositionExactly` | stm32/app/src/can/runtime.c:289-373 | what becomes of every frame: a command neither answered from the cache nor barred is carried out, and completes exactly when every write of its order succeeds |
| `RuntimeSafety.BroadcastIsObeyed` | stm32/app/src/can/runtime.c:338-369 | a broadcast ENTER_SAFE is carried out, in lockout too, without a reply; completed, it leaves the safe state, both safe words and an empty cache |
| `RuntimeSafety.ReplyDiscipline` | stm32/app/src/can/runtime.c:126-255 | one reply, addresses swapped and sequence kept, to each controller request to this node; none to any other frame |
| `RuntimeSafety.ReplyTellsWhy` | stm32/app/src/can/runtime.c:289-373 | which reply and result code each outcome gives, and exactly which frames are rejected |
| `RuntimeSafety.RejectionReasons` | stm32/app/src/can/protocol.c:152-246 | a request to this node is rejected for a wrong length, else for an attenuation above 23, and for nothing else |
| `RuntimeSafety.RepliesAreSendable` | stm32/app/src/can/runtime.c:126-255 | the bus accepts every reply, in the priority class of its type |
| `RuntimeSafety.HealthBits` | stm32/app/src/can/runtime.c:206-230 | each health bit reports its one condition |
| `RuntimeSafety.EffectsByDisposition` | stm32/app/src/can/runtime.c:300-372 | a fault leaves state and cache alone; replays, refusals and PINGs write nothing |
| `RuntimeSafety.ReuseExactly` | stm32/app/src/can/runtime.c:56-97 | under the cached key: replay if and only if identical, sequence reuse if and only if different and well formed |
| `RuntimeSafety.LongerCopyIsNotReuse` | stm32/app/src/can/runtime.c:87-89 | an instance: a longer copy of the cached request is rejected for its length |
| `RuntimeSafety.OnlySettersAreReused` | stm32/app/src/can/runtime.c:91-93 | only commands with a payload can be sequence reuse, and only with other values |
| `RuntimeSafety.CompletedServiceRestores` | stm32/app/src/can/runtime.c:347-360 | after any faults a completed command other than SET_VGA makes devices and state agree again |
| `RuntimeSafety.FaultFreeServiceAgrees` | stm32/app/src/can/runtime.c:347-360 | without SPI failures agreement is kept |
| `RuntimeSafety.FaultFreeRunAgrees` | stm32/app/src/can/runtime.c:289-373 | on a fault-free run latches, recorded commands and state coincide throughout |
| `RuntimeSafety.RunIsSafe` | stm32/app/src/can/runtime.c:289-373 | the invariants over every run; under lockout only the two safe words are written and the state never moves |
| `RuntimeSafety.InvalidCountIsTrue` | stm32/app/src/can/runtime.c:38-43 | the counter is the number of frames refused by decoder or replay check, saturated |
| `Client.NextSequenceWraps` | pi/src/beamcontrol/client.py:92-94 | the counter goes up by one modulo 2^16, and two steps never meet |
| `Client.VerdictByReply` | pi/src/beamcontrol/client.py:134-160 | exactly which replies are ignored, acknowledge, refuse or cause resequencing |
| `Client.RetriesAreExact` | pi/src/beamcontrol/client.py:117-166 | every retry repeats its message exactly, the sequence moves on at most once, and giving up takes the first try and every retry, no fewer and no more |
| `Client.EveryEventCounts` | pi/src/beamcontrol/client.py:123-165 | every deadline but the last and every resequencing costs one copy, and a call ends as its last event decides |
| `Client.DecisiveReplyEnds` | pi/src/beamcontrol/client.py:143-159 | no decisive reply is passed over |
| `Client.StatusByReply` | pi/src/beamcontrol/client.py:218-242 | exactly which replies answer a discovery, fail it or are passed over |
| `Client.BeamControlClient.NextSeq` | pi/src/beamcontrol/client.py:92-94 | counts up modulo 2^16 and never returns the sequence before |
| `Client.BeamControlClient.AwaitReply` | pi/src/beamcontrol/client.py:128-160 | the receive loop adds only replies it read, in order and on time, and ends in the verdict on the first decisive one or when a clock reading shows the timeout used up; the sum of the clock's gaps stays below the timeout until then and reaches it there |
| `Client.BeamControlClient.TransactLocked` | pi/src/beamcontrol/client.py:117-166 | the nested loops send, return and count as a run of the one-event step function over the replies read and the deadlines passed, each when the clock calls for it; a timeout comes after all the copies allowed, any other outcome from the last reply read |
| `Client.OneCourse` | pi/src/beamcontrol/client.py:126-165 | clock and transport determine that run: no two courses of events satisfy it |
| `Client.BeamControlClient.Transact` | pi/src/beamcontrol/client.py:107-182 | invalid arguments raise before anything is sent or counted |
| `Client.BeamControlClient.DiscoverLocked` | pi/src/beamcontrol/client.py:203-243 | one PING, repeated exactly; the first matching STATUS decides; giving up takes every retry and, each time, the whole timeout spent reading replies |
| `Client.BeamControlClient.AwaitStatus` | pi/src/beamcontrol/client.py:215-242 | the receive loop of one PING, as punctual as that of a command |
| `Client.OneSearch` | pi/src/beamcontrol/client.py:211-243 | clock and transport determine the course of a discovery |
| `Client.BeamControlClient.BroadcastEnterSafe` | pi/src/beamcontrol/client.py:184-195 | one broadcast under the next sequence |
| `EndToEnd.CallsBecomeCommands` | pi/src/beamcontrol/client.py:168-182 | the public operations accept exactly the documented ranges, no boolean or other type, and mean the command they name |
| `EndToEnd.ClientMessageDecodes` | pi/src/beamcontrol/client.py:96-104 | every message the client builds decodes at its destination to the type, sequence and fields asked for |
| `EndToEnd.ServiceOfRequest` | stm32/app/src/can/runtime.c:313-372 | the five outcomes of a copy of a request, by what the cache holds |
| `EndToEnd.StartHolds` | pi/src/beamcontrol/client.py:117-127 | a call may begin over any safe receiver and any cache when its two sequences are not in flight |
| `EndToEnd.EventKeeps` | pi/src/beamcontrol/client.py:117-166 | every delivery, loss, duplicate, timeout and reply keeps the invariant that relates both programs |
| `EndToEnd.EndToEndCommand` | pi/src/beamcontrol/client.py:117-166 | on every run an ACK means the state holds the request, the plan completed at most once, and no call ends in reuse or violation |
| `EndToEnd.FaultFreeRunKeepsAgreement` | stm32/app/src/can/runtime.c:289-373 | while no SPI write fails the devices follow the state through the exchange |
| `DeviceTruth.CompletionSetsLatches` | stm32/app/src/can/runtime.c:338-360 | a completed request leaves its words latched, whatever went before, the phase word bit by bit that of the state asked for |
| `DeviceTruth.LatchesBitByBit` | docs/rf-control.md:18-53 | latched words, bit by bit: the control word of the state asked for and four times the attenuation |
| `DeviceTruth.CacheComesFrom` | stm32/app/src/can/runtime.c:99-124 | a frame leaves the cache alone, empties it, or puts its own sequence there |
| `DeviceTruth.EventKeepsTruth` | stm32/app/src/can/runtime.c:289-373 | every event keeps the call's words latched once its plan completed, and its command out of the cache until then |
| `DeviceTruth.AckMeansDevicesSet` | docs/can-protocol.md:81-86 | under any SPI failures and any device contents, an ACK means the plan was carried out once and its words are latched, unless the cache held this very command from the start |
| `DeviceTruth.AckSetsDevicesExactly` | docs/can-protocol.md:81-86 | every acknowledged run leaves the words latched if and only if the cache did not hold the command or the devices held the words |
| `DeviceTruth.FaultThenRestartMisleads` | stm32/app/src/can/runtime.c:318-356 | the run that breaks the promise: a fault keeps the older ACK, a restarted client gets it, and the phase is another |
| `Freshness.EventKeepsHonest` | pi/src/beamcontrol/client.py:128-160 | what no event can change while nothing in flight or in the cache leads the client to a false ACK |
| `Freshness.MisledExactly` | pi/src/beamcontrol/client.py:3-9 | over a quiet request channel, exactly which in-flight replies and cache let some run acknowledge a command that the state does not hold |
| `Progress.WorkingCallIsNeverRefused` | pi/src/beamcontrol/client.py:148-166 | with working hardware and no lockout, a call that ends is acknowledged or timed out, on every run |
| `Progress.HeardCallIsAcknowledged` | pi/src/beamcontrol/client.py:128-160 | on every such run an answer to the message being sent acknowledges the call, or moves a first attempt with a taken key to the second |
| `Progress.DeliveredCallIsAnswered` | stm32/app/src/can/runtime.c:289-373 | on every such run a delivered copy of the message being sent puts an answer to it on the bus |
| `EndToEnd.UndisturbedCommandSucceeds` | pi/src/beamcontrol/client.py:117-166 | with nothing lost and nothing failing the call is acknowledged |
| `EndToEnd.RestartedClientRecovers` | pi/src/beamcontrol/client.py:118-156 | after a client restart that collides with the cached key, the call succeeds under the next sequence |
| `EndToEnd.StaleAckMisleads` | pi/src/beamcontrol/client.py:3-9 | without fresh sequences an old ACK is believed although the state does not hold the request |
| `EndToEnd.DiscoveryReadsStatus` | pi/src/beamcontrol/client.py:203-243 | the client reads back the very status the receiver reported |
| `EndToEnd.BroadcastReachesAll` | pi/src/beamcontrol/client.py:184-195 | the broadcast decodes to ENTER_SAFE at every node |
| `EndToEnd.BroadcastMakesSafe` | pi/src/beamcontrol/client.py:184-195 | the client's broadcast brings every node with working hardware to the safe state |
| `Session.RunKeepsUnused` | pi/src/beamcontrol/client.py:117-166 | a call puts no frame in flight under any sequence but its own two |
| `Session.CallKeepsWindow` | pi/src/beamcontrol/client.py:92-94 | a call uses up at most two sequences of the unused stretch ahead |
| `Session.EveryCallIsTruthful` | pi/src/beamcontrol/client.py:117-166 | every call of a session is truthful, however the earlier ones ended |
| `Session.CallKeepsCacheWindow` | stm32/app/src/can/runtime.c:99-124 | a call uses up at most two of the sequences ahead that the cache does not hold |
| `Session.EveryAckSetsDevices` | pi/src/beamcontrol/client.py:117-166 | every ACK of a session leaves its words latched, under any SPI failures, if the cache began with no sequence still ahead |
| `Session.QuietBusMayRun` | pi/src/beamcontrol/client.py:3-9 | from a quiet bus, 32767 calls in a row need no assumption about sequences; with an empty cache, none about the cache either |
| `Startup.StartUp` | stm32/app/src/main.c:70-146 | what `main` writes, records and starts, for every outcome of clock, SPI and bus |
| `Startup.RunStartupPlan` | stm32/app/src/main.c:107-122 | 23 dB first, the safe-outputs note, then the rest, stopping at a fault |
| `Startup.ServiceRuntime` | stm32/app/src/main.c:54-68 | the loop serves every waiting frame in order |
| `Startup.StartupIsSafe` | stm32/app/src/main.c:70-146 | start-up moves the phase only at 23 dB and hands over a safe runtime in agreement with its devices |
| `Startup.StartupEndings` | stm32/app/src/main.c:79-146 | how start-up ends for every outcome of clock, SPI and bus: result, fault, record updates and latched words |
| `Startup.StartupIsRecorded` | stm32/app/src/main.c:110-146 | outputs are called safe exactly after the 23 dB write; a reset leaves its fault; only an unlocked boot is marked healthy |
| `Startup.BootIsSafe` | stm32/app/src/main.c:70-149 | from power-up on, any faults and frames: phase moves only at 23 dB, and in lockout only 0x5C and state 0's word are written |
| `Startup.FaultFreeBootAgrees` | stm32/app/src/main.c:70-149 | from power-up on without SPI failures, devices, records and state coincide |
| `Startup.PossibleBootsBehave` | stm32/app/src/main.c:133-146 | no boot of this program, cut short anywhere, sets the healthy state directly or marks a locked-out boot healthy |
| `Startup.SafeLockoutOverHistory` | stm32/app/src/main.c:75-146 | over any history of this program's boots, exactly when lockout is required, and that it then stays |
| `Vectors.SharedIds` | protocol/v3.0-vectors.toml:3-25 | the shared identifier vectors, in both programs |
| `Vectors.SharedCommands` | protocol/v3.0-vectors.toml:27-101 | the shared command vectors decode to their fields or are rejected with their result codes |
| `Vectors.SerialWords` | docs/rf-control.md:33-55 | the documented PE44820 and F0480 words |

## What is assumed

- `can_transmit` succeeds exactly when a mailbox is free. A mailbox that frees itself in the middle of
  a send or a drain is the same run with that event, and one more drain, right after it.
- A failed SPI write does not latch; the drivers return before raising the latch line. The failures
  are an arbitrary function of the write's place in the plan.
- The calibration table is any 256 nine-bit words, so nothing proved depends on its values.
- The client's clock strictly advances between readings, by arbitrary amounts; what `recv` returns is arbitrary.
- Requests keep their order on the bus, though any may be lost or arrive twice in a row; replies may be
  lost or doubled and arrive in any order. Frames from the addressed node that are neither old traffic nor answers do not occur, since the
  firmware sends only answers.
- Logs and histories (`arrival`, `handed`, `accepted`, `lost`, `delivered`, `served`, `completed`, device and outbox
  logs) exist to state order and counts; no branch reads them.

## Left out

- GPIO, clock, SPI and bxCAN registers, watchdog, fault vectors and bus-off detection: hardware, reduced to success or failure or to an input.
- bxCAN mailbox arbitration after a frame has been handed over.
- Agreement of devices and software state after a fault: the firmware does not promise it. What is proved is how it is restored, and when an ACK is nevertheless proof that the devices were set.
- Device readback, electrical timing and RF performance: the program makes no claim about them.
- The real calibration constants and the lookup CSV: data.
- python-can, SocketCAN, the client's lock and threads: calls on one client are taken one at a time, as the lock makes them.
- NULL-argument checks, and the padding bytes of C structs.
- `Runtime.CommandRuntime.Send`: logs the reply instead of calling the driver object; `RuntimeSafety.RepliesAreSendable` shows the driver's checks would pass, and `CanBus` covers what happens next.
- `Session.EveryCallIsTruthful`: a session addresses one receiver; broadcasts and PINGs between its calls are not in the run, and beyond 32767 calls freshness is again an assumption.
- PING retries inside the lossy system of `EndToEnd`: discovery is proved call by call instead.
- The monitor, web dashboard, CLI, deployment and simulation tools: thin wrappers and I/O.
