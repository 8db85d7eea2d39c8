/**
 Start-up and the service loop: stm32/app/src/main.c. The clock, the SPI ports and the CAN
 controller report whatever the environment chooses; `firmware_fail` ends the boot.
 */
module Startup {
  import opened Bits
  import opened Protocol
  import opened RfCommands
  import opened RfPlan
  import opened RfExecute
  import opened RfSafety
  import opened Firmware
  import opened Runtime
  import opened RuntimeSafety
  import DiagnosticRecord
  import BootHistory

  const OPERATIONAL_PHASE_MILLIDEGREES: u32 := 205300
  const SAFE_PHASE_MILLIDEGREES: u32 := 0

  datatype StartResult = Reset(fault: Fault) | ServingWithoutCan | Serving(receiver: Receiver)

  datatype StartedNode = StartedNode(
    result: StartResult, outputs: Outputs, writes: seq<Write>, events: seq<RecordEvent>)

  /** Everything `main` does before its service loop, once the retained record has been read. */
  function StartNode(
    words: Calibration, nodeId: u8, lockout: bool, clock: Option<Clock>, o: Outputs, port: SpiPort, busReady: bool)
    : StartedNode
  {
    if clock.None? then StartedNode(Reset(ClockStartup), o, [], [SetFault(ClockStartup)])
    else
      var ready := [SetClock(clock.value), SetState(ClockReady)];
      var phase := PhaseStateFromMillidegrees(
        if lockout then SAFE_PHASE_MILLIDEGREES else OPERATIONAL_PHASE_MILLIDEGREES);
      if phase.None? then StartedNode(Reset(PhaseCommandFault), o, [], ready + [SetFault(PhaseCommandFault)])
      else
        var planned := PlanStartup(words, phase.value, VGA_MAX_ATTENUATION_DB, Plan([], RfState(0, 0)));
        if planned.result != ResultOk then
          StartedNode(Reset(PhaseCommandFault), o, [], ready + [SetFault(PhaseCommandFault)])
        else
          var e := Execute(planned.plan.operations, o.(lastPhase := 0, lastVga := 0), port);
          var quiet := if e.writes == [] then [] else [SetState(SafeOutputs)];
          if e.fault != NoFault then
            StartedNode(Reset(e.fault), e.outputs, e.writes, ready + quiet + [SetFault(e.fault)])
          else
            var recorded := ready + quiet + [SetCommands(e.outputs.lastPhase, e.outputs.lastVga)];
            match StartReceiver(
              Config(words, nodeId, clock.value, lockout), planned.plan.resulting, e.outputs,
              e.outputs.lastPhase, e.outputs.lastVga, busReady)
            case Some(receiver) =>
              StartedNode(Serving(receiver), e.outputs, e.writes,
                          recorded + [if lockout then SetState(SafeLockout) else MarkHealthy])
            case None =>
              if lockout then
                StartedNode(ServingWithoutCan, e.outputs, e.writes,
                            recorded + [SetFault(CanInit), SetState(SafeLockout)])
              else StartedNode(Reset(CanInit), e.outputs, e.writes, recorded + [SetFault(CanInit)])
  }

  /** The start-up plan and what any prefix of it leaves: 23 dB first, then the phase word. */
  lemma StartupWrites(words: Calibration, phaseState: u8, o: Outputs, n: nat)
    requires n <= 2
    ensures var ops := [VgaOp(23), PhaseOp(words, phaseState)];
      var after := OutputsAfter(ops, n, o);
      && PhaseWritesAreQuiet(WritesOf(ops, n, o))
      && (phaseState == 0 ==> SafeWords(words, WritesOf(ops, n, o)))
      && (n == 2 ==> after == Outputs(EncodePhase(words, phaseState), SAFE_VGA_COMMAND,
                                      EncodePhase(words, phaseState), SAFE_VGA_COMMAND))
  {
    hide EncodePhase, OutputsAfter, WritesOf;
    var ops := [VgaOp(23), PhaseOp(words, phaseState)];
    GuardedOrderIsQuiet(ops, n, o);
    UnfoldOutputs(ops, 2, o);
    UnfoldOutputs(ops, 1, o);
    UnfoldOutputs(ops, 0, o);
    if phaseState == 0 {
      SafeOperationsWriteSafeWords(words, ops, n, o);
    }
  }

  /** The start-up plan carried out as far as the SPI lets it. */
  lemma StartupExecution(words: Calibration, phaseState: u8, o: Outputs, port: SpiPort)
    ensures var e := Execute([VgaOp(23), PhaseOp(words, phaseState)], o, port);
      && PhaseWritesAreQuiet(e.writes) && (phaseState == 0 ==> SafeWords(words, e.writes))
      && (e.writes != [] ==> e.writes[0].kind.VgaWrite? && e.writes[0].command == SAFE_VGA_COMMAND)
      && (e.fault == NoFault ==>
            e.writes != []
            && e.outputs == Outputs(EncodePhase(words, phaseState), SAFE_VGA_COMMAND,
                                    EncodePhase(words, phaseState), SAFE_VGA_COMMAND))
  {
    hide EncodePhase, OutputsAfter, WritesOf, PhaseWritesAreQuiet, SafeWords, CompletedWrites, DriverStatus;
    var ops := [VgaOp(23), PhaseOp(words, phaseState)];
    StartupWrites(words, phaseState, o, CompletedWrites(ops, 0, port));
    FirstFaultStops(ops, o, port);
  }

  /**
   Start-up never moves the phase below 23 dB, whatever the devices held before. If it reaches the
   service loop, hardware and software agree, every runtime invariant holds, and a locked-out node
   has written nothing but the two safe words.
   */
  lemma StartupIsSafe(
    words: Calibration, nodeId: u8, lockout: bool, clock: Option<Clock>, o: Outputs, port: SpiPort, busReady: bool)
    ensures var n := StartNode(words, nodeId, lockout, clock, o, port, busReady);
      && PhaseWritesAreQuiet(n.writes)
      && (lockout ==> SafeWords(words, n.writes))
      && (n.result.Serving? ==>
            var r := n.result.receiver;
            && Safe(r) && r.config == Config(words, nodeId, clock.value, lockout)
            && r.state == RfState(if lockout then 0 else 146, 23)
            && r.cache == Empty && r.invalidCommands == 0
            && InAgreement(words, r.outputs, r.state) && r.outputs == n.outputs)
  {
    hide PlanStartup, PhaseStateFromMillidegrees, EncodePhase, SafeWords, PhaseWritesAreQuiet, Execute;
    StartupAngles();
    var phase: u8 := if lockout then 0 else 146;
    StartupPlan(words, phase, Plan([], RfState(0, 0)));
    StartupExecution(words, phase, o.(lastPhase := 0, lastVga := 0), port);
    NoWritesAreSafe(words);
  }

  /** `main` marks a boot healthy only when it is not locked out, and never through the plain state setter. */
  lemma StartupEvents(
    words: Calibration, nodeId: u8, lockout: bool, clock: Option<Clock>, o: Outputs, port: SpiPort, busReady: bool)
    ensures var events := StartNode(words, nodeId, lockout, clock, o, port, busReady).events;
      SetState(Healthy) !in events && (lockout ==> MarkHealthy !in events)
  {
    hide PlanStartup, PhaseStateFromMillidegrees, Execute, StartReceiver;
  }

  function Last(events: seq<RecordEvent>): RecordEvent
    requires events != []
  {
    events[|events| - 1]
  }

  /**
   What start-up leaves in the retained record: the outputs are called safe exactly when 23 dB has
   been written, a reset leaves its fault, a boot that reaches service leaves its clock, its last
   commands and, unless it is locked out, the healthy mark.
   */
  lemma StartupIsRecorded(
    words: Calibration, nodeId: u8, lockout: bool, clock: Option<Clock>, o: Outputs, port: SpiPort, busReady: bool)
    ensures var n := StartNode(words, nodeId, lockout, clock, o, port, busReady);
      && n.events != []
      && (SetState(SafeOutputs) in n.events <==> n.writes != [])
      && (n.writes != [] ==> n.writes[0].kind.VgaWrite? && n.writes[0].command == SAFE_VGA_COMMAND)
      && match n.result
         case Reset(fault) => fault != NoFault && Last(n.events) == SetFault(fault)
         case ServingWithoutCan =>
           lockout && !(busReady && NODE_MIN <= nodeId <= NODE_MAX)
           && n.events[|n.events| - 2..] == [SetFault(CanInit), SetState(SafeLockout)]
         case Serving(receiver) =>
           && clock.Some? && SetClock(clock.value) in n.events
           && SetCommands(n.outputs.phaseLatch, n.outputs.vgaLatch) in n.events
           && Last(n.events) == if lockout then SetState(SafeLockout) else MarkHealthy
  {
    hide PlanStartup, PhaseStateFromMillidegrees, EncodePhase, PhaseWritesAreQuiet, SafeWords, Execute;
    StartupAngles();
    var phase: u8 := if lockout then 0 else 146;
    StartupPlan(words, phase, Plan([], RfState(0, 0)));
    StartupExecution(words, phase, o.(lastPhase := 0, lastVga := 0), port);
  }

  /** The start-up plan, and the record updates on the way to the point where the bus is tried. */
  function StartupOps(words: Calibration, lockout: bool): (ops: seq<Operation>)
    ensures |ops| == 2
  {
    [VgaOp(23), PhaseOp(words, if lockout then 0 else 146)]
  }

  function FailedWrite(writes: seq<Write>, port: SpiPort): Fault
  {
    if writes == [] then if port(0) == SpiTimeout then VgaSpiTimeout else VgaSpiError
    else if port(1) == SpiTimeout then PhaseSpiTimeout else PhaseSpiError
  }

  /**
   How start-up ends, for every outcome of clock, SPI and bus. No clock: reset before anything is
   written. A failed write: reset with that write's fault. A bus that does not come up: a locked-out
   node goes on without it, any other resets. Only what is left serves, and only that, unlocked, is
   marked healthy.
   */
  lemma StartupEndings(
    words: Calibration, nodeId: u8, lockout: bool, clock: Option<Clock>, o: Outputs, port: SpiPort, busReady: bool)
    ensures var n := StartNode(words, nodeId, lockout, clock, o, port, busReady);
      match clock
      case None => n == StartedNode(Reset(ClockStartup), o, [], [SetFault(ClockStartup)])
      case Some(c) =>
        var reached := [SetClock(c), SetState(ClockReady)] + if n.writes == [] then [] else [SetState(SafeOutputs)];
        var recorded := reached + [SetCommands(n.outputs.phaseLatch, n.outputs.vgaLatch)];
        if !AllSucceed(StartupOps(words, lockout), port) then
          |n.writes| <= 1 && n.result == Reset(FailedWrite(n.writes, port))
          && n.events == reached + [SetFault(FailedWrite(n.writes, port))]
        else
          && |n.writes| == 2 && n.outputs.vgaLatch == 0x5c
          && BitsMsb(n.outputs.phaseLatch, 13) == SerialBits(words[if lockout then 0 else 146])
          && if busReady && 1 <= nodeId <= 30 then
               n.result.Serving? && n.events == recorded + [if lockout then SetState(SafeLockout) else MarkHealthy]
             else if lockout then
               n.result == ServingWithoutCan && n.events == recorded + [SetFault(CanInit), SetState(SafeLockout)]
             else n.result == Reset(CanInit) && n.events == recorded + [SetFault(CanInit)]
  {
    hide PlanStartup, PhaseStateFromMillidegrees, EncodePhase, PhaseWritesAreQuiet, SafeWords, Execute, BitsMsb,
         SerialBits, AllSucceed, DriverStatus;
    StartupAngles();
    var phase: u8 := if lockout then 0 else 146;
    var o' := o.(lastPhase := 0, lastVga := 0);
    StartupPlan(words, phase, Plan([], RfState(0, 0)));
    StartupExecution(words, phase, o', port);
    StartupFault(words, phase, o', port);
    EncodedWord(words, phase);
  }

  lemma StartupFault(words: Calibration, phaseState: u8, o: Outputs, port: SpiPort)
    ensures var ops := [VgaOp(23), PhaseOp(words, phaseState)];
      var e := Execute(ops, o, port);
      if AllSucceed(ops, port) then e.fault == NoFault && |e.writes| == 2
      else |e.writes| <= 1 && e.fault == FailedWrite(e.writes, port)
  {
    hide EncodePhase, Execute, AllSucceed, DriverStatus;
    var ops := [VgaOp(23), PhaseOp(words, phaseState)];
    EncodedPhaseFits(words, phaseState);
    FirstFaultStops(ops, o, port);
    WhatFails(ops[0], port(0));
    WhatFails(ops[1], port(1));
  }

  /** A whole boot: start-up, then whatever frames arrive, each under its own SPI failures. */
  function WholeBoot(
    words: Calibration, nodeId: u8, lockout: bool, clock: Option<Clock>, o: Outputs, port: SpiPort, busReady: bool,
    inputs: seq<Input>): (seq<Write>, seq<RecordEvent>)
  {
    var n := StartNode(words, nodeId, lockout, clock, o, port, busReady);
    StartupIsSafe(words, nodeId, lockout, clock, o, port, busReady);
    match n.result
    case Serving(receiver) =>
      var h := ServeAll(receiver, inputs);
      (n.writes + h.writes, n.events + h.events)
    case _ => (n.writes, n.events)
  }

  /**
   From power-up on, under any device contents, SPI failures and frames: each phase write reaches
   the device while 23 dB is latched; and in lockout the only words ever written are 0x5C and the
   word of phase state 0, replays included.
   */
  lemma BootIsSafe(
    words: Calibration, nodeId: u8, lockout: bool, clock: Option<Clock>, o: Outputs, port: SpiPort, busReady: bool,
    inputs: seq<Input>)
    ensures var writes := WholeBoot(words, nodeId, lockout, clock, o, port, busReady, inputs).0;
      PhaseWritesAreQuiet(writes) && (lockout ==> SafeWords(words, writes))
  {
    hide StartNode, Safe, SafeWords, PhaseWritesAreQuiet, ServeAll;
    StartupIsSafe(words, nodeId, lockout, clock, o, port, busReady);
    var n := StartNode(words, nodeId, lockout, clock, o, port, busReady);
    if n.result.Serving? {
      RunIsSafe(n.result.receiver, inputs);
      SafeWritesJoin(words, n.writes, ServeAll(n.result.receiver, inputs).writes);
    }
  }

  /** From power-up on, while no SPI write fails, the devices hold the encoding of the software state. */
  lemma FaultFreeBootAgrees(
    words: Calibration, nodeId: u8, lockout: bool, clock: Option<Clock>, o: Outputs, port: SpiPort, busReady: bool,
    inputs: seq<Input>)
    requires NODE_MIN <= nodeId <= NODE_MAX && clock.Some? && busReady && FaultFree(port)
    requires forall i :: 0 <= i < |inputs| ==> FaultFree(inputs[i].port)
    ensures var n := StartNode(words, nodeId, lockout, clock, o, port, busReady);
      && n.result.Serving? && Safe(n.result.receiver)
      && var r := ServeAll(n.result.receiver, inputs).receiver;
         InAgreement(words, r.outputs, r.state)
         && r.outputs.lastPhase == EncodePhase(words, r.state.phaseState)
         && r.outputs.lastVga == 4 * r.state.attenuationDb
  {
    StartupIsSafe(words, nodeId, lockout, clock, o, port, busReady);
    FaultFreeStartupServes(words, nodeId, lockout, clock, o, port);
    hide StartNode, Safe, FaultFree, ServeAll;
    FaultFreeRunAgrees(StartNode(words, nodeId, lockout, clock, o, port, busReady).result.receiver, inputs);
  }

  lemma FaultFreeStartupServes(
    words: Calibration, nodeId: u8, lockout: bool, clock: Option<Clock>, o: Outputs, port: SpiPort)
    requires NODE_MIN <= nodeId <= NODE_MAX && clock.Some? && FaultFree(port)
    ensures StartNode(words, nodeId, lockout, clock, o, port, true).result.Serving?
  {
    hide PlanStartup, PhaseStateFromMillidegrees, EncodePhase, OutputsAfter, WritesOf;
    StartupAngles();
    var phase: u8 := if lockout then 0 else 146;
    StartupPlan(words, phase, Plan([], RfState(0, 0)));
    EncodedPhaseFits(words, phase);
    var ops := [VgaOp(23), PhaseOp(words, phase)];
    assert forall j :: 0 <= j < 2 ==> DriverStatus(ops[j], port(j)) == SpiOk;
  }

  // What the retained record sees of a boot

  /**
   The record updates of one boot of this program, cut short anywhere: by power or watchdog (a
   prefix), or by a fault handler that records its fault and resets.
   */
  ghost predicate PossibleBoot(events: seq<RecordEvent>, lockout: bool)
  {
    exists words: Calibration, nodeId: u8, clock: Option<Clock>, o: Outputs, port: SpiPort, busReady: bool,
           inputs: seq<Input> ::
      BootMayRecord(WholeBoot(words, nodeId, lockout, clock, o, port, busReady, inputs).1, events)
  }

  ghost predicate BootMayRecord(whole: seq<RecordEvent>, events: seq<RecordEvent>)
  {
    exists n: nat :: n <= |whole| && (events == whole[..n] || exists f: Fault :: events == whole[..n] + [SetFault(f)])
  }

  lemma WholeBootEvents(
    words: Calibration, nodeId: u8, lockout: bool, clock: Option<Clock>, o: Outputs, port: SpiPort, busReady: bool,
    inputs: seq<Input>)
    ensures var events := WholeBoot(words, nodeId, lockout, clock, o, port, busReady, inputs).1;
      SetState(Healthy) !in events && (lockout ==> MarkHealthy !in events)
  {
    hide StartNode, Safe, ServeAll;
    StartupEvents(words, nodeId, lockout, clock, o, port, busReady);
    StartupIsSafe(words, nodeId, lockout, clock, o, port, busReady);
    var n := StartNode(words, nodeId, lockout, clock, o, port, busReady);
    if n.result.Serving? {
      RunRecords(n.result.receiver, inputs);
    }
  }

  lemma PossibleBootsBehave(events: seq<RecordEvent>, lockout: bool)
    requires PossibleBoot(events, lockout)
    ensures SetState(Healthy) !in events && (lockout ==> MarkHealthy !in events)
  {
    hide WholeBoot;
    var words, nodeId, clock, o, port, busReady, inputs :|
      BootMayRecord(WholeBoot(words, nodeId, lockout, clock, o, port, busReady, inputs).1, events);
    WholeBootEvents(words, nodeId, lockout, clock, o, port, busReady, inputs);
  }

  /** Every boot of the history is one this program can produce, given the lockout decision it began with. */
  ghost predicate BootsOfThisProgram(leftover: DiagnosticRecord.Record, buildId: u32, boots: seq<BootHistory.Boot>)
  {
    forall i :: 0 <= i < |boots| ==>
      PossibleBoot(boots[i].events, BootHistory.Lockout(leftover, buildId, boots, i))
  }

  /**
   For this program: safe lockout is required exactly when the two latest boots never became healthy
   and the one before them ended unhealthy, and from then on it holds at every later boot.
   */
  lemma SafeLockoutOverHistory(
    leftover: DiagnosticRecord.Record, buildId: u32, boots: seq<BootHistory.Boot>, n: nat, later: nat)
    requires n <= later < |boots| && BootHistory.FreshStart(leftover, buildId)
    requires BootsOfThisProgram(leftover, buildId, boots)
    ensures BootHistory.Lockout(leftover, buildId, boots, n)
            <==> n >= 3 && !BootHistory.ReachedHealthy(boots[n - 1]) && !BootHistory.ReachedHealthy(boots[n - 2])
                 && !BootHistory.EndsHealthy(boots[n - 3].events)
    ensures BootHistory.Lockout(leftover, buildId, boots, n) ==> BootHistory.Lockout(leftover, buildId, boots, later)
  {
    hide BootHistory.Lockout, PossibleBoot, BootHistory.FreshStart, BootHistory.EndsHealthy;
    forall i | 0 <= i < |boots|
      ensures BootHistory.NeverSetsHealthyDirectly(boots[i])
      ensures BootHistory.Lockout(leftover, buildId, boots, i) ==> !BootHistory.ReachedHealthy(boots[i])
    {
      PossibleBootsBehave(boots[i].events, BootHistory.Lockout(leftover, buildId, boots, i));
    }
    BootHistory.LockoutExactly(leftover, buildId, boots, n);
    if BootHistory.Lockout(leftover, buildId, boots, n) {
      BootHistory.LockoutIsSticky(leftover, buildId, boots, n, later);
    }
  }

  // The program itself

  /** `main` up to its service loop; the result says where it ended. */
  method StartUp(
    runtime: CommandRuntime, retained: BootHistory.RetainedDiagnostics, nodeId: u8, resetFlags: u32, buildId: u32,
    clock: Option<Clock>, port: SpiPort, busReady: bool) returns (fault: Fault, canReady: bool)
    modifies runtime, runtime.devices, retained
    ensures var begun := DiagnosticRecord.BeginBoot(old(retained.record), resetFlags, buildId);
      var n := StartNode(
        runtime.words, nodeId, DiagnosticRecord.ShouldLockout(begun), clock, old(runtime.devices.Value()), port, busReady);
      && retained.record == BootHistory.RetainAll(begun, n.events)
      && runtime.devices.log == old(runtime.devices.log) + n.writes
      && (match n.result
          case Reset(f) => fault == f
          case ServingWithoutCan => fault == NoFault && !canReady
          case Serving(receiver) => fault == NoFault && canReady && runtime.Value() == receiver)
  {
    hide PlanStartup, PhaseStateFromMillidegrees, MakePhaseCommand, Execute, VgaOp, PhaseOp, DiagnosticRecord.BeginBoot,
         DiagnosticRecord.ShouldLockout, DiagnosticRecord.IsValid, DiagnosticRecord.Fold, DiagnosticRecord.Body,
         BootHistory.Starts, BootHistory.FreshStart, BootHistory.Retain, BootHistory.RetainAll;
    canReady := false;
    retained.Begin(resetFlags, buildId);
    ghost var begun := retained.record;
    ghost var before := runtime.devices.Value();
    var lockout := retained.LockoutRequired();
    RetainNothing(begun);
    assert forall e: RecordEvent :: [] + [e] == [e];
    if clock.None? {
      Record(retained, SetFault(ClockStartup), begun, []);
      return ClockStartup, false;
    }
    Record(retained, SetClock(clock.value), begun, []);
    Record(retained, SetState(ClockReady), begun, [SetClock(clock.value)]);
    ghost var events := [SetClock(clock.value), SetState(ClockReady)];
    assert [SetClock(clock.value)] + [SetState(ClockReady)] == events;

    var phase := PhaseStateFromMillidegrees(
      if lockout then SAFE_PHASE_MILLIDEGREES else OPERATIONAL_PHASE_MILLIDEGREES);
    if phase.None? {
      Record(retained, SetFault(PhaseCommandFault), begun, events);
      return PhaseCommandFault, false;
    }
    var plan := new PlanBuffer();
    var planned := plan.Startup(runtime.words, phase.value, VGA_MAX_ATTENUATION_DB);
    if planned != ResultOk {
      Record(retained, SetFault(PhaseCommandFault), begun, events);
      return PhaseCommandFault, false;
    }
    StartupPlan(runtime.words, phase.value, Plan([], RfState(0, 0)));
    fault, events := RunStartupPlan(runtime.devices, retained, plan, port, begun, events);
    if fault != NoFault {
      Record(retained, SetFault(fault), begun, events);
      return;
    }
    var phaseCommand, vgaCommand := runtime.devices.lastPhaseCommand, runtime.devices.lastVgaCommand;
    Record(retained, SetCommands(phaseCommand, vgaCommand), begun, events);
    events := events + [SetCommands(phaseCommand, vgaCommand)];

    canReady := runtime.Start(nodeId, clock.value, lockout, plan.resulting, phaseCommand, vgaCommand, busReady);
    if !canReady {
      Record(retained, SetFault(CanInit), begun, events);
      if lockout {
        Record(retained, SetState(SafeLockout), begun, events + [SetFault(CanInit)]);
        assert events + [SetFault(CanInit)] + [SetState(SafeLockout)] == events + [SetFault(CanInit), SetState(SafeLockout)];
        return NoFault, false;
      }
      return CanInit, false;
    }
    Record(retained, if lockout then SetState(SafeLockout) else MarkHealthy, begun, events);
  }

  /** Maximum attenuation first, note that the outputs are safe, then the rest of the plan. */
  method RunStartupPlan(
    devices: RfDevices, retained: BootHistory.RetainedDiagnostics, plan: PlanBuffer, port: SpiPort,
    ghost begun: DiagnosticRecord.Record, ghost before: seq<RecordEvent>)
    returns (fault: Fault, ghost events: seq<RecordEvent>)
    requires plan.Valid() && plan.count > 0
    requires retained.record == BootHistory.RetainAll(begun, before)
    modifies devices, retained
    ensures retained.record == BootHistory.RetainAll(begun, events)
    ensures var o := old(devices.Value()).(lastPhase := 0, lastVga := 0);
      var e := Execute(plan.Value().operations, o, port);
      && fault == e.fault && devices.Value() == e.outputs && devices.log == old(devices.log) + e.writes
      && events == before + if e.writes == [] then [] else [SetState(SafeOutputs)]
  {
    hide BootHistory.RetainAll;
    events := before;
    devices.RecordLast(0, 0);
    ghost var o := devices.Value();
    ghost var ops := plan.Value().operations;
    var index := 0;
    while index < plan.count
      invariant 0 <= index <= plan.count == |ops|
      invariant plan.Valid() && plan.Value().operations == ops
      invariant devices.Value() == OutputsAfter(ops, index, o)
      invariant devices.log == old(devices.log) + WritesOf(ops, index, o)
      invariant CompletedWrites(ops, 0, port) == CompletedWrites(ops, index, port)
      invariant events == before + if index == 0 then [] else [SetState(SafeOutputs)]
      invariant retained.record == BootHistory.RetainAll(begun, events)
    {
      assert plan.operations[index] == ops[index];
      fault := devices.ExecuteOperation(plan.operations[index], port(index));
      if fault != NoFault {
        return;
      }
      if index == 0 {
        Record(retained, SetState(SafeOutputs), begun, events);
        events := events + [SetState(SafeOutputs)];
      }
      index := index + 1;
    }
    fault := NoFault;
  }

  /** One retained update, with the list of the boot's updates so far. */
  method Record(
    retained: BootHistory.RetainedDiagnostics, event: RecordEvent, ghost begun: DiagnosticRecord.Record,
    ghost events: seq<RecordEvent>)
    requires retained.record == BootHistory.RetainAll(begun, events)
    modifies retained
    ensures retained.record == BootHistory.RetainAll(begun, events + [event])
  {
    retained.Update(event);
    assert (events + [event])[..|events|] == events;
  }

  lemma RetainNothing(r: DiagnosticRecord.Record)
    ensures BootHistory.RetainAll(r, []) == r
  {
  }

  /** The service loop's inner turn: serve what has arrived until nothing is left. */
  method ServiceRuntime(runtime: CommandRuntime, inputs: seq<Input>)
    requires Safe(runtime.Value())
    modifies runtime, runtime.devices
    ensures var h := ServeAll(old(runtime.Value()), inputs);
      && runtime.Value() == h.receiver
      && runtime.outbox == old(runtime.outbox) + h.replies
      && runtime.diagnostics == old(runtime.diagnostics) + h.events
      && runtime.devices.log == old(runtime.devices.log) + h.writes
  {
    hide Service, Safe;
    ghost var r := runtime.Value();
    var next := 0;
    var processed := true;
    assert inputs[..0] == [];
    while processed
      invariant 0 <= next <= |inputs| && (!processed ==> next == |inputs|)
      invariant var h := ServeAll(r, inputs[..next]);
        && runtime.Value() == h.receiver
        && runtime.outbox == old(runtime.outbox) + h.replies
        && runtime.diagnostics == old(runtime.diagnostics) + h.events
        && runtime.devices.log == old(runtime.devices.log) + h.writes
      decreases |inputs| - next, processed
    {
      if next < |inputs| {
        var input := inputs[next];
        processed := runtime.ServiceNext(Some(input.frame), input.health, input.port);
        assert inputs[..next + 1][..next] == inputs[..next];
        next := next + 1;
      } else {
        processed := runtime.ServiceNext(None, BusHealth(0, 0, false), i => SpiOk);
      }
    }
    assert inputs[..next] == inputs;
  }
}
