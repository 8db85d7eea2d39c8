/** What every plan keeps, whatever the hardware does: the safety side of plan.c and execute.c together. */
module RfSafety {
  import opened Bits
  import opened Protocol
  import opened RfCommands
  import opened RfPlan
  import opened RfExecute
  import opened Firmware

  /** A command the decoder can produce. */
  predicate Decodable(command: Command)
  {
    command.kind <= PING && command.attenuationDb <= VGA_MAX_ATTENUATION_DB
  }

  /** The state a command asks for, field by field, as the protocol document describes it. */
  function Requested(command: Command, current: RfState): RfState
  {
    if command.kind == SET_PHASE then current.(phaseState := command.phaseState)
    else if command.kind == SET_VGA then current.(attenuationDb := command.attenuationDb)
    else if command.kind == SET_COMBINED then RfState(command.phaseState, command.attenuationDb)
    else if command.kind == ENTER_SAFE then RfState(0, VGA_MAX_ATTENUATION_DB)
    else current
  }

  /** The attenuator holds the software state's attenuation or 23 dB, never anything lower. */
  predicate AttenuatorTracks(o: Outputs, state: RfState)
  {
    state.attenuationDb <= VGA_MAX_ATTENUATION_DB
    && (o.vgaLatch == 4 * state.attenuationDb || o.vgaLatch == SAFE_VGA_COMMAND)
  }

  predicate Recorded(o: Outputs)
  {
    o.lastPhase == o.phaseLatch && o.lastVga == o.vgaLatch
  }

  /** The devices hold exactly the encoding of the software state. */
  predicate InAgreement(words: Calibration, o: Outputs, state: RfState)
  {
    o.phaseLatch == EncodePhase(words, state.phaseState) && o.vgaLatch == 4 * state.attenuationDb
  }

  predicate PhaseWritesAreQuiet(writes: seq<Write>)
  {
    forall i :: 0 <= i < |writes| && writes[i].kind.PhaseWrite? ==> writes[i].vgaDuring == SAFE_VGA_COMMAND
  }

  predicate SafeWords(words: Calibration, writes: seq<Write>)
  {
    forall i :: 0 <= i < |writes| ==>
      writes[i].command == if writes[i].kind.VgaWrite? then SAFE_VGA_COMMAND else EncodePhase(words, 0)
  }

  lemma EncodedPhaseFits(words: Calibration, phaseState: u8)
    ensures EncodePhase(words, phaseState) <= PHASE_COMMAND_MAX
  {
    PhaseCommandOnTheWire(words[phaseState], PHASE_UNIT_ADDRESS);
  }

  /** The thirteen bits the PE44820 at serial address 1 needs for a control word: D0..D7, OPT, A0..A3. */
  function SerialBits(word: u16): seq<bool>
  {
    BitsLsb(word, 8) + [word / 256 == 1] + [true, false, false, false]
  }

  /** The word written for a phase state is that state's own control word, for the one unit on the board. */
  lemma EncodedWord(words: Calibration, phaseState: u8)
    ensures BitsMsb(EncodePhase(words, phaseState), 13) == SerialBits(words[phaseState])
  {
    PhaseCommandOnTheWire(words[phaseState], PHASE_UNIT_ADDRESS);
    assert BitsLsb(1, 4) == [true] + BitsLsb(0, 3) == [true, false, false, false];
    hide BitsMsb, MakePhaseCommand;
  }

  function VgaOp(attenuationDb: u8): Operation
    requires attenuationDb <= VGA_MAX_ATTENUATION_DB
  {
    Operation(VgaWrite, 4 * attenuationDb)
  }

  function PhaseOp(words: Calibration, phaseState: u8): Operation
  {
    Operation(PhaseWrite, EncodePhase(words, phaseState))
  }

  /** The documented execution order, with the one shortcut the code takes: no guard when already at 23 dB. */
  function ExecutionOrder(words: Calibration, command: Command, current: RfState): seq<Operation>
    requires Decodable(command) && current.attenuationDb <= VGA_MAX_ATTENUATION_DB
  {
    if command.kind == SET_VGA then [VgaOp(command.attenuationDb)]
    else if command.kind == ENTER_SAFE then [VgaOp(23), PhaseOp(words, 0)]
    else if command.kind == SET_COMBINED then
      if command.attenuationDb == 23 then [VgaOp(23), PhaseOp(words, command.phaseState)]
      else [VgaOp(23), PhaseOp(words, command.phaseState), VgaOp(command.attenuationDb)]
    else if command.kind == SET_PHASE then
      if current.attenuationDb == 23 then [PhaseOp(words, command.phaseState)]
      else [VgaOp(23), PhaseOp(words, command.phaseState), VgaOp(current.attenuationDb)]
    else []
  }

  /** Planning a decoded command never fails, and yields the documented writes and resulting state. */
  lemma PlannerNeverFails(words: Calibration, command: Command, current: RfState)
    requires Decodable(command) && current.attenuationDb <= VGA_MAX_ATTENUATION_DB
    ensures PlanCommand(words, command, current)
         == Planned(ResultOk, Plan(ExecutionOrder(words, command, current), Requested(command, current)))
  {
    hide MakePhaseCommand, MakeVgaCommand, Shl;
    VgaCommandFields(23);
    VgaCommandFields(command.attenuationDb);
    VgaCommandFields(current.attenuationDb);
  }

  /** The planner refuses exactly what the decoder never lets through, and says why. */
  lemma PlannerRefusesExactly(words: Calibration, command: Command, current: RfState)
    requires current.attenuationDb <= 23
    ensures var result := PlanCommand(words, command, current).result;
      && (result == ResultUnsupported <==> command.kind > 4)
      && (result == ResultInvalidPayload <==>
            (command.kind == SET_VGA || command.kind == SET_COMBINED) && command.attenuationDb > 23)
      && result in {ResultOk, ResultUnsupported, ResultInvalidPayload}
  {
    hide MakePhaseCommand, MakeVgaCommand, Shl;
    VgaCommandFields(23);
    VgaCommandFields(command.attenuationDb);
    VgaCommandFields(current.attenuationDb);
  }

  /** A plan takes three writes and refuses a fourth, whatever it is. */
  lemma FourthWriteIsRefused(words: Calibration, value: u8, plan: Plan)
    ensures AppendPhase(words, value, plan) ==
      if |plan.operations| >= 3 then Planned(ResultBusy, plan)
      else Planned(ResultOk, Plan(plan.operations + [PhaseOp(words, value)], RfState(value, plan.resulting.attenuationDb)))
    ensures AppendVga(value, plan) ==
      if value > 23 then Planned(ResultInvalidPayload, plan)
      else if |plan.operations| >= 3 then Planned(ResultBusy, plan)
      else Planned(ResultOk, Plan(plan.operations + [VgaOp(value)], RfState(plan.resulting.phaseState, value)))
  {
    hide MakePhaseCommand, MakeVgaCommand, Shl;
    VgaCommandFields(value);
  }

  /** Any start-up setting is planned attenuation first; one above 23 dB is refused before the buffer is touched. */
  lemma StartupPlanExactly(words: Calibration, phaseState: u8, attenuationDb: u8, scratch: Plan)
    ensures PlanStartup(words, phaseState, attenuationDb, scratch) ==
      if attenuationDb > 23 then Planned(ResultInvalidPayload, scratch)
      else Planned(ResultOk, Plan([VgaOp(attenuationDb), PhaseOp(words, phaseState)], RfState(phaseState, attenuationDb)))
  {
    hide MakePhaseCommand, MakeVgaCommand, Shl;
    VgaCommandFields(attenuationDb);
  }

  lemma StartupPlan(words: Calibration, phaseState: u8, scratch: Plan)
    ensures PlanStartup(words, phaseState, 23, scratch)
         == Planned(ResultOk, Plan([VgaOp(23), PhaseOp(words, phaseState)], RfState(phaseState, 23)))
  {
    hide MakePhaseCommand, MakeVgaCommand, Shl;
    VgaCommandFields(23);
  }

  /** A phase write comes right after a 23 dB write, or first while 23 dB is already latched. */
  predicate GuardedOrder(ops: seq<Operation>, o: Outputs)
  {
    && (|ops| > 0 && ops[0].kind.PhaseWrite? ==> o.vgaLatch == SAFE_VGA_COMMAND)
    && (forall i :: 0 < i < |ops| && ops[i].kind.PhaseWrite? ==> ops[i - 1] == VgaOp(23))
  }

  /** In a guarded order each phase write finds 23 dB latched, in any prefix that a fault may leave. */
  lemma {:induction false} GuardedOrderIsQuiet(ops: seq<Operation>, n: nat, o: Outputs)
    requires n <= |ops| && GuardedOrder(ops, o)
    ensures PhaseWritesAreQuiet(WritesOf(ops, n, o))
    ensures Recorded(o) ==> Recorded(OutputsAfter(ops, n, o))
    ensures n > 0 && ops[n - 1].kind.VgaWrite? ==> OutputsAfter(ops, n, o).vgaLatch == ops[n - 1].command % 0x100
    decreases n
  {
    if n > 0 {
      GuardedOrderIsQuiet(ops, n - 1, o);
      var last := ops[n - 1];
      assert n > 1 && last.kind.PhaseWrite? ==> ops[n - 2] == VgaOp(23);
      assert VgaOp(23).command % 0x100 == SAFE_VGA_COMMAND;
      assert WritesOf(ops, n, o) == WritesOf(ops, n - 1, o) + [WriteOf(last, OutputsAfter(ops, n - 1, o))];
    }
  }

  predicate SafeOperations(words: Calibration, ops: seq<Operation>)
  {
    forall i :: 0 <= i < |ops| ==> ops[i] == VgaOp(23) || ops[i] == PhaseOp(words, 0)
  }

  lemma {:induction false} SafeOperationsWriteSafeWords(words: Calibration, ops: seq<Operation>, n: nat, o: Outputs)
    requires n <= |ops| && SafeOperations(words, ops)
    ensures SafeWords(words, WritesOf(ops, n, o))
    decreases n
  {
    hide EncodePhase;
    if n > 0 {
      SafeOperationsWriteSafeWords(words, ops, n - 1, o);
    }
  }

  /** What the latches hold after any prefix of a plan, and after the whole of it. */
  lemma LatchesAfterPrefix(words: Calibration, command: Command, current: RfState, o: Outputs, n: nat)
    requires Decodable(command) && StateChanging(command.kind) && AttenuatorTracks(o, current)
    requires n <= |ExecutionOrder(words, command, current)|
    ensures var ops := ExecutionOrder(words, command, current);
      var after := OutputsAfter(ops, n, o);
      && (n < |ops| ==> AttenuatorTracks(after, current))
      && (n == |ops| ==>
           after.vgaLatch == 4 * Requested(command, current).attenuationDb
           && after.phaseLatch == if command.kind == SET_VGA then o.phaseLatch
                                  else EncodePhase(words, Requested(command, current).phaseState))
  {
    hide EncodePhase, OutputsAfter;
    var ops := ExecutionOrder(words, command, current);
    if n > 0 {
      UnfoldOutputs(ops, n, o);
    }
    if n > 1 {
      UnfoldOutputs(ops, n - 1, o);
    }
    if n > 2 {
      UnfoldOutputs(ops, n - 2, o);
    }
    UnfoldOutputs(ops, 0, o);
  }

  lemma UnfoldOutputs(ops: seq<Operation>, n: nat, o: Outputs)
    requires n <= |ops|
    ensures OutputsAfter(ops, n, o) == if n == 0 then o else Latch(ops[n - 1], OutputsAfter(ops, n - 1, o))
  {
  }

  /** Every prefix of a decoded command's plan is quiet, recorded and within the attenuator invariant. */
  lemma PlanRunsQuietly(words: Calibration, command: Command, current: RfState, o: Outputs, n: nat)
    requires Decodable(command) && StateChanging(command.kind) && AttenuatorTracks(o, current) && Recorded(o)
    requires n <= |ExecutionOrder(words, command, current)|
    ensures var ops := ExecutionOrder(words, command, current);
      && PhaseWritesAreQuiet(WritesOf(ops, n, o))
      && Recorded(OutputsAfter(ops, n, o))
      && AttenuatorTracks(OutputsAfter(ops, n, o), if n < |ops| then current else Requested(command, current))
      && (command.kind == ENTER_SAFE ==> SafeWords(words, WritesOf(ops, n, o)))
  {
    hide EncodePhase, OutputsAfter, WritesOf, SafeWords;
    var ops := ExecutionOrder(words, command, current);
    GuardedOrderIsQuiet(ops, n, o);
    LatchesAfterPrefix(words, command, current, o, n);
    if command.kind == ENTER_SAFE {
      SafeOperationsWriteSafeWords(words, ops, n, o);
    }
  }

  /** Every write of the plan would succeed. */
  predicate AllSucceed(ops: seq<Operation>, port: SpiPort)
  {
    forall i :: 0 <= i < |ops| ==> DriverStatus(ops[i], port(i)) == SpiOk
  }

  /** A write fails when its transfer does, and a phase word of more than thirteen bits always. */
  lemma WhatFails(op: Operation, port: SpiStatus)
    ensures DriverStatus(op, port) == SpiOk <==> port == SpiOk && (op.kind.PhaseWrite? ==> op.command < 8192)
    ensures DriverStatus(op, port) == SpiTimeout <==> port == SpiTimeout && (op.kind.PhaseWrite? ==> op.command < 8192)
  {
  }

  lemma {:induction false} WritesFollowPlan(ops: seq<Operation>, n: nat, o: Outputs)
    requires n <= |ops|
    ensures var writes := WritesOf(ops, n, o);
      forall i :: 0 <= i < n ==>
        writes[i].kind == ops[i].kind
        && writes[i].command == if ops[i].kind.VgaWrite? then ops[i].command % 0x100 else ops[i].command
    decreases n
  {
    hide OutputsAfter;
    if n > 0 {
      WritesFollowPlan(ops, n - 1, o);
    }
  }

  /**
   The devices see the plan's writes in order up to the first one that fails, and none after it;
   the fault names that write's device, and whether it timed out.
   */
  lemma FirstFaultStops(ops: seq<Operation>, o: Outputs, port: SpiPort)
    ensures var e := Execute(ops, o, port);
      && (e.fault == NoFault <==> AllSucceed(ops, port))
      && |e.writes| <= |ops| && (e.fault == NoFault <==> |e.writes| == |ops|)
      && (forall i :: 0 <= i < |e.writes| ==>
            DriverStatus(ops[i], port(i)) == SpiOk && e.writes[i].kind == ops[i].kind
            && e.writes[i].command == if ops[i].kind.VgaWrite? then ops[i].command % 0x100 else ops[i].command)
      && (e.fault != NoFault ==>
            var failed, status := ops[|e.writes|], DriverStatus(ops[|e.writes|], port(|e.writes|));
            && status != SpiOk
            && (e.fault in {VgaSpiTimeout, VgaSpiError} <==> failed.kind.VgaWrite?)
            && (e.fault in {VgaSpiTimeout, PhaseSpiTimeout} <==> status == SpiTimeout)
            && e.fault in {VgaSpiTimeout, VgaSpiError, PhaseSpiTimeout, PhaseSpiError})
  {
    hide OutputsAfter, WritesOf, DriverStatus;
    WritesFollowPlan(ops, CompletedWrites(ops, 0, port), o);
  }

  /** The devices after an attempt to run a command's plan. */
  function Attempt(
    words: Calibration, command: Command, current: RfState, o: Outputs, port: SpiPort): Execution
  {
    Execute(PlanCommand(words, command, current).plan.operations, o, port)
  }

  /** The state the firmware keeps after the attempt: it moves only when the whole plan completed. */
  function StateAfter(command: Command, current: RfState, fault: Fault): RfState
  {
    if fault == NoFault then Requested(command, current) else current
  }

  /**
   One attempt, under any pattern of SPI failures: phase words move only at 23 dB, the firmware's
   record of its last writes stays true, and the attenuator keeps tracking the software state.
   */
  lemma AttemptIsSafe(words: Calibration, command: Command, current: RfState, o: Outputs, port: SpiPort)
    requires Decodable(command) && StateChanging(command.kind) && AttenuatorTracks(o, current) && Recorded(o)
    ensures var e := Attempt(words, command, current, o, port);
      && PhaseWritesAreQuiet(e.writes)
      && Recorded(e.outputs)
      && AttenuatorTracks(e.outputs, StateAfter(command, current, e.fault))
      && (command.kind == ENTER_SAFE ==> SafeWords(words, e.writes))
  {
    hide EncodePhase, PlanCommand, ExecutionOrder;
    PlannerNeverFails(words, command, current);
    var ops := ExecutionOrder(words, command, current);
    PlanRunsQuietly(words, command, current, o, CompletedWrites(ops, 0, port));
  }

  /**
   A completed plan that moves the phase makes hardware and software agree, even after faults
   had driven them apart; a completed SET_VGA does so exactly when the phase already agreed.
   */
  lemma CompletionRestoresAgreement(
    words: Calibration, command: Command, current: RfState, o: Outputs, port: SpiPort)
    requires Decodable(command) && StateChanging(command.kind) && AttenuatorTracks(o, current) && Recorded(o)
    requires Attempt(words, command, current, o, port).fault == NoFault
    ensures InAgreement(words, Attempt(words, command, current, o, port).outputs, Requested(command, current))
            <==> command.kind != SET_VGA || o.phaseLatch == EncodePhase(words, current.phaseState)
  {
    hide EncodePhase, PlanCommand, ExecutionOrder;
    PlannerNeverFails(words, command, current);
    var ops := ExecutionOrder(words, command, current);
    LatchesAfterPrefix(words, command, current, o, CompletedWrites(ops, 0, port));
  }

  /** Without SPI failures every planned write succeeds, so no command ends in a fault. */
  lemma FaultFreeAttemptCompletes(
    words: Calibration, command: Command, current: RfState, o: Outputs, port: SpiPort)
    requires Decodable(command) && current.attenuationDb <= VGA_MAX_ATTENUATION_DB
    requires forall i :: port(i) == SpiOk
    ensures Attempt(words, command, current, o, port).fault == NoFault
  {
    hide EncodePhase, PlanCommand;
    PlannerNeverFails(words, command, current);
    EncodedPhaseFits(words, command.phaseState);
    EncodedPhaseFits(words, 0);
    var ops := ExecutionOrder(words, command, current);
    assert forall j :: 0 <= j < |ops| ==> DriverStatus(ops[j], port(j)) == SpiOk;
  }
}
