/**
 Execution of a plan against the two RF devices: stm32/app/src/rf/execute.c, with the write
 drivers of vga.c and phase_shifter.c. A driver raises the latch line only after the transfer
 completes, so a write that fails leaves the device's latched word as it was.
 */
module RfExecute {
  import opened Bits
  import opened RfCommands
  import opened RfPlan
  import opened Firmware

  datatype SpiStatus = SpiOk | SpiTimeout | SpiError | SpiInvalidArgument

  /** The outcome the hardware gives the i-th write of a plan. */
  type SpiPort = nat -> SpiStatus

  const SAFE_VGA_COMMAND: u8 := 0x5c

  /** What each device has latched, and what the firmware last recorded as written. */
  datatype Outputs = Outputs(phaseLatch: u16, vgaLatch: u8, lastPhase: u16, lastVga: u8)

  /** A write that reached its device, with the attenuator's latched word at that moment. */
  datatype Write = Write(kind: OperationKind, command: u16, vgaDuring: u8)

  /** The status `vga_write` or `phase_shifter_write` returns. */
  function DriverStatus(op: Operation, port: SpiStatus): SpiStatus
  {
    if op.kind.PhaseWrite? && op.command > PHASE_COMMAND_MAX then SpiInvalidArgument else port
  }

  function FaultOf(kind: OperationKind, status: SpiStatus): (fault: Fault)
    ensures fault != NoFault
  {
    if kind.VgaWrite? then
      if status == SpiTimeout then VgaSpiTimeout else VgaSpiError
    else
      if status == SpiTimeout then PhaseSpiTimeout else PhaseSpiError
  }

  function Latch(op: Operation, o: Outputs): Outputs
  {
    if op.kind.VgaWrite? then o.(vgaLatch := op.command % 0x100, lastVga := op.command % 0x100)
    else o.(phaseLatch := op.command, lastPhase := op.command)
  }

  function WriteOf(op: Operation, o: Outputs): Write
  {
    Write(op.kind, if op.kind.VgaWrite? then op.command % 0x100 else op.command, o.vgaLatch)
  }

  /** How many writes of a plan succeed before the first failure, counting from the i-th. */
  function CompletedWrites(ops: seq<Operation>, i: nat, port: SpiPort): (n: nat)
    requires i <= |ops|
    ensures i <= n <= |ops|
    ensures forall j :: i <= j < n ==> DriverStatus(ops[j], port(j)) == SpiOk
    ensures n < |ops| ==> DriverStatus(ops[n], port(n)) != SpiOk
    decreases |ops| - i
  {
    if i < |ops| && DriverStatus(ops[i], port(i)) == SpiOk then CompletedWrites(ops, i + 1, port) else i
  }

  function OutputsAfter(ops: seq<Operation>, n: nat, o: Outputs): Outputs
    requires n <= |ops|
  {
    if n == 0 then o else Latch(ops[n - 1], OutputsAfter(ops, n - 1, o))
  }

  function WritesOf(ops: seq<Operation>, n: nat, o: Outputs): (writes: seq<Write>)
    requires n <= |ops|
    ensures |writes| == n
  {
    if n == 0 then [] else WritesOf(ops, n - 1, o) + [WriteOf(ops[n - 1], OutputsAfter(ops, n - 1, o))]
  }

  datatype Execution = Execution(fault: Fault, outputs: Outputs, writes: seq<Write>)

  /** A plan runs as a prefix of its writes; the first failing write names the fault. */
  function Execute(ops: seq<Operation>, o: Outputs, port: SpiPort): Execution
  {
    var n := CompletedWrites(ops, 0, port);
    Execution(
      if n == |ops| then NoFault else FaultOf(ops[n].kind, DriverStatus(ops[n], port(n))),
      OutputsAfter(ops, n, o),
      WritesOf(ops, n, o))
  }

  /** The devices on their SPI buses, with the firmware's record of its own last writes. */
  class RfDevices {
    var phaseLatch: u16
    var vgaLatch: u8
    var lastPhaseCommand: u16
    var lastVgaCommand: u8
    var log: seq<Write>

    ghost function Value(): Outputs
      reads this
    {
      Outputs(phaseLatch, vgaLatch, lastPhaseCommand, lastVgaCommand)
    }

    constructor (o: Outputs)
      ensures Value() == o && log == []
    {
      phaseLatch, vgaLatch, lastPhaseCommand, lastVgaCommand := o.phaseLatch, o.vgaLatch, o.lastPhase, o.lastVga;
      log := [];
    }

    method RecordLast(phaseCommand: u16, vgaCommand: u8)
      modifies this`lastPhaseCommand, this`lastVgaCommand
      ensures lastPhaseCommand == phaseCommand && lastVgaCommand == vgaCommand
    {
      lastPhaseCommand, lastVgaCommand := phaseCommand, vgaCommand;
    }

    method WriteVga(command: u8, port: SpiStatus) returns (status: SpiStatus)
      modifies this`vgaLatch, this`log
      ensures status == port
      ensures status == SpiOk ==>
        vgaLatch == command && log == old(log) + [Write(VgaWrite, command, old(vgaLatch))]
      ensures status != SpiOk ==> vgaLatch == old(vgaLatch) && log == old(log)
    {
      if port != SpiOk {
        return port;
      }
      log := log + [Write(VgaWrite, command, vgaLatch)];
      vgaLatch := command;
      return SpiOk;
    }

    method WritePhase(command: u16, port: SpiStatus) returns (status: SpiStatus)
      modifies this`phaseLatch, this`log
      ensures status == DriverStatus(Operation(PhaseWrite, command), port)
      ensures status == if command > 0x1fff then SpiInvalidArgument else port
      ensures status == SpiOk ==>
        phaseLatch == command && log == old(log) + [Write(PhaseWrite, command, vgaLatch)]
      ensures status != SpiOk ==> phaseLatch == old(phaseLatch) && log == old(log)
    {
      if command > PHASE_COMMAND_MAX {
        return SpiInvalidArgument;
      }
      if port != SpiOk {
        return port;
      }
      log := log + [Write(PhaseWrite, command, vgaLatch)];
      phaseLatch := command;
      return SpiOk;
    }

    method ExecuteOperation(op: Operation, port: SpiStatus) returns (fault: Fault)
      modifies this
      ensures var status := DriverStatus(op, port);
        if status == SpiOk then
          fault == NoFault && Value() == Latch(op, old(Value())) && log == old(log) + [WriteOf(op, old(Value()))]
        else
          fault == FaultOf(op.kind, status) && Value() == old(Value()) && log == old(log)
    {
      if op.kind.VgaWrite? {
        var command: u8 := op.command % 0x100;
        var status := WriteVga(command, port);
        if status != SpiOk {
          return FaultOf(VgaWrite, status);
        }
        lastVgaCommand := command;
        return NoFault;
      }
      var status := WritePhase(op.command, port);
      if status != SpiOk {
        return FaultOf(PhaseWrite, status);
      }
      lastPhaseCommand := op.command;
      return NoFault;
    }

    method ExecutePlan(plan: PlanBuffer, port: SpiPort) returns (fault: Fault)
      requires plan.Valid()
      modifies this
      ensures old(log) <= log
      ensures Execution(fault, Value(), log[|old(log)|..]) == Execute(plan.Value().operations, old(Value()), port)
    {
      ghost var ops := plan.Value().operations;
      var index := 0;
      while index < plan.count
        invariant 0 <= index <= plan.count == |ops|
        invariant plan.Valid() && plan.Value().operations == ops
        invariant Value() == OutputsAfter(ops, index, old(Value()))
        invariant log == old(log) + WritesOf(ops, index, old(Value()))
        invariant CompletedWrites(ops, 0, port) == CompletedWrites(ops, index, port)
      {
        assert plan.operations[index] == ops[index];
        fault := ExecuteOperation(plan.operations[index], port(index));
        if fault != NoFault {
          return;
        }
        index := index + 1;
      }
      return NoFault;
    }
  }
}
