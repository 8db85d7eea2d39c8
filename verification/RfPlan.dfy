/** Planning of RF writes: stm32/app/src/rf/plan.c. */
module RfPlan {
  import opened Bits
  import opened Protocol
  import opened RfCommands

  const MAX_OPERATIONS := 3

  datatype OperationKind = PhaseWrite | VgaWrite

  datatype Operation = Operation(kind: OperationKind, command: u16)

  datatype RfState = RfState(phaseState: u8, attenuationDb: u8)

  datatype Plan = Plan(operations: seq<Operation>, resulting: RfState)

  datatype Planned = Planned(result: CommandResult, plan: Plan)

  const NO_OPERATION := Operation(PhaseWrite, 0)

  function EncodePhase(words: Calibration, phaseState: u8): u16
  {
    MakePhaseCommand(words[phaseState], PHASE_UNIT_ADDRESS)
  }

  function AppendOperation(plan: Plan, kind: OperationKind, command: u16): Planned
  {
    if |plan.operations| >= MAX_OPERATIONS then Planned(ResultBusy, plan)
    else Planned(ResultOk, plan.(operations := plan.operations + [Operation(kind, command)]))
  }

  function AppendPhase(words: Calibration, phaseState: u8, plan: Plan): Planned
  {
    var appended := AppendOperation(plan, PhaseWrite, EncodePhase(words, phaseState));
    if appended.result == ResultOk then
      appended.(plan := appended.plan.(resulting := appended.plan.resulting.(phaseState := phaseState)))
    else appended
  }

  function AppendVga(attenuationDb: u8, plan: Plan): Planned
  {
    match MakeVgaCommand(attenuationDb)
    case None => Planned(ResultInvalidPayload, plan)
    case Some(command) =>
      var appended := AppendOperation(plan, VgaWrite, command);
      if appended.result == ResultOk then
        appended.(plan := appended.plan.(resulting := appended.plan.resulting.(attenuationDb := attenuationDb)))
      else appended
  }

  function PlanPhaseSafely(words: Calibration, phaseState: u8, current: RfState, plan: Plan): Planned
  {
    var restore := current.attenuationDb != VGA_MAX_ATTENUATION_DB;
    var guarded := if restore then AppendVga(VGA_MAX_ATTENUATION_DB, plan) else Planned(ResultOk, plan);
    if guarded.result != ResultOk then guarded
    else
      var moved := AppendPhase(words, phaseState, guarded.plan);
      if moved.result != ResultOk then moved
      else if restore then AppendVga(current.attenuationDb, moved.plan)
      else moved
  }

  function PlanCombined(words: Calibration, phaseState: u8, attenuationDb: u8, plan: Plan): Planned
  {
    var guarded := AppendVga(VGA_MAX_ATTENUATION_DB, plan);
    if guarded.result != ResultOk then guarded
    else
      var moved := AppendPhase(words, phaseState, guarded.plan);
      if moved.result != ResultOk then moved
      else if attenuationDb == VGA_MAX_ATTENUATION_DB then moved
      else AppendVga(attenuationDb, moved.plan)
  }

  function PlanEnterSafe(words: Calibration, plan: Plan): Planned
  {
    var guarded := AppendVga(VGA_MAX_ATTENUATION_DB, plan);
    if guarded.result == ResultOk then AppendPhase(words, 0, guarded.plan) else guarded
  }

  /** `rf_plan_startup`; any result but `ResultOk` is its `false`. */
  function PlanStartup(words: Calibration, phaseState: u8, attenuationDb: u8, scratch: Plan): Planned
  {
    if attenuationDb > VGA_MAX_ATTENUATION_DB then Planned(ResultInvalidPayload, scratch)
    else
      var quiet := AppendVga(attenuationDb, Plan([], RfState(0, 0)));
      if quiet.result == ResultOk then AppendPhase(words, phaseState, quiet.plan) else quiet
  }

  function PlanCommand(words: Calibration, command: Command, current: RfState): Planned
  {
    var empty := Plan([], current);
    if command.kind == SET_PHASE then PlanPhaseSafely(words, command.phaseState, current, empty)
    else if command.kind == SET_VGA then AppendVga(command.attenuationDb, empty)
    else if command.kind == SET_COMBINED then
      PlanCombined(words, command.phaseState, command.attenuationDb, empty)
    else if command.kind == ENTER_SAFE then PlanEnterSafe(words, empty)
    else if command.kind == PING then Planned(ResultOk, empty)
    else Planned(ResultUnsupported, empty)
  }

  /** The plan as the firmware builds it: a three-slot array filled in place. */
  class PlanBuffer {
    const operations: array<Operation>
    var count: nat
    var resulting: RfState

    ghost predicate Valid()
      reads this
    {
      operations.Length == MAX_OPERATIONS && count <= MAX_OPERATIONS
    }

    ghost function Value(): Plan
      reads this, operations
      requires Valid()
    {
      Plan(operations[..count], resulting)
    }

    constructor ()
      ensures Valid() && fresh(operations) && Value() == Plan([], RfState(0, 0))
    {
      operations := new Operation[MAX_OPERATIONS](i => NO_OPERATION);
      count := 0;
      resulting := RfState(0, 0);
    }

    method Append(kind: OperationKind, command: u16) returns (result: CommandResult)
      requires Valid()
      modifies this`count, operations
      ensures Valid() && Planned(result, Value()) == AppendOperation(old(Value()), kind, command)
    {
      if count >= MAX_OPERATIONS {
        return ResultBusy;
      }
      operations[count] := Operation(kind, command);
      count := count + 1;
      return ResultOk;
    }

    method Phase(words: Calibration, phaseState: u8) returns (result: CommandResult)
      requires Valid()
      modifies this, operations
      ensures Valid() && Planned(result, Value()) == AppendPhase(words, phaseState, old(Value()))
    {
      var command := BuildPhaseCommand(words[phaseState], PHASE_UNIT_ADDRESS);
      result := Append(PhaseWrite, command);
      if result == ResultOk {
        resulting := resulting.(phaseState := phaseState);
      }
    }

    method Vga(attenuationDb: u8) returns (result: CommandResult)
      requires Valid()
      modifies this, operations
      ensures Valid() && Planned(result, Value()) == AppendVga(attenuationDb, old(Value()))
    {
      var command := MakeVgaCommand(attenuationDb);
      if command.None? {
        return ResultInvalidPayload;
      }
      result := Append(VgaWrite, command.value);
      if result == ResultOk {
        resulting := resulting.(attenuationDb := attenuationDb);
      }
    }

    method PhaseSafely(words: Calibration, phaseState: u8, current: RfState) returns (result: CommandResult)
      requires Valid()
      modifies this, operations
      ensures Valid() && Planned(result, Value()) == PlanPhaseSafely(words, phaseState, current, old(Value()))
    {
      var restore := current.attenuationDb != VGA_MAX_ATTENUATION_DB;
      if restore {
        result := Vga(VGA_MAX_ATTENUATION_DB);
        if result != ResultOk {
          return;
        }
      }
      result := Phase(words, phaseState);
      if result != ResultOk {
        return;
      }
      if restore {
        result := Vga(current.attenuationDb);
      }
    }

    method Combined(words: Calibration, phaseState: u8, attenuationDb: u8) returns (result: CommandResult)
      requires Valid()
      modifies this, operations
      ensures Valid() && Planned(result, Value()) == PlanCombined(words, phaseState, attenuationDb, old(Value()))
    {
      result := Vga(VGA_MAX_ATTENUATION_DB);
      if result != ResultOk {
        return;
      }
      result := Phase(words, phaseState);
      if result != ResultOk || attenuationDb == VGA_MAX_ATTENUATION_DB {
        return;
      }
      result := Vga(attenuationDb);
    }

    method Startup(words: Calibration, phaseState: u8, attenuationDb: u8) returns (result: CommandResult)
      requires Valid()
      modifies this, operations
      ensures Valid() && Planned(result, Value()) == PlanStartup(words, phaseState, attenuationDb, old(Value()))
    {
      if attenuationDb > VGA_MAX_ATTENUATION_DB {
        return ResultInvalidPayload;
      }
      count, resulting := 0, RfState(0, 0);
      result := Vga(attenuationDb);
      if result == ResultOk {
        result := Phase(words, phaseState);
      }
    }

    method ForCommand(words: Calibration, command: Command, current: RfState) returns (result: CommandResult)
      requires Valid()
      modifies this, operations
      ensures Valid() && Planned(result, Value()) == PlanCommand(words, command, current)
    {
      count, resulting := 0, current;
      if command.kind == SET_PHASE {
        result := PhaseSafely(words, command.phaseState, current);
      } else if command.kind == SET_VGA {
        result := Vga(command.attenuationDb);
      } else if command.kind == SET_COMBINED {
        result := Combined(words, command.phaseState, command.attenuationDb);
      } else if command.kind == ENTER_SAFE {
        result := Vga(VGA_MAX_ATTENUATION_DB);
        if result == ResultOk {
          result := Phase(words, 0);
        }
      } else if command.kind == PING {
        result := ResultOk;
      } else {
        result := ResultUnsupported;
      }
    }
  }
}
