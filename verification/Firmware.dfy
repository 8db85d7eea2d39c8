/** Enumerations the firmware's modules share: stm32/app/include/platform/diagnostic_record.h. */
module Firmware {
  import opened Bits

  datatype Fault =
    | NoFault
    | ClockStartup
    | ClockSecurity
    | VgaCommandFault
    | VgaSpiTimeout
    | VgaSpiError
    | PhaseCommandFault
    | PhaseSpiTimeout
    | PhaseSpiError
    | HardFault
    | UnexpectedInterrupt
    | CanInit

  function FaultCode(fault: Fault): u16
  {
    match fault
    case NoFault => 0
    case ClockStartup => 1
    case ClockSecurity => 2
    case VgaCommandFault => 3
    case VgaSpiTimeout => 4
    case VgaSpiError => 5
    case PhaseCommandFault => 6
    case PhaseSpiTimeout => 7
    case PhaseSpiError => 8
    case HardFault => 9
    case UnexpectedInterrupt => 10
    case CanInit => 11
  }

  datatype Clock = ClockUnknown | HsePll | Hsi48

  function ClockCode(clock: Clock): u8
  {
    match clock
    case ClockUnknown => 0
    case HsePll => 1
    case Hsi48 => 2
  }

  datatype State = Uninitialized | Booting | ClockReady | SafeOutputs | Healthy | SafeLockout | Faulted

  function StateCode(state: State): (code: u8)
    ensures code == 4 <==> state == Healthy
  {
    match state
    case Uninitialized => 0
    case Booting => 1
    case ClockReady => 2
    case SafeOutputs => 3
    case Healthy => 4
    case SafeLockout => 5
    case Faulted => 6
  }

  // The enumerations as the header numbers them, from 0.
  const FAULTS: seq<Fault> := [
    NoFault, ClockStartup, ClockSecurity, VgaCommandFault, VgaSpiTimeout, VgaSpiError,
    PhaseCommandFault, PhaseSpiTimeout, PhaseSpiError, HardFault, UnexpectedInterrupt, CanInit]
  const CLOCKS: seq<Clock> := [ClockUnknown, HsePll, Hsi48]
  const STATES: seq<State> := [Uninitialized, Booting, ClockReady, SafeOutputs, Healthy, SafeLockout, Faulted]

  /** A stored code is the place of its value in the enumeration, so no two values share one. */
  lemma CodesArePlaces(fault: Fault, clock: Clock, state: State)
    ensures FaultCode(fault) < |FAULTS| && FAULTS[FaultCode(fault)] == fault
    ensures ClockCode(clock) < |CLOCKS| && CLOCKS[ClockCode(clock)] == clock
    ensures StateCode(state) < |STATES| && STATES[StateCode(state)] == state
  {
  }

  /** One update of the retained diagnostic record. */
  datatype RecordEvent =
    | SetState(state: State)
    | SetClock(clock: Clock)
    | SetCommands(phaseCommand: u16, vgaCommand: u8)
    | SetFault(fault: Fault)
    | MarkHealthy
}
