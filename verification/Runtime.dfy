/**
 The command runtime: stm32/app/src/can/runtime.c. `Service` gives the effect of handling one
 received frame; the class `CommandRuntime` is the firmware's own step-by-step form of it.
 */
module Runtime {
  import opened Bits
  import opened Protocol
  import opened RfCommands
  import opened RfPlan
  import opened RfExecute
  import opened Firmware
  import opened TxQueue

  /** What a node is given once, at start-up. */
  datatype Config = Config(words: Calibration, nodeId: u8, clock: Clock, safeLockout: bool)

  /** The last successful unicast command, the exact bytes that asked for it, and the ACK it got. */
  datatype ReplayCache = Empty | Cached(command: Command, requestLength: u8, requestData: Buffer, response: Frame)

  datatype Receiver = Receiver(
    config: Config, state: RfState, outputs: Outputs, invalidCommands: u16, cache: ReplayCache)

  /** The bus counters and flags that a STATUS reply reports. */
  datatype BusHealth = BusHealth(rxDropped: u16, txDropped: u16, busOff: bool)

  /** A frame handed to the transmit path, with its priority. */
  datatype Reply = Reply(frame: Frame, priority: u8)

  /** Which way through `can_runtime_service_next` a frame took. */
  datatype Disposition =
    | NotForUs
    | Rejected(error: DecodeError)
    | Replayed
    | Reused
    | StatusSent
    | Busy
    | PlanRefused(result: CommandResult)
    | HardwareFailed(fault: Fault)
    | Completed

  datatype Serviced = Serviced(
    receiver: Receiver, replies: seq<Reply>, events: seq<RecordEvent>, writes: seq<Write>, disposition: Disposition)

  predicate SameKey(left: Command, right: Command)
  {
    left.kind == right.kind && left.destination == right.destination
    && left.source == right.source && left.sequence == right.sequence
  }

  datatype Lookup = Miss | Hit(response: Frame) | SequenceReuse

  function ReplayLookup(cache: ReplayCache, command: Command, request: Frame): Lookup
    requires request.length <= MAX_DATA_LENGTH
  {
    if command.destination == BROADCAST then Miss
    else if !StateChanging(command.kind) then Miss
    else if cache.Empty? then Miss
    else if !SameKey(command, cache.command) then Miss
    else if request.length != cache.requestLength then SequenceReuse
    else if Payload(request) != cache.requestData[..request.length] then SequenceReuse
    else Hit(cache.response)
  }

  function PaddedPayload(request: Frame): (data: Buffer)
    requires request.length <= MAX_DATA_LENGTH
    ensures data[..request.length] == Payload(request)
  {
    Payload(request) + seq(8 - request.length, i => 0)
  }

  function StoreAck(cache: ReplayCache, command: Command, request: Frame, ack: Frame): ReplayCache
    requires request.length <= MAX_DATA_LENGTH
  {
    if command.destination == BROADCAST || !StateChanging(command.kind) then cache
    else Cached(command, request.length, PaddedPayload(request), ack)
  }

  function AckFor(nodeId: u8, command: Command): Option<Frame>
  {
    MakeResult(ACK, nodeId, command.source, command.sequence, command.kind, ResultOk)
  }

  function ErrorReplies(nodeId: u8, command: Command, result: CommandResult): seq<Reply>
  {
    if command.destination == BROADCAST then []
    else
      match MakeResult(ERROR, nodeId, command.source, command.sequence, command.kind, result)
      case None => []
      case Some(frame) => [Reply(frame, PRIORITY_ERROR)]
  }

  function ErrorRepliesToFrame(nodeId: u8, frame: Frame, error: DecodeError): seq<Reply>
  {
    if !frame.extended || frame.remote then []
    else
      match ParseId(frame.id)
      case None => []
      case Some(f) =>
        if f.destination != nodeId || f.source != CONTROLLER || f.kind > PING then []
        else
          match MakeResult(ERROR, nodeId, f.source, f.sequence, f.kind, ResultFromDecode(error))
          case None => []
          case Some(response) => [Reply(response, PRIORITY_ERROR)]
  }

  const HEALTH_CLOCK_FALLBACK: u8 := 1
  const HEALTH_RX_DROPPED: u8 := 2
  const HEALTH_INVALID_COMMAND: u8 := 4
  const HEALTH_SAFE_LOCKOUT: u8 := 8
  const HEALTH_BUS_OFF: u8 := 16
  const HEALTH_TX_DROPPED: u8 := 32

  /** One bit per condition. The bits are distinct powers of two, so joining them is adding them. */
  function HealthFlags(r: Receiver, health: BusHealth): u8
  {
    (if r.config.clock == Hsi48 then 1 else 0)
    + (if health.rxDropped != 0 then 2 else 0)
    + (if r.invalidCommands != 0 then 4 else 0)
    + (if r.config.safeLockout then 8 else 0)
    + (if health.busOff then 16 else 0)
    + (if health.txDropped != 0 then 32 else 0)
  }

  /** `flags |= bit`, for a bit above all those already there. */
  function SetBit(flags: u8, place: nat, bit: u8): (joined: u8)
    requires place <= 5 && bit == Pow2(place) && flags < Pow2(place)
    ensures joined == flags + bit
  {
    OrCommutes(flags, bit);
    OrDisjoint(1, place, flags);
    Pow2Small(place);
    Or(flags, bit)
  }

  lemma Pow2Small(place: nat)
    requires place <= 5
    ensures Pow2(place) <= 32
  {
    Powers();
  }

  function StatusReplies(r: Receiver, command: Command, health: BusHealth): seq<Reply>
  {
    if command.destination == BROADCAST then []
    else
      var status := StatusPayload(
        r.config.nodeId, HealthFlags(r, health), health.rxDropped, health.txDropped, r.invalidCommands);
      match MakeStatus(r.config.nodeId, command.source, command.sequence, status)
      case None => []
      case Some(frame) => [Reply(frame, PRIORITY_REQUESTED_STATUS)]
  }

  function Unchanged(r: Receiver, replies: seq<Reply>, disposition: Disposition): Serviced
  {
    Serviced(r, replies, [], [], disposition)
  }

  /** A decoded command that the replay cache does not answer. */
  function Perform(r: Receiver, command: Command, request: Frame, port: SpiPort): Serviced
    requires request.length <= MAX_DATA_LENGTH
  {
    var planned := PlanCommand(r.config.words, command, r.state);
    if planned.result != ResultOk then
      Unchanged(
        r.(invalidCommands := Increment(r.invalidCommands)),
        ErrorReplies(r.config.nodeId, command, planned.result),
        PlanRefused(planned.result))
    else
      var e := Execute(planned.plan.operations, r.outputs, port);
      if e.fault != NoFault then
        Serviced(
          r.(outputs := e.outputs),
          ErrorReplies(r.config.nodeId, command, ResultHardware),
          [SetFault(e.fault)], e.writes, HardwareFailed(e.fault))
      else
        var done := r.(outputs := e.outputs, state := planned.plan.resulting);
        var events := [SetCommands(e.outputs.lastPhase, e.outputs.lastVga)];
        if command.destination == BROADCAST then
          Serviced(done.(cache := Empty), [], events, e.writes, Completed)
        else
          match AckFor(r.config.nodeId, command)
          case None => Serviced(done, [], events, e.writes, Completed)
          case Some(ack) =>
            Serviced(
              done.(cache := StoreAck(r.cache, command, request, ack)),
              [Reply(ack, PRIORITY_ACK)], events, e.writes, Completed)
  }

  function ServiceCommand(r: Receiver, command: Command, frame: Frame, health: BusHealth, port: SpiPort): Serviced
    requires frame.length <= MAX_DATA_LENGTH
  {
    match ReplayLookup(r.cache, command, frame)
    case Hit(response) => Unchanged(r, [Reply(response, PRIORITY_ACK)], Replayed)
    case SequenceReuse =>
      Unchanged(
        r.(invalidCommands := Increment(r.invalidCommands)),
        ErrorReplies(r.config.nodeId, command, ResultSequenceReuse), Reused)
    case Miss =>
      if command.kind == PING then Unchanged(r, StatusReplies(r, command, health), StatusSent)
      else if r.config.safeLockout && command.kind != ENTER_SAFE then
        Unchanged(r, ErrorReplies(r.config.nodeId, command, ResultBusy), Busy)
      else Perform(r, command, frame, port)
  }

  lemma DecodedLength(frame: Frame, nodeId: u8)
    requires Decode(frame, nodeId).Valid?
    ensures frame.length <= MAX_DATA_LENGTH
  {
  }

  function Service(r: Receiver, frame: Frame, health: BusHealth, port: SpiPort): Serviced
  {
    match Decode(frame, r.config.nodeId)
    case Invalid(error) =>
      if error == Ignored then Unchanged(r, [], NotForUs)
      else
        Unchanged(
          r.(invalidCommands := Increment(r.invalidCommands)),
          ErrorRepliesToFrame(r.config.nodeId, frame, error), Rejected(error))
    case Valid(command) =>
      DecodedLength(frame, r.config.nodeId);
      ServiceCommand(r, command, frame, health, port)
  }

  /** `can_runtime_start`; `None` is its `false`. `busReady` is what `can_bus_setup` reports. */
  function StartReceiver(
    config: Config, initial: RfState, outputs: Outputs, phaseCommand: u16, vgaCommand: u8, busReady: bool)
    : Option<Receiver>
  {
    if config.nodeId < NODE_MIN || config.nodeId > NODE_MAX then None
    else if initial.attenuationDb > VGA_MAX_ATTENUATION_DB then None
    else if !busReady then None
    else Some(Receiver(config, initial, outputs.(lastPhase := phaseCommand, lastVga := vgaCommand), 0, Empty))
  }

  /** The firmware's runtime object. `outbox` logs what it hands to the bus, `diagnostics` what it records. */
  class CommandRuntime {
    const words: Calibration
    const devices: RfDevices
    var nodeId: u8
    var clock: Clock
    var safeLockout: bool
    var state: RfState
    var invalidCommands: u16
    var replayCache: ReplayCache
    var outbox: seq<Reply>
    var diagnostics: seq<RecordEvent>

    ghost function Value(): Receiver
      reads this, devices
    {
      Receiver(Config(words, nodeId, clock, safeLockout), state, devices.Value(), invalidCommands, replayCache)
    }

    constructor (words: Calibration, devices: RfDevices)
      ensures this.words == words && this.devices == devices
      ensures outbox == [] && diagnostics == [] && replayCache == Empty && invalidCommands == 0
    {
      this.words, this.devices := words, devices;
      nodeId, clock, safeLockout := 0, ClockUnknown, false;
      state, invalidCommands, replayCache := RfState(0, 0), 0, Empty;
      outbox, diagnostics := [], [];
    }

    method Start(
      node: u8, clockSource: Clock, lockout: bool, initial: RfState, phaseCommand: u16, vgaCommand: u8,
      busReady: bool) returns (ok: bool)
      modifies this, devices
      ensures var started := StartReceiver(
                Config(words, node, clockSource, lockout), initial, old(devices.Value()),
                phaseCommand, vgaCommand, busReady);
        ok == started.Some? && (ok ==> Value() == started.value)
      ensures ok <==> 1 <= node <= 30 && initial.attenuationDb <= 23 && busReady
      ensures ok ==>
        nodeId == node && clock == clockSource && safeLockout == lockout && state == initial
        && invalidCommands == 0 && replayCache == Empty
        && devices.Value() == old(devices.Value()).(lastPhase := phaseCommand, lastVga := vgaCommand)
      ensures outbox == old(outbox) && diagnostics == old(diagnostics) && devices.log == old(devices.log)
    {
      if node < NODE_MIN || node > NODE_MAX {
        return false;
      }
      if initial.attenuationDb > VGA_MAX_ATTENUATION_DB {
        return false;
      }
      invalidCommands, replayCache := 0, Empty;
      state := initial;
      devices.RecordLast(phaseCommand, vgaCommand);
      nodeId, clock, safeLockout := node, clockSource, lockout;
      return busReady;
    }

    method Send(reply: Reply)
      modifies this`outbox
      ensures outbox == old(outbox) + [reply]
    {
      outbox := outbox + [reply];
    }

    method IncrementInvalidCommands()
      modifies this`invalidCommands
      ensures invalidCommands == Increment(old(invalidCommands))
    {
      if invalidCommands != 0xffff {
        invalidCommands := invalidCommands + 1;
      }
    }

    /** The ACK is in the cache before it is on its way, so that it can be sent again if it is lost. */
    method SendAck(command: Command, request: Frame)
      requires request.length <= MAX_DATA_LENGTH
      modifies this`outbox, this`replayCache
      ensures var ack := AckFor(nodeId, command);
        if command.destination == BROADCAST || ack.None? then
          outbox == old(outbox) && replayCache == old(replayCache)
        else
          outbox == old(outbox) + [Reply(ack.value, PRIORITY_ACK)]
          && replayCache == StoreAck(old(replayCache), command, request, ack.value)
    {
      if command.destination == BROADCAST {
        return;
      }
      var response := AckFor(nodeId, command);
      if response.Some? {
        replayCache := StoreAck(replayCache, command, request, response.value);
        Send(Reply(response.value, PRIORITY_ACK));
      }
    }

    method SendErrorForCommand(command: Command, result: CommandResult)
      modifies this`outbox
      ensures outbox == old(outbox) + ErrorReplies(nodeId, command, result)
    {
      if command.destination == BROADCAST {
        return;
      }
      var response := MakeResult(ERROR, nodeId, command.source, command.sequence, command.kind, result);
      if response.Some? {
        Send(Reply(response.value, PRIORITY_ERROR));
      }
    }

    method SendErrorForFrame(frame: Frame, error: DecodeError)
      modifies this`outbox
      ensures outbox == old(outbox) + ErrorRepliesToFrame(nodeId, frame, error)
    {
      if !frame.extended || frame.remote {
        return;
      }
      var fields := ParseId(frame.id);
      if fields.None? {
        return;
      }
      var f := fields.value;
      if f.destination != nodeId || f.source != CONTROLLER || f.kind > PING {
        return;
      }
      var response := MakeResult(ERROR, nodeId, f.source, f.sequence, f.kind, ResultFromDecode(error));
      if response.Some? {
        Send(Reply(response.value, PRIORITY_ERROR));
      }
    }

    /** `health_flags`: one `|=` for each condition that holds. */
    method CollectHealthFlags(health: BusHealth) returns (flags: u8)
      ensures flags == HealthFlags(Value(), health)
    {
      hide Or;
      flags := 0;
      if clock == Hsi48 {
        flags := SetBit(flags, 0, HEALTH_CLOCK_FALLBACK);
      }
      if health.rxDropped != 0 {
        flags := SetBit(flags, 1, HEALTH_RX_DROPPED);
      }
      if invalidCommands != 0 {
        flags := SetBit(flags, 2, HEALTH_INVALID_COMMAND);
      }
      if safeLockout {
        flags := SetBit(flags, 3, HEALTH_SAFE_LOCKOUT);
      }
      if health.busOff {
        flags := SetBit(flags, 4, HEALTH_BUS_OFF);
      }
      if health.txDropped != 0 {
        flags := SetBit(flags, 5, HEALTH_TX_DROPPED);
      }
    }

    method SendStatus(command: Command, health: BusHealth)
      modifies this`outbox
      ensures outbox == old(outbox) + StatusReplies(old(Value()), command, health)
    {
      if command.destination == BROADCAST {
        return;
      }
      var flags := CollectHealthFlags(health);
      var response := MakeStatus(
        nodeId, command.source, command.sequence,
        StatusPayload(nodeId, flags, health.rxDropped, health.txDropped, invalidCommands));
      if response.Some? {
        Send(Reply(response.value, PRIORITY_REQUESTED_STATUS));
      }
    }

    /** From planning on: the part of `can_runtime_service_next` that touches the hardware. */
    method PerformCommand(command: Command, request: Frame, port: SpiPort)
      requires request.length <= MAX_DATA_LENGTH
      modifies this, devices
      ensures var s := Perform(old(Value()), command, request, port);
        && Value() == s.receiver
        && outbox == old(outbox) + s.replies
        && diagnostics == old(diagnostics) + s.events
        && devices.log == old(devices.log) + s.writes
    {
      hide PlanCommand, Execute, AckFor, ErrorReplies, StoreAck, Increment;
      var plan := new PlanBuffer();
      var planned := plan.ForCommand(words, command, state);
      if planned != ResultOk {
        IncrementInvalidCommands();
        SendErrorForCommand(command, planned);
        return;
      }
      var fault := devices.ExecutePlan(plan, port);
      if fault != NoFault {
        diagnostics := diagnostics + [SetFault(fault)];
        SendErrorForCommand(command, ResultHardware);
        return;
      }
      state := plan.resulting;
      diagnostics := diagnostics + [SetCommands(devices.lastPhaseCommand, devices.lastVgaCommand)];
      // Nobody acknowledges a broadcast, and it has undone what the cached ACK vouched for.
      if command.destination == BROADCAST {
        replayCache := Empty;
        return;
      }
      SendAck(command, request);
    }

    method ServiceNext(received: Option<Frame>, health: BusHealth, port: SpiPort) returns (processed: bool)
      modifies this, devices
      ensures processed == received.Some?
      ensures received.None? ==>
        Value() == old(Value()) && outbox == old(outbox) && diagnostics == old(diagnostics)
        && devices.log == old(devices.log)
      ensures received.Some? ==>
        var s := Service(old(Value()), received.value, health, port);
        && Value() == s.receiver
        && outbox == old(outbox) + s.replies
        && diagnostics == old(diagnostics) + s.events
        && devices.log == old(devices.log) + s.writes
    {
      hide Perform, MakeResult, ParseId;
      if received.None? {
        return false;
      }
      var frame := received.value;
      var decoded := Decode(frame, nodeId);
      if decoded.Invalid? {
        if decoded.error != Ignored {
          IncrementInvalidCommands();
          SendErrorForFrame(frame, decoded.error);
        }
        return true;
      }
      var command := decoded.command;
      DecodedLength(frame, nodeId);

      // A repeated request gets its old answer whatever has become of the node since.
      var lookup := ReplayLookup(replayCache, command, frame);
      if lookup.Hit? {
        Send(Reply(lookup.response, PRIORITY_ACK));
      } else if lookup.SequenceReuse? {
        IncrementInvalidCommands();
        SendErrorForCommand(command, ResultSequenceReuse);
      } else if command.kind == PING {
        SendStatus(command, health);
      } else if safeLockout && command.kind != ENTER_SAFE {
        SendErrorForCommand(command, ResultBusy);
      } else {
        PerformCommand(command, frame, port);
      }
      return true;
    }
  }
}
