/** What the command runtime keeps on every run, and how it answers. */
module RuntimeSafety {
  import opened Bits
  import opened Protocol
  import opened RfCommands
  import opened RfPlan
  import opened RfExecute
  import opened RfSafety
  import opened Firmware
  import opened TxQueue
  import opened Runtime

  /** The payload bytes spell out the command's fields, and nothing else. */
  predicate Carries(command: Command, payload: seq<u8>)
  {
    if command.kind == SET_COMBINED then
      payload == [command.phaseState, command.attenuationDb]
    else if command.kind == SET_PHASE then payload == [command.phaseState] && command.attenuationDb == 0
    else if command.kind == SET_VGA then payload == [command.attenuationDb] && command.phaseState == 0
    else payload == [] && command.phaseState == 0 && command.attenuationDb == 0
  }

  lemma DecodedCommand(frame: Frame, nodeId: u8)
    requires Decode(frame, nodeId).Valid?
    ensures var c := Decode(frame, nodeId).command;
      && frame.extended && !frame.remote && frame.length <= MAX_DATA_LENGTH
      && ParseId(frame.id) == Some(IdFields(c.kind, c.destination, c.source, c.sequence))
      && Decodable(c) && Carries(c, Payload(frame))
      && c.source == CONTROLLER
      && (c.destination == nodeId || (c.destination == BROADCAST && c.kind == ENTER_SAFE))
  {
    hide ParseId;
  }

  /** A frame whose identifier and payload spell out a command decodes to exactly that command. */
  lemma DecodingOf(frame: Frame, nodeId: u8, c: Command)
    requires NODE_MIN <= nodeId <= NODE_MAX
    requires frame.extended && !frame.remote && frame.length <= MAX_DATA_LENGTH
    requires ParseId(frame.id) == Some(IdFields(c.kind, c.destination, c.source, c.sequence))
    requires Decodable(c) && Carries(c, Payload(frame)) && c.destination == nodeId && c.source == CONTROLLER
    ensures Decode(frame, nodeId) == Valid(c)
  {
    hide ParseId;
    var p := Payload(frame);
    assert |p| == frame.length as int;
    assert |p| > 0 ==> p[0] == frame.data[0];
    assert |p| > 1 ==> p[1] == frame.data[1];
  }

  /** The software state already is what the command asks for. */
  predicate AgreesWith(state: RfState, command: Command)
  {
    Requested(command, state) == state
  }

  /**
   A cached ACK may be replayed because it is still true: it answers a unicast state-changing
   command to this node, it is the ACK that command earns, and the state still agrees with it.
   */
  predicate CacheIsTruthful(r: Receiver)
  {
    r.cache.Cached? ==>
      var c := r.cache.command;
      && c.destination == r.config.nodeId && c.source == CONTROLLER
      && StateChanging(c.kind) && Decodable(c)
      && r.cache.requestLength <= 8
      && Carries(c, r.cache.requestData[..r.cache.requestLength])
      && AckFor(r.config.nodeId, c) == Some(r.cache.response)
      && AgreesWith(r.state, c)
  }

  predicate LockoutHolds(r: Receiver)
  {
    r.config.safeLockout ==>
      r.state == RfState(0, VGA_MAX_ATTENUATION_DB)
      && (r.cache.Cached? ==> r.cache.command.kind == ENTER_SAFE)
  }

  predicate Safe(r: Receiver)
  {
    && NODE_MIN <= r.config.nodeId <= NODE_MAX
    && AttenuatorTracks(r.outputs, r.state)
    && Recorded(r.outputs)
    && CacheIsTruthful(r)
    && LockoutHolds(r)
  }

  lemma AckExists(nodeId: u8, responseKind: u8, sequence: u16, commandKind: u8, result: CommandResult)
    requires NODE_MIN <= nodeId <= NODE_MAX && responseKind < TYPE_COUNT && commandKind < TYPE_COUNT
    ensures var m := MakeResult(responseKind, nodeId, CONTROLLER, sequence, commandKind, result);
      && m.Some?
      && ParseId(m.value.id) == Some(IdFields(responseKind, CONTROLLER, nodeId, sequence))
      && m.value.extended && !m.value.remote
      && Payload(m.value) == [commandKind, ResultCode(result)]
  {
    hide ParseId, MakeId;
    ParseAfterMake(IdFields(responseKind, CONTROLLER, nodeId, sequence));
  }

  /** `Perform` once planning is known to succeed: one attempt at the plan, and what follows from its outcome. */
  function Performed(r: Receiver, command: Command, request: Frame, port: SpiPort): Serviced
    requires request.length <= MAX_DATA_LENGTH && AckFor(r.config.nodeId, command).Some?
  {
    var e := Attempt(r.config.words, command, r.state, r.outputs, port);
    if e.fault != NoFault then
      Serviced(
        r.(outputs := e.outputs), ErrorReplies(r.config.nodeId, command, ResultHardware),
        [SetFault(e.fault)], e.writes, HardwareFailed(e.fault))
    else
      var ack := AckFor(r.config.nodeId, command).value;
      var unicast := command.destination != BROADCAST;
      Serviced(
        r.(outputs := e.outputs, state := Requested(command, r.state),
           cache := if unicast then Cached(command, request.length, PaddedPayload(request), ack) else Empty),
        if unicast then [Reply(ack, PRIORITY_ACK)] else [],
        [SetCommands(e.outputs.lastPhase, e.outputs.lastVga)], e.writes, Completed)
  }

  /** A command that reaches planning: decoded, allowed here, and not answered from the cache. */
  predicate Performable(r: Receiver, command: Command, request: Frame)
  {
    && Decodable(command) && StateChanging(command.kind) && command.source == CONTROLLER
    && (command.destination == r.config.nodeId || (command.destination == BROADCAST && command.kind == ENTER_SAFE))
    && (r.config.safeLockout ==> command.kind == ENTER_SAFE)
    && request.length <= MAX_DATA_LENGTH && Carries(command, Payload(request))
  }

  lemma PerformIsPerformed(r: Receiver, command: Command, request: Frame, port: SpiPort)
    requires Safe(r) && Performable(r, command, request)
    ensures AckFor(r.config.nodeId, command).Some?
    ensures Perform(r, command, request, port) == Performed(r, command, request, port)
  {
    hide PlanCommand, Execute, EncodePhase, MakeResult, PaddedPayload, ErrorReplies, ExecutionOrder, Carries;
    PlannerNeverFails(r.config.words, command, r.state);
    AckExists(r.config.nodeId, ACK, command.sequence, command.kind, ResultOk);
  }

  lemma PerformIsSafe(r: Receiver, command: Command, request: Frame, port: SpiPort)
    requires Safe(r) && Performable(r, command, request)
    ensures var s := Perform(r, command, request, port);
      && Safe(s.receiver)
      && PhaseWritesAreQuiet(s.writes)
      && (r.config.safeLockout ==> SafeWords(r.config.words, s.writes))
  {
    hide PlanCommand, Execute, EncodePhase, MakeResult, PaddedPayload, ErrorReplies, SafeWords,
         PhaseWritesAreQuiet, Carries, Attempt, Perform, AttenuatorTracks, Recorded;
    PerformIsPerformed(r, command, request, port);
    AttemptIsSafe(r.config.words, command, r.state, r.outputs, port);
    assert PaddedPayload(request)[..request.length] == Payload(request);
  }

  /**
   One serviced frame, of any kind and under any SPI failures, keeps the whole invariant: the
   attenuator bound, truthful replay and lockout. Every phase write it causes is made at 23 dB.
   */
  lemma ServiceIsSafe(r: Receiver, frame: Frame, health: BusHealth, port: SpiPort)
    requires Safe(r)
    ensures var s := Service(r, frame, health, port);
      && Safe(s.receiver) && s.receiver.config == r.config
      && PhaseWritesAreQuiet(s.writes)
      && (r.config.safeLockout ==> SafeWords(r.config.words, s.writes))
      && !s.disposition.PlanRefused?
  {
    hide Perform, ErrorReplies, ErrorRepliesToFrame, StatusReplies, ParseId, Decode, AttenuatorTracks, Recorded,
         Carries, Decodable, AckFor, AgreesWith;
    var decoded := Decode(frame, r.config.nodeId);
    if decoded.Valid? {
      var c := decoded.command;
      DecodedCommand(frame, r.config.nodeId);
      if ReplayLookup(r.cache, c, frame).Miss? && c.kind != PING && !(r.config.safeLockout && c.kind != ENTER_SAFE) {
        DecodableKinds(c);
        PerformIsSafe(r, c, frame, port);
        PerformIsPerformed(r, c, frame, port);
      }
    }
  }

  lemma DecodableKinds(c: Command)
    requires Decodable(c) && c.kind != PING
    ensures StateChanging(c.kind)
  {
  }

  // Replies

  /** The frames that deserve an answer: extended data frames from the controller to this very node. */
  predicate ExpectsReply(frame: Frame, nodeId: u8)
  {
    frame.extended && !frame.remote && ParseId(frame.id).Some?
    && var f := ParseId(frame.id).value;
       f.destination == nodeId && f.source == CONTROLLER && f.kind <= PING
  }

  /** A well-formed answer: addresses swapped, sequence kept, and the command's type named where it matters. */
  predicate Answers(reply: Frame, f: IdFields)
  {
    reply.extended && !reply.remote && reply.length <= MAX_DATA_LENGTH && ParseId(reply.id).Some?
    && var g := ParseId(reply.id).value;
       g.destination == f.source && g.source == f.destination && g.sequence == f.sequence
       && (if g.kind == STATUS then f.kind == PING && reply.length == 8 && reply.data[3] == f.destination
           else if g.kind == ACK then StateChanging(f.kind) && Payload(reply) == [f.kind, 0]
           else g.kind == ERROR && reply.length == 2 && reply.data[0] == f.kind && reply.data[1] != 0)
  }

  lemma ErrorAnswers(nodeId: u8, kind: u8, sequence: u16, result: CommandResult)
    requires NODE_MIN <= nodeId <= NODE_MAX && kind <= PING && result != ResultOk
    ensures var m := MakeResult(ERROR, nodeId, CONTROLLER, sequence, kind, result);
      m.Some? && Answers(m.value, IdFields(kind, nodeId, CONTROLLER, sequence))
  {
    hide ParseId, MakeId;
    AckExists(nodeId, ERROR, sequence, kind, result);
  }

  lemma AckAnswers(nodeId: u8, c: Command)
    requires NODE_MIN <= nodeId <= NODE_MAX && StateChanging(c.kind) && c.source == CONTROLLER
    ensures AckFor(nodeId, c).Some?
    ensures Answers(AckFor(nodeId, c).value, IdFields(c.kind, nodeId, CONTROLLER, c.sequence))
  {
    hide ParseId, MakeId;
    AckExists(nodeId, ACK, c.sequence, c.kind, ResultOk);
  }

  lemma StatusAnswers(r: Receiver, c: Command, health: BusHealth)
    requires NODE_MIN <= r.config.nodeId <= NODE_MAX && c.kind == PING && c.source == CONTROLLER
    requires c.destination == r.config.nodeId
    ensures |StatusReplies(r, c, health)| == 1
    ensures Answers(StatusReplies(r, c, health)[0].frame, IdFields(PING, r.config.nodeId, CONTROLLER, c.sequence))
  {
    hide ParseId, MakeId, HealthFlags;
    ParseAfterMake(IdFields(STATUS, CONTROLLER, r.config.nodeId, c.sequence));
  }

  /** Each frame that deserves an answer gets exactly one, and no other frame gets any. */
  lemma ReplyDiscipline(r: Receiver, frame: Frame, health: BusHealth, port: SpiPort)
    requires Safe(r)
    ensures var replies := Service(r, frame, health, port).replies;
      if ExpectsReply(frame, r.config.nodeId) then
        |replies| == 1 && Answers(replies[0].frame, ParseId(frame.id).value)
      else replies == []
  {
    hide ParseId, Perform, Answers, MakeResult, StatusReplies, Decode, AttenuatorTracks, Carries;
    var node := r.config.nodeId;
    match Decode(frame, node)
    case Invalid(error) =>
      RejectionReplies(r, frame, error);
    case Valid(c) =>
      DecodedCommand(frame, node);
      if c.destination == node {
        CommandReplies(r, c, frame, health, port);
      } else {
        BroadcastIsSilent(r, c, frame, health, port);
      }
  }

  lemma RejectionReplies(r: Receiver, frame: Frame, error: DecodeError)
    requires Safe(r) && Decode(frame, r.config.nodeId) == Invalid(error)
    ensures error == Ignored ==> !ExpectsReply(frame, r.config.nodeId)
    ensures var replies := ErrorRepliesToFrame(r.config.nodeId, frame, error);
      if ExpectsReply(frame, r.config.nodeId) then
        |replies| == 1 && Answers(replies[0].frame, ParseId(frame.id).value)
      else replies == []
  {
    hide ParseId, Answers, MakeResult;
    if ExpectsReply(frame, r.config.nodeId) {
      var f := ParseId(frame.id).value;
      ErrorAnswers(r.config.nodeId, f.kind, f.sequence, ResultFromDecode(error));
    }
  }

  lemma CommandReplies(r: Receiver, c: Command, frame: Frame, health: BusHealth, port: SpiPort)
    requires Safe(r) && Decode(frame, r.config.nodeId) == Valid(c) && c.destination == r.config.nodeId
    ensures frame.length <= MAX_DATA_LENGTH
    ensures var replies := ServiceCommand(r, c, frame, health, port).replies;
      |replies| == 1 && Answers(replies[0].frame, IdFields(c.kind, c.destination, c.source, c.sequence))
  {
    hide ParseId, Answers, MakeResult, StatusReplies, Decode, Perform, PlanCommand, AttenuatorTracks, Recorded,
         Carries, AgreesWith, Attempt;
    DecodedCommand(frame, r.config.nodeId);
    if c.kind == PING {
      StatusAnswers(r, c, health);
    } else {
      DecodableKinds(c);
      AckAnswers(r.config.nodeId, c);
      ErrorAnswers(r.config.nodeId, c.kind, c.sequence, ResultSequenceReuse);
      ErrorAnswers(r.config.nodeId, c.kind, c.sequence, ResultBusy);
      ErrorAnswers(r.config.nodeId, c.kind, c.sequence, ResultHardware);
      if r.cache.Cached? {
        AckAnswers(r.config.nodeId, r.cache.command);
      }
      if !(r.config.safeLockout && c.kind != ENTER_SAFE) {
        PerformIsPerformed(r, c, frame, port);
      }
    }
  }

  lemma BroadcastIsSilent(r: Receiver, c: Command, frame: Frame, health: BusHealth, port: SpiPort)
    requires Safe(r) && Decode(frame, r.config.nodeId) == Valid(c) && c.destination != r.config.nodeId
    ensures frame.length <= MAX_DATA_LENGTH && !ExpectsReply(frame, r.config.nodeId)
    ensures ServiceCommand(r, c, frame, health, port).replies == []
  {
    hide ParseId, MakeResult, StatusReplies, Decode, Perform, AttenuatorTracks, Recorded, Carries, AgreesWith, Attempt;
    DecodedCommand(frame, r.config.nodeId);
    PerformIsPerformed(r, c, frame, port);
  }

  /** How many payload bytes each command takes. */
  function PayloadLength(kind: u8): u8
  {
    if kind == SET_COMBINED then 2 else if kind == SET_PHASE || kind == SET_VGA then 1 else 0
  }

  /** The frame asks for more attenuation than the device has. */
  predicate AsksTooMuch(frame: Frame, kind: u8)
  {
    (kind == SET_VGA && frame.data[0] > VGA_MAX_ATTENUATION_DB)
    || (kind == SET_COMBINED && frame.data[1] > VGA_MAX_ATTENUATION_DB)
  }

  /** A frame that deserves an answer is rejected for its length or its attenuation, and for nothing else. */
  lemma RejectionReasons(frame: Frame, nodeId: u8)
    requires NODE_MIN <= nodeId <= NODE_MAX && ExpectsReply(frame, nodeId)
    ensures var f, d := ParseId(frame.id).value, Decode(frame, nodeId);
      && (d.Invalid? <==> frame.length != PayloadLength(f.kind) || AsksTooMuch(frame, f.kind))
      && (d.Invalid? ==>
            d.error == if frame.length != PayloadLength(f.kind) then InvalidLength else InvalidPayload)
  {
    hide ParseId;
  }

  predicate IsError(reply: Frame, code: u8)
  {
    ParseId(reply.id).Some? && ParseId(reply.id).value.kind == ERROR && reply.data[1] == code
  }

  predicate IsOfKind(reply: Frame, kind: u8)
  {
    ParseId(reply.id).Some? && ParseId(reply.id).value.kind == kind
  }

  /** The answer names what became of the command, with the documented result code. */
  predicate TellsWhy(reply: Frame, frame: Frame, kind: u8, r: Receiver, disposition: Disposition)
  {
    match disposition
    case Rejected(_) => IsError(reply, if frame.length != PayloadLength(kind) then 1 else 2)
    case HardwareFailed(_) => IsError(reply, 4)
    case Busy => IsError(reply, 5) && r.config.safeLockout && kind != ENTER_SAFE
    case Reused => IsError(reply, 6)
    case StatusSent => IsOfKind(reply, STATUS) && kind == PING
    case Replayed => IsOfKind(reply, ACK) && r.cache.Cached? && reply == r.cache.response
    case Completed => IsOfKind(reply, ACK)
    case NotForUs => false
    case PlanRefused(_) => false
  }

  lemma ErrorTells(nodeId: u8, kind: u8, sequence: u16, result: CommandResult)
    requires NODE_MIN <= nodeId <= NODE_MAX && kind <= PING
    ensures var m := MakeResult(ERROR, nodeId, CONTROLLER, sequence, kind, result);
      m.Some? && IsError(m.value, ResultCode(result))
  {
    hide ParseId, MakeId;
    AckExists(nodeId, ERROR, sequence, kind, result);
  }

  lemma ReplyTellsWhy(r: Receiver, frame: Frame, health: BusHealth, port: SpiPort)
    requires Safe(r) && ExpectsReply(frame, r.config.nodeId)
    ensures var s, kind := Service(r, frame, health, port), ParseId(frame.id).value.kind;
      && |s.replies| == 1 && TellsWhy(s.replies[0].frame, frame, kind, r, s.disposition)
      && (s.disposition.Rejected? <==> frame.length != PayloadLength(kind) || AsksTooMuch(frame, kind))
  {
    hide ParseId, Perform, MakeResult, StatusReplies, Decode, AttenuatorTracks, Recorded, Carries, AgreesWith, Attempt,
         PayloadLength, AsksTooMuch, IsError, IsOfKind, PaddedPayload;
    var node, f := r.config.nodeId, ParseId(frame.id).value;
    RejectionReasons(frame, node);
    match Decode(frame, node)
    case Invalid(error) =>
      ErrorTells(node, f.kind, f.sequence, ResultFromDecode(error));
    case Valid(c) =>
      DecodedCommand(frame, node);
      CommandTellsWhy(r, c, frame, health, port);
  }

  lemma CommandTellsWhy(r: Receiver, c: Command, frame: Frame, health: BusHealth, port: SpiPort)
    requires Safe(r) && Decode(frame, r.config.nodeId) == Valid(c) && c.destination == r.config.nodeId
    ensures frame.length <= MAX_DATA_LENGTH
    ensures var s := ServiceCommand(r, c, frame, health, port);
      && |s.replies| == 1 && TellsWhy(s.replies[0].frame, frame, c.kind, r, s.disposition)
      && !s.disposition.Rejected?
  {
    hide ParseId, Perform, MakeResult, StatusReplies, Decode, AttenuatorTracks, Recorded, Carries, AgreesWith, Attempt,
         IsError, PaddedPayload;
    var node := r.config.nodeId;
    DecodedCommand(frame, node);
    if c.kind == PING {
      StatusTells(r, c, health);
    } else {
      DecodableKinds(c);
      AckExists(node, ACK, c.sequence, c.kind, ResultOk);
      ErrorTells(node, c.kind, c.sequence, ResultSequenceReuse);
      ErrorTells(node, c.kind, c.sequence, ResultBusy);
      ErrorTells(node, c.kind, c.sequence, ResultHardware);
      if r.cache.Cached? {
        var k := r.cache.command;
        AckExists(node, ACK, k.sequence, k.kind, ResultOk);
      }
      if !(r.config.safeLockout && c.kind != ENTER_SAFE) {
        PerformIsPerformed(r, c, frame, port);
      }
    }
  }

  lemma StatusTells(r: Receiver, c: Command, health: BusHealth)
    requires NODE_MIN <= r.config.nodeId <= NODE_MAX && c.source == CONTROLLER && c.destination == r.config.nodeId
    ensures |StatusReplies(r, c, health)| == 1 && IsOfKind(StatusReplies(r, c, health)[0].frame, STATUS)
  {
    hide ParseId, MakeId, HealthFlags;
    ParseAfterMake(IdFields(STATUS, CONTROLLER, r.config.nodeId, c.sequence));
  }

  /** The transmit class a reply belongs to, by its message type. */
  function ClassOf(kind: u8): u8
  {
    if kind == ERROR then PRIORITY_ERROR else if kind == ACK then PRIORITY_ACK else PRIORITY_REQUESTED_STATUS
  }

  predicate InClass(reply: Reply)
  {
    ParseId(reply.frame.id).Some? && reply.priority == ClassOf(ParseId(reply.frame.id).value.kind)
  }

  /** The bus takes every reply, and in the class of its type: an ERROR before an ACK before a STATUS. */
  lemma RepliesAreSendable(r: Receiver, frame: Frame, health: BusHealth, port: SpiPort)
    requires Safe(r)
    ensures forall reply :: reply in Service(r, frame, health, port).replies ==>
      InClass(reply) && ValidPriority(reply.priority) && reply.frame.extended && !reply.frame.remote
      && reply.frame.id <= EXTENDED_ID_MAX && reply.frame.length <= MAX_DATA_LENGTH
  {
    hide Perform, MakeResult, Decode, AttenuatorTracks, Recorded, Carries, AgreesWith, Attempt, HealthFlags, MakeId,
         Service, And, Shr;
    ReplyDiscipline(r, frame, health, port);
    RepliesInClass(r, frame, health, port);
  }

  lemma RepliesInClass(r: Receiver, frame: Frame, health: BusHealth, port: SpiPort)
    requires Safe(r)
    ensures forall reply :: reply in Service(r, frame, health, port).replies ==> InClass(reply)
  {
    hide Perform, MakeResult, Decode, AttenuatorTracks, Recorded, Carries, AgreesWith, Attempt, HealthFlags, MakeId,
         ParseId;
    forall kind: u8, q: u16, result: CommandResult | kind <= PING
      ensures MakeResult(ERROR, r.config.nodeId, CONTROLLER, q, kind, result).Some?
      ensures ParseId(MakeResult(ERROR, r.config.nodeId, CONTROLLER, q, kind, result).value.id)
           == Some(IdFields(ERROR, CONTROLLER, r.config.nodeId, q))
      ensures MakeResult(ACK, r.config.nodeId, CONTROLLER, q, kind, result).Some?
      ensures ParseId(MakeResult(ACK, r.config.nodeId, CONTROLLER, q, kind, result).value.id)
           == Some(IdFields(ACK, CONTROLLER, r.config.nodeId, q))
    {
      AckExists(r.config.nodeId, ERROR, q, kind, result);
      AckExists(r.config.nodeId, ACK, q, kind, result);
    }
    if Decode(frame, r.config.nodeId).Valid? {
      var c := Decode(frame, r.config.nodeId).command;
      DecodedCommand(frame, r.config.nodeId);
      if c.kind == PING {
        ParseAfterMake(IdFields(STATUS, CONTROLLER, r.config.nodeId, c.sequence));
      } else if !(r.config.safeLockout && c.kind != ENTER_SAFE) {
        DecodableKinds(c);
        PerformIsPerformed(r, c, frame, port);
      }
    }
  }

  /** Each health bit reports one condition, whatever the others are. */
  lemma HealthBits(r: Receiver, health: BusHealth)
    ensures var flags := HealthFlags(r, health);
      && (flags % 2 == 1 <==> r.config.clock == Hsi48)
      && (flags / 2 % 2 == 1 <==> health.rxDropped != 0)
      && (flags / 4 % 2 == 1 <==> r.invalidCommands != 0)
      && (flags / 8 % 2 == 1 <==> r.config.safeLockout)
      && (flags / 16 % 2 == 1 <==> health.busOff)
      && (flags / 32 % 2 == 1 <==> health.txDropped != 0)
      && flags < 64
  {
  }

  // Hardware and software

  ghost predicate FaultFree(port: SpiPort)
  {
    forall i :: port(i) == SpiOk
  }

  /** Without SPI failures no frame makes the devices and the software state disagree. */
  lemma FaultFreeServiceAgrees(r: Receiver, frame: Frame, health: BusHealth, port: SpiPort)
    requires Safe(r) && InAgreement(r.config.words, r.outputs, r.state) && FaultFree(port)
    ensures var s := Service(r, frame, health, port);
      InAgreement(s.receiver.config.words, s.receiver.outputs, s.receiver.state) && !s.disposition.HardwareFailed?
  {
    hide Perform, ErrorReplies, ErrorRepliesToFrame, StatusReplies, ParseId, Decode, Carries, AckFor, AgreesWith,
         EncodePhase, Attempt, Requested;
    var decoded := Decode(frame, r.config.nodeId);
    if decoded.Valid? {
      var c := decoded.command;
      DecodedCommand(frame, r.config.nodeId);
      if c.kind != PING {
        DecodableKinds(c);
        FaultFreeAttemptCompletes(r.config.words, c, r.state, r.outputs, port);
        CompletionRestoresAgreement(r.config.words, c, r.state, r.outputs, port);
        if !(r.config.safeLockout && c.kind != ENTER_SAFE) {
          PerformIsPerformed(r, c, frame, port);
        }
      }
    }
  }

  /** After any faults, one completed command other than SET_VGA brings hardware and state together again. */
  lemma CompletedServiceRestores(r: Receiver, frame: Frame, health: BusHealth, port: SpiPort)
    requires Safe(r) && Service(r, frame, health, port).disposition == Completed
    ensures Decode(frame, r.config.nodeId).Valid?
    ensures var s, c := Service(r, frame, health, port), Decode(frame, r.config.nodeId).command;
      && s.receiver.state == Requested(c, r.state)
      && (InAgreement(r.config.words, s.receiver.outputs, s.receiver.state)
          <==> c.kind != SET_VGA || r.outputs.phaseLatch == EncodePhase(r.config.words, r.state.phaseState))
  {
    hide Perform, ErrorReplies, ErrorRepliesToFrame, StatusReplies, ParseId, Decode, Carries, AckFor, AgreesWith,
         EncodePhase, Attempt, Requested, InAgreement;
    var c := Decode(frame, r.config.nodeId).command;
    DecodedCommand(frame, r.config.nodeId);
    DecodableKinds(c);
    PerformIsPerformed(r, c, frame, port);
    CompletionRestoresAgreement(r.config.words, c, r.state, r.outputs, port);
  }

  /** ENTER_SAFE and PING carry no payload, so only the other three can ever be refused as sequence reuse. */
  lemma OnlySettersAreReused(r: Receiver, frame: Frame, health: BusHealth, port: SpiPort)
    requires Safe(r) && Service(r, frame, health, port).disposition == Reused
    ensures Decode(frame, r.config.nodeId).Valid?
    ensures var s, c := Service(r, frame, health, port), Decode(frame, r.config.nodeId).command;
      && c.kind in {SET_COMBINED, SET_PHASE, SET_VGA}
      && r.cache.Cached? && SameKey(c, r.cache.command)
      && (c.phaseState != r.cache.command.phaseState || c.attenuationDb != r.cache.command.attenuationDb)
      && s.receiver == r.(invalidCommands := Increment(r.invalidCommands)) && s.writes == []
  {
    hide Perform, ErrorReplies, ErrorRepliesToFrame, StatusReplies, ParseId, Decode, AckFor, AgreesWith, Attempt;
    DecodedCommand(frame, r.config.nodeId);
    var c := Decode(frame, r.config.nodeId).command;
    if !(r.config.safeLockout && c.kind != ENTER_SAFE) && c.kind != PING
      && ReplayLookup(r.cache, c, frame).Miss? {
      DecodableKinds(c);
      PerformIsPerformed(r, c, frame, port);
    }
  }

  /**
   What a frame may touch: a completed command moves the state and records the words the devices
   now hold; a failed one records its fault and leaves state and cache as they were; everything
   else, replays included, writes nothing and changes nothing but the invalid count.
   */
  lemma EffectsByDisposition(r: Receiver, frame: Frame, health: BusHealth, port: SpiPort)
    requires Safe(r)
    ensures var s := Service(r, frame, health, port);
      match s.disposition
      case Completed =>
        s.events == [SetCommands(s.receiver.outputs.phaseLatch, s.receiver.outputs.vgaLatch)]
      case HardwareFailed(fault) =>
        fault != NoFault && s.events == [SetFault(fault)]
        && s.receiver.state == r.state && s.receiver.cache == r.cache
      case _ =>
        s.events == [] && s.writes == [] && s.receiver.(invalidCommands := r.invalidCommands) == r
  {
    hide ErrorReplies, ErrorRepliesToFrame, StatusReplies, ParseId, Decode, Carries, AttenuatorTracks, PlanCommand,
         Execute, AckFor;
    ServiceIsSafe(r, frame, health, port);
  }

  /** The frame repeats the cached request byte for byte. */
  predicate SameBytes(frame: Frame, cache: ReplayCache)
    requires cache.Cached? && cache.requestLength <= 8
  {
    frame.length == cache.requestLength && Payload(frame) == cache.requestData[..frame.length]
  }

  predicate WellFormed(frame: Frame, kind: u8)
  {
    frame.length == PayloadLength(kind) && !AsksTooMuch(frame, kind)
  }

  /**
   A frame under the cached key, exactly: the identical request is replayed; a different one is
   refused as sequence reuse if and only if it is a well-formed request, because its length and
   range are checked first. So a copy with another length, which the protocol document also calls
   reuse, is rejected for its length.
   */
  lemma ReuseExactly(r: Receiver, frame: Frame, health: BusHealth, port: SpiPort)
    requires Safe(r) && r.cache.Cached? && ExpectsReply(frame, r.config.nodeId)
    requires ParseId(frame.id).value.kind == r.cache.command.kind
      && ParseId(frame.id).value.sequence == r.cache.command.sequence
    ensures var d, kind := Service(r, frame, health, port).disposition, r.cache.command.kind;
      && (d == Replayed <==> SameBytes(frame, r.cache))
      && (d == Reused <==> !SameBytes(frame, r.cache) && WellFormed(frame, kind))
      && (d.Rejected? <==> !WellFormed(frame, kind))
      && (frame.length != r.cache.requestLength ==> d == Rejected(InvalidLength))
  {
    hide ParseId, Decode, Perform, ErrorReplies, ErrorRepliesToFrame, StatusReplies, AttenuatorTracks, Recorded,
         AckFor, AgreesWith, LockoutHolds;
    var k := r.cache.command;
    CarriedLength(k, r.cache.requestData[..r.cache.requestLength]);
    RejectionReasons(frame, r.config.nodeId);
    if Decode(frame, r.config.nodeId).Valid? {
      DecodedCommand(frame, r.config.nodeId);
    } else if SameBytes(frame, r.cache) {
      CachedBytesFit(frame, r.cache);
    }
  }

  lemma CarriedLength(c: Command, payload: seq<u8>)
    requires Carries(c, payload)
    ensures |payload| == PayloadLength(c.kind) as int
  {
  }

  lemma CachedBytesFit(frame: Frame, cache: ReplayCache)
    requires cache.Cached? && cache.requestLength <= 8 && SameBytes(frame, cache)
    requires Decodable(cache.command) && Carries(cache.command, cache.requestData[..cache.requestLength])
    ensures WellFormed(frame, cache.command.kind)
  {
    var p := Payload(frame);
    assert |p| > 0 ==> p[0] == frame.data[0];
    assert |p| > 1 ==> p[1] == frame.data[1];
  }

  /** For instance: the cached request again, but with all eight bytes. */
  lemma LongerCopyIsNotReuse(r: Receiver, health: BusHealth, port: SpiPort)
    requires Safe(r) && r.cache.Cached?
    ensures var c := r.cache.command;
      MakeId(c.kind, c.destination, c.source, c.sequence).Some?
      && Service(r, Frame(MakeId(c.kind, c.destination, c.source, c.sequence).value, true, false, 8, r.cache.requestData),
                 health, port).disposition == Rejected(InvalidLength)
  {
    hide ParseId, MakeId, Service, AttenuatorTracks, Recorded, AckFor, AgreesWith, LockoutHolds;
    var c := r.cache.command;
    ParseAfterMake(IdFields(c.kind, c.destination, c.source, c.sequence));
    CarriedLength(c, r.cache.requestData[..r.cache.requestLength]);
    var frame := Frame(MakeId(c.kind, c.destination, c.source, c.sequence).value, true, false, 8, r.cache.requestData);
    ReuseExactly(r, frame, health, port);
  }

  /** The cache has something to say about the command: it is unicast, state-changing and under the cached key. */
  predicate IsKeyed(cache: ReplayCache, command: Command)
  {
    command.destination != 31 && StateChanging(command.kind) && cache.Cached? && SameKey(command, cache.command)
  }

  predicate SameFields(left: Command, right: Command)
  {
    left.phaseState == right.phaseState && left.attenuationDb == right.attenuationDb
  }

  /**
   What becomes of every frame, with nothing left open. In particular a command that is neither
   answered from the cache nor barred by lockout is carried out, broadcast or not, and completes
   exactly when every write of its documented order succeeds.
   */
  lemma DispositionExactly(r: Receiver, frame: Frame, health: BusHealth, port: SpiPort)
    requires Safe(r)
    ensures var s := Service(r, frame, health, port);
      match Decode(frame, r.config.nodeId)
      case Invalid(error) => s.disposition == if error == Ignored then NotForUs else Rejected(error)
      case Valid(c) =>
        Decodable(c)
        && if IsKeyed(r.cache, c) then
             s.disposition == if SameFields(c, r.cache.command) then Replayed else Reused
           else if c.kind == PING then s.disposition == StatusSent
           else if r.config.safeLockout && c.kind != ENTER_SAFE then s.disposition == Busy
           else if AllSucceed(ExecutionOrder(r.config.words, c, r.state), port) then
             s.disposition == Completed && s.receiver.state == Requested(c, r.state)
             && (if c.destination == 31 then s.receiver.cache == Empty
                 else s.receiver.cache.Cached? && s.receiver.cache.command == c)
           else s.disposition.HardwareFailed?
  {
    hide ParseId, Decode, Perform, ErrorReplies, ErrorRepliesToFrame, StatusReplies, AttenuatorTracks, Recorded,
         AckFor, AgreesWith, PlanCommand, Execute, ExecutionOrder, AllSucceed, PaddedPayload, Requested;
    match Decode(frame, r.config.nodeId)
    case Invalid(_) =>
    case Valid(c) =>
      DecodedCommand(frame, r.config.nodeId);
      if IsKeyed(r.cache, c) {
        KeyedBytes(r, c, frame);
      } else if c.kind != PING && !(r.config.safeLockout && c.kind != ENTER_SAFE) {
        DecodableKinds(c);
        PerformIsPerformed(r, c, frame, port);
        AttemptSucceedsExactly(r, c, port);
      }
  }

  lemma AttemptSucceedsExactly(r: Receiver, c: Command, port: SpiPort)
    requires Safe(r) && Decodable(c)
    ensures Attempt(r.config.words, c, r.state, r.outputs, port).fault == NoFault
            <==> AllSucceed(ExecutionOrder(r.config.words, c, r.state), port)
  {
    hide PlanCommand, Execute, ExecutionOrder, AllSucceed;
    PlannerNeverFails(r.config.words, c, r.state);
    FirstFaultStops(ExecutionOrder(r.config.words, c, r.state), r.outputs, port);
  }

  /** Under the cached key the same bytes and the same fields are the same thing. */
  lemma KeyedBytes(r: Receiver, c: Command, frame: Frame)
    requires Safe(r) && IsKeyed(r.cache, c) && frame.length <= 8 && Carries(c, Payload(frame))
    ensures r.cache.requestLength <= 8
    ensures SameBytes(frame, r.cache) <==> SameFields(c, r.cache.command)
  {
    hide AttenuatorTracks, Recorded, AckFor, AgreesWith;
    var p, q := Payload(frame), r.cache.requestData[..r.cache.requestLength];
    assert |p| == frame.length as int && |q| == r.cache.requestLength as int;
    CarriedLength(c, p);
    CarriedLength(r.cache.command, q);
    if SameBytes(frame, r.cache) {
      assert p == q;
      assert |p| > 0 ==> p[0] == q[0];
      assert |p| > 1 ==> p[1] == q[1];
    }
  }

  /**
   Every node obeys a broadcast ENTER_SAFE, locked out or not and whatever its cache holds: it is
   carried out at once and without a reply, and with working hardware leaves the safe state, both
   safe words latched and nothing to replay.
   */
  lemma BroadcastIsObeyed(r: Receiver, frame: Frame, health: BusHealth, port: SpiPort)
    requires Safe(r) && Decode(frame, r.config.nodeId).Valid?
    requires Decode(frame, r.config.nodeId).command.destination == BROADCAST
    ensures var s := Service(r, frame, health, port);
      && s.replies == []
      && (s.disposition == Completed || s.disposition.HardwareFailed?)
      && (s.disposition == Completed ==>
            s.receiver.state == RfState(0, 23) && s.receiver.cache == Empty
            && s.receiver.outputs.vgaLatch == 0x5c
            && BitsMsb(s.receiver.outputs.phaseLatch, 13) == SerialBits(r.config.words[0]))
      && (FaultFree(port) ==> s.disposition == Completed)
  {
    hide ParseId, Decode, Service, EncodePhase, AttenuatorTracks, Recorded, AckFor, AgreesWith, BitsMsb, SerialBits,
         FaultFree, AllSucceed;
    DecodedCommand(frame, r.config.nodeId);
    DispositionExactly(r, frame, health, port);
    ReplyDiscipline(r, frame, health, port);
    if Service(r, frame, health, port).disposition == Completed {
      CompletedServiceRestores(r, frame, health, port);
      EncodedWord(r.config.words, 0);
    }
    if FaultFree(port) {
      SafeOrderSucceeds(r.config.words, port);
    }
  }

  lemma SafeOrderSucceeds(words: Calibration, port: SpiPort)
    requires FaultFree(port)
    ensures AllSucceed([VgaOp(23), PhaseOp(words, 0)], port)
  {
    hide EncodePhase;
    EncodedPhaseFits(words, 0);
  }

  // Whole runs

  /** Frames the receiver counts as invalid commands. */
  predicate IsRefusal(disposition: Disposition)
  {
    disposition.Rejected? || disposition.Reused?
  }

  datatype Input = Input(frame: Frame, health: BusHealth, port: SpiPort)

  datatype History = History(receiver: Receiver, writes: seq<Write>, events: seq<RecordEvent>, replies: seq<Reply>, refusals: nat)

  function ServeAll(r: Receiver, inputs: seq<Input>): History
    requires Safe(r)
    ensures Safe(ServeAll(r, inputs).receiver)
    decreases |inputs|
  {
    if inputs == [] then History(r, [], [], [], 0)
    else
      var before, last := ServeAll(r, inputs[..|inputs| - 1]), inputs[|inputs| - 1];
      ServiceIsSafe(before.receiver, last.frame, last.health, last.port);
      var s := Service(before.receiver, last.frame, last.health, last.port);
      History(s.receiver, before.writes + s.writes, before.events + s.events, before.replies + s.replies,
              before.refusals + if IsRefusal(s.disposition) then 1 else 0)
  }

  /**
   On every run from a safe receiver: no phase word moves while the attenuator is below 23 dB,
   and under lockout nothing but the two safe words is ever written and the state never moves.
   */
  lemma {:induction false} RunIsSafe(r: Receiver, inputs: seq<Input>)
    requires Safe(r)
    ensures var h := ServeAll(r, inputs);
      && Safe(h.receiver) && h.receiver.config == r.config
      && PhaseWritesAreQuiet(h.writes)
      && (r.config.safeLockout ==> SafeWords(r.config.words, h.writes) && h.receiver.state == r.state)
    decreases |inputs|
  {
    hide Service, PhaseWritesAreQuiet, SafeWords, AttenuatorTracks, Recorded, AckFor, AgreesWith;
    if inputs == [] {
      NoWritesAreSafe(r.config.words);
    } else {
      RunIsSafe(r, inputs[..|inputs| - 1]);
      var before, last := ServeAll(r, inputs[..|inputs| - 1]), inputs[|inputs| - 1];
      ServiceIsSafe(before.receiver, last.frame, last.health, last.port);
      var s := Service(before.receiver, last.frame, last.health, last.port);
      SafeWritesJoin(r.config.words, before.writes, s.writes);
      LockoutStates(r, s.receiver);
    }
  }

  lemma NoWritesAreSafe(words: Calibration)
    ensures PhaseWritesAreQuiet([]) && SafeWords(words, [])
  {
  }

  lemma SafeWritesJoin(words: Calibration, a: seq<Write>, b: seq<Write>)
    ensures PhaseWritesAreQuiet(a) && PhaseWritesAreQuiet(b) ==> PhaseWritesAreQuiet(a + b)
    ensures SafeWords(words, a) && SafeWords(words, b) ==> SafeWords(words, a + b)
  {
    hide EncodePhase;
  }

  lemma LockoutStates(r: Receiver, s: Receiver)
    requires Safe(r) && Safe(s) && r.config == s.config
    ensures r.config.safeLockout ==> r.state == s.state
  {
  }

  /** The invalid-command counter is the number of refused frames, until it saturates. */
  lemma {:induction false} InvalidCountIsTrue(r: Receiver, inputs: seq<Input>)
    requires Safe(r) && r.invalidCommands == 0
    ensures var h := ServeAll(r, inputs);
      h.receiver.invalidCommands == Saturated(h.refusals)
    decreases |inputs|
  {
    hide Safe, Service;
    if inputs != [] {
      InvalidCountIsTrue(r, inputs[..|inputs| - 1]);
      var before, last := ServeAll(r, inputs[..|inputs| - 1]).receiver, inputs[|inputs| - 1];
      ServiceCounts(before, last.frame, last.health, last.port);
    }
  }

  lemma ServiceCounts(r: Receiver, frame: Frame, health: BusHealth, port: SpiPort)
    requires Safe(r)
    ensures var s := Service(r, frame, health, port);
      s.receiver.invalidCommands == if IsRefusal(s.disposition) then Increment(r.invalidCommands) else r.invalidCommands
  {
    ServiceIsSafe(r, frame, health, port);
    hide Safe, ReplayLookup, PlanCommand, Execute, Decode, ErrorReplies, ErrorRepliesToFrame, StatusReplies, AckFor;
  }

  /** Serving frames records faults and commands, and nothing else. */
  predicate ServiceEvents(events: seq<RecordEvent>)
  {
    forall i :: 0 <= i < |events| ==> events[i].SetFault? || events[i].SetCommands?
  }

  lemma {:induction false} RunRecords(r: Receiver, inputs: seq<Input>)
    requires Safe(r)
    ensures ServiceEvents(ServeAll(r, inputs).events)
    decreases |inputs|
  {
    hide Safe, ReplayLookup, PlanCommand, Execute, Decode, ErrorReplies, ErrorRepliesToFrame, StatusReplies, AckFor;
    if inputs != [] {
      RunRecords(r, inputs[..|inputs| - 1]);
    }
  }

  /** On a run without SPI failures, devices, recorded commands and software state coincide throughout. */
  lemma {:induction false} FaultFreeRunAgrees(r: Receiver, inputs: seq<Input>)
    requires Safe(r) && InAgreement(r.config.words, r.outputs, r.state)
    requires forall i :: 0 <= i < |inputs| ==> FaultFree(inputs[i].port)
    ensures var after := ServeAll(r, inputs).receiver;
      && after.config == r.config
      && InAgreement(r.config.words, after.outputs, after.state)
      && after.outputs.lastPhase == EncodePhase(r.config.words, after.state.phaseState)
      && after.outputs.lastVga == 4 * after.state.attenuationDb
    decreases |inputs|
  {
    hide Service, EncodePhase, FaultFree;
    if inputs != [] {
      FaultFreeRunAgrees(r, inputs[..|inputs| - 1]);
      RunIsSafe(r, inputs[..|inputs| - 1]);
      var before, last := ServeAll(r, inputs[..|inputs| - 1]).receiver, inputs[|inputs| - 1];
      ServiceIsSafe(before, last.frame, last.health, last.port);
      FaultFreeServiceAgrees(before, last.frame, last.health, last.port);
    }
  }
}
