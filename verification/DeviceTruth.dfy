/**
 What an ACK says about the RF devices, not only about the receiver's own state. SPI writes may
 fail at any time and the devices may hold anything to begin with.
 */
module DeviceTruth {
  import opened Bits
  import opened Protocol
  import opened RfCommands
  import opened RfPlan
  import opened RfExecute
  import opened RfSafety
  import opened Firmware
  import opened Runtime
  import opened RuntimeSafety
  import opened Client
  import opened EndToEnd

  /** The devices hold the words that the request names. */
  predicate LatchesHold(words: Calibration, o: Outputs, request: Request)
    requires ValidRequest(request)
  {
    if request.kind == ENTER_SAFE then
      o.phaseLatch == EncodePhase(words, 0) && o.vgaLatch == SAFE_VGA_COMMAND
    else if request.kind == SET_COMBINED then
      o.phaseLatch == EncodePhase(words, request.payload[0]) && o.vgaLatch == 4 * request.payload[1]
    else if request.kind == SET_PHASE then o.phaseLatch == EncodePhase(words, request.payload[0])
    else o.vgaLatch == 4 * request.payload[0]
  }

  predicate DevicesHold(r: Receiver, request: Request)
    requires ValidRequest(request)
  {
    LatchesHold(r.config.words, r.outputs, request)
  }

  /** The phase state a request names, if it names one. */
  function PhaseAsked(request: Request): (phase: u8)
    requires ValidRequest(request) && request.kind != SET_VGA
  {
    if request.kind == ENTER_SAFE then 0 else request.payload[0]
  }

  /** Bit by bit: the phase latch holds the named state's control word, and the attenuator four times the dB. */
  lemma LatchesBitByBit(words: Calibration, o: Outputs, request: Request)
    requires ValidRequest(request) && LatchesHold(words, o, request)
    ensures request.kind != SET_VGA ==> BitsMsb(o.phaseLatch, 13) == SerialBits(words[PhaseAsked(request)])
    ensures request.kind == ENTER_SAFE ==> o.vgaLatch == 0x5c
    ensures request.kind == SET_COMBINED ==> o.vgaLatch == 4 * request.payload[1]
    ensures request.kind == SET_VGA ==> o.vgaLatch == 4 * request.payload[0]
  {
    hide EncodePhase, BitsMsb, SerialBits;
    if request.kind != SET_VGA {
      EncodedWord(words, PhaseAsked(request));
    }
  }

  predicate IsAcknowledged(s: System)
  {
    s.client.Over? && s.client.outcome.Acknowledged?
  }

  // One delivery

  lemma AttemptSetsLatches(
    words: Calibration, request: Request, sequence: u16, state: RfState, o: Outputs, port: SpiPort)
    requires ValidRequest(request) && AttenuatorTracks(o, state)
    requires Attempt(words, CommandOf(request, sequence), state, o, port).fault == NoFault
    ensures LatchesHold(words, Attempt(words, CommandOf(request, sequence), state, o, port).outputs, request)
  {
    hide EncodePhase, PlanCommand, ExecutionOrder, OutputsAfter, WritesOf;
    var c := CommandOf(request, sequence);
    PlannerNeverFails(words, c, state);
    var ops := ExecutionOrder(words, c, state);
    LatchesAfterPrefix(words, c, state, o, CompletedWrites(ops, 0, port));
  }

  /** Carrying out a request's plan, whatever went before, leaves its words in the devices. */
  lemma CompletionSetsLatches(r: Receiver, request: Request, sequence: u16, health: BusHealth, port: SpiPort)
    requires Safe(r) && ValidRequest(request) && r.config.nodeId == request.destination
    requires Service(r, RequestFrame(request, sequence), health, port).disposition == Completed
    ensures var after := Service(r, RequestFrame(request, sequence), health, port).receiver;
      DevicesHold(after, request)
      && (request.kind != SET_VGA ==>
            BitsMsb(after.outputs.phaseLatch, 13) == SerialBits(r.config.words[PhaseAsked(request)]))
  {
    hide RequestFrame, CommandOf, Decode, ParseId, Perform, ErrorReplies, ErrorRepliesToFrame, StatusReplies, Attempt,
         LatchesHold, BitsMsb, SerialBits, Carries, AgreesWith, PaddedPayload, AckFor, AttenuatorTracks, Recorded;
    ClientMessageDecodes(request, sequence);
    CommandFields(request, sequence);
    var frame, c := RequestFrame(request, sequence), CommandOf(request, sequence);
    if !(r.config.safeLockout && c.kind != ENTER_SAFE) {
      PerformIsPerformed(r, c, frame, port);
      if Attempt(r.config.words, c, r.state, r.outputs, port).fault == NoFault {
        AttemptSetsLatches(r.config.words, request, sequence, r.state, r.outputs, port);
        LatchesBitByBit(r.config.words, Attempt(r.config.words, c, r.state, r.outputs, port).outputs, request);
      }
    }
  }

  /** A cached command is the one it was, or that of the frame just served. */
  lemma CacheComesFrom(r: Receiver, frame: Frame, health: BusHealth, port: SpiPort)
    requires Safe(r)
    ensures var after := Service(r, frame, health, port).receiver.cache;
      after == r.cache || after.Empty? || IsRequestTo(frame, r.config.nodeId, after.command.sequence)
  {
    hide Perform, ErrorReplies, ErrorRepliesToFrame, StatusReplies, ParseId, Decode, AttenuatorTracks, Recorded,
         Carries, AckFor, AgreesWith, LockoutHolds, Attempt;
    if Decode(frame, r.config.nodeId).Valid? {
      var c := Decode(frame, r.config.nodeId).command;
      DecodedCommand(frame, r.config.nodeId);
      if ReplayLookup(r.cache, c, frame).Miss? && c.kind != PING && !(r.config.safeLockout && c.kind != ENTER_SAFE) {
        DecodableKinds(c);
        PerformIsPerformed(r, c, frame, port);
      }
    }
  }

  // Along a run

  /** Once the call's plan has been carried out, its words stay latched. */
  predicate DoneMeansSet(s: System)
    requires ValidRequest(s.client.request)
  {
    s.completed > 0 ==> DevicesHold(s.receiver, s.client.request)
  }

  /** Until then, the cache does not hold the current message, so nothing can acknowledge it. */
  predicate NotHeldUntilDone(s: System)
    requires ValidRequest(s.client.request)
  {
    s.completed == 0 ==> !Holds(s.receiver.cache, CommandNow(s.client))
  }

  lemma DeliveryKeepsDevices(s: System, health: BusHealth, port: SpiPort)
    requires Invariant(s) && s.requests != [] && DoneMeansSet(s)
    ensures DoneMeansSet(Delivered(s, health, port))
  {
    hide Safe, IsRequestTo, IsReplyTo, RequestFrame, CommandOf, NextSequence, Service, DevicesHold, Earlier, AckOf,
         ErrorReplies, RepliesOk, OutcomeOk, FramesOf;
    var t := s.client;
    CommandFields(t.request, t.sequence);
    if s.requests[0] == Current(t) {
      ServiceOfRequest(s.receiver, t.request, t.sequence, health, port);
      if Service(s.receiver, s.requests[0], health, port).disposition == Completed {
        CompletionSetsLatches(s.receiver, t.request, t.sequence, health, port);
      }
    } else {
      HeadIsEarlier(s);
      if !t.firstAttempt {
        LeftoverIsRefused(s, health, port);
      }
    }
  }

  lemma LeftoverIsRefused(s: System, health: BusHealth, port: SpiPort)
    requires Invariant(s) && s.requests != [] && s.requests[0] != Current(s.client) && !s.client.firstAttempt
    ensures var out := Service(s.receiver, s.requests[0], health, port);
      out.disposition == Reused && out.receiver.cache == s.receiver.cache
  {
    hide Safe, IsRequestTo, IsReplyTo, RequestFrame, CommandOf, NextSequence, Service, AckOf, ErrorReplies, RepliesOk,
         OutcomeOk;
    HeadIsEarlier(s);
    var q := Previous(s.client.sequence);
    CommandFields(s.client.request, q);
    ServiceOfRequest(s.receiver, s.client.request, q, health, port);
  }

  lemma DeliveryKeepsNotHeld(s: System, health: BusHealth, port: SpiPort)
    requires Invariant(s) && s.requests != [] && NotHeldUntilDone(s)
    ensures NotHeldUntilDone(Delivered(s, health, port))
  {
    hide Safe, IsRequestTo, IsReplyTo, RequestFrame, CommandOf, NextSequence, Service, AckOf, ErrorReplies, RepliesOk,
         OutcomeOk, CacheOk, FramesOf;
    var t := s.client;
    CommandFields(t.request, t.sequence);
    if s.requests[0] == Current(t) {
      ServiceOfRequest(s.receiver, t.request, t.sequence, health, port);
    } else {
      HeadIsEarlier(s);
      if t.firstAttempt {
        CacheComesFrom(s.receiver, s.requests[0], health, port);
      } else {
        LeftoverIsRefused(s, health, port);
      }
    }
  }

  /** The client's own steps leave the receiver alone; a new sequence is not one the cache can hold. */
  lemma ReceiptKeepsNotHeld(s: System, k: nat, retries: nat)
    requires Invariant(s) && k < |s.replies| && NotHeldUntilDone(s)
    ensures NotHeldUntilDone(Advance(s, Receive(k), retries))
  {
    hide Safe, IsRequestTo, IsReplyTo, RequestFrame, CommandOf, NextSequence, MessageOf, ReplyOk, RequestsOk, CacheOk,
         OutcomeOk, Judge, MakeMessage, FrameOf, Without, Conflicts, Holds;
    var t, frame := s.client, s.replies[k];
    if t.Waiting? && Judge(t.request, t.sequence, t.firstAttempt, Some(MessageOf(frame))) == Resequence {
      if IsReplyTo(frame, t.request.destination, t.sequence) {
        ReplyDecides(s.receiver.cache, t, frame);
        ConflictHoldsNoOther(s.receiver.cache, t);
      } else {
        OthersAreIgnored(t, frame);
      }
    }
  }

  lemma ConflictHoldsNoOther(cache: ReplayCache, t: Transaction)
    requires ValidRequest(t.request) && Conflicts(cache, CommandNow(t))
    ensures !Holds(cache, CommandOf(t.request, NextSequence(t.sequence)))
  {
    hide NextSequence;
    SequencesDiffer(t.sequence);
  }

  lemma EventKeepsTruth(s: System, event: Event, retries: nat)
    requires Invariant(s) && DoneMeansSet(s)
    ensures ValidRequest(Advance(s, event, retries).client.request) && DoneMeansSet(Advance(s, event, retries))
    ensures NotHeldUntilDone(s) ==> NotHeldUntilDone(Advance(s, event, retries))
  {
    hide Safe, RequestFrame, CommandOf, NextSequence, Service, DevicesHold, RequestsOk, RepliesOk, OutcomeOk, CacheOk,
         FromNode, Without, Doubled, MessageOf, Judge, MakeMessage, FrameOf, Mine, FramesOf, Holds;
    AdvanceKeepsRequest(s, event, retries);
    match event
    case Deliver(health, port) =>
      if s.requests != [] {
        assert Advance(s, event, retries) == Delivered(s, health, port);
        DeliveryKeepsDevices(s, health, port);
        if NotHeldUntilDone(s) {
          DeliveryKeepsNotHeld(s, health, port);
        }
      }
    case Receive(k) =>
      if k < |s.replies| && NotHeldUntilDone(s) {
        ReceiptKeepsNotHeld(s, k, retries);
      }
    case _ =>
  }

  lemma {:induction false} RunKeepsTruth(s: System, events: seq<Event>, retries: nat)
    requires Invariant(s) && DoneMeansSet(s) && NotHeldUntilDone(s)
    ensures DoneMeansSet(Run(s, events, retries)) && NotHeldUntilDone(Run(s, events, retries))
    decreases |events|
  {
    hide Safe, RequestsOk, RepliesOk, CacheOk, OutcomeOk, Advance, DoneMeansSet, NotHeldUntilDone;
    if events != [] {
      RunKeepsInvariant(s, events[..|events| - 1], retries);
      RunKeepsTruth(s, events[..|events| - 1], retries);
      EventKeepsTruth(Run(s, events[..|events| - 1], retries), events[|events| - 1], retries);
    }
  }

  /**
   Whatever SPI does: unless the cache held this very command before the call began, an ACK means
   that the call's own plan was carried out, once, and that its words are latched in the devices.
   */
  lemma AckMeansDevicesSet(
    r: Receiver, requests: seq<Frame>, replies: seq<Frame>, request: Request, sequence: u16, retries: nat,
    events: seq<Event>)
    requires MayStart(r, requests, replies, request, sequence)
    requires !Holds(r.cache, CommandOf(request, NextSequence(sequence)))
    ensures var s := Run(Started(r, requests, replies, request, sequence, retries), events, retries);
      IsAcknowledged(s) ==>
        s.completed == 1 && StateHolds(s.receiver.state, request) && DevicesHold(s.receiver, request)
  {
    hide Safe, IsRequestTo, IsReplyTo, RequestFrame, RequestsOk, RepliesOk, Run, CommandOf, NextSequence, Holds;
    StartHolds(r, requests, replies, request, sequence, retries);
    var start := Started(r, requests, replies, request, sequence, retries);
    RunKeepsInvariant(start, events, retries);
    RunKeepsTruth(start, events, retries);
    EndToEndCommand(r, requests, replies, request, sequence, retries, events);
  }

  // When the cache already held the command

  /** No run, whatever its losses and SPI failures, ends acknowledged without the words in the devices. */
  ghost predicate AcksAlwaysSet(start: System, retries: nat)
    requires ValidRequest(start.client.request)
  {
    forall events: seq<Event> :: AckSets(start, events, retries)
  }

  predicate AckSets(start: System, events: seq<Event>, retries: nat)
    requires ValidRequest(start.client.request)
  {
    var s := Run(start, events, retries);
    IsAcknowledged(s) ==> DevicesHold(s.receiver, s.client.request)
  }

  /** Only copies of a message that the cache already holds are on their way. */
  predicate OnlyReplays(s: System)
  {
    Invariant(s) && Holds(s.receiver.cache, CommandNow(s.client))
    && forall i :: 0 <= i < |s.requests| ==> s.requests[i] == Current(s.client)
  }

  lemma ReplaysTouchNothing(s: System, event: Event, retries: nat)
    requires OnlyReplays(s)
    ensures var after := Advance(s, event, retries); OnlyReplays(after) && after.receiver == s.receiver
  {
    hide Safe, RequestsOk, RepliesOk, CacheOk, OutcomeOk, IsRequestTo, IsReplyTo, RequestFrame, CommandOf, NextSequence,
         Service, AckOf, ErrorReplies, FromNode, MessageOf, Judge, MakeMessage, FrameOf, Mine, FramesOf, Conflicts;
    EventKeeps(s, event, retries);
    match event
    case Deliver(health, port) =>
      ServiceOfRequest(s.receiver, s.client.request, s.client.sequence, health, port);
    case Timeout => StepKeepsRequest(s.client, DeadlinePassed, retries);
    case Receive(k) =>
      if k < |s.replies| {
        StepKeepsRequest(s.client, Received(Some(MessageOf(s.replies[k]))), retries);
        HeldCallStays(s, k, retries);
      }
    case _ =>
  }

  /** While the cache holds the current message, no reply makes the client resequence. */
  lemma HeldCallStays(s: System, k: nat, retries: nat)
    requires Invariant(s) && k < |s.replies| && Holds(s.receiver.cache, CommandNow(s.client))
    ensures Judge(s.client.request, s.client.sequence, s.client.firstAttempt, Some(MessageOf(s.replies[k]))) != Resequence
  {
    hide Safe, RequestsOk, CacheOk, OutcomeOk, IsReplyTo, RequestFrame, CommandOf, NextSequence, MessageOf, Judge,
         Conflicts, Holds, ReplyOk;
    var t, frame := s.client, s.replies[k];
    if IsReplyTo(frame, t.request.destination, t.sequence) {
      ReplyDecides(s.receiver.cache, t, frame);
      if Conflicts(s.receiver.cache, CommandNow(t)) {
        ConflictIsNotHeld(s.receiver.cache, CommandNow(t));
      }
    } else {
      OthersAreIgnored(t, frame);
    }
  }

  lemma {:induction false} ReplaysLeaveTheReceiver(s: System, events: seq<Event>, retries: nat)
    requires OnlyReplays(s)
    ensures OnlyReplays(Run(s, events, retries)) && Run(s, events, retries).receiver == s.receiver
    decreases |events|
  {
    hide Safe, RequestsOk, RepliesOk, CacheOk, OutcomeOk, Advance, CommandOf, RequestFrame;
    if events != [] {
      ReplaysLeaveTheReceiver(s, events[..|events| - 1], retries);
      ReplaysTouchNothing(Run(s, events[..|events| - 1], retries), events[|events| - 1], retries);
    }
  }

  /** A held command is acknowledged from the cache, at the cost of one delivery and one receipt. */
  lemma ReplayAcknowledges(
    r: Receiver, replies: seq<Frame>, request: Request, sequence: u16, retries: nat, health: BusHealth, port: SpiPort)
    requires MayStart(r, [], replies, request, sequence)
    requires Holds(r.cache, CommandOf(request, NextSequence(sequence)))
    ensures var s := Run(Started(r, [], replies, request, sequence, retries),
                         [Deliver(health, port), Receive(|replies|)], retries);
      IsAcknowledged(s) && s.receiver == r && s.completed == 0
  {
    hide Safe, IsRequestTo, IsReplyTo, RequestFrame, CommandOf, NextSequence, Service, AckOf, Advance, Holds;
    var start := Started(r, [], replies, request, sequence, retries);
    TwoEvents(start, Deliver(health, port), Receive(|replies|), retries);
    ReplayDelivery(r, replies, request, sequence, retries, health, port);
    var s1 := Advance(start, Deliver(health, port), retries);
    UndisturbedReceipt(s1, |replies|, retries);
    ReceiptLeavesReceiver(s1, |replies|, retries);
  }

  lemma TwoEvents(s: System, e1: Event, e2: Event, retries: nat)
    requires ValidRequest(s.client.request)
    ensures var s1 := Advance(s, e1, retries);
      ValidRequest(s1.client.request) && Run(s, [e1, e2], retries) == Advance(s1, e2, retries)
  {
    hide Advance;
    RunOne(s, [], e1, retries);
    RunOne(s, [e1], e2, retries);
    assert [] + [e1] == [e1] && [e1] + [e2] == [e1, e2];
  }

  lemma ReplayDelivery(
    r: Receiver, replies: seq<Frame>, request: Request, sequence: u16, retries: nat, health: BusHealth, port: SpiPort)
    requires MayStart(r, [], replies, request, sequence)
    requires Holds(r.cache, CommandOf(request, NextSequence(sequence)))
    ensures var s := Advance(Started(r, [], replies, request, sequence, retries), Deliver(health, port), retries);
      var c := CommandNow(s.client);
      && s.client == Waiting(request, true, retries, NextSequence(sequence))
      && NODE_MIN <= c.destination <= NODE_MAX && c.source == CONTROLLER && c.kind < TYPE_COUNT
      && s.replies == replies + [AckOf(c)] && s.receiver == r && s.completed == 0
  {
    hide Safe, IsRequestTo, IsReplyTo, RequestFrame, CommandOf, NextSequence, Service, AckOf, Holds;
    CommandFields(request, NextSequence(sequence));
    ServiceOfRequest(r, request, NextSequence(sequence), health, port);
    assert [] + [RequestFrame(request, NextSequence(sequence))] == [RequestFrame(request, NextSequence(sequence))];
  }

  lemma ReceiptLeavesReceiver(s: System, k: nat, retries: nat)
    requires ValidRequest(s.client.request)
    ensures var after := Advance(s, Receive(k), retries);
      after.receiver == s.receiver && after.completed == s.completed
  {
    hide ClientStep, MessageOf, FrameOf, Without;
  }

  /**
   The exact condition. With no other request on its way, every acknowledged run leaves the words
   in the devices, for every pattern of SPI failures, if and only if the cache did not already hold
   this very command, or the devices already held its words.
   */
  lemma AckSetsDevicesExactly(r: Receiver, replies: seq<Frame>, request: Request, sequence: u16, retries: nat)
    requires MayStart(r, [], replies, request, sequence)
    ensures AcksAlwaysSet(Started(r, [], replies, request, sequence, retries), retries)
            <==> !Holds(r.cache, CommandOf(request, NextSequence(sequence))) || DevicesHold(r, request)
  {
    hide Safe, IsRequestTo, IsReplyTo, RequestFrame, RequestsOk, RepliesOk, CacheOk, OutcomeOk, Run, CommandOf,
         NextSequence, Holds, DevicesHold;
    var start := Started(r, [], replies, request, sequence, retries);
    StartHolds(r, [], replies, request, sequence, retries);
    if !Holds(r.cache, CommandOf(request, NextSequence(sequence))) {
      forall events: seq<Event>
        ensures AckSets(start, events, retries)
      {
        AckMeansDevicesSet(r, [], replies, request, sequence, retries, events);
      }
    } else if DevicesHold(r, request) {
      assert start.requests == [Current(start.client)];
      assert OnlyReplays(start);
      forall events: seq<Event>
        ensures AckSets(start, events, retries)
      {
        ReplaysLeaveTheReceiver(start, events, retries);
      }
    } else {
      var health, port := BusHealth(0, 0, false), (i: nat) => SpiOk;
      ReplayAcknowledges(r, replies, request, sequence, retries, health, port);
      assert !AckSets(start, [Deliver(health, port), Receive(|replies|)], retries);
    }
  }

  // How that comes about

  /** The first two writes of a plan go through; the third does not. */
  function ThirdFails(): SpiPort
  {
    i => if i == 2 then SpiError else SpiOk
  }

  function SafeRequest(node: u8): Request
  {
    Request(node, ENTER_SAFE, [])
  }

  function CombinedRequest(node: u8, phase: u8, attenuation: u8): Request
  {
    Request(node, SET_COMBINED, [phase, attenuation])
  }

  /** After a completed or replayed ENTER_SAFE the cache holds it. */
  lemma SafeIsCached(r: Receiver, sequence: u16, health: BusHealth, port: SpiPort)
    requires Safe(r) && FaultFree(port)
    ensures var request := SafeRequest(r.config.nodeId);
      var after := Service(r, RequestFrame(request, sequence), health, port).receiver;
      Safe(after) && after.config == r.config && Holds(after.cache, CommandOf(request, sequence))
  {
    hide RequestFrame, Service, AckOf, ErrorReplies, AttenuatorTracks, Recorded, AckFor;
    var request := SafeRequest(r.config.nodeId);
    ServiceOfRequest(r, request, sequence, health, port);
    UndisturbedService(r, request, sequence, health, port);
    ServiceIsSafe(r, RequestFrame(request, sequence), health, port);
  }

  /** A SET_COMBINED that fails at its last write: the phase has moved, the older ACK stays cached. */
  lemma FaultKeepsOldAck(
    r: Receiver, phase: u8, attenuation: u8, safeSequence: u16, sequence: u16, health: BusHealth)
    requires Safe(r) && !r.config.safeLockout && attenuation < VGA_MAX_ATTENUATION_DB && safeSequence != sequence
    requires Holds(r.cache, CommandOf(SafeRequest(r.config.nodeId), safeSequence))
    ensures var after := Service(
              r, RequestFrame(CombinedRequest(r.config.nodeId, phase, attenuation), sequence), health, ThirdFails()).receiver;
      Safe(after) && after.config == r.config && after.cache == r.cache
      && after.outputs.phaseLatch == EncodePhase(r.config.words, phase)
  {
    hide RequestFrame, Decode, ParseId, Perform, ErrorReplies, ErrorRepliesToFrame, StatusReplies, Attempt,
         AgreesWith, PaddedPayload, AckFor, AttenuatorTracks, Recorded;
    var request := CombinedRequest(r.config.nodeId, phase, attenuation);
    var c, frame := CommandOf(request, sequence), RequestFrame(request, sequence);
    ClientMessageDecodes(request, sequence);
    PerformIsPerformed(r, c, frame, ThirdFails());
    ThirdFailureLeavesPhase(r, phase, attenuation, sequence);
    ServiceIsSafe(r, frame, health, ThirdFails());
  }

  lemma ThirdFailureLeavesPhase(r: Receiver, phase: u8, attenuation: u8, sequence: u16)
    requires Safe(r) && attenuation < VGA_MAX_ATTENUATION_DB
    ensures var c := CommandOf(CombinedRequest(r.config.nodeId, phase, attenuation), sequence);
      var e := Attempt(r.config.words, c, r.state, r.outputs, ThirdFails());
      e.fault != NoFault && e.outputs.phaseLatch == EncodePhase(r.config.words, phase)
  {
    hide EncodePhase, PlanCommand, CompletedWrites, WritesOf;
    var c := CommandOf(CombinedRequest(r.config.nodeId, phase, attenuation), sequence);
    PlannerNeverFails(r.config.words, c, r.state);
    EncodedPhaseFits(r.config.words, phase);
    var ops := ExecutionOrder(r.config.words, c, r.state);
    assert DriverStatus(ops[0], ThirdFails()(0)) == SpiOk && DriverStatus(ops[1], ThirdFails()(1)) == SpiOk;
    assert DriverStatus(ops[2], ThirdFails()(2)) != SpiOk;
    assert CompletedWrites(ops, 0, ThirdFails()) == 2;
    UnfoldOutputs(ops, 2, r.outputs);
  }

  /**
   The instance that reaches it. A node that is not locked out serves ENTER_SAFE under the sequence
   a restarted client will use first; a SET_COMBINED then fails at its third write, its phase word
   already latched; the client restarts and asks for ENTER_SAFE again. The node replays its old
   ACK and writes nothing, so the call succeeds while the devices hold another phase than state 0's.
   */
  lemma FaultThenRestartMisleads(
    r: Receiver, phase: u8, attenuation: u8, counter: u16, retries: nat, health: BusHealth, port: SpiPort)
    requires Safe(r) && !r.config.safeLockout && FaultFree(port) && attenuation < VGA_MAX_ATTENUATION_DB
    requires EncodePhase(r.config.words, phase) != EncodePhase(r.config.words, 0)
    ensures var node := r.config.nodeId;
      var first, second := NextSequence(counter), NextSequence(NextSequence(counter));
      var served := Service(r, RequestFrame(SafeRequest(node), first), health, port).receiver;
      var faulted := Service(
        served, RequestFrame(CombinedRequest(node, phase, attenuation), second), health, ThirdFails()).receiver;
      && MayStart(faulted, [], [], SafeRequest(node), counter)
      && var s := Run(Started(faulted, [], [], SafeRequest(node), counter, retries),
                      [Deliver(health, port), Receive(0)], retries);
         IsAcknowledged(s) && s.receiver == faulted && s.completed == 0 && !DevicesHold(s.receiver, SafeRequest(node))
  {
    hide Safe, Service, RequestFrame, NextSequence, FaultFree, EncodePhase, Run, CommandOf, Holds, ThirdFails;
    var node := r.config.nodeId;
    NodeIsUnicast(r);
    var first, second := NextSequence(counter), NextSequence(NextSequence(counter));
    SequencesDiffer(first);
    SafeIsCached(r, first, health, port);
    var served := Service(r, RequestFrame(SafeRequest(node), first), health, port).receiver;
    FaultKeepsOldAck(served, phase, attenuation, first, second, health);
    var faulted := Service(
      served, RequestFrame(CombinedRequest(node, phase, attenuation), second), health, ThirdFails()).receiver;
    ReplayAcknowledges(faulted, [], SafeRequest(node), counter, retries, health, port);
  }

  lemma NodeIsUnicast(r: Receiver)
    requires Safe(r)
    ensures NODE_MIN <= r.config.nodeId <= NODE_MAX
  {
  }
}
