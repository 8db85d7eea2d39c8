/**
 Client and receiver together over a bus that loses frames: what an ACK is worth to the caller.
 Requests stay in order; replies may overtake one another, because an ERROR outranks an ACK in
 the transmit queue. An adversary chooses every loss, every delivery, every timeout and every SPI failure.
 */
module EndToEnd {
  import opened Bits
  import opened Protocol
  import opened PiProtocol
  import opened RfPlan
  import opened RfExecute
  import opened RfSafety
  import opened TxQueue
  import opened Runtime
  import opened RuntimeSafety
  import opened Client

  /** A message as it travels: the payload in the frame's eight-byte buffer. */
  function FrameOf(message: Message): Frame
    requires message.id <= EXTENDED_ID_MAX && |message.data| <= 8
  {
    Frame(message.id, message.extended, message.remote, |message.data|,
          message.data + seq(8 - |message.data|, i => 0))
  }

  /** A frame as the client's transport presents it. */
  function MessageOf(frame: Frame): Message
  {
    Message(frame.id, frame.extended, frame.remote, frame.data[..if frame.length <= 8 then frame.length else 8])
  }

  /** The command a request stands for, under a given sequence number. */
  function CommandOf(request: Request, sequence: u16): Command
    requires ValidRequest(request)
  {
    var p := request.payload;
    var phase := if request.kind == SET_PHASE || request.kind == SET_COMBINED then p[0] else 0;
    var attenuation :=
      if request.kind == SET_VGA then p[0] else if request.kind == SET_COMBINED then p[1] else 0;
    Command(request.kind, request.destination, CONTROLLER, sequence, phase, attenuation)
  }

  /** The frame the client puts on the bus. */
  function RequestFrame(request: Request, sequence: u16): Frame
    requires ValidRequest(request)
  {
    MessageExists(request, sequence);
    FrameOf(MakeMessage(request, sequence).value)
  }

  /** Every message the client builds decodes at its destination to the type, sequence and fields asked for. */
  lemma ClientMessageDecodes(request: Request, sequence: u16)
    requires ValidRequest(request)
    ensures var frame, c := RequestFrame(request, sequence), CommandOf(request, sequence);
      && Decode(frame, request.destination) == Valid(c)
      && ParseId(frame.id) == Some(IdFields(c.kind, c.destination, c.source, c.sequence))
      && frame.length <= MAX_DATA_LENGTH && Payload(frame) == request.payload
      && Decodable(c) && StateChanging(c.kind) && Carries(c, Payload(frame))
  {
    hide ParseId, MakeMessage, Decode;
    MessageExists(request, sequence);
    var frame, c := RequestFrame(request, sequence), CommandOf(request, sequence);
    assert frame == FrameOf(MakeMessage(request, sequence).value);
    assert Payload(frame) == request.payload;
    PayloadCarries(request, sequence);
    DecodingOf(frame, request.destination, c);
  }

  lemma PayloadCarries(request: Request, sequence: u16)
    requires ValidRequest(request)
    ensures var c := CommandOf(request, sequence);
      Decodable(c) && StateChanging(c.kind) && Carries(c, request.payload) && |request.payload| <= 8
  {
    var p := request.payload;
    assert |p| == 1 ==> p == [p[0]];
    assert |p| == 2 ==> p == [p[0], p[1]];
  }

  // What the receiver makes of a copy of the client's request

  /** The cache holds exactly this command. */
  predicate Holds(cache: ReplayCache, command: Command)
  {
    cache.Cached? && cache.command == command
  }

  /** The cache holds another command under this command's key. */
  predicate Conflicts(cache: ReplayCache, command: Command)
  {
    cache.Cached? && SameKey(cache.command, command) && cache.command != command
  }

  lemma CarriesDetermines(c1: Command, c2: Command, p1: seq<u8>, p2: seq<u8>)
    requires Carries(c1, p1) && Carries(c2, p2) && SameKey(c1, c2)
    ensures p1 == p2 <==> c1 == c2
  {
    if p1 == p2 {
      assert |p1| > 0 ==> p1[0] == p2[0];
      assert |p1| > 1 ==> p1[1] == p2[1];
    }
  }

  lemma CachedPayloadDecides(r: Receiver, request: Request, sequence: u16)
    requires Safe(r) && ValidRequest(request) && r.config.nodeId == request.destination
    requires r.cache.Cached? && SameKey(CommandOf(request, sequence), r.cache.command)
    ensures var frame := RequestFrame(request, sequence);
      (frame.length == r.cache.requestLength && Payload(frame) == r.cache.requestData[..frame.length])
      <==> r.cache.command == CommandOf(request, sequence)
  {
    hide Carries, RequestFrame, CommandOf, AckFor, Decode, ParseId, AttenuatorTracks, AgreesWith;
    ClientMessageDecodes(request, sequence);
    var frame, c := RequestFrame(request, sequence), CommandOf(request, sequence);
    CarriesDetermines(c, r.cache.command, Payload(frame), r.cache.requestData[..r.cache.requestLength]);
    assert |Payload(frame)| == frame.length as int;
  }

  /** The five things that can come of a copy of the request, and what each leaves in the cache. */
  lemma ServiceOfRequest(r: Receiver, request: Request, sequence: u16, health: BusHealth, port: SpiPort)
    requires Safe(r) && ValidRequest(request) && r.config.nodeId == request.destination
    ensures var frame, c := RequestFrame(request, sequence), CommandOf(request, sequence);
      var s := Service(r, frame, health, port);
      if Holds(r.cache, c) then
        s.receiver == r && s.disposition == Replayed && s.replies == [Reply(AckOf(c), PRIORITY_ACK)]
      else if Conflicts(r.cache, c) then
        s.receiver.cache == r.cache && s.disposition == Reused && s.replies == ErrorReplies(r.config.nodeId, c, ResultSequenceReuse)
      else
        (s.disposition == Busy && s.receiver.cache == r.cache
         && s.replies == ErrorReplies(r.config.nodeId, c, ResultBusy))
        || (s.disposition.HardwareFailed? && s.receiver.cache == r.cache
            && s.replies == ErrorReplies(r.config.nodeId, c, ResultHardware))
        || (s.disposition == Completed && Holds(s.receiver.cache, c) && s.replies == [Reply(AckOf(c), PRIORITY_ACK)])
  {
    hide Carries, RequestFrame, CommandOf, Decode, ParseId, AttenuatorTracks, Perform, MakeResult, ErrorReplies,
         AgreesWith, Attempt, PaddedPayload, ExecutionOrder;
    ClientMessageDecodes(request, sequence);
    CommandFields(request, sequence);
    var frame, c := RequestFrame(request, sequence), CommandOf(request, sequence);
    AckExists(r.config.nodeId, ACK, sequence, c.kind, ResultOk);
    if r.cache.Cached? && SameKey(c, r.cache.command) {
      CachedPayloadDecides(r, request, sequence);
    } else if !(r.config.safeLockout && c.kind != ENTER_SAFE) {
      PerformIsPerformed(r, c, frame, port);
    }
  }

  lemma CommandFields(request: Request, sequence: u16)
    requires ValidRequest(request)
    ensures var c := CommandOf(request, sequence);
      c.kind == request.kind && c.destination == request.destination && c.source == CONTROLLER
      && c.sequence == sequence && NODE_MIN <= c.destination <= NODE_MAX && c.kind <= SET_VGA
  {
  }

  /** The ACK a command earns from its destination. */
  function AckOf(c: Command): Frame
    requires NODE_MIN <= c.destination <= NODE_MAX && c.source == CONTROLLER && c.kind < TYPE_COUNT
  {
    AckExists(c.destination, ACK, c.sequence, c.kind, ResultOk);
    AckFor(c.destination, c).value
  }

  // The two programs and the bus between them

  /**
   `served`: a copy of the message now being sent has reached the receiver. `completed`: how often
   the receiver carried out this call's plan. Both are history; no step depends on them.
   */
  datatype System = System(
    receiver: Receiver, requests: seq<Frame>, replies: seq<Frame>, client: Transaction, served: bool, completed: nat)

  datatype Event =
    | Deliver(health: BusHealth, port: SpiPort)
    | LoseRequest(i: nat)
    | LoseReply(j: nat)
    | DuplicateRequest(i: nat)
    | DuplicateReply(j: nat)
    | OtherTraffic(frame: Frame)
    | Timeout
    | Receive(k: nat)

  function Previous(sequence: u16): u16
  {
    (sequence + 0xffff) % 0x1_0000
  }

  function Current(t: Transaction): Frame
    requires ValidRequest(t.request)
  {
    RequestFrame(t.request, t.sequence)
  }

  /** The call's own frames: the message being sent, and the one it replaced on a second attempt. */
  predicate Mine(t: Transaction, frame: Frame)
    requires ValidRequest(t.request)
  {
    frame == Current(t) || (!t.firstAttempt && frame == RequestFrame(t.request, Previous(t.sequence)))
  }

  function FramesOf(replies: seq<Reply>): (frames: seq<Frame>)
    ensures |frames| == |replies|
    ensures forall i :: 0 <= i < |frames| ==> frames[i] == replies[i].frame
  {
    if replies == [] then [] else [replies[0].frame] + FramesOf(replies[1..])
  }

  function Without(s: seq<Frame>, i: nat): seq<Frame>
  {
    if i < |s| then s[..i] + s[i + 1..] else s
  }

  /** A frame retransmitted although its first copy got through: both copies, one behind the other. */
  function Doubled(s: seq<Frame>, i: nat): seq<Frame>
  {
    if i < |s| then s[..i + 1] + s[i..] else s
  }

  /** As the client sees it: a reply from the addressed node for the given sequence. */
  predicate IsReplyTo(frame: Frame, node: u8, sequence: u16)
  {
    FromNode(frame, node) && Parse(frame.id).sequence == sequence
  }

  predicate FromNode(frame: Frame, node: u8)
  {
    frame.extended && !frame.remote
    && Parse(frame.id).destination == CONTROLLER && Parse(frame.id).source == node
  }

  /** As the receiver sees it: a controller request to this node under the given sequence. */
  predicate IsRequestTo(frame: Frame, node: u8, sequence: u16)
  {
    frame.extended && !frame.remote && ParseId(frame.id).Some?
    && var f := ParseId(frame.id).value;
       f.destination == node && f.source == CONTROLLER && f.sequence == sequence
  }

  /** The client reacts; whatever it sends joins the request channel. */
  function React(s: System, event: ClientEvent, retries: nat): System
    requires ValidRequest(s.client.request)
  {
    var r := ClientStep(s.client, event, retries);
    StepKeepsRequest(s.client, event, retries);
    s.(client := r.transaction,
       requests := s.requests + (if r.sent == [] then [] else [FrameOf(r.sent[0])]),
       served := s.served && r.transaction.sequence == s.client.sequence)
  }

  lemma StepKeepsRequest(t: Transaction, event: ClientEvent, retries: nat)
    requires ValidRequest(t.request)
    ensures var r := ClientStep(t, event, retries);
      && r.transaction.request == t.request
      && (r.sent == [] || (|r.sent| == 1 && r.sent == Sent(t.request, r.transaction.sequence)
                           && r.sent[0].id <= EXTENDED_ID_MAX && |r.sent[0].data| <= 8
                           && FrameOf(r.sent[0]) == Current(r.transaction)))
      && (t.Waiting? && event.Received? && Judge(t.request, t.sequence, t.firstAttempt, event.reply) == Resequence
          ==> r.sent != [])
  {
    hide Judge, MakeMessage, NextSequence;
    MessageExists(t.request, t.sequence);
    MessageExists(t.request, NextSequence(t.sequence));
  }

  function Advance(s: System, event: Event, retries: nat): System
    requires ValidRequest(s.client.request)
  {
    match event
    case Deliver(health, port) =>
      if s.requests == [] then s
      else
        var out := Service(s.receiver, s.requests[0], health, port);
        System(
          out.receiver, s.requests[1..], s.replies + FramesOf(out.replies), s.client,
          s.served || s.requests[0] == Current(s.client),
          if out.disposition == Completed && Mine(s.client, s.requests[0]) then s.completed + 1 else s.completed)
    case LoseRequest(i) => s.(requests := Without(s.requests, i))
    case LoseReply(j) => s.(replies := Without(s.replies, j))
    case DuplicateRequest(i) => s.(requests := Doubled(s.requests, i))
    case DuplicateReply(j) => s.(replies := Doubled(s.replies, j))
    case OtherTraffic(frame) =>
      if FromNode(frame, s.client.request.destination) then s else s.(replies := s.replies + [frame])
    case Timeout => React(s, DeadlinePassed, retries)
    case Receive(k) =>
      if k >= |s.replies| then s
      else React(s.(replies := Without(s.replies, k)), Received(Some(MessageOf(s.replies[k]))), retries)
  }

  /**
   A call may start over any safe receiver, whatever its cache holds, and with any traffic still in
   flight that does not carry the two sequences the call may use.
   */
  predicate MayStart(r: Receiver, requests: seq<Frame>, replies: seq<Frame>, request: Request, sequence: u16)
  {
    var q1 := NextSequence(sequence);
    var q2 := NextSequence(q1);
    && Safe(r) && ValidRequest(request) && r.config.nodeId == request.destination
    && (forall i :: 0 <= i < |requests| ==>
          !IsRequestTo(requests[i], request.destination, q1) && !IsRequestTo(requests[i], request.destination, q2))
    && (forall i :: 0 <= i < |replies| ==>
          !IsReplyTo(replies[i], request.destination, q1) && !IsReplyTo(replies[i], request.destination, q2))
  }

  function Started(
    r: Receiver, requests: seq<Frame>, replies: seq<Frame>, request: Request, sequence: u16, retries: nat): System
    requires ValidRequest(request)
  {
    var begun := Begin(request, sequence, retries);
    System(r, requests + [Current(begun.transaction)], replies, begun.transaction, false, 0)
  }

  // The invariant

  function CommandNow(t: Transaction): Command
    requires ValidRequest(t.request)
  {
    CommandOf(t.request, t.sequence)
  }

  function CommandBefore(t: Transaction): Command
    requires ValidRequest(t.request)
  {
    CommandOf(t.request, Previous(t.sequence))
  }

  /** A frame that may still be ahead of the current message. */
  predicate Earlier(t: Transaction, frame: Frame)
    requires ValidRequest(t.request)
  {
    if t.firstAttempt then
      !IsRequestTo(frame, t.request.destination, t.sequence)
      && !IsRequestTo(frame, t.request.destination, NextSequence(t.sequence))
    else frame == RequestFrame(t.request, Previous(t.sequence))
  }

  predicate RequestsOk(requests: seq<Frame>, t: Transaction, served: bool)
    requires ValidRequest(t.request)
  {
    && (forall i :: 0 <= i < |requests| ==> requests[i] == Current(t) || (!served && Earlier(t, requests[i])))
    && (forall i, j :: 0 <= i < j < |requests| && requests[i] == Current(t) ==> requests[j] == Current(t))
  }

  /** A reply to the current message says what the cache now shows. */
  predicate ReplyOk(cache: ReplayCache, t: Transaction, frame: Frame)
    requires ValidRequest(t.request)
  {
    var f, d := Parse(frame.id), MessageOf(frame).data;
    if f.kind == ACK then d == [t.request.kind, RES_OK] && Holds(cache, CommandNow(t))
    else
      f.kind == ERROR && |d| == 2 && d[0] == t.request.kind && d[1] in {4, 5, 6}
      && (d[1] == 6 ==> t.firstAttempt && Conflicts(cache, CommandNow(t)))
  }

  predicate RepliesOk(replies: seq<Frame>, cache: ReplayCache, t: Transaction, served: bool)
    requires ValidRequest(t.request)
  {
    forall i :: 0 <= i < |replies| ==>
      (IsReplyTo(replies[i], t.request.destination, t.sequence) ==> served && ReplyOk(cache, t, replies[i]))
      && (t.firstAttempt ==> !IsReplyTo(replies[i], t.request.destination, NextSequence(t.sequence)))
  }

  predicate CacheOk(cache: ReplayCache, t: Transaction, served: bool, completed: nat)
    requires ValidRequest(t.request)
  {
    && completed <= 1
    && (completed == 1 ==> served && Holds(cache, CommandNow(t)))
    && (!t.firstAttempt ==> (served && Holds(cache, CommandNow(t))) || Conflicts(cache, CommandBefore(t)))
  }

  predicate OutcomeOk(cache: ReplayCache, t: Transaction, served: bool)
    requires ValidRequest(t.request)
  {
    t.Over? ==>
      match t.outcome
      case Acknowledged(data) => served && data == [t.request.kind, RES_OK] && Holds(cache, CommandNow(t))
      case Refused(result) => result in {4, 5}
      case ProtocolViolation => false
      case TimedOut => true
  }

  predicate Invariant(s: System)
  {
    && ValidRequest(s.client.request)
    && Safe(s.receiver) && s.receiver.config.nodeId == s.client.request.destination
    && RequestsOk(s.requests, s.client, s.served)
    && RepliesOk(s.replies, s.receiver.cache, s.client, s.served)
    && CacheOk(s.receiver.cache, s.client, s.served, s.completed)
    && OutcomeOk(s.receiver.cache, s.client, s.served)
  }

  lemma CurrentIsAddressed(request: Request, sequence: u16, other: u16)
    requires ValidRequest(request)
    ensures IsRequestTo(RequestFrame(request, sequence), request.destination, other) <==> other == sequence
  {
    hide ParseId, MakeMessage, Decode, RequestFrame;
    ClientMessageDecodes(request, sequence);
    CommandFields(request, sequence);
    DecodedCommand(RequestFrame(request, sequence), request.destination);
  }

  lemma SequencesDiffer(sequence: u16)
    ensures Previous(NextSequence(sequence)) == sequence
    ensures Previous(sequence) != sequence
    ensures NextSequence(sequence) != sequence
  {
    NextSequenceWraps(sequence);
    hide NextSequence;
    if sequence == 0xffff {
      assert NextSequence(sequence) == 0;
    } else {
      assert NextSequence(sequence) == sequence + 1;
    }
  }

  lemma StartHolds(
    r: Receiver, requests: seq<Frame>, replies: seq<Frame>, request: Request, sequence: u16, retries: nat)
    requires MayStart(r, requests, replies, request, sequence)
    ensures Invariant(Started(r, requests, replies, request, sequence, retries))
  {
    hide Safe, IsRequestTo, IsReplyTo, RequestFrame, NextSequence;
    var t := Begin(request, sequence, retries).transaction;
    CurrentIsAddressed(request, t.sequence, t.sequence);
  }

  // Each event keeps the invariant

  lemma RequestsThinned(requests: seq<Frame>, i: nat, t: Transaction, served: bool)
    requires ValidRequest(t.request) && RequestsOk(requests, t, served)
    ensures RequestsOk(Without(requests, i), t, served)
  {
    hide Earlier, RequestFrame;
    var left := Without(requests, i);
    if i < |requests| {
      assert forall j :: 0 <= j < |left| ==> left[j] == requests[if j < i then j else j + 1];
    }
  }

  lemma RequestsDoubled(requests: seq<Frame>, i: nat, t: Transaction, served: bool)
    requires ValidRequest(t.request) && RequestsOk(requests, t, served)
    ensures RequestsOk(Doubled(requests, i), t, served)
  {
    hide Earlier, Current;
    var more := Doubled(requests, i);
    if i < |requests| {
      assert forall j :: 0 <= j < |more| ==> more[j] == requests[if j <= i then j else j - 1];
      forall j, k | 0 <= j < k < |more| && more[j] == Current(t)
        ensures more[k] == Current(t)
      {
        var j', k' := if j <= i then j else j - 1, if k <= i then k else k - 1;
        assert more[j] == requests[j'] && more[k] == requests[k'];
      }
    }
  }

  /** Which replies are on their way matters, not how often or in what order. */
  lemma RepliesAmong(replies: seq<Frame>, some: seq<Frame>, cache: ReplayCache, t: Transaction, served: bool)
    requires ValidRequest(t.request) && RepliesOk(replies, cache, t, served)
    requires forall frame :: frame in some ==>
      frame in replies
      || (!IsReplyTo(frame, t.request.destination, t.sequence)
          && !IsReplyTo(frame, t.request.destination, NextSequence(t.sequence)))
    ensures RepliesOk(some, cache, t, served)
  {
    hide IsReplyTo, NextSequence, ReplyOk;
    forall i | 0 <= i < |some|
      ensures IsReplyTo(some[i], t.request.destination, t.sequence) ==> served && ReplyOk(cache, t, some[i])
      ensures t.firstAttempt ==> !IsReplyTo(some[i], t.request.destination, NextSequence(t.sequence))
    {
      assert some[i] in some;
      if some[i] in replies {
        var j :| 0 <= j < |replies| && replies[j] == some[i];
      }
    }
  }

  /** Losing or doubling a frame makes no frame that was not there before. */
  lemma NothingNew(s: seq<Frame>, i: nat)
    ensures forall frame :: frame in Without(s, i) || frame in Doubled(s, i) ==> frame in s
  {
  }

  lemma ForeignIsNoReply(frame: Frame, node: u8, sequence: u16)
    requires !FromNode(frame, node)
    ensures !IsReplyTo(frame, node, sequence)
  {
  }

  lemma LossesKeep(s: System, event: Event, retries: nat)
    requires Invariant(s) && !event.Deliver? && !event.Timeout? && !event.Receive?
    ensures Invariant(Advance(s, event, retries))
  {
    hide Safe, IsReplyTo, FromNode, RequestsOk, RepliesOk, CacheOk, OutcomeOk, NextSequence, Without, Doubled;
    var t, node := s.client, s.client.request.destination;
    match event
    case LoseRequest(i) => RequestsThinned(s.requests, i, t, s.served);
    case DuplicateRequest(i) => RequestsDoubled(s.requests, i, t, s.served);
    case LoseReply(i) =>
      NothingNew(s.replies, i);
      RepliesAmong(s.replies, Without(s.replies, i), s.receiver.cache, t, s.served);
    case DuplicateReply(i) =>
      NothingNew(s.replies, i);
      RepliesAmong(s.replies, Doubled(s.replies, i), s.receiver.cache, t, s.served);
    case OtherTraffic(frame) =>
      if !FromNode(frame, node) {
        ForeignIsNoReply(frame, node, t.sequence);
        ForeignIsNoReply(frame, node, NextSequence(t.sequence));
        RepliesAmong(s.replies, s.replies + [frame], s.receiver.cache, t, s.served);
      }
  }

  /** A reply that is not for the transaction's current message changes nothing. */
  lemma OthersAreIgnored(t: Transaction, frame: Frame)
    requires !IsReplyTo(frame, t.request.destination, t.sequence)
    ensures Judge(t.request, t.sequence, t.firstAttempt, Some(MessageOf(frame))) == Ignore
  {
  }

  /** A reply to the current message decides the transaction just as the cache says it should. */
  lemma ReplyDecides(cache: ReplayCache, t: Transaction, frame: Frame)
    requires ValidRequest(t.request) && IsReplyTo(frame, t.request.destination, t.sequence) && ReplyOk(cache, t, frame)
    ensures var v := Judge(t.request, t.sequence, t.firstAttempt, Some(MessageOf(frame)));
      match v
      case Ignore => false
      case Resequence => t.firstAttempt && Conflicts(cache, CommandNow(t))
      case Finish(outcome) =>
        OutcomeOk(cache, Over(t.request, t.firstAttempt, t.sequence, outcome), true)
  {
    hide Holds, Conflicts, CommandOf;
  }

  /** Sending the current message again: it joins the copies at the back. */
  lemma ResendKeeps(s: System, client: Transaction)
    requires Invariant(s) && client.request == s.client.request
    requires client.sequence == s.client.sequence && client.firstAttempt == s.client.firstAttempt
    requires OutcomeOk(s.receiver.cache, client, s.served)
    ensures Invariant(s.(client := client))
    ensures Invariant(s.(client := client, requests := s.requests + [Current(client)]))
  {
    hide Safe, IsRequestTo, IsReplyTo, RequestFrame, NextSequence, Holds, Conflicts, OutcomeOk, MessageOf;
  }

  /** Moving to the fresh sequence: every frame ahead of it is a copy that the cache will refuse. */
  lemma ResequenceKeeps(s: System, retries: nat)
    requires Invariant(s) && s.client.Waiting? && s.client.firstAttempt && s.served
    requires Conflicts(s.receiver.cache, CommandNow(s.client))
    ensures var q := NextSequence(s.client.sequence);
      var t := Waiting(s.client.request, false, retries, q);
      Invariant(s.(client := t, requests := s.requests + [Current(t)], served := false))
  {
    hide Safe, IsRequestTo, IsReplyTo, RequestFrame, NextSequence, MessageOf, ReplyOk;
    SequencesDiffer(s.client.sequence);
  }

  lemma ReactKeeps(s: System, event: ClientEvent, retries: nat)
    requires Invariant(s)
    requires match event
      case DeadlinePassed => true
      case Received(reply) =>
        exists frame :: reply == Some(MessageOf(frame))
          && (IsReplyTo(frame, s.client.request.destination, s.client.sequence) ==>
                s.served && ReplyOk(s.receiver.cache, s.client, frame))
    ensures Invariant(React(s, event, retries))
  {
    hide Safe, IsRequestTo, IsReplyTo, RequestFrame, NextSequence, MessageOf, ReplyOk, Judge, RequestsOk, RepliesOk,
         CacheOk, Conflicts, OutcomeOk, MakeMessage;
    StepKeepsRequest(s.client, event, retries);
    assert s.requests + [] == s.requests;
    var t := s.client;
    if t.Over? {
    } else if event.DeadlinePassed? {
      TimeoutIsFine(s.receiver.cache, t, s.served);
      ResendKeeps(s, ClientStep(t, event, retries).transaction);
    } else {
      var frame :| event.reply == Some(MessageOf(frame))
        && (IsReplyTo(frame, t.request.destination, t.sequence) ==> s.served && ReplyOk(s.receiver.cache, t, frame));
      if IsReplyTo(frame, t.request.destination, t.sequence) {
        ReplyDecides(s.receiver.cache, t, frame);
        var v := Judge(t.request, t.sequence, t.firstAttempt, event.reply);
        if v == Resequence {
          SequencesDiffer(t.sequence);
          ResequenceKeeps(s, retries);
        } else {
          ResendKeeps(s, ClientStep(t, event, retries).transaction);
        }
      } else {
        OthersAreIgnored(t, frame);
      }
    }
  }

  lemma TimeoutIsFine(cache: ReplayCache, t: Transaction, served: bool)
    requires ValidRequest(t.request)
    ensures OutcomeOk(cache, Over(t.request, t.firstAttempt, t.sequence, TimedOut), served)
    ensures forall n: nat :: OutcomeOk(cache, Waiting(t.request, t.firstAttempt, n, t.sequence), served)
  {
  }

  lemma ReceiveKeeps(s: System, k: nat, retries: nat)
    requires Invariant(s) && k < |s.replies|
    ensures Invariant(Advance(s, Receive(k), retries))
  {
    hide Safe, IsRequestTo, IsReplyTo, RequestFrame, NextSequence, MessageOf, ReplyOk, Judge, RequestsOk, CacheOk,
         Conflicts, OutcomeOk, MakeMessage, React, Without, FromNode;
    LossesKeep(s, LoseReply(k), retries);
    var t := s.(replies := Without(s.replies, k));
    assert Advance(s, LoseReply(k), retries) == t;
    ReactKeeps(t, Received(Some(MessageOf(s.replies[k]))), retries);
  }

  // Deliveries

  /** The system after the receiver has served the frame at the head of the channel. */
  function Delivered(s: System, health: BusHealth, port: SpiPort): System
    requires ValidRequest(s.client.request) && s.requests != []
  {
    Advance(s, Deliver(health, port), 0)
  }

  lemma RestOfChannel(s: System)
    requires ValidRequest(s.client.request) && s.requests != [] && RequestsOk(s.requests, s.client, s.served)
    ensures var served := s.served || s.requests[0] == Current(s.client);
      RequestsOk(s.requests[1..], s.client, served)
  {
    hide Earlier, RequestFrame;
  }

  /** A reply made now joins replies made before: they are in order if the cache still bears the old ones out. */
  lemma RepliesJoin(
    replies: seq<Frame>, more: seq<Frame>, before: ReplayCache, after: ReplayCache, t: Transaction,
    served: bool, servedAfter: bool)
    requires ValidRequest(t.request) && RepliesOk(replies, before, t, served)
    requires RepliesOk(more, after, t, servedAfter) && (served ==> servedAfter)
    requires served ==>
      (Holds(before, CommandNow(t)) ==> Holds(after, CommandNow(t)))
      && (Conflicts(before, CommandNow(t)) ==> Conflicts(after, CommandNow(t)))
    ensures RepliesOk(replies + more, after, t, servedAfter)
  {
    hide Holds, Conflicts, IsReplyTo, MessageOf;
  }

  /** One reply that answers another sequence is no business of this transaction. */
  lemma ForeignReply(reply: Frame, f: IdFields, cache: ReplayCache, t: Transaction, served: bool)
    requires ValidRequest(t.request) && Answers(reply, f)
    requires f.sequence != t.sequence && (t.firstAttempt ==> f.sequence != NextSequence(t.sequence))
    ensures RepliesOk([reply], cache, t, served)
  {
    hide NextSequence, ReplyOk;
    ParsesAlike(reply);
  }

  lemma ParsesAlike(frame: Frame)
    requires ParseId(frame.id).Some?
    ensures ParseId(frame.id) == Some(Parse(frame.id))
  {
    ParseAgreesWithC(frame.id);
  }

  /** First attempt, a frame from before the call: the receiver may do anything with it, but not answer the call. */
  lemma EarlierFrameKeeps(s: System, health: BusHealth, port: SpiPort)
    requires Invariant(s) && s.requests != [] && s.requests[0] != Current(s.client) && s.client.firstAttempt
    ensures Invariant(Delivered(s, health, port))
  {
    hide Safe, IsReplyTo, RequestFrame, NextSequence, MessageOf, ReplyOk, Service, Answers, ParseId, RequestsOk,
         RepliesOk;
    var f := s.requests[0];
    assert !s.served && Earlier(s.client, f) by {
      HeadIsEarlier(s);
    }
    ServiceIsSafe(s.receiver, f, health, port);
    ReplyDiscipline(s.receiver, f, health, port);
    RestOfChannel(s);
    var out := Service(s.receiver, f, health, port);
    var more := FramesOf(out.replies);
    if ExpectsReply(f, s.receiver.config.nodeId) {
      ForeignReply(out.replies[0].frame, ParseId(f.id).value, out.receiver.cache, s.client, s.served);
      assert more == [out.replies[0].frame];
    } else {
      assert more == [];
      NoReplies(out.receiver.cache, s.client, s.served);
    }
    RepliesJoin(s.replies, more, s.receiver.cache, out.receiver.cache, s.client, s.served, s.served);
  }

  lemma NoReplies(cache: ReplayCache, t: Transaction, served: bool)
    requires ValidRequest(t.request)
    ensures RepliesOk([], cache, t, served)
  {
  }

  lemma HeadIsEarlier(s: System)
    requires ValidRequest(s.client.request) && RequestsOk(s.requests, s.client, s.served)
    requires s.requests != [] && s.requests[0] != Current(s.client)
    ensures !s.served && Earlier(s.client, s.requests[0])
  {
  }

  /** Second attempt, a leftover copy of the first message: the cache refuses it and nothing moves. */
  lemma LeftoverCopyKeeps(s: System, health: BusHealth, port: SpiPort)
    requires Invariant(s) && s.requests != [] && s.requests[0] != Current(s.client) && !s.client.firstAttempt
    ensures Invariant(Delivered(s, health, port))
  {
    hide Safe, IsReplyTo, IsRequestTo, RequestFrame, NextSequence, MessageOf, ReplyOk, Service, Answers, ParseId,
         RequestsOk, RepliesOk, CommandOf, ErrorReplies;
    var t := s.client;
    HeadIsEarlier(s);
    var q := Previous(t.sequence);
    SequencesDiffer(t.sequence);
    CommandFields(t.request, q);
    CommandFields(t.request, t.sequence);
    ServiceOfRequest(s.receiver, t.request, q, health, port);
    ServiceIsSafe(s.receiver, s.requests[0], health, port);
    ErrorReply(s.receiver, CommandBefore(t), ResultSequenceReuse);
    RestOfChannel(s);
    var out := Service(s.receiver, s.requests[0], health, port);
    ForeignReply(out.replies[0].frame, IdFields(t.request.kind, t.request.destination, CONTROLLER, q),
                 out.receiver.cache, t, s.served);
    assert FramesOf(out.replies) == [out.replies[0].frame];
    RepliesJoin(s.replies, FramesOf(out.replies), s.receiver.cache, out.receiver.cache, t, s.served, s.served);
    var d := Delivered(s, health, port);
    assert d.completed == s.completed && d.served == s.served && d.client == t;
    assert CacheOk(d.receiver.cache, t, d.served, d.completed) && OutcomeOk(d.receiver.cache, t, d.served);
    assert RequestsOk(d.requests, t, d.served) && RepliesOk(d.replies, d.receiver.cache, t, d.served);
  }

  lemma ErrorReply(r: Receiver, c: Command, result: CommandResult)
    requires Safe(r) && c.destination == r.config.nodeId && c.source == CONTROLLER && c.kind <= PING && result != ResultOk
    ensures var replies := ErrorReplies(r.config.nodeId, c, result);
      && |replies| == 1
      && Answers(replies[0].frame, IdFields(c.kind, c.destination, CONTROLLER, c.sequence))
      && ParseId(replies[0].frame.id) == Some(IdFields(ERROR, CONTROLLER, c.destination, c.sequence))
      && MessageOf(replies[0].frame).data == [c.kind, ResultCode(result)]
  {
    hide ParseId, MakeId, AttenuatorTracks, Carries;
    ErrorAnswers(r.config.nodeId, c.kind, c.sequence, result);
    AckExists(r.config.nodeId, ERROR, c.sequence, c.kind, result);
  }

  /** What the channel gains when a copy of the current message is served. */
  lemma CurrentReplies(r: Receiver, t: Transaction, health: BusHealth, port: SpiPort)
    requires Safe(r) && ValidRequest(t.request) && r.config.nodeId == t.request.destination
    requires !t.firstAttempt ==> Holds(r.cache, CommandNow(t)) || Conflicts(r.cache, CommandBefore(t))
    ensures var out := Service(r, Current(t), health, port);
      && RepliesOk(FramesOf(out.replies), out.receiver.cache, t, true)
      && (Holds(r.cache, CommandNow(t)) ==> Holds(out.receiver.cache, CommandNow(t)) && out.disposition != Completed)
      && (Conflicts(r.cache, CommandNow(t)) ==>
            Conflicts(out.receiver.cache, CommandNow(t)) && out.disposition != Completed)
      && (out.disposition == Completed ==> Holds(out.receiver.cache, CommandNow(t)))
      && (out.receiver.cache == r.cache || Holds(out.receiver.cache, CommandNow(t)))
  {
    hide Safe, IsRequestTo, RequestFrame, NextSequence, MessageOf, Service, Answers, ParseId, CommandOf, ErrorReplies,
         AckOf, FromNode;
    var c := CommandNow(t);
    CommandFields(t.request, t.sequence);
    CommandFields(t.request, Previous(t.sequence));
    SequencesDiffer(t.sequence);
    ServiceOfRequest(r, t.request, t.sequence, health, port);
    var out := Service(r, Current(t), health, port);
    ErrorReplyIsOk(r, t, out.receiver.cache, ResultSequenceReuse);
    ErrorReplyIsOk(r, t, out.receiver.cache, ResultBusy);
    ErrorReplyIsOk(r, t, out.receiver.cache, ResultHardware);
    AckReplyIsOk(t, out.receiver.cache);
    assert FramesOf(out.replies) == [out.replies[0].frame];
  }

  lemma ErrorReplyIsOk(r: Receiver, t: Transaction, cache: ReplayCache, result: CommandResult)
    requires Safe(r) && ValidRequest(t.request) && r.config.nodeId == t.request.destination
    requires result in {ResultSequenceReuse, ResultBusy, ResultHardware}
    ensures var replies := ErrorReplies(r.config.nodeId, CommandNow(t), result);
      |replies| == 1
      && ((result == ResultSequenceReuse ==> t.firstAttempt && Conflicts(cache, CommandNow(t))) ==>
            RepliesOk([replies[0].frame], cache, t, true))
  {
    hide Safe, RequestFrame, NextSequence, ParseId, CommandOf, ErrorReplies, Answers, MessageOf, Conflicts;
    CommandFields(t.request, t.sequence);
    SequencesDiffer(t.sequence);
    ErrorReply(r, CommandNow(t), result);
    ParsesAlike(ErrorReplies(r.config.nodeId, CommandNow(t), result)[0].frame);
  }

  lemma AckReplyIsOk(t: Transaction, cache: ReplayCache)
    requires ValidRequest(t.request)
    ensures var c := CommandNow(t);
      && NODE_MIN <= c.destination <= NODE_MAX && c.source == CONTROLLER && c.kind < TYPE_COUNT
      && (Holds(cache, c) ==> RepliesOk([AckOf(c)], cache, t, true))
  {
    hide RequestFrame, NextSequence, ParseId, CommandOf, MakeResult, Holds;
    var c := CommandNow(t);
    CommandFields(t.request, t.sequence);
    SequencesDiffer(t.sequence);
    AckExists(c.destination, ACK, c.sequence, c.kind, ResultOk);
    AckPayload(c);
    ParsesAlike(AckOf(c));
  }

  lemma AckPayload(c: Command)
    requires NODE_MIN <= c.destination <= NODE_MAX && c.source == CONTROLLER && c.kind < TYPE_COUNT
    ensures MessageOf(AckOf(c)).data == [c.kind, 0]
  {
    hide ParseId, MakeId;
    AckExists(c.destination, ACK, c.sequence, c.kind, ResultOk);
  }

  lemma CurrentFrameKeeps(s: System, health: BusHealth, port: SpiPort)
    requires Invariant(s) && s.requests != [] && s.requests[0] == Current(s.client)
    ensures Invariant(Delivered(s, health, port))
  {
    hide Safe, IsReplyTo, IsRequestTo, RequestFrame, NextSequence, MessageOf, ReplyOk, Service, RequestsOk, RepliesOk,
         CommandOf, Holds, Conflicts;
    ServiceIsSafe(s.receiver, s.requests[0], health, port);
    CurrentReplies(s.receiver, s.client, health, port);
    AllAreCurrent(s);
    var out := Service(s.receiver, s.requests[0], health, port);
    RepliesJoin(
      s.replies, FramesOf(out.replies), s.receiver.cache, out.receiver.cache, s.client, s.served, true);
    OutcomeKept(s.receiver.cache, out.receiver.cache, s.client, s.served);
  }

  lemma AllAreCurrent(s: System)
    requires ValidRequest(s.client.request) && RequestsOk(s.requests, s.client, s.served)
    requires s.requests != [] && s.requests[0] == Current(s.client)
    ensures RequestsOk(s.requests[1..], s.client, true)
  {
    hide Earlier, RequestFrame;
  }

  lemma OutcomeKept(before: ReplayCache, after: ReplayCache, t: Transaction, served: bool)
    requires ValidRequest(t.request) && OutcomeOk(before, t, served)
    requires Holds(before, CommandNow(t)) ==> Holds(after, CommandNow(t))
    ensures OutcomeOk(after, t, true)
  {
  }

  lemma EventKeeps(s: System, event: Event, retries: nat)
    requires Invariant(s)
    ensures Invariant(Advance(s, event, retries))
  {
    hide React, Service, Safe, RequestsOk, RepliesOk, CacheOk, OutcomeOk;
    match event
    case Deliver(health, port) =>
      if s.requests != [] {
        assert Advance(s, event, retries) == Delivered(s, health, port);
        if s.requests[0] == Current(s.client) {
          CurrentFrameKeeps(s, health, port);
        } else if s.client.firstAttempt {
          EarlierFrameKeeps(s, health, port);
        } else {
          LeftoverCopyKeeps(s, health, port);
        }
      }
    case Timeout => ReactKeeps(s, DeadlinePassed, retries);
    case Receive(k) =>
      if k < |s.replies| {
        ReceiveKeeps(s, k, retries);
      }
    case _ => LossesKeep(s, event, retries);
  }

  // The theorems

  lemma AdvanceKeepsRequest(s: System, event: Event, retries: nat)
    requires ValidRequest(s.client.request)
    ensures Advance(s, event, retries).client.request == s.client.request
  {
    hide Service, ClientStep, FrameOf, FramesOf, Mine, Current, FromNode, Without, Doubled, MessageOf;
    match event
    case Timeout => StepKeepsRequest(s.client, DeadlinePassed, retries);
    case Receive(k) =>
      if k < |s.replies| {
        StepKeepsRequest(s.client, Received(Some(MessageOf(s.replies[k]))), retries);
      }
    case _ =>
  }

  function Run(s: System, events: seq<Event>, retries: nat): (t: System)
    requires ValidRequest(s.client.request)
    ensures t.client.request == s.client.request
    decreases |events|
  {
    if events == [] then s
    else
      var before := Run(s, events[..|events| - 1], retries);
      AdvanceKeepsRequest(before, events[|events| - 1], retries);
      Advance(before, events[|events| - 1], retries)
  }

  lemma {:induction false} RunKeepsInvariant(s: System, events: seq<Event>, retries: nat)
    requires Invariant(s)
    ensures Invariant(Run(s, events, retries))
    decreases |events|
  {
    hide Safe, RequestsOk, RepliesOk, CacheOk, OutcomeOk, Advance;
    if events != [] {
      RunKeepsInvariant(s, events[..|events| - 1], retries);
      EventKeeps(Run(s, events[..|events| - 1], retries), events[|events| - 1], retries);
    }
  }

  /** The fields a request names, in the state. */
  predicate StateHolds(state: RfState, request: Request)
    requires ValidRequest(request)
  {
    if request.kind == ENTER_SAFE then state == RfState(0, 23)
    else if request.kind == SET_COMBINED then state == RfState(request.payload[0], request.payload[1])
    else if request.kind == SET_PHASE then state.phaseState == request.payload[0]
    else state.attenuationDb == request.payload[0]
  }

  /**
   What a call is worth when it ends: its ACK shows that the receiver's state holds exactly the
   requested fields; the receiver carried out the call's plan at most once, over every retry and
   the one resequencing; and it never ends in a sequence-reuse error or a protocol violation.
   */
  predicate Truthful(s: System, request: Request)
    requires ValidRequest(request)
  {
    && s.completed <= 1
    && (s.client.Over? ==>
          match s.client.outcome
          case Acknowledged(data) =>
            data == [request.kind, RES_OK] && StateHolds(s.receiver.state, request)
          case Refused(result) => result == ResultCode(ResultHardware) || result == ResultCode(ResultBusy)
          case ProtocolViolation => false
          case TimedOut => true)
  }

  /** Whatever the adversary does, and however long leftovers of the call go on being delivered. */
  lemma EndToEndCommand(
    r: Receiver, requests: seq<Frame>, replies: seq<Frame>, request: Request, sequence: u16, retries: nat,
    events: seq<Event>)
    requires MayStart(r, requests, replies, request, sequence)
    ensures Invariant(Started(r, requests, replies, request, sequence, retries))
    ensures Truthful(Run(Started(r, requests, replies, request, sequence, retries), events, retries), request)
  {
    hide Safe, IsRequestTo, IsReplyTo, RequestFrame, RequestsOk, RepliesOk;
    StartHolds(r, requests, replies, request, sequence, retries);
    var start := Started(r, requests, replies, request, sequence, retries);
    RunKeepsInvariant(start, events, retries);
    var s := Run(start, events, retries);
    if Holds(s.receiver.cache, CommandNow(s.client)) {
      HeldCommandIsInForce(s.receiver, request, s.client.sequence);
    }
  }

  /** While no SPI write fails, the devices keep the encoding of the receiver's state through the whole exchange. */
  lemma {:induction false} FaultFreeRunKeepsAgreement(s: System, events: seq<Event>, retries: nat)
    requires Invariant(s) && InAgreement(s.receiver.config.words, s.receiver.outputs, s.receiver.state)
    requires forall i :: 0 <= i < |events| && events[i].Deliver? ==> FaultFree(events[i].port)
    ensures var after := Run(s, events, retries).receiver;
      InAgreement(after.config.words, after.outputs, after.state)
    decreases |events|
  {
    hide Service, Safe, EncodePhase, FaultFree, RequestsOk, RepliesOk, CacheOk, OutcomeOk;
    if events != [] {
      var before, last := Run(s, events[..|events| - 1], retries), events[|events| - 1];
      RunKeepsInvariant(s, events[..|events| - 1], retries);
      FaultFreeRunKeepsAgreement(s, events[..|events| - 1], retries);
      if last.Deliver? && before.requests != [] {
        FaultFreeServiceAgrees(before.receiver, before.requests[0], last.health, last.port);
      }
    }
  }

  /** The public operations mean what they say, and exactly the documented ranges are accepted. */
  lemma CallsBecomeCommands(destination: int, phase: int, attenuation: int, sequence: u16)
    ensures var ok, p, a := 1 <= destination <= 30, 0 <= phase <= 255, 0 <= attenuation <= 23;
      && RequestOf(EnterSafe(destination)).Some? == ok
      && RequestOf(Client.SetPhase(destination, PyInt(phase))).Some? == (ok && p)
      && RequestOf(Client.SetVga(destination, PyInt(attenuation))).Some? == (ok && a)
      && RequestOf(Client.SetCombined(destination, PyInt(phase), PyInt(attenuation))).Some? == (ok && p && a)
    ensures forall v: PyValue :: !v.PyInt? ==>
      RequestOf(Client.SetPhase(destination, v)).None? && RequestOf(Client.SetVga(destination, v)).None?
      && RequestOf(Client.SetCombined(destination, v, PyInt(attenuation))).None?
      && RequestOf(Client.SetCombined(destination, PyInt(phase), v)).None?
    ensures 1 <= destination <= 30 && 0 <= phase <= 255 && 0 <= attenuation <= 23 ==>
      var safe, setPhase, setVga, both :=
        RequestOf(EnterSafe(destination)).value,
        RequestOf(Client.SetPhase(destination, PyInt(phase))).value,
        RequestOf(Client.SetVga(destination, PyInt(attenuation))).value,
        RequestOf(Client.SetCombined(destination, PyInt(phase), PyInt(attenuation))).value;
      && ValidRequest(safe) && ValidRequest(setPhase) && ValidRequest(setVga) && ValidRequest(both)
      && CommandOf(safe, sequence) == Command(ENTER_SAFE, destination, CONTROLLER, sequence, 0, 0)
      && CommandOf(setPhase, sequence) == Command(SET_PHASE, destination, CONTROLLER, sequence, phase, 0)
      && CommandOf(setVga, sequence) == Command(SET_VGA, destination, CONTROLLER, sequence, 0, attenuation)
      && CommandOf(both, sequence) == Command(SET_COMBINED, destination, CONTROLLER, sequence, phase, attenuation)
  {
  }

  lemma HeldCommandIsInForce(r: Receiver, request: Request, sequence: u16)
    requires Safe(r) && ValidRequest(request) && Holds(r.cache, CommandOf(request, sequence))
    ensures StateHolds(r.state, request)
  {
    hide AttenuatorTracks, AckFor, Carries;
  }

  /** The call can succeed: if nothing is lost, no SPI write fails and the node is neither locked nor holding the key. */
  lemma UndisturbedCommandSucceeds(
    r: Receiver, request: Request, sequence: u16, retries: nat, health: BusHealth, port: SpiPort)
    requires MayStart(r, [], [], request, sequence) && FaultFree(port)
    requires !r.config.safeLockout || request.kind == ENTER_SAFE
    requires !Conflicts(r.cache, CommandOf(request, NextSequence(sequence)))
    ensures Invariant(Started(r, [], [], request, sequence, retries))
    ensures var s := Run(Started(r, [], [], request, sequence, retries), [Deliver(health, port), Receive(0)], retries);
      s.client.Over? && s.client.outcome == Acknowledged([request.kind, RES_OK])
  {
    hide Invariant, Safe, Advance, IsRequestTo, IsReplyTo, FaultFree, Current, Conflicts;
    StartHolds(r, [], [], request, sequence, retries);
    var s0 := Started(r, [], [], request, sequence, retries);
    var both := [Deliver(health, port), Receive(0)];
    assert both[..1] == [Deliver(health, port)] && both[..1][..0] == [];
    var s1 := Advance(s0, Deliver(health, port), retries);
    assert Run(s0, both[..1], retries) == s1;
    assert [] + [Current(s0.client)] == [Current(s0.client)];
    UndisturbedDelivery(s0, retries, health, port);
    UndisturbedReceipt(s1, 0, retries);
  }

  /**
   What the second attempt is for: the client has restarted, its first fresh sequence collides with
   the command the receiver still caches, and the receiver refuses it. Undisturbed, the call then
   succeeds under the next sequence.
   */
  lemma RestartedClientRecovers(
    r: Receiver, request: Request, sequence: u16, retries: nat,
    h1: BusHealth, p1: SpiPort, h2: BusHealth, p2: SpiPort)
    requires MayStart(r, [], [], request, sequence) && FaultFree(p2)
    requires !r.config.safeLockout || request.kind == ENTER_SAFE
    requires Conflicts(r.cache, CommandOf(request, NextSequence(sequence)))
    ensures Invariant(Started(r, [], [], request, sequence, retries))
    ensures var s := Run(Started(r, [], [], request, sequence, retries),
                         [Deliver(h1, p1), Receive(0), Deliver(h2, p2), Receive(0)], retries);
      s.client.Over? && s.client.outcome == Acknowledged([request.kind, RES_OK])
      && s.client.sequence == NextSequence(NextSequence(sequence))
  {
    hide Invariant, Safe, Advance, IsRequestTo, IsReplyTo, FaultFree, Current, Conflicts, NextSequence, CommandOf;
    StartHolds(r, [], [], request, sequence, retries);
    var s0 := Started(r, [], [], request, sequence, retries);
    FourEvents(s0, Deliver(h1, p1), Receive(0), Deliver(h2, p2), Receive(0), retries);
    var s1 := Advance(s0, Deliver(h1, p1), retries);
    var s2 := Advance(s1, Receive(0), retries);
    var s3 := Advance(s2, Deliver(h2, p2), retries);
    assert [] + [Current(s0.client)] == [Current(s0.client)];
    RefusedDelivery(s0, retries, h1, p1);
    RefusalResequences(s1, 0, retries);
    assert [] + [Current(s2.client)] == [Current(s2.client)];
    ServiceIsSafe(r, Current(s0.client), h1, p1);
    OldKeyIsNoObstacle(r.cache, request, NextSequence(sequence));
    UndisturbedDelivery(s2, retries, h2, p2);
    UndisturbedReceipt(s3, 0, retries);
    AdvanceStaysInCall(s3, Receive(0), retries);
  }

  lemma FourEvents(s: System, e1: Event, e2: Event, e3: Event, e4: Event, retries: nat)
    requires ValidRequest(s.client.request)
    ensures var s1 := Advance(s, e1, retries);
      ValidRequest(s1.client.request)
      && var s2 := Advance(s1, e2, retries);
      ValidRequest(s2.client.request)
      && var s3 := Advance(s2, e3, retries);
      ValidRequest(s3.client.request) && Run(s, [e1, e2, e3, e4], retries) == Advance(s3, e4, retries)
  {
    hide Advance;
    var all := [e1, e2, e3, e4];
    assert all[..3] == [e1, e2, e3] && all[..3][..2] == [e1, e2] && all[..3][..2][..1] == [e1];
    assert all[..3][..2][..1][..0] == [];
    RunOne(s, [], e1, retries);
    RunOne(s, [e1], e2, retries);
    RunOne(s, [e1, e2], e3, retries);
    RunOne(s, [e1, e2, e3], e4, retries);
  }

  lemma RunOne(s: System, events: seq<Event>, event: Event, retries: nat)
    requires ValidRequest(s.client.request)
    ensures Run(s, events + [event], retries) == Advance(Run(s, events, retries), event, retries)
  {
    hide Advance;
    assert (events + [event])[..|events|] == events;
  }

  /** One event moves the call on by at most the one resequencing. */
  lemma AdvanceStaysInCall(s: System, event: Event, retries: nat)
    requires ValidRequest(s.client.request)
    ensures var t := Advance(s, event, retries).client;
      t.sequence == (if t.firstAttempt == s.client.firstAttempt then s.client.sequence
                     else NextSequence(s.client.sequence))
      && (t.firstAttempt ==> s.client.firstAttempt)
  {
    hide Service, NextSequence, Judge, MakeMessage, MessageOf, FrameOf, Without, FromNode, Mine, Current;
    if event.Receive? && event.k < |s.replies| {
      JudgeResequencesFirst(
        s.client.request, s.client.sequence, s.client.firstAttempt, Some(MessageOf(s.replies[event.k])));
    }
  }

  lemma OldKeyIsNoObstacle(cache: ReplayCache, request: Request, sequence: u16)
    requires ValidRequest(request) && Conflicts(cache, CommandOf(request, sequence))
    ensures !Conflicts(cache, CommandOf(request, NextSequence(sequence)))
  {
    hide NextSequence;
    SequencesDiffer(sequence);
  }

  lemma RefusedDelivery(s: System, retries: nat, health: BusHealth, port: SpiPort)
    requires Safe(s.receiver) && ValidRequest(s.client.request)
    requires s.receiver.config.nodeId == s.client.request.destination
    requires s.requests == [Current(s.client)] && Conflicts(s.receiver.cache, CommandNow(s.client))
    ensures var after, k := Advance(s, Deliver(health, port), retries), |s.replies|;
      && after.client == s.client && after.requests == [] && |after.replies| == k + 1 && after.replies[..k] == s.replies
      && after.receiver.cache == s.receiver.cache
      && after.receiver == Service(s.receiver, Current(s.client), health, port).receiver
      && IsReplyTo(after.replies[k], s.client.request.destination, s.client.sequence)
      && MessageOf(after.replies[k]).data == [s.client.request.kind, RES_SEQUENCE_REUSE]
      && Parse(after.replies[k].id).kind == ERROR
  {
    hide RequestFrame, CommandOf, Service, ErrorReplies, ParseId, MessageOf, Conflicts, Safe;
    var c := CommandNow(s.client);
    CommandFields(s.client.request, s.client.sequence);
    ServiceOfRequest(s.receiver, s.client.request, s.client.sequence, health, port);
    assert !Holds(s.receiver.cache, c) by {
      ConflictIsNotHeld(s.receiver.cache, c);
    }
    ErrorReply(s.receiver, c, ResultSequenceReuse);
    ParsesAlike(ErrorReplies(s.receiver.config.nodeId, c, ResultSequenceReuse)[0].frame);
  }

  lemma ConflictIsNotHeld(cache: ReplayCache, c: Command)
    requires Conflicts(cache, c)
    ensures !Holds(cache, c)
  {
  }

  lemma RefusalResequences(s: System, k: nat, retries: nat)
    requires ValidRequest(s.client.request) && s.client.Waiting? && s.client.firstAttempt && k < |s.replies|
    requires IsReplyTo(s.replies[k], s.client.request.destination, s.client.sequence)
    requires MessageOf(s.replies[k]).data == [s.client.request.kind, RES_SEQUENCE_REUSE]
    requires Parse(s.replies[k].id).kind == ERROR
    ensures var after := Advance(s, Receive(k), retries);
      && after.client == Waiting(s.client.request, false, retries, NextSequence(s.client.sequence))
      && after.requests == s.requests + [Current(after.client)] && after.replies == Without(s.replies, k)
      && after.receiver == s.receiver
  {
    hide ParseId, NextSequence, MakeMessage, FrameOf, CommandOf, Shr, And;
    StepKeepsRequest(s.client, Received(Some(MessageOf(s.replies[k]))), retries);
    assert Judge(s.client.request, s.client.sequence, true, Some(MessageOf(s.replies[k]))) == Resequence;
  }

  lemma UndisturbedDelivery(s: System, retries: nat, health: BusHealth, port: SpiPort)
    requires Safe(s.receiver) && ValidRequest(s.client.request) && FaultFree(port)
    requires s.receiver.config.nodeId == s.client.request.destination
    requires !s.receiver.config.safeLockout || s.client.request.kind == ENTER_SAFE
    requires s.requests == [Current(s.client)] && s.replies == [] && !Conflicts(s.receiver.cache, CommandNow(s.client))
    ensures var after := Advance(s, Deliver(health, port), retries);
      var c := CommandNow(s.client);
      && after.client == s.client
      && NODE_MIN <= c.destination <= NODE_MAX && c.source == CONTROLLER && c.kind < TYPE_COUNT
      && after.replies == [AckOf(c)]
  {
    hide RequestFrame, CommandOf, Service, AckOf, Attempt, Safe, FaultFree;
    var request, q := s.client.request, s.client.sequence;
    CommandFields(request, q);
    ServiceOfRequest(s.receiver, request, q, health, port);
    UndisturbedService(s.receiver, request, q, health, port);
  }

  lemma UndisturbedService(r: Receiver, request: Request, sequence: u16, health: BusHealth, port: SpiPort)
    requires Safe(r) && ValidRequest(request) && r.config.nodeId == request.destination && FaultFree(port)
    requires !r.config.safeLockout || request.kind == ENTER_SAFE
    ensures var d := Service(r, RequestFrame(request, sequence), health, port).disposition;
      d != Busy && !d.HardwareFailed?
  {
    hide Carries, RequestFrame, CommandOf, Decode, ParseId, Perform, MakeResult, ErrorReplies, AgreesWith, Attempt,
         PaddedPayload, ExecutionOrder;
    ClientMessageDecodes(request, sequence);
    CommandFields(request, sequence);
    var frame, c := RequestFrame(request, sequence), CommandOf(request, sequence);
    PerformIsPerformed(r, c, frame, port);
    FaultFreeAttemptCompletes(r.config.words, c, r.state, r.outputs, port);
  }

  lemma UndisturbedReceipt(s: System, k: nat, retries: nat)
    requires ValidRequest(s.client.request) && s.client.Waiting? && k < |s.replies|
    requires var c := CommandNow(s.client);
      NODE_MIN <= c.destination <= NODE_MAX && c.source == CONTROLLER && c.kind < TYPE_COUNT
      && s.replies[k] == AckOf(c)
    ensures var t := Advance(s, Receive(k), retries).client;
      t.Over? && t.outcome == Acknowledged([s.client.request.kind, RES_OK])
  {
    hide ParseId, MakeResult, CommandOf, NextSequence;
    var c := CommandNow(s.client);
    CommandFields(s.client.request, s.client.sequence);
    AckExists(c.destination, ACK, c.sequence, c.kind, ResultOk);
    AckPayload(c);
    ParsesAlike(AckOf(c));
  }

  /**
   Why a call needs its sequences to be fresh: with an old ACK for the first of them still in
   flight, the client accepts it at once, although the receiver never saw the request and its
   state does not hold what was asked for.
   */
  lemma StaleAckMisleads(r: Receiver, request: Request, sequence: u16, retries: nat)
    requires Safe(r) && ValidRequest(request) && r.config.nodeId == request.destination
    requires !StateHolds(r.state, request)
    ensures var c := CommandOf(request, NextSequence(sequence));
      && NODE_MIN <= c.destination <= NODE_MAX && c.source == CONTROLLER && c.kind < TYPE_COUNT
      && !MayStart(r, [], [AckOf(c)], request, sequence)
      && var s := Advance(Started(r, [], [AckOf(c)], request, sequence, retries), Receive(0), retries);
         s.client.Over? && s.client.outcome == Acknowledged([request.kind, RES_OK])
         && s.receiver == r && !StateHolds(s.receiver.state, request)
  {
    hide Safe, NextSequence, RequestFrame, CommandOf, AckOf, StateHolds;
    var q := NextSequence(sequence);
    CommandFields(request, q);
    var c := CommandOf(request, q);
    UndisturbedReceipt(Started(r, [], [AckOf(c)], request, sequence, retries), 0, retries);
    AckIsReply(c);
  }

  lemma AckIsReply(c: Command)
    requires NODE_MIN <= c.destination <= NODE_MAX && c.source == CONTROLLER && c.kind < TYPE_COUNT
    ensures IsReplyTo(AckOf(c), c.destination, c.sequence)
  {
    hide ParseId, MakeResult;
    AckExists(c.destination, ACK, c.sequence, c.kind, ResultOk);
    ParsesAlike(AckOf(c));
  }

  /** A PING's answer survives the trip: the client reads back the very status the receiver reported. */
  lemma DiscoveryReadsStatus(r: Receiver, frame: Frame, sequence: u16, health: BusHealth, port: SpiPort)
    requires Safe(r) && PingMessage(r.config.nodeId, sequence).Some?
    requires |PingMessage(r.config.nodeId, sequence).value.data| <= 8
      && PingMessage(r.config.nodeId, sequence).value.id <= EXTENDED_ID_MAX
    requires frame == FrameOf(PingMessage(r.config.nodeId, sequence).value)
    ensures var replies := Service(r, frame, health, port).replies;
      && |replies| == 1
      && JudgeStatus(r.config.nodeId, sequence, Some(MessageOf(replies[0].frame)))
         == Conclude(Found(NodeStatus(
              3, 0, 0, r.config.nodeId, HealthFlags(r, health),
              health.rxDropped % 256, health.txDropped % 256, r.invalidCommands % 256)))
  {
    hide ParseId, MakeId, Decode, BuildId, HealthFlags, AttenuatorTracks, PingMessage;
    var node := r.config.nodeId;
    PingExists(node, sequence);
    var c := Command(PING, node, CONTROLLER, sequence, 0, 0);
    DecodingOf(frame, node, c);
    ParseAfterMake(IdFields(STATUS, CONTROLLER, node, sequence));
    ParsesAlike(StatusReplies(r, c, health)[0].frame);
  }

  /** The client's broadcast brings every node with working hardware to the safe state, without a reply. */
  lemma BroadcastMakesSafe(r: Receiver, sequence: u16, health: BusHealth, port: SpiPort)
    requires Safe(r) && FaultFree(port)
    ensures BroadcastMessage(sequence).Some?
    ensures var m := BroadcastMessage(sequence).value;
      m.id <= EXTENDED_ID_MAX && |m.data| <= 8
      && var s := Service(r, FrameOf(m), health, port);
         s.replies == [] && s.receiver.state == RfState(0, 23) && s.receiver.cache == Empty
         && s.receiver.outputs.vgaLatch == 0x5c
  {
    hide Service, Decode, FrameOf, FaultFree, AttenuatorTracks, Recorded, CacheIsTruthful, BroadcastMessage;
    BroadcastReachesAll(r.config.nodeId, sequence);
    BroadcastIsObeyed(r, FrameOf(BroadcastMessage(sequence).value), health, port);
  }

  /** A broadcast ENTER_SAFE decodes at every node to exactly that. */
  lemma BroadcastReachesAll(nodeId: u8, sequence: u16)
    requires NODE_MIN <= nodeId <= NODE_MAX
    ensures BroadcastMessage(sequence).Some?
    ensures var m := BroadcastMessage(sequence).value;
      m.id <= EXTENDED_ID_MAX && |m.data| <= 8
      && Decode(FrameOf(m), nodeId) == Valid(Command(ENTER_SAFE, BROADCAST, CONTROLLER, sequence, 0, 0))
  {
    hide BuildId, MakeId, ParseId;
    var f := IdFields(ENTER_SAFE, BROADCAST, CONTROLLER, sequence);
    BuildIdAgreesWithC(f.kind, f.destination, f.source, f.sequence);
    ParseAfterMake(f);
    MakeAfterParse(MakeId(f.kind, f.destination, f.source, f.sequence).value);
  }
}
