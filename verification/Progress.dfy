/**
 What a call achieves when the hardware works: no SPI write fails and the node is not locked out, but
 the bus goes on losing, duplicating and reordering as it likes.
 */
module Progress {
  import opened Bits
  import opened Protocol
  import opened PiProtocol
  import opened RfExecute
  import opened Runtime
  import opened RuntimeSafety
  import opened Client
  import opened EndToEnd
  import opened DeviceTruth
  import Session

  /** A HARDWARE or BUSY error for the message under this sequence. */
  predicate Refuses(frame: Frame, request: Request, sequence: u16)
  {
    IsReplyTo(frame, request.destination, sequence) && Parse(frame.id).kind == ERROR
    && MessageOf(frame).data in {[request.kind, 4], [request.kind, 5]}
  }

  /** Neither lockout nor anything in flight stands in the way of the call. */
  predicate Unopposed(s: System)
  {
    && (s.receiver.config.safeLockout ==> s.client.request.kind == ENTER_SAFE)
    && (forall i :: 0 <= i < |s.replies| ==> !Refuses(s.replies[i], s.client.request, s.client.sequence))
    && (s.client.Over? ==> !s.client.outcome.Refused?)
  }

  ghost predicate WorkingHardware(events: seq<Event>)
  {
    forall i :: 0 <= i < |events| && events[i].Deliver? ==> FaultFree(events[i].port)
  }

  // Each event keeps the call unopposed

  /** A copy of the current message is answered at once, and not by a refusal. */
  lemma CurrentIsAnswered(r: Receiver, request: Request, sequence: u16, health: BusHealth, port: SpiPort)
    requires Safe(r) && ValidRequest(request) && r.config.nodeId == request.destination && FaultFree(port)
    requires r.config.safeLockout ==> request.kind == ENTER_SAFE
    ensures var frames := FramesOf(Service(r, RequestFrame(request, sequence), health, port).replies);
      && |frames| == 1 && IsReplyTo(frames[0], request.destination, sequence)
      && !Refuses(frames[0], request, sequence)
  {
    hide Safe, RequestFrame, Service, AckOf, ErrorReplies, CommandOf, Conflicts, Holds, ParseId, MessageOf, Answers,
         FaultFree;
    var c := CommandOf(request, sequence);
    CommandFields(request, sequence);
    ServiceOfRequest(r, request, sequence, health, port);
    UndisturbedService(r, request, sequence, health, port);
    AckIsReply(c);
    AckIsNoError(c);
    ErrorReply(r, c, ResultSequenceReuse);
    ReuseIsReply(r, request, sequence);
  }

  lemma AckIsNoError(c: Command)
    requires NODE_MIN <= c.destination <= NODE_MAX && c.source == CONTROLLER && c.kind < TYPE_COUNT
    ensures Parse(AckOf(c).id).kind == ACK
  {
    hide ParseId, MakeResult;
    AckExists(c.destination, ACK, c.sequence, c.kind, ResultOk);
    ParsesAlike(AckOf(c));
  }

  lemma ReuseIsReply(r: Receiver, request: Request, sequence: u16)
    requires Safe(r) && ValidRequest(request) && r.config.nodeId == request.destination
    ensures var replies := ErrorReplies(r.config.nodeId, CommandOf(request, sequence), ResultSequenceReuse);
      |replies| == 1 && IsReplyTo(replies[0].frame, request.destination, sequence)
      && !Refuses(replies[0].frame, request, sequence)
  {
    hide Safe, CommandOf, ErrorReplies, ParseId, MessageOf;
    var c := CommandOf(request, sequence);
    CommandFields(request, sequence);
    ErrorReply(r, c, ResultSequenceReuse);
    ParsesAlike(ErrorReplies(r.config.nodeId, c, ResultSequenceReuse)[0].frame);
  }

  lemma HeadIsForOther(s: System)
    requires Invariant(s) && s.requests != [] && s.requests[0] != Current(s.client)
    ensures !IsRequestTo(s.requests[0], s.client.request.destination, s.client.sequence)
  {
    hide Safe, IsRequestTo, RequestFrame, NextSequence, RepliesOk, CacheOk, OutcomeOk;
    HeadIsEarlier(s);
    if !s.client.firstAttempt {
      SequencesDiffer(s.client.sequence);
      CurrentIsAddressed(s.client.request, Previous(s.client.sequence), s.client.sequence);
    }
  }

  lemma DeliveryKeepsUnopposed(s: System, health: BusHealth, port: SpiPort)
    requires Invariant(s) && Unopposed(s) && s.requests != [] && FaultFree(port)
    ensures Unopposed(Delivered(s, health, port))
  {
    hide Safe, RequestFrame, Service, RequestsOk, RepliesOk, CacheOk, OutcomeOk, FaultFree, IsRequestTo, IsReplyTo,
         MessageOf, FramesOf, Mine;
    var t := s.client;
    ServiceIsSafe(s.receiver, s.requests[0], health, port);
    if s.requests[0] == Current(t) {
      CurrentIsAnswered(s.receiver, t.request, t.sequence, health, port);
    } else {
      HeadIsForOther(s);
      Session.RepliesKeepUnused(s.receiver, s.requests[0], health, port, t.sequence);
    }
  }

  lemma ReceiptKeepsUnopposed(s: System, k: nat, retries: nat)
    requires Invariant(s) && Unopposed(s) && k < |s.replies|
    ensures Unopposed(Advance(s, Receive(k), retries))
  {
    hide Safe, RequestFrame, RequestsOk, CacheOk, OutcomeOk, IsReplyTo, MessageOf, Judge, MakeMessage, FrameOf,
         NextSequence, ReplyOk, CommandOf, Holds, Conflicts;
    var t, reply := s.client, Some(MessageOf(s.replies[k]));
    StepKeepsRequest(t, Received(reply), retries);
    var left := Without(s.replies, k);
    assert forall j :: 0 <= j < |left| ==> left[j] == s.replies[if j < k then j else j + 1];
    if t.Waiting? {
      JudgeResequencesFirst(t.request, t.sequence, t.firstAttempt, reply);
      var v := Judge(t.request, t.sequence, t.firstAttempt, reply);
      if v.Finish? && v.outcome.Refused? {
        RefusalIsRefusing(s, k);
      }
    }
  }

  lemma RefusalIsRefusing(s: System, k: nat)
    requires Invariant(s) && k < |s.replies|
    requires var v := Judge(s.client.request, s.client.sequence, s.client.firstAttempt, Some(MessageOf(s.replies[k])));
      v.Finish? && v.outcome.Refused?
    ensures Refuses(s.replies[k], s.client.request, s.client.sequence)
  {
    hide Safe, RequestFrame, RequestsOk, CacheOk, Judge, CommandOf, Holds, Conflicts, And, Shr;
    var t, frame := s.client, s.replies[k];
    var v := Judge(t.request, t.sequence, t.firstAttempt, Some(MessageOf(frame)));
    VerdictByReply(t.request, t.sequence, t.firstAttempt, Some(MessageOf(frame)));
    assert v == Finish(Refused(v.outcome.result));
    ReplyDecides(s.receiver.cache, t, frame);
  }

  lemma EventKeepsUnopposed(s: System, event: Event, retries: nat)
    requires Invariant(s) && Unopposed(s) && (event.Deliver? ==> FaultFree(event.port))
    ensures Unopposed(Advance(s, event, retries))
  {
    hide Safe, RequestFrame, Service, RequestsOk, RepliesOk, CacheOk, OutcomeOk, FaultFree, FromNode, MessageOf,
         MakeMessage, FrameOf, Without, Doubled, Refuses;
    match event
    case Deliver(health, port) =>
      if s.requests != [] {
        assert Advance(s, event, retries) == Delivered(s, health, port);
        DeliveryKeepsUnopposed(s, health, port);
      }
    case Receive(k) =>
      if k < |s.replies| {
        ReceiptKeepsUnopposed(s, k, retries);
      }
    case Timeout => StepKeepsRequest(s.client, DeadlinePassed, retries);
    case OtherTraffic(frame) =>
      if !FromNode(frame, s.client.request.destination) {
        ForeignRefusesNothing(frame, s.client.request, s.client.sequence);
      }
    case LoseReply(j) => SameReplies(s.replies, j);
    case DuplicateReply(j) => SameReplies(s.replies, j);
    case _ =>
  }

  lemma ForeignRefusesNothing(frame: Frame, request: Request, sequence: u16)
    requires !FromNode(frame, request.destination)
    ensures !Refuses(frame, request, sequence)
  {
  }

  lemma SameReplies(replies: seq<Frame>, j: nat)
    ensures forall i :: 0 <= i < |Without(replies, j)| ==> Without(replies, j)[i] in replies
    ensures forall i :: 0 <= i < |Doubled(replies, j)| ==> Doubled(replies, j)[i] in replies
  {
  }

  lemma {:induction false} RunKeepsUnopposed(s: System, events: seq<Event>, retries: nat)
    requires Invariant(s) && Unopposed(s) && WorkingHardware(events)
    ensures Unopposed(Run(s, events, retries))
    decreases |events|
  {
    hide Safe, RequestsOk, RepliesOk, CacheOk, OutcomeOk, Advance, Unopposed, FaultFree;
    if events != [] {
      RunKeepsInvariant(s, events[..|events| - 1], retries);
      RunKeepsUnopposed(s, events[..|events| - 1], retries);
      EventKeepsUnopposed(Run(s, events[..|events| - 1], retries), events[|events| - 1], retries);
    }
  }

  // The theorems

  predicate Unlocked(r: Receiver, request: Request)
  {
    r.config.safeLockout ==> request.kind == ENTER_SAFE
  }

  lemma StartIsUnopposed(
    r: Receiver, requests: seq<Frame>, replies: seq<Frame>, request: Request, sequence: u16, retries: nat)
    requires MayStart(r, requests, replies, request, sequence) && Unlocked(r, request)
    ensures Invariant(Started(r, requests, replies, request, sequence, retries))
    ensures Unopposed(Started(r, requests, replies, request, sequence, retries))
  {
    hide Safe, IsRequestTo, IsReplyTo, RequestFrame, NextSequence, MessageOf;
    StartHolds(r, requests, replies, request, sequence, retries);
  }

  /** With working hardware a call that ends is acknowledged or has run out of time; it is never refused. */
  lemma WorkingCallIsNeverRefused(
    r: Receiver, requests: seq<Frame>, replies: seq<Frame>, request: Request, sequence: u16, retries: nat,
    events: seq<Event>)
    requires MayStart(r, requests, replies, request, sequence) && Unlocked(r, request) && WorkingHardware(events)
    ensures var s := Run(Started(r, requests, replies, request, sequence, retries), events, retries);
      s.client.Over? ==> s.client.outcome == Acknowledged([request.kind, RES_OK]) || s.client.outcome == TimedOut
  {
    hide Safe, Run, IsRequestTo, IsReplyTo, NextSequence, Invariant, StateHolds, Refuses;
    StartIsUnopposed(r, requests, replies, request, sequence, retries);
    RunKeepsUnopposed(Started(r, requests, replies, request, sequence, retries), events, retries);
    EndToEndCommand(r, requests, replies, request, sequence, retries, events);
  }

  /** The i-th event brings the waiting client a reply to the message it is sending. */
  predicate HearsAnswer(start: System, events: seq<Event>, i: nat, retries: nat)
    requires ValidRequest(start.client.request) && i < |events|
  {
    var s := Run(start, events[..i], retries);
    s.client.Waiting? && events[i].Receive? && events[i].k < |s.replies|
    && IsReplyTo(s.replies[events[i].k], s.client.request.destination, s.client.sequence)
  }

  /** Hearing an answer settles the attempt: an ACK, or for a first attempt whose key is taken the next sequence. */
  lemma AnswerSettles(s: System, k: nat, retries: nat)
    requires Invariant(s) && Unopposed(s) && s.client.Waiting? && k < |s.replies|
    requires IsReplyTo(s.replies[k], s.client.request.destination, s.client.sequence)
    ensures ValidRequest(Advance(s, Receive(k), retries).client.request)
    ensures var after := Advance(s, Receive(k), retries);
      if Conflicts(s.receiver.cache, CommandNow(s.client)) then s.client.firstAttempt && !after.client.firstAttempt
      else IsAcknowledged(after)
  {
    hide Safe, RequestFrame, RequestsOk, CacheOk, IsReplyTo, MessageOf, Judge, MakeMessage, FrameOf, NextSequence,
         CommandOf, Holds, Conflicts, Without;
    var t, frame := s.client, s.replies[k];
    ReplyDecides(s.receiver.cache, t, frame);
    if Conflicts(s.receiver.cache, CommandNow(t)) {
      ConflictIsNotHeld(s.receiver.cache, CommandNow(t));
    }
    var v := Judge(t.request, t.sequence, t.firstAttempt, Some(MessageOf(frame)));
    if v.Finish? && v.outcome.Refused? {
      RefusalIsRefusing(s, k);
    } else if v.Finish? && v.outcome == TimedOut {
      VerdictByReply(t.request, t.sequence, t.firstAttempt, Some(MessageOf(frame)));
    }
  }

  /** An ended call stays as it ended, and a call does not go back to its first attempt. */
  lemma {:induction false} EndsOnce(s: System, events: seq<Event>, i: nat, retries: nat)
    requires ValidRequest(s.client.request) && i <= |events|
    ensures var early, late := Run(s, events[..i], retries).client, Run(s, events, retries).client;
      (early.Over? ==> late == early) && (!early.firstAttempt ==> !late.firstAttempt)
    decreases |events|
  {
    hide Advance;
    assert events[..|events|] == events;
    if i < |events| {
      var front := events[..|events| - 1];
      assert front[..i] == events[..i];
      EndsOnce(s, front, i, retries);
      OverStaysOver(Run(s, front, retries), events[|events| - 1], retries);
      AdvanceStaysInCall(Run(s, front, retries), events[|events| - 1], retries);
    }
  }

  lemma OverStaysOver(s: System, event: Event, retries: nat)
    requires ValidRequest(s.client.request)
    ensures s.client.Over? ==> Advance(s, event, retries).client == s.client
  {
    hide Service, FrameOf, FramesOf, Mine, Current, FromNode, Without, Doubled, MessageOf;
  }

  /**
   On every run with working hardware: once the client hears an answer to the message it is sending,
   it is acknowledged and stays so, unless that was a first attempt whose key the cache had taken;
   then it is on its second attempt for good, where any answer it hears acknowledges it.
   */
  lemma HeardCallIsAcknowledged(
    r: Receiver, requests: seq<Frame>, replies: seq<Frame>, request: Request, sequence: u16, retries: nat,
    events: seq<Event>, i: nat)
    requires MayStart(r, requests, replies, request, sequence) && Unlocked(r, request) && WorkingHardware(events)
    requires i < |events| && HearsAnswer(Started(r, requests, replies, request, sequence, retries), events, i, retries)
    ensures var start := Started(r, requests, replies, request, sequence, retries);
      var heard, s := Run(start, events[..i], retries), Run(start, events, retries);
      if Conflicts(heard.receiver.cache, CommandNow(heard.client)) then heard.client.firstAttempt && !s.client.firstAttempt
      else IsAcknowledged(s)
  {
    hide Safe, Run, Invariant, Unopposed, Advance, Conflicts, IsRequestTo, IsReplyTo, NextSequence, CommandOf, FaultFree;
    var start := Started(r, requests, replies, request, sequence, retries);
    StartIsUnopposed(r, requests, replies, request, sequence, retries);
    RunKeepsInvariant(start, events[..i], retries);
    RunKeepsUnopposed(start, events[..i], retries);
    AnswerSettles(Run(start, events[..i], retries), events[i].k, retries);
    RunOne(start, events[..i], events[i], retries);
    assert events[..i] + [events[i]] == events[..i + 1];
    EndsOnce(start, events, i + 1, retries);
  }

  /** And an answer there is, as soon as one copy of the message gets through. */
  lemma DeliveredCallIsAnswered(
    r: Receiver, requests: seq<Frame>, replies: seq<Frame>, request: Request, sequence: u16, retries: nat,
    events: seq<Event>, health: BusHealth, port: SpiPort)
    requires MayStart(r, requests, replies, request, sequence) && Unlocked(r, request)
    requires WorkingHardware(events) && FaultFree(port)
    ensures var s := Run(Started(r, requests, replies, request, sequence, retries), events, retries);
      s.requests != [] && s.requests[0] == Current(s.client) ==>
        var after := Advance(s, Deliver(health, port), retries);
        after.client == s.client && |after.replies| == |s.replies| + 1
        && IsReplyTo(after.replies[|s.replies|], request.destination, s.client.sequence)
  {
    hide Safe, Run, RequestFrame, Service, RequestsOk, RepliesOk, CacheOk, OutcomeOk, FaultFree, IsRequestTo, IsReplyTo,
         FramesOf, Mine, Refuses, NextSequence;
    var start := Started(r, requests, replies, request, sequence, retries);
    StartIsUnopposed(r, requests, replies, request, sequence, retries);
    RunKeepsInvariant(start, events, retries);
    RunKeepsUnopposed(start, events, retries);
    var s := Run(start, events, retries);
    if s.requests != [] && s.requests[0] == Current(s.client) {
      CurrentIsAnswered(s.receiver, request, s.client.sequence, health, port);
    }
  }
}
