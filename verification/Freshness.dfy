/**
 How fresh a call's sequences must be. With no request in flight but any replies whatever, this is
 exactly when the client can be led to believe that a command was carried out although the receiver's
 state does not hold it.
 */
module Freshness {
  import opened Bits
  import opened Protocol
  import opened PiProtocol
  import opened RfExecute
  import opened Runtime
  import opened RuntimeSafety
  import opened Client
  import opened EndToEnd
  import opened DeviceTruth

  /** The client would take the frame for its ACK under this sequence. */
  predicate IsAckFor(frame: Frame, request: Request, sequence: u16)
  {
    IsReplyTo(frame, request.destination, sequence) && Parse(frame.id).kind == ACK
    && MessageOf(frame).data == [request.kind, RES_OK]
  }

  /** The client would take the frame for a refusal of this sequence. */
  predicate IsReuseFor(frame: Frame, request: Request, sequence: u16)
  {
    IsReplyTo(frame, request.destination, sequence) && Parse(frame.id).kind == ERROR
    && MessageOf(frame).data == [request.kind, RES_SEQUENCE_REUSE]
  }

  predicate AckInFlight(replies: seq<Frame>, request: Request, sequence: u16)
  {
    exists i :: 0 <= i < |replies| && IsAckFor(replies[i], request, sequence)
  }

  predicate ReuseInFlight(replies: seq<Frame>, request: Request, sequence: u16)
  {
    exists i :: 0 <= i < |replies| && IsReuseFor(replies[i], request, sequence)
  }

  /** The client has its ACK, and the receiver's state does not hold the request. */
  predicate IsMisled(s: System)
    requires ValidRequest(s.client.request)
  {
    IsAcknowledged(s) && !StateHolds(s.receiver.state, s.client.request)
  }

  /** Some run misleads the client. */
  ghost predicate CanMislead(start: System, retries: nat)
    requires ValidRequest(start.client.request)
  {
    exists events: seq<Event> :: IsMisled(Run(start, events, retries))
  }

  /** What a misleading run needs, and a caller could look for before the call. */
  predicate StaleEnough(r: Receiver, replies: seq<Frame>, request: Request, first: u16)
    requires ValidRequest(request)
  {
    || AckInFlight(replies, request, first)
    || (AckInFlight(replies, request, NextSequence(first))
        && (ReuseInFlight(replies, request, first) || Conflicts(r.cache, CommandOf(request, first))))
  }

  // What keeps the client honest

  /** Nothing on the bus or in the cache can bring the waiting client to an ACK. */
  predicate Blocked(s: System, first: u16)
    requires ValidRequest(s.client.request)
  {
    var request := s.client.request;
    && !IsAcknowledged(s)
    && !AckInFlight(s.replies, request, first)
    && (!AckInFlight(s.replies, request, NextSequence(first))
        || (s.client.firstAttempt && !ReuseInFlight(s.replies, request, first)
            && !Conflicts(s.receiver.cache, CommandOf(request, first))))
  }

  /** Only this call's messages are on their way, and it is honest: what it may be told is true. */
  predicate Honest(s: System, first: u16)
  {
    var t := s.client;
    && ValidRequest(t.request) && Safe(s.receiver) && s.receiver.config.nodeId == t.request.destination
    && t.sequence == (if t.firstAttempt then first else NextSequence(first))
    && (forall i :: 0 <= i < |s.requests| ==>
          s.requests[i] == RequestFrame(t.request, first) || s.requests[i] == RequestFrame(t.request, NextSequence(first)))
    && (StateHolds(s.receiver.state, t.request) || Blocked(s, first))
  }

  /** The state goes on holding the request whatever copies of it arrive; and it does once one completes. */
  lemma ServingKeepsState(r: Receiver, request: Request, sequence: u16, health: BusHealth, port: SpiPort)
    requires Safe(r) && ValidRequest(request) && r.config.nodeId == request.destination
    ensures var out := Service(r, RequestFrame(request, sequence), health, port);
      && Safe(out.receiver) && out.receiver.config == r.config
      && (StateHolds(r.state, request) || out.disposition == Completed ==> StateHolds(out.receiver.state, request))
  {
    hide Safe, RequestFrame, Service, StateHolds, AckOf, ErrorReplies, CommandOf;
    ServiceOfRequest(r, request, sequence, health, port);
    ServiceIsSafe(r, RequestFrame(request, sequence), health, port);
    var out := Service(r, RequestFrame(request, sequence), health, port);
    EffectsByDisposition(r, RequestFrame(request, sequence), health, port);
    if out.disposition == Completed {
      HeldCommandIsInForce(out.receiver, request, sequence);
    }
  }

  /** A copy that does not complete is answered by an ERROR, by reuse only if the cache conflicts with it. */
  lemma RefusedCopy(r: Receiver, request: Request, sequence: u16, health: BusHealth, port: SpiPort)
    requires Safe(r) && ValidRequest(request) && r.config.nodeId == request.destination
    requires !StateHolds(r.state, request)
    ensures var out := Service(r, RequestFrame(request, sequence), health, port);
      out.disposition == Completed
      || (out.receiver.cache == r.cache && |out.replies| == 1
          && (forall q :: !IsAckFor(out.replies[0].frame, request, q))
          && (forall q :: IsReuseFor(out.replies[0].frame, request, q) ==>
                q == sequence && Conflicts(r.cache, CommandOf(request, sequence))))
  {
    hide Safe, RequestFrame, Service, StateHolds, AckOf, ErrorReplies, CommandOf, Conflicts, Holds, ParseId, MessageOf,
         Answers;
    var c := CommandOf(request, sequence);
    CommandFields(request, sequence);
    if Holds(r.cache, c) {
      HeldCommandIsInForce(r, request, sequence);
    }
    ServiceOfRequest(r, request, sequence, health, port);
    forall result | result in {ResultSequenceReuse, ResultBusy, ResultHardware}
      ensures |ErrorReplies(r.config.nodeId, c, result)| == 1
      ensures var frame := ErrorReplies(r.config.nodeId, c, result)[0].frame;
        Parse(frame.id) == IdFields(ERROR, CONTROLLER, c.destination, c.sequence)
        && MessageOf(frame).data == [c.kind, ResultCode(result)]
    {
      ErrorReply(r, c, result);
      ParsesAlike(ErrorReplies(r.config.nodeId, c, result)[0].frame);
    }
  }

  lemma InFlightJoins(replies: seq<Frame>, more: seq<Frame>, request: Request, sequence: u16)
    ensures AckInFlight(replies + more, request, sequence)
            <==> AckInFlight(replies, request, sequence) || AckInFlight(more, request, sequence)
    ensures ReuseInFlight(replies + more, request, sequence)
            <==> ReuseInFlight(replies, request, sequence) || ReuseInFlight(more, request, sequence)
  {
    hide IsAckFor, IsReuseFor;
    var both := replies + more;
    forall i | 0 <= i < |more|
      ensures both[|replies| + i] == more[i]
    {
    }
    forall i | 0 <= i < |replies|
      ensures both[i] == replies[i]
    {
    }
  }

  lemma InFlightShrinks(replies: seq<Frame>, i: nat, request: Request, sequence: u16)
    ensures AckInFlight(Without(replies, i), request, sequence) ==> AckInFlight(replies, request, sequence)
    ensures ReuseInFlight(Without(replies, i), request, sequence) ==> ReuseInFlight(replies, request, sequence)
    ensures AckInFlight(Doubled(replies, i), request, sequence) ==> AckInFlight(replies, request, sequence)
    ensures ReuseInFlight(Doubled(replies, i), request, sequence) ==> ReuseInFlight(replies, request, sequence)
  {
    hide IsAckFor, IsReuseFor;
    forall frame | frame in Without(replies, i) || frame in Doubled(replies, i)
      ensures frame in replies
    {
    }
    assert forall s: seq<Frame> :: AckInFlight(s, request, sequence) <==> exists f :: f in s && IsAckFor(f, request, sequence);
    assert forall s: seq<Frame> :: ReuseInFlight(s, request, sequence) <==> exists f :: f in s && IsReuseFor(f, request, sequence);
  }

  lemma DeliveryKeepsHonest(s: System, health: BusHealth, port: SpiPort, first: u16)
    requires Honest(s, first) && s.requests != []
    ensures Honest(Delivered(s, health, port), first)
  {
    hide Safe, RequestFrame, Service, StateHolds, CommandOf, NextSequence, Conflicts, IsAckFor, IsReuseFor, FramesOf, Mine;
    var t := s.client;
    var q := if s.requests[0] == RequestFrame(t.request, first) then first else NextSequence(first);
    SequencesDiffer(first);
    ServingKeepsState(s.receiver, t.request, q, health, port);
    var out := Service(s.receiver, s.requests[0], health, port);
    if !StateHolds(out.receiver.state, t.request) {
      RefusedCopy(s.receiver, t.request, q, health, port);
      OneFrame(out.replies);
      InFlightJoins(s.replies, FramesOf(out.replies), t.request, first);
      InFlightJoins(s.replies, FramesOf(out.replies), t.request, NextSequence(first));
    }
  }

  lemma OneFrame(replies: seq<Reply>)
    requires |replies| == 1
    ensures FramesOf(replies) == [replies[0].frame]
  {
  }

  lemma ReceiptKeepsHonest(s: System, k: nat, retries: nat, first: u16)
    requires Honest(s, first) && k < |s.replies|
    ensures Honest(Advance(s, Receive(k), retries), first)
  {
    hide Safe, RequestFrame, StateHolds, CommandOf, NextSequence, Conflicts, IsAckFor, IsReuseFor, MessageOf, FrameOf,
         Judge, MakeMessage, Without, AckInFlight, ReuseInFlight;
    var t, frame := s.client, s.replies[k];
    var event := Received(Some(MessageOf(frame)));
    StepKeepsRequest(t, event, retries);
    InFlightShrinks(s.replies, k, t.request, first);
    InFlightShrinks(s.replies, k, t.request, NextSequence(first));
    if t.Waiting? {
      JudgeResequencesFirst(t.request, t.sequence, t.firstAttempt, event.reply);
      DecisiveReply(s, k);
    }
  }

  /** Only an ACK for the current sequence acknowledges, and only a refusal of it resequences. */
  lemma DecisiveReply(s: System, k: nat)
    requires k < |s.replies|
    ensures var t := s.client;
      var v := Judge(t.request, t.sequence, t.firstAttempt, Some(MessageOf(s.replies[k])));
      && (v.Finish? && v.outcome.Acknowledged? ==> AckInFlight(s.replies, t.request, t.sequence))
      && (v == Resequence ==> t.firstAttempt && ReuseInFlight(s.replies, t.request, t.sequence))
  {
    hide And, Shr, Judge;
    var t, frame := s.client, s.replies[k];
    VerdictByReply(t.request, t.sequence, t.firstAttempt, Some(MessageOf(frame)));
    var v := Judge(t.request, t.sequence, t.firstAttempt, Some(MessageOf(frame)));
    if v.Finish? && v.outcome.Acknowledged? {
      assert v == Finish(Acknowledged(v.outcome.data));
      assert IsAckFor(frame, t.request, t.sequence);
    } else if v == Resequence {
      assert IsReuseFor(frame, t.request, t.sequence);
    }
  }

  lemma TimeoutKeepsHonest(s: System, retries: nat, first: u16)
    requires Honest(s, first)
    ensures Honest(Advance(s, Timeout, retries), first)
  {
    hide Safe, RequestFrame, StateHolds, CommandOf, NextSequence, Conflicts, AckInFlight, ReuseInFlight, FrameOf,
         MakeMessage;
    StepKeepsRequest(s.client, DeadlinePassed, retries);
  }

  lemma EventKeepsHonest(s: System, event: Event, retries: nat, first: u16)
    requires Honest(s, first)
    ensures Honest(Advance(s, event, retries), first)
  {
    hide Safe, RequestFrame, StateHolds, CommandOf, NextSequence, Conflicts, AckInFlight, ReuseInFlight, Service, React,
         FromNode;
    var request := s.client.request;
    match event
    case Deliver(health, port) =>
      if s.requests != [] {
        assert Advance(s, event, retries) == Delivered(s, health, port);
        DeliveryKeepsHonest(s, health, port, first);
      }
    case LoseReply(j) =>
      InFlightShrinks(s.replies, j, request, first);
      InFlightShrinks(s.replies, j, request, NextSequence(first));
    case DuplicateReply(j) =>
      InFlightShrinks(s.replies, j, request, first);
      InFlightShrinks(s.replies, j, request, NextSequence(first));
    case OtherTraffic(frame) =>
      if !FromNode(frame, request.destination) {
        ForeignFrame(frame, request, first);
        ForeignFrame(frame, request, NextSequence(first));
        InFlightJoins(s.replies, [frame], request, first);
        InFlightJoins(s.replies, [frame], request, NextSequence(first));
      }
    case Timeout => TimeoutKeepsHonest(s, retries, first);
    case Receive(k) =>
      if k < |s.replies| {
        ReceiptKeepsHonest(s, k, retries, first);
      }
    case _ =>
  }

  lemma ForeignFrame(frame: Frame, request: Request, sequence: u16)
    requires !FromNode(frame, request.destination)
    ensures !AckInFlight([frame], request, sequence) && !ReuseInFlight([frame], request, sequence)
  {
  }

  lemma {:induction false} RunKeepsHonest(s: System, events: seq<Event>, retries: nat, first: u16)
    requires Honest(s, first)
    ensures Honest(Run(s, events, retries), first)
    decreases |events|
  {
    hide Safe, RequestFrame, StateHolds, Blocked, Advance;
    if events != [] {
      RunKeepsHonest(s, events[..|events| - 1], retries, first);
      EventKeepsHonest(Run(s, events[..|events| - 1], retries), events[|events| - 1], retries, first);
    }
  }

  // What misleads it

  lemma StaleAckIsTaken(s: System, k: nat, retries: nat)
    requires ValidRequest(s.client.request) && s.client.Waiting? && k < |s.replies|
    requires IsAckFor(s.replies[k], s.client.request, s.client.sequence)
    ensures var after := Advance(s, Receive(k), retries);
      IsAcknowledged(after) && after.receiver == s.receiver && after.client.request == s.client.request
  {
    hide And, Shr, MakeMessage, NextSequence, FrameOf, Without;
  }

  lemma MisledAtOnce(s: System, k: nat, retries: nat)
    requires ValidRequest(s.client.request) && s.client.Waiting? && k < |s.replies|
    requires IsAckFor(s.replies[k], s.client.request, s.client.sequence)
    requires !StateHolds(s.receiver.state, s.client.request)
    ensures CanMislead(s, retries)
  {
    hide IsAckFor, StateHolds, Advance;
    RunOne(s, [], Receive(k), retries);
    StaleAckIsTaken(s, k, retries);
    assert IsMisled(Run(s, [] + [Receive(k)], retries));
  }

  /** If a run can be misled after one event, it can be misled. */
  lemma MisledAfter(s: System, event: Event, retries: nat)
    requires ValidRequest(s.client.request)
    requires ValidRequest(Advance(s, event, retries).client.request) && CanMislead(Advance(s, event, retries), retries)
    ensures CanMislead(s, retries)
  {
    hide Advance, IsMisled;
    var events :| IsMisled(Run(Advance(s, event, retries), events, retries));
    RunFirst(s, event, events, retries);
    assert IsMisled(Run(s, [event] + events, retries));
  }

  lemma {:induction false} RunFirst(s: System, event: Event, events: seq<Event>, retries: nat)
    requires ValidRequest(s.client.request)
    ensures ValidRequest(Advance(s, event, retries).client.request)
    ensures Run(s, [event] + events, retries) == Run(Advance(s, event, retries), events, retries)
    decreases |events|
  {
    hide Advance;
    AdvanceKeepsRequest(s, event, retries);
    RunOne(s, [], event, retries);
    if events == [] {
      assert [event] + events == [] + [event];
    } else {
      var front, last := events[..|events| - 1], events[|events| - 1];
      RunFirst(s, event, front, retries);
      RunOne(s, [event] + front, last, retries);
      assert [event] + events == [event] + front + [last];
    }
  }

  /** A refusal and then an ACK for the sequence after it. */
  lemma MisledAfterRefusal(s: System, i: nat, retries: nat)
    requires ValidRequest(s.client.request) && s.client.Waiting? && s.client.firstAttempt
    requires i < |s.replies| && IsReuseFor(s.replies[i], s.client.request, s.client.sequence)
    requires AckInFlight(s.replies, s.client.request, NextSequence(s.client.sequence))
    requires !StateHolds(s.receiver.state, s.client.request)
    ensures CanMislead(s, retries)
  {
    hide IsAckFor, StateHolds, Advance, NextSequence, Current, IsReplyTo, MessageOf, Parse, CanMislead;
    var request, q := s.client.request, NextSequence(s.client.sequence);
    RefusalResequences(s, i, retries);
    var j :| 0 <= j < |s.replies| && IsAckFor(s.replies[j], request, q);
    AckIsNoRefusal(s.replies[i], request, s.client.sequence, q);
    var after := Advance(s, Receive(i), retries);
    var k := if j < i then j else j - 1;
    assert after.replies[k] == s.replies[j];
    MisledAtOnce(after, k, retries);
    MisledAfter(s, Receive(i), retries);
  }

  lemma AckIsNoRefusal(frame: Frame, request: Request, q1: u16, q2: u16)
    requires IsReuseFor(frame, request, q1)
    ensures !IsAckFor(frame, request, q2)
  {
    hide And, Shr;
  }

  lemma MisledByConflict(r: Receiver, replies: seq<Frame>, request: Request, sequence: u16, retries: nat)
    requires Safe(r) && ValidRequest(request) && r.config.nodeId == request.destination
    requires !StateHolds(r.state, request)
    requires Conflicts(r.cache, CommandOf(request, NextSequence(sequence)))
    requires AckInFlight(replies, request, NextSequence(NextSequence(sequence)))
    ensures CanMislead(Started(r, [], replies, request, sequence, retries), retries)
  {
    hide Safe, Conflicts, StateHolds, CommandOf, IsAckFor, RequestFrame, NextSequence, Advance, IsReplyTo, MessageOf,
         Parse, CanMislead, Service;
    var start := Started(r, [], replies, request, sequence, retries);
    var health, port := BusHealth(0, 0, false), (i: nat) => SpiOk;
    assert [] + [Current(start.client)] == [Current(start.client)];
    RefusedDelivery(start, retries, health, port);
    RefusalChangesNoState(r, request, NextSequence(sequence), health, port);
    var after := Advance(start, Deliver(health, port), retries);
    var j :| 0 <= j < |replies| && IsAckFor(replies[j], request, NextSequence(NextSequence(sequence)));
    assert after.replies[j] == after.replies[..|replies|][j];
    MisledAfterRefusal(after, |replies|, retries);
    MisledAfter(start, Deliver(health, port), retries);
  }

  lemma RefusalChangesNoState(r: Receiver, request: Request, sequence: u16, health: BusHealth, port: SpiPort)
    requires Safe(r) && ValidRequest(request) && r.config.nodeId == request.destination
    requires Conflicts(r.cache, CommandOf(request, sequence))
    ensures Service(r, RequestFrame(request, sequence), health, port).receiver.state == r.state
  {
    hide Safe, RequestFrame, Service, Conflicts, CommandOf, Holds;
    ConflictIsNotHeld(r.cache, CommandOf(request, sequence));
    ServiceOfRequest(r, request, sequence, health, port);
    EffectsByDisposition(r, RequestFrame(request, sequence), health, port);
  }

  /**
   Exactly when a call over a quiet request channel can be misled: the state does not already hold
   the request, and an ACK is in flight for its first sequence, or for its second together with
   something that makes the client move on to it: a refusal in flight, or one the cache will earn.
   */
  lemma MisledExactly(r: Receiver, replies: seq<Frame>, request: Request, sequence: u16, retries: nat)
    requires Safe(r) && ValidRequest(request) && r.config.nodeId == request.destination
    ensures CanMislead(Started(r, [], replies, request, sequence, retries), retries)
            <==> !StateHolds(r.state, request) && StaleEnough(r, replies, request, NextSequence(sequence))
  {
    hide Safe, RequestFrame, StateHolds, Conflicts, CommandOf, NextSequence, IsAckFor, IsReuseFor, Run;
    var start, first := Started(r, [], replies, request, sequence, retries), NextSequence(sequence);
    if StateHolds(r.state, request) || !StaleEnough(r, replies, request, first) {
      assert Honest(start, first);
      forall events: seq<Event>
        ensures !IsMisled(Run(start, events, retries))
      {
        RunKeepsHonest(start, events, retries, first);
      }
    } else if AckInFlight(replies, request, first) {
      var k :| 0 <= k < |replies| && IsAckFor(replies[k], request, first);
      MisledAtOnce(start, k, retries);
    } else if ReuseInFlight(replies, request, first) {
      var i :| 0 <= i < |replies| && IsReuseFor(replies[i], request, first);
      MisledAfterRefusal(start, i, retries);
    } else {
      MisledByConflict(r, replies, request, sequence, retries);
    }
  }
}
