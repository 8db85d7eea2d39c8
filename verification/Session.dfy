/**
 Call after call on one client: why the freshness that a single call needs comes for free. A call
 uses up at most two sequence numbers, and nothing in the system makes a frame for a number the
 client has not reached; so a client that starts on a quiet bus may make 32767 calls before the
 16-bit counter comes round and an old frame could be taken for a new one.
 */
module Session {
  import opened Bits
  import opened Protocol
  import opened RfExecute
  import opened Runtime
  import opened RuntimeSafety
  import opened Client
  import opened EndToEnd
  import opened DeviceTruth

  /** No frame in flight, in either direction, carries the sequence. */
  predicate Unused(requests: seq<Frame>, replies: seq<Frame>, node: u8, sequence: u16)
  {
    && (forall i :: 0 <= i < |requests| ==> !IsRequestTo(requests[i], node, sequence))
    && (forall i :: 0 <= i < |replies| ==> !IsReplyTo(replies[i], node, sequence))
  }

  /** The transaction is not sending under the sequence and will not come to. */
  predicate Avoids(t: Transaction, sequence: u16)
  {
    sequence != t.sequence && (t.firstAttempt ==> sequence != NextSequence(t.sequence))
  }

  // One call leaves the other sequences alone

  /** A reply carries the sequence of the request it answers. */
  lemma RepliesKeepUnused(r: Receiver, frame: Frame, health: BusHealth, port: SpiPort, sequence: u16)
    requires Safe(r) && !IsRequestTo(frame, r.config.nodeId, sequence)
    ensures Unused([], FramesOf(Service(r, frame, health, port).replies), r.config.nodeId, sequence)
  {
    hide Safe, Service, ParseId;
    ReplyDiscipline(r, frame, health, port);
    var replies := Service(r, frame, health, port).replies;
    if replies != [] {
      ParsesAlike(replies[0].frame);
    }
  }

  lemma UnusedJoin(r1: seq<Frame>, a1: seq<Frame>, r2: seq<Frame>, a2: seq<Frame>, node: u8, sequence: u16)
    requires Unused(r1, a1, node, sequence) && Unused(r2, a2, node, sequence)
    ensures Unused(r1 + r2, a1 + a2, node, sequence)
  {
    hide IsRequestTo, IsReplyTo;
  }

  lemma UnusedWithout(requests: seq<Frame>, replies: seq<Frame>, node: u8, sequence: u16, i: nat)
    requires Unused(requests, replies, node, sequence)
    ensures Unused(Without(requests, i), replies, node, sequence)
    ensures Unused(requests, Without(replies, i), node, sequence)
  {
    hide IsRequestTo, IsReplyTo;
  }

  lemma UnusedDoubled(requests: seq<Frame>, replies: seq<Frame>, node: u8, sequence: u16, i: nat)
    requires Unused(requests, replies, node, sequence)
    ensures Unused(Doubled(requests, i), replies, node, sequence)
    ensures Unused(requests, Doubled(replies, i), node, sequence)
  {
    hide IsRequestTo, IsReplyTo;
  }

  lemma ReactKeepsUnused(s: System, event: ClientEvent, retries: nat, sequence: u16)
    requires ValidRequest(s.client.request) && Avoids(s.client, sequence)
    requires Unused(s.requests, s.replies, s.client.request.destination, sequence)
    ensures var after := React(s, event, retries);
      Avoids(after.client, sequence)
      && Unused(after.requests, after.replies, after.client.request.destination, sequence)
  {
    hide IsRequestTo, IsReplyTo, RequestFrame, NextSequence, MakeMessage, Judge, FrameOf;
    StepKeepsRequest(s.client, event, retries);
    var r := ClientStep(s.client, event, retries);
    CurrentIsAddressed(s.client.request, r.transaction.sequence, sequence);
    if event.Received? {
      JudgeResequencesFirst(s.client.request, s.client.sequence, s.client.firstAttempt, event.reply);
    }
  }

  lemma AdvanceKeepsUnused(s: System, event: Event, retries: nat, sequence: u16)
    requires Invariant(s) && Avoids(s.client, sequence)
    requires Unused(s.requests, s.replies, s.client.request.destination, sequence)
    ensures var after := Advance(s, event, retries);
      Avoids(after.client, sequence)
      && Unused(after.requests, after.replies, after.client.request.destination, sequence)
  {
    hide IsRequestTo, IsReplyTo, FromNode, RequestFrame, NextSequence, Service, Safe, React, RequestsOk, RepliesOk,
         CacheOk, OutcomeOk, Without, Doubled, MessageOf, Unused;
    var node := s.client.request.destination;
    match event
    case Deliver(health, port) =>
      if s.requests != [] {
        DeliveryKeepsUnused(s, health, port, sequence);
      }
    case LoseRequest(i) => UnusedWithout(s.requests, s.replies, node, sequence, i);
    case LoseReply(j) => UnusedWithout(s.requests, s.replies, node, sequence, j);
    case DuplicateRequest(i) => UnusedDoubled(s.requests, s.replies, node, sequence, i);
    case DuplicateReply(j) => UnusedDoubled(s.requests, s.replies, node, sequence, j);
    case OtherTraffic(frame) =>
      if !FromNode(frame, node) {
        OneForeignFrame(frame, node, sequence);
        UnusedJoin(s.requests, s.replies, [], [frame], node, sequence);
        assert s.requests + [] == s.requests;
      }
    case Timeout => ReactKeepsUnused(s, DeadlinePassed, retries, sequence);
    case Receive(k) =>
      if k < |s.replies| {
        UnusedWithout(s.requests, s.replies, node, sequence, k);
        ReactKeepsUnused(s.(replies := Without(s.replies, k)), Received(Some(MessageOf(s.replies[k]))), retries, sequence);
      }
  }

  lemma OneForeignFrame(frame: Frame, node: u8, sequence: u16)
    requires !FromNode(frame, node)
    ensures Unused([], [frame], node, sequence)
  {
  }

  lemma DeliveryKeepsUnused(s: System, health: BusHealth, port: SpiPort, sequence: u16)
    requires Invariant(s) && s.requests != []
    requires Unused(s.requests, s.replies, s.client.request.destination, sequence)
    ensures var after := Delivered(s, health, port);
      Unused(after.requests, after.replies, s.client.request.destination, sequence)
  {
    hide IsRequestTo, IsReplyTo, RequestFrame, Service, Safe, RequestsOk, RepliesOk, CacheOk, OutcomeOk, Mine, Current;
    var node := s.client.request.destination;
    RepliesKeepUnused(s.receiver, s.requests[0], health, port, sequence);
    var more := FramesOf(Service(s.receiver, s.requests[0], health, port).replies);
    UnusedJoin(s.requests[1..], s.replies, [], more, node, sequence);
    assert s.requests[1..] + [] == s.requests[1..];
  }

  lemma {:induction false} RunKeepsUnused(s: System, events: seq<Event>, retries: nat, sequence: u16)
    requires Invariant(s) && Avoids(s.client, sequence)
    requires Unused(s.requests, s.replies, s.client.request.destination, sequence)
    ensures var after := Run(s, events, retries);
      Avoids(after.client, sequence)
      && Unused(after.requests, after.replies, after.client.request.destination, sequence)
    decreases |events|
  {
    hide Safe, RequestsOk, RepliesOk, CacheOk, OutcomeOk, Advance, Unused, Avoids;
    if events != [] {
      RunKeepsInvariant(s, events[..|events| - 1], retries);
      RunKeepsUnused(s, events[..|events| - 1], retries, sequence);
      AdvanceKeepsUnused(Run(s, events[..|events| - 1], retries), events[|events| - 1], retries, sequence);
    }
  }

  // The sequences still ahead

  /** The sequence `k` steps on. */
  function Ahead(sequence: u16, k: nat): u16
  {
    (sequence + k) % 0x1_0000
  }

  lemma AheadOfAhead(sequence: u16, j: nat, k: nat)
    ensures Ahead(Ahead(sequence, j), k) == Ahead(sequence, j + k)
    ensures NextSequence(sequence) == Ahead(sequence, 1)
    ensures NextSequence(NextSequence(sequence)) == Ahead(sequence, 2)
  {
    NextSequenceWraps(sequence);
    NextSequenceWraps(NextSequence(sequence));
    hide NextSequence;
    var whole := sequence + j;
    ModIs(whole + k, whole / 0x1_0000 + (whole % 0x1_0000 + k) / 0x1_0000, 0x1_0000,
          (whole % 0x1_0000 + k) % 0x1_0000);
    var s1 := sequence + 1;
    ModIs(s1 + 1, s1 / 0x1_0000 + (s1 % 0x1_0000 + 1) / 0x1_0000, 0x1_0000, (s1 % 0x1_0000 + 1) % 0x1_0000);
  }

  lemma AheadDiffer(sequence: u16, j: nat, k: nat)
    requires j < k < j + 0x1_0000
    ensures Ahead(sequence, j) != Ahead(sequence, k)
  {
    if Ahead(sequence, j) == Ahead(sequence, k) {
      MulIsZeroOrLarge((sequence + k) / 0x1_0000 - (sequence + j) / 0x1_0000, 0x1_0000);
      assert false;
    }
  }

  /** None of the next `n` sequences is in flight. */
  predicate Window(requests: seq<Frame>, replies: seq<Frame>, node: u8, sequence: u16, n: nat)
  {
    forall k: nat :: 1 <= k <= n ==> Unused(requests, replies, node, Ahead(sequence, k))
  }

  /** A call at the front of a window of `n + 2` sequences leaves one of at least `n` behind it. */
  lemma CallKeepsWindow(
    r: Receiver, requests: seq<Frame>, replies: seq<Frame>, request: Request, sequence: u16, retries: nat,
    events: seq<Event>, n: nat)
    requires Safe(r) && ValidRequest(request) && r.config.nodeId == request.destination
    requires n + 2 <= 0xffff && Window(requests, replies, request.destination, sequence, n + 2)
    ensures MayStart(r, requests, replies, request, sequence)
    ensures Invariant(Started(r, requests, replies, request, sequence, retries))
    ensures var s := Run(Started(r, requests, replies, request, sequence, retries), events, retries);
      Safe(s.receiver) && s.receiver.config.nodeId == request.destination
      && Window(s.requests, s.replies, request.destination, s.client.sequence, n)
  {
    hide Safe, IsRequestTo, IsReplyTo, Unused, Ahead, NextSequence, RequestFrame, Run;
    AheadOfAhead(sequence, 0, 0);
    WindowStarts(r, requests, replies, request, sequence);
    StartHolds(r, requests, replies, request, sequence, retries);
    var start := Started(r, requests, replies, request, sequence, retries);
    var s := Run(start, events, retries);
    RunKeepsInvariant(start, events, retries);
    RunStaysInCall(start, events, retries);
    var used := if s.client.firstAttempt then 1 else 2;
    assert s.client.sequence == Ahead(sequence, used);
    forall k: nat | 1 <= k <= n
      ensures Unused(s.requests, s.replies, request.destination, Ahead(s.client.sequence, k))
    {
      AheadOfAhead(sequence, used, k);
      if used + k == 2 {
        SecondStaysUnused(s);
      } else {
        LaterStaysUnused(r, requests, replies, request, sequence, retries, events, used + k);
      }
    }
  }

  lemma WindowStarts(r: Receiver, requests: seq<Frame>, replies: seq<Frame>, request: Request, sequence: u16)
    requires Safe(r) && ValidRequest(request) && r.config.nodeId == request.destination
    requires Window(requests, replies, request.destination, sequence, 2)
    ensures MayStart(r, requests, replies, request, sequence)
  {
    hide Safe, IsRequestTo, IsReplyTo, Ahead, NextSequence;
    AheadOfAhead(sequence, 0, 0);
    assert Unused(requests, replies, request.destination, Ahead(sequence, 1));
    assert Unused(requests, replies, request.destination, Ahead(sequence, 2));
  }

  /** The call is under its first sequence or, after resequencing, under the next. */
  lemma {:induction false} RunStaysInCall(s: System, events: seq<Event>, retries: nat)
    requires Invariant(s) && s.client.firstAttempt
    ensures var t := Run(s, events, retries).client;
      t.sequence == if t.firstAttempt then s.client.sequence else NextSequence(s.client.sequence)
    decreases |events|
  {
    hide Safe, RequestsOk, RepliesOk, CacheOk, OutcomeOk, Advance, NextSequence;
    if events != [] {
      RunStaysInCall(s, events[..|events| - 1], retries);
      AdvanceStaysInCall(Run(s, events[..|events| - 1], retries), events[|events| - 1], retries);
    }
  }

  /** Before any resequencing nothing carries the second sequence: part of the invariant. */
  lemma SecondStaysUnused(s: System)
    requires Invariant(s) && s.client.firstAttempt
    ensures Unused(s.requests, s.replies, s.client.request.destination, NextSequence(s.client.sequence))
  {
    hide Safe, IsRequestTo, IsReplyTo, ReplyOk, CacheOk, OutcomeOk, NextSequence, RequestFrame;
    var q := NextSequence(s.client.sequence);
    SequencesDiffer(s.client.sequence);
    CurrentIsAddressed(s.client.request, s.client.sequence, q);
  }

  /** A call that starts under the next sequence avoids every later one but the next but one. */
  lemma LaterIsAvoided(
    r: Receiver, requests: seq<Frame>, replies: seq<Frame>, request: Request, sequence: u16, retries: nat, j: nat)
    requires ValidRequest(request) && 3 <= j <= 0xffff
    requires Unused(requests, replies, request.destination, Ahead(sequence, j))
    ensures var start := Started(r, requests, replies, request, sequence, retries);
      Avoids(start.client, Ahead(sequence, j))
      && Unused(start.requests, start.replies, request.destination, Ahead(sequence, j))
  {
    hide IsRequestTo, IsReplyTo, Ahead, NextSequence, RequestFrame;
    var start, q := Started(r, requests, replies, request, sequence, retries), Ahead(sequence, j);
    AheadOfAhead(sequence, 0, 0);
    AheadDiffer(sequence, 1, j);
    AheadDiffer(sequence, 2, j);
    CurrentIsAddressed(request, start.client.sequence, q);
    assert Unused([Current(start.client)], [], request.destination, q);
    UnusedJoin(requests, replies, [Current(start.client)], [], request.destination, q);
    assert replies + [] == replies;
  }

  lemma LaterStaysUnused(
    r: Receiver, requests: seq<Frame>, replies: seq<Frame>, request: Request, sequence: u16, retries: nat,
    events: seq<Event>, j: nat)
    requires ValidRequest(request) && 3 <= j <= 0xffff
    requires Invariant(Started(r, requests, replies, request, sequence, retries))
    requires Unused(requests, replies, request.destination, Ahead(sequence, j))
    ensures var s := Run(Started(r, requests, replies, request, sequence, retries), events, retries);
      Unused(s.requests, s.replies, s.client.request.destination, Ahead(sequence, j))
  {
    hide IsRequestTo, IsReplyTo, Ahead, NextSequence, RequestFrame, Run, Invariant, Unused, Avoids;
    LaterIsAvoided(r, requests, replies, request, sequence, retries, j);
    RunKeepsUnused(Started(r, requests, replies, request, sequence, retries), events, retries, Ahead(sequence, j));
  }

  // The sequence in the cache

  /** The cached ACK, if there is one, is not for this sequence. */
  predicate CacheAvoids(cache: ReplayCache, sequence: u16)
  {
    cache.Cached? ==> cache.command.sequence != sequence
  }

  lemma DeliveryKeepsCache(s: System, health: BusHealth, port: SpiPort, sequence: u16)
    requires Invariant(s) && s.requests != [] && CacheAvoids(s.receiver.cache, sequence)
    requires !IsRequestTo(s.requests[0], s.client.request.destination, sequence)
    ensures CacheAvoids(Delivered(s, health, port).receiver.cache, sequence)
  {
    hide Safe, IsRequestTo, RequestFrame, Service, RequestsOk, RepliesOk, CacheOk, OutcomeOk;
    CacheComesFrom(s.receiver, s.requests[0], health, port);
  }

  /** A sequence no frame carries does not get into the cache. */
  lemma {:induction false} RunKeepsCache(s: System, events: seq<Event>, retries: nat, sequence: u16)
    requires Invariant(s) && Avoids(s.client, sequence) && CacheAvoids(s.receiver.cache, sequence)
    requires Unused(s.requests, s.replies, s.client.request.destination, sequence)
    ensures CacheAvoids(Run(s, events, retries).receiver.cache, sequence)
    decreases |events|
  {
    hide Safe, IsRequestTo, IsReplyTo, RequestsOk, RepliesOk, CacheOk, OutcomeOk, Avoids, CacheAvoids, React, Service,
         Current, Mine;
    if events != [] {
      var front, last := events[..|events| - 1], events[|events| - 1];
      var before := Run(s, front, retries);
      RunKeepsInvariant(s, front, retries);
      RunKeepsUnused(s, front, retries, sequence);
      RunKeepsCache(s, front, retries, sequence);
      EventLeavesCache(before, last, retries);
      if last.Deliver? && before.requests != [] {
        DeliveryKeepsCache(before, last.health, last.port, sequence);
      }
    }
  }

  /** Only a delivery touches the receiver. */
  lemma EventLeavesCache(s: System, event: Event, retries: nat)
    requires ValidRequest(s.client.request)
    ensures var after := Advance(s, event, retries);
      if event.Deliver? && s.requests != [] then
        after.receiver == Service(s.receiver, s.requests[0], event.health, event.port).receiver
      else after.receiver == s.receiver
  {
    hide Service, ClientStep, FrameOf, FramesOf, Mine, Current, FromNode, Without, Doubled, MessageOf;
  }

  /** Before any resequencing the second sequence is not in the cache either. */
  lemma {:induction false} RunKeepsSecondOutOfCache(s: System, events: seq<Event>, retries: nat)
    requires Invariant(s) && s.client.firstAttempt && CacheAvoids(s.receiver.cache, NextSequence(s.client.sequence))
    ensures var after := Run(s, events, retries);
      after.client.firstAttempt ==> CacheAvoids(after.receiver.cache, NextSequence(s.client.sequence))
    decreases |events|
  {
    hide Safe, IsRequestTo, IsReplyTo, RequestsOk, RepliesOk, CacheOk, OutcomeOk, CacheAvoids, React, Service,
         Current, Mine, NextSequence, Advance;
    if events != [] {
      var front, last := events[..|events| - 1], events[|events| - 1];
      var before := Run(s, front, retries);
      RunKeepsInvariant(s, front, retries);
      RunStaysInCall(s, front, retries);
      RunKeepsSecondOutOfCache(s, front, retries);
      AdvanceStaysInCall(before, last, retries);
      EventLeavesCache(before, last, retries);
      if before.client.firstAttempt && last.Deliver? && before.requests != [] {
        SecondStaysUnused(before);
        assert !IsRequestTo(before.requests[0], before.client.request.destination, NextSequence(s.client.sequence));
        DeliveryKeepsCache(before, last.health, last.port, NextSequence(s.client.sequence));
        assert Delivered(before, last.health, last.port).receiver.cache
            == Service(before.receiver, before.requests[0], last.health, last.port).receiver.cache by {
          EventLeavesCache(before, Deliver(last.health, last.port), 0);
        }
      }
    }
  }

  predicate CacheWindow(cache: ReplayCache, sequence: u16, n: nat)
  {
    forall k: nat :: 1 <= k <= n ==> CacheAvoids(cache, Ahead(sequence, k))
  }

  lemma CallKeepsCacheWindow(
    r: Receiver, requests: seq<Frame>, replies: seq<Frame>, request: Request, sequence: u16, retries: nat,
    events: seq<Event>, n: nat)
    requires MayStart(r, requests, replies, request, sequence)
    requires n + 2 <= 0xffff && Window(requests, replies, request.destination, sequence, n + 2)
    requires CacheWindow(r.cache, sequence, n + 2)
    ensures var s := Run(Started(r, requests, replies, request, sequence, retries), events, retries);
      CacheWindow(s.receiver.cache, s.client.sequence, n)
  {
    hide Safe, IsRequestTo, IsReplyTo, Unused, Ahead, NextSequence, RequestFrame, Run, CacheAvoids;
    AheadOfAhead(sequence, 0, 0);
    StartHolds(r, requests, replies, request, sequence, retries);
    var start := Started(r, requests, replies, request, sequence, retries);
    var s := Run(start, events, retries);
    RunStaysInCall(start, events, retries);
    var used := if s.client.firstAttempt then 1 else 2;
    forall k: nat | 1 <= k <= n
      ensures CacheAvoids(s.receiver.cache, Ahead(s.client.sequence, k))
    {
      AheadOfAhead(sequence, used, k);
      if used + k == 2 {
        RunKeepsSecondOutOfCache(start, events, retries);
      } else {
        LaterStaysOutOfCache(r, requests, replies, request, sequence, retries, events, used + k);
      }
    }
  }

  lemma LaterStaysOutOfCache(
    r: Receiver, requests: seq<Frame>, replies: seq<Frame>, request: Request, sequence: u16, retries: nat,
    events: seq<Event>, j: nat)
    requires ValidRequest(request) && 3 <= j <= 0xffff
    requires Invariant(Started(r, requests, replies, request, sequence, retries))
    requires Unused(requests, replies, request.destination, Ahead(sequence, j))
    requires CacheAvoids(r.cache, Ahead(sequence, j))
    ensures CacheAvoids(
              Run(Started(r, requests, replies, request, sequence, retries), events, retries).receiver.cache,
              Ahead(sequence, j))
  {
    hide IsRequestTo, IsReplyTo, Ahead, NextSequence, RequestFrame, Run, Invariant, CacheAvoids;
    LaterIsAvoided(r, requests, replies, request, sequence, retries, j);
    RunKeepsCache(Started(r, requests, replies, request, sequence, retries), events, retries, Ahead(sequence, j));
  }

  // Call after call

  /** One call, and everything that happens on the bus from its first message to the next call's. */
  datatype Turn = Turn(request: Request, events: seq<Event>)

  predicate MayRun(r: Receiver, requests: seq<Frame>, replies: seq<Frame>, sequence: u16, turns: seq<Turn>)
  {
    && Safe(r) && 2 * |turns| <= 0xffff
    && (forall i :: 0 <= i < |turns| ==>
          ValidRequest(turns[i].request) && turns[i].request.destination == r.config.nodeId)
    && Window(requests, replies, r.config.nodeId, sequence, 2 * |turns|)
  }

  /** The system at the end of each turn. A call that has not ended is the last one. */
  function Calls(
    r: Receiver, requests: seq<Frame>, replies: seq<Frame>, sequence: u16, turns: seq<Turn>, retries: nat)
    : (ends: seq<System>)
    requires MayRun(r, requests, replies, sequence, turns)
    ensures |ends| <= |turns|
    decreases |turns|
  {
    if turns == [] then []
    else
      var now := turns[0];
      CallKeepsWindow(r, requests, replies, now.request, sequence, retries, now.events, 2 * (|turns| - 1));
      var s := Run(Started(r, requests, replies, now.request, sequence, retries), now.events, retries);
      if s.client.Waiting? then [s]
      else [s] + Calls(s.receiver, s.requests, s.replies, s.client.sequence, turns[1..], retries)
  }

  /**
   Every call of a session means what it says: its ACK shows that the receiver's state holds what
   that call asked for, its plan was carried out at most once, and it never ends in a protocol
   violation or a sequence-reuse error, however the earlier calls ended.
   */
  lemma {:induction false} EveryCallIsTruthful(
    r: Receiver, requests: seq<Frame>, replies: seq<Frame>, sequence: u16, turns: seq<Turn>, retries: nat)
    requires MayRun(r, requests, replies, sequence, turns)
    ensures var ends := Calls(r, requests, replies, sequence, turns, retries);
      forall i :: 0 <= i < |ends| ==> ValidRequest(turns[i].request) && Truthful(ends[i], turns[i].request)
    decreases |turns|
  {
    hide Safe, Window, Truthful, Run, MayStart, Invariant;
    if turns != [] {
      var now := turns[0];
      CallKeepsWindow(r, requests, replies, now.request, sequence, retries, now.events, 2 * (|turns| - 1));
      EndToEndCommand(r, requests, replies, now.request, sequence, retries, now.events);
      var s := Run(Started(r, requests, replies, now.request, sequence, retries), now.events, retries);
      if !s.client.Waiting? {
        EveryCallIsTruthful(s.receiver, s.requests, s.replies, s.client.sequence, turns[1..], retries);
      }
    }
  }

  /**
   And it reaches the devices: unless the cache began with an ACK for a sequence still ahead, every
   acknowledged call of the session had its plan carried out and left its words latched, whatever
   SPI failures befell it and the calls before it.
   */
  lemma {:induction false} EveryAckSetsDevices(
    r: Receiver, requests: seq<Frame>, replies: seq<Frame>, sequence: u16, turns: seq<Turn>, retries: nat)
    requires MayRun(r, requests, replies, sequence, turns) && CacheWindow(r.cache, sequence, 2 * |turns|)
    ensures var ends := Calls(r, requests, replies, sequence, turns, retries);
      forall i :: 0 <= i < |ends| && IsAcknowledged(ends[i]) ==>
        ValidRequest(turns[i].request) && ends[i].completed == 1 && DevicesHold(ends[i].receiver, turns[i].request)
    decreases |turns|
  {
    hide Safe, Window, CacheWindow, DevicesHold, Run, MayStart, Invariant, CommandOf;
    if turns != [] {
      var now := turns[0];
      CallKeepsWindow(r, requests, replies, now.request, sequence, retries, now.events, 2 * (|turns| - 1));
      CallKeepsCacheWindow(r, requests, replies, now.request, sequence, retries, now.events, 2 * (|turns| - 1));
      FirstIsNotHeld(r.cache, now.request, sequence, 2 * |turns|);
      AckMeansDevicesSet(r, requests, replies, now.request, sequence, retries, now.events);
      var s := Run(Started(r, requests, replies, now.request, sequence, retries), now.events, retries);
      if !s.client.Waiting? {
        EveryAckSetsDevices(s.receiver, s.requests, s.replies, s.client.sequence, turns[1..], retries);
      }
    }
  }

  lemma FirstIsNotHeld(cache: ReplayCache, request: Request, sequence: u16, n: nat)
    requires ValidRequest(request) && n >= 1 && CacheWindow(cache, sequence, n)
    ensures !Holds(cache, CommandOf(request, NextSequence(sequence)))
  {
    hide Ahead, NextSequence;
    AheadOfAhead(sequence, 0, 0);
    assert CacheAvoids(cache, Ahead(sequence, 1));
  }

  /** A quiet bus and any counter value are enough for 32767 calls in a row; a node that has just started adds an empty cache. */
  lemma QuietBusMayRun(r: Receiver, sequence: u16, turns: seq<Turn>)
    requires Safe(r) && |turns| <= 32767
    requires forall i :: 0 <= i < |turns| ==>
      ValidRequest(turns[i].request) && turns[i].request.destination == r.config.nodeId
    ensures MayRun(r, [], [], sequence, turns)
    ensures r.cache == Empty ==> CacheWindow(r.cache, sequence, 2 * |turns|)
  {
    hide Safe;
  }
}
