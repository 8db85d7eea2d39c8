/**
 The command client: pi/src/beamcontrol/client.py. `ClientStep` is one event of a state-changing
 transaction; the class `BeamControlClient` is the program's own nest of loops.
 */
module Client {
  import opened Bits
  import opened Protocol
  import opened PiProtocol

  /** A `can.Message`: the payload is a byte string, not a padded buffer. */
  datatype Message = Message(id: nat, extended: bool, remote: bool, data: seq<u8>)

  datatype Request = Request(destination: u8, kind: u8, payload: seq<u8>)

  /** The public operations, with their arguments unchecked. */
  datatype Call =
    | EnterSafe(destination: int)
    | SetPhase(destination: int, phaseState: PyValue)
    | SetVga(destination: int, attenuationDb: PyValue)
    | SetCombined(destination: int, phaseState: PyValue, attenuationDb: PyValue)

  /** The validators in front of `_transact_locked`; `None` is a `ValueError`. */
  function RequestOf(call: Call): Option<Request>
  {
    var payload: Option<(u8, seq<u8>)> :=
      match call
      case EnterSafe(_) => Some((ENTER_SAFE, []))
      case SetPhase(_, phase) =>
        (match ValidatedValue(phase, PHASE_STATE_MAX)
         case None => None
         case Some(p) => Some((SET_PHASE, [p])))
      case SetVga(_, atten) =>
        (match ValidatedValue(atten, ATTEN_DB_MAX)
         case None => None
         case Some(a) => Some((SET_VGA, [a])))
      case SetCombined(_, phase, atten) =>
        (match (ValidatedValue(phase, PHASE_STATE_MAX), ValidatedValue(atten, ATTEN_DB_MAX))
         case (Some(p), Some(a)) => Some((SET_COMBINED, [p, a]))
         case _ => None);
    if payload.None? || !(1 <= call.destination <= 30) then None
    else Some(Request(call.destination, payload.value.0, payload.value.1))
  }

  /** What `RequestOf` lets through. */
  predicate ValidRequest(request: Request)
  {
    NODE_MIN <= request.destination <= NODE_MAX
    && match request.kind
       case 0 => request.payload == []
       case 1 => |request.payload| == 2 && request.payload[1] <= VGA_MAX_ATTENUATION_DB
       case 2 => |request.payload| == 1
       case 3 => |request.payload| == 1 && request.payload[0] <= VGA_MAX_ATTENUATION_DB
       case _ => false
  }

  function NextSequence(sequence: u16): u16
  {
    AndMask(sequence + 1, 16);
    Powers();
    And(sequence + 1, SEQ_MASK)
  }

  lemma NextSequenceWraps(sequence: u16)
    ensures NextSequence(sequence) == (sequence + 1) % 0x1_0000
    ensures NextSequence(sequence) != NextSequence(NextSequence(sequence))
  {
    hide And, Pow2;
    AndMask(sequence + 1, 16);
    Powers();
    AndMask(NextSequence(sequence) + 1, 16);
  }

  /** `_make_msg`, its sequence already taken. */
  function MakeMessage(request: Request, sequence: u16): Option<Message>
  {
    match BuildId(request.kind, request.destination, CONTROLLER, sequence)
    case None => None
    case Some(id) => Some(Message(id, true, false, request.payload))
  }

  datatype Outcome =
    | Acknowledged(data: seq<u8>)
    | Refused(result: u8)
    | ProtocolViolation
    | TimedOut

  /** How a reply strikes a transaction that is waiting for `sequence`. */
  datatype Verdict = Ignore | Resequence | Finish(outcome: Outcome)

  function Judge(request: Request, sequence: u16, firstAttempt: bool, reply: Option<Message>): Verdict
  {
    if reply.None? || !reply.value.extended || reply.value.remote then Ignore
    else
      var f := Parse(reply.value.id);
      var data := reply.value.data;
      if f.destination != CONTROLLER || f.source != request.destination || f.sequence != sequence then Ignore
      else if f.kind == ACK then
        if |data| != 2 || data[0] != request.kind || data[1] != RES_OK then Finish(ProtocolViolation)
        else Finish(Acknowledged(data))
      else if f.kind == ERROR then
        if |data| != 2 || data[0] != request.kind then Finish(ProtocolViolation)
        else if data[1] == RES_SEQUENCE_REUSE && firstAttempt then Resequence
        else Finish(Refused(data[1]))
      else Ignore
  }

  /** A data frame from the addressed node to the controller under the awaited sequence. */
  predicate Addressed(request: Request, sequence: u16, reply: Option<Message>)
  {
    reply.Some? && reply.value.extended && !reply.value.remote
    && var f := Parse(reply.value.id);
       f == IdFields(f.kind, CONTROLLER, request.destination, sequence)
  }

  /**
   Which replies mean what: matched by destination, source, sequence, type and the command type in
   the payload. Any other ACK or ERROR from the node for this sequence violates the protocol.
   */
  lemma VerdictByReply(request: Request, sequence: u16, firstAttempt: bool, reply: Option<Message>)
    ensures var v, ours := Judge(request, sequence, firstAttempt, reply), Addressed(request, sequence, reply);
      && (v == Ignore <==> !ours || Parse(reply.value.id).kind !in {ACK, ERROR})
      && (v == Resequence <==>
            ours && firstAttempt && Parse(reply.value.id).kind == ERROR && reply.value.data == [request.kind, 6])
      && (forall d :: v == Finish(Acknowledged(d)) <==>
            ours && Parse(reply.value.id).kind == ACK && reply.value.data == d == [request.kind, 0])
      && (forall code :: v == Finish(Refused(code)) <==>
            ours && Parse(reply.value.id).kind == ERROR && reply.value.data == [request.kind, code]
            && !(code == 6 && firstAttempt))
      && v != Finish(TimedOut)
  {
    hide And, Shr;
    if reply.Some? && |reply.value.data| == 2 {
      var d := reply.value.data;
      assert d == [d[0], d[1]];
    }
  }

  /** A transaction under way, or over. `resends` counts the exact retries still allowed. */
  datatype Transaction =
    | Waiting(request: Request, firstAttempt: bool, resends: nat, sequence: u16)
    | Over(request: Request, firstAttempt: bool, sequence: u16, outcome: Outcome)

  datatype ClientEvent = Received(reply: Option<Message>) | DeadlinePassed

  /** The transaction after an event, and the message it sends in response, if any. */
  datatype Reaction = Reaction(transaction: Transaction, sent: seq<Message>)

  function Sent(request: Request, sequence: u16): seq<Message>
  {
    match MakeMessage(request, sequence)
    case None => []
    case Some(message) => [message]
  }

  function Begin(request: Request, sequence: u16, retries: nat): Reaction
  {
    var first := NextSequence(sequence);
    Reaction(Waiting(request, true, retries, first), Sent(request, first))
  }

  function ClientStep(t: Transaction, event: ClientEvent, retries: nat): Reaction
  {
    match t
    case Over(_, _, _, _) => Reaction(t, [])
    case Waiting(request, firstAttempt, resends, sequence) =>
      match event
      case DeadlinePassed =>
        if resends > 0 then
          Reaction(Waiting(request, firstAttempt, resends - 1, sequence), Sent(request, sequence))
        else Reaction(Over(request, firstAttempt, sequence, TimedOut), [])
      case Received(reply) =>
        match Judge(request, sequence, firstAttempt, reply)
        case Ignore => Reaction(t, [])
        case Finish(outcome) => Reaction(Over(request, firstAttempt, sequence, outcome), [])
        case Resequence =>
          var renewed := NextSequence(sequence);
          Reaction(Waiting(request, false, retries, renewed), Sent(request, renewed))
  }

  function ClientRun(start: Reaction, events: seq<ClientEvent>, retries: nat): Reaction
    decreases |events|
  {
    if events == [] then start
    else
      var before := ClientRun(start, events[..|events| - 1], retries);
      var next := ClientStep(before.transaction, events[|events| - 1], retries);
      Reaction(next.transaction, before.sent + next.sent)
  }

  /**
   `sent` is `n` copies of one message under the first fresh sequence, then copies of one message
   under the second; neither is sent more often than a first try and its retries.
   */
  predicate ExactCopies(request: Request, first: u16, retries: nat, sent: seq<Message>, n: nat)
  {
    && n <= |sent| && n <= retries + 1 && |sent| - n <= retries + 1
    && (forall i :: 0 <= i < n ==> Some(sent[i]) == MakeMessage(request, first))
    && (forall i :: n <= i < |sent| ==> Some(sent[i]) == MakeMessage(request, NextSequence(first)))
  }

  /** How far a transaction has got, by what it has sent. */
  predicate Progress(run: Reaction, request: Request, first: u16, retries: nat, n: nat)
  {
    var t := run.transaction;
    && t.request == request && ExactCopies(request, first, retries, run.sent, n)
    && t.sequence == (if t.firstAttempt then first else NextSequence(first))
    && (t.firstAttempt ==> n == |run.sent|)
    && (t.Waiting? ==>
          (if t.firstAttempt then |run.sent| else |run.sent| - n) == retries + 1 - t.resends && t.resends <= retries)
    && (t.Over? && t.outcome == TimedOut ==>
          (if t.firstAttempt then |run.sent| else |run.sent| - n) == retries + 1)
  }

  /**
   The rule that makes the receiver's replay cache safe: whatever the replies and timeouts, every
   retry repeats its message exactly, the sequence moves on at most once, and the number of
   transmissions is bounded. And none is saved: giving up takes the first try and every retry.
   */
  lemma {:induction false} RetriesAreExact(request: Request, sequence: u16, events: seq<ClientEvent>, retries: nat)
    returns (n: nat)
    requires ValidRequest(request)
    ensures Progress(ClientRun(Begin(request, sequence, retries), events, retries),
                     request, NextSequence(sequence), retries, n)
    decreases |events|
  {
    hide NextSequence, MakeMessage, Judge, ClientStep;
    var first := NextSequence(sequence);
    MessageExists(request, first);
    if events == [] {
      n := 1;
    } else {
      var before := ClientRun(Begin(request, sequence, retries), events[..|events| - 1], retries);
      n := RetriesAreExact(request, sequence, events[..|events| - 1], retries);
      n := ProgressGoesOn(before, events[|events| - 1], request, first, retries, n);
    }
  }

  /** Every event finds the transaction still waiting. */
  predicate WaitsThroughout(start: Reaction, events: seq<ClientEvent>, retries: nat)
  {
    forall i :: 0 <= i < |events| ==> ClientRun(start, events[..i], retries).transaction.Waiting?
  }

  predicate Decides(t: Transaction, event: ClientEvent)
    requires t.Waiting?
  {
    event.Received? && Judge(t.request, t.sequence, t.firstAttempt, event.reply).Finish?
  }

  /** The transaction stands where the last event has put it. */
  predicate EndsAsDecided(t: Transaction, events: seq<ClientEvent>)
  {
    t.Over? ==>
      events != []
      && var last := events[|events| - 1];
         if t.outcome == TimedOut then last.DeadlinePassed?
         else last.Received? && Judge(t.request, t.sequence, t.firstAttempt, last.reply) == Finish(t.outcome)
  }

  /** One copy to begin with, one for each deadline but the one that ends the call, one for resequencing. */
  predicate CopiesAddUp(run: Reaction, events: seq<ClientEvent>)
  {
    var t := run.transaction;
    |run.sent| == 1 + (|events| - |Replies(events)|) + (if t.firstAttempt then 0 else 1)
                    - (if t.Over? && t.outcome == TimedOut then 1 else 0)
  }

  /**
   No event is wasted: every deadline and every resequencing costs its copy, and a call ends as its
   last event decides, never before.
   */
  lemma {:induction false} EveryEventCounts(request: Request, sequence: u16, events: seq<ClientEvent>, retries: nat)
    requires ValidRequest(request) && WaitsThroughout(Begin(request, sequence, retries), events, retries)
    ensures var run := ClientRun(Begin(request, sequence, retries), events, retries);
      run.transaction.request == request && CopiesAddUp(run, events) && EndsAsDecided(run.transaction, events)
    decreases |events|
  {
    hide NextSequence, MakeMessage, Judge, ClientStep, CopiesAddUp, EndsAsDecided;
    var start := Begin(request, sequence, retries);
    if events == [] {
      FirstCopy(request, sequence, retries);
    } else {
      var front, last := events[..|events| - 1], events[|events| - 1];
      assert forall i :: 0 <= i <= |front| ==> front[..i] == events[..i];
      EveryEventCounts(request, sequence, front, retries);
      OneEventCounts(ClientRun(start, front, retries), front, last, retries);
      assert events == front + [last];
    }
  }

  lemma FirstCopy(request: Request, sequence: u16, retries: nat)
    requires ValidRequest(request)
    ensures var run := Begin(request, sequence, retries);
      CopiesAddUp(run, []) && EndsAsDecided(run.transaction, []) && run.transaction.request == request
  {
    hide NextSequence, MakeMessage;
    MessageExists(request, NextSequence(sequence));
  }

  lemma OneEventCounts(before: Reaction, front: seq<ClientEvent>, last: ClientEvent, retries: nat)
    requires before.transaction.Waiting? && ValidRequest(before.transaction.request) && CopiesAddUp(before, front)
    ensures var next := ClientStep(before.transaction, last, retries);
      next.transaction.request == before.transaction.request
      && CopiesAddUp(Reaction(next.transaction, before.sent + next.sent), front + [last])
      && EndsAsDecided(next.transaction, front + [last])
  {
    hide NextSequence, MakeMessage, Judge;
    var t := before.transaction;
    MessageExists(t.request, t.sequence);
    MessageExists(t.request, NextSequence(t.sequence));
    assert (front + [last])[..|front|] == front;
    if last.Received? {
      VerdictsAreDecisive(t.request, t.sequence, t.firstAttempt, last.reply);
    }
  }

  /** No decisive reply is passed over: the transaction is over as soon as one is read. */
  lemma DecisiveReplyEnds(start: Reaction, events: seq<ClientEvent>, i: nat, retries: nat)
    requires i + 1 < |events| && WaitsThroughout(start, events, retries)
    ensures !Decides(ClientRun(start, events[..i], retries).transaction, events[i])
  {
    hide Judge, MakeMessage, NextSequence;
    assert events[..i + 1][..i] == events[..i];
    assert ClientRun(start, events[..i + 1], retries).transaction.Waiting?;
  }

  /** The reply ends a call under this sequence, in its first or its second attempt, with this outcome. */
  predicate Concludes(request: Request, sequence: u16, reply: Option<Message>, outcome: Outcome)
  {
    Judge(request, sequence, true, reply) == Finish(outcome) || Judge(request, sequence, false, reply) == Finish(outcome)
  }

  lemma VerdictsAreDecisive(request: Request, sequence: u16, firstAttempt: bool, reply: Option<Message>)
    ensures Judge(request, sequence, firstAttempt, reply) != Finish(TimedOut)
    ensures Judge(request, sequence, firstAttempt, reply) == Resequence ==> firstAttempt
  {
  }

  /** The last message has been sent once and then once more for every retry. */
  predicate GivesUpFully(request: Request, sequence: u16, retries: nat, sent: seq<Message>)
  {
    |sent| >= retries + 1
    && forall i :: |sent| - (retries + 1) <= i < |sent| ==> Some(sent[i]) == MakeMessage(request, sequence)
  }

  /** What a completed run says of its last message and its last reply. */
  lemma CourseOfTransaction(
    request: Request, initial: u16, events: seq<ClientEvent>, retries: nat, gaps: Gaps, inbox: Inbox, timeout: nat)
    requires ValidRequest(request) && AreReads(Replies(events), inbox)
    requires Punctual(Begin(request, initial, retries), events, retries, gaps, timeout)
    requires ClientRun(Begin(request, initial, retries), events, retries).transaction.Over?
    ensures var run := ClientRun(Begin(request, initial, retries), events, retries);
      var t := run.transaction;
      if t.outcome == TimedOut then GivesUpFully(request, t.sequence, retries, run.sent)
      else |Replies(events)| > 0 && Concludes(request, t.sequence, inbox(|Replies(events)| - 1), t.outcome)
  {
    hide Judge, NextSequence, MakeMessage, ClientRun, TimerAfter, OnTime, CopiesAddUp;
    var start := Begin(request, initial, retries);
    assert WaitsThroughout(start, events, retries);
    EveryEventCounts(request, initial, events, retries);
    var n := RetriesAreExact(request, initial, events, retries);
  }

  lemma ProgressGoesOn(
    before: Reaction, event: ClientEvent, request: Request, first: u16, retries: nat, n: nat)
    returns (after: nat)
    requires ValidRequest(request) && Progress(before, request, first, retries, n)
    ensures var next := ClientStep(before.transaction, event, retries);
      Progress(Reaction(next.transaction, before.sent + next.sent), request, first, retries, after)
  {
    hide NextSequence, MakeMessage, Judge;
    var next := ClientStep(before.transaction, event, retries);
    after := if next.transaction.firstAttempt then |before.sent + next.sent| else n;
    MessageExists(request, first);
    MessageExists(request, NextSequence(first));
    if event.Received? && before.transaction.Waiting? {
      VerdictsAreDecisive(request, before.transaction.sequence, before.transaction.firstAttempt, event.reply);
    }
  }

  /**
   The clock, as the time that passes before each reading: reading `i` is `1 + gaps(i)` later
   than the one before it, so the clock moves at every reading. The unit is arbitrary.
   */
  type Gaps = nat -> nat

  /** What the transport's `recv` returns, call by call; `None` when nothing came in time. */
  type Inbox = nat -> Option<Message>

  function Replies(events: seq<ClientEvent>): seq<Option<Message>>
    decreases |events|
  {
    if events == [] then []
    else
      Replies(events[..|events| - 1])
      + if events[|events| - 1].Received? then [events[|events| - 1].reply] else []
  }

  predicate AreReads(replies: seq<Option<Message>>, inbox: Inbox)
  {
    forall i :: 0 <= i < |replies| ==> replies[i] == inbox(i)
  }

  /** The time that passes over `n` readings of the clock, from reading `first` on. */
  function Elapsed(gaps: Gaps, first: nat, n: nat): nat
  {
    if n == 0 then 0 else Elapsed(gaps, first, n - 1) + 1 + gaps(first + n - 1)
  }

  lemma ElapsedStep(gaps: Gaps, first: nat, n: nat)
    ensures Elapsed(gaps, first, 0) == 0
    ensures Elapsed(gaps, first, n + 1) == Elapsed(gaps, first, n) + 1 + gaps(first + n)
  {
  }

  /**
   The clock, over one send that read it first at `readings` to set its deadline and then polled
   `polls` times: the last poll came before the timeout, and giving up came after it. Each poll takes
   one reading for a command and two for a PING.
   */
  predicate PolledInTime(gaps: Gaps, readings: nat, polls: nat, gaveUp: bool, readingsAfter: nat, timeout: nat)
  {
    && (polls > 0 ==> Elapsed(gaps, readings + 1, polls) < timeout)
    && (gaveUp ==> Elapsed(gaps, readings + 1, polls + 1) >= timeout)
    && readingsAfter == readings + 1 + polls + (if gaveUp then 1 else 0)
  }

  predicate SearchedInTime(gaps: Gaps, readings: nat, polls: nat, gaveUp: bool, readingsAfter: nat, timeout: nat)
  {
    && (polls > 0 ==> Elapsed(gaps, readings + 1, 2 * polls - 1) < timeout)
    && (gaveUp ==> Elapsed(gaps, readings + 1, 2 * polls + 1) >= timeout)
    && readingsAfter == readings + 1 + 2 * polls + (if gaveUp then 1 else 0)
  }

  /** Where the clock stands within one send: the next reading, and the time since the deadline was set. */
  datatype Timer = Timer(next: nat, waited: nat)

  /** The clock after each event of a transaction. Every send reads it once, to set its deadline. */
  function TimerAfter(start: Reaction, events: seq<ClientEvent>, retries: nat, gaps: Gaps): Timer
    decreases |events|
  {
    if events == [] then Timer(1, 0)
    else
      var front, last := events[..|events| - 1], events[|events| - 1];
      var t := TimerAfter(start, front, retries, gaps);
      if ClientStep(ClientRun(start, front, retries).transaction, last, retries).sent == [] then
        Timer(t.next + 1, t.waited + 1 + gaps(t.next))
      else Timer(t.next + 2, 0)
  }

  /** The deadline has passed exactly when the next reading shows the timeout used up; else a reply is read. */
  predicate OnTime(t: Timer, event: ClientEvent, gaps: Gaps, timeout: nat)
  {
    event.DeadlinePassed? <==> t.waited + 1 + gaps(t.next) >= timeout
  }

  /** The transaction goes on as long as it waits, and every event is one that the clock called for. */
  predicate Punctual(start: Reaction, events: seq<ClientEvent>, retries: nat, gaps: Gaps, timeout: nat)
  {
    forall i :: 0 <= i < |events| ==>
      ClientRun(start, events[..i], retries).transaction.Waiting?
      && OnTime(TimerAfter(start, events[..i], retries, gaps), events[i], gaps, timeout)
  }

  lemma PunctualExtends(
    start: Reaction, events: seq<ClientEvent>, event: ClientEvent, retries: nat, gaps: Gaps, timeout: nat)
    requires Punctual(start, events, retries, gaps, timeout)
    requires ClientRun(start, events, retries).transaction.Waiting?
    requires OnTime(TimerAfter(start, events, retries, gaps), event, gaps, timeout)
    ensures Punctual(start, events + [event], retries, gaps, timeout)
    ensures var t := TimerAfter(start, events, retries, gaps);
      TimerAfter(start, events + [event], retries, gaps) ==
        if ClientStep(ClientRun(start, events, retries).transaction, event, retries).sent == [] then
          Timer(t.next + 1, t.waited + 1 + gaps(t.next))
        else Timer(t.next + 2, 0)
  {
    hide ClientStep, ClientRun, OnTime;
    var longer := events + [event];
    assert longer[..|events|] == events;
    assert forall i :: 0 <= i <= |events| ==> longer[..i] == events[..i];
  }

  /** The n-th reply read is the n-th that the transport returned. */
  lemma {:induction false} ReadInOrder(events: seq<ClientEvent>, n: nat)
    requires n < |events| && events[n].Received?
    ensures |Replies(events[..n])| < |Replies(events)|
    ensures Replies(events)[|Replies(events[..n])|] == events[n].reply
    decreases |events|
  {
    var front := events[..|events| - 1];
    if n < |front| {
      assert front[..n] == events[..n];
      ReadInOrder(front, n);
    } else {
      assert events[..n] == front;
    }
  }

  lemma {:induction false} SameSoFar(
    start: Reaction, a: seq<ClientEvent>, b: seq<ClientEvent>, n: nat, retries: nat, gaps: Gaps, inbox: Inbox,
    timeout: nat)
    requires n <= |a| && n <= |b|
    requires Punctual(start, a, retries, gaps, timeout) && AreReads(Replies(a), inbox)
    requires Punctual(start, b, retries, gaps, timeout) && AreReads(Replies(b), inbox)
    ensures a[..n] == b[..n]
    decreases n
  {
    hide ClientRun, TimerAfter, Replies;
    if n > 0 {
      SameSoFar(start, a, b, n - 1, retries, gaps, inbox, timeout);
      if a[n - 1].Received? {
        ReadInOrder(a, n - 1);
        ReadInOrder(b, n - 1);
      }
      assert a[..n] == a[..n - 1] + [a[n - 1]] && b[..n] == b[..n - 1] + [b[n - 1]];
    }
  }

  /** The clock and the transport leave a transaction one course to take: its events are determined. */
  lemma OneCourse(
    start: Reaction, a: seq<ClientEvent>, b: seq<ClientEvent>, retries: nat, gaps: Gaps, inbox: Inbox, timeout: nat)
    requires Punctual(start, a, retries, gaps, timeout) && AreReads(Replies(a), inbox)
    requires Punctual(start, b, retries, gaps, timeout) && AreReads(Replies(b), inbox)
    requires ClientRun(start, a, retries).transaction.Over? && ClientRun(start, b, retries).transaction.Over?
    ensures a == b
  {
    hide ClientRun, Replies, OnTime;
    var n := if |a| <= |b| then |a| else |b|;
    SameSoFar(start, a, b, n, retries, gaps, inbox, timeout);
    assert a[..|a|] == a && b[..|b|] == b;
  }

  /** `NodeStatus`: the eight bytes of a STATUS payload. */
  datatype NodeStatus = NodeStatus(
    major: u8, minor: u8, patch: u8, nodeId: u8, healthFlags: u8, rxDropped: u8, txDropped: u8, invalidCommands: u8)

  datatype Discovery = Found(status: NodeStatus) | MalformedStatus | NotFound

  datatype StatusVerdict = Skip | Conclude(result: Discovery)

  function PingMessage(destination: u8, sequence: u16): Option<Message>
  {
    match BuildId(PING, destination, CONTROLLER, sequence)
    case None => None
    case Some(id) => Some(Message(id, true, false, []))
  }

  function JudgeStatus(destination: u8, sequence: u16, reply: Option<Message>): StatusVerdict
  {
    if reply.None? || !reply.value.extended || reply.value.remote then Skip
    else
      var f, d := Parse(reply.value.id), reply.value.data;
      if f.source != destination || f.destination != CONTROLLER || f.kind != STATUS || f.sequence != sequence then Skip
      else if |d| != 8 then Conclude(MalformedStatus)
      else if d[3] != destination then Skip
      else Conclude(Found(NodeStatus(d[0], d[1], d[2], d[3], d[4], d[5], d[6], d[7])))
  }

  /** A search for a node: `resends` counts the exact retries of its PING still allowed. */
  datatype Search = Searching(resends: nat) | Ended(result: Discovery)

  function SearchStep(destination: u8, sequence: u16, search: Search, event: ClientEvent): Search
  {
    match search
    case Ended(_) => search
    case Searching(resends) =>
      match event
      case DeadlinePassed => if resends > 0 then Searching(resends - 1) else Ended(NotFound)
      case Received(reply) =>
        match JudgeStatus(destination, sequence, reply)
        case Skip => search
        case Conclude(result) => Ended(result)
  }

  function SearchRun(destination: u8, sequence: u16, retries: nat, events: seq<ClientEvent>): Search
    decreases |events|
  {
    if events == [] then Searching(retries)
    else
      SearchStep(destination, sequence, SearchRun(destination, sequence, retries, events[..|events| - 1]),
                 events[|events| - 1])
  }

  /** The clock after each event of a search: it is read once more for the time left to a receive call. */
  function SearchTimer(events: seq<ClientEvent>, gaps: Gaps): Timer
    decreases |events|
  {
    if events == [] then Timer(1, 0)
    else
      var t := SearchTimer(events[..|events| - 1], gaps);
      if events[|events| - 1].DeadlinePassed? then Timer(t.next + 2, 0)
      else Timer(t.next + 2, t.waited + 2 + gaps(t.next) + gaps(t.next + 1))
  }

  predicate PunctualSearch(
    destination: u8, sequence: u16, retries: nat, events: seq<ClientEvent>, gaps: Gaps, timeout: nat)
  {
    forall i :: 0 <= i < |events| ==>
      SearchRun(destination, sequence, retries, events[..i]).Searching?
      && OnTime(SearchTimer(events[..i], gaps), events[i], gaps, timeout)
  }

  lemma SearchExtends(
    destination: u8, sequence: u16, retries: nat, events: seq<ClientEvent>, event: ClientEvent, gaps: Gaps, timeout: nat)
    requires PunctualSearch(destination, sequence, retries, events, gaps, timeout)
    requires SearchRun(destination, sequence, retries, events).Searching?
    requires OnTime(SearchTimer(events, gaps), event, gaps, timeout)
    ensures PunctualSearch(destination, sequence, retries, events + [event], gaps, timeout)
    ensures Replies(events + [event]) == Replies(events) + if event.Received? then [event.reply] else []
    ensures SearchRun(destination, sequence, retries, events + [event])
         == SearchStep(destination, sequence, SearchRun(destination, sequence, retries, events), event)
    ensures var t := SearchTimer(events, gaps);
      SearchTimer(events + [event], gaps) ==
        if event.DeadlinePassed? then Timer(t.next + 2, 0)
        else Timer(t.next + 2, t.waited + 2 + gaps(t.next) + gaps(t.next + 1))
  {
    hide SearchStep, OnTime;
    var longer := events + [event];
    assert longer[..|events|] == events;
    assert forall i :: 0 <= i <= |events| ==> longer[..i] == events[..i];
  }

  lemma NothingSearched(destination: u8, sequence: u16, retries: nat, gaps: Gaps, timeout: nat)
    ensures Replies([]) == [] && PunctualSearch(destination, sequence, retries, [], gaps, timeout)
    ensures SearchRun(destination, sequence, retries, []) == Searching(retries)
    ensures SearchTimer([], gaps) == Timer(1, 0)
  {
  }

  lemma {:induction false} SameSearchSoFar(
    destination: u8, sequence: u16, a: seq<ClientEvent>, b: seq<ClientEvent>, n: nat, retries: nat, gaps: Gaps,
    inbox: Inbox, timeout: nat)
    requires n <= |a| && n <= |b|
    requires PunctualSearch(destination, sequence, retries, a, gaps, timeout) && AreReads(Replies(a), inbox)
    requires PunctualSearch(destination, sequence, retries, b, gaps, timeout) && AreReads(Replies(b), inbox)
    ensures a[..n] == b[..n]
    decreases n
  {
    hide SearchRun, SearchTimer, Replies;
    if n > 0 {
      SameSearchSoFar(destination, sequence, a, b, n - 1, retries, gaps, inbox, timeout);
      if a[n - 1].Received? {
        ReadInOrder(a, n - 1);
        ReadInOrder(b, n - 1);
      }
      assert a[..n] == a[..n - 1] + [a[n - 1]] && b[..n] == b[..n - 1] + [b[n - 1]];
    }
  }

  /** A search too has one course to take. */
  lemma OneSearch(
    destination: u8, sequence: u16, a: seq<ClientEvent>, b: seq<ClientEvent>, retries: nat, gaps: Gaps, inbox: Inbox,
    timeout: nat)
    requires PunctualSearch(destination, sequence, retries, a, gaps, timeout) && AreReads(Replies(a), inbox)
    requires PunctualSearch(destination, sequence, retries, b, gaps, timeout) && AreReads(Replies(b), inbox)
    requires SearchRun(destination, sequence, retries, a).Ended? && SearchRun(destination, sequence, retries, b).Ended?
    ensures a == b
  {
    hide SearchRun, Replies, OnTime;
    var n := if |a| <= |b| then |a| else |b|;
    SameSearchSoFar(destination, sequence, a, b, n, retries, gaps, inbox, timeout);
    assert a[..|a|] == a && b[..|b|] == b;
  }

  /** A STATUS of the addressed node under the awaited sequence. */
  predicate IsStatusFrom(destination: u8, sequence: u16, reply: Option<Message>)
  {
    reply.Some? && reply.value.extended && !reply.value.remote
    && Parse(reply.value.id) == IdFields(STATUS, CONTROLLER, destination, sequence)
  }

  /**
   Which replies end a discovery: a STATUS of the wrong length fails it, one that names another
   node is passed over, and any other is the answer, byte for byte.
   */
  lemma StatusByReply(destination: u8, sequence: u16, reply: Option<Message>)
    ensures var v, ours := JudgeStatus(destination, sequence, reply), IsStatusFrom(destination, sequence, reply);
      && (v == Conclude(MalformedStatus) <==> ours && |reply.value.data| != 8)
      && (v == Skip <==> !ours || (|reply.value.data| == 8 && reply.value.data[3] != destination))
      && (forall status :: v == Conclude(Found(status)) <==>
            ours && status.nodeId == destination
            && reply.value.data == [status.major, status.minor, status.patch, status.nodeId, status.healthFlags,
                                    status.rxDropped, status.txDropped, status.invalidCommands])
  {
    hide And, Shr;
    if reply.Some? && |reply.value.data| == 8 {
      var d := reply.value.data;
      assert d == [d[0], d[1], d[2], d[3], d[4], d[5], d[6], d[7]];
    }
  }

  lemma ConclusionsAreFindings(destination: u8, sequence: u16, reply: Option<Message>)
    ensures JudgeStatus(destination, sequence, reply) != Conclude(NotFound)
  {
  }

  lemma PingExists(destination: u8, sequence: u16)
    requires destination <= NODE_MAX
    ensures PingMessage(destination, sequence).Some?
    ensures var m := PingMessage(destination, sequence).value;
      m.extended && !m.remote && m.data == [] && m.id <= EXTENDED_ID_MAX
      && ParseId(m.id) == Some(IdFields(PING, destination, CONTROLLER, sequence))
  {
    hide BuildId, MakeId, ParseId;
    var f := IdFields(PING, destination, CONTROLLER, sequence);
    BuildIdAgreesWithC(f.kind, f.destination, f.source, f.sequence);
    ParseAfterMake(f);
    MakeAfterParse(MakeId(f.kind, f.destination, f.source, f.sequence).value);
  }

  /** The client object: the sequence counter is its only mutable state. */
  class BeamControlClient {
    var sequence: u16
    const retries: nat
    const timeout: nat

    constructor (timeout: nat, retries: nat)
      requires timeout > 0
      ensures sequence == 0 && this.retries == retries && this.timeout == timeout
    {
      this.sequence, this.timeout, this.retries := 0, timeout, retries;
    }

    method NextSeq() returns (next: u16)
      modifies this
      ensures next == sequence == (old(sequence) + 1) % 0x1_0000 && next != old(sequence)
      ensures next == NextSequence(old(sequence))
    {
      NextSequenceWraps(sequence);
      hide NextSequence;
      sequence := NextSequence(sequence);
      return sequence;
    }

    /** The receive loop of one send: read replies until one decides or the deadline passes. */
    method AwaitReply(
      request: Request, waitingFor: u16, firstAttempt: bool,
      gaps: Gaps, readings: nat, inbox: Inbox, polls: nat,
      ghost start: Reaction, ghost resends: nat, ghost history: seq<ClientEvent>)
      returns (verdict: Verdict, readingsAfter: nat, pollsAfter: nat, ghost events: seq<ClientEvent>, waited: nat)
      requires ValidRequest(request)
      requires ClientRun(start, history, retries).transaction == Waiting(request, firstAttempt, resends, waitingFor)
      requires |Replies(history)| == polls && AreReads(Replies(history), inbox)
      requires Punctual(start, history, retries, gaps, timeout)
      requires TimerAfter(start, history, retries, gaps) == Timer(readings + 1, 0)
      ensures history <= events && forall i :: |history| <= i < |events| ==> events[i].Received?
      ensures polls <= pollsAfter && |Replies(events)| == pollsAfter && AreReads(Replies(events), inbox)
      ensures Punctual(start, events, retries, gaps, timeout)
      ensures verdict == Ignore ==>
        TimerAfter(start, events, retries, gaps).next + 1 == readingsAfter
        && OnTime(TimerAfter(start, events, retries, gaps), DeadlinePassed, gaps, timeout)
      ensures verdict == Resequence ==> TimerAfter(start, events, retries, gaps) == Timer(readingsAfter + 1, 0)
      ensures var before, after := ClientRun(start, history, retries), ClientRun(start, events, retries);
        match verdict
        case Ignore => after == before
        case Finish(outcome) => after == before.(transaction := Over(request, firstAttempt, waitingFor, outcome))
        case Resequence =>
          firstAttempt
          && after == Reaction(Waiting(request, false, retries, NextSequence(waitingFor)),
                               before.sent + Sent(request, NextSequence(waitingFor)))
      ensures verdict == Ignore ==> waited >= timeout
      ensures PolledInTime(gaps, readings, pollsAfter - polls, verdict == Ignore, readingsAfter, timeout)
    {
      hide Judge, NextSequence, MakeMessage, ClientRun, Replies, TimerAfter, Punctual, Elapsed;
      MessageExists(request, NextSequence(waitingFor));
      ElapsedStep(gaps, readings + 1, 0);
      events := history;
      pollsAfter := polls;
      verdict := Ignore;
      readingsAfter := readings + 1;
      waited := 0;
      while true
        invariant history <= events && forall i :: |history| <= i < |events| ==> events[i].Received?
        invariant polls <= pollsAfter && |Replies(events)| == pollsAfter && AreReads(Replies(events), inbox)
        invariant Punctual(start, events, retries, gaps, timeout)
        invariant TimerAfter(start, events, retries, gaps) == Timer(readingsAfter, waited)
        invariant readingsAfter == readings + 1 + (pollsAfter - polls)
        invariant waited == Elapsed(gaps, readings + 1, pollsAfter - polls)
        invariant pollsAfter > polls ==> waited < timeout
        invariant verdict == Ignore
        invariant ClientRun(start, events, retries) == ClientRun(start, history, retries)
        decreases timeout - waited
      {
        ElapsedStep(gaps, readings + 1, pollsAfter - polls);
        waited := waited + 1 + gaps(readingsAfter);
        readingsAfter := readingsAfter + 1;
        if timeout - waited <= 0 {
          return;
        }
        var reply := inbox(pollsAfter);
        RunExtends(start, events, Received(reply), retries);
        PunctualExtends(start, events, Received(reply), retries, gaps, timeout);
        events := events + [Received(reply)];
        pollsAfter := pollsAfter + 1;
        verdict := Judge(request, waitingFor, firstAttempt, reply);
        if verdict != Ignore {
          JudgeResequencesFirst(request, waitingFor, firstAttempt, reply);
          return;
        }
      }
    }

    /**
     `_transact_locked`: what it sends, returns and leaves in the counter is a run of `ClientStep`
     over the replies its `recv` calls returned, in order, and the deadlines its clock passed. By
     `OneCourse` there is only one such run, so it can neither give up early nor skip a reply.
     */
    method TransactLocked(request: Request, gaps: Gaps, inbox: Inbox)
      returns (outcome: Outcome, sent: seq<Message>, polls: nat, ghost events: seq<ClientEvent>)
      requires ValidRequest(request)
      modifies this
      ensures |Replies(events)| == polls && AreReads(Replies(events), inbox)
      ensures Punctual(Begin(request, old(sequence), retries), events, retries, gaps, timeout)
      ensures var run := ClientRun(Begin(request, old(sequence), retries), events, retries);
        && run.sent == sent
        && run.transaction.Over? && run.transaction.outcome == outcome
        && run.transaction.sequence == sequence && run.transaction.request == request
      ensures outcome == TimedOut ==> GivesUpFully(request, sequence, retries, sent)
      ensures outcome != TimedOut ==> polls > 0 && Concludes(request, sequence, inbox(polls - 1), outcome)
    {
      hide Judge, NextSequence, MakeMessage, ClientRun, Replies, TimerAfter, Punctual, Concludes, GivesUpFully, PolledInTime, OnTime;
      ghost var initial := sequence;
      ghost var start := Begin(request, sequence, retries);
      events, sent := [], [];
      NothingRun(start, retries, gaps, timeout);
      var readings := 0;
      polls := 0;
      var attempt := 0;
      while attempt < 2
        invariant 0 <= attempt <= 2
        invariant |Replies(events)| == polls && AreReads(Replies(events), inbox)
        invariant Punctual(start, events, retries, gaps, timeout)
        invariant TimerAfter(start, events, retries, gaps) == Timer(readings + 1, 0)
        invariant attempt < 2 ==>
          ClientRun(start, events, retries)
          == Reaction(Waiting(request, attempt == 0, retries, NextSequence(sequence)),
                      sent + Sent(request, NextSequence(sequence)))
        invariant attempt != 2
      {
        var current := NextSeq();
        MessageExists(request, current);
        var message := MakeMessage(request, current).value;
        var reused := false;
        var tries := 0;
        while tries < retries + 1 && !reused
          invariant 0 <= tries <= retries + 1
          invariant sequence == current
          invariant |Replies(events)| == polls && AreReads(Replies(events), inbox)
          invariant Punctual(start, events, retries, gaps, timeout)
          invariant reused || tries < retries + 1 ==> TimerAfter(start, events, retries, gaps) == Timer(readings + 1, 0)
          invariant !reused && tries < retries + 1 ==>
            ClientRun(start, events, retries)
            == Reaction(Waiting(request, attempt == 0, retries - tries, current), sent + [message])
          invariant !reused && tries == retries + 1 ==>
            ClientRun(start, events, retries) == Reaction(Over(request, attempt == 0, current, TimedOut), sent)
          invariant reused ==>
            attempt == 0
            && ClientRun(start, events, retries)
               == Reaction(Waiting(request, false, retries, NextSequence(current)),
                           sent + Sent(request, NextSequence(current)))
          decreases retries + 1 - tries, !reused
        {
          sent := sent + [message];
          var verdict, waited;
          verdict, readings, polls, events, waited := AwaitReply(
            request, current, attempt == 0, gaps, readings, inbox, polls, start, retries - tries, events);
          if verdict.Finish? {
            outcome := verdict.outcome;
            CourseOfTransaction(request, initial, events, retries, gaps, inbox, timeout);
            return;
          }
          if verdict == Resequence {
            reused := true;
          } else {
            RunExtends(start, events, DeadlinePassed, retries);
            PunctualExtends(start, events, DeadlinePassed, retries, gaps, timeout);
            events := events + [DeadlinePassed];
            tries := tries + 1;
          }
        }
        if !reused {
          outcome := TimedOut;
          CourseOfTransaction(request, initial, events, retries, gaps, inbox, timeout);
          return;
        }
        attempt := attempt + 1;
      }
      outcome := TimedOut;
    }

    /** A public operation: invalid arguments raise `ValueError` (`None`) before anything is sent. */
    method Transact(call: Call, gaps: Gaps, inbox: Inbox)
      returns (outcome: Option<Outcome>, sent: seq<Message>, polls: nat, ghost events: seq<ClientEvent>)
      modifies this
      ensures outcome.None? <==> RequestOf(call).None?
      ensures outcome.None? ==> sent == [] && polls == 0 && sequence == old(sequence)
      ensures outcome.Some? ==>
        |Replies(events)| == polls && AreReads(Replies(events), inbox)
        && Punctual(Begin(RequestOf(call).value, old(sequence), retries), events, retries, gaps, timeout)
        && var run := ClientRun(Begin(RequestOf(call).value, old(sequence), retries), events, retries);
           run.sent == sent && run.transaction.Over? && run.transaction.outcome == outcome.value
           && run.transaction.sequence == sequence
      ensures outcome.Some? ==>
        var request := RequestOf(call).value;
        if outcome.value == TimedOut then GivesUpFully(request, sequence, retries, sent)
        else polls > 0 && Concludes(request, sequence, inbox(polls - 1), outcome.value)
    {
      hide ClientRun, Replies, AreReads, Punctual, GivesUpFully, Concludes;
      var request := RequestOf(call);
      if request.None? {
        return None, [], 0, [];
      }
      RequestsAreValid(call);
      var result;
      result, sent, polls, events := TransactLocked(request.value, gaps, inbox);
      outcome := Some(result);
    }

    /**
     `_discover_locked`: resend one PING until a STATUS from the node answers it. By `OneSearch`
     there is one course it can take, so it neither gives up early nor skips a reply.
     */
    method DiscoverLocked(destination: u8, gaps: Gaps, inbox: Inbox)
      returns (result: Discovery, sent: seq<Message>, polls: nat, ghost events: seq<ClientEvent>)
      requires NODE_MIN <= destination <= NODE_MAX
      modifies this
      ensures sequence == NextSequence(old(sequence))
      ensures 1 <= |sent| <= retries + 1 && forall i :: 0 <= i < |sent| ==> Some(sent[i]) == PingMessage(destination, sequence)
      ensures forall i :: 0 <= i < polls - 1 ==> JudgeStatus(destination, sequence, inbox(i)) == Skip
      ensures result == NotFound ==> |sent| == retries + 1
      ensures result != NotFound ==>
        polls > 0 && JudgeStatus(destination, sequence, inbox(polls - 1)) == Conclude(result)
      ensures |Replies(events)| == polls && AreReads(Replies(events), inbox)
      ensures PunctualSearch(destination, sequence, retries, events, gaps, timeout)
      ensures SearchRun(destination, sequence, retries, events) == Ended(result)
    {
      hide JudgeStatus, NextSequence, PunctualSearch, SearchRun, SearchTimer, Replies, OnTime, PingMessage, ParseId, SearchedInTime;
      var current := NextSeq();
      PingExists(destination, current);
      var message := PingMessage(destination, current).value;
      var readings := 0;
      sent, polls, events := [], 0, [];
      NothingSearched(destination, current, retries, gaps, timeout);
      var tries := 0;
      while tries < retries + 1
        invariant 0 <= tries <= retries + 1 && |sent| == tries
        invariant sequence == current
        invariant forall i :: 0 <= i < |sent| ==> Some(sent[i]) == PingMessage(destination, current)
        invariant forall i :: 0 <= i < polls ==> JudgeStatus(destination, current, inbox(i)) == Skip
        invariant |Replies(events)| == polls && AreReads(Replies(events), inbox)
        invariant PunctualSearch(destination, current, retries, events, gaps, timeout)
        invariant SearchRun(destination, current, retries, events)
               == if tries <= retries then Searching(retries - tries) else Ended(NotFound)
        invariant SearchTimer(events, gaps) == Timer(readings + 1, 0)
      {
        sent := sent + [message];
        var verdict;
        verdict, readings, polls, events := AwaitStatus(
          destination, current, gaps, readings, inbox, polls, retries - tries, events);
        if verdict.Conclude? {
          return verdict.result, sent, polls, events;
        }
        SearchExtends(destination, current, retries, events, DeadlinePassed, gaps, timeout);
        events := events + [DeadlinePassed];
        tries := tries + 1;
      }
      result := NotFound;
    }

    /** The receive loop of one PING. */
    method AwaitStatus(
      destination: u8, waitingFor: u16, gaps: Gaps, readings: nat, inbox: Inbox, polls: nat,
      ghost resends: nat, ghost history: seq<ClientEvent>)
      returns (verdict: StatusVerdict, readingsAfter: nat, pollsAfter: nat, ghost events: seq<ClientEvent>)
      requires |Replies(history)| == polls && AreReads(Replies(history), inbox)
      requires forall i :: 0 <= i < polls ==> JudgeStatus(destination, waitingFor, inbox(i)) == Skip
      requires PunctualSearch(destination, waitingFor, retries, history, gaps, timeout)
      requires SearchRun(destination, waitingFor, retries, history) == Searching(resends)
      requires SearchTimer(history, gaps) == Timer(readings + 1, 0)
      ensures history <= events && forall i :: |history| <= i < |events| ==> events[i].Received?
      ensures polls <= pollsAfter && |Replies(events)| == pollsAfter && AreReads(Replies(events), inbox)
      ensures PunctualSearch(destination, waitingFor, retries, events, gaps, timeout)
      ensures forall i :: 0 <= i < pollsAfter - 1 ==> JudgeStatus(destination, waitingFor, inbox(i)) == Skip
      ensures verdict == Skip ==>
        (forall i :: 0 <= i < pollsAfter ==> JudgeStatus(destination, waitingFor, inbox(i)) == Skip)
        && SearchRun(destination, waitingFor, retries, events) == Searching(resends)
        && SearchTimer(events, gaps).next + 1 == readingsAfter
        && OnTime(SearchTimer(events, gaps), DeadlinePassed, gaps, timeout)
      ensures verdict.Conclude? ==>
        pollsAfter > 0 && JudgeStatus(destination, waitingFor, inbox(pollsAfter - 1)) == verdict
        && verdict.result != NotFound
        && SearchRun(destination, waitingFor, retries, events) == Ended(verdict.result)
      ensures SearchedInTime(gaps, readings, pollsAfter - polls, verdict == Skip, readingsAfter, timeout)
    {
      hide JudgeStatus, PunctualSearch, SearchRun, SearchTimer, Replies, Elapsed;
      ElapsedStep(gaps, readings + 1, 0);
      events, pollsAfter, readingsAfter, verdict := history, polls, readings + 1, Skip;
      var waited := 0;
      while true
        invariant history <= events && forall i :: |history| <= i < |events| ==> events[i].Received?
        invariant polls <= pollsAfter && |Replies(events)| == pollsAfter && AreReads(Replies(events), inbox)
        invariant PunctualSearch(destination, waitingFor, retries, events, gaps, timeout)
        invariant SearchRun(destination, waitingFor, retries, events) == Searching(resends)
        invariant SearchTimer(events, gaps) == Timer(readingsAfter, waited)
        invariant readingsAfter == readings + 1 + 2 * (pollsAfter - polls)
        invariant waited == Elapsed(gaps, readings + 1, 2 * (pollsAfter - polls))
        invariant pollsAfter > polls ==> Elapsed(gaps, readings + 1, 2 * (pollsAfter - polls) - 1) < timeout
        invariant forall i :: 0 <= i < pollsAfter ==> JudgeStatus(destination, waitingFor, inbox(i)) == Skip
        invariant verdict == Skip
        decreases timeout - waited
      {
        ElapsedStep(gaps, readings + 1, 2 * (pollsAfter - polls));
        ElapsedStep(gaps, readings + 1, 2 * (pollsAfter - polls) + 1);
        waited := waited + 1 + gaps(readingsAfter);
        readingsAfter := readingsAfter + 1;
        if waited >= timeout {
          return;
        }
        // The remaining time is read again for the receive call itself.
        waited := waited + 1 + gaps(readingsAfter);
        readingsAfter := readingsAfter + 1;
        var reply := inbox(pollsAfter);
        SearchExtends(destination, waitingFor, retries, events, Received(reply), gaps, timeout);
        events := events + [Received(reply)];
        pollsAfter := pollsAfter + 1;
        verdict := JudgeStatus(destination, waitingFor, reply);
        if verdict.Conclude? {
          ConclusionsAreFindings(destination, waitingFor, reply);
          return;
        }
      }
    }

    /** Fire and forget: no node answers a broadcast. */
    method BroadcastEnterSafe() returns (message: Option<Message>)
      modifies this
      ensures sequence == NextSequence(old(sequence))
      ensures message == BroadcastMessage(sequence)
    {
      var current := NextSeq();
      message := BroadcastMessage(current);
    }
  }

  function BroadcastMessage(sequence: u16): Option<Message>
  {
    match BuildId(ENTER_SAFE, BROADCAST, CONTROLLER, sequence)
    case None => None
    case Some(id) => Some(Message(id, true, false, []))
  }

  lemma RequestsAreValid(call: Call)
    requires RequestOf(call).Some?
    ensures ValidRequest(RequestOf(call).value)
  {
  }

  lemma JudgeResequencesFirst(request: Request, sequence: u16, firstAttempt: bool, reply: Option<Message>)
    ensures Judge(request, sequence, firstAttempt, reply) == Resequence ==> firstAttempt
  {
  }

  lemma NothingRun(start: Reaction, retries: nat, gaps: Gaps, timeout: nat)
    ensures ClientRun(start, [], retries) == start && Replies([]) == []
    ensures Punctual(start, [], retries, gaps, timeout) && TimerAfter(start, [], retries, gaps) == Timer(1, 0)
  {
  }

  lemma RunExtends(start: Reaction, events: seq<ClientEvent>, event: ClientEvent, retries: nat)
    ensures Replies(events + [event]) == Replies(events) + if event.Received? then [event.reply] else []
    ensures var before := ClientRun(start, events, retries);
      var next := ClientStep(before.transaction, event, retries);
      ClientRun(start, events + [event], retries) == Reaction(next.transaction, before.sent + next.sent)
  {
    hide ClientStep;
    assert (events + [event])[..|events|] == events;
  }

  lemma MessageExists(request: Request, sequence: u16)
    requires ValidRequest(request)
    ensures MakeMessage(request, sequence).Some?
    ensures var m := MakeMessage(request, sequence).value; m.extended && !m.remote && m.data == request.payload
    ensures MakeMessage(request, sequence).value.id <= EXTENDED_ID_MAX
    ensures ParseId(MakeMessage(request, sequence).value.id)
         == Some(IdFields(request.kind, request.destination, CONTROLLER, sequence))
  {
    hide BuildId, MakeId, ParseId;
    var f := IdFields(request.kind, request.destination, CONTROLLER, sequence);
    BuildIdAgreesWithC(f.kind, f.destination, f.source, f.sequence);
    ParseAfterMake(f);
    MakeAfterParse(MakeId(f.kind, f.destination, f.source, f.sequence).value);
  }
}
