/**
 The CAN bus driver's queues: stm32/app/src/can/bus.c. `can_transmit` is taken to succeed exactly
 when a mailbox is free; mailboxes are otherwise hardware, reduced to a count of free ones.
 */
module CanBus {
  import opened Bits
  import opened Protocol
  import opened TxQueue
  import RxQueue
  import Filter

  /** An entry given to a mailbox, with everything that was waiting for one at that moment. */
  datatype Handover = Handover(entry: Entry, waiting: seq<Entry>)

  datatype Transmitter = Transmitter(queue: seq<Entry>, free: nat, handed: seq<Handover>, dropped: u16)

  function HandOver(t: Transmitter, entry: Entry, waiting: seq<Entry>): Transmitter
    requires t.free > 0
  {
    t.(free := t.free - 1, handed := t.handed + [Handover(entry, waiting)])
  }

  /** Give the most important queued entry to a free mailbox; `incoming` is waiting as well. */
  function DrainOne(t: Transmitter, incoming: seq<Entry>): Transmitter
    requires t.free > 0 && t.queue != []
  {
    var i := Highest(t.queue);
    HandOver(t, t.queue[i], t.queue + incoming).(queue := RemoveAt(t.queue, i))
  }

  function Drain(t: Transmitter): Transmitter
    decreases |t.queue|
  {
    if t.queue != [] && t.free > 0 then Drain(DrainOne(t, [])) else t
  }

  datatype Sent = Sent(tx: Transmitter, accepted: bool, lost: seq<Entry>)

  function Enqueue(t: Transmitter, entry: Entry): Transmitter
  {
    Drain(t.(queue := t.queue + [entry]))
  }

  /** `can_bus_send` on a frame that passed its checks, branch by branch. */
  function Send(t: Transmitter, entry: Entry, capacity: nat): Sent
  {
    if t.queue == [] && t.free > 0 then Sent(HandOver(t, entry, [entry]), true, [])
    else if |t.queue| < capacity then Sent(Enqueue(t, entry), true, [])
    else if t.free > 0 then
      if entry.priority < t.queue[Highest(t.queue)].priority then
        Sent(HandOver(t, entry, t.queue + [entry]), true, [])
      else Sent(Enqueue(DrainOne(t, [entry]), entry), true, [])
    else
      Sent(t.(queue := AfterOffer(t.queue, entry), dropped := Increment(t.dropped)),
           Evicts(t.queue, entry.priority), [Dropped(t.queue, entry)])
  }

  /** What happens to the transmitter: the program offers a frame, hardware frees a mailbox, the ISR runs. */
  datatype Event = Offer(frame: Frame, priority: u8) | MailboxFreed | Interrupt

  datatype History = History(tx: Transmitter, offered: seq<Entry>, lost: seq<Entry>)

  function Advance(h: History, event: Event, capacity: nat): History
  {
    match event
    case Offer(frame, priority) =>
      var entry := Entry(frame, priority, |h.offered|);
      var sent := Send(h.tx, entry, capacity);
      History(sent.tx, h.offered + [entry], h.lost + sent.lost)
    case MailboxFreed => h.(tx := h.tx.(free := h.tx.free + 1))
    case Interrupt => h.(tx := Drain(h.tx))
  }

  function Run(mailboxes: nat, events: seq<Event>, capacity: nat): History
    decreases |events|
  {
    if events == [] then History(Transmitter([], mailboxes, [], 0), [], [])
    else Advance(Run(mailboxes, events[..|events| - 1], capacity), events[|events| - 1], capacity)
  }

  /** No waiting entry is more important, and of the equally important this one came first. */
  predicate IsLeast(entry: Entry, waiting: seq<Entry>)
  {
    entry in waiting
    && forall i :: 0 <= i < |waiting| ==>
      entry.priority < waiting[i].priority
      || (entry.priority == waiting[i].priority && entry.arrival <= waiting[i].arrival)
  }

  predicate InArrivalOrder(s: seq<Entry>)
  {
    forall i, j :: 0 <= i < j < |s| ==> s[i].arrival < s[j].arrival
  }

  predicate AllBefore(s: seq<Entry>, limit: nat)
  {
    forall i :: 0 <= i < |s| ==> s[i].arrival < limit
  }

  function Entries(handed: seq<Handover>): (s: seq<Entry>)
    ensures |s| == |handed|
    ensures forall i :: 0 <= i < |s| ==> s[i] == handed[i].entry
  {
    if handed == [] then [] else Entries(handed[..|handed| - 1]) + [handed[|handed| - 1].entry]
  }

  /** Within one priority class, `s` is in arrival order. */
  predicate ClassesInOrder(s: seq<Entry>)
  {
    forall i, j :: 0 <= i < j < |s| && s[i].priority == s[j].priority ==> s[i].arrival < s[j].arrival
  }

  /** No queued entry came before an entry of its own priority that has already gone. */
  predicate NoneOvertaken(gone: seq<Entry>, queue: seq<Entry>)
  {
    forall i, j :: 0 <= i < |gone| && 0 <= j < |queue| && gone[i].priority == queue[j].priority ==>
      gone[i].arrival < queue[j].arrival
  }

  predicate EachWasLeast(handed: seq<Handover>)
  {
    forall i :: 0 <= i < |handed| ==> IsLeast(handed[i].entry, handed[i].waiting)
  }

  predicate Orderly(t: Transmitter, limit: nat)
  {
    && InArrivalOrder(t.queue)
    && AllBefore(t.queue, limit)
    && AllBefore(Entries(t.handed), limit)
    && ClassesInOrder(Entries(t.handed))
    && NoneOvertaken(Entries(t.handed), t.queue)
    && EachWasLeast(t.handed)
  }

  lemma EntriesAppend(handed: seq<Handover>, h: Handover)
    ensures Entries(handed + [h]) == Entries(handed) + [h.entry]
  {
    assert (handed + [h])[..|handed|] == handed;
  }

  lemma HighestIsLeast(s: seq<Entry>, incoming: seq<Entry>, limit: nat)
    requires s != [] && InArrivalOrder(s) && AllBefore(s, limit)
    requires forall k :: 0 <= k < |incoming| ==>
      incoming[k].arrival >= limit && incoming[k].priority >= s[Highest(s)].priority
    ensures IsLeast(s[Highest(s)], s + incoming)
  {
  }

  lemma RemoveKeepsOrder(s: seq<Entry>, i: nat, limit: nat)
    requires i < |s| && InArrivalOrder(s) && AllBefore(s, limit)
    ensures InArrivalOrder(RemoveAt(s, i)) && AllBefore(RemoveAt(s, i), limit)
  {
  }

  lemma RemoveHighestOvertakesNone(gone: seq<Entry>, s: seq<Entry>)
    requires s != [] && InArrivalOrder(s) && NoneOvertaken(gone, s)
    ensures NoneOvertaken(gone + [s[Highest(s)]], RemoveAt(s, Highest(s)))
  {
    var i := Highest(s);
    var rest, after := RemoveAt(s, i), gone + [s[i]];
    forall g, j | 0 <= g < |after| && 0 <= j < |rest| && after[g].priority == rest[j].priority
      ensures after[g].arrival < rest[j].arrival
    {
      var k := if j < i then j else j + 1;
      assert rest[j] == s[k];
      if g == |gone| {
        assert k > i;
      } else {
        assert after[g] == gone[g];
      }
    }
  }

  lemma ClassesExtend(gone: seq<Entry>, queue: seq<Entry>, i: nat)
    requires i < |queue| && ClassesInOrder(gone) && NoneOvertaken(gone, queue)
    ensures ClassesInOrder(gone + [queue[i]])
  {
  }

  /** Handing over the most important queued entry keeps every order that matters. */
  lemma DrainOneKeepsOrder(t: Transmitter, limit: nat, incoming: seq<Entry>)
    requires Orderly(t, limit) && t.free > 0 && t.queue != []
    requires forall k :: 0 <= k < |incoming| ==>
      incoming[k].arrival >= limit && incoming[k].priority >= t.queue[Highest(t.queue)].priority
    ensures Orderly(DrainOne(t, incoming), limit)
  {
    hide RemoveAt, ClassesInOrder, InArrivalOrder, NoneOvertaken, IsLeast, Entries;
    var i := Highest(t.queue);
    HighestIsLeast(t.queue, incoming, limit);
    EntriesAppend(t.handed, Handover(t.queue[i], t.queue + incoming));
    RemoveKeepsOrder(t.queue, i, limit);
    RemoveHighestOvertakesNone(Entries(t.handed), t.queue);
    ClassesExtend(Entries(t.handed), t.queue, i);
  }

  lemma {:induction false} DrainKeepsOrder(t: Transmitter, limit: nat)
    requires Orderly(t, limit)
    ensures Orderly(Drain(t), limit)
    decreases |t.queue|
  {
    hide Orderly;
    if t.queue != [] && t.free > 0 {
      DrainOneKeepsOrder(t, limit, []);
      DrainKeepsOrder(DrainOne(t, []), limit);
    }
  }

  /** The newcomer goes straight out: only when nothing queued is as important as it. */
  lemma DirectKeepsOrder(t: Transmitter, entry: Entry)
    requires Orderly(t, entry.arrival) && t.free > 0
    requires forall i :: 0 <= i < |t.queue| ==> entry.priority < t.queue[i].priority
    ensures Orderly(HandOver(t, entry, t.queue + [entry]), entry.arrival + 1)
  {
    hide ClassesInOrder, NoneOvertaken, AllBefore, IsLeast, Entries;
    var gone := Entries(t.handed);
    EntriesAppend(t.handed, Handover(entry, t.queue + [entry]));
    NewestIsLast(gone, entry);
    NewestIsLast(t.queue, entry);
    LeastOfAll(t.queue, entry);
    OvertakesNone(gone, t.queue, entry);
  }

  lemma NewestIsLast(s: seq<Entry>, entry: Entry)
    requires AllBefore(s, entry.arrival)
    ensures AllBefore(s, entry.arrival + 1) && AllBefore(s + [entry], entry.arrival + 1)
    ensures ClassesInOrder(s) ==> ClassesInOrder(s + [entry])
    ensures InArrivalOrder(s) ==> InArrivalOrder(s + [entry])
  {
  }

  lemma LeastOfAll(s: seq<Entry>, entry: Entry)
    requires forall i :: 0 <= i < |s| ==> entry.priority < s[i].priority
    ensures IsLeast(entry, s + [entry])
  {
  }

  lemma OvertakesNone(gone: seq<Entry>, s: seq<Entry>, entry: Entry)
    requires NoneOvertaken(gone, s)
    requires forall i :: 0 <= i < |s| ==> entry.priority < s[i].priority
    ensures NoneOvertaken(gone + [entry], s)
  {
  }

  lemma AppendKeepsOrder(t: Transmitter, entry: Entry)
    requires Orderly(t, entry.arrival)
    ensures Orderly(t.(queue := t.queue + [entry]), entry.arrival + 1)
  {
  }

  lemma EnqueueKeepsOrder(t: Transmitter, entry: Entry)
    requires Orderly(t, entry.arrival)
    ensures Orderly(Enqueue(t, entry), entry.arrival + 1)
  {
    AppendKeepsOrder(t, entry);
    DrainKeepsOrder(t.(queue := t.queue + [entry]), entry.arrival + 1);
  }

  lemma EvictionKeepsOrder(t: Transmitter, entry: Entry)
    requires Orderly(t, entry.arrival)
    ensures Orderly(t.(queue := AfterOffer(t.queue, entry)), entry.arrival + 1)
  {
    if Evicts(t.queue, entry.priority) {
      hide ClassesInOrder, InArrivalOrder, AllBefore, NoneOvertaken, EachWasLeast, Entries, RemoveAt, Lowest;
      var i := Lowest(t.queue);
      RemoveKeepsOrder(t.queue, i, entry.arrival);
      RemoveOvertakesNone(Entries(t.handed), t.queue, i);
      AppendKeepsOrder(t.(queue := RemoveAt(t.queue, i)), entry);
    } else {
      NewestIsLast(t.queue, entry);
      NewestIsLast(Entries(t.handed), entry);
    }
  }

  lemma RemoveOvertakesNone(gone: seq<Entry>, s: seq<Entry>, i: nat)
    requires i < |s| && NoneOvertaken(gone, s)
    ensures NoneOvertaken(gone, RemoveAt(s, i))
  {
    assert forall j :: 0 <= j < |s| - 1 ==> RemoveAt(s, i)[j] == s[if j < i then j else j + 1];
  }

  lemma SendKeepsOrder(t: Transmitter, entry: Entry, capacity: nat)
    requires Orderly(t, entry.arrival)
    ensures Orderly(Send(t, entry, capacity).tx, entry.arrival + 1)
  {
    hide Orderly, AfterOffer, Enqueue;
    if t.queue == [] && t.free > 0 {
      DirectKeepsOrder(t, entry);
      assert t.queue + [entry] == [entry];
    } else if |t.queue| < capacity {
      EnqueueKeepsOrder(t, entry);
    } else if t.free > 0 {
      if entry.priority < t.queue[Highest(t.queue)].priority {
        DirectKeepsOrder(t, entry);
      } else {
        DrainOneKeepsOrder(t, entry.arrival, [entry]);
        EnqueueKeepsOrder(DrainOne(t, [entry]), entry);
      }
    } else {
      EvictionKeepsOrder(t, entry);
      DroppedCountIrrelevant(t.(queue := AfterOffer(t.queue, entry)), Increment(t.dropped), entry.arrival + 1);
    }
  }

  lemma DroppedCountIrrelevant(t: Transmitter, dropped: u16, limit: nat)
    ensures Orderly(t.(dropped := dropped), limit) == Orderly(t, limit)
    ensures forall free: nat :: Orderly(t.(free := free), limit) == Orderly(t, limit)
  {
  }

  /**
   On every run, each frame given to a mailbox was the least by (priority, arrival) of all that
   waited, the newcomer included; and each priority class leaves in the order it was offered.
   */
  lemma {:induction false} TransmissionIsOrderly(mailboxes: nat, events: seq<Event>, capacity: nat)
    ensures var h := Run(mailboxes, events, capacity);
      Orderly(h.tx, |h.offered|) && EachWasLeast(h.tx.handed) && ClassesInOrder(Entries(h.tx.handed))
    decreases |events|
  {
    hide Drain, Send;
    if events != [] {
      var h, event := Run(mailboxes, events[..|events| - 1], capacity), events[|events| - 1];
      TransmissionIsOrderly(mailboxes, events[..|events| - 1], capacity);
      match event
      case Offer(frame, priority) => SendKeepsOrder(h.tx, Entry(frame, priority, |h.offered|), capacity);
      case MailboxFreed => DroppedCountIrrelevant(h.tx, h.tx.dropped, |h.offered|);
      case Interrupt => DrainKeepsOrder(h.tx, |h.offered|);
    }
  }

  function Held(t: Transmitter): multiset<Entry>
  {
    multiset(Entries(t.handed)) + multiset(t.queue)
  }

  lemma HandOverHolds(t: Transmitter, entry: Entry, waiting: seq<Entry>)
    requires t.free > 0
    ensures Held(HandOver(t, entry, waiting)) == Held(t) + multiset{entry}
  {
    EntriesAppend(t.handed, Handover(entry, waiting));
  }

  lemma DrainOneHolds(t: Transmitter, incoming: seq<Entry>)
    requires t.free > 0 && t.queue != []
    ensures Held(DrainOne(t, incoming)) == Held(t)
    ensures |DrainOne(t, incoming).queue| == |t.queue| - 1
  {
    var i := Highest(t.queue);
    HandOverHolds(t, t.queue[i], t.queue + incoming);
    RemoveAtCounts(t.queue, i);
  }

  lemma {:induction false} DrainHolds(t: Transmitter)
    ensures Held(Drain(t)) == Held(t) && |Drain(t).queue| <= |t.queue|
    ensures Drain(t).dropped == t.dropped
    ensures Drain(t).free == 0 || Drain(t).queue == []
    decreases |t.queue|
  {
    hide Held;
    if t.queue != [] && t.free > 0 {
      DrainOneHolds(t, []);
      DrainHolds(DrainOne(t, []));
    }
  }

  /** A handover takes one mailbox, so mailboxes are neither wasted nor used twice. */
  function Mailboxes(t: Transmitter): nat
  {
    t.free + |t.handed|
  }

  lemma {:induction false} DrainTakesMailboxes(t: Transmitter)
    ensures Mailboxes(Drain(t)) == Mailboxes(t)
    decreases |t.queue|
  {
    if t.queue != [] && t.free > 0 {
      DrainOneHolds(t, []);
      DrainTakesMailboxes(DrainOne(t, []));
    }
  }

  /**
   No frame waits beside a free mailbox once the driver has looked: after an interrupt never, and
   after a send only if an urgent newcomer took a mailbox ahead of a full queue.
   */
  lemma NothingWaitsNeedlessly(t: Transmitter, entry: Entry, capacity: nat)
    requires |t.queue| <= capacity
    ensures Drain(t).queue == [] || Drain(t).free == 0
    ensures Mailboxes(Drain(t)) == Mailboxes(t)
    ensures var sent := Send(t, entry, capacity).tx;
      && Mailboxes(sent) == Mailboxes(t)
      && (sent.queue == [] || sent.free == 0
          || (|t.queue| == capacity && entry.priority < t.queue[Highest(t.queue)].priority
              && sent.queue == t.queue && sent.handed == t.handed + [Handover(entry, t.queue + [entry])]))
  {
    hide Drain, Enqueue, Highest, AfterOffer, Evicts, Dropped, Entries, RemoveAt;
    DrainHolds(t);
    DrainTakesMailboxes(t);
    EnqueueFillsMailboxes(t, entry);
    if t.queue != [] && t.free > 0 {
      EnqueueFillsMailboxes(DrainOne(t, [entry]), entry);
    }
  }

  lemma EnqueueFillsMailboxes(t: Transmitter, entry: Entry)
    ensures var after := Enqueue(t, entry);
      Mailboxes(after) == Mailboxes(t) && (after.queue == [] || after.free == 0)
  {
    hide Drain;
    DrainHolds(t.(queue := t.queue + [entry]));
    DrainTakesMailboxes(t.(queue := t.queue + [entry]));
  }

  lemma EnqueueHolds(t: Transmitter, entry: Entry)
    ensures Held(Enqueue(t, entry)) == Held(t) + multiset{entry}
    ensures |Enqueue(t, entry).queue| <= |t.queue| + 1
    ensures Enqueue(t, entry).dropped == t.dropped
  {
    DrainHolds(t.(queue := t.queue + [entry]));
  }

  lemma EvictionHolds(t: Transmitter, entry: Entry)
    ensures Held(t.(queue := AfterOffer(t.queue, entry))) + multiset([Dropped(t.queue, entry)])
         == Held(t) + multiset{entry}
  {
    hide Entries, Lowest, Evicted, AfterOffer, Evicts, Dropped;
    EvictionLosesOne(t.queue, entry);
    assert multiset([Dropped(t.queue, entry)]) == multiset{Dropped(t.queue, entry)};
    Rebag(
      Held(t), multiset(t.queue), multiset(Entries(t.handed)),
      multiset(AfterOffer(t.queue, entry)), multiset([Dropped(t.queue, entry)]), multiset{entry});
  }

  /** What a send may lose: only with no mailbox free and the queue full, and then the least important frame. */
  predicate LossJustified(t: Transmitter, sent: Sent, capacity: nat)
  {
    sent.lost == []
    || (|sent.lost| == 1 && t.free == 0 && |t.queue| == capacity
        && forall e :: e in sent.tx.queue ==> e.priority <= sent.lost[0].priority)
  }

  /** A send loses nothing without counting it, and reports failure exactly when the newcomer is lost. */
  lemma SendConserves(t: Transmitter, entry: Entry, capacity: nat)
    requires |t.queue| <= capacity && AllBefore(t.queue, entry.arrival)
    ensures var sent := Send(t, entry, capacity);
      && Held(sent.tx) + multiset(sent.lost) == Held(t) + multiset{entry}
      && |sent.tx.queue| <= capacity
      && sent.tx.dropped == (if sent.lost == [] then t.dropped else Increment(t.dropped))
      && (sent.accepted <==> entry !in sent.lost)
      && LossJustified(t, sent, capacity)
  {
    hide Drain, Enqueue, AfterOffer, Dropped, Evicts, Entries, AllBefore;
    var sent := Send(t, entry, capacity);
    if t.queue == [] && t.free > 0 {
      HandOverHolds(t, entry, [entry]);
    } else if |t.queue| < capacity {
      EnqueueHolds(t, entry);
    } else if t.free > 0 {
      if entry.priority < t.queue[Highest(t.queue)].priority {
        HandOverHolds(t, entry, t.queue + [entry]);
      } else {
        DrainOneHolds(t, [entry]);
        EnqueueHolds(DrainOne(t, [entry]), entry);
      }
    } else {
      EvictionHolds(t, entry);
      EvictionLosesOne(t.queue, entry);
      EvictionKeepsTheImportant(t.queue, entry);
    }
  }

  lemma Rebag(
    offered: multiset<Entry>, held: multiset<Entry>, lost: multiset<Entry>,
    heldAfter: multiset<Entry>, newlyLost: multiset<Entry>, incoming: multiset<Entry>)
    requires offered == held + lost && heldAfter + newlyLost == held + incoming
    ensures offered + incoming == heldAfter + (lost + newlyLost)
  {
    forall e
      ensures (offered + incoming)[e] == (heldAfter + (lost + newlyLost))[e]
    {
      assert (heldAfter + newlyLost)[e] == (held + incoming)[e];
    }
  }

  predicate Conserved(h: History, capacity: nat)
  {
    && multiset(h.offered) == Held(h.tx) + multiset(h.lost)
    && h.tx.dropped == Saturated(|h.lost|)
    && |h.tx.queue| <= capacity
    && forall i :: 0 <= i < |h.offered| ==> h.offered[i].arrival == i
  }

  lemma OfferConserves(h: History, event: Event, capacity: nat)
    requires Conserved(h, capacity) && AllBefore(h.tx.queue, |h.offered|) && event.Offer?
    ensures Conserved(Advance(h, event, capacity), capacity)
  {
    hide Held, Send, AllBefore;
    var entry := Entry(event.frame, event.priority, |h.offered|);
    SendConserves(h.tx, entry, capacity);
    var sent := Send(h.tx, entry, capacity);
    assert multiset(h.lost + sent.lost) == multiset(h.lost) + multiset(sent.lost);
    assert multiset(h.offered + [entry]) == multiset(h.offered) + multiset{entry};
    Rebag(multiset(h.offered), Held(h.tx), multiset(h.lost), Held(sent.tx), multiset(sent.lost), multiset{entry});
    assert sent.tx.dropped == Saturated(|h.lost + sent.lost|);
  }

  /** Frames offered are handed over, still queued, or dropped; and the drop counter is true until it saturates. */
  lemma {:induction false} TransmissionConserves(mailboxes: nat, events: seq<Event>, capacity: nat)
    ensures var h := Run(mailboxes, events, capacity);
      && Conserved(h, capacity)
      && |h.offered| == |h.tx.handed| + |h.tx.queue| + |h.lost|
    decreases |events|
  {
    hide Drain, Send, Orderly, Held;
    var after := Run(mailboxes, events, capacity);
    if events == [] {
      NothingHeld(mailboxes);
    } else {
      var h, event := Run(mailboxes, events[..|events| - 1], capacity), events[|events| - 1];
      TransmissionConserves(mailboxes, events[..|events| - 1], capacity);
      if event.Offer? {
        TransmissionIsOrderly(mailboxes, events[..|events| - 1], capacity);
        OrderlyBounds(h.tx, |h.offered|);
        OfferConserves(h, event, capacity);
      } else {
        DrainHolds(h.tx);
        FreeCountIrrelevant(h.tx, h.tx.free + 1);
      }
    }
    CountsFromBags(after);
  }

  lemma NothingHeld(mailboxes: nat)
    ensures Held(Transmitter([], mailboxes, [], 0)) == multiset{}
  {
  }

  lemma FreeCountIrrelevant(t: Transmitter, free: nat)
    ensures Held(t.(free := free)) == Held(t)
  {
  }

  lemma OrderlyBounds(t: Transmitter, limit: nat)
    requires Orderly(t, limit)
    ensures AllBefore(t.queue, limit)
  {
  }

  lemma CountsFromBags(h: History)
    requires multiset(h.offered) == Held(h.tx) + multiset(h.lost)
    ensures |h.offered| == |h.tx.handed| + |h.tx.queue| + |h.lost|
  {
    assert |multiset(h.offered)| == |multiset(Entries(h.tx.handed))| + |multiset(h.tx.queue)| + |multiset(h.lost)|;
  }

  /** The driver's static state. `handed` is the log of what the mailboxes were given. */
  class Driver {
    const transmitQueue: Queue
    const receiveQueue: RxQueue.Ring
    const filters: Filter.Registers
    var freeMailboxes: nat
    var handed: seq<Handover>
    var transmitDropped: u16
    var hardwareRxDropped: u16
    var arrivals: nat
    var initialized: bool

    ghost predicate Valid()
      reads this, transmitQueue, receiveQueue
    {
      transmitQueue.Valid() && receiveQueue.Valid()
    }

    ghost function Value(): Transmitter
      reads this, transmitQueue, transmitQueue.entries
      requires transmitQueue.Valid()
    {
      Transmitter(transmitQueue.Contents(), freeMailboxes, handed, transmitDropped)
    }

    /** The driver is where a history of offers, freed mailboxes and interrupts has got to. */
    ghost predicate IsAt(h: History)
      reads this, transmitQueue, transmitQueue.entries
    {
      transmitQueue.Valid() && Value() == h.tx && arrivals == |h.offered|
    }

    constructor (capacity: nat, mailboxes: nat)
      ensures Valid() && fresh(transmitQueue) && fresh(transmitQueue.entries)
      ensures fresh(receiveQueue) && fresh(receiveQueue.frames) && fresh(filters)
      ensures transmitQueue.entries.Length == capacity && !initialized
      ensures Value() == Transmitter([], mailboxes, [], 0)
      ensures IsAt(Run(mailboxes, [], capacity))
    {
      transmitQueue := new Queue(capacity);
      receiveQueue := new RxQueue.Ring();
      filters := new Filter.Registers();
      freeMailboxes, handed, transmitDropped, hardwareRxDropped, arrivals := mailboxes, [], 0, 0, 0;
      initialized := false;
    }

    /** `can_bus_setup`; `controllerReady` is what the bxCAN initialisation reports. */
    method Setup(selfNode: u8, controllerReady: bool) returns (ok: bool)
      requires Valid()
      modifies this`initialized, this`hardwareRxDropped, this`transmitDropped, transmitQueue`count, receiveQueue, filters
      ensures Valid()
      ensures !(NODE_MIN <= selfNode <= NODE_MAX) ==> !ok && initialized == old(initialized) && Value() == old(Value())
      ensures NODE_MIN <= selfNode <= NODE_MAX ==>
        ok == controllerReady && initialized == ok
        && Value() == old(Value()).(queue := [], dropped := 0)
        && hardwareRxDropped == 0 && receiveQueue.head == receiveQueue.tail && receiveQueue.dropped == 0
        && (ok ==> filters.unicast == Filter.UnicastBank(selfNode) && filters.broadcast == Filter.BroadcastBank())
    {
      if selfNode < NODE_MIN || selfNode > NODE_MAX {
        return false;
      }
      initialized, hardwareRxDropped, transmitDropped := false, 0, 0;
      receiveQueue.Init();
      transmitQueue.Init();
      if !controllerReady {
        return false;
      }
      var configured := filters.Configure(selfNode);
      if !configured {
        return false;
      }
      initialized := true;
      return true;
    }

    /** `can_bus_try_transmit_frame`; `waiting` only feeds the log. */
    method TryTransmit(entry: Entry, waiting: seq<Entry>) returns (ok: bool)
      requires Valid()
      modifies this`freeMailboxes, this`handed
      ensures ok == (old(freeMailboxes) > 0)
      ensures Value() == if ok then HandOver(old(Value()), entry, waiting) else old(Value())
    {
      if freeMailboxes == 0 {
        return false;
      }
      freeMailboxes := freeMailboxes - 1;
      handed := handed + [Handover(entry, waiting)];
      return true;
    }

    /** `can_bus_drain_one_tx_frame_locked`. */
    method DrainOneFrame(incoming: seq<Entry>) returns (ok: bool)
      requires Valid()
      modifies this`freeMailboxes, this`handed, transmitQueue`count, transmitQueue.entries
      ensures Valid()
      ensures ok == (old(Value()).queue != [] && old(freeMailboxes) > 0)
      ensures Value() == if ok then DrainOne(old(Value()), incoming) else old(Value())
    {
      if transmitQueue.count == 0 || freeMailboxes == 0 {
        return false;
      }
      var highest := transmitQueue.PeekHighest();
      if highest.None? {
        return false;
      }
      ok := TryTransmit(highest.value.0, transmitQueue.entries[..transmitQueue.count] + incoming);
      if ok {
        transmitQueue.Remove(highest.value.1);
      }
    }

    /** `can_bus_drain_tx_queue_locked`: keep going while something waits and a mailbox is free. */
    method DrainQueue()
      requires Valid()
      modifies this`freeMailboxes, this`handed, transmitQueue`count, transmitQueue.entries
      ensures Valid() && Value() == Drain(old(Value()))
    {
      while transmitQueue.count != 0 && freeMailboxes > 0
        invariant Valid() && Drain(Value()) == Drain(old(Value()))
        decreases transmitQueue.count
      {
        var highest := transmitQueue.PeekHighest();
        ghost var before := Value();
        var sent := TryTransmit(highest.value.0, transmitQueue.entries[..transmitQueue.count]);
        if !sent {
          return;
        }
        transmitQueue.Remove(highest.value.1);
        assert before.queue + [] == before.queue;
        assert Value() == DrainOne(before, []);
      }
    }

    /** The checks `can_bus_send` makes before it looks at the queue. */
    predicate Sendable(frame: Frame, priority: u8)
      reads this`initialized
    {
      initialized && frame.extended && !frame.remote && frame.id <= EXTENDED_ID_MAX
      && frame.length <= MAX_DATA_LENGTH && ValidPriority(priority)
    }

    method SendFrame(frame: Frame, priority: u8) returns (accepted: bool)
      requires Valid()
      modifies this, transmitQueue, transmitQueue.entries
      ensures Valid() && initialized == old(initialized) && hardwareRxDropped == old(hardwareRxDropped)
      ensures !old(Sendable(frame, priority)) ==> !accepted && Value() == old(Value()) && arrivals == old(arrivals)
      ensures old(Sendable(frame, priority)) <==>
        old(initialized) && frame.extended && !frame.remote && frame.id <= 0x1fff_ffff && frame.length <= 8 && priority <= 3
      ensures old(Sendable(frame, priority)) ==>
        arrivals == old(arrivals) + 1
        && var sent := Send(old(Value()), Entry(frame, priority, old(arrivals)), transmitQueue.entries.Length);
           accepted == sent.accepted && Value() == sent.tx
      ensures old(Sendable(frame, priority)) ==>
        forall h: History :: old(IsAt(h)) ==> IsAt(Advance(h, Offer(frame, priority), transmitQueue.entries.Length))
    {
      if !Sendable(frame, priority) {
        return false;
      }
      var entry := Entry(frame, priority, arrivals);
      arrivals := arrivals + 1;

      // A mailbox is for the taking only while nothing else waits.
      if transmitQueue.count == 0 {
        accepted := TryTransmit(entry, [entry]);
        if accepted {
          return;
        }
      }
      if transmitQueue.count < transmitQueue.entries.Length {
        accepted := transmitQueue.Push(entry);
        if accepted {
          DrainQueue();
        }
        return;
      }
      accepted := SendToFullQueue(entry);
    }

    /** The last three branches of `can_bus_send`. */
    method SendToFullQueue(entry: Entry) returns (accepted: bool)
      requires Valid() && ValidPriority(entry.priority)
      requires transmitQueue.count == transmitQueue.entries.Length
      requires transmitQueue.count == 0 ==> freeMailboxes == 0
      modifies this`freeMailboxes, this`handed, this`transmitDropped, transmitQueue`count, transmitQueue.entries
      ensures Valid()
      ensures var sent := Send(old(Value()), entry, transmitQueue.entries.Length);
        accepted == sent.accepted && Value() == sent.tx
    {
      var queued := None;
      if freeMailboxes > 0 {
        queued := transmitQueue.HighestPriority();
      }
      if queued.Some? {
        if entry.priority < queued.value {
          accepted := TryTransmit(entry, transmitQueue.entries[..transmitQueue.count] + [entry]);
        } else {
          accepted := DrainOneFrame([entry]);
          if accepted {
            accepted := transmitQueue.Push(entry);
            if accepted {
              DrainQueue();
            }
          }
        }
      } else {
        accepted := transmitQueue.ReplaceLowerPriority(entry);
        if transmitDropped != 0xffff {
          transmitDropped := transmitDropped + 1;
        }
      }
    }

    /** Hardware finishes sending from one mailbox. */
    method FreeMailbox()
      requires Valid()
      modifies this`freeMailboxes
      ensures forall h: History ::
        old(IsAt(h)) ==> IsAt(Advance(h, MailboxFreed, transmitQueue.entries.Length))
      ensures Value() == old(Value()).(free := old(freeMailboxes) + 1)
    {
      freeMailboxes := freeMailboxes + 1;
    }

    /** `cec_can_isr`: count an overrun, empty the hardware FIFO into the ring, refill the mailboxes. */
    method ServiceInterrupt(overrun: bool, pending: seq<Frame>)
      requires Valid()
      modifies this, transmitQueue, transmitQueue.entries, receiveQueue, receiveQueue.frames
      ensures Valid() && Value() == Drain(old(Value()))
      ensures hardwareRxDropped == if overrun then Increment(old(hardwareRxDropped)) else old(hardwareRxDropped)
      ensures receiveQueue.Value() == RxQueue.PushAll(old(receiveQueue.Value()), pending)
      ensures forall s: RxQueue.System ::
        s.ring == old(receiveQueue.Value()) ==>
          receiveQueue.Value() == RxQueue.Run(s, RxQueue.ArrivalsOf(pending)).ring
      ensures initialized == old(initialized) && arrivals == old(arrivals)
      ensures forall h: History ::
        old(IsAt(h)) ==> IsAt(Advance(h, Interrupt, transmitQueue.entries.Length))
    {
      if overrun {
        hardwareRxDropped := Increment(hardwareRxDropped);
      }
      var next := 0;
      while next < |pending|
        invariant 0 <= next <= |pending|
        invariant Valid() && Value() == old(Value())
        invariant hardwareRxDropped ==
          if overrun then Increment(old(hardwareRxDropped)) else old(hardwareRxDropped)
        invariant initialized == old(initialized) && arrivals == old(arrivals)
        invariant receiveQueue.Value() == RxQueue.PushAll(old(receiveQueue.Value()), pending[..next])
      {
        var pushed := receiveQueue.Push(pending[next]);
        assert pending[..next + 1][..next] == pending[..next];
        next := next + 1;
      }
      assert pending[..next] == pending;
      forall s: RxQueue.System | s.ring == old(receiveQueue.Value())
        ensures receiveQueue.Value() == RxQueue.Run(s, RxQueue.ArrivalsOf(pending)).ring
      {
        RxQueue.InterruptIsArrivals(s, pending);
      }
      DrainQueue();
    }

    method Receive() returns (r: Option<Frame>)
      requires Valid()
      modifies receiveQueue`tail
      ensures Valid()
      ensures !initialized ==> r == None && receiveQueue.Value() == old(receiveQueue.Value())
      ensures initialized ==>
        r == (if old(receiveQueue.head) == old(receiveQueue.tail) then None
              else Some(old(receiveQueue.frames[RxQueue.Slot(receiveQueue.tail)])))
        && receiveQueue.Value() == if r.None? then old(receiveQueue.Value())
                                   else old(receiveQueue.Value()).(tail := RxQueue.Next(old(receiveQueue.tail)))
    {
      if !initialized {
        return None;
      }
      r := receiveQueue.Pop();
    }

    /** Both counters may have stopped counting; the sum is still that of the frames truly lost, stopped likewise. */
    method RxDropped() returns (count: u16)
      ensures forall overruns: nat, refused: nat ::
        hardwareRxDropped == Saturated(overruns) && receiveQueue.dropped == Saturated(refused) ==>
          count == Saturated(overruns + refused)
    {
      count := RxQueue.SaturatingAdd(hardwareRxDropped, receiveQueue.dropped);
      forall overruns: nat, refused: nat
        | hardwareRxDropped == Saturated(overruns) && receiveQueue.dropped == Saturated(refused)
        ensures count == Saturated(overruns + refused)
      {
        RxQueue.SaturationCommutesWithSum(overruns, refused);
      }
    }
  }
}
