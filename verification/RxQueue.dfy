/**
 The receive ring: stm32/app/src/can/rx_queue.c. The interrupt pushes and the main loop pops,
 each moving one 8-bit index that wraps; the interrupt may run between any two steps of a pop.
 */
module RxQueue {
  import opened Bits
  import opened Protocol

  const CAPACITY := 8
  const INDEX_MASK: u8 := 7

  const NO_FRAME: Frame := Frame(0, false, false, 0, [0, 0, 0, 0, 0, 0, 0, 0])

  datatype RingState = RingState(frames: seq<Frame>, head: u8, tail: u8, dropped: u16)

  type RingValue = r: RingState | |r.frames| == CAPACITY
    witness RingState([NO_FRAME, NO_FRAME, NO_FRAME, NO_FRAME, NO_FRAME, NO_FRAME, NO_FRAME, NO_FRAME], 0, 0, 0)

  function Slot(index: u8): (slot: nat)
    ensures slot == index % 8
  {
    AndMask(index, 3);
    Powers();
    And(index, INDEX_MASK)
  }

  /** The 8-bit distance `(uint8_t)(head - tail)`. */
  function Distance(head: u8, tail: u8): u8
  {
    (head - tail) % 0x100
  }

  function Next(index: u8): u8
  {
    (index + 1) % 0x100
  }

  predicate Full(r: RingValue)
  {
    Distance(r.head, r.tail) >= CAPACITY
  }

  function PushIsr(r: RingValue, frame: Frame): RingValue
  {
    if Full(r) then r.(dropped := Increment(r.dropped))
    else r.(frames := r.frames[Slot(r.head) := frame], head := Next(r.head))
  }

  /** Where the main loop stands inside `can_rx_queue_pop`. */
  datatype Stage =
    | Outside
    | TailRead(tail: u8)
    | HeadTested(tail: u8)
    | FrameCopied(tail: u8, frame: Frame)

  /** The ring with the popper's local state, and the history of what went in and came out. */
  datatype System = System(
    ring: RingValue, stage: Stage, accepted: seq<Frame>, lost: nat, delivered: seq<Frame>, foundEmpty: nat)

  datatype Step = Arrive(frame: Frame) | PopStep

  function Advance(s: System, step: Step): System
  {
    match step
    case Arrive(frame) =>
      if Full(s.ring) then s.(ring := PushIsr(s.ring, frame), lost := s.lost + 1)
      else s.(ring := PushIsr(s.ring, frame), accepted := s.accepted + [frame])
    case PopStep =>
      match s.stage
      case Outside => s.(stage := TailRead(s.ring.tail))
      case TailRead(tail) =>
        if tail == s.ring.head then s.(stage := Outside, foundEmpty := s.foundEmpty + 1)
        else s.(stage := HeadTested(tail))
      case HeadTested(tail) => s.(stage := FrameCopied(tail, s.ring.frames[Slot(tail)]))
      case FrameCopied(tail, frame) =>
        s.(ring := s.ring.(tail := Next(tail)), stage := Outside, delivered := s.delivered + [frame])
  }

  function Run(s: System, steps: seq<Step>): System
    decreases |steps|
  {
    if steps == [] then s else Advance(Run(s, steps[..|steps| - 1]), steps[|steps| - 1])
  }

  const START := System(
    RingState([NO_FRAME, NO_FRAME, NO_FRAME, NO_FRAME, NO_FRAME, NO_FRAME, NO_FRAME, NO_FRAME], 0, 0, 0),
    Outside, [], 0, [], 0)

  /** The specification: a bounded queue that drops the newest arrival when it is full. */
  datatype Fifo = Fifo(items: seq<Frame>, lost: nat, delivered: seq<Frame>, foundEmpty: nat)

  function Offer(q: Fifo, frame: Frame): Fifo
  {
    if |q.items| < CAPACITY then q.(items := q.items + [frame]) else q.(lost := q.lost + 1)
  }

  function Take(q: Fifo): Fifo
  {
    if q.items == [] then q.(foundEmpty := q.foundEmpty + 1)
    else q.(items := q.items[1..], delivered := q.delivered + [q.items[0]])
  }

  /** What one concrete step does to the specification: arrivals offer, the two ends of a pop take. */
  function SpecStep(q: Fifo, s: System, step: Step): Fifo
  {
    if step.Arrive? then Offer(q, step.frame)
    else if s.stage.FrameCopied? || (s.stage.TailRead? && s.stage.tail == s.ring.head) then Take(q)
    else q
  }

  function SpecRun(steps: seq<Step>): Fifo
    decreases |steps|
  {
    if steps == [] then Fifo([], 0, [], 0)
    else SpecStep(SpecRun(steps[..|steps| - 1]), Run(START, steps[..|steps| - 1]), steps[|steps| - 1])
  }

  /** The ring's contents, read off its history. */
  function Abstraction(s: System): Fifo
    requires |s.delivered| <= |s.accepted|
  {
    Fifo(s.accepted[|s.delivered|..], s.lost, s.delivered, s.foundEmpty)
  }

  ghost predicate Consistent(s: System)
  {
    var d, a := |s.delivered|, |s.accepted|;
    && d <= a <= d + CAPACITY
    && s.ring.head == a % 0x100 && s.ring.tail == d % 0x100
    && (forall i :: d <= i < a ==> s.ring.frames[i % 8] == s.accepted[i])
    && s.delivered == s.accepted[..d]
    && s.ring.dropped == Saturated(s.lost)
    && (!s.stage.Outside? ==> s.stage.tail == s.ring.tail)
    && (s.stage.HeadTested? || s.stage.FrameCopied? ==> d < a)
    && (s.stage.FrameCopied? ==> s.stage.frame == s.accepted[d])
  }

  /** The wrapped indices measure the true distance, because it never exceeds the capacity. */
  lemma WrappedDistance(a: nat, d: nat)
    requires d <= a <= d + CAPACITY
    ensures Distance(a % 0x100, d % 0x100) == a - d
    ensures a % 0x100 == d % 0x100 <==> a == d
  {
    ModIs(a % 0x100 - d % 0x100, d / 0x100 - a / 0x100, 0x100, a - d);
  }

  lemma WrappedIndex(n: nat)
    ensures Slot(n % 0x100) == n % 8
    ensures Next(n % 0x100) == (n + 1) % 0x100
  {
    var q, r := n / 0x100, n % 0x100;
    ModIs(n, 32 * q + r / 8, 8, r % 8);
    ModIs(n + 1, q + (r + 1) / 0x100, 0x100, (r + 1) % 0x100);
  }

  lemma SlotsDiffer(i: nat, a: nat)
    requires i < a < i + CAPACITY
    ensures i % 8 != a % 8
  {
    if i % 8 == a % 8 {
      MulIsZeroOrLarge(a / 8 - i / 8, 8);
      assert false;
    }
  }

  lemma ArrivalRefines(s: System, step: Step)
    requires Consistent(s) && step.Arrive?
    ensures Consistent(Advance(s, step))
    ensures Abstraction(Advance(s, step)) == SpecStep(Abstraction(s), s, step)
  {
    hide Slot, Distance, Next;
    var d, a := |s.delivered|, |s.accepted|;
    WrappedDistance(a, d);
    WrappedIndex(a);
    if !Full(s.ring) {
      var t := Advance(s, step);
      forall i | d <= i < a + 1
        ensures t.ring.frames[i % 8] == t.accepted[i]
      {
        if i < a {
          SlotsDiffer(i, a);
        }
      }
    }
  }

  lemma StepRefines(s: System, step: Step)
    requires Consistent(s)
    ensures Consistent(Advance(s, step))
    ensures Abstraction(Advance(s, step)) == SpecStep(Abstraction(s), s, step)
  {
    hide Slot, Distance, Next, PushIsr;
    if step.Arrive? {
      ArrivalRefines(s, step);
    } else {
      WrappedDistance(|s.accepted|, |s.delivered|);
      WrappedIndex(|s.delivered|);
    }
  }

  /**
   The ring is a bounded drop-newest queue on every run, across any number of index wraps and with
   any number of arrivals between the steps of a pop.
   */
  lemma {:induction false} RingRefinesFifo(steps: seq<Step>)
    ensures Consistent(Run(START, steps))
    ensures Abstraction(Run(START, steps)) == SpecRun(steps)
    decreases |steps|
  {
    if steps == [] {
    } else {
      RingRefinesFifo(steps[..|steps| - 1]);
      StepRefines(Run(START, steps[..|steps| - 1]), steps[|steps| - 1]);
    }
  }

  function Arrivals(steps: seq<Step>): nat
    decreases |steps|
  {
    if steps == [] then 0
    else Arrivals(steps[..|steps| - 1]) + if steps[|steps| - 1].Arrive? then 1 else 0
  }

  /** Every frame offered is delivered, still held, or counted as lost, and none is delivered twice. */
  lemma {:induction false} EveryArrivalAccounted(steps: seq<Step>)
    ensures var s := Run(START, steps);
      && Consistent(s)
      && Arrivals(steps) == |s.accepted| + s.lost
      && s.accepted == s.delivered + Abstraction(s).items
    decreases |steps|
  {
    RingRefinesFifo(steps);
    if steps != [] {
      EveryArrivalAccounted(steps[..|steps| - 1]);
    }
  }

  /** The interrupt empties the hardware FIFO into the ring, frame by frame. */
  function PushAll(ring: RingValue, pending: seq<Frame>): RingValue
    decreases |pending|
  {
    if pending == [] then ring
    else PushIsr(PushAll(ring, pending[..|pending| - 1]), pending[|pending| - 1])
  }

  function ArrivalsOf(pending: seq<Frame>): (steps: seq<Step>)
    ensures |steps| == |pending|
    ensures forall i :: 0 <= i < |pending| ==> steps[i] == Arrive(pending[i])
  {
    seq(|pending|, i requires 0 <= i < |pending| => Arrive(pending[i]))
  }

  /** One interrupt is an arrival for each pending frame, in order. */
  lemma {:induction false} InterruptIsArrivals(s: System, pending: seq<Frame>)
    ensures Run(s, ArrivalsOf(pending)).ring == PushAll(s.ring, pending)
    decreases |pending|
  {
    hide PushIsr, Full;
    if pending != [] {
      var steps, front := ArrivalsOf(pending), pending[..|pending| - 1];
      assert steps[..|steps| - 1] == ArrivalsOf(front);
      InterruptIsArrivals(s, front);
    }
  }

  /**
   What an interrupt leaves in the ring, whatever stage the main loop has reached: the frames that
   were there, then the pending ones in order as far as eight have room, and a count of the rest.
   */
  lemma {:induction false} InterruptKeepsTheFirst(s: System, pending: seq<Frame>)
    requires Consistent(s)
    ensures var t := Run(s, ArrivalsOf(pending));
      var all := Abstraction(s).items + pending;
      && Consistent(t) && t.delivered == s.delivered && t.stage == s.stage
      && Abstraction(t).items == FirstEight(all)
      && t.lost == s.lost + (if |all| <= 8 then 0 else |all| - 8)
    decreases |pending|
  {
    hide Consistent, Full, PushIsr, Abstraction, Advance;
    ConsistentBounds(s);
    if pending == [] {
      assert Abstraction(s).items + pending == Abstraction(s).items;
    } else {
      var steps, front, last := ArrivalsOf(pending), pending[..|pending| - 1], pending[|pending| - 1];
      assert steps[..|steps| - 1] == ArrivalsOf(front);
      InterruptKeepsTheFirst(s, front);
      var before := Run(s, ArrivalsOf(front));
      ConsistentBounds(before);
      StepRefines(before, Arrive(last));
      ConsistentBounds(Advance(before, Arrive(last)));
      var all := Abstraction(s).items + front;
      assert Abstraction(s).items + pending == all + [last];
      OneMoreOffered(all, last);
      ArrivalTouchesNoPop(before, last);
    }
  }

  function FirstEight(frames: seq<Frame>): seq<Frame>
  {
    if |frames| <= 8 then frames else frames[..8]
  }

  lemma OneMoreOffered(all: seq<Frame>, last: Frame)
    ensures FirstEight(all + [last]) == if |all| < 8 then FirstEight(all) + [last] else FirstEight(all)
  {
  }

  lemma ConsistentBounds(s: System)
    requires Consistent(s)
    ensures |s.delivered| <= |s.accepted| <= |s.delivered| + 8
    ensures |Abstraction(s).items| <= 8 && Abstraction(s).lost == s.lost
  {
  }

  lemma ArrivalTouchesNoPop(s: System, frame: Frame)
    ensures var t := Advance(s, Arrive(frame)); t.delivered == s.delivered && t.stage == s.stage
  {
  }

  function SaturatingAdd(left: u16, right: u16): u16
  {
    if right > COUNT_MAX - left then COUNT_MAX else left + right
  }

  /** Saturating each counter and then the sum loses nothing against saturating the true total. */
  lemma SaturationCommutesWithSum(hardware: nat, software: nat)
    ensures SaturatingAdd(Saturated(hardware), Saturated(software)) == Saturated(hardware + software)
    ensures Saturated(hardware) == if hardware < 65536 then hardware else 65535
    ensures Increment(Saturated(hardware)) == Saturated(hardware + 1)
  {
  }

  /** The ring as the firmware holds it. */
  class Ring {
    const frames: array<Frame>
    var head: u8
    var tail: u8
    var dropped: u16

    ghost predicate Valid()
      reads this
    {
      frames.Length == CAPACITY
    }

    ghost function Value(): RingValue
      reads this, frames
      requires Valid()
    {
      RingState(frames[..], head, tail, dropped)
    }

    constructor ()
      ensures Valid() && fresh(frames) && head == tail == 0 && dropped == 0
    {
      frames := new Frame[CAPACITY](i => NO_FRAME);
      head, tail, dropped := 0, 0, 0;
    }

    method Init()
      modifies this
      ensures head == tail == 0 && dropped == 0
    {
      head, tail, dropped := 0, 0, 0;
    }

    method Push(frame: Frame) returns (ok: bool)
      requires Valid()
      modifies this, frames
      ensures Valid() && ok == !Full(old(Value())) && Value() == PushIsr(old(Value()), frame)
    {
      var index := head;
      if Distance(index, tail) >= CAPACITY {
        if dropped != COUNT_MAX {
          dropped := dropped + 1;
        }
        return false;
      }
      frames[Slot(index)] := frame;
      head := Next(index);
      return true;
    }

    /** A pop with no arrival in between is the four steps of `Advance` in a row. */
    method Pop() returns (r: Option<Frame>)
      requires Valid()
      modifies this`tail
      ensures Valid()
      ensures r == if old(head) == old(tail) then None else Some(old(frames[Slot(tail)]))
      ensures Value() == if r.None? then old(Value()) else old(Value()).(tail := Next(old(tail)))
    {
      var index := tail;
      if index == head {
        return None;
      }
      var frame := frames[Slot(index)];
      tail := Next(index);
      return Some(frame);
    }
  }

  /** `Pop` and `Advance` agree: an uninterrupted pop delivers and leaves exactly the same. */
  lemma UninterruptedPop(s: System)
    requires s.stage.Outside?
    ensures var t := Run(s, if s.ring.head == s.ring.tail then [PopStep, PopStep]
                            else [PopStep, PopStep, PopStep, PopStep]);
      t == if s.ring.head == s.ring.tail then s.(foundEmpty := s.foundEmpty + 1)
           else s.(ring := s.ring.(tail := Next(s.ring.tail)),
                   delivered := s.delivered + [s.ring.frames[Slot(s.ring.tail)]])
  {
    hide Slot;
    var two := [PopStep, PopStep];
    RunAppend(s, [], PopStep);
    RunAppend(s, [PopStep], PopStep);
    RunAppend(s, two, PopStep);
    RunAppend(s, two + [PopStep], PopStep);
    assert [] + [PopStep] == [PopStep] && [PopStep] + [PopStep] == two;
    assert two + [PopStep] + [PopStep] == [PopStep, PopStep, PopStep, PopStep];
  }

  lemma RunAppend(s: System, steps: seq<Step>, step: Step)
    ensures Run(s, steps + [step]) == Advance(Run(s, steps), step)
  {
    assert (steps + [step])[..|steps|] == steps;
  }
}
