/** The prioritised transmit queue: stm32/app/src/can/tx_queue.c, for any capacity. */
module TxQueue {
  import opened Bits
  import opened Protocol

  // Errors go first and telemetry last.
  const PRIORITY_ERROR: u8 := 0
  const PRIORITY_ACK: u8 := 1
  const PRIORITY_REQUESTED_STATUS: u8 := 2
  const PRIORITY_TELEMETRY: u8 := 3
  const PRIORITY_COUNT: u8 := PRIORITY_TELEMETRY + 1

  /** `arrival` numbers the offered frames; it is for stating order and no branch reads it. */
  datatype Entry = Entry(frame: Frame, priority: u8, arrival: nat)

  const NO_ENTRY := Entry(Frame(0, false, false, 0, [0, 0, 0, 0, 0, 0, 0, 0]), 0, 0)

  /** Errors overtake acknowledgements, those a requested status, and that telemetry; there is no fifth class. */
  lemma PriorityOrder(priority: u8)
    ensures PRIORITY_ERROR < PRIORITY_ACK < PRIORITY_REQUESTED_STATUS < PRIORITY_TELEMETRY
    ensures ValidPriority(priority) <==>
      priority in {PRIORITY_ERROR, PRIORITY_ACK, PRIORITY_REQUESTED_STATUS, PRIORITY_TELEMETRY}
    ensures ValidPriority(priority) <==> priority <= 3
  {
  }

  predicate ValidPriority(priority: u8)
  {
    priority < PRIORITY_COUNT
  }

  /** Index `i` holds a most important entry, and the oldest of those. */
  ghost predicate IsHighest(s: seq<Entry>, i: nat)
  {
    i < |s|
    && (forall j :: 0 <= j < |s| ==> s[i].priority <= s[j].priority)
    && (forall j :: 0 <= j < i ==> s[i].priority < s[j].priority)
  }

  function Highest(s: seq<Entry>): (i: nat)
    requires s != []
    ensures IsHighest(s, i)
  {
    if |s| == 1 then 0
    else
      var front := Highest(s[..|s| - 1]);
      if s[|s| - 1].priority < s[front].priority then |s| - 1 else front
  }

  /** Index `i` holds a least important entry, and the newest of those. */
  ghost predicate IsLowest(s: seq<Entry>, i: nat)
  {
    i < |s|
    && (forall j :: 0 <= j < |s| ==> s[j].priority <= s[i].priority)
    && (forall j :: i < j < |s| ==> s[j].priority < s[i].priority)
  }

  function Lowest(s: seq<Entry>): (i: nat)
    requires s != []
    ensures IsLowest(s, i)
  {
    if |s| == 1 then 0
    else
      var back := Lowest(s[1..]) + 1;
      if s[0].priority > s[back].priority then 0 else back
  }

  lemma HighestIsUnique(s: seq<Entry>, i: nat)
    requires IsHighest(s, i)
    ensures i == Highest(s)
  {
    var h := Highest(s);
    assert s[i].priority == s[h].priority;
  }

  lemma LowestIsUnique(s: seq<Entry>, i: nat)
    requires IsLowest(s, i)
    ensures i == Lowest(s)
  {
    var l := Lowest(s);
    assert s[i].priority == s[l].priority;
  }

  function RemoveAt(s: seq<Entry>, i: nat): seq<Entry>
    requires i < |s|
  {
    s[..i] + s[i + 1..]
  }

  /** `can_tx_queue_t`: entries in arrival order, packed at the front of a fixed array. */
  class Queue {
    const entries: array<Entry>
    var count: nat

    ghost predicate Valid()
      reads this
    {
      count <= entries.Length
    }

    ghost function Contents(): (s: seq<Entry>)
      reads this, entries
      requires Valid()
      ensures |s| == count
    {
      entries[..count]
    }

    constructor (capacity: nat)
      ensures Valid() && Contents() == [] && entries.Length == capacity && fresh(entries)
    {
      entries := new Entry[capacity](i => NO_ENTRY);
      count := 0;
    }

    method Init()
      modifies this`count
      ensures Valid() && Contents() == []
    {
      count := 0;
    }

    method Push(entry: Entry) returns (ok: bool)
      requires Valid()
      modifies this`count, entries
      ensures Valid()
      ensures ok <==> ValidPriority(entry.priority) && |old(Contents())| < entries.Length
      ensures Contents() == if ok then old(Contents()) + [entry] else old(Contents())
    {
      if !ValidPriority(entry.priority) {
        return false;
      }
      var index := count;
      if index >= entries.Length {
        return false;
      }
      entries[index] := entry;
      count := index + 1;
      return true;
    }

    /** The scan both `peek_highest` and `get_highest_priority` run. */
    method SelectHighest() returns (selected: nat)
      requires Valid() && count > 0
      ensures selected == Highest(Contents())
    {
      selected := 0;
      var index := 1;
      while index < count
        invariant 1 <= index <= count
        invariant IsHighest(entries[..index], selected)
      {
        if entries[index].priority < entries[selected].priority {
          selected := index;
        }
        index := index + 1;
      }
      HighestIsUnique(Contents(), selected);
    }

    method PeekHighest() returns (r: Option<(Entry, nat)>)
      requires Valid()
      ensures r == if Contents() == [] then None
                   else Some((Contents()[Highest(Contents())], Highest(Contents())))
    {
      if count == 0 {
        return None;
      }
      var selected := SelectHighest();
      return Some((entries[selected], selected));
    }

    method HighestPriority() returns (r: Option<u8>)
      requires Valid()
      ensures r == if Contents() == [] then None else Some(Contents()[Highest(Contents())].priority)
    {
      if count == 0 {
        return None;
      }
      var selected := SelectHighest();
      return Some(entries[selected].priority);
    }

    /** Close the gap at `from` by moving every later entry one place forward. */
    method ShiftDown(from: nat)
      requires Valid() && from < count
      modifies entries
      ensures entries[..count - 1] == RemoveAt(old(Contents()), from)
    {
      var index := from;
      while index + 1 < count
        invariant from <= index < count
        invariant forall j :: 0 <= j < from ==> entries[j] == old(entries[j])
        invariant forall j :: from <= j < index ==> entries[j] == old(entries[j + 1])
        invariant forall j :: index < j < count ==> entries[j] == old(entries[j])
      {
        entries[index] := entries[index + 1];
        index := index + 1;
      }
    }

    method Remove(entryIndex: nat)
      requires Valid()
      modifies this`count, entries
      ensures Valid()
      ensures Contents() == if entryIndex < |old(Contents())| then RemoveAt(old(Contents()), entryIndex)
                            else old(Contents())
    {
      if count == 0 || entryIndex >= count {
        return;
      }
      ShiftDown(entryIndex);
      count := count - 1;
    }

    /** The backward scan for the newest of the least important entries; `count` if none is below `priority`. */
    method SelectVictim(priority: u8) returns (candidate: nat)
      requires Valid()
      ensures candidate <= count
      ensures candidate == count <==> !Evicts(Contents(), priority)
      ensures candidate < count ==> candidate == Lowest(Contents())
    {
      ghost var s := Contents();
      candidate := count;
      var index := count;
      while index > 0
        invariant 0 <= index <= count && 0 <= candidate <= count
        invariant candidate == count <==> forall j :: index <= j < count ==> entries[j].priority <= priority
        invariant candidate < count ==>
          index <= candidate && entries[candidate].priority > priority
          && (forall j :: index <= j < count ==> entries[j].priority <= entries[candidate].priority)
          && (forall j :: candidate < j < count ==> entries[j].priority < entries[candidate].priority)
      {
        var current := index - 1;
        if entries[current].priority > priority
          && (candidate == count || entries[current].priority > entries[candidate].priority)
        {
          candidate := current;
        }
        index := index - 1;
      }
      assert forall j :: 0 <= j < |s| ==> s[j] == entries[j];
      if candidate < count {
        assert IsLowest(s, candidate);
        LowestIsUnique(s, candidate);
      }
    }

    /** Eviction from a full queue: see `EvictionKeepsTheImportant` for what the result means. */
    method ReplaceLowerPriority(entry: Entry) returns (ok: bool)
      requires Valid()
      modifies entries
      ensures Valid()
      ensures ok <==> ValidPriority(entry.priority) && count == entries.Length && Evicts(old(Contents()), entry.priority)
      ensures Contents() == if ok then Evicted(old(Contents()), entry) else old(Contents())
    {
      hide Evicts, Lowest;
      if !ValidPriority(entry.priority) || count != entries.Length {
        return false;
      }
      var candidate := SelectVictim(entry.priority);
      if candidate == count {
        return false;
      }
      ShiftDown(candidate);
      entries[count - 1] := entry;
      return true;
    }
  }

  /** A full queue gives way to a newcomer only when it holds something less important. */
  predicate Evicts(s: seq<Entry>, priority: u8)
  {
    exists j :: 0 <= j < |s| && s[j].priority > priority
  }

  function Evicted(s: seq<Entry>, entry: Entry): seq<Entry>
    requires s != []
  {
    RemoveAt(s, Lowest(s)) + [entry]
  }

  /** The entry a full queue loses when `entry` is offered: the newest of the least important. */
  function Dropped(s: seq<Entry>, entry: Entry): Entry
  {
    if Evicts(s, entry.priority) then s[Lowest(s)] else entry
  }

  function AfterOffer(s: seq<Entry>, entry: Entry): seq<Entry>
  {
    if Evicts(s, entry.priority) then Evicted(s, entry) else s
  }

  /** The full queue and the newcomer, less the one frame dropped, are what the queue holds afterwards. */
  lemma EvictionLosesOne(s: seq<Entry>, entry: Entry)
    ensures multiset(AfterOffer(s, entry)) + multiset{Dropped(s, entry)} == multiset(s) + multiset{entry}
    ensures |AfterOffer(s, entry)| == |s|
    ensures Evicts(s, entry.priority) <==> Dropped(s, entry) != entry
  {
    if Evicts(s, entry.priority) {
      RemoveAtCounts(s, Lowest(s));
    }
  }

  /**
   What the backward scan achieves: the frame lost is no more important than any frame kept, ties
   are lost by the newest, the survivors keep their order, and a newcomer is refused exactly when
   every queued entry is at least as important as it.
   */
  lemma EvictionKeepsTheImportant(s: seq<Entry>, entry: Entry)
    ensures forall e :: e in AfterOffer(s, entry) ==> e.priority <= Dropped(s, entry).priority
    ensures !Evicts(s, entry.priority) <==> AfterOffer(s, entry) == s && Dropped(s, entry) == entry
                                            && forall e :: e in s ==> e.priority <= entry.priority
    ensures Evicts(s, entry.priority) ==>
      exists i :: 0 <= i < |s| && Dropped(s, entry) == s[i] && s[i].priority > entry.priority
        && AfterOffer(s, entry) == s[..i] + s[i + 1..] + [entry]
        && forall j :: i < j < |s| ==> s[j].priority < s[i].priority
  {
    if Evicts(s, entry.priority) {
      var i := Lowest(s);
      var j :| 0 <= j < |s| && s[j].priority > entry.priority;
      assert s[j].priority <= s[i].priority;
      assert AfterOffer(s, entry) == s[..i] + s[i + 1..] + [entry];
    } else {
      forall e | e in s
        ensures e.priority <= entry.priority
      {
        var j :| 0 <= j < |s| && s[j] == e;
      }
    }
  }

  lemma RemoveAtCounts(s: seq<Entry>, i: nat)
    requires i < |s|
    ensures multiset(RemoveAt(s, i)) + multiset{s[i]} == multiset(s)
  {
    assert s == s[..i] + [s[i]] + s[i + 1..];
  }
}
