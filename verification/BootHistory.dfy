/**
 Retained diagnostics across resets: stm32/app/src/platform/retained_diagnostics.c, and the
 lockout it decides over a whole history of boots.
 */
module BootHistory {
  import opened Bits
  import opened Firmware
  import opened DiagnosticRecord

  /** `valid_record`: what every wrapper starts from. */
  function Repaired(r: Record): Record
  {
    if IsValid(r) then r else New()
  }

  function Retain(r: Record, event: RecordEvent): Record
  {
    Apply(Repaired(r), event)
  }

  function RetainAll(r: Record, events: seq<RecordEvent>): Record
    decreases |events|
  {
    if events == [] then r
    else Retain(RetainAll(r, events[..|events| - 1]), events[|events| - 1])
  }

  /** An update of a record that fails its checks starts from a blank one: nothing of the old one is trusted. */
  lemma UpdateRepairs(r: Record, event: RecordEvent)
    requires !IsValid(r)
    ensures Retain(r, event) == Retain(New(), event)
    ensures var after := Retain(r, event);
      IsValid(after) && after.buildId == 0 && after.bootCount == 0 && after.incompleteBoots == 0 && after.previousFault == 0
  {
    hide Checksum;
    SealedIsValid();
  }

  /** The record kept in RAM that a reset does not clear. */
  class RetainedDiagnostics {
    var record: Record

    constructor (leftover: Record)
      ensures record == leftover
    {
      record := leftover;
    }

    /** A boot begins with a valid record, which carries on the old one only if that is intact and of this build. */
    method Begin(resetFlags: u32, buildId: u32)
      modifies this
      ensures record == BeginBoot(old(record), resetFlags, buildId)
      ensures Starts(old(record), record, resetFlags, buildId)
      ensures ShouldLockout(record)
              <==> !FreshStart(old(record), buildId)
                   && old(record).state != StateCode(Healthy) && old(record).incompleteBoots >= 2
    {
      BeginBootStarts(record, resetFlags, buildId);
      LockoutAtReset(record, resetFlags, buildId);
      hide BeginBoot, IsValid, Starts;
      var previous := record;
      record := BeginBoot(previous, resetFlags, buildId);
    }

    /** Lockout takes a record of this format, unaltered since it was sealed, that counts three incomplete boots. */
    method LockoutRequired() returns (required: bool)
      ensures required
              <==> record.magic == 0x4246_4d31 && record.version == 1
                   && record.checksum == Fold(FNV_OFFSET_BASIS, Body(record)) && record.incompleteBoots >= 3
      ensures required == ShouldLockout(record)
    {
      ChecksumIsFold(record);
      hide Checksum, Fold, Body;
      return ShouldLockout(record);
    }

    /** The five setters: read, repair if invalid, change, seal, write back. */
    method Update(event: RecordEvent)
      modifies this
      ensures record == Retain(old(record), event)
    {
      var copy := Repaired(record);
      record := Apply(copy, event);
    }
  }

  /** One boot: why the reset happened, and every record update until the next reset. */
  datatype Boot = Boot(resetFlags: u32, events: seq<RecordEvent>)

  /** The record right after `retained_diagnostics_begin` of the n-th boot. */
  function Begun(leftover: Record, buildId: u32, boots: seq<Boot>, n: nat): Record
    requires n < |boots|
    decreases n, 0
  {
    BeginBoot(if n == 0 then leftover else Ended(leftover, buildId, boots, n - 1), boots[n].resetFlags, buildId)
  }

  function Ended(leftover: Record, buildId: u32, boots: seq<Boot>, n: nat): Record
    requires n < |boots|
    decreases n, 1
  {
    RetainAll(Begun(leftover, buildId, boots, n), boots[n].events)
  }

  predicate Lockout(leftover: Record, buildId: u32, boots: seq<Boot>, n: nat)
    requires n < |boots|
  {
    ShouldLockout(Begun(leftover, buildId, boots, n))
  }

  /** No boot before this history left a valid record of the same build. */
  predicate FreshStart(leftover: Record, buildId: u32)
  {
    !IsValid(leftover) || leftover.buildId != buildId
  }

  predicate ReachedHealthy(boot: Boot)
  {
    MarkHealthy in boot.events
  }

  /** The last update that touches the state is the one that marks the boot healthy. */
  predicate EndsHealthy(events: seq<RecordEvent>)
    decreases |events|
  {
    events != []
    && var last := events[|events| - 1];
       match last
       case MarkHealthy => true
       case SetState(_) => false
       case SetFault(_) => false
       case _ => EndsHealthy(events[..|events| - 1])
  }

  /** `main` never sets HEALTHY through the plain state setter. */
  predicate NeverSetsHealthyDirectly(boot: Boot)
  {
    SetState(Healthy) !in boot.events
  }

  /** What the record says when a boot begins, and what it carries over. */
  predicate Starts(previous: Record, r: Record, resetFlags: u32, buildId: u32)
  {
    && IsValid(r) && r.buildId == buildId && r.resetFlags == resetFlags
    && r.state == StateCode(Booting) && r.clockSource == ClockCode(ClockUnknown)
    && r.currentFault == FaultCode(NoFault)
    && if FreshStart(previous, buildId) then
         r.bootCount == 1 && r.incompleteBoots == 0 && r.previousFault == FaultCode(NoFault) && Commands(r) == (0, 0)
       else
         && r.bootCount == (previous.bootCount + 1) % WORD
         && r.previousFault == previous.currentFault && Commands(r) == Commands(previous)
         && r.incompleteBoots == (if previous.state == StateCode(Healthy) then 0
                                  else if previous.incompleteBoots < 0xff then previous.incompleteBoots + 1
                                  else 0xff)
  }

  lemma BeginBootStarts(previous: Record, resetFlags: u32, buildId: u32)
    ensures Starts(previous, BeginBoot(previous, resetFlags, buildId), resetFlags, buildId)
  {
    hide Checksum;
    SealedIsValid();
  }

  /** One reset decides: lockout needs an intact record of this build, left unhealthy, two incomplete boots in. */
  lemma LockoutAtReset(previous: Record, resetFlags: u32, buildId: u32)
    ensures ShouldLockout(BeginBoot(previous, resetFlags, buildId))
            <==> IsValid(previous) && previous.buildId == buildId
                 && previous.state != StateCode(Healthy) && previous.incompleteBoots >= 2
  {
    hide BeginBoot, IsValid;
    BeginBootStarts(previous, resetFlags, buildId);
  }

  /** What a boot's updates leave of the record. */
  lemma {:induction false} UpdatesKeepTheRecord(r: Record, events: seq<RecordEvent>)
    requires IsValid(r) && r.state != StateCode(Healthy) && SetState(Healthy) !in events
    ensures var after := RetainAll(r, events);
      IsValid(after) && after.buildId == r.buildId
      && (after.state == StateCode(Healthy) <==> EndsHealthy(events))
      && after.incompleteBoots == (if MarkHealthy in events then 0 else r.incompleteBoots)
    decreases |events|
  {
    hide Checksum;
    SealedIsValid();
    if events != [] {
      var front, last := events[..|events| - 1], events[|events| - 1];
      assert forall e :: e in events <==> e in front || e == last;
      UpdatesKeepTheRecord(r, front);
    }
  }

  /** How many incomplete boots the record counts at the n-th boot, from the history alone. */
  function IncompleteBoots(boots: seq<Boot>, n: nat): nat
    requires n < |boots|
  {
    if n == 0 || EndsHealthy(boots[n - 1].events) then 0
    else
      var before := if ReachedHealthy(boots[n - 1]) then 0 else IncompleteBoots(boots, n - 1);
      if before < 0xff then before + 1 else 0xff
  }

  lemma {:induction false} RecordCountsIncompleteBoots(leftover: Record, buildId: u32, boots: seq<Boot>, n: nat)
    requires n < |boots| && FreshStart(leftover, buildId)
    requires forall i :: 0 <= i < |boots| ==> NeverSetsHealthyDirectly(boots[i])
    ensures var r := Begun(leftover, buildId, boots, n);
      IsValid(r) && r.buildId == buildId && r.state == StateCode(Booting)
      && r.incompleteBoots == IncompleteBoots(boots, n)
    decreases n
  {
    hide IsValid, BeginBoot, Retain, RetainAll;
    if n == 0 {
      BeginBootStarts(leftover, boots[0].resetFlags, buildId);
    } else {
      RecordCountsIncompleteBoots(leftover, buildId, boots, n - 1);
      UpdatesKeepTheRecord(Begun(leftover, buildId, boots, n - 1), boots[n - 1].events);
      BeginBootStarts(Ended(leftover, buildId, boots, n - 1), boots[n].resetFlags, buildId);
    }
  }

  lemma {:induction false} HealthyEndWasReached(events: seq<RecordEvent>)
    requires EndsHealthy(events)
    ensures MarkHealthy in events
    decreases |events|
  {
    var front, last := events[..|events| - 1], events[|events| - 1];
    if last != MarkHealthy {
      HealthyEndWasReached(front);
      assert MarkHealthy in front;
    }
  }

  /**
   Over any history of one build that starts without an inherited record, lockout is required
   exactly when the two latest earlier boots never became healthy and the one before them ended
   unhealthy, even if it had been healthy for a while.
   */
  lemma LockoutExactly(leftover: Record, buildId: u32, boots: seq<Boot>, n: nat)
    requires n < |boots| && FreshStart(leftover, buildId)
    requires forall i :: 0 <= i < |boots| ==> NeverSetsHealthyDirectly(boots[i])
    ensures Lockout(leftover, buildId, boots, n)
            <==> n >= 3 && !ReachedHealthy(boots[n - 1]) && !ReachedHealthy(boots[n - 2])
                 && !EndsHealthy(boots[n - 3].events)
  {
    hide IsValid, Begun, EndsHealthy;
    RecordCountsIncompleteBoots(leftover, buildId, boots, n);
    forall i | 0 <= i < |boots| && EndsHealthy(boots[i].events)
      ensures ReachedHealthy(boots[i])
    {
      HealthyEndWasReached(boots[i].events);
    }
    UnfoldCount(boots, n);
    if n >= 1 {
      UnfoldCount(boots, n - 1);
    }
    if n >= 2 {
      UnfoldCount(boots, n - 2);
    }
  }

  lemma UnfoldCount(boots: seq<Boot>, n: nat)
    requires n < |boots|
    ensures IncompleteBoots(boots, n) ==
      if n == 0 || EndsHealthy(boots[n - 1].events) then 0
      else if ReachedHealthy(boots[n - 1]) then 1
      else if IncompleteBoots(boots, n - 1) < 0xff then IncompleteBoots(boots, n - 1) + 1
      else 0xff
  {
  }

  /** `main` marks a boot healthy only when it is not locked out. */
  predicate MarksHealthyOnlyUnlocked(leftover: Record, buildId: u32, boots: seq<Boot>)
  {
    forall i :: 0 <= i < |boots| && Lockout(leftover, buildId, boots, i) ==> !ReachedHealthy(boots[i])
  }

  /** Lockout never ends by itself: it holds at every later boot of the same build on the same record. */
  lemma {:induction false} LockoutIsSticky(leftover: Record, buildId: u32, boots: seq<Boot>, n: nat, later: nat)
    requires n <= later < |boots| && FreshStart(leftover, buildId)
    requires forall i :: 0 <= i < |boots| ==> NeverSetsHealthyDirectly(boots[i])
    requires MarksHealthyOnlyUnlocked(leftover, buildId, boots)
    requires Lockout(leftover, buildId, boots, n)
    ensures Lockout(leftover, buildId, boots, later)
    decreases later
  {
    hide Lockout, EndsHealthy;
    if n < later {
      LockoutIsSticky(leftover, buildId, boots, n, later - 1);
      LockoutExactly(leftover, buildId, boots, later - 1);
      LockoutExactly(leftover, buildId, boots, later);
      if EndsHealthy(boots[later - 3].events) {
        HealthyEndWasReached(boots[later - 3].events);
      }
    }
  }

  /** The last value a boot recorded of each kind, or what stood there before. */
  function LastFault(events: seq<RecordEvent>): Fault
    decreases |events|
  {
    if events == [] then NoFault
    else
      var last := events[|events| - 1];
      if last.SetFault? then last.fault else LastFault(events[..|events| - 1])
  }

  function LastClock(events: seq<RecordEvent>): Clock
    decreases |events|
  {
    if events == [] then ClockUnknown
    else
      var last := events[|events| - 1];
      if last.SetClock? then last.clock else LastClock(events[..|events| - 1])
  }

  function LastCommands(events: seq<RecordEvent>, before: (u16, u8)): (u16, u8)
    decreases |events|
  {
    if events == [] then before
    else
      var last := events[|events| - 1];
      if last.SetCommands? then (last.phaseCommand, last.vgaCommand)
      else LastCommands(events[..|events| - 1], before)
  }

  /** A fault and a healthy mark are states too. */
  function LastState(events: seq<RecordEvent>): State
    decreases |events|
  {
    if events == [] then Booting
    else
      var last := events[|events| - 1];
      match last
      case SetState(state) => state
      case SetFault(_) => Faulted
      case MarkHealthy => Healthy
      case _ => LastState(events[..|events| - 1])
  }

  function Commands(r: Record): (u16, u8)
  {
    (r.lastPhaseCommand, r.lastVgaCommand)
  }

  /** `after` is what `r` becomes when each event overwrites what it names and nothing else. */
  predicate ShowsTheLast(r: Record, events: seq<RecordEvent>, after: Record)
  {
    && after.buildId == r.buildId && after.bootCount == r.bootCount
    && after.previousFault == r.previousFault && after.resetFlags == r.resetFlags
    && after.currentFault == FaultCode(LastFault(events))
    && after.state == StateCode(LastState(events))
    && after.clockSource == ClockCode(LastClock(events))
    && Commands(after) == LastCommands(events, Commands(r))
  }

  lemma {:induction false} UpdatesRecordTheLast(r: Record, events: seq<RecordEvent>)
    requires IsValid(r) && r.currentFault == FaultCode(NoFault)
    requires r.state == StateCode(Booting) && r.clockSource == ClockCode(ClockUnknown)
    ensures IsValid(RetainAll(r, events)) && ShowsTheLast(r, events, RetainAll(r, events))
    decreases |events|
  {
    hide IsValid, ShowsTheLast, Retain;
    if events == [] {
      NothingRecorded(r);
    } else {
      UpdatesRecordTheLast(r, events[..|events| - 1]);
      OneMoreShows(r, events, RetainAll(r, events[..|events| - 1]));
    }
  }

  lemma NothingRecorded(r: Record)
    requires r.currentFault == FaultCode(NoFault)
    requires r.state == StateCode(Booting) && r.clockSource == ClockCode(ClockUnknown)
    ensures ShowsTheLast(r, [], r)
  {
  }

  lemma OneMoreShows(r: Record, events: seq<RecordEvent>, before: Record)
    requires events != [] && IsValid(before) && ShowsTheLast(r, events[..|events| - 1], before)
    ensures var after := Retain(before, events[|events| - 1]);
      IsValid(after) && ShowsTheLast(r, events, after)
  {
    hide Checksum, FaultCode, StateCode, ClockCode;
    SealedIsValid();
    var front, last := events[..|events| - 1], events[|events| - 1];
    var after := Apply(before, last);
    assert LastFault(events) == if last.SetFault? then last.fault else LastFault(front);
    assert LastClock(events) == if last.SetClock? then last.clock else LastClock(front);
    match last
    case SetState(_) =>
    case SetClock(_) =>
    case SetCommands(_, _) =>
    case SetFault(_) =>
    case MarkHealthy =>
  }

  /** The commands in the record when a boot begins: the latest that any earlier boot recorded. */
  function CommandsBefore(boots: seq<Boot>, n: nat): (u16, u8)
    requires n <= |boots|
  {
    if n == 0 then (0, 0) else LastCommands(boots[n - 1].events, CommandsBefore(boots, n - 1))
  }

  /**
   At each boot the record names the previous boot's last fault and the last commands ever
   recorded, numbers the boots since the fresh start, and starts its own fields afresh.
   */
  lemma {:induction false} RecordTellsPreviousBoot(leftover: Record, buildId: u32, boots: seq<Boot>, n: nat)
    requires n < |boots| && FreshStart(leftover, buildId)
    ensures var r := Begun(leftover, buildId, boots, n);
      && IsValid(r) && r.buildId == buildId && r.currentFault == FaultCode(NoFault)
      && r.state == StateCode(Booting) && r.clockSource == ClockCode(ClockUnknown)
      && r.resetFlags == boots[n].resetFlags
      && r.bootCount == (n + 1) % WORD
      && r.previousFault == FaultCode(if n == 0 then NoFault else LastFault(boots[n - 1].events))
      && Commands(r) == CommandsBefore(boots, n)
    decreases n
  {
    hide Retain, RetainAll, IsValid, BeginBoot;
    if n == 0 {
      BeginBootStarts(leftover, boots[0].resetFlags, buildId);
    } else {
      RecordTellsPreviousBoot(leftover, buildId, boots, n - 1);
      UpdatesRecordTheLast(Begun(leftover, buildId, boots, n - 1), boots[n - 1].events);
      BeginBootStarts(Ended(leftover, buildId, boots, n - 1), boots[n].resetFlags, buildId);
      ModIs(n + 1, (n + 1) / WORD, WORD, (n + 1) % WORD);
    }
  }

  /** What ends it: a different build, or a record that no longer passes its checks. */
  lemma LockoutEndsWithTheRecord(previous: Record, resetFlags: u32, buildId: u32)
    requires FreshStart(previous, buildId)
    ensures !ShouldLockout(BeginBoot(previous, resetFlags, buildId))
  {
    hide IsValid, BeginBoot;
    LockoutAtReset(previous, resetFlags, buildId);
  }
}
