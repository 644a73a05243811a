/**
CBaseReferenceClock: the clock built on the millisecond timer, its booking calls and one round
of its thread.  Times are in units of 100 ns.
 */
module ReferenceClock {
  import opened MachineInts
  import opened Filters
  import opened ScheduleSpec
  import opened Schedule

  datatype BookResult = Booked(cookie: nat) | InvalidArg

  /** The milliseconds between two readings of the wrapping timer, as the signed 32-bit number
      the product is formed with. */
  function Elapsed(prev: uint32, now: uint32): int32 {
    WrapS32(now - prev)
  }

  /** Milliseconds to wait: llWait converted by truncation and capped to a DWORD. */
  function WaitMs(next: int, now: int): uint32
    requires next > now
  {
    var ms := Quot(next - now, 10000);
    if ms > 0xFFFF_FFFF then 0xFFFF_FFFF else ms
  }

  /** A wait computed after Advise(10000 + now) is at least a millisecond, so the thread does
      not spin, and unless it is the capped one it ends by the time it was computed for and
      less than a millisecond before. */
  lemma WaitIsSafe(next: int, now: int)
    requires next > 10000 + now
    ensures 1 <= WaitMs(next, now)
    ensures now + 10000 * WaitMs(next, now) <= next
    ensures WaitMs(next, now) < 0xFFFF_FFFF ==> next < now + 10000 * WaitMs(next, now) + 10000
  {
    QuotRem(next - now, 10000);
    QuotBound(next - now, 10000, 1);
  }

  class RefClock {
    const schedule: AMSchedule
    var privateTime: int
    var prevSystemTime: uint32
    var lastGotTime: int
    var nextAdvise: int

    constructor (systemTime: uint32)
      ensures privateTime == 10000 * systemTime && prevSystemTime == systemTime && lastGotTime == 0
      ensures schedule.Valid() && schedule.list == [] && schedule.nextCookie == 0 && !schedule.eventSet
    {
      schedule := new AMSchedule();
      prevSystemTime := systemTime;
      privateTime := 10000 * systemTime;
      lastGotTime, nextAdvise := 0, MAX_TIME;
    }

    method GetPrivateTime(systemTime: uint32) returns (now: int)
      modifies this`privateTime, this`prevSystemTime
      ensures prevSystemTime == systemTime
      ensures now == privateTime == old(privateTime) + 10000 * Elapsed(old(prevSystemTime), systemTime)
    {
      privateTime := privateTime + 10000 * Elapsed(prevSystemTime, systemTime);
      prevSystemTime := systemTime;
      now := privateTime;
    }

    /** The time given out never goes back; `advanced` is S_OK as against S_FALSE. */
    method GetTime(systemTime: uint32) returns (time: int, advanced: bool)
      modifies this`privateTime, this`prevSystemTime, this`lastGotTime
      ensures time == lastGotTime && old(lastGotTime) <= time && privateTime <= time
      ensures advanced <==> old(lastGotTime) < time
      ensures advanced ==> time == privateTime
      ensures prevSystemTime == systemTime
      ensures privateTime == old(privateTime) + 10000 * Elapsed(old(prevSystemTime), systemTime)
    {
      var now := GetPrivateTime(systemTime);
      advanced := now > lastGotTime;
      if advanced {
        lastGotTime := now;
      }
      time := lastGotTime;
    }

    method AdviseTime(baseTime: int64, streamTime: int64, handle: int) returns (r: BookResult)
      requires schedule.Valid()
      modifies schedule, schedule.Nodes()
      ensures schedule.Valid() && fresh(schedule.Nodes() - old(schedule.Nodes()))
      ensures r.InvalidArg? <==> WrapS64(baseTime + streamTime) <= 0 || WrapS64(baseTime + streamTime) == MAX_TIME
      ensures r.InvalidArg? ==> schedule.list == old(schedule.list) && schedule.eventSet == old(schedule.eventSet)
      ensures r.Booked? ==>
        && r.cookie == old(schedule.nextCookie) + 1
        && schedule.list == InsertNew(old(schedule.list), Booking(r.cookie, WrapS64(baseTime + streamTime), 0, handle, false))
        && schedule.eventSet == (old(schedule.eventSet) || WrapS64(baseTime + streamTime) <= FirstTime(old(schedule.list)))
    {
      var time := WrapS64(baseTime + streamTime);
      if time <= 0 || time == MAX_TIME {
        r := InvalidArg;
      } else {
        var cookie := schedule.AddAdvisePacket(time, 0, handle, false);
        r := Booked(cookie);
      }
    }

    method AdvisePeriodic(start: int64, period: int64, handle: int) returns (r: BookResult)
      requires schedule.Valid()
      modifies schedule, schedule.Nodes()
      ensures schedule.Valid() && fresh(schedule.Nodes() - old(schedule.Nodes()))
      ensures r.Booked? <==> start > 0 && period > 0 && start != MAX_TIME
      ensures r.InvalidArg? ==> schedule.list == old(schedule.list) && schedule.eventSet == old(schedule.eventSet)
      ensures r.Booked? ==>
        && r.cookie == old(schedule.nextCookie) + 1
        && schedule.list == InsertNew(old(schedule.list), Booking(r.cookie, start, period, handle, true))
        && schedule.eventSet == (old(schedule.eventSet) || start <= FirstTime(old(schedule.list)))
    {
      if start > 0 && period > 0 && start != MAX_TIME {
        var cookie := schedule.AddAdvisePacket(start, period, handle, true);
        r := Booked(cookie);
      } else {
        r := InvalidArg;
      }
    }

    /** The thread is woken when time jumps ahead by more than half a millisecond. */
    method SetTimeDelta(delta: int)
      requires schedule.Valid()
      modifies this`privateTime, schedule`eventSet
      ensures privateTime == old(privateTime) + delta
      ensures schedule.eventSet == (old(schedule.eventSet) || (delta > 5000 && schedule.list != []))
    {
      privateTime := privateTime + delta;
      if delta > 5000 && schedule.adviseCount > 0 {
        schedule.eventSet := true;
      }
    }

    /** AdviseThread from one wait to the next. */
    method ThreadRound(systemTime: uint32) returns (now: int, wait: uint32)
      requires schedule.Valid() && Sorted(schedule.list) && PositivePeriods(schedule.list)
      requires BelowMax(schedule.list, 10000 + privateTime + 10000 * Elapsed(prevSystemTime, systemTime))
      requires 10000 + privateTime + 10000 * Elapsed(prevSystemTime, systemTime) < MAX_TIME
      modifies this`privateTime, this`prevSystemTime, this`nextAdvise, schedule, schedule.Nodes()
      ensures schedule.Valid() && schedule.Nodes() <= old(schedule.Nodes())
      ensures now == privateTime == old(privateTime) + 10000 * Elapsed(old(prevSystemTime), systemTime)
      ensures schedule.list == AdviseAll(old(schedule.list), 10000 + now).0
      ensures schedule.signals == old(schedule.signals) + AdviseAll(old(schedule.list), 10000 + now).1
      ensures nextAdvise == FirstTime(schedule.list) > 10000 + now
      ensures wait == WaitMs(nextAdvise, now)
    {
      now := GetPrivateTime(systemTime);
      var next := AdviseDue(10000 + now);
      Remember(next);
      wait := Timeout(next, now);
    }

    method AdviseDue(t: int) returns (next: int)
      requires schedule.Valid() && Sorted(schedule.list) && PositivePeriods(schedule.list)
      requires BelowMax(schedule.list, t) && t < MAX_TIME
      modifies schedule, schedule.Nodes()
      ensures schedule.Valid() && schedule.Nodes() <= old(schedule.Nodes())
      ensures schedule.list == AdviseAll(old(schedule.list), t).0
      ensures schedule.signals == old(schedule.signals) + AdviseAll(old(schedule.list), t).1
      ensures next == FirstTime(schedule.list) > t
    {
      NextIsLater(schedule.list, t);
      next := schedule.Advise(t);
    }

    method Remember(next: int)
      requires schedule.Valid()
      modifies this`nextAdvise
      ensures schedule.Valid() && nextAdvise == next
    {
      nextAdvise := next;
    }

    method Timeout(next: int, now: int) returns (wait: uint32)
      requires next > now
      ensures wait == WaitMs(next, now)
    {
      var ms, _ := Divide(next - now, 10000);
      wait := if ms > 0xFFFF_FFFF then 0xFFFF_FFFF else ms;
    }
  }

  // ---------------------------------------------------------------------------------
  // The millisecond timer wraps every 2^32 ms
  // ---------------------------------------------------------------------------------

  /** What the clock has added up after readings at the given true times, in ms. */
  function Accumulated(prev: nat, readings: seq<nat>): int
    decreases readings
  {
    if readings == [] then 0
    else Elapsed(WrapU32(prev), WrapU32(readings[0])) + Accumulated(readings[0], readings[1..])
  }

  ghost predicate CloseReadings(prev: nat, readings: seq<nat>)
    decreases readings
  {
    readings != [] ==>
      && prev <= readings[0] < prev + 0x8000_0000
      && CloseReadings(readings[0], readings[1..])
  }

  lemma ElapsedIsExact(prev: nat, now: nat)
    requires prev <= now < prev + 0x8000_0000
    ensures Elapsed(WrapU32(prev), WrapU32(now)) == now - prev
  {
    var k, m := prev / 0x1_0000_0000, now / 0x1_0000_0000;
    assert m == k || m == k + 1;
  }

  /** Through any number of wraps the clock follows the true time, as long as it is read at
      least every 2^31 ms. */
  lemma {:induction false} ClockTracksTime(prev: nat, readings: seq<nat>)
    requires CloseReadings(prev, readings)
    ensures Accumulated(prev, readings) == (if readings == [] then prev else readings[|readings| - 1]) - prev
    decreases readings
  {
    if readings != [] {
      ElapsedIsExact(prev, readings[0]);
      ClockTracksTime(readings[0], readings[1..]);
    }
  }

  /** The bound is the exact one: a longer pause, short of a whole wrap, moves the clock back. */
  lemma ClockGoesBackIff(prev: nat, now: nat)
    requires prev <= now < prev + 0x1_0000_0000
    ensures Elapsed(WrapU32(prev), WrapU32(now)) < 0 <==> now - prev >= 0x8000_0000
  {
    var k, m := prev / 0x1_0000_0000, now / 0x1_0000_0000;
    assert m == k || m == k + 1;
  }
}
