/**
CPullPin: positions are rounded to the reader's alignment, then read range by range, either one
at a time or with two requests outstanding.
 */

/** The ranges that have to be read, one buffer after the other. */
module Tiles {
  import opened MachineInts
  import opened Alignment

  /** Times in units of 100 ns, as the reader counts bytes in seconds. */
  datatype Range = Range(start: int, stop: int)

  ghost predicate Positive(sizes: nat -> nat) {
    forall j :: sizes(j) > 0
  }

  function EndOf(current: int, stop: int, size: nat): int {
    var end := current + size * 10_000_000;
    if end > stop then stop else end
  }

  /** From start to stop in steps of the buffers' sizes, the first buffer being number k. */
  ghost function Tiling(start: int, stop: int, sizes: nat -> nat, k: nat): seq<Range>
    requires Positive(sizes)
    decreases if start < stop then stop - start else 0
  {
    if start >= stop then []
    else
      var end := EndOf(start, stop, sizes(k));
      [Range(start, end)] + Tiling(end, stop, sizes, k + 1)
  }

  /** Not empty, and as much as the buffer holds unless the stop comes first. */
  predicate Fills(r: Range, stop: int, size: nat) {
    && r.start < r.stop <= r.start + size * 10_000_000
    && (r.stop == stop || r.stop == r.start + size * 10_000_000)
  }

  /** Each range fills its buffer, and they cover [start, stop) without gap or overlap. */
  ghost predicate Covers(ranges: seq<Range>, start: int, stop: int, sizes: nat -> nat, k: nat) {
    && (start >= stop <==> ranges == [])
    && (ranges != [] ==> ranges[0].start == start && ranges[|ranges| - 1].stop == stop)
    && (forall i :: 0 <= i < |ranges| ==> Fills(ranges[i], stop, sizes(k + i)))
    && (forall i :: 0 <= i < |ranges| - 1 ==> ranges[i].stop == ranges[i + 1].start)
  }

  lemma {:induction false} TilingCovers(start: int, stop: int, sizes: nat -> nat, k: nat)
    requires Positive(sizes)
    ensures Covers(Tiling(start, stop, sizes, k), start, stop, sizes, k)
    decreases if start < stop then stop - start else 0
  {
    if start < stop {
      var end := EndOf(start, stop, sizes(k));
      TilingCovers(end, stop, sizes, k + 1);
      CoversMore(Range(start, end), Tiling(end, stop, sizes, k + 1), stop, sizes, k);
    }
  }

  lemma CoversMore(first: Range, rest: seq<Range>, stop: int, sizes: nat -> nat, k: nat)
    requires Fills(first, stop, sizes(k)) && first.stop <= stop
    requires Covers(rest, first.stop, stop, sizes, k + 1)
    ensures Covers([first] + rest, first.start, stop, sizes, k)
  {
    var all := [first] + rest;
    forall i | 0 <= i < |all|
      ensures Fills(all[i], stop, sizes(k + i))
    {
      if i > 0 {
        assert all[i] == rest[i - 1];
        assert k + 1 + (i - 1) == k + i;
      }
    }
    forall i | 0 <= i < |all| - 1
      ensures all[i].stop == all[i + 1].start
    {
      if i > 0 {
        assert all[i] == rest[i - 1];
      }
    }
  }

  ghost predicate InSome(ranges: seq<Range>, t: int) {
    exists i :: 0 <= i < |ranges| && ranges[i].start <= t < ranges[i].stop
  }

  /** So every position from start up to stop is in one of them. */
  lemma CoversEach(ranges: seq<Range>, start: int, stop: int, sizes: nat -> nat, k: nat, t: int)
    requires Covers(ranges, start, stop, sizes, k) && start <= t < stop
    ensures InSome(ranges, t)
  {
    InSomeFrom(ranges, start, stop, sizes, k, t, 0);
  }

  lemma {:induction false} InSomeFrom(ranges: seq<Range>, start: int, stop: int, sizes: nat -> nat, k: nat, t: int, i: nat)
    requires Covers(ranges, start, stop, sizes, k) && t < stop && i < |ranges| && ranges[i].start <= t
    ensures InSome(ranges, t)
    decreases |ranges| - i
  {
    if t >= ranges[i].stop {
      InSomeFrom(ranges, start, stop, sizes, k, t, i + 1);
    }
  }

  /** With buffers of whole alignment units every range starts a unit or more before the aligned
      stop. */
  lemma {:induction false} TilesAligned(start: int, stop: int, sizes: nat -> nat, k: nat, unit: nat, i: nat)
    requires Positive(sizes) && Multiple(start, unit) && Multiple(stop, unit)
    requires forall j :: Multiple(sizes(j) * 10_000_000, unit)
    requires i < |Tiling(start, stop, sizes, k)|
    ensures start <= Tiling(start, stop, sizes, k)[i].start <= stop - unit
    decreases i
  {
    MultipleBelow(start, stop, unit);
    if i > 0 {
      var end := EndOf(start, stop, sizes(k));
      MultipleSum(start, sizes(k) * 10_000_000, unit);
      TilesAligned(end, stop, sizes, k + 1, unit, i - 1);
    }
  }

  /** Whole seconds of a time, truncated toward zero. */
  function Units(t: int64): int64 {
    UnitsAre(t);
    TruncDiv(t, 10_000_000)
  }

  lemma UnitsAre(t: int64)
    ensures var q := TruncDiv(t, 10_000_000);
            && q * 10_000_000 - 10_000_000 < t < q * 10_000_000 + 10_000_000
            && (t >= 0 ==> q * 10_000_000 <= t)
            && -0x1_0000_0000_0000 < q < 0x1_0000_0000_0000
  {
    QuotRem(Abs(t), 10_000_000);
    QuotBound(Abs(t), 10_000_000, 0x1_0000_0000_0000);
  }

  /** What Process reads for a position range: the aligned start and stop. */
  function AlignedStart(start: int64, k: nat): int
    requires k <= 30
  {
    AlignDownClears(Units(start), k);
    AlignDown(Units(start), Pow2(k)) * 10_000_000
  }

  function AlignedStop(stop: int64, k: nat): int
    requires k <= 30
  {
    AlignDownClears(Units(stop), k);
    AlignUp(Units(stop), Pow2(k)) * 10_000_000
  }

  lemma ScaledMultiple(d: int, p: int)
    requires Multiple(d, p)
    ensures Multiple(d * 10_000_000, p * 10_000_000)
  {
    var m :| d == Times(m, p);
    assert d * 10_000_000 == Times(m, p * 10_000_000);
  }

  /** Where reading has to begin for a start, and to end for a stop: on an alignment unit, the whole
      seconds of the position rounded outwards by less than one unit. */
  ghost predicate BeginsFor(at: int, start: int64, unit: nat) {
    && Multiple(at, unit)
    && at <= TruncDiv(start, 10_000_000) * 10_000_000 < at + unit
    && (start >= 0 ==> at <= start < at + unit)
  }

  ghost predicate EndsFor(at: int, stop: int64, unit: nat) {
    && Multiple(at, unit)
    && TruncDiv(stop, 10_000_000) * 10_000_000 <= at < TruncDiv(stop, 10_000_000) * 10_000_000 + unit
  }

  lemma StartBounds(start: int64, k: nat)
    requires k <= 30
    ensures BeginsFor(AlignedStart(start, k), start, Pow2(k) * 10_000_000)
  {
    UnitsAre(start);
    AlignDownRounds(Units(start), k);
    var down := AlignDown(Units(start), Pow2(k));
    ScaledMultiple(down, Pow2(k));
    ScaledBetween(down, Units(start), down, Pow2(k));
  }

  lemma StopBounds(stop: int64, k: nat)
    requires k <= 30
    ensures EndsFor(AlignedStop(stop, k), stop, Pow2(k) * 10_000_000)
    ensures AlignedStop(stop, k) - Pow2(k) * 10_000_000 < stop
  {
    UnitsAre(stop);
    AlignUpRoundsIff(Units(stop), k);
    var up := AlignUp(Units(stop), Pow2(k));
    ScaledMultiple(up, Pow2(k));
    ScaledBetween(Units(stop), up, Units(stop), Pow2(k));
  }

  lemma ScaledBetween(low: int, x: int, base: int, p: int)
    requires low <= x < base + p
    ensures low * 10_000_000 <= x * 10_000_000 <= base * 10_000_000 + p * 10_000_000 - 10_000_000
  {
  }

  /** The times a range is delivered with. */
  function Adjusted(r: Range, start: int, stop: int): Range {
    Range(r.start - start, (if r.stop > stop then stop else r.stop) - start)
  }

  function AdjustedAll(ranges: seq<Range>, start: int, stop: int): (r: seq<Range>)
    ensures |r| == |ranges| && forall i :: 0 <= i < |ranges| ==> r[i] == Adjusted(ranges[i], start, stop)
  {
    seq(|ranges|, i requires 0 <= i < |ranges| => Adjusted(ranges[i], start, stop))
  }

  lemma AdjustedMore(ranges: seq<Range>, r: Range, start: int, stop: int)
    ensures AdjustedAll(ranges + [r], start, stop) == AdjustedAll(ranges, start, stop) + [Adjusted(r, start, stop)]
  {
  }

  /** The flag is set on the first of n requests and on no other. */
  ghost predicate FirstFlag(flags: seq<bool>, n: nat) {
    |flags| == n && forall i :: 0 <= i < n ==> (flags[i] <==> i == 0)
  }

  lemma FirstFlagMore(flags: seq<bool>, n: nat)
    requires FirstFlag(flags, n)
    ensures FirstFlag(flags + [n == 0], n + 1)
  {
  }

  /** Each request has been collected or is outstanding, and what was collected was delivered. */
  ghost predicate Settled(requested: seq<Range>, outstanding: seq<Range>, collected: seq<Range>, delivered: seq<Range>, start: int, stop: int) {
    && multiset(requested) == multiset(collected) + multiset(outstanding)
    && delivered == AdjustedAll(collected, start, stop)
  }

  /** Whatever was delivered had been requested, and got its adjusted times. */
  ghost predicate Sourced(requested: seq<Range>, collected: seq<Range>, delivered: seq<Range>, start: int, stop: int) {
    && delivered == AdjustedAll(collected, start, stop)
    && forall i :: 0 <= i < |collected| ==> collected[i] in requested
  }

  lemma SettledIsSourced(requested: seq<Range>, outstanding: seq<Range>, collected: seq<Range>, delivered: seq<Range>, start: int, stop: int)
    requires Settled(requested, outstanding, collected, delivered, start, stop)
    ensures Sourced(requested, collected, delivered, start, stop)
  {
    forall i | 0 <= i < |collected|
      ensures collected[i] in requested
    {
      assert collected[i] in multiset(collected);
      assert collected[i] in multiset(requested);
    }
  }

  lemma SettledByRequest(requested: seq<Range>, outstanding: seq<Range>, collected: seq<Range>, delivered: seq<Range>, start: int, stop: int, r: Range)
    requires Settled(requested, outstanding, collected, delivered, start, stop)
    ensures Settled(requested + [r], outstanding + [r], collected, delivered, start, stop)
  {
  }

  lemma SettledByCollect(requested: seq<Range>, outstanding: seq<Range>, collected: seq<Range>, delivered: seq<Range>, start: int, stop: int, i: nat)
    requires Settled(requested, outstanding, collected, delivered, start, stop) && i < |outstanding|
    ensures Settled(requested, outstanding[..i] + outstanding[i + 1..], collected + [outstanding[i]],
                    delivered + [Adjusted(outstanding[i], start, stop)], start, stop)
  {
    TakeOut(outstanding, i);
    AdjustedMore(collected, outstanding[i], start, stop);
  }

  lemma SettledAtOnce(requested: seq<Range>, start: int, stop: int)
    ensures Settled(requested, [], requested, AdjustedAll(requested, start, stop), start, stop)
  {
  }

  /** Ranges read so far, from which the rest of the tiling follows. */
  ghost predicate Plan(done: seq<Range>, current: int, start: int, stop: int, sizes: nat -> nat)
    requires Positive(sizes)
  {
    done + Tiling(current, stop, sizes, |done|) == Tiling(start, stop, sizes, 0)
  }

  lemma StepOfPlan(done: seq<Range>, current: int, next: int, start: int, stop: int, sizes: nat -> nat)
    requires Positive(sizes) && current < stop && Plan(done, current, start, stop, sizes)
    requires next == EndOf(current, stop, sizes(|done|))
    ensures Plan(done + [Range(current, next)], next, start, stop, sizes)
  {
    Assoc(done, [Range(current, next)], Tiling(next, stop, sizes, |done| + 1));
  }

  lemma Assoc(a: seq<Range>, b: seq<Range>, c: seq<Range>)
    ensures a + (b + c) == a + b + c
  {
  }

  lemma TakeOut(s: seq<Range>, i: nat)
    requires i < |s|
    ensures multiset(s) == multiset(s[..i] + s[i + 1..]) + multiset{s[i]}
  {
    assert s == s[..i] + [s[i]] + s[i + 1..];
  }

  lemma PrefixOfPlan(done: seq<Range>, current: int, start: int, stop: int, sizes: nat -> nat)
    requires Positive(sizes) && Plan(done, current, start, stop, sizes)
    ensures done <= Tiling(start, stop, sizes, 0)
    ensures current >= stop ==> done == Tiling(start, stop, sizes, 0)
  {
  }

  /** Every range that is read is delivered with 0 <= t1 < t2 <= stop - aligned start, although the
      aligned stop may lie behind the stop. */
  lemma DeliveredInside(start: int64, stop: int64, k: nat, sizes: nat -> nat, i: nat)
    requires k <= 30 && Positive(sizes)
    requires forall j :: Multiple(sizes(j) * 10_000_000, Pow2(k) * 10_000_000)
    requires i < |Tiling(AlignedStart(start, k), AlignedStop(stop, k), sizes, 0)|
    ensures var from := AlignedStart(start, k);
            var t := Adjusted(Tiling(from, AlignedStop(stop, k), sizes, 0)[i], from, stop);
            0 <= t.start < t.stop <= stop - from
  {
    var from, to := AlignedStart(start, k), AlignedStop(stop, k);
    StartBounds(start, k);
    StopBounds(stop, k);
    TilingCovers(from, to, sizes, 0);
    TilesAligned(from, to, sizes, 0, Pow2(k) * 10_000_000, i);
  }

  /** The ranges read when the end of the stream is reported: every position from the whole seconds
      of the start up to those of the stop is in one of them. */
  ghost predicate ReadsAll(ranges: seq<Range>, start: int64, stop: int64, unit: nat) {
    && (ranges != [] ==> EndsFor(ranges[|ranges| - 1].stop, stop, unit))
    && (ranges == [] ==> TruncDiv(stop, 10_000_000) * 10_000_000 < TruncDiv(start, 10_000_000) * 10_000_000 + unit)
    && forall t :: TruncDiv(start, 10_000_000) * 10_000_000 <= t < TruncDiv(stop, 10_000_000) * 10_000_000 ==>
         InSome(ranges, t)
  }

  lemma PlanReadsAll(start: int64, stop: int64, k: nat, sizes: nat -> nat)
    requires k <= 30 && Positive(sizes)
    ensures ReadsAll(Tiling(AlignedStart(start, k), AlignedStop(stop, k), sizes, 0), start, stop, Pow2(k) * 10_000_000)
  {
    var from, to := AlignedStart(start, k), AlignedStop(stop, k);
    StartBounds(start, k);
    StopBounds(stop, k);
    TilingCovers(from, to, sizes, 0);
    forall t | TruncDiv(start, 10_000_000) * 10_000_000 <= t < TruncDiv(stop, 10_000_000) * 10_000_000
      ensures InSome(Tiling(from, to, sizes, 0), t)
    {
      CoversEach(Tiling(from, to, sizes, 0), from, to, sizes, 0, t);
    }
  }

  lemma PlanBegins(start: int64, stop: int64, k: nat, sizes: nat -> nat, ranges: seq<Range>)
    requires k <= 30 && Positive(sizes) && ranges <= Tiling(AlignedStart(start, k), AlignedStop(stop, k), sizes, 0)
    ensures ranges != [] ==> BeginsFor(ranges[0].start, start, Pow2(k) * 10_000_000)
  {
    StartBounds(start, k);
    TilingCovers(AlignedStart(start, k), AlignedStop(stop, k), sizes, 0);
  }

  ghost predicate Inside(t: Range, length: int) {
    0 <= t.start < t.stop <= length
  }

  /** So whatever is delivered of the plan lies inside, however much of it was read. */
  lemma AllDeliveredInside(start: int64, stop: int64, k: nat, sizes: nat -> nat,
                           requested: seq<Range>, collected: seq<Range>, delivered: seq<Range>)
    requires k <= 30 && Positive(sizes)
    requires forall j :: Multiple(sizes(j) * 10_000_000, Pow2(k) * 10_000_000)
    requires requested <= Tiling(AlignedStart(start, k), AlignedStop(stop, k), sizes, 0)
    requires Sourced(requested, collected, delivered, AlignedStart(start, k), stop)
    ensures forall i :: 0 <= i < |delivered| ==> Inside(delivered[i], stop - AlignedStart(start, k))
  {
    forall i | 0 <= i < |delivered|
      ensures Inside(delivered[i], stop - AlignedStart(start, k))
    {
      var j :| 0 <= j < |requested| && requested[j] == collected[i];
      DeliveredInside(start, stop, k, sizes, j);
    }
  }
}

/** The thread that pulls: Process in its two forms. */
module PullPin {
  import opened MachineInts
  import opened Alignment
  import opened Tiles

  datatype Hr = Ok | Stop | Fail

  /** What the allocator, the reader and the downstream pin answer, call by call: the size of each
      buffer, the result of each call, whether the thread is asked for something else, and which
      of the outstanding requests is completed first. */
  datatype Env = Env(sizes: nat -> nat, answer: nat -> Hr, asked: nat -> bool, pick: nat -> nat)

  /** How many requests are outstanding at most when n have been made: two at once if there are buffers
      for that. */
  function Depth(buffers: int, n: nat): nat {
    if n == 0 then 0 else if n == 1 || buffers <= 1 then 1 else 2
  }

  ghost predicate AllTaken(answers: seq<Hr>) {
    forall i :: 0 <= i < |answers| ==> answers[i] == Ok
  }

  /** No sample is delivered after one that was not taken. */
  ghost predicate Obeyed(answers: seq<Hr>) {
    AllTaken(answers) || (answers != [] && AllTaken(answers[..|answers| - 1]))
  }

  ghost predicate NoneFailed(answers: seq<Hr>) {
    forall i :: 0 <= i < |answers| ==> answers[i] != Fail
  }

  lemma TakenMore(answers: seq<Hr>, hr: Hr)
    requires AllTaken(answers)
    ensures Obeyed(answers + [hr]) && (hr == Ok ==> AllTaken(answers + [hr]))
  {
    assert (answers + [hr])[..|answers + [hr]| - 1] == answers;
  }

  class Puller {
    const env: Env
    var calls: nat
    var requested: seq<Range>        // in the order of the requests
    var discontinuous: seq<bool>     // the flag each was made with
    var outstanding: seq<Range>      // requested and not collected
    var collected: seq<Range>
    var delivered: seq<Range>        // with adjusted times
    var answered: seq<Hr>            // by the downstream pin, to each delivery
    var peak: nat                    // the most requests ever outstanding
    var ended: bool                  // EndOfStream was called

    constructor (env: Env)
      ensures this.env == env && Fresh()
    {
      this.env := env;
      calls, requested, discontinuous, outstanding, collected, delivered := 0, [], [], [], [], [];
      answered, peak, ended := [], 0, false;
    }

    ghost predicate Fresh()
      reads this
    {
      && requested == [] && discontinuous == [] && outstanding == [] && collected == []
      && delivered == [] && answered == [] && peak == 0 && !ended
    }

    /** Requested so far and still to be requested make up the tiling. */
    ghost predicate OnTrack(current: int, start: int, stop: int)
      reads this
      requires Positive(env.sizes)
    {
      Plan(requested, current, start, stop, env.sizes)
    }

    /** What holds whenever Process returns. */
    ghost predicate Outcome(start: int, alignStop: int, stop: int)
      reads this
      requires Positive(env.sizes)
    {
      && requested <= Tiling(start, alignStop, env.sizes, 0) && FirstFlag(discontinuous, |requested|)
      && Sourced(requested, collected, delivered, start, stop)
      && (ended ==> requested == Tiling(start, alignStop, env.sizes, 0) && outstanding == [])
      && (ended ==> Settled(requested, outstanding, collected, delivered, start, stop))
    }

    /** Since call number `from` the thread was asked for something else, or a call was not answered
        with S_OK. */
    ghost predicate Interrupted(from: nat)
      reads this
    {
      exists j :: from <= j <= calls && (env.asked(j) || env.answer(j) != Ok)
    }

    /** A success code, S_OK or S_FALSE, is not a failure. */
    method Answer() returns (hr: Hr)
      modifies this`calls
      ensures hr == env.answer(old(calls)) && calls == old(calls) + 1
    {
      hr := env.answer(calls);
      calls := calls + 1;
    }

    /** DeliverSample. */
    method Deliver(r: Range, start: int, stop: int) returns (hr: Hr)
      modifies this`calls, this`delivered, this`answered
      ensures delivered == old(delivered) + [Range(r.start - start, (if r.stop <= stop then r.stop else stop) - start)]
      ensures answered == old(answered) + [hr] && hr == env.answer(old(calls)) && calls == old(calls) + 1
    {
      var t1, t2 := r.start, r.stop;
      if t2 > stop {
        t2 := stop;
      }
      delivered := delivered + [Range(t1 - start, t2 - start)];
      hr := Answer();
      answered := answered + [hr];
    }

    /** GetBuffer, the times and the flag; the part that both loops share. */
    method NextRange(current: int, alignStop: int, flag: bool) returns (ok: bool, next: int)
      requires Positive(env.sizes) && current < alignStop
      modifies this`calls, this`requested, this`discontinuous
      ensures calls == old(calls) + 1 && (!ok ==> Interrupted(old(calls)))
      ensures next == EndOf(current, alignStop, env.sizes(|old(requested)|))
      ensures ok ==> requested == old(requested) + [Range(current, next)] && discontinuous == old(discontinuous) + [flag]
      ensures !ok ==> requested == old(requested) && discontinuous == old(discontinuous)
    {
      var hr := Answer();
      next := current + env.sizes(|requested|) * 10_000_000;
      if next > alignStop {
        next := alignStop;
      }
      ok := hr != Fail;
      if ok {
        requested := requested + [Range(current, next)];
        discontinuous := discontinuous + [flag];
      }
    }

    /** The next range of the plan. */
    method Ask(current: int, alignStop: int, flag: bool, start: int) returns (ok: bool, next: int)
      requires Positive(env.sizes) && current < alignStop && flag == (requested == [])
      requires OnTrack(current, start, alignStop) && FirstFlag(discontinuous, |requested|) && !ended
      modifies this`calls, this`requested, this`discontinuous
      ensures old(calls) <= calls && (!ok ==> Interrupted(old(calls)))
      ensures GivenUp(start, alignStop)
      ensures ok ==> requested == old(requested) + [Range(current, next)] && current < next && OnTrack(next, start, alignStop)
      ensures !ok ==> requested == old(requested)
    {
      PrefixOfPlan(requested, current, start, alignStop, env.sizes);
      ok, next := NextRange(current, alignStop, flag);
      if ok {
        FirstFlagMore(old(discontinuous), |old(requested)|);
        StepOfPlan(old(requested), current, next, start, alignStop, env.sizes);
        PrefixOfPlan(requested, next, start, alignStop, env.sizes);
      }
    }

    /** The loop that reads synchronously. */
    method ProcessSync(start: int, alignStop: int, stop: int)
      requires Fresh() && Positive(env.sizes)
      modifies this
      ensures !ended ==> Interrupted(old(calls))
      ensures Outcome(start, alignStop, stop) && peak == 0
      ensures |answered| == |delivered| && Obeyed(answered) && (ended ==> AllTaken(answered))
      ensures ended ==> delivered == AdjustedAll(Tiling(start, alignStop, env.sizes, 0), start, stop)
    {
      var current := start;
      assert [] + Tiling(start, alignStop, env.sizes, 0) == Tiling(start, alignStop, env.sizes, 0);
      while current < alignStop
        invariant Reading(current, start, alignStop, stop) && GivenUp(start, alignStop) && outstanding == [] && peak == 0
        invariant Sourced(requested, collected, delivered, start, stop) && |answered| == |delivered|
        invariant old(calls) <= calls
        decreases alignStop - current
      {
        if env.asked(calls) {
          return;
        }
        var going;
        going, current := ReadOne(current, alignStop, requested == [], start, stop);
        if !going {
          return;
        }
      }
      PrefixOfPlan(requested, current, start, alignStop, env.sizes);
      SettledAtOnce(requested, start, stop);
      ended := true;
    }

    /** Between two rounds of it everything requested has been delivered. */
    ghost predicate Reading(current: int, start: int, alignStop: int, stop: int)
      reads this
      requires Positive(env.sizes)
    {
      && OnTrack(current, start, alignStop) && FirstFlag(discontinuous, |requested|) && !ended
      && collected == requested && delivered == AdjustedAll(requested, start, stop)
      && AllTaken(answered)
    }

    /** One round; the flag is bDiscontinuity. */
    method ReadOne(current: int, alignStop: int, flag: bool, start: int, stop: int) returns (going: bool, next: int)
      requires Positive(env.sizes) && current < alignStop && Reading(current, start, alignStop, stop)
      requires flag == (requested == [])
      requires |answered| == |delivered|
      modifies this`calls, this`requested, this`discontinuous, this`collected, this`delivered, this`answered
      ensures old(calls) <= calls && (!going ==> Interrupted(old(calls)))
      ensures GivenUp(start, alignStop) && Sourced(requested, collected, delivered, start, stop)
      ensures |answered| == |delivered| && Obeyed(answered)
      ensures going ==> current < next && requested != [] && Reading(next, start, alignStop, stop)
    {
      var ok;
      ok, next := Ask(current, alignStop, flag, start);
      if !ok {
        return false, next;
      }
      AdjustedMore(old(requested), Range(current, next), start, stop);
      going := ReadAndDeliver(Range(current, next), start, stop);
    }

    /** SyncReadAligned and DeliverSample. */
    method ReadAndDeliver(r: Range, start: int, stop: int) returns (going: bool)
      requires AllTaken(answered) && |answered| == |delivered|
      modifies this`calls, this`collected, this`delivered, this`answered
      ensures old(calls) <= calls && (!going ==> Interrupted(old(calls)))
      ensures |answered| == |delivered| && Obeyed(answered) && (going ==> AllTaken(answered))
      ensures if going || collected != old(collected)
              then collected == old(collected) + [r] && delivered == old(delivered) + [Adjusted(r, start, stop)]
              else delivered == old(delivered)
    {
      var hr := Answer();
      if hr == Fail {
        return false;
      }
      collected := collected + [r];
      hr := Deliver(r, start, stop);
      TakenMore(old(answered), hr);
      going := hr == Ok;
    }

    /** Between two calls of the overlapped loop: the plan is kept, and of the requests made `open`
        are outstanding and the others delivered. */
    ghost predicate Going(current: int, start: int, alignStop: int, stop: int, open: nat)
      reads this
      requires Positive(env.sizes)
    {
      && OnTrack(current, start, alignStop) && FirstFlag(discontinuous, |requested|) && !ended
      && Settled(requested, outstanding, collected, delivered, start, stop) && |outstanding| == open <= peak
    }

    /** Given up: what was requested is the beginning of the plan. */
    ghost predicate GivenUp(start: int, alignStop: int)
      reads this
      requires Positive(env.sizes)
    {
      requested <= Tiling(start, alignStop, env.sizes, 0) && FirstFlag(discontinuous, |requested|) && !ended
    }

    /** QueueSample. */
    method QueueSample(current: int, alignStop: int, flag: bool, start: int, stop: int, ghost open: nat) returns (ok: bool, next: int)
      requires Positive(env.sizes) && current < alignStop && flag == (requested == [])
      requires Going(current, start, alignStop, stop, open)
      modifies this`calls, this`requested, this`discontinuous, this`outstanding, this`peak
      ensures old(calls) <= calls && (!ok ==> Interrupted(old(calls)))
      ensures GivenUp(start, alignStop) && Sourced(requested, collected, delivered, start, stop)
      ensures ok ==> Going(next, start, alignStop, stop, open + 1) && current < next && requested != []
      ensures peak == (if ok && open + 1 > old(peak) then open + 1 else old(peak))
      ensures ok ==> |requested| == |old(requested)| + 1
    {
      SettledIsSourced(requested, outstanding, collected, delivered, start, stop);
      ok, next := Ask(current, alignStop, flag, start);
      if !ok {
        return;
      }
      var hr := Answer();
      ok := hr != Fail;
      if ok {
        SettledByRequest(old(requested), outstanding, collected, delivered, start, stop, Range(current, next));
        outstanding := outstanding + [Range(current, next)];
        if |outstanding| > peak {
          peak := |outstanding|;
        }
      }
    }

    /** CollectAndDeliver: whichever request is completed first. */
    method CollectAndDeliver(start: int, alignStop: int, stop: int, ghost current: int, ghost open: nat) returns (hr: Hr)
      requires Positive(env.sizes) && open > 0 && Going(current, start, alignStop, stop, open)
      requires AllTaken(answered) && |answered| == |delivered|
      modifies this`calls, this`outstanding, this`collected, this`delivered, this`answered
      ensures old(calls) <= calls && (hr != Ok ==> Interrupted(old(calls)))
      ensures |answered| == |delivered| && Obeyed(answered) && (hr == Ok ==> AllTaken(answered))
      ensures hr != Fail ==> NoneFailed(answered)
      ensures GivenUp(start, alignStop) && Sourced(requested, collected, delivered, start, stop)
      ensures hr != Fail ==> Going(current, start, alignStop, stop, open - 1)
    {
      PrefixOfPlan(requested, current, start, alignStop, env.sizes);
      hr := WaitAndDeliver(start, stop);
      SettledIsSourced(requested, outstanding, collected, delivered, start, stop);
    }

    method WaitAndDeliver(start: int, stop: int) returns (hr: Hr)
      requires outstanding != [] && Settled(requested, outstanding, collected, delivered, start, stop)
      requires AllTaken(answered) && |answered| == |delivered|
      modifies this`calls, this`outstanding, this`collected, this`delivered, this`answered
      ensures Settled(requested, outstanding, collected, delivered, start, stop)
      ensures old(calls) <= calls && (hr != Ok ==> Interrupted(old(calls)))
      ensures |answered| == |delivered| && Obeyed(answered) && (hr == Ok ==> AllTaken(answered))
      ensures hr != Fail ==> NoneFailed(answered) && |outstanding| == |old(outstanding)| - 1
    {
      var i := Pick();
      hr := Answer();
      if hr == Fail {
        return;
      }
      hr := DeliverOne(i, start, stop);
      TakenMore(old(answered), hr);
    }

    method DeliverOne(i: nat, start: int, stop: int) returns (hr: Hr)
      requires i < |outstanding| && Settled(requested, outstanding, collected, delivered, start, stop)
      modifies this`calls, this`outstanding, this`collected, this`delivered, this`answered
      ensures hr == env.answer(old(calls)) && calls == old(calls) + 1
      ensures answered == old(answered) + [hr] && |delivered| == |old(delivered)| + 1
      ensures Settled(requested, outstanding, collected, delivered, start, stop)
      ensures |outstanding| == |old(outstanding)| - 1
    {
      SettledByCollect(requested, outstanding, collected, delivered, start, stop, i);
      var r := Collect(i);
      hr := Deliver(r, start, stop);
    }

    method Pick() returns (i: nat)
      requires outstanding != []
      ensures i < |outstanding|
    {
      i := env.pick(calls) % |outstanding|;
    }

    /** WaitForNext. */
    method Collect(i: nat) returns (r: Range)
      requires i < |outstanding|
      modifies this`outstanding, this`collected
      ensures r == old(outstanding)[i] && collected == old(collected) + [r]
      ensures outstanding == old(outstanding)[..i] + old(outstanding)[i + 1..]
    {
      r := outstanding[i];
      outstanding := outstanding[..i] + outstanding[i + 1..];
      collected := collected + [r];
    }

    /** The overlapped loop: the same plan, at most two requests outstanding, none left at the end. */
    method ProcessAsync(start: int, alignStop: int, stop: int, buffers: int)
      requires Fresh() && Positive(env.sizes)
      modifies this
      ensures !ended ==> Interrupted(old(calls))
      ensures Outcome(start, alignStop, stop) && peak <= (if buffers > 1 then 2 else 1)
      ensures ended ==> peak == Depth(buffers, |requested|)
      ensures |answered| == |delivered| && Obeyed(answered)
      ensures ended ==> NoneFailed(answered) && (buffers <= 1 ==> AllTaken(answered))
    {
      var current := start;
      assert [] + Tiling(start, alignStop, env.sizes, 0) == Tiling(start, alignStop, env.sizes, 0);
      while current < alignStop
        invariant Going(current, start, alignStop, stop, 0) && GivenUp(start, alignStop)
        invariant Sourced(requested, collected, delivered, start, stop)
        invariant current < alignStop ==> requested == [] && AllTaken(answered)
        invariant |answered| == |delivered| && Obeyed(answered) && NoneFailed(answered)
        invariant buffers <= 1 ==> AllTaken(answered)
        invariant peak <= (if buffers > 1 then 2 else 1) && peak == Depth(buffers, |requested|)
        invariant old(calls) <= calls
        decreases alignStop - current
      {
        if env.asked(calls) {
          return;
        }
        var ok;
        ok, current := PullAll(current, alignStop, start, stop, buffers);
        if !ok {
          return;
        }
      }
      PrefixOfPlan(requested, current, start, alignStop, env.sizes);
      ended := true;
    }

    /** One round of its outer loop. */
    method PullAll(from: int, alignStop: int, start: int, stop: int, buffers: int) returns (ok: bool, current: int)
      requires Positive(env.sizes) && from < alignStop && requested == [] && Going(from, start, alignStop, stop, 0)
      requires peak == 0 && AllTaken(answered) && |answered| == |delivered|
      modifies this
      ensures old(calls) <= calls && (!ok ==> Interrupted(old(calls)))
      ensures |answered| == |delivered| && Obeyed(answered)
      ensures ok ==> peak == Depth(buffers, |requested|)
      ensures ok ==> NoneFailed(answered) && (buffers <= 1 ==> AllTaken(answered))
      ensures GivenUp(start, alignStop) && peak <= (if buffers > 1 then 2 else 1)
      ensures Sourced(requested, collected, delivered, start, stop)
      ensures ok ==> Going(current, start, alignStop, stop, 0) && current >= alignStop && from < current
    {
      current := from;
      SettledIsSourced(requested, outstanding, collected, delivered, start, stop);
      var flag, ahead := true, if buffers > 1 then 1 else 0;
      if buffers > 1 {
        ok, current := QueueSample(current, alignStop, true, start, stop, 0);
        flag := false;
        if !ok {
          return;
        }
      }
      while current < alignStop
        invariant from <= current && (current < alignStop || from < current)
        invariant Going(current, start, alignStop, stop, ahead) && flag == (requested == [])
        invariant peak == Depth(buffers, |requested|) && (ahead == 1 ==> |requested| > 0) && GivenUp(start, alignStop)
        invariant AllTaken(answered) && |answered| == |delivered|
        invariant Sourced(requested, collected, delivered, start, stop)
        invariant old(calls) <= calls
        decreases alignStop - current
      {
        ok, current := QueueSample(current, alignStop, flag, start, stop, ahead);
        flag := false;
        if !ok {
          return;
        }
        var hr := CollectAndDeliver(start, alignStop, stop, current, ahead + 1);
        if hr != Ok {
          return false, current;
        }
      }
      if buffers > 1 {
        var hr := CollectAndDeliver(start, alignStop, stop, current, 1);
        if hr == Fail {
          return false, current;
        }
      }
      ok := true;
    }

    /** Process: both forms work through the same plan, from the aligned start to the aligned stop,
        and report the end of the stream only when all of it has been read and delivered. */
    method Process(mStart: int64, mStop: int64, duration: int64, k: nat, buffers: int, sync: bool)
      requires Fresh() && Positive(env.sizes) && k <= 30
      modifies this
      ensures mStop <= mStart ==> ended && requested == []
      ensures !ended ==> Interrupted(old(calls))
      ensures mStop > mStart ==>
        var stop := if mStop > duration then duration else mStop;
        && Outcome(AlignedStart(mStart, k), AlignedStop(stop, k), stop)
        && peak <= (if sync then 0 else if buffers > 1 then 2 else 1)
        && (ended && !sync ==> peak == Depth(buffers, |requested|))
        && Obeyed(answered) && (ended ==> NoneFailed(answered))
        && (ended && (sync || buffers <= 1) ==> AllTaken(answered))
        && (requested != [] ==> BeginsFor(requested[0].start, mStart, Pow2(k) * 10_000_000))
        && (ended ==> ReadsAll(requested, mStart, stop, Pow2(k) * 10_000_000))
        && (WholeUnits(k) ==> forall i :: 0 <= i < |delivered| ==> Inside(delivered[i], stop - AlignedStart(mStart, k)))
    {
      if mStop <= mStart {
        ended := true;
        return;
      }
      var start := AlignedStart(mStart, k);
      var stop := if mStop > duration then duration else mStop;
      var alignStop := AlignedStop(stop, k);
      Pull(start, alignStop, stop, buffers, sync);
      PlanBegins(mStart, stop, k, env.sizes, requested);
      PlanReadsAll(mStart, stop, k, env.sizes);
      if WholeUnits(k) {
        AllDeliveredInside(mStart, stop, k, env.sizes, requested, collected, delivered);
      }
    }

    method Pull(start: int, alignStop: int, stop: int, buffers: int, sync: bool)
      requires Fresh() && Positive(env.sizes)
      modifies this
      ensures Outcome(start, alignStop, stop)
      ensures !ended ==> Interrupted(old(calls))
      ensures peak <= (if sync then 0 else if buffers > 1 then 2 else 1)
      ensures ended && !sync ==> peak == Depth(buffers, |requested|)
      ensures Obeyed(answered) && (ended ==> NoneFailed(answered))
      ensures ended && (sync || buffers <= 1) ==> AllTaken(answered)
    {
      if sync {
        ProcessSync(start, alignStop, stop);
      } else {
        ProcessAsync(start, alignStop, stop, buffers);
      }
    }

    /** The buffers hold whole alignment units. */
    ghost predicate WholeUnits(k: nat) {
      forall j :: Multiple(env.sizes(j) * 10_000_000, Pow2(k) * 10_000_000)
    }
  }
}
