/**
CBaseStreamControl: pending start and stop commands on a stream, and what becomes of each
sample.  The specification is a timeline that says at every instant whether the stream flows.
 */
module StreamControlSpec {
  import opened Filters

  datatype Flow = Flowing | Discarding

  datatype Note = Started(cookie: int) | StoppedNote(cookie: int)

  datatype Control = Control(
    flow: Flow, onStop: Flow, startTime: int, stopTime: int, startCookie: int, stopCookie: int,
    filter: FilterState, sink: bool, sendExtra: bool, notes: seq<Note>,
    fault: bool)              // a missing sink has been called

  // ---------------------------------------------------------------------------------
  // The commands
  // ---------------------------------------------------------------------------------

  function CancelStop(c: Control): Control {
    c.(stopTime := MAX_TIME, stopCookie := 0, onStop := Flowing)
  }

  function CancelStart(c: Control): Control {
    c.(startTime := MAX_TIME, startCookie := 0)
  }

  function StopNotes(c: Control): seq<Note> {
    if c.stopCookie != 0 && c.sink then [StoppedNote(c.stopCookie)] else []
  }

  function StartNotes(c: Control): seq<Note> {
    if c.startCookie != 0 then [Started(c.startCookie)] else []
  }

  function ExecuteStop(c: Control): Control {
    CancelStop(c.(flow := c.onStop, notes := c.notes + StopNotes(c)))
  }

  /** A start with a cookie is announced without a look at the sink. */
  predicate StartFaults(c: Control) {
    c.startCookie != 0 && !c.sink
  }

  function ExecuteStart(c: Control): Control {
    CancelStart(c.(flow := Flowing, notes := c.notes + StartNotes(c), fault := c.fault || StartFaults(c)))
  }

  /** CheckSampleTimes for the sample [start, stop). */
  function Check(c: Control, start: int, stop: int): Control {
    if c.stopTime >= start then
      if c.startTime >= stop then c
      else ExecuteStart(if c.stopTime < c.startTime then ExecuteStop(c) else c)
    else if c.startTime >= stop then ExecuteStop(c)
    else if c.startTime <= c.stopTime then ExecuteStop(ExecuteStart(c))
    else ExecuteStart(ExecuteStop(c))
  }

  /** StopAt with a time. */
  function StopAtTime(c: Control, time: int, extra: bool, cookie: int): Control {
    var d := c.(sendExtra := false);
    if time == MAX_TIME then
      var e := CancelStop(d);
      if c.filter.Stopped? && c.startTime < MAX_TIME then e.(flow := Discarding) else e
    else
      d.(flow := if c.filter.Stopped? && c.startTime > time then Flowing else c.flow,
         sendExtra := extra, stopTime := time, stopCookie := cookie, onStop := Discarding)
  }

  function StopNow(c: Control): Control {
    CancelStop(c.(sendExtra := false, flow := Discarding))
  }

  function StartAtTime(c: Control, time: int, cookie: int): Control {
    if time == MAX_TIME then
      var e := CancelStart(c);
      if c.filter.Stopped? && c.stopTime < MAX_TIME then e.(flow := Flowing) else e
    else
      c.(flow := if c.filter.Stopped? && c.stopTime >= time then Discarding else c.flow,
         startTime := time, startCookie := cookie)
  }

  function StartNow(c: Control): Control {
    CancelStart(c.(flow := Flowing))
  }

  /** NotifyFilterState(State_Stopped): what is pending is executed, in order. */
  function ExecutePending(c: Control): Control {
    if c.startTime != MAX_TIME && c.stopTime == MAX_TIME then ExecuteStart(c)
    else if c.stopTime != MAX_TIME && c.startTime == MAX_TIME then ExecuteStop(c)
    else if c.startTime != MAX_TIME && c.stopTime != MAX_TIME then
      if c.startTime <= c.stopTime then ExecuteStop(ExecuteStart(c)) else ExecuteStart(ExecuteStop(c))
    else c
  }

  function FilterStep(c: Control, state: FilterState): Control {
    if c.filter == state then c
    else if state.Stopped? then ExecutePending(c).(flow := Flowing, filter := state)
    else c.(filter := state)
  }

  /** A pending stop leads to discarding; no cookie without a command; no command after the end of
      time. */
  ghost predicate Valid(c: Control) {
    && c.startTime <= MAX_TIME && c.stopTime <= MAX_TIME
    && (c.stopTime < MAX_TIME ==> c.onStop == Discarding)
    && (c.stopTime == MAX_TIME ==> c.stopCookie == 0)
    && (c.startTime == MAX_TIME ==> c.startCookie == 0)
  }

  // ---------------------------------------------------------------------------------
  // The timeline
  // ---------------------------------------------------------------------------------

  /** Does the stream flow at instant u?  A start takes effect at its time, a stop strictly after
      its time, and of two at the same time the start comes first. */
  ghost predicate FlowsAt(c: Control, u: int) {
    if c.startTime <= c.stopTime then
      if u < c.startTime then c.flow.Flowing? else u <= c.stopTime
    else
      if u <= c.stopTime then c.flow.Flowing? else u >= c.startTime
  }

  ghost predicate FlowsDuring(c: Control, start: int, stop: int) {
    exists u :: start <= u < stop && FlowsAt(c, u)
  }

  /** A sample passes exactly if the timeline flows at some instant of it, in all nineteen cases. */
  lemma VerdictIsTimeline(c: Control, start: int, stop: int)
    requires Valid(c) && start < stop <= MAX_TIME
    ensures Check(c, start, stop).flow.Flowing? <==> FlowsDuring(c, start, stop)
  {
    if FlowsAt(c, start) || FlowsAt(c, stop - 1) {
    } else if start <= c.startTime < stop && FlowsAt(c, c.startTime) {
    } else {
      forall u | start <= u < stop
        ensures !FlowsAt(c, u)
      {
      }
    }
  }

  /** Deciding about a sample changes nothing about any instant after it. */
  lemma CheckKeepsFuture(c: Control, start: int, stop: int, u: int)
    requires Valid(c) && start < stop <= MAX_TIME && stop <= u < MAX_TIME
    ensures FlowsAt(Check(c, start, stop), u) == FlowsAt(c, u)
  {
  }

  /** Carrying out a stop that comes first changes nothing about the time after it, carrying out a start
      that comes first nothing from its time on. */
  lemma ExecuteKeepsTimeline(c: Control, u: int)
    requires Valid(c) && u < MAX_TIME
    ensures c.stopTime < c.startTime && u > c.stopTime ==> FlowsAt(ExecuteStop(c), u) == FlowsAt(c, u)
    ensures c.startTime <= c.stopTime && u >= c.startTime ==> FlowsAt(ExecuteStart(c), u) == FlowsAt(c, u)
  {
  }

  lemma CheckKeepsValid(c: Control, start: int, stop: int)
    requires Valid(c)
    ensures Valid(Check(c, start, stop))
  {
  }

  /** What remains pending after a sample: a start later than it, and a stop that is not before it
      unless a start inside it has overtaken the stop. */
  lemma WhatRemains(c: Control, start: int, stop: int)
    requires Valid(c) && start < stop <= MAX_TIME
    ensures var d := Check(c, start, stop);
            && d.startTime == (if c.startTime >= stop then c.startTime else MAX_TIME)
            && d.stopTime == (if c.stopTime >= start && !(c.stopTime < c.startTime < stop) then c.stopTime else MAX_TIME)
  {
  }

  // ---------------------------------------------------------------------------------
  // A stream of samples
  // ---------------------------------------------------------------------------------

  datatype Sample = Sample(start: int, stop: int)

  /** Non-empty, in order, not overlapping. */
  ghost predicate InOrder(samples: seq<Sample>) {
    && (forall i :: 0 <= i < |samples| ==> samples[i].start < samples[i].stop <= MAX_TIME)
    && (forall i, j :: 0 <= i < j < |samples| ==> samples[i].stop <= samples[j].start)
  }

  function CheckAll(c: Control, samples: seq<Sample>): (Control, seq<Flow>)
    decreases |samples|
  {
    if samples == [] then (c, [])
    else
      var d := Check(c, samples[0].start, samples[0].stop);
      var (e, rest) := CheckAll(d, samples[1..]);
      (e, [d.flow] + rest)
  }

  lemma SameDuring(c: Control, start: int, stop: int, later: Sample)
    requires Valid(c) && start < stop <= later.start < later.stop <= MAX_TIME
    ensures FlowsDuring(Check(c, start, stop), later.start, later.stop) <==> FlowsDuring(c, later.start, later.stop)
  {
    var d := Check(c, start, stop);
    forall u | later.start <= u < later.stop
      ensures FlowsAt(d, u) == FlowsAt(c, u)
    {
      CheckKeepsFuture(c, start, stop, u);
    }
  }

  /** Every sample of a stream is judged by the timeline as it was before the first one. */
  lemma {:induction false} StreamFollowsTimeline(c: Control, samples: seq<Sample>, i: nat)
    requires Valid(c) && InOrder(samples) && i < |samples|
    ensures |CheckAll(c, samples).1| == |samples|
    ensures CheckAll(c, samples).1[i].Flowing? <==> FlowsDuring(c, samples[i].start, samples[i].stop)
    decreases |samples|
  {
    var s := samples[0];
    var d := Check(c, s.start, s.stop);
    CheckKeepsValid(c, s.start, s.stop);
    VerdictIsTimeline(c, s.start, s.stop);
    if i > 0 {
      StreamFollowsTimeline(d, samples[1..], i - 1);
      SameDuring(c, s.start, s.stop, samples[i]);
    } else if |samples| > 1 {
      StreamFollowsTimeline(d, samples[1..], 0);
    }
  }

  // ---------------------------------------------------------------------------------
  // Notifications
  // ---------------------------------------------------------------------------------

  /** What is still to be told, in the order of the timeline. */
  function Untold(c: Control): seq<Note> {
    if c.startTime <= c.stopTime then StartNotes(c) + StopNotes(c) else StopNotes(c) + StartNotes(c)
  }

  lemma StopTells(c: Control)
    requires c.stopTime < c.startTime <= MAX_TIME
    ensures var d := ExecuteStop(c); d.notes + Untold(d) == c.notes + Untold(c)
  {
    assert c.notes + StopNotes(c) + StartNotes(c) == c.notes + (StopNotes(c) + StartNotes(c));
  }

  lemma StartTells(c: Control)
    requires Valid(c) && c.startTime < MAX_TIME && c.startTime <= c.stopTime
    ensures var d := ExecuteStart(c); d.notes + Untold(d) == c.notes + Untold(c)
  {
    assert c.notes + StartNotes(c) + StopNotes(c) == c.notes + (StartNotes(c) + StopNotes(c));
  }

  lemma CheckTells(c: Control, start: int, stop: int)
    requires Valid(c) && start < stop <= MAX_TIME
    ensures var d := Check(c, start, stop);
            d.notes + Untold(d) == c.notes + Untold(c)
  {
    if c.stopTime < c.startTime {
      StopTells(c);
      if c.startTime < stop {
        StartTells(ExecuteStop(c));
      }
    } else if c.startTime < stop {
      StartTells(c);
      if c.stopTime < start {
        StopTells(ExecuteStart(c));
      }
    }
  }

  lemma NotesGrow(c: Control, start: int, stop: int)
    ensures c.notes <= Check(c, start, stop).notes
  {
  }

  /** Each command is told once, when it is executed, and in timeline order: what has been told
      together with what is still to be told never changes while samples are judged. */
  lemma {:induction false} StreamTellsInOrder(c: Control, samples: seq<Sample>)
    requires Valid(c) && InOrder(samples)
    ensures var d := CheckAll(c, samples).0;
            && Valid(d) && d.notes + Untold(d) == c.notes + Untold(c) && c.notes <= d.notes
    decreases |samples|
  {
    if samples != [] {
      var s := samples[0];
      CheckKeepsValid(c, s.start, s.stop);
      CheckTells(c, s.start, s.stop);
      var e := Check(c, s.start, s.stop);
      NotesGrow(c, s.start, s.stop);
      StreamTellsInOrder(e, samples[1..]);
    }
  }

  /** Stopping the filter tells everything that was pending, in timeline order, and leaves the
      stream flowing with nothing pending. */
  lemma StopTellsEverything(c: Control)
    requires Valid(c) && !c.filter.Stopped?
    ensures var d := FilterStep(c, Stopped);
            && Valid(d) && d.notes == c.notes + Untold(c) && Untold(d) == []
            && d.startTime == MAX_TIME && d.stopTime == MAX_TIME && d.flow == Flowing
  {
    PendingTells(c);
  }

  lemma PendingTells(c: Control)
    requires Valid(c)
    ensures var d := ExecutePending(c);
            && Valid(d) && d.notes == c.notes + Untold(c) && Untold(d) == []
            && d.startTime == MAX_TIME && d.stopTime == MAX_TIME
  {
    var t, p := StartNotes(c), StopNotes(c);
    assert c.notes + t + p == c.notes + (t + p) && c.notes + p + t == c.notes + (p + t);
  }

  // ---------------------------------------------------------------------------------
  // Commands before the first run
  // ---------------------------------------------------------------------------------

  /** With a start as the first command the stream begins by discarding, with a stop by flowing. */
  ghost predicate BeginsOpposite(c: Control) {
    if c.startTime <= c.stopTime then c.startTime < MAX_TIME ==> c.flow == Discarding
    else c.flow == Flowing
  }

  /** The commands given to a stopped filter see to that exactly when the new command comes first
      or the stream was already set so; moving a stop behind a start does not. */
  lemma StopAtBeginsOppositeIff(c: Control, time: int, extra: bool, cookie: int)
    requires Valid(c) && c.filter.Stopped? && time < MAX_TIME
    ensures BeginsOpposite(StopAtTime(c, time, extra, cookie)) <==> c.startTime > time || c.flow == Discarding
  {
  }

  lemma StartAtBeginsOppositeIff(c: Control, time: int, cookie: int)
    requires Valid(c) && c.filter.Stopped? && time < MAX_TIME
    ensures BeginsOpposite(StartAtTime(c, time, cookie)) <==> c.stopTime >= time || c.flow == Flowing
  {
  }

  /** Stop at 5, start at 10, stop at 20 instead: the first command is now a start, and the stream
      flows from the beginning. */
  lemma MovedStopBeginsFlowing()
    ensures var c := Control(Flowing, Flowing, MAX_TIME, MAX_TIME, 0, 0, Stopped, true, false, [], false);
            var d := StopAtTime(StartAtTime(StopAtTime(c, 5, false, 0), 10, 0), 20, false, 0);
            d.startTime < d.stopTime && FlowsAt(d, 0) && !BeginsOpposite(d)
  {
  }

  // ---------------------------------------------------------------------------------
  // What the commands do to the timeline
  // ---------------------------------------------------------------------------------

  /** A stop now holds until the next start, a start now until the next stop. */
  lemma NowHolds(c: Control, u: int)
    requires Valid(c) && u < MAX_TIME
    ensures FlowsAt(StopNow(c), u) <==> c.startTime <= u
    ensures FlowsAt(StartNow(c), u) <==> u <= c.stopTime
  {
  }

  /** With a stop at `time` the stream does as before up to the stop or an earlier start, flows from a
      start up to the stop, and after the stop flows again only from a later start on. */
  lemma StopAtHolds(c: Control, time: int, extra: bool, cookie: int, u: int)
    requires Valid(c) && time < MAX_TIME && u < MAX_TIME
    ensures var flows := FlowsAt(StopAtTime(c, time, extra, cookie), u);
            && (u <= time && u < c.startTime ==>
                  (flows <==> c.flow == Flowing || (c.filter.Stopped? && time < c.startTime)))
            && (c.startTime <= u <= time ==> flows)
            && (time < u ==> (flows <==> time < c.startTime <= u))
  {
  }

  /** With a start at `time` it does as before up to the start or an earlier stop, and flows from the
      start on but for the time after a stop that is not before the start. */
  lemma StartAtHolds(c: Control, time: int, cookie: int, u: int)
    requires Valid(c) && time < MAX_TIME && u < MAX_TIME
    ensures var flows := FlowsAt(StartAtTime(c, time, cookie), u);
            && (u < time && u <= c.stopTime ==>
                  (flows <==> c.flow == Flowing && !(c.filter.Stopped? && time <= c.stopTime)))
            && (c.stopTime < u < time ==> !flows)
            && (time <= u ==> (flows <==> u <= c.stopTime || c.stopTime < time))
  {
  }

  /** A cancelled stop is as if there were none, and a cancelled start; before the first run the command
      that is left then decides how the stream begins. */
  lemma CancelHolds(c: Control, extra: bool, cookie: int, u: int)
    requires Valid(c) && u < MAX_TIME
    ensures FlowsAt(StopAtTime(c, MAX_TIME, extra, cookie), u) <==>
      c.startTime <= u || (c.flow == Flowing && !(c.filter.Stopped? && c.startTime < MAX_TIME))
    ensures FlowsAt(StartAtTime(c, MAX_TIME, cookie), u) <==>
      u <= c.stopTime && (c.flow == Flowing || (c.filter.Stopped? && c.stopTime < MAX_TIME))
  {
  }

  /** What is told of a command is its own cookie, in the order of the timeline: giving one replaces what
      was still to be told of the last of its kind and nothing else. */
  lemma StopCookieTold(c: Control, time: int, extra: bool, cookie: int)
    requires Valid(c) && time < MAX_TIME && cookie != 0 && c.sink
    ensures var d := StopAtTime(c, time, extra, cookie);
            && d.notes == c.notes
            && Untold(d) == if c.startTime <= time then StartNotes(c) + [StoppedNote(cookie)]
                            else [StoppedNote(cookie)] + StartNotes(c)
  {
    var d := StopAtTime(c, time, extra, cookie);
    assert StopNotes(d) == [StoppedNote(cookie)] && StartNotes(d) == StartNotes(c);
  }

  lemma StartCookieTold(c: Control, time: int, cookie: int)
    requires Valid(c) && time < MAX_TIME && cookie != 0
    ensures var d := StartAtTime(c, time, cookie);
            && d.notes == c.notes
            && Untold(d) == if time <= c.stopTime then [Started(cookie)] + StopNotes(c)
                            else StopNotes(c) + [Started(cookie)]
  {
    var d := StartAtTime(c, time, cookie);
    assert StartNotes(d) == [Started(cookie)] && StopNotes(d) == StopNotes(c);
  }

  lemma StopKeepsValid(c: Control, time: int, extra: bool, cookie: int)
    requires Valid(c) && time <= MAX_TIME
    ensures Valid(StopAtTime(c, time, extra, cookie)) && Valid(StopNow(c))
  {
  }

  lemma StartKeepsValid(c: Control, time: int, cookie: int)
    requires Valid(c) && time <= MAX_TIME
    ensures Valid(StartAtTime(c, time, cookie)) && Valid(StartNow(c))
  {
  }

  lemma FilterKeepsValid(c: Control, state: FilterState)
    requires Valid(c)
    ensures Valid(FilterStep(c, state))
  {
    PendingTells(c);
  }

  // ---------------------------------------------------------------------------------
  // A start without a sink
  // ---------------------------------------------------------------------------------

  /** Judging a sample calls the missing sink exactly if a start with a cookie is pending, there is no
      sink, and the start comes before the end of the sample. */
  lemma CheckFaultsIff(c: Control, start: int, stop: int)
    requires Valid(c) && start < stop <= MAX_TIME
    ensures Check(c, start, stop).fault <==> c.fault || (StartFaults(c) && c.startTime < stop)
  {
  }

  /** So a stream faults exactly if it reaches such a start. */
  lemma {:induction false} StreamFaultsIff(c: Control, samples: seq<Sample>)
    requires Valid(c) && InOrder(samples)
    ensures CheckAll(c, samples).0.fault <==>
              c.fault || (StartFaults(c) && exists i :: 0 <= i < |samples| && c.startTime < samples[i].stop)
    decreases |samples|
  {
    if samples != [] {
      var s, rest := samples[0], samples[1..];
      var d := Check(c, s.start, s.stop);
      CheckKeepsValid(c, s.start, s.stop);
      CheckFaultsIff(c, s.start, s.stop);
      WhatRemains(c, s.start, s.stop);
      StreamFaultsIff(d, rest);
      if StartFaults(c) && c.startTime >= s.stop {
        assert d.startTime == c.startTime && d.startCookie == c.startCookie;
        if i :| 0 <= i < |samples| && c.startTime < samples[i].stop {
          assert samples[i] == rest[i - 1];
        }
        if i :| 0 <= i < |rest| && c.startTime < rest[i].stop {
          assert rest[i] == samples[i + 1];
        }
      }
    }
  }

  lemma StopFaultsIff(c: Control)
    requires Valid(c) && !c.filter.Stopped?
    ensures FilterStep(c, Stopped).fault <==> c.fault || StartFaults(c)
  {
  }

  /** StartAt with a cookie, given to an object without a sink, then one sample. */
  lemma StartWithoutSink(cookie: int)
    requires cookie != 0
    ensures var c := Control(Flowing, Flowing, MAX_TIME, MAX_TIME, 0, 0, Running, false, false, [], false);
            !StartAtTime(c, 5, cookie).fault && Check(StartAtTime(c, 5, cookie), 0, 10).fault
  {
  }
}

/** The object itself. */
module StreamControl {
  import opened Filters
  import opened StreamControlSpec

  class BaseStreamControl {
    var flow: Flow
    var onStop: Flow
    var startTime: int
    var stopTime: int
    var startCookie: int
    var stopCookie: int
    var filter: FilterState
    var sink: bool
    var sendExtra: bool
    var notes: seq<Note>
    var fault: bool

    function View(): Control
      reads this
    {
      Control(flow, onStop, startTime, stopTime, startCookie, stopCookie, filter, sink, sendExtra, notes, fault)
    }

    constructor (sink: bool)
      ensures View() == Control(Flowing, Flowing, MAX_TIME, MAX_TIME, 0, 0, Stopped, sink, false, [], false)
    {
      flow, onStop, startTime, stopTime, startCookie, stopCookie := Flowing, Flowing, MAX_TIME, MAX_TIME, 0, 0;
      filter, this.sink, sendExtra, notes, fault := Stopped, sink, false, [], false;
    }

    method DoCancelStop()
      modifies this
      ensures View() == CancelStop(old(View()))
    {
      stopTime, stopCookie, onStop := MAX_TIME, 0, Flowing;
    }

    method DoCancelStart()
      modifies this
      ensures View() == CancelStart(old(View()))
    {
      startTime, startCookie := MAX_TIME, 0;
    }

    method DoExecuteStop()
      modifies this
      ensures View() == ExecuteStop(old(View()))
    {
      flow := onStop;
      if stopCookie != 0 && sink {
        notes := notes + [StoppedNote(stopCookie)];
      }
      DoCancelStop();
    }

    /** Unlike a stop, a start is announced without a look at the sink; `fault` stands for the access
        violation when there is none. */
    method DoExecuteStart()
      modifies this
      ensures View() == ExecuteStart(old(View()))
    {
      flow := Flowing;
      if startCookie != 0 {
        fault := fault || !sink;
        notes := notes + [Started(startCookie)];
      }
      DoCancelStart();
    }

    method CheckSampleTimes(start: int, stop: int) returns (verdict: Flow)
      requires Valid(View())
      modifies this
      ensures View() == Check(old(View()), start, stop) && Valid(View()) && verdict == flow
      ensures start < stop <= MAX_TIME ==> (verdict.Flowing? <==> FlowsDuring(old(View()), start, stop))
      ensures start < stop <= MAX_TIME ==> (fault <==> old(fault) || (StartFaults(old(View())) && old(startTime) < stop))
    {
      if start < stop <= MAX_TIME {
        VerdictIsTimeline(View(), start, stop);
        CheckFaultsIff(View(), start, stop);
      }
      CheckKeepsValid(View(), start, stop);
      if stopTime >= start {
        if startTime >= stop {
          return flow;
        }
        if stopTime < startTime {
          DoExecuteStop();
        }
        DoExecuteStart();
        return flow;
      }
      if startTime >= stop {
        DoExecuteStop();
        return flow;
      }
      if startTime <= stopTime {
        DoExecuteStart();
        DoExecuteStop();
      } else {
        DoExecuteStop();
        DoExecuteStart();
      }
      verdict := flow;
    }

    /** StopAt; now is the call without a time. */
    method StopAt(time: int, now: bool, extra: bool, cookie: int)
      requires Valid(View()) && time <= MAX_TIME
      modifies this
      ensures View() == (if now then StopNow(old(View())) else StopAtTime(old(View()), time, extra, cookie)) && Valid(View())
      ensures notes == old(notes) && filter == old(filter) && startTime == old(startTime) && startCookie == old(startCookie)
      ensures now || time == MAX_TIME ==> stopTime == MAX_TIME && stopCookie == 0 && !sendExtra && onStop == Flowing
      ensures now ==> flow == Discarding
      ensures !now && time < MAX_TIME ==> stopTime == time && stopCookie == cookie && sendExtra == extra && onStop == Discarding
    {
      StopKeepsValid(View(), time, extra, cookie);
      SetStop(time, now, extra, cookie);
    }

    method SetStop(time: int, now: bool, extra: bool, cookie: int)
      modifies this
      ensures View() == (if now then StopNow(old(View())) else StopAtTime(old(View()), time, extra, cookie))
    {
      sendExtra := false;
      if now {
        stopTime, stopCookie, flow, onStop := MAX_TIME, 0, Discarding, Flowing;
        return;
      }
      if time == MAX_TIME {
        DoCancelStop();
        if filter == Stopped && startTime < MAX_TIME {
          flow := Discarding;
        }
        return;
      }
      if filter == Stopped && startTime > time {
        flow := Flowing;
      }
      sendExtra, stopTime, stopCookie, onStop := extra, time, cookie, Discarding;
    }

    method StartAt(time: int, now: bool, cookie: int)
      requires Valid(View()) && time <= MAX_TIME
      modifies this
      ensures View() == (if now then StartNow(old(View())) else StartAtTime(old(View()), time, cookie)) && Valid(View())
      ensures notes == old(notes) && filter == old(filter) && stopTime == old(stopTime) && stopCookie == old(stopCookie)
      ensures onStop == old(onStop) && sendExtra == old(sendExtra)
      ensures now || time == MAX_TIME ==> startTime == MAX_TIME && startCookie == 0
      ensures now ==> flow == Flowing
      ensures !now && time < MAX_TIME ==> startTime == time && startCookie == cookie
    {
      StartKeepsValid(View(), time, cookie);
      if !now {
        if time == MAX_TIME {
          DoCancelStart();
          if filter == Stopped && stopTime < MAX_TIME {
            flow := Flowing;
          }
          return;
        }
        if filter == Stopped && stopTime >= time {
          flow := Discarding;
        }
        startTime, startCookie := time, cookie;
      } else {
        startTime, startCookie, flow := MAX_TIME, 0, Flowing;
      }
    }

    method NotifyFilterState(state: FilterState)
      requires Valid(View())
      modifies this
      ensures View() == FilterStep(old(View()), state) && Valid(View()) && filter == state
      ensures state != Stopped ==> View() == old(View()).(filter := state)
      ensures state == Stopped && old(filter) != Stopped ==>
        flow == Flowing && notes == old(notes) + Untold(old(View())) && startTime == MAX_TIME && stopTime == MAX_TIME
    {
      FilterKeepsValid(View(), state);
      PendingTells(View());
      if filter == state {
        return;
      }
      if state == Stopped {
        ExecuteAll();
        flow := Flowing;
      }
      filter := state;
    }

    method ExecuteAll()
      requires Valid(View())
      modifies this
      ensures View() == ExecutePending(old(View())) && Valid(View())
    {
      PendingTells(View());
      if startTime != MAX_TIME && stopTime == MAX_TIME {
        DoExecuteStart();
      } else if stopTime != MAX_TIME && startTime == MAX_TIME {
        DoExecuteStop();
      } else if stopTime != MAX_TIME && startTime != MAX_TIME {
        if startTime <= stopTime {
          DoExecuteStart();
          DoExecuteStop();
        } else {
          DoExecuteStop();
          DoExecuteStart();
        }
      }
    }
  }
}
