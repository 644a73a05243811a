/**
A run of the renderer in which the source thread waits for a sample that is gone.
 */
module RendererStale {
  import opened Options
  import opened Filters
  import opened RendererSpec
  import opened RendererRuns

  function Last(run: seq<Sys>): Sys
    requires run != []
  {
    run[|run| - 1]
  }

  lemma ExtendRun(run: seq<Sys>, t: Sys)
    requires IsRun(run) && Next(Last(run), t)
    ensures IsRun(run + [t]) && Last(run + [t]) == t
  {
    var more := run + [t];
    forall i | 0 <= i < |more| - 1
      ensures StepAt(more, i)
    {
      if i < |run| - 1 {
        assert StepAt(run, i);
      }
    }
  }

  function PerformAll(f: Fields, actions: seq<Action>): Fields
    decreases |actions|
  {
    if actions == [] then f else PerformAll(Perform(f, actions[0]), actions[1..])
  }

  /** What a call comes to when nobody interferes. */
  function After(s: Sys, call: Call): Sys {
    s.(f := PerformAll(s.f, Actions(call)), call := None, step := |Actions(call)|, interfaceLock := Free, rendererLock := Free)
  }

  /** A call may have to wait for a Receive to complete. */
  predicate Unhindered(f: Fields, call: Call) {
    f.inReceive ==> !call.Stop? && !call.BeginFlush?
  }

  lemma PerformFrom(f: Fields, actions: seq<Action>, i: nat)
    requires i < |actions|
    ensures PerformAll(f, actions[i..]) == PerformAll(Perform(f, actions[i]), actions[i + 1..])
  {
    assert actions[i..][1..] == actions[i + 1..];
  }

  /** Where the call at the end of a run leads. */
  function Outcome(s: Sys, call: Call): Sys
    requires s.step <= |Actions(call)|
  {
    s.(f := PerformAll(s.f, Actions(call)[s.step..]), call := None, step := |Actions(call)|,
       interfaceLock := Free, rendererLock := Free)
  }

  ghost predicate Underway(run: seq<Sys>, call: Call) {
    && IsRun(run) && Last(run).call == Some(call) && Last(run).step <= |Actions(call)|
    && Unhindered(Last(run).f, call) && !Last(run).rendererLock.Other?
  }

  lemma CallFinishes(run: seq<Sys>, call: Call) returns (more: seq<Sys>)
    requires Underway(run, call) && Last(run).step == |Actions(call)|
    ensures IsRun(more) && Last(more) == Outcome(Last(run), call)
  {
    var s := Last(run);
    RunsKeepInv(run, |run| - 1);
    EndOfCall(s);
    var t := s.(interfaceLock := Free, call := None);
    assert Finish(s, t);
    ExtendRun(run, t);
    more := run + [t];
    assert Actions(call)[s.step..] == [];
  }

  lemma CallAdvances(run: seq<Sys>, call: Call) returns (more: seq<Sys>)
    requires Underway(run, call) && Last(run).step < |Actions(call)|
    ensures Underway(more, call) && Last(more).step == Last(run).step + 1
    ensures Outcome(Last(more), call) == Outcome(Last(run), call)
  {
    var s := Last(run);
    RunsKeepInv(run, |run| - 1);
    var t := OneAction(s);
    ExtendRun(run, t);
    more := run + [t];
    PerformFrom(s.f, Actions(call), s.step);
  }

  /** A call that has begun goes on to its end. */
  lemma {:induction false} CallGoesOn(run: seq<Sys>, call: Call) returns (more: seq<Sys>)
    requires Underway(run, call)
    ensures IsRun(more) && Last(more) == Outcome(Last(run), call)
    decreases |Actions(call)| - Last(run).step
  {
    if Last(run).step == |Actions(call)| {
      more := CallFinishes(run, call);
    } else {
      var next := CallAdvances(run, call);
      more := CallGoesOn(next, call);
    }
  }

  lemma EndOfCall(s: Sys)
    requires Inv(s) && s.call.Some? && s.step == |Actions(s.call.value)| && !s.rendererLock.Other?
    ensures s.rendererLock.Free?
  {
  }

  lemma OneAction(s: Sys) returns (t: Sys)
    requires Inv(s) && s.call.Some? && s.step < |Actions(s.call.value)| && !s.rendererLock.Other? && Unhindered(s.f, s.call.value)
    ensures Next(s, t) && t.f.inReceive == s.f.inReceive && !t.rendererLock.Other?
    ensures t == s.(f := Perform(s.f, Actions(s.call.value)[s.step]), step := s.step + 1, rendererLock := t.rendererLock)
  {
    var a := Actions(s.call.value)[s.step];
    PerformSignals(s.f, a);
    MoreActionFacts(s.call.value, s.step);
    assert !HoldsBoth(s.pc);
    t := s.(f := Perform(s.f, a), step := s.step + 1,
            rendererLock := if a.LockRenderer? then Control else if a.UnlockRenderer? then Free else s.rendererLock);
    assert Act(s, t);
  }

  lemma CallRuns(run: seq<Sys>, call: Call) returns (more: seq<Sys>)
    requires IsRun(run) && Starts(Last(run).f, call) && Last(run).interfaceLock.Free? && Last(run).rendererLock.Free?
    requires Unhindered(Last(run).f, call)
    ensures IsRun(more) && Last(more) == After(Last(run), call)
  {
    var s := Last(run);
    var t := s.(interfaceLock := Control, call := Some(call), step := 0);
    assert Begin(s, t, call);
    ExtendRun(run, t);
    more := CallGoesOn(run + [t], call);
    assert Actions(call)[0..] == Actions(call);
  }

  // ---------------------------------------------------------------------------------
  // The run
  // ---------------------------------------------------------------------------------

  lemma PauseFromStopped(f: Fields)
    requires f.pending.None?
    ensures PerformAll(f, Actions(Pause(Stopped))) == f.(state := Paused, streaming := false, threadSignal := false, renderEvent := false, advise := false)
  {
    var a := [SetState(Paused), StopStreaming, SetSignal(false), CancelNotification, Drop];
    assert Actions(Pause(Stopped)) == a;
    assert a[1..] == [StopStreaming, SetSignal(false), CancelNotification, Drop];
    assert a[1..][1..] == [SetSignal(false), CancelNotification, Drop];
    assert a[1..][1..][1..] == [CancelNotification, Drop];
    assert a[1..][1..][1..][1..] == [Drop];
  }

  lemma PerformStep(f: Fields, a: Action, rest: seq<Action>)
    ensures PerformAll(f, [a] + rest) == PerformAll(Perform(f, a), rest)
  {
    assert ([a] + rest)[1..] == rest;
  }

  lemma FlushDrops(f: Fields)
    ensures PerformAll(f, [CancelNotification, Drop, Spin, UnlockRenderer]) == ClearPending(f.(renderEvent := false, advise := false))
  {
    var g := f.(renderEvent := false, advise := false);
    PerformStep(f, CancelNotification, [Drop, Spin, UnlockRenderer]);
    assert [CancelNotification] + [Drop, Spin, UnlockRenderer] == [CancelNotification, Drop, Spin, UnlockRenderer];
    PerformStep(g, Drop, [Spin, UnlockRenderer]);
    assert [Drop] + [Spin, UnlockRenderer] == [Drop, Spin, UnlockRenderer];
    PerformStep(ClearPending(g), Spin, [UnlockRenderer]);
    assert [Spin] + [UnlockRenderer] == [Spin, UnlockRenderer];
    PerformStep(ClearPending(g), UnlockRenderer, []);
    assert [UnlockRenderer] + [] == [UnlockRenderer];
  }

  lemma PerformThree(f: Fields, a: Action, b: Action, c: Action, rest: seq<Action>)
    ensures PerformAll(f, [a] + ([b] + ([c] + rest))) == PerformAll(Perform(Perform(Perform(f, a), b), c), rest)
  {
    PerformStep(f, a, [b] + ([c] + rest));
    PerformStep(Perform(f, a), b, [c] + rest);
    PerformStep(Perform(Perform(f, a), b), c, rest);
  }

  lemma FlushActions()
    ensures Actions(BeginFlush) ==
      [LockRenderer] + ([SetFlushing(true)] + ([SetSignal(true)] + [CancelNotification, Drop, Spin, UnlockRenderer]))
  {
  }

  lemma FlushBegins(f: Fields, actions: seq<Action>)
    requires actions ==
      [LockRenderer] + ([SetFlushing(true)] + ([SetSignal(true)] + [CancelNotification, Drop, Spin, UnlockRenderer]))
    ensures PerformAll(f, actions) == ClearPending(f.(flushing := true, threadSignal := true, renderEvent := false, advise := false))
  {
    PerformThree(f, LockRenderer, SetFlushing(true), SetSignal(true), [CancelNotification, Drop, Spin, UnlockRenderer]);
    FlushDrops(f.(flushing := true, threadSignal := true));
  }

  lemma FlushEnds(f: Fields)
    ensures PerformAll(f, Actions(EndFlush)) == f.(flushing := false, threadSignal := false)
  {
    var a := Actions(EndFlush);
    assert a[1..] == [SetSignal(false), SetFlushing(false), UnlockRenderer];
    assert a[1..][1..] == [SetFlushing(false), UnlockRenderer];
    assert a[1..][1..][1..] == [UnlockRenderer];
  }

  lemma RunFromPaused(f: Fields)
    requires f.pending.None? && !f.streaming
    ensures PerformAll(f, Actions(Run(Paused, Later))) == f.(state := Running, threadSignal := false, streaming := true)
  {
    var a := [SetState(Running), SetSignal(false), StartStreaming(Later)];
    assert Actions(Run(Paused, Later)) == a;
    assert a[1..] == [SetSignal(false), StartStreaming(Later)];
    assert a[1..][1..] == [StartStreaming(Later)];
  }

  /** The source delivers a sample to a paused renderer and reaches the lock of the paused branch. */
  lemma DeliverPaused(run: seq<Sys>) returns (more: seq<Sys>)
    requires IsRun(run)
    requires var s := Last(run);
             && s.pc.Outside? && s.delivered == 0 && s.interfaceLock.Free? && s.rendererLock.Free?
             && s.f == Fields(Paused, None, false, false, false, false, false, false, [], {})
    ensures IsRun(more)
    ensures var s := Last(run);
            Last(more) == s.(pc := WantFirst, delivered := 1, stale := false, aborted := false, f := s.f.(pending := Some(0)))
  {
    var c := Circumstances(false, false, Later);
    var s := Last(run);
    var s1 := s.(pc := WantPrepare, delivered := 1, stale := false, aborted := false);
    assert Arrive(s, s1);
    ExtendRun(run, s1);
    var s2 := s1.(pc := Checking, interfaceLock := Source, f := s1.f.(inReceive := true));
    assert Enter(s1, s2);
    ExtendRun(run + [s1], s2);
    var s3 := s2.(pc := WantSample);
    assert Check(s2, s3, c);
    ExtendRun(run + [s1] + [s2], s3);
    more := StoreAndLeave(run + [s1] + [s2] + [s3]);
  }

  lemma StoreAndLeave(run: seq<Sys>) returns (more: seq<Sys>)
    requires IsRun(run)
    requires var s := Last(run);
             && s.pc.WantSample? && s.delivered == 1 && s.interfaceLock.Source? && s.rendererLock.Free?
             && s.f == Fields(Paused, None, false, false, true, false, false, false, [], {})
    ensures IsRun(more)
    ensures var s := Last(run);
            Last(more) == s.(pc := WantFirst, interfaceLock := Free, f := s.f.(inReceive := false, pending := Some(0)))
  {
    var c := Circumstances(false, false, Later);
    var s := Last(run);
    var s4 := s.(pc := Storing, rendererLock := Source);
    assert LockRendererInside(s, s4);
    ExtendRun(run, s4);
    var s5 := s4.(pc := Prepared, rendererLock := Free, interfaceLock := Free, f := s4.f.(pending := Some(0)));
    assert Store(s4, s5, c);
    ExtendRun(run + [s4], s5);
    var s6 := s5.(pc := PausedPrepare);
    assert LookAtState(s5, s6);
    ExtendRun(run + [s4] + [s5], s6);
    var s7 := s6.(pc := WantFirst, f := s6.f.(inReceive := false));
    assert LeavePaused(s6, s7);
    more := run + [s4] + [s5] + [s6] + [s7];
    ExtendRun(run + [s4] + [s5] + [s6], s7);
  }

  /** The paused branch goes on to the wait. */
  lemma EnterWait(run: seq<Sys>) returns (more: seq<Sys>)
    requires IsRun(run)
    requires var s := Last(run);
             && s.pc.WantFirst? && s.interfaceLock.Free? && s.rendererLock.Free? && s.f.state.Paused? && s.f.pending.None?
    ensures IsRun(more)
    ensures Last(more) == Last(run).(pc := Waiting, stale := true, f := Last(run).f.(inReceive := true))
  {
    var s := Last(run);
    var s1 := s.(pc := FirstSample, interfaceLock := Source, f := s.f.(inReceive := true), stale := true);
    assert EnterFirst(s, s1);
    ExtendRun(run, s1);
    var s2 := s1.(pc := ShowingFirst, rendererLock := Source);
    assert LockRendererInside(s1, s2);
    ExtendRun(run + [s1], s2);
    var s3 := s2.(pc := Waiting, rendererLock := Free, interfaceLock := Free);
    assert ShowFirst(s2, s3);
    more := run + [s1] + [s2] + [s3];
    ExtendRun(run + [s1] + [s2], s3);
  }

  /** Pause; a sample arrives; a flush drops it while the source thread is between the two halves of the
      paused branch; the flush ends; the thread goes on to its wait; Run.  It now waits with nothing
      pending, nothing scheduled and no call on, while the renderer is running. */
  lemma WaitsForNothing() returns (run: seq<Sys>)
    ensures IsRun(run)
    ensures var s := Last(run);
            && s.pc.Waiting? && s.f.pending.None? && s.f.state.Running? && s.f.streaming && s.call.None?
            && !s.f.threadSignal && !s.f.renderEvent && !s.f.advise && s.stale && !s.aborted
            && forall t :: !SourceNext(s, t)
  {
    var s0 := Sys(Fields(Stopped, None, false, false, false, false, false, false, [], {}), Outside, 0, None, 0, Free, Free, false, false);
    assert IsRun([s0]);
    run := CallRuns([s0], Pause(Stopped));
    PauseFromStopped(s0.f);
    run := DeliverPaused(run);
    run := FlushAndWait(run);
    RunFromPaused(Last(run).f);
    run := CallRuns(run, Run(Paused, Later));
  }

  lemma FlushWhole(run: seq<Sys>) returns (more: seq<Sys>)
    requires IsRun(run)
    requires var s := Last(run);
             && s.interfaceLock.Free? && s.rendererLock.Free? && s.call.None?
             && s.f == Fields(Paused, Some(0), false, false, false, false, false, false, [], {})
    ensures IsRun(more)
    ensures Last(more) == Last(run).(step := 4, f := Fields(Paused, None, false, false, false, false, false, false, [], {0}))
  {
    var s := Last(run);
    FlushActions();
    FlushBegins(s.f, Actions(BeginFlush));
    more := CallRuns(run, BeginFlush);
    FlushEnds(Last(more).f);
    more := CallRuns(more, EndFlush);
  }

  lemma FlushAndWait(run: seq<Sys>) returns (more: seq<Sys>)
    requires IsRun(run)
    requires var s := Last(run);
             && s.pc.WantFirst? && s.interfaceLock.Free? && s.rendererLock.Free? && s.call.None? && !s.aborted
             && s.f == Fields(Paused, Some(0), false, false, false, false, false, false, [], {})
    ensures IsRun(more)
    ensures var s := Last(more);
            && s.pc.Waiting? && s.interfaceLock.Free? && s.rendererLock.Free? && s.call.None? && s.stale && !s.aborted
            && s.f == Fields(Paused, None, false, false, true, false, false, false, [], {0})
  {
    more := FlushWhole(run);
    more := EnterWait(more);
  }
}
