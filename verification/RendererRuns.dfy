/**
The source thread in Receive against the threads that stop, pause, run and flush the renderer.
The locks are m_InterfaceLock and m_RendererLock; a step is one action under or outside them.
 */
module RendererRuns {
  import opened Options
  import opened Filters
  import opened RendererSpec

  /** Where the source thread is.  `n` is the sample of its current call. */
  datatype Pc =
    | Outside
    | WantPrepare        // at m_InterfaceLock in PrepareReceive
    | Checking           // inside it
    | WantSample         // at m_RendererLock, m_InterfaceLock held
    | Storing            // both held
    | Prepared           // PrepareReceive succeeded, locks given up
    | PausedPrepare      // in the paused branch
    | WantFirst          // at m_InterfaceLock, m_bInReceive cleared
    | FirstSample        // at m_RendererLock, m_InterfaceLock held
    | ShowingFirst       // both held
    | Waiting            // in WaitForRenderTime
    | Leaving            // woken by a state change
    | Due                // woken by the clock
    | WantRender         // at m_InterfaceLock, m_bInReceive cleared
    | Rendering          // at m_RendererLock, m_InterfaceLock held
    | Drawing            // both held

  /** Other: a thread that takes m_RendererLock alone, as the timer callback and a display change do. */
  datatype Owner = Free | Source | Control | Other

  datatype Sys = Sys(
    f: Fields,
    pc: Pc,
    delivered: nat,          // Receive calls so far; the current sample is delivered - 1
    call: Option<Call>,      // the call of the controlling thread that has m_InterfaceLock
    step: nat,               // and how many of its actions are done
    interfaceLock: Owner,
    rendererLock: Owner,
    stale: bool,             // the paused branch went on although nothing was pending any more
    aborted: bool)           // a display change has dropped the sample of the current call

  ghost predicate Init(s: Sys) {
    s == Sys(Fields(Stopped, None, false, false, false, false, false, false, [], {}), Outside, 0, None, 0, Free, Free, false, false)
  }

  // ---------------------------------------------------------------------------------
  // The controlling threads, one at a time under m_InterfaceLock
  // ---------------------------------------------------------------------------------

  /** Calls that would change nothing return at once. */
  predicate Starts(f: Fields, call: Call) {
    match call
    case Stop => !f.state.Stopped?
    case Pause(from) => from == f.state && !from.Paused?
    case Run(from, _) => from == f.state && !from.Running?
    case _ => true
  }

  ghost predicate Begin(s: Sys, t: Sys, call: Call) {
    && s.interfaceLock.Free? && Starts(s.f, call)
    && t == s.(interfaceLock := Control, call := Some(call), step := 0)
  }

  /** Actions that take m_RendererLock for themselves. */
  predicate TakesRendererLock(a: Action) {
    a.Drop? || a.StopStreaming? || a.StartStreaming? || a.LockRenderer?
  }

  predicate Enabled(s: Sys, a: Action) {
    && (TakesRendererLock(a) ==> s.rendererLock.Free? || s.rendererLock.Control?)
    && (a.Spin? ==> !s.f.inReceive)
  }

  ghost predicate Act(s: Sys, t: Sys) {
    && s.call.Some? && s.step < |Actions(s.call.value)|
    && var a := Actions(s.call.value)[s.step];
    && Enabled(s, a)
    && t == s.(f := Perform(s.f, a), step := s.step + 1,
               rendererLock := if a.LockRenderer? then Control else if a.UnlockRenderer? then Free else s.rendererLock)
  }

  ghost predicate Finish(s: Sys, t: Sys) {
    s.call.Some? && s.step == |Actions(s.call.value)| && t == s.(interfaceLock := Free, call := None)
  }

  // ---------------------------------------------------------------------------------
  // The source thread
  // ---------------------------------------------------------------------------------

  ghost predicate Arrive(s: Sys, t: Sys) {
    s.pc.Outside? && t == s.(pc := WantPrepare, delivered := s.delivered + 1, stale := false, aborted := false)
  }

  ghost predicate Enter(s: Sys, t: Sys) {
    && s.pc.WantPrepare? && s.interfaceLock.Free?
    && t == s.(pc := Checking, interfaceLock := Source, f := s.f.(inReceive := true))
  }

  ghost predicate Check(s: Sys, t: Sys, c: Circumstances) {
    && s.pc.Checking?
    && t == if RefusedByPin(s.f, c) then s.(pc := Outside, interfaceLock := Free, f := s.f.(inReceive := false))
            else s.(pc := WantSample)
  }

  /** m_RendererLock is taken inside m_InterfaceLock, in three places. */
  ghost predicate LockRendererInside(s: Sys, t: Sys) {
    && s.rendererLock.Free?
    && (s.pc.WantSample? || s.pc.FirstSample? || s.pc.Rendering?)
    && t == s.(pc := if s.pc.WantSample? then Storing else if s.pc.FirstSample? then ShowingFirst else Drawing,
               rendererLock := Source)
  }

  ghost predicate Store(s: Sys, t: Sys, c: Circumstances) {
    && s.pc.Storing? && s.delivered > 0
    && var f := Prepare(s.f, s.delivered - 1, c);
       t == s.(f := f, interfaceLock := Free, rendererLock := Free, pc := if f.inReceive then Prepared else Outside)
  }

  /** m_State is read without a lock. */
  ghost predicate LookAtState(s: Sys, t: Sys) {
    s.pc.Prepared? && t == s.(pc := if s.f.state.Paused? then PausedPrepare else Waiting)
  }

  ghost predicate LeavePaused(s: Sys, t: Sys) {
    s.pc.PausedPrepare? && t == s.(pc := WantFirst, f := s.f.(inReceive := false))
  }

  ghost predicate EnterFirst(s: Sys, t: Sys) {
    && s.pc.WantFirst? && s.interfaceLock.Free?
    && t == if s.f.state.Stopped? then s.(pc := Outside)
            else s.(pc := FirstSample, interfaceLock := Source, f := s.f.(inReceive := true), stale := s.f.pending.None?)
  }

  ghost predicate ShowFirst(s: Sys, t: Sys) {
    s.pc.ShowingFirst? && t == s.(pc := Waiting, interfaceLock := Free, rendererLock := Free)
  }

  /** The thread signal comes first in the wait. */
  ghost predicate EndWait(s: Sys, t: Sys) {
    && s.pc.Waiting? && (s.f.threadSignal || s.f.renderEvent)
    && t == if s.f.threadSignal then s.(pc := Leaving) else s.(pc := Due, f := s.f.(renderEvent := false, advise := false))
  }

  ghost predicate Leave(s: Sys, t: Sys) {
    || (s.pc.Leaving? && t == s.(pc := Outside, f := s.f.(inReceive := false)))
    || (s.pc.Due? && t == s.(pc := WantRender, f := s.f.(inReceive := false)))
  }

  ghost predicate EnterRender(s: Sys, t: Sys) {
    && s.pc.WantRender? && s.interfaceLock.Free?
    && t == if s.f.state.Stopped? then s.(pc := Outside) else s.(pc := Rendering, interfaceLock := Source)
  }

  ghost predicate Render(s: Sys, t: Sys) {
    s.pc.Drawing? && t == s.(f := RenderDue(s.f), pc := Outside, interfaceLock := Free, rendererLock := Free)
  }

  /** Up to the wait, but for the paused branch; and everything after. */
  ghost predicate SourceBefore(s: Sys, t: Sys) {
    || Arrive(s, t) || Enter(s, t) || (exists c :: Check(s, t, c)) || (exists c :: Store(s, t, c))
    || LookAtState(s, t) || LeavePaused(s, t)
  }

  ghost predicate SourceAfter(s: Sys, t: Sys) {
    || LockRendererInside(s, t) || EnterFirst(s, t) || ShowFirst(s, t)
    || EndWait(s, t) || Leave(s, t) || EnterRender(s, t) || Render(s, t)
  }

  ghost predicate SourceNext(s: Sys, t: Sys) {
    SourceBefore(s, t) || SourceAfter(s, t)
  }

  /** The clock sets the event as advised; quality management may set it at any time. */
  ghost predicate ClockNext(s: Sys, t: Sys) {
    || (s.f.advise && t == s.(f := s.f.(renderEvent := true, advise := false)))
    || t == s.(f := s.f.(renderEvent := true))
  }

  /** A display change drops the pending sample; other threads only look. */
  ghost predicate OtherNext(s: Sys, t: Sys) {
    || (s.rendererLock.Free? && t == s.(rendererLock := Other))
    || (s.rendererLock.Other? && (t == s.(rendererLock := Free) || t == s.(rendererLock := Free, f := ClearPending(s.f), aborted := true)))
  }

  ghost predicate ControlNext(s: Sys, t: Sys) {
    (exists call :: Begin(s, t, call)) || Act(s, t) || Finish(s, t)
  }

  ghost predicate Next(s: Sys, t: Sys) {
    SourceNext(s, t) || ControlNext(s, t) || OtherNext(s, t) || ClockNext(s, t)
  }

  // ---------------------------------------------------------------------------------
  // The invariant
  // ---------------------------------------------------------------------------------

  predicate HoldsInterface(pc: Pc) {
    || pc.Checking? || pc.WantSample? || pc.FirstSample? || pc.Rendering?
    || HoldsBoth(pc)
  }

  predicate HoldsBoth(pc: Pc) {
    pc.Storing? || pc.ShowingFirst? || pc.Drawing?
  }

  predicate Receiving(pc: Pc) {
    || pc.Checking? || pc.WantSample? || pc.Storing? || pc.Prepared? || pc.PausedPrepare?
    || pc.FirstSample? || pc.ShowingFirst? || pc.Waiting? || pc.Leaving? || pc.Due?
  }

  /** The calls that flush keep m_RendererLock over several actions. */
  predicate HoldsRenderer(call: Option<Call>, step: nat) {
    call.Some? && 1 <= step && ((call.value.BeginFlush? && step <= 6) || (call.value.EndFlush? && step <= 3))
  }

  predicate AtSpin(s: Sys) {
    && s.call.Some? && s.step < |Actions(s.call.value)|
    && Actions(s.call.value)[s.step].Spin?
  }

  /** Who has which lock, and what m_bInReceive says. */
  ghost predicate Locks(s: Sys) {
    && (s.interfaceLock.Source? <==> HoldsInterface(s.pc))
    && (s.interfaceLock.Control? <==> s.call.Some?) && !s.interfaceLock.Other?
    && (s.call.Some? ==> s.step <= |Actions(s.call.value)|)
    && (s.rendererLock.Control? <==> HoldsRenderer(s.call, s.step))
    && (s.rendererLock.Source? <==> HoldsBoth(s.pc))
    && (s.f.inReceive <==> Receiving(s.pc))
    && (s.pc.Rendering? || s.pc.Drawing? ==> !s.f.state.Stopped?)
  }

  /** Stop and BeginFlush set the thread signal before they spin. */
  ghost predicate Signalled(s: Sys) {
    && (s.call == Some(Stop) && s.step > 3 ==> s.f.threadSignal)
    && (s.call == Some(BeginFlush) && s.step > 2 ==> s.f.threadSignal)
  }

  predicate BeforeStore(pc: Pc) {
    pc.WantPrepare? || pc.Checking? || pc.WantSample? || pc.Storing?
  }

  /** The pending sample is that of the current call, once PrepareReceive has accepted it. */
  ghost predicate Samples(s: Sys) {
    && Orderly(s.f) && Unused(s.f, s.delivered)
    && (BeforeStore(s.pc) ==> s.delivered > 0 && Unused(s.f, s.delivered - 1))
    && (!BeforeStore(s.pc) && !s.pc.Outside? && s.f.pending.Some? ==> s.f.pending.value == s.delivered - 1)
  }

  ghost predicate Inv(s: Sys) {
    Locks(s) && Signalled(s) && Samples(s)
  }

  // ---------------------------------------------------------------------------------
  // It is kept
  // ---------------------------------------------------------------------------------

  /** Where the calls lock, unlock and signal. */
  lemma ActionFacts(call: Call, step: nat)
    requires step < |Actions(call)|
    ensures var a := Actions(call)[step];
            && (a.LockRenderer? <==> (call.BeginFlush? || call.EndFlush?) && step == 0)
            && (a.UnlockRenderer? <==> (call.BeginFlush? && step == 6) || (call.EndFlush? && step == 3))
            && (call.Stop? || call.BeginFlush? ==> a != SetSignal(false))
            && ((call.Stop? && step == 3) || (call.BeginFlush? && step == 2) ==> a == SetSignal(true))
  {
    match call
    case Pause(from) =>
      PlainActions([SetState(Paused), StopStreaming, SetSignal(false), CancelNotification], if from.Stopped? then [Drop] else [], step);
    case Run(from, schedule) =>
      var first := if from.Stopped? then [SetState(Paused), StopStreaming, SetSignal(false), CancelNotification, Drop] else [];
      var last := if from.Stopped? then [SetState(Running), SetSignal(false), Drop, StartStreaming(schedule)]
                  else [SetState(Running), SetSignal(false), StartStreaming(schedule)];
      assert Actions(call) == first + last;
      PlainActions(first, last, step);
    case _ =>
  }

  ghost predicate Plain(a: Action) {
    !a.LockRenderer? && !a.UnlockRenderer?
  }

  lemma PlainActions(first: seq<Action>, last: seq<Action>, step: nat)
    requires step < |first + last|
    requires (forall i :: 0 <= i < |first| ==> Plain(first[i])) && (forall i :: 0 <= i < |last| ==> Plain(last[i]))
    ensures Plain((first + last)[step])
  {
  }

  lemma ControlKeepsLocks(s: Sys, t: Sys)
    requires Locks(s) && Signalled(s) && ControlNext(s, t)
    ensures Locks(t) && Signalled(t)
  {
    if call :| Begin(s, t, call) {
    } else if Act(s, t) {
      ActionFacts(s.call.value, s.step);
      PerformSignals(s.f, Actions(s.call.value)[s.step]);
    }
  }

  lemma PerformSignals(f: Fields, a: Action)
    ensures Perform(f, a).inReceive == f.inReceive
    ensures Perform(f, a).threadSignal == if a.SetSignal? then a.stopWaiting else f.threadSignal
  {
    PerformReceives(f, a);
  }

  lemma PerformReceives(f: Fields, a: Action)
    ensures Perform(f, a).inReceive == f.inReceive
  {
  }

  lemma SourceBeforeKeepsLocks(s: Sys, t: Sys)
    requires Locks(s) && Signalled(s) && SourceBefore(s, t)
    ensures Locks(t) && Signalled(t)
  {
    if c :| Store(s, t, c) {
    } else if c :| Check(s, t, c) {
    } else if Arrive(s, t) || Enter(s, t) {
    }
  }

  lemma SourceAfterKeepsLocks(s: Sys, t: Sys)
    requires Locks(s) && Signalled(s) && SourceAfter(s, t)
    ensures Locks(t) && Signalled(t)
  {
    if LockRendererInside(s, t) {
    } else if Render(s, t) || ShowFirst(s, t) {
    } else if EnterFirst(s, t) || EnterRender(s, t) {
    }
  }

  lemma NextKeepsLocks(s: Sys, t: Sys)
    requires Locks(s) && Signalled(s) && Next(s, t)
    ensures Locks(t) && Signalled(t)
  {
    if SourceBefore(s, t) {
      SourceBeforeKeepsLocks(s, t);
    } else if SourceAfter(s, t) {
      SourceAfterKeepsLocks(s, t);
    } else if ControlNext(s, t) {
      ControlKeepsLocks(s, t);
    }
  }

  lemma ClearKeepsSamples(s: Sys, t: Sys)
    requires Samples(s) && t.f == ClearPending(s.f) && t.pc == s.pc && t.delivered == s.delivered
    ensures Samples(t)
  {
    ClearKeepsOrder(s.f, s.delivered);
    if BeforeStore(s.pc) {
      ClearKeepsOrder(s.f, s.delivered - 1);
    }
  }

  lemma PerformKeeps(f: Fields, a: Action)
    requires !a.Drop?
    ensures SameSamples(f, Perform(f, a))
  {
  }

  lemma ControlKeepsSamples(s: Sys, t: Sys)
    requires Samples(s) && ControlNext(s, t)
    ensures Samples(t)
  {
    if Act(s, t) {
      var a := Actions(s.call.value)[s.step];
      if a.Drop? {
        ClearKeepsSamples(s, t);
      } else {
        PerformKeeps(s.f, a);
        IdleKeepsSamples(s, t);
      }
    }
  }

  lemma RenderKeepsSamples(s: Sys, t: Sys)
    requires Locks(s) && Samples(s) && Render(s, t)
    ensures Samples(t)
  {
    RenderKeepsOrder(s.f, s.delivered);
  }

  lemma StoreKeepsSamples(s: Sys, t: Sys, c: Circumstances)
    requires Samples(s) && Store(s, t, c)
    ensures Samples(t)
  {
    PrepareKeepsOrder(s.f, s.delivered - 1, c);
    PrepareUses(s.f, s.delivered - 1, c);
  }

  /** The other steps of the source thread touch no sample. */
  lemma SourceFrame(s: Sys, t: Sys)
    requires SourceNext(s, t) && !s.pc.Drawing? && !s.pc.Storing?
    ensures SameSamples(s.f, t.f)
    ensures t.delivered == s.delivered + (if s.pc.Outside? then 1 else 0)
    ensures s.pc.Outside? ==> t.pc.WantPrepare?
    ensures !s.pc.Outside? ==> t.pc.Outside? || (BeforeStore(t.pc) <==> BeforeStore(s.pc))
  {
    if Arrive(s, t) || Enter(s, t) {
    } else if c :| Check(s, t, c) {
    } else if LockRendererInside(s, t) {
    } else if LookAtState(s, t) || LeavePaused(s, t) {
    } else if EnterFirst(s, t) || ShowFirst(s, t) {
    }
  }

  lemma UnusedMore(f: Fields, n: nat)
    requires Unused(f, n)
    ensures Unused(f, n + 1)
  {
  }

  lemma SourceKeepsSamples(s: Sys, t: Sys)
    requires Samples(s) && Locks(s) && SourceNext(s, t)
    ensures Samples(t)
  {
    if s.pc.Drawing? {
      RenderKeepsSamples(s, t);
    } else if s.pc.Storing? {
      var c :| Store(s, t, c);
      StoreKeepsSamples(s, t, c);
    } else {
      SourceFrame(s, t);
      SameSamplesKeep(s.f, t.f, s.delivered);
      if s.pc.Outside? {
        UnusedMore(t.f, s.delivered);
      } else if BeforeStore(s.pc) {
        SameSamplesKeep(s.f, t.f, s.delivered - 1);
      }
    }
  }

  lemma NextKeepsInv(s: Sys, t: Sys)
    requires Inv(s) && Next(s, t)
    ensures Inv(t)
  {
    NextKeepsLocks(s, t);
    if SourceNext(s, t) {
      SourceKeepsSamples(s, t);
    } else if ControlNext(s, t) {
      ControlKeepsSamples(s, t);
    } else if OtherNext(s, t) && t.f == ClearPending(s.f) {
      ClearKeepsSamples(s, t);
    } else {
      IdleKeepsSamples(s, t);
    }
  }

  lemma IdleKeepsSamples(s: Sys, t: Sys)
    requires Samples(s) && SameSamples(s.f, t.f) && t.pc == s.pc && t.delivered == s.delivered
    ensures Samples(t)
  {
    SameSamplesKeep(s.f, t.f, s.delivered);
    if BeforeStore(s.pc) {
      SameSamplesKeep(s.f, t.f, s.delivered - 1);
    }
  }

  ghost predicate StepAt(run: seq<Sys>, i: nat)
    requires i + 1 < |run|
  {
    Next(run[i], run[i + 1])
  }

  ghost predicate IsRun(run: seq<Sys>) {
    run != [] && Init(run[0]) && forall i :: 0 <= i < |run| - 1 ==> StepAt(run, i)
  }

  lemma {:induction false} RunsKeepInv(run: seq<Sys>, i: nat)
    requires IsRun(run) && i < |run|
    ensures Inv(run[i])
  {
    if i > 0 {
      RunsKeepInv(run, i - 1);
      assert StepAt(run, i - 1);
      NextKeepsInv(run[i - 1], run[i]);
    }
  }

  // ---------------------------------------------------------------------------------
  // What follows
  // ---------------------------------------------------------------------------------

  /** Steps the source thread needs at most until it clears m_bInReceive, once it may not wait. */
  function ToGo(pc: Pc): nat {
    match pc
    case Prepared => 3
    case Waiting => 2
    case PausedPrepare => 1
    case Leaving => 1
    case Due => 1
    case _ => 0
  }

  /** While Stop or BeginFlush spins and m_bInReceive is set, the thread signal is set and the
      source thread has no lock to wait for: it can move, and whatever it does takes it closer
      to clearing the flag. */
  lemma SpinEnds(run: seq<Sys>, i: nat)
    requires IsRun(run) && i < |run| && AtSpin(run[i]) && run[i].f.inReceive
    ensures run[i].f.threadSignal && run[i].interfaceLock.Control? && 1 <= ToGo(run[i].pc) <= 3
    ensures exists t :: SourceNext(run[i], t)
    ensures forall t :: SourceNext(run[i], t) ==> AtSpin(t) && (!t.f.inReceive || ToGo(t.pc) < ToGo(run[i].pc))
    ensures forall t :: OtherNext(run[i], t) || ClockNext(run[i], t) ==> AtSpin(t) && t.pc == run[i].pc
    ensures forall t :: !ControlNext(run[i], t)
  {
    RunsKeepInv(run, i);
    var s := run[i];
    SpinnerSignals(s);
    SourceCanMove(s);
    forall t | SourceNext(s, t)
      ensures AtSpin(t) && (!t.f.inReceive || ToGo(t.pc) < ToGo(s.pc))
    {
      SourceMovesOn(s, t);
    }
  }

  lemma SpinnerSignals(s: Sys)
    requires Inv(s) && AtSpin(s)
    ensures s.f.threadSignal && s.interfaceLock.Control?
    ensures s.f.inReceive ==> 1 <= ToGo(s.pc) <= 3
  {
    assert s.call.value.Stop? || s.call.value.BeginFlush?;
  }

  lemma SourceMovesOn(s: Sys, t: Sys)
    requires Inv(s) && AtSpin(s) && s.f.inReceive && SourceNext(s, t)
    ensures AtSpin(t) && (!t.f.inReceive || ToGo(t.pc) < ToGo(s.pc))
  {
    SpinnerSignals(s);
  }

  lemma SourceCanMove(s: Sys)
    requires Inv(s) && AtSpin(s) && s.f.inReceive
    ensures exists t :: SourceNext(s, t)
  {
    SpinnerSignals(s);
    var t := match s.pc
      case Prepared => s.(pc := if s.f.state.Paused? then PausedPrepare else Waiting)
      case PausedPrepare => s.(pc := WantFirst, f := s.f.(inReceive := false))
      case Waiting => s.(pc := Leaving)
      case Due => s.(pc := WantRender, f := s.f.(inReceive := false))
      case _ => s.(pc := Outside, f := s.f.(inReceive := false));
    assert SourceNext(s, t);
  }

  // Waiting for a lock

  predicate WantsInterface(pc: Pc) {
    pc.WantPrepare? || pc.WantFirst? || pc.WantRender?
  }

  predicate WantsRenderer(pc: Pc) {
    pc.WantSample? || pc.FirstSample? || pc.Rendering?
  }

  ghost predicate OtherCanMove(s: Sys) {
    exists t :: OtherNext(s, t) && t.rendererLock.Free?
  }

  ghost predicate ControlCanMove(s: Sys) {
    exists t :: ControlNext(s, t)
  }

  lemma OtherReleases(s: Sys)
    requires s.rendererLock.Other?
    ensures OtherCanMove(s)
  {
    assert OtherNext(s, s.(rendererLock := Free));
  }

  /** The controlling thread moves, or spins, or waits for a thread that holds m_RendererLock alone;
      never for the source thread, whose m_RendererLock lies inside m_InterfaceLock. */
  lemma ControlMovesOrWaits(s: Sys)
    requires Inv(s) && s.call.Some? && !(AtSpin(s) && s.f.inReceive)
    ensures ControlCanMove(s) || s.rendererLock.Other?
  {
    var actions := Actions(s.call.value);
    if s.step == |actions| {
      assert ControlNext(s, s.(interfaceLock := Free, call := None));
    } else if !s.rendererLock.Other? {
      var a := actions[s.step];
      assert !HoldsBoth(s.pc);
      var t := s.(f := Perform(s.f, a), step := s.step + 1,
                  rendererLock := if a.LockRenderer? then Control else if a.UnlockRenderer? then Free else s.rendererLock);
      assert Act(s, t);
      assert ControlNext(s, t);
    }
  }

  lemma SourceInsideMoves(s: Sys)
    requires Inv(s) && HoldsBoth(s.pc)
    ensures exists t :: SourceNext(s, t)
  {
    var c := Circumstances(false, false, Now);
    var f := Prepare(s.f, if s.delivered > 0 then s.delivered - 1 else 0, c);
    var t := match s.pc
      case Storing => s.(f := f, interfaceLock := Free, rendererLock := Free, pc := if f.inReceive then Prepared else Outside)
      case ShowingFirst => s.(pc := Waiting, interfaceLock := Free, rendererLock := Free)
      case _ => s.(f := RenderDue(s.f), pc := Outside, interfaceLock := Free, rendererLock := Free);
    if s.pc.Storing? {
      assert Store(s, t, c);
    }
    assert SourceNext(s, t);
  }

  /** No deadlock: every wait for a lock is for an owner that can move.  A source thread that wants
      m_InterfaceLock finds it free or with a controlling thread that does not spin on it; one that
      wants m_RendererLock, and a controlling thread that wants it, find it free or with a thread that
      holds nothing else; and whoever holds both can go on. */
  lemma NoDeadlock(run: seq<Sys>, i: nat)
    requires IsRun(run) && i < |run|
    ensures var s := run[i];
            && (WantsInterface(s.pc) && !s.interfaceLock.Free? ==>
                  s.interfaceLock.Control? && (ControlCanMove(s) || OtherCanMove(s)))
            && (WantsRenderer(s.pc) && !s.rendererLock.Free? ==> OtherCanMove(s))
            && (s.call.Some? && !(AtSpin(s) && s.f.inReceive) ==> ControlCanMove(s) || OtherCanMove(s))
            && (HoldsBoth(s.pc) ==> exists t :: SourceNext(s, t))
  {
    RunsKeepInv(run, i);
    var s := run[i];
    if s.rendererLock.Other? {
      OtherReleases(s);
    }
    if s.call.Some? && !(AtSpin(s) && s.f.inReceive) {
      ControlMovesOrWaits(s);
    }
    if HoldsBoth(s.pc) {
      SourceInsideMoves(s);
    }
  }

  /** DoRenderSample only ever got a pending sample, while streaming and not stopped; no sample
      twice, none that a stop or a flush had dropped, and in the order of delivery. */
  lemma ShownProperly(run: seq<Sys>, i: nat)
    requires IsRun(run) && i < |run|
    ensures var f := run[i].f;
            && (forall k :: 0 <= k < |f.shown| ==>
                  f.shown[k].streaming && !f.shown[k].state.Stopped? && f.shown[k].sample !in f.cleared)
            && (forall j, k :: 0 <= j < k < |f.shown| ==> f.shown[j].sample < f.shown[k].sample)
  {
    RunsKeepInv(run, i);
  }

  /** And a sample, once dropped or shown, is never shown again: what Render shows is the sample of
      the call it is in, pending at that moment. */
  lemma ShowsOwnSample(run: seq<Sys>, i: nat)
    requires IsRun(run) && i < |run| - 1 && run[i + 1].f.shown != run[i].f.shown
    ensures var s, t := run[i], run[i + 1];
            && s.delivered > 0 && s.f.pending == Some(s.delivered - 1) && s.f.streaming
            && t.f.shown == s.f.shown + [Shown(s.delivered - 1, s.f.state, true)] && t.f.pending == None
  {
    RunsKeepInv(run, i);
    assert StepAt(run, i);
    OnlyRenderShows(run[i], run[i + 1]);
  }

  lemma ControlShowsNothing(s: Sys, t: Sys)
    requires ControlNext(s, t)
    ensures t.f.shown == s.f.shown
  {
    if Act(s, t) {
      var a := Actions(s.call.value)[s.step];
      assert Perform(s.f, a).shown == s.f.shown;
    }
  }

  lemma StoreShowsNothing(s: Sys, t: Sys, c: Circumstances)
    requires Store(s, t, c)
    ensures t.f.shown == s.f.shown
  {
  }

  lemma OthersShowNothing(s: Sys, t: Sys)
    requires OtherNext(s, t) || ClockNext(s, t)
    ensures t.f.shown == s.f.shown
  {
  }

  lemma OnlyRenderShows(s: Sys, t: Sys)
    requires Next(s, t) && t.f.shown != s.f.shown
    ensures Render(s, t)
  {
    if ControlNext(s, t) {
      ControlShowsNothing(s, t);
    }
    if OtherNext(s, t) || ClockNext(s, t) {
      OthersShowNothing(s, t);
    }
    if s.pc.Storing? {
      var c :| Store(s, t, c);
      StoreShowsNothing(s, t, c);
    }
    if !s.pc.Drawing? && !s.pc.Storing? {
      SourceFrame(s, t);
    }
  }

  // ---------------------------------------------------------------------------------
  // Does a waiting source thread have its sample?
  // ---------------------------------------------------------------------------------

  /** In Receive, past the first check: m_bInReceive set, the interface lock not just taken. */
  predicate Engaged(pc: Pc) {
    Receiving(pc) && !pc.Checking?
  }

  /** Its sample was stored, and it waits for it or is about to. */
  predicate Expecting(pc: Pc) {
    pc.Prepared? || pc.FirstSample? || pc.ShowingFirst? || pc.Waiting?
  }

  predicate FromStopped(call: Call) {
    (call.Pause? || call.Run?) && call.from.Stopped?
  }

  /** A stopped renderer has nobody engaged, since Stop waits for them; nor has a flush that is past its
      spin. */
  ghost predicate Emptied(s: Sys) {
    && (s.f.state.Stopped? && s.call != Some(Stop) ==> !Engaged(s.pc))
    && (s.call == Some(Stop) && s.step > 5 ==> !Receiving(s.pc))
    && (s.call == Some(BeginFlush) && s.step > 5 ==> !Receiving(s.pc))
    && (s.call.Some? && FromStopped(s.call.value) ==> !Receiving(s.pc))
  }

  /** A sample that is gone was dropped by a call that is still on, by a display change, or before the
      paused branch went on. */
  ghost predicate Explained(s: Sys) {
    Expecting(s.pc) && s.f.pending.None? ==> s.stale || s.aborted || s.call == Some(Stop) || s.call == Some(BeginFlush)
  }

  /** Which actions drop, stop and spin. */
  lemma MoreActionFacts(call: Call, step: nat)
    requires step < |Actions(call)|
    ensures var a := Actions(call)[step];
            && (a.Drop? ==> call.Stop? || call.BeginFlush? || FromStopped(call))
            && (a == SetState(Stopped) ==> call.Stop?)
            && (a.Spin? ==> call.Stop? || call.BeginFlush?)
            && (call.Stop? ==> |Actions(call)| == 6 && (step == 5 ==> a.Spin?))
            && (call.BeginFlush? ==> |Actions(call)| == 7 && (step == 5 ==> a.Spin?))
  {
    match call
    case Pause(from) =>
      QuietActions([SetState(Paused), StopStreaming, SetSignal(false), CancelNotification], if from.Stopped? then [Drop] else [], step);
    case Run(from, schedule) =>
      var first := if from.Stopped? then [SetState(Paused), StopStreaming, SetSignal(false), CancelNotification, Drop] else [];
      var last := if from.Stopped? then [SetState(Running), SetSignal(false), Drop, StartStreaming(schedule)]
                  else [SetState(Running), SetSignal(false), StartStreaming(schedule)];
      assert Actions(call) == first + last;
      QuietActions(first, last, step);
    case _ =>
  }

  lemma QuietActions(first: seq<Action>, last: seq<Action>, step: nat)
    requires step < |first + last|
    requires forall i :: 0 <= i < |first| ==> first[i] != SetState(Stopped) && !first[i].Spin?
    requires forall i :: 0 <= i < |last| ==> last[i] != SetState(Stopped) && !last[i].Spin?
    ensures (first + last)[step] != SetState(Stopped) && !(first + last)[step].Spin?
    ensures (first + last)[step].Drop? ==> (exists i :: 0 <= i < |first| && first[i].Drop?) || (exists i :: 0 <= i < |last| && last[i].Drop?)
  {
    if step < |first| {
      assert (first + last)[step] == first[step];
    } else {
      assert (first + last)[step] == last[step - |first|];
    }
  }

  lemma PerformEffects(f: Fields, a: Action)
    ensures a != SetState(Stopped) && !f.state.Stopped? ==> !Perform(f, a).state.Stopped?
    ensures !a.SetState? ==> Perform(f, a).state == f.state
    ensures !a.Drop? ==> Perform(f, a).pending == f.pending
    ensures Perform(f, a).inReceive == f.inReceive
  {
  }

  lemma ControlKeepsEmptied(s: Sys, t: Sys)
    requires Locks(s) && Emptied(s) && Explained(s) && ControlNext(s, t)
    ensures Emptied(t) && Explained(t)
  {
    if call :| Begin(s, t, call) {
    } else if Act(s, t) {
      MoreActionFacts(s.call.value, s.step);
      PerformEffects(s.f, Actions(s.call.value)[s.step]);
    }
  }

  lemma SourceBeforeKeepsExplained(s: Sys, t: Sys)
    requires Locks(s) && Emptied(s) && Explained(s) && SourceBefore(s, t)
    ensures Emptied(t) && Explained(t)
  {
    if c :| Store(s, t, c) {
    } else if c :| Check(s, t, c) {
    } else if Arrive(s, t) || Enter(s, t) {
    }
  }

  lemma SourceAfterKeepsExplained(s: Sys, t: Sys)
    requires Locks(s) && Emptied(s) && Explained(s) && SourceAfter(s, t)
    ensures Emptied(t) && Explained(t)
  {
    if LockRendererInside(s, t) {
    } else if Render(s, t) || ShowFirst(s, t) {
    } else if EnterFirst(s, t) || EnterRender(s, t) {
    }
  }

  lemma NextKeepsExplained(s: Sys, t: Sys)
    requires Locks(s) && Emptied(s) && Explained(s) && Next(s, t)
    ensures Emptied(t) && Explained(t)
  {
    if SourceBefore(s, t) {
      SourceBeforeKeepsExplained(s, t);
    } else if SourceAfter(s, t) {
      SourceAfterKeepsExplained(s, t);
    } else if ControlNext(s, t) {
      ControlKeepsEmptied(s, t);
    }
  }

  lemma {:induction false} RunsKeepExplained(run: seq<Sys>, i: nat)
    requires IsRun(run) && i < |run|
    ensures Emptied(run[i]) && Explained(run[i])
  {
    if i > 0 {
      RunsKeepExplained(run, i - 1);
      RunsKeepInv(run, i - 1);
      assert StepAt(run, i - 1);
      NextKeepsExplained(run[i - 1], run[i]);
    }
  }

  /** A source thread that waits has its own sample pending, or is about to be sent away by a Stop or a
      flush that is still on, unless its sample was dropped before the paused branch of Receive went on,
      which does not look, or by a display change. */
  lemma WaiterHasSampleUnless(run: seq<Sys>, i: nat)
    requires IsRun(run) && i < |run| && run[i].pc.Waiting?
    ensures var s := run[i];
            || (s.delivered > 0 && s.f.pending == Some(s.delivered - 1))
            || s.call == Some(Stop) || s.call == Some(BeginFlush)
            || s.stale || s.aborted
  {
    RunsKeepInv(run, i);
    RunsKeepExplained(run, i);
  }
}
