/**
What the renderer's modes come to over whole runs: when it streams, when its source thread may wait,
when it holds a sample, and whether somebody will call a waiting thread.
 */
module RendererModes {
  import opened Options
  import opened Filters
  import opened RendererSpec
  import opened RendererRuns

  // ---------------------------------------------------------------------------------
  // The actions of the calls, one by one
  // ---------------------------------------------------------------------------------

  lemma PauseActions(from: FilterState)
    ensures Actions(Pause(from)) ==
      if from.Stopped? then [SetState(Paused), StopStreaming, SetSignal(false), CancelNotification, Drop]
      else [SetState(Paused), StopStreaming, SetSignal(false), CancelNotification]
  {
  }

  lemma RunActions(from: FilterState, schedule: Schedule)
    ensures Actions(Run(from, schedule)) ==
      if from.Stopped? then
        [SetState(Paused), StopStreaming, SetSignal(false), CancelNotification, Drop,
         SetState(Running), SetSignal(false), Drop, StartStreaming(schedule)]
      else
        [SetState(Running), SetSignal(false), StartStreaming(schedule)]
  {
  }

  function RunLength(from: FilterState): nat {
    if from.Stopped? then 9 else 3
  }

  // ---------------------------------------------------------------------------------
  // The invariants
  // ---------------------------------------------------------------------------------

  /** Outside the calls that change it the renderer streams exactly while it runs. */
  ghost predicate InStep(f: Fields, call: Option<Call>, step: nat) {
    match call
    case None => f.streaming <==> f.state.Running?
    case Some(Stop) =>
      if step <= 1 then f.streaming <==> f.state.Running? else f.state.Stopped? && (step >= 3 ==> !f.streaming)
    case Some(Pause(from)) =>
      if step == 0 then f.state == from && (f.streaming <==> f.state.Running?)
      else f.state.Paused? && (step >= 2 ==> !f.streaming)
    case Some(Run(from, _)) =>
      && !from.Running? && (step == 0 ==> f.state == from) && (f.streaming <==> step == RunLength(from))
      && (step > RunLength(from) - 4 && step > 0 ==> f.state.Running?)
      && (from.Stopped? && 1 <= step <= 5 ==> f.state.Paused?)
    case Some(_) => f.streaming <==> f.state.Running?
  }

  /** The source thread is kept from waiting only while the renderer is stopped or flushing. */
  ghost predicate MayWait(f: Fields, call: Option<Call>, step: nat) {
    && (f.threadSignal ==> f.state.Stopped? || f.flushing || (call.Some? && FromStopped(call.value) && 1 <= step <= 2))
    && (call == Some(BeginFlush) && step >= 2 ==> f.flushing)
    && (call == Some(EndFlush) && step >= 2 ==> !f.threadSignal)
  }

  /** A stopped renderer holds no sample, nor does one that is flushing. */
  ghost predicate Dropped(f: Fields, call: Option<Call>, step: nat) {
    && (f.state.Stopped? || (call == Some(Stop) && step >= 1) ==> f.pending.None?)
    && (f.flushing ==> f.pending.None? || (call == Some(BeginFlush) && step <= 4))
    && (call == Some(BeginFlush) && step >= 5 ==> f.pending.None?)
  }

  /** Past its checks PrepareReceive holds m_InterfaceLock. */
  ghost predicate Guarded(s: Sys) {
    s.pc.WantSample? || s.pc.Storing? ==> !s.f.state.Stopped? && !s.f.flushing
  }

  /** The current sample was stored, and nobody has called the thread for it yet. */
  predicate Stored(pc: Pc) {
    pc.Prepared? || pc.PausedPrepare? || pc.WantFirst? || pc.FirstSample? || pc.ShowingFirst? || pc.Waiting?
  }

  /** For a sample pending in a streaming renderer the event is set or the clock will set it, but for
      the moment between two actions of a flush that is about to drop it. */
  ghost predicate Called(s: Sys) {
    Stored(s.pc) && s.f.pending.Some? && s.f.streaming ==>
      s.f.renderEvent || s.f.advise || (s.call == Some(BeginFlush) && s.step == 4)
  }

  ghost predicate FieldsFit(f: Fields, call: Option<Call>, step: nat) {
    InStep(f, call, step) && MayWait(f, call, step) && Dropped(f, call, step)
  }

  ghost predicate Modes(s: Sys) {
    FieldsFit(s.f, s.call, s.step) && Guarded(s) && Called(s)
  }

  // ---------------------------------------------------------------------------------
  // They are kept
  // ---------------------------------------------------------------------------------

  lemma BeginKeepsModes(s: Sys, t: Sys, call: Call)
    requires Locks(s) && Modes(s) && Begin(s, t, call)
    ensures Modes(t)
  {
  }

  lemma FinishKeepsModes(s: Sys, t: Sys)
    requires Locks(s) && Modes(s) && Finish(s, t)
    ensures Modes(t)
  {
    match s.call.value
    case Pause(from) => PauseActions(from);
    case Run(from, schedule) => RunActions(from, schedule);
    case _ =>
  }

  /** What an action does to the fields the modes are about. */
  ghost predicate Effects(f: Fields, a: Action, g: Fields) {
    && g.state == (if a.SetState? then a.state else f.state)
    && g.streaming == (if a.StopStreaming? then false else a.StartStreaming? || f.streaming)
    && g.flushing == (if a.SetFlushing? then a.flushing else f.flushing)
    && g.threadSignal == (if a.SetSignal? then a.stopWaiting else f.threadSignal)
    && g.pending == (if a.Drop? then None else f.pending)
  }

  lemma HasEffects(f: Fields, a: Action)
    ensures Effects(f, a, Perform(f, a))
  {
  }

  lemma StopFits(f: Fields, g: Fields, step: nat)
    requires step < 6 && FieldsFit(f, Some(Stop), step) && Effects(f, Actions(Stop)[step], g)
    ensures FieldsFit(g, Some(Stop), step + 1)
  {
  }

  lemma PauseFits(f: Fields, g: Fields, from: FilterState, step: nat, a: Action)
    requires step < |Actions(Pause(from))| && a == Actions(Pause(from))[step]
    requires FieldsFit(f, Some(Pause(from)), step) && Effects(f, a, g)
    ensures FieldsFit(g, Some(Pause(from)), step + 1)
  {
    PauseActions(from);
  }

  lemma RunStoppedFits(f: Fields, g: Fields, schedule: Schedule, step: nat, a: Action)
    requires step < |Actions(Run(Stopped, schedule))| && a == Actions(Run(Stopped, schedule))[step]
    requires FieldsFit(f, Some(Run(Stopped, schedule)), step) && Effects(f, a, g)
    ensures FieldsFit(g, Some(Run(Stopped, schedule)), step + 1)
  {
    RunActions(Stopped, schedule);
  }

  lemma RunFits(f: Fields, g: Fields, from: FilterState, schedule: Schedule, step: nat, a: Action)
    requires step < |Actions(Run(from, schedule))| && a == Actions(Run(from, schedule))[step]
    requires FieldsFit(f, Some(Run(from, schedule)), step) && Effects(f, a, g)
    ensures FieldsFit(g, Some(Run(from, schedule)), step + 1)
  {
    if from.Stopped? {
      RunStoppedFits(f, g, schedule, step, a);
    } else {
      RunActions(from, schedule);
    }
  }

  lemma FlushFits(f: Fields, g: Fields, call: Call, step: nat, a: Action)
    requires (call.BeginFlush? || call.EndFlush?) && step < |Actions(call)| && a == Actions(call)[step]
    requires FieldsFit(f, Some(call), step) && Effects(f, a, g)
    ensures FieldsFit(g, Some(call), step + 1)
  {
  }

  lemma ActFits(f: Fields, g: Fields, call: Call, step: nat)
    requires step < |Actions(call)| && FieldsFit(f, Some(call), step) && Effects(f, Actions(call)[step], g)
    ensures FieldsFit(g, Some(call), step + 1)
  {
    var a := Actions(call)[step];
    match call
    case Stop => StopFits(f, g, step);
    case Pause(from) => PauseFits(f, g, from, step, a);
    case Run(from, schedule) => RunFits(f, g, from, schedule, step, a);
    case _ => FlushFits(f, g, call, step, a);
  }

  /** A notification is cancelled only when the renderer does not stream, or by a flush. */
  lemma CancelsWhen(f: Fields, call: Call, step: nat)
    requires step < |Actions(call)| && InStep(f, Some(call), step) && Actions(call)[step].CancelNotification?
    ensures !f.streaming || (call.BeginFlush? && step == 3)
  {
    match call
    case Pause(from) => PauseActions(from);
    case Run(from, schedule) => RunActions(from, schedule);
    case _ =>
  }

  lemma PerformCalls(f: Fields, a: Action)
    requires !a.CancelNotification? && (f.pending.Some? && f.streaming ==> f.renderEvent || f.advise)
    ensures var g := Perform(f, a); g.pending.Some? && g.streaming ==> g.renderEvent || g.advise
  {
  }

  lemma ActCalled(s: Sys, t: Sys)
    requires InStep(s.f, s.call, s.step) && Called(s) && Act(s, t)
    ensures Called(t)
  {
    var call := s.call.value;
    var a := Actions(call)[s.step];
    if a.CancelNotification? {
      CancelsWhen(s.f, call, s.step);
    } else if call.BeginFlush? && s.step == 4 {
      assert a.Drop?;
    } else if Stored(s.pc) {
      PerformCalls(s.f, a);
    }
  }

  lemma ControlKeepsModes(s: Sys, t: Sys)
    requires Locks(s) && Modes(s) && ControlNext(s, t)
    ensures Modes(t)
  {
    if call :| Begin(s, t, call) {
      BeginKeepsModes(s, t, call);
    } else if Act(s, t) {
      HasEffects(s.f, Actions(s.call.value)[s.step]);
      ActFits(s.f, t.f, s.call.value, s.step);
      ActCalled(s, t);
    } else {
      FinishKeepsModes(s, t);
    }
  }

  /** What the calls go by; only they change it. */
  ghost predicate SameMode(s: Sys, t: Sys) {
    && t.f.state == s.f.state && t.f.streaming == s.f.streaming && t.f.flushing == s.f.flushing
    && t.f.threadSignal == s.f.threadSignal && t.call == s.call && t.step == s.step
  }

  lemma SameModeKeeps(s: Sys, t: Sys)
    requires Modes(s) && SameMode(s, t) && (t.f.pending == s.f.pending || t.f.pending.None?)
    ensures FieldsFit(t.f, t.call, t.step)
  {
  }

  lemma StoreKeepsModes(s: Sys, t: Sys, c: Circumstances)
    requires Locks(s) && Modes(s) && Store(s, t, c)
    ensures Modes(t)
  {
    PrepareCalls(s.f, s.delivered - 1, c);
  }

  lemma PrepareCalls(f: Fields, sample: nat, c: Circumstances)
    requires f.inReceive
    ensures var g := Prepare(f, sample, c);
            && g.state == f.state && g.streaming == f.streaming && g.flushing == f.flushing && g.threadSignal == f.threadSignal
            && (g.inReceive && g.streaming ==> g.renderEvent || g.advise)
            && (!g.inReceive ==> g.pending == f.pending)
  {
  }

  lemma SourceBeforeMode(s: Sys, t: Sys)
    requires SourceBefore(s, t) && !s.pc.Storing?
    ensures SameMode(s, t) && t.f.pending == s.f.pending
    ensures t.f.renderEvent == s.f.renderEvent && t.f.advise == s.f.advise
    ensures Stored(t.pc) ==> Stored(s.pc)
    ensures (t.pc.WantSample? || t.pc.Storing?) && !s.pc.WantSample? ==> !s.f.state.Stopped? && !s.f.flushing
  {
    if Arrive(s, t) || Enter(s, t) {
    } else if c :| Check(s, t, c) {
    } else if LookAtState(s, t) || LeavePaused(s, t) {
    }
  }

  lemma SourceAfterMode(s: Sys, t: Sys)
    requires SourceAfter(s, t)
    ensures SameMode(s, t) && (t.f.pending == s.f.pending || t.f.pending.None?)
    ensures Stored(t.pc) ==> Stored(s.pc) && t.f.renderEvent == s.f.renderEvent && t.f.advise == s.f.advise
    ensures t.pc.Storing? ==> s.pc.WantSample?
    ensures !t.pc.WantSample?
  {
    if Render(s, t) {
      RenderMode(s.f);
    } else {
      AfterMode(s, t);
    }
  }

  lemma AfterMode(s: Sys, t: Sys)
    requires SourceAfter(s, t) && !Render(s, t)
    ensures SameMode(s, t) && t.f.pending == s.f.pending
    ensures Stored(t.pc) ==> Stored(s.pc) && t.f.renderEvent == s.f.renderEvent && t.f.advise == s.f.advise
    ensures t.pc.Storing? ==> s.pc.WantSample?
    ensures !t.pc.WantSample?
  {
    if LockRendererInside(s, t) || EnterFirst(s, t) || ShowFirst(s, t) {
      InsideMode(s, t);
    } else {
      WokenMode(s, t);
    }
  }

  lemma InsideMode(s: Sys, t: Sys)
    requires LockRendererInside(s, t) || EnterFirst(s, t) || ShowFirst(s, t)
    ensures SameMode(s, t) && t.f.pending == s.f.pending
    ensures Stored(t.pc) ==> Stored(s.pc) && t.f.renderEvent == s.f.renderEvent && t.f.advise == s.f.advise
    ensures t.pc.Storing? ==> s.pc.WantSample?
    ensures !t.pc.WantSample?
  {
  }

  lemma WokenMode(s: Sys, t: Sys)
    requires EndWait(s, t) || Leave(s, t) || EnterRender(s, t)
    ensures SameMode(s, t) && t.f.pending == s.f.pending && !Stored(t.pc) && !t.pc.Storing? && !t.pc.WantSample?
  {
  }

  lemma RenderMode(f: Fields)
    ensures var g := RenderDue(f);
            && g.state == f.state && g.streaming == f.streaming && g.flushing == f.flushing
            && g.threadSignal == f.threadSignal && g.pending.None?
  {
  }

  lemma SourceKeepsModes(s: Sys, t: Sys)
    requires Locks(s) && Modes(s) && SourceNext(s, t)
    ensures Modes(t)
  {
    if s.pc.Storing? {
      var c :| Store(s, t, c);
      StoreKeepsModes(s, t, c);
    } else {
      if SourceBefore(s, t) {
        SourceBeforeMode(s, t);
      } else {
        SourceAfterMode(s, t);
      }
      SameModeKeeps(s, t);
    }
  }

  lemma OthersKeepModes(s: Sys, t: Sys)
    requires Modes(s) && (OtherNext(s, t) || ClockNext(s, t))
    ensures Modes(t)
  {
    assert SameMode(s, t) && t.pc == s.pc;
    SameModeKeeps(s, t);
  }

  lemma {:induction false} RunsKeepModes(run: seq<Sys>, i: nat)
    requires IsRun(run) && i < |run|
    ensures Modes(run[i])
  {
    if i > 0 {
      RunsKeepModes(run, i - 1);
      RunsKeepInv(run, i - 1);
      assert StepAt(run, i - 1);
      var s, t := run[i - 1], run[i];
      if SourceNext(s, t) {
        SourceKeepsModes(s, t);
      } else if ControlNext(s, t) {
        ControlKeepsModes(s, t);
      } else {
        OthersKeepModes(s, t);
      }
    }
  }

  // ---------------------------------------------------------------------------------
  // What follows
  // ---------------------------------------------------------------------------------

  /** Between calls the renderer streams exactly while it is running, a stopped or a flushing one holds
      no sample, and the source thread may wait unless it is stopped or flushing. */
  lemma BetweenCalls(run: seq<Sys>, i: nat)
    requires IsRun(run) && i < |run| && run[i].call.None?
    ensures var f := run[i].f;
            && (f.streaming <==> f.state.Running?)
            && (f.state.Stopped? || f.flushing ==> f.pending.None?)
            && (f.threadSignal ==> f.state.Stopped? || f.flushing)
  {
    RunsKeepModes(run, i);
  }

  /** A source thread that waits with its sample pending in a streaming renderer is called: the event
      is set, or the clock has been advised to set it, or a flush has signalled the thread and is about
      to drop the sample. */
  lemma WaiterIsCalled(run: seq<Sys>, i: nat)
    requires IsRun(run) && i < |run| && run[i].pc.Waiting? && run[i].f.pending.Some? && run[i].f.streaming
    ensures run[i].f.renderEvent || run[i].f.advise || (run[i].f.threadSignal && run[i].call == Some(BeginFlush))
  {
    RunsKeepModes(run, i);
    RunsKeepInv(run, i);
  }

  /** So it can go on, as soon as the clock has done what it was advised to do. */
  lemma WaiterGoesOn(run: seq<Sys>, i: nat)
    requires IsRun(run) && i < |run| && run[i].pc.Waiting? && run[i].f.pending.Some? && run[i].f.streaming
    ensures var s := run[i];
            || (exists t :: SourceNext(s, t))
            || (exists t :: ClockNext(s, t) && t.f == s.f.(renderEvent := true, advise := false) && exists u :: SourceNext(t, u))
  {
    var s := run[i];
    WaiterIsCalled(run, i);
    if s.f.threadSignal || s.f.renderEvent {
      WakesUp(s);
    } else {
      var t := s.(f := s.f.(renderEvent := true, advise := false));
      assert ClockNext(s, t);
      WakesUp(t);
    }
  }

  /** A thread that is signalled while it waits leaves without drawing, even if its sample is due. */
  lemma SignalledLeaves(s: Sys, t: Sys)
    requires s.pc.Waiting? && s.f.threadSignal && SourceNext(s, t)
    ensures t.pc.Leaving? && t.f == s.f && forall u :: SourceNext(t, u) ==> u.pc.Outside? && u.f.shown == s.f.shown
  {
  }

  lemma WakesUp(s: Sys)
    requires s.pc.Waiting? && (s.f.threadSignal || s.f.renderEvent)
    ensures exists t :: SourceNext(s, t)
  {
    var t := if s.f.threadSignal then s.(pc := Leaving) else s.(pc := Due, f := s.f.(renderEvent := false, advise := false));
    assert EndWait(s, t);
    assert SourceNext(s, t);
  }
}
