/**
CBaseRenderer: what the sections of Receive, Stop, Pause, Run and flushing do to the renderer's
fields.  Samples are numbered in the order the source delivers them.
 */
module RendererSpec {
  import opened Options
  import opened Filters

  /** A call of DoRenderSample, and the circumstances of it. */
  datatype Shown = Shown(sample: nat, state: FilterState, streaming: bool)

  datatype Fields = Fields(
    state: FilterState,
    pending: Option<nat>,     // m_pMediaSample
    streaming: bool,
    flushing: bool,           // of the input pin
    inReceive: bool,
    threadSignal: bool,       // manual reset: the source thread may not wait
    renderEvent: bool,        // auto reset: the pending sample is due
    advise: bool,             // the clock has still to set it, m_dwAdvise
    shown: seq<Shown>,
    cleared: set<nat>)        // samples dropped by ClearPendingSample without being shown

  /** The outcome of ScheduleSample: refused, event set at once, or an advise set up. */
  datatype Schedule = Refused | Now | Later

  /** What PrepareReceive may meet that is decided elsewhere: a run time error or a failed format
      change, the end of the stream or an abort. */
  datatype Circumstances = Circumstances(pinRefuses: bool, ended: bool, schedule: Schedule)

  function ClearPending(f: Fields): Fields {
    if f.pending.None? then f else f.(pending := None, cleared := f.cleared + {f.pending.value})
  }

  function Scheduled(f: Fields, schedule: Schedule): Fields {
    match schedule
    case Refused => f
    case Now => f.(renderEvent := true)
    case Later => f.(advise := true)
  }

  /** PrepareReceive after CheckStreaming: the sample becomes the pending one, or not. */
  function Prepare(f: Fields, sample: nat, c: Circumstances): Fields {
    if f.pending.Some? || c.ended || (f.streaming && c.schedule.Refused?) then f.(inReceive := false)
    else
      var g := if f.streaming then Scheduled(f, c.schedule) else f;
      g.(pending := Some(sample))
  }

  function RefusedByPin(f: Fields, c: Circumstances): bool {
    f.state.Stopped? || f.flushing || c.pinRefuses
  }

  /** Receive's last section: Render, ClearPendingSample, CancelNotification. */
  function RenderDue(f: Fields): Fields {
    var g := if f.pending.Some? && f.streaming
             then f.(shown := f.shown + [Shown(f.pending.value, f.state, f.streaming)], pending := None)
             else ClearPending(f);
    g.(renderEvent := false, advise := false)
  }

  /** One action of the thread that stops, pauses, runs or flushes the renderer. */
  datatype Action =
    | SetState(state: FilterState)
    | Drop                           // ClearPendingSample
    | StopStreaming
    | StartStreaming(schedule: Schedule)
    | SetSignal(stopWaiting: bool)   // SourceThreadCanWait, inverted
    | CancelNotification
    | SetFlushing(flushing: bool)
    | LockRenderer | UnlockRenderer
    | Spin                           // WaitForReceiveToComplete

  function Perform(f: Fields, a: Action): Fields {
    match a
    case SetState(state) => f.(state := state)
    case Drop => ClearPending(f)
    case StopStreaming => f.(streaming := false)
    case StartStreaming(schedule) =>
      if f.streaming then f
      else if f.pending.None? then f.(streaming := true)
      else if schedule.Refused? then f.(streaming := true, renderEvent := true)
      else Scheduled(f.(streaming := true), schedule)
    case SetSignal(stopWaiting) => f.(threadSignal := stopWaiting)
    case CancelNotification => f.(renderEvent := false, advise := false)
    case SetFlushing(flushing) => f.(flushing := flushing)
    case _ => f
  }

  datatype Call = Stop | Pause(from: FilterState) | Run(from: FilterState, schedule: Schedule) | BeginFlush | EndFlush

  /** A call, as the actions it consists of between taking and giving up m_InterfaceLock. */
  function Actions(call: Call): seq<Action> {
    match call
    case Stop => [Drop, SetState(Stopped), StopStreaming, SetSignal(true), CancelNotification, Spin]
    case Pause(from) =>
      [SetState(Paused), StopStreaming, SetSignal(false), CancelNotification] + (if from.Stopped? then [Drop] else [])
    case Run(from, schedule) =>
      // a stopped filter is first paused, as by Pause
      (if from.Stopped? then [SetState(Paused), StopStreaming, SetSignal(false), CancelNotification, Drop] else [])
      + [SetState(Running), SetSignal(false)] + (if from.Stopped? then [Drop] else []) + [StartStreaming(schedule)]
    case BeginFlush =>
      [LockRenderer, SetFlushing(true), SetSignal(true), CancelNotification, Drop, Spin, UnlockRenderer]
    case EndFlush => [LockRenderer, SetSignal(false), SetFlushing(false), UnlockRenderer]
  }

  // ---------------------------------------------------------------------------------
  // What has become of the samples
  // ---------------------------------------------------------------------------------

  /** Shown while streaming and not stopped, and done with. */
  ghost predicate Proper(f: Fields, w: Shown) {
    && w.streaming && !w.state.Stopped? && w.sample !in f.cleared
    && (f.pending.Some? ==> w.sample < f.pending.value)
  }

  /** Samples are shown properly, in the order of delivery and none twice; the pending one has not
      been dropped. */
  ghost predicate Orderly(f: Fields) {
    && (f.pending.Some? ==> f.pending.value !in f.cleared)
    && (forall i :: 0 <= i < |f.shown| ==> Proper(f, f.shown[i]))
    && (forall i, j :: 0 <= i < j < |f.shown| ==> f.shown[i].sample < f.shown[j].sample)
  }

  /** A number later than every sample seen. */
  ghost predicate Unused(f: Fields, n: nat) {
    && (f.pending.Some? ==> f.pending.value < n)
    && (forall k :: k in f.cleared ==> k < n)
    && (forall i :: 0 <= i < |f.shown| ==> f.shown[i].sample < n)
  }

  /** Nothing about the samples changes. */
  ghost predicate SameSamples(f: Fields, g: Fields) {
    g.pending == f.pending && g.cleared == f.cleared && g.shown == f.shown
  }

  lemma SameSamplesKeep(f: Fields, g: Fields, n: nat)
    requires SameSamples(f, g)
    ensures Orderly(f) ==> Orderly(g)
    ensures Unused(f, n) ==> Unused(g, n)
  {
  }

  lemma ClearKeepsOrder(f: Fields, n: nat)
    requires Orderly(f) && Unused(f, n)
    ensures Orderly(ClearPending(f)) && Unused(ClearPending(f), n)
  {
  }

  /** A dropped sample can never be shown: it is neither pending nor among those shown. */
  lemma ClearedIsGone(f: Fields)
    requires Orderly(f)
    ensures var g := ClearPending(f);
            g.pending.None? && Orderly(g) && g.shown == f.shown &&
            forall i :: 0 <= i < |g.shown| ==> g.shown[i].sample !in g.cleared
  {
  }

  lemma RenderKeepsOrder(f: Fields, n: nat)
    requires Orderly(f) && Unused(f, n) && !f.state.Stopped?
    ensures Orderly(RenderDue(f)) && Unused(RenderDue(f), n)
  {
    if f.pending.Some? && f.streaming {
      ShowKeepsOrder(f, RenderDue(f), n);
    } else {
      ClearKeepsOrder(f, n);
      SameSamplesKeep(ClearPending(f), RenderDue(f), n);
    }
  }

  lemma ShowKeepsOrder(f: Fields, g: Fields, n: nat)
    requires Orderly(f) && Unused(f, n) && !f.state.Stopped? && f.pending.Some?
    requires g.shown == f.shown + [Shown(f.pending.value, f.state, true)] && g.pending.None? && g.cleared == f.cleared
    ensures Orderly(g) && Unused(g, n)
  {
  }

  lemma PrepareKeepsOrder(f: Fields, sample: nat, c: Circumstances)
    requires Orderly(f) && Unused(f, sample)
    ensures Orderly(Prepare(f, sample, c))
  {
  }

  /** PrepareReceive as a whole, when nobody gets in between its two checks. */
  function Admitted(f: Fields, sample: nat, c: Circumstances): Fields {
    if RefusedByPin(f, c) then f.(inReceive := false) else Prepare(f.(inReceive := true), sample, c)
  }

  lemma AdmittedKeepsOrder(f: Fields, sample: nat, c: Circumstances)
    requires Orderly(f) && Unused(f, sample)
    ensures Orderly(Admitted(f, sample, c))
  {
    SameSamplesKeep(f, f.(inReceive := true), sample);
    SameSamplesKeep(f, f.(inReceive := false), sample);
    PrepareKeepsOrder(f.(inReceive := true), sample, c);
  }

  lemma PrepareUses(f: Fields, sample: nat, c: Circumstances)
    requires Unused(f, sample)
    ensures Unused(Prepare(f, sample, c), sample + 1)
  {
  }
}

/** The renderer's sections as methods on its fields. */
module Renderer {
  import opened Options
  import opened Filters
  import opened RendererSpec

  datatype PrepareResult = Accepted | Rejected

  class BaseRenderer {
    var state: FilterState
    var pending: Option<nat>
    var streaming: bool
    var flushing: bool
    var inReceive: bool
    var threadSignal: bool
    var renderEvent: bool
    var advise: bool
    var shown: seq<Shown>
    var cleared: set<nat>

    function View(): Fields
      reads this
    {
      Fields(state, pending, streaming, flushing, inReceive, threadSignal, renderEvent, advise, shown, cleared)
    }

    /** What has been shown was shown properly; what was dropped never will be. */
    ghost predicate Valid()
      reads this
    {
      Orderly(View())
    }

    constructor ()
      ensures Valid() && View() == Fields(Stopped, None, false, false, false, false, false, false, [], {})
    {
      state, pending, streaming, flushing, inReceive := Stopped, None, false, false, false;
      threadSignal, renderEvent, advise, shown, cleared := false, false, false, [], {};
    }

    /** Nothing is pending afterwards, and the sample that was will not be shown. */
    method ClearPendingSample()
      requires Valid()
      modifies this`pending, this`cleared
      ensures Valid() && pending.None?
      ensures old(pending).Some? ==> old(pending).value in cleared
      ensures forall k :: k in cleared ==> k in old(cleared) || old(pending) == Some(k)
      ensures View() == ClearPending(old(View()))
    {
      ClearedIsGone(View());
      if pending.Some? {
        cleared := cleared + {pending.value};
        pending := None;
      }
    }

    /** The sample, numbered after every one seen before, becomes the pending one, or is rejected; the
        event is set for it, or the clock advised, as its schedule says, once streaming. */
    method PrepareReceive(sample: nat, c: Circumstances) returns (r: PrepareResult)
      requires Valid() && Unused(View(), sample)
      modifies this`inReceive, this`pending, this`renderEvent, this`advise
      ensures Valid()
      ensures r == Accepted <==> inReceive
      ensures View() == Admitted(old(View()), sample, c)
      ensures r == Accepted ==> pending == Some(sample) && old(pending) == None && state != Stopped && !flushing
      ensures r == Accepted ==> (renderEvent <==> old(renderEvent) || (streaming && c.schedule == Now))
      ensures r == Accepted ==> (advise <==> old(advise) || (streaming && c.schedule == Later))
      ensures r == Rejected ==> pending == old(pending) && renderEvent == old(renderEvent) && advise == old(advise)
      ensures r == Rejected <==>
        || state == Stopped || flushing || c.pinRefuses || old(pending).Some? || c.ended
        || (streaming && c.schedule == Refused)
    {
      AdmittedKeepsOrder(View(), sample, c);
      r := Admit(sample, c);
    }

    predicate Refuses(sample: nat, c: Circumstances)
      reads this
    {
      || state == Stopped || flushing || c.pinRefuses || pending.Some? || c.ended
      || (streaming && c.schedule == Refused)
    }

    method Admit(sample: nat, c: Circumstances) returns (r: PrepareResult)
      modifies this`inReceive, this`pending, this`renderEvent, this`advise
      ensures (r == Rejected <==> old(Refuses(sample, c))) && (inReceive <==> r == Accepted)
      ensures pending == if r == Accepted then Some(sample) else old(pending)
      ensures renderEvent == (old(renderEvent) || (r == Accepted && streaming && c.schedule == Now))
      ensures advise == (old(advise) || (r == Accepted && streaming && c.schedule == Later))
    {
      inReceive := true;
      if state == Stopped || flushing || c.pinRefuses {
        inReceive := false;
        return Rejected;
      }
      StoreSample(sample, c);
      r := if inReceive then Accepted else Rejected;
    }

    method StoreSample(sample: nat, c: Circumstances)
      requires inReceive
      modifies this`inReceive, this`pending, this`renderEvent, this`advise
      ensures inReceive == !(old(pending).Some? || c.ended || (streaming && c.schedule == Refused))
      ensures pending == if inReceive then Some(sample) else old(pending)
      ensures renderEvent == (old(renderEvent) || (inReceive && streaming && c.schedule == Now))
      ensures advise == (old(advise) || (inReceive && streaming && c.schedule == Later))
    {
      if pending.Some? || c.ended {
        inReceive := false;
        return;
      }
      if streaming {
        if c.schedule.Refused? {
          inReceive := false;
          return;
        }
        if c.schedule.Now? {
          renderEvent := true;
        } else {
          advise := true;
        }
      }
      pending := Some(sample);
    }

    /** Receive once the wait is over and both locks are held again. */
    method RenderPending() returns (did: bool)
      requires Valid()
      modifies this`pending, this`cleared, this`shown, this`renderEvent, this`advise
      ensures Valid() && (did <==> old(pending).Some? && streaming && state != Stopped)
      ensures did ==> old(pending).value !in old(cleared) && shown == old(shown) + [Shown(old(pending).value, state, true)]
      ensures !did ==> shown == old(shown)
      ensures state != Stopped ==> pending.None? && !renderEvent && !advise
      ensures cleared == if !did && state != Stopped && old(pending).Some? then old(cleared) + {old(pending).value} else old(cleared)
      ensures state == Stopped ==> !did && View() == old(View())
      ensures state != Stopped ==> View() == RenderDue(old(View())) && did == (old(pending).Some? && streaming)
    {
      did := false;
      if state == Stopped {
        return;
      }
      if pending.Some? && streaming {
        shown := shown + [Shown(pending.value, state, streaming)];
        did := true;
        pending := None;
      }
      ClearPendingSample();
      renderEvent, advise := false, false;
    }

    /** From now on RenderPending shows nothing. */
    method StopStreamingNow()
      requires Valid()
      modifies this`streaming
      ensures Valid() && !streaming
      ensures View() == Perform(old(View()), StopStreaming)
    {
      if streaming {
        streaming := false;
      }
    }

    /** A pending sample is due at once unless an advise could be set up for it. */
    method StartStreamingNow(schedule: Schedule)
      requires Valid()
      modifies this`streaming, this`renderEvent, this`advise
      ensures Valid() && streaming
      ensures renderEvent <==> old(renderEvent) || (!old(streaming) && pending.Some? && schedule != Later)
      ensures advise <==> old(advise) || (!old(streaming) && pending.Some? && schedule == Later)
      ensures View() == Perform(old(View()), StartStreaming(schedule))
    {
      if streaming {
        return;
      }
      streaming := true;
      if pending.None? {
        return;
      }
      if schedule.Refused? || schedule.Now? {
        renderEvent := true;
      } else {
        advise := true;
      }
    }
  }
}
