/**
The clock thread against its clients: bookings and cancellations under the schedule's lock,
time corrections, and the thread that sleeps on the schedule's auto-reset event.  A step is
one locked section or one action of the thread.
 */
module ClockThread {
  import opened MachineInts
  import opened Filters
  import opened ScheduleSpec
  import opened ReferenceClock

  const INFINITE: uint32 := 0xFFFF_FFFF

  /** Top: about to test m_bAbort; Waiting: at or in WaitForSingleObject; Awake: past it;
      Ready: with a reading of the clock in hand. */
  datatype Pc = Top | Waiting | Awake | Ready(now: int) | Ended

  datatype Fire = Fire(signal: Signal, now: int)

  datatype Clock = Clock(
    schedule: State,
    eventSet: bool,
    privateTime: int,
    lastGot: int,
    pc: Pc,
    readAt: int,          // the clock reading the current wait was computed from
    nextAdvise: int,
    wait: uint32,
    abort: bool,
    jumped: bool,         // time was set ahead of the bookings since the last wait ended
    rings: nat,           // SetEvent calls
    answered: nat,        // waits that were ended by the event
    triggered: bool,      // the destructor has set the event after setting m_bAbort
    fired: seq<Fire>,
    given: seq<int>)      // the results of GetTime since the last Restart

  ghost predicate Init(c: Clock) {
    && c.schedule == State([], 0) && !c.eventSet && c.pc == Top
    && c.nextAdvise == MAX_TIME && c.wait == INFINITE && c.readAt == 0
    && !c.abort && !c.triggered && !c.jumped && c.rings == 0 && c.answered == 0 && c.fired == [] && c.given == [] && c.lastGot == 0
  }

  function Once(rings: bool): nat {
    if rings then 1 else 0
  }

  // Book and Serve name the list's invariant because ScheduleSpec's functions ask for it;
  // RunsKeepInv shows that it holds in every reachable state, so it excludes nothing.

  /** A booking that lands at the head of the list sets the event. */
  ghost predicate Book(c: Clock, d: Clock, time: int, period: int, handle: int, periodic: bool) {
    var op := Add(time, period, handle, periodic);
    && time > 0 && Valid(c.schedule.list, c.schedule.lastCookie) && Allowed(c.schedule, op)
    && var rings := time <= FirstTime(c.schedule.list);
       d == c.(schedule := Step(c.schedule, op), eventSet := c.eventSet || rings, rings := c.rings + Once(rings))
  }

  ghost predicate Cancel(c: Clock, d: Clock, cookie: nat) {
    d == c.(schedule := c.schedule.(list := Remove(c.schedule.list, cookie)))
  }

  ghost predicate Correct(c: Clock, d: Clock, delta: int) {
    var rings := delta > 5000 && c.schedule.list != [];
    d == c.(privateTime := c.privateTime + delta, eventSet := c.eventSet || rings, rings := c.rings + Once(rings),
            jumped := c.jumped || (delta > 5000 && c.schedule.list != []))
  }

  /** Time as the derived clock measures it; it may go back. */
  ghost predicate Tick(c: Clock, d: Clock, time: int) {
    d == c.(privateTime := time)
  }

  ghost predicate AskTime(c: Clock, d: Clock) {
    var got := if c.privateTime > c.lastGot then c.privateTime else c.lastGot;
    d == c.(lastGot := got, given := c.given + [got])
  }

  /** Restart may set the time given out last back; `given` counts from there. */
  ghost predicate Restart(c: Clock, d: Clock, minTime: int) {
    d == c.(lastGot := minTime, given := [])
  }

  ghost predicate TriggerThread(c: Clock, d: Clock) {
    d == c.(eventSet := true, rings := c.rings + 1)
  }

  ghost predicate Destroy(c: Clock, d: Clock) {
    || d == c.(abort := true)
    || (c.abort && d == c.(triggered := true, eventSet := true, rings := c.rings + 1))
  }

  ghost predicate Test(c: Clock, d: Clock) {
    c.pc.Top? && d == c.(pc := if c.abort then Ended else Waiting)
  }

  /** The wait ends by the event, which it resets, or by its timeout. */
  ghost predicate Wake(c: Clock, d: Clock) {
    && c.pc.Waiting?
    && d == c.(pc := Awake, eventSet := false, answered := c.answered + Once(c.eventSet), jumped := false)
  }

  ghost predicate Read(c: Clock, d: Clock) {
    c.pc.Awake? && d == c.(pc := if c.abort then Ended else Ready(c.privateTime))
  }

  function At(s: seq<Signal>, now: int): (r: seq<Fire>)
    ensures |r| == |s| && forall i :: 0 <= i < |s| ==> r[i] == Fire(s[i], now)
  {
    seq(|s|, i requires 0 <= i < |s| => Fire(s[i], now))
  }

  /** Advise(10000 + rtNow) and the computation of the next wait, as RefClock.ThreadRound. */
  ghost predicate Serve(c: Clock, d: Clock) {
    && c.pc.Ready?
    && var now := c.pc.now;
    && var t := 10000 + now;
    && Valid(c.schedule.list, c.schedule.lastCookie) && BelowMax(c.schedule.list, t) && t < MAX_TIME
    && var (rest, signals) := AdviseAll(c.schedule.list, t);
       NextIsLater(c.schedule.list, t);      // so ASSERT( llWait > 0 ) holds
       d == c.(schedule := c.schedule.(list := rest), fired := c.fired + At(signals, now), pc := Top,
               readAt := now, nextAdvise := FirstTime(rest), wait := WaitMs(FirstTime(rest), now))
  }

  ghost predicate Next(c: Clock, d: Clock) {
    || (exists time, period, handle, periodic :: Book(c, d, time, period, handle, periodic))
    || (exists cookie :: Cancel(c, d, cookie))
    || TimeStep(c, d)
    || Test(c, d) || Wake(c, d) || Read(c, d) || Serve(c, d)
  }

  // ---------------------------------------------------------------------------------
  // What every step keeps
  // ---------------------------------------------------------------------------------

  predicate AboutToWait(pc: Pc) {
    pc.Top? || pc.Waiting?
  }

  /** The wait was computed for nextAdvise: it lasts a millisecond at least, and if it is
      not the longest one it does not end after nextAdvise. */
  ghost predicate WaitFits(c: Clock) {
    && 1 <= c.wait
    && (c.wait < INFINITE ==> c.readAt + 10000 * c.wait <= c.nextAdvise)
  }

  ghost predicate Inv(c: Clock) {
    && Valid(c.schedule.list, c.schedule.lastCookie)
    && WaitFits(c)
    && (AboutToWait(c.pc) ==> c.eventSet || FirstTime(c.schedule.list) >= c.nextAdvise)
    && (c.triggered ==> c.abort)
    && (c.triggered && c.pc.Waiting? ==> c.eventSet)
    && c.answered + Once(c.eventSet) <= c.rings
    && (c.jumped ==> c.eventSet)
  }

  ghost predicate NotEarly(c: Clock) {
    forall i :: 0 <= i < |c.fired| ==> c.fired[i].signal.time <= c.fired[i].now + 10000
  }

  ghost predicate TimeNeverBack(c: Clock) {
    && (forall i, j :: 0 <= i < j < |c.given| ==> c.given[i] <= c.given[j])
    && (forall i :: 0 <= i < |c.given| ==> c.given[i] <= c.lastGot)
  }

  lemma InsertFirstTime(l: seq<Booking>, a: Booking)
    requires a.time < MAX_TIME
    ensures FirstTime(InsertNew(l, a)) == if a.time <= FirstTime(l) then a.time else FirstTime(l)
  {
  }

  lemma {:induction false} RemoveFirstTime(l: seq<Booking>, cookie: nat)
    requires Sorted(l) && forall i :: 0 <= i < |l| ==> l[i].time < MAX_TIME
    ensures FirstTime(Remove(l, cookie)) >= FirstTime(l)
  {
  }

  lemma BookKeepsInv(c: Clock, d: Clock, time: int, period: int, handle: int, periodic: bool)
    requires Inv(c) && Book(c, d, time, period, handle, periodic)
    ensures Inv(d)
  {
    StepKeepsValid(c.schedule, Add(time, period, handle, periodic));
    InsertFirstTime(c.schedule.list, Booking(c.schedule.lastCookie + 1, time, period, handle, periodic));
  }

  lemma CancelKeepsInv(c: Clock, d: Clock, cookie: nat)
    requires Inv(c) && Cancel(c, d, cookie)
    ensures Inv(d)
  {
    ValidRemove(c.schedule.list, cookie, c.schedule.lastCookie);
    RemoveFirstTime(c.schedule.list, cookie);
  }

  lemma ServeKeepsInv(c: Clock, d: Clock)
    requires Inv(c) && Serve(c, d)
    ensures Inv(d)
  {
    var t := 10000 + c.pc.now;
    ValidAdvise(c.schedule.list, t, c.schedule.lastCookie);
    NextIsLater(c.schedule.list, t);
    WaitIsSafe(d.nextAdvise, c.pc.now);
  }

  lemma NextKeepsInv(c: Clock, d: Clock)
    requires Inv(c) && Next(c, d)
    ensures Inv(d)
  {
    if time, period, handle, periodic :| Book(c, d, time, period, handle, periodic) {
      BookKeepsInv(c, d, time, period, handle, periodic);
    } else if cookie :| Cancel(c, d, cookie) {
      CancelKeepsInv(c, d, cookie);
    } else if Serve(c, d) {
      ServeKeepsInv(c, d);
    } else if Test(c, d) || Wake(c, d) || Read(c, d) {
      ThreadKeepsInv(c, d);
    } else {
      TimeKeepsInv(c, d);
    }
  }

  lemma ThreadKeepsInv(c: Clock, d: Clock)
    requires Inv(c) && (Test(c, d) || Wake(c, d) || Read(c, d))
    ensures Inv(d)
  {
  }

  ghost predicate TimeStep(c: Clock, d: Clock) {
    || (exists delta :: Correct(c, d, delta))
    || (exists time :: Tick(c, d, time))
    || (exists minTime :: Restart(c, d, minTime))
    || AskTime(c, d) || Destroy(c, d) || TriggerThread(c, d)
  }

  lemma TimeKeepsInv(c: Clock, d: Clock)
    requires Inv(c) && TimeStep(c, d)
    ensures Inv(d)
  {
    assert d.schedule == c.schedule && d.pc == c.pc && d.nextAdvise == c.nextAdvise && (c.eventSet ==> d.eventSet);
    assert d.answered == c.answered && c.rings + Once(d.eventSet) <= d.rings + Once(c.eventSet);
  }

  lemma OnlyServeFires(c: Clock, d: Clock)
    requires Next(c, d) && !Serve(c, d)
    ensures d.fired == c.fired
  {
  }

  lemma ServeNotEarly(c: Clock, d: Clock)
    requires NotEarly(c) && Serve(c, d)
    ensures NotEarly(d)
  {
    var t := 10000 + c.pc.now;
    AdviseInOrder(c.schedule.list, t);
    var signals := AdviseAll(c.schedule.list, t).1;
    assert d.fired == c.fired + At(signals, c.pc.now);
  }

  lemma NextKeepsNotEarly(c: Clock, d: Clock)
    requires NotEarly(c) && Next(c, d)
    ensures NotEarly(d)
  {
    if Serve(c, d) {
      ServeNotEarly(c, d);
    } else {
      OnlyServeFires(c, d);
    }
  }

  lemma OnlyAskTimeGives(c: Clock, d: Clock)
    requires Next(c, d) && !AskTime(c, d)
    ensures (d.given == c.given && d.lastGot == c.lastGot) || d.given == []
  {
  }

  lemma NextKeepsTime(c: Clock, d: Clock)
    requires TimeNeverBack(c) && Next(c, d)
    ensures TimeNeverBack(d)
  {
    if !AskTime(c, d) {
      OnlyAskTimeGives(c, d);
    }
  }

  ghost predicate IsRun(run: seq<Clock>) {
    run != [] && Init(run[0]) && forall i :: 0 <= i < |run| - 1 ==> Next(run[i], run[i + 1])
  }

  lemma {:induction false} RunsKeepInv(run: seq<Clock>, i: nat)
    requires IsRun(run) && i < |run|
    ensures Inv(run[i])
  {
    if i > 0 {
      RunsKeepInv(run, i - 1);
      NextKeepsInv(run[i - 1], run[i]);
    }
  }

  lemma {:induction false} RunsNeverEarly(run: seq<Clock>, i: nat)
    requires IsRun(run) && i < |run|
    ensures NotEarly(run[i])
  {
    if i > 0 {
      RunsNeverEarly(run, i - 1);
      NextKeepsNotEarly(run[i - 1], run[i]);
    }
  }

  lemma {:induction false} RunsNeverGoBack(run: seq<Clock>, i: nat)
    requires IsRun(run) && i < |run|
    ensures TimeNeverBack(run[i])
  {
    if i > 0 {
      RunsNeverGoBack(run, i - 1);
      NextKeepsTime(run[i - 1], run[i]);
    }
  }

  /** No booking is missed: whenever the thread sleeps, or is about to, its event is set or
      the wait it computed ends by the time of every booking there is, and time has not been set
      ahead of the bookings meanwhile. */
  lemma NoBookingMissed(run: seq<Clock>, i: nat, k: nat)
    requires IsRun(run) && i < |run| && k < |run[i].schedule.list|
    requires AboutToWait(run[i].pc)
    ensures var c := run[i];
            var a := c.schedule.list[k];
            || c.eventSet
            || (!c.jumped && a.time >= c.nextAdvise && (c.wait == INFINITE || c.readAt + 10000 * c.wait <= a.time))
  {
    RunsKeepInv(run, i);
    assert run[i].schedule.list[0].time <= run[i].schedule.list[k].time;
  }

  /** The wait is never zero, and for one SetEvent call at most one wait ends early, so the thread does
      not spin; no signal is given more than a millisecond early; GetTime never goes back from one
      Restart to the next. */
  lemma NeverSpinsNeverEarly(run: seq<Clock>, i: nat)
    requires IsRun(run) && i < |run|
    ensures run[i].wait >= 1 && run[i].answered <= run[i].rings
    ensures forall k :: 0 <= k < |run[i].fired| ==> run[i].fired[k].signal.time <= run[i].fired[k].now + 10000
    ensures forall j, k :: 0 <= j < k < |run[i].given| ==> run[i].given[j] <= run[i].given[k]
  {
    RunsKeepInv(run, i);
    RunsNeverEarly(run, i);
    RunsNeverGoBack(run, i);
  }

  /** Once the destructor has triggered the thread, the thread cannot sleep on. */
  lemma ShutdownWakesThread(run: seq<Clock>, i: nat)
    requires IsRun(run) && i < |run| && run[i].triggered
    ensures run[i].pc.Waiting? ==> run[i].eventSet
    ensures run[i].pc.Top? || run[i].pc.Awake? ==> forall d :: Test(run[i], d) || Read(run[i], d) ==> d.pc.Ended?
  {
    RunsKeepInv(run, i);
  }
}
