/**
StupidAR::BlockingQueue.  What a thread does between taking the mutex and giving it up, by
returning or by going to sleep on a condition variable, is one section.
 */
module BlockingQueueSpec {
  import opened Options

  datatype Queue<T> = Queue(size: nat, items: seq<T>, flushing: bool)

  /** How a section ends: with a result, or asleep on its condition variable. */
  datatype Outcome = Return(ok: bool) | Sleep

  /** put: the wait's predicate holds if the size differs from the bound or the queue is flushing. */
  function PutStep<T>(q: Queue<T>, e: T): (Queue<T>, Outcome) {
    if |q.items| == q.size && !q.flushing then (q, Sleep)
    else if q.flushing then (q, Return(false))
    else (q.(items := q.items + [e]), Return(true))
  }

  function OfferStep<T>(q: Queue<T>, e: T): (Queue<T>, bool) {
    if |q.items| == q.size || q.flushing then (q, false) else (q.(items := q.items + [e]), true)
  }

  /** take and poll also give the item they took. */
  function TakeStep<T>(q: Queue<T>): (Queue<T>, Outcome, Option<T>) {
    if |q.items| == 0 && !q.flushing then (q, Sleep, None)
    else if q.flushing then (q, Return(false), None)
    else (q.(items := q.items[1..]), Return(true), Some(q.items[0]))
  }

  function PollStep<T>(q: Queue<T>): (Queue<T>, Option<T>) {
    if q.items != [] then (q.(items := q.items[1..]), Some(q.items[0])) else (q, None)
  }

  function BeginFlushStep<T>(q: Queue<T>): Queue<T> {
    if q.flushing then q else q.(flushing := true, items := [])
  }

  function EndFlushStep<T>(q: Queue<T>): Queue<T> {
    q.(flushing := false)
  }
}

/** The queue as an object; `wakeNotEmpty` and `wakeNotFull` count the notify_one calls. */
module BlockingQueue {
  import opened Options
  import opened BlockingQueueSpec

  class BoundedQueue<T> {
    const size: nat
    var items: seq<T>
    var flushing: bool
    var wakeNotEmpty: nat
    var wakeNotFull: nat
    var wakeAll: nat

    function View(): Queue<T>
      reads this
    {
      Queue(size, items, flushing)
    }

    ghost predicate Valid()
      reads this
    {
      |items| <= size && (flushing ==> items == [])
    }

    constructor (size: nat)
      ensures Valid() && View() == Queue(size, [], false)
    {
      this.size, items, flushing := size, [], false;
      wakeNotEmpty, wakeNotFull, wakeAll := 0, 0, 0;
    }

    method Put(e: T) returns (r: Outcome)
      requires Valid()
      modifies this
      ensures Valid() && (View(), r) == PutStep(old(View()), e)
      ensures r == (if old(flushing) then Return(false) else if |old(items)| == size then Sleep else Return(true))
      ensures items == (if r == Return(true) then old(items) + [e] else old(items)) && flushing == old(flushing)
      ensures wakeNotEmpty == old(wakeNotEmpty) + (if r == Return(true) then 1 else 0)
      ensures wakeNotFull == old(wakeNotFull) && wakeAll == old(wakeAll)
    {
      if !(|items| != size || flushing) {
        return Sleep;
      }
      if flushing {
        return Return(false);
      }
      items := items + [e];
      wakeNotEmpty := wakeNotEmpty + 1;
      r := Return(true);
    }

    method Offer(e: T) returns (ok: bool)
      requires Valid()
      modifies this
      ensures Valid() && (View(), ok) == OfferStep(old(View()), e)
      ensures ok <==> !old(flushing) && |old(items)| < size
      ensures items == (if ok then old(items) + [e] else old(items)) && flushing == old(flushing)
      ensures wakeNotEmpty == old(wakeNotEmpty) + (if ok then 1 else 0)
      ensures wakeNotFull == old(wakeNotFull) && wakeAll == old(wakeAll)
    {
      if |items| == size || flushing {
        return false;
      }
      items := items + [e];
      wakeNotEmpty := wakeNotEmpty + 1;
      ok := true;
    }

    method Take() returns (r: Outcome, out: Option<T>)
      requires Valid()
      modifies this
      ensures Valid() && (View(), r, out) == TakeStep(old(View()))
      ensures r == (if old(flushing) then Return(false) else if old(items) == [] then Sleep else Return(true))
      ensures r == Return(true) ==> out.Some? && old(items) == [out.value] + items
      ensures r != Return(true) ==> out.None? && items == old(items)
      ensures flushing == old(flushing)
      ensures wakeNotFull == old(wakeNotFull) + (if r == Return(true) then 1 else 0)
      ensures wakeNotEmpty == old(wakeNotEmpty) && wakeAll == old(wakeAll)
    {
      if !(|items| != 0 || flushing) {
        return Sleep, None;
      }
      if flushing {
        return Return(false), None;
      }
      out := Some(items[0]);
      items := items[1..];
      wakeNotFull := wakeNotFull + 1;
      r := Return(true);
    }

    method Poll() returns (out: Option<T>)
      requires Valid()
      modifies this
      ensures Valid() && (View(), out) == PollStep(old(View()))
      ensures out.Some? <==> old(items) != []
      ensures out.Some? ==> old(items) == [out.value] + items
      ensures out.None? ==> items == old(items)
      ensures flushing == old(flushing)
      ensures wakeNotFull == old(wakeNotFull) + (if out.Some? then 1 else 0)
      ensures wakeNotEmpty == old(wakeNotEmpty) && wakeAll == old(wakeAll)
    {
      if items != [] {
        out := Some(items[0]);
        items := items[1..];
        wakeNotFull := wakeNotFull + 1;
        return;
      }
      out := None;
    }

    method BeginFlush()
      requires Valid()
      modifies this
      ensures Valid() && View() == BeginFlushStep(old(View())) && flushing && items == []
      ensures wakeAll == old(wakeAll) + (if old(flushing) then 0 else 1)
    {
      if flushing {
        return;
      }
      flushing := true;
      items := [];
      wakeAll := wakeAll + 1;
    }

    method EndFlush()
      requires Valid()
      modifies this`flushing
      ensures Valid() && View() == EndFlushStep(old(View())) && !flushing
    {
      flushing := false;
    }
  }
}

/** All interleavings of the sections, with the wait sets of the two condition variables. */
module BlockingQueueRuns {
  import opened Options
  import opened BlockingQueueSpec

  /** A thread in put, with what it wants to add. */
  datatype Putter<T> = Putter(id: nat, item: T)

  /** A waiting thread is asleep until it is notified, or wakes for no reason; then it has to take
      the mutex again and check its predicate. */
  datatype Sys<T(==)> = Sys(
    q: Queue<T>,
    takers: set<nat>,              // asleep on m_not_empty
    wokenTakers: set<nat>,
    putters: set<Putter<T>>,       // asleep on m_not_full
    wokenPutters: set<Putter<T>>,
    accepted: seq<T>,              // since the last flush
    taken: seq<T>)

  ghost predicate Init<T(!new)>(s: Sys<T>) {
    s == Sys(Queue(s.q.size, [], false), {}, {}, {}, {}, [], [])
  }

  // ---------------------------------------------------------------------------------
  // Steps
  // ---------------------------------------------------------------------------------

  /** notify_one on m_not_empty: some sleeper, if there is one, is woken. */
  ghost predicate WakeTaker<T(!new)>(s: Sys<T>, t: Sys<T>) {
    if s.takers == {} then t == s
    else exists id :: id in s.takers && t == s.(takers := s.takers - {id}, wokenTakers := s.wokenTakers + {id})
  }

  ghost predicate WakePutter<T(!new)>(s: Sys<T>, t: Sys<T>) {
    if s.putters == {} then t == s
    else exists p :: p in s.putters && t == s.(putters := s.putters - {p}, wokenPutters := s.wokenPutters + {p})
  }

  /** The queue has become q, with e accepted, and a taker is notified. */
  ghost predicate Added<T(!new)>(s: Sys<T>, t: Sys<T>, q: Queue<T>, e: T) {
    WakeTaker(s.(q := q, accepted := s.accepted + [e]), t)
  }

  ghost predicate Removed<T(!new)>(s: Sys<T>, t: Sys<T>, q: Queue<T>, out: Option<T>) {
    out.Some? && WakePutter(s.(q := q, taken := s.taken + [out.value]), t)
  }

  /** put once it has the mutex, for the first time or woken. */
  ghost predicate PutSection<T(!new)>(s: Sys<T>, t: Sys<T>, p: Putter<T>) {
    var (q, r) := PutStep(s.q, p.item);
    match r
    case Sleep => t == s.(q := q, putters := s.putters + {p})
    case Return(ok) => if ok then Added(s, t, q, p.item) else t == s.(q := q)
  }

  ghost predicate TakeSection<T(!new)>(s: Sys<T>, t: Sys<T>, id: nat) {
    var (q, r, out) := TakeStep(s.q);
    match r
    case Sleep => t == s.(q := q, takers := s.takers + {id})
    case Return(ok) => if ok then Removed(s, t, q, out) else t == s.(q := q)
  }

  ghost predicate Put<T(!new)>(s: Sys<T>, t: Sys<T>, p: Putter<T>) {
    p !in s.putters && p !in s.wokenPutters && PutSection(s, t, p)
  }

  ghost predicate PutAgain<T(!new)>(s: Sys<T>, t: Sys<T>, p: Putter<T>) {
    p in s.wokenPutters && PutSection(s.(wokenPutters := s.wokenPutters - {p}), t, p)
  }

  ghost predicate Take<T(!new)>(s: Sys<T>, t: Sys<T>, id: nat) {
    id !in s.takers && id !in s.wokenTakers && TakeSection(s, t, id)
  }

  ghost predicate TakeAgain<T(!new)>(s: Sys<T>, t: Sys<T>, id: nat) {
    id in s.wokenTakers && TakeSection(s.(wokenTakers := s.wokenTakers - {id}), t, id)
  }

  ghost predicate Offer<T(!new)>(s: Sys<T>, t: Sys<T>, e: T) {
    var (q, ok) := OfferStep(s.q, e);
    if ok then Added(s, t, q, e) else t == s.(q := q)
  }

  ghost predicate Poll<T(!new)>(s: Sys<T>, t: Sys<T>) {
    var (q, out) := PollStep(s.q);
    if out.Some? then Removed(s, t, q, out) else t == s.(q := q)
  }

  ghost predicate BeginFlush<T(!new)>(s: Sys<T>, t: Sys<T>) {
    if s.q.flushing then t == s.(q := BeginFlushStep(s.q))
    else t == Sys(BeginFlushStep(s.q), {}, s.wokenTakers + s.takers, {}, s.wokenPutters + s.putters, [], [])
  }

  ghost predicate EndFlush<T(!new)>(s: Sys<T>, t: Sys<T>) {
    t == s.(q := EndFlushStep(s.q))
  }

  /** A sleeper may wake for no reason. */
  ghost predicate Spurious<T(!new)>(s: Sys<T>, t: Sys<T>) {
    || (s.takers != {} && WakeTaker(s, t))
    || (s.putters != {} && WakePutter(s, t))
  }

  /** Who does what. */
  datatype Action<T> =
    | DoPut(p: Putter<T>) | DoPutAgain(p: Putter<T>) | DoTake(id: nat) | DoTakeAgain(id: nat)
    | DoOffer(e: T) | DoPoll | DoBeginFlush | DoEndFlush | DoSpurious

  ghost predicate StepBy<T(!new)>(s: Sys<T>, t: Sys<T>, a: Action<T>) {
    match a
    case DoPut(p) => Put(s, t, p)
    case DoPutAgain(p) => PutAgain(s, t, p)
    case DoTake(id) => Take(s, t, id)
    case DoTakeAgain(id) => TakeAgain(s, t, id)
    case DoOffer(e) => Offer(s, t, e)
    case DoPoll => Poll(s, t)
    case DoBeginFlush => BeginFlush(s, t)
    case DoEndFlush => EndFlush(s, t)
    case DoSpurious => Spurious(s, t)
  }

  // ---------------------------------------------------------------------------------
  // The invariant
  // ---------------------------------------------------------------------------------

  ghost predicate Sound<T(!new)>(s: Sys<T>) {
    && |s.q.items| <= s.q.size
    && (s.q.flushing ==> s.q.items == [] && s.takers == {} && s.putters == {})
    && s.taken + s.q.items == s.accepted
    && s.takers !! s.wokenTakers && s.putters !! s.wokenPutters
  }

  /** While someone sleeps for an item, every item has a woken taker coming for it; while someone
      sleeps for room, every free place has a woken putter. */
  ghost predicate Covered<T(!new)>(s: Sys<T>) {
    && (s.takers != {} ==> |s.q.items| <= |s.wokenTakers|)
    && (s.putters != {} ==> s.q.size - |s.q.items| <= |s.wokenPutters|)
  }

  ghost predicate Inv<T(!new)>(s: Sys<T>) {
    Sound(s) && Covered(s)
  }

  lemma WakeTakerKeeps<T(!new)>(s: Sys<T>, t: Sys<T>)
    requires WakeTaker(s, t) && s.takers !! s.wokenTakers
    ensures t.q == s.q && t.putters == s.putters && t.wokenPutters == s.wokenPutters
    ensures t.accepted == s.accepted && t.taken == s.taken && t.takers !! t.wokenTakers
    ensures s.takers == {} ==> t.takers == {} && t.wokenTakers == s.wokenTakers
    ensures s.takers != {} ==> |t.wokenTakers| == |s.wokenTakers| + 1
  {
    if s.takers != {} {
      var id :| id in s.takers && t == s.(takers := s.takers - {id}, wokenTakers := s.wokenTakers + {id});
    }
  }

  lemma WakePutterKeeps<T(!new)>(s: Sys<T>, t: Sys<T>)
    requires WakePutter(s, t) && s.putters !! s.wokenPutters
    ensures t.q == s.q && t.takers == s.takers && t.wokenTakers == s.wokenTakers
    ensures t.accepted == s.accepted && t.taken == s.taken && t.putters !! t.wokenPutters
    ensures s.putters == {} ==> t.putters == {} && t.wokenPutters == s.wokenPutters
    ensures s.putters != {} ==> |t.wokenPutters| == |s.wokenPutters| + 1
  {
    if s.putters != {} {
      var p :| p in s.putters && t == s.(putters := s.putters - {p}, wokenPutters := s.wokenPutters + {p});
    }
  }

  /** What comes in goes to the end, what goes out comes from the front: taken and queued together are
      what was accepted, before and after. */
  lemma AddedKeeps<T(!new)>(s: Sys<T>, t: Sys<T>, q: Queue<T>, e: T)
    requires Sound(s) && !s.q.flushing && |s.q.items| < s.q.size && Added(s, t, q, e)
    requires q.size == s.q.size && !q.flushing && s.taken + q.items == s.accepted + [e] && |q.items| == |s.q.items| + 1
    requires s.takers != {} ==> |s.q.items| <= |s.wokenTakers|
    requires s.putters != {} ==> s.q.size - |s.q.items| <= |s.wokenPutters| + 1
    ensures Inv(t)
  {
    WakeTakerKeeps(s.(q := q, accepted := s.accepted + [e]), t);
  }

  lemma RemovedKeeps<T(!new)>(s: Sys<T>, t: Sys<T>, q: Queue<T>, out: Option<T>)
    requires Sound(s) && Removed(s, t, q, out)
    requires q.size == s.q.size && q.flushing == s.q.flushing && s.q.items != []
    requires s.taken + [out.value] + q.items == s.accepted && |q.items| + 1 == |s.q.items|
    requires s.takers != {} ==> |s.q.items| <= |s.wokenTakers| + 1
    requires s.putters != {} ==> s.q.size - |s.q.items| <= |s.wokenPutters|
    ensures Inv(t)
  {
    WakePutterKeeps(s.(q := q, taken := s.taken + [out.value]), t);
  }

  lemma PutKeeps<T(!new)>(s: Sys<T>, t: Sys<T>, p: Putter<T>)
    requires Inv(s) && (Put(s, t, p) || PutAgain(s, t, p))
    ensures Inv(t)
  {
    var u := if p in s.wokenPutters then s.(wokenPutters := s.wokenPutters - {p}) else s;
    assert PutSection(u, t, p);
    var (q, r) := PutStep(u.q, p.item);
    if r == Return(true) {
      AddedKeeps(u, t, q, p.item);
    }
  }

  lemma TakeKeeps<T(!new)>(s: Sys<T>, t: Sys<T>, id: nat)
    requires Inv(s) && (Take(s, t, id) || TakeAgain(s, t, id))
    ensures Inv(t)
  {
    var u := if id in s.wokenTakers then s.(wokenTakers := s.wokenTakers - {id}) else s;
    assert TakeSection(u, t, id);
    var (q, r, out) := TakeStep(u.q);
    if r == Return(true) {
      RemovedKeeps(u, t, q, out);
    }
  }

  lemma SpuriousKeeps<T(!new)>(s: Sys<T>, t: Sys<T>)
    requires Inv(s) && Spurious(s, t)
    ensures Inv(t)
  {
    if s.takers != {} && WakeTaker(s, t) {
      WakeTakerKeeps(s, t);
    } else {
      WakePutterKeeps(s, t);
    }
  }

  lemma StepKeepsInv<T(!new)>(s: Sys<T>, t: Sys<T>, a: Action<T>)
    requires Inv(s) && StepBy(s, t, a)
    ensures Inv(t)
  {
    match a
    case DoPut(p) => PutKeeps(s, t, p);
    case DoPutAgain(p) => PutKeeps(s, t, p);
    case DoTake(id) => TakeKeeps(s, t, id);
    case DoTakeAgain(id) => TakeKeeps(s, t, id);
    case DoOffer(e) =>
      var (q, ok) := OfferStep(s.q, e);
      if ok {
        AddedKeeps(s, t, q, e);
      }
    case DoPoll =>
      var (q, out) := PollStep(s.q);
      if out.Some? {
        RemovedKeeps(s, t, q, out);
      }
    case DoSpurious => SpuriousKeeps(s, t);
    case _ =>
  }

  ghost predicate StepAt<T(!new)>(run: seq<Sys<T>>, did: seq<Action<T>>, i: nat)
    requires i < |did| < |run|
  {
    StepBy(run[i], run[i + 1], did[i])
  }

  /** A run, with what was done at each step. */
  ghost predicate IsRun<T(!new)>(run: seq<Sys<T>>, did: seq<Action<T>>) {
    && |run| == |did| + 1 && Init(run[0])
    && forall i :: 0 <= i < |did| ==> StepAt(run, did, i)
  }

  lemma {:induction false} RunsKeepInv<T(!new)>(run: seq<Sys<T>>, did: seq<Action<T>>, i: nat)
    requires IsRun(run, did) && i < |run|
    ensures Inv(run[i])
  {
    if i > 0 {
      RunsKeepInv(run, did, i - 1);
      assert StepAt(run, did, i - 1);
      StepKeepsInv(run[i - 1], run[i], did[i - 1]);
    }
  }

  // ---------------------------------------------------------------------------------
  // What follows
  // ---------------------------------------------------------------------------------

  /** Never over its bound, empty while flushing, first in first out since the last flush. */
  lemma BoundedAndFifo<T(!new)>(run: seq<Sys<T>>, did: seq<Action<T>>, i: nat)
    requires IsRun(run, did) && i < |run|
    ensures |run[i].q.items| <= run[i].q.size && (run[i].q.flushing ==> run[i].q.items == [])
    ensures run[i].taken + run[i].q.items == run[i].accepted
  {
    RunsKeepInv(run, did, i);
  }

  /** notify_one loses no wake-up: when no woken thread is left to check again, a taker sleeps only
      on an empty queue, a putter only at a full one, and nobody sleeps while the queue flushes. */
  lemma NoLostWakeUp<T(!new)>(run: seq<Sys<T>>, did: seq<Action<T>>, i: nat)
    requires IsRun(run, did) && i < |run|
    ensures run[i].takers != {} && run[i].wokenTakers == {} ==> run[i].q.items == []
    ensures run[i].putters != {} && run[i].wokenPutters == {} ==> |run[i].q.items| == run[i].q.size
    ensures run[i].q.flushing ==> run[i].takers == {} && run[i].putters == {}
  {
    RunsKeepInv(run, did, i);
  }

  // ---------------------------------------------------------------------------------
  // What begin_flush releases
  // ---------------------------------------------------------------------------------

  /** Threads in take() and in put(), asleep or woken. */
  function Takers<T>(s: Sys<T>): set<nat> {
    s.takers + s.wokenTakers
  }

  function Putters<T>(s: Sys<T>): set<Putter<T>> {
    s.putters + s.wokenPutters
  }

  /** Checked again between steps k and e, and left with false since the queue was flushing. */
  ghost predicate TakerRefused<T(!new)>(run: seq<Sys<T>>, did: seq<Action<T>>, k: nat, e: nat, id: nat)
    requires e <= |did| < |run|
  {
    exists m :: k < m < e && did[m] == DoTakeAgain(id) && TakeStep(run[m].q).1 == Return(false)
  }

  ghost predicate PutterRefused<T(!new)>(run: seq<Sys<T>>, did: seq<Action<T>>, k: nat, e: nat, p: Putter<T>)
    requires e <= |did| < |run|
  {
    exists m :: k < m < e && did[m] == DoPutAgain(p) && PutStep(run[m].q, p.item).1 == Return(false)
  }

  /** While the queue flushes nobody comes to wait; a woken thread that checks again leaves with false,
      and no other does. */
  lemma FlushingStep<T(!new)>(s: Sys<T>, t: Sys<T>, a: Action<T>)
    requires Inv(s) && s.q.flushing && StepBy(s, t, a) && !a.DoEndFlush?
    ensures t.q.flushing && t.takers == {} && t.putters == {}
    ensures t.wokenTakers == (if a.DoTakeAgain? then s.wokenTakers - {a.id} else s.wokenTakers)
    ensures t.wokenPutters == (if a.DoPutAgain? then s.wokenPutters - {a.p} else s.wokenPutters)
    ensures a.DoTakeAgain? ==> a.id in s.wokenTakers && TakeStep(s.q).1 == Return(false)
    ensures a.DoPutAgain? ==> a.p in s.wokenPutters && PutStep(s.q, a.p.item).1 == Return(false)
  {
    match a
    case DoPutAgain(p) => assert PutStep(s.q, p.item).1 == Return(false);
    case DoTakeAgain(id) => assert TakeStep(s.q).1 == Return(false);
    case _ =>
  }

  /** A flush begun at step k and still on before step e. */
  ghost predicate InFlush<T(!new)>(run: seq<Sys<T>>, did: seq<Action<T>>, k: nat, e: nat) {
    && k < e <= |did| && did[k].DoBeginFlush?
    && forall m :: k < m < e ==> !did[m].DoEndFlush?
  }

  /** During a flush the threads still to check again are exactly those that waited when it began and
      have not been refused since. */
  ghost predicate TakerLedger<T(!new)>(run: seq<Sys<T>>, did: seq<Action<T>>, k: nat, e: nat)
    requires |run| == |did| + 1 && k < e <= |did|
  {
    && run[e].wokenTakers <= Takers(run[k])
    && forall id :: id in Takers(run[k]) ==> (id in run[e].wokenTakers <==> !TakerRefused(run, did, k, e, id))
  }

  ghost predicate PutterLedger<T(!new)>(run: seq<Sys<T>>, did: seq<Action<T>>, k: nat, e: nat)
    requires |run| == |did| + 1 && k < e <= |did|
  {
    && run[e].wokenPutters <= Putters(run[k])
    && forall p :: p in Putters(run[k]) ==> (p in run[e].wokenPutters <==> !PutterRefused(run, did, k, e, p))
  }

  lemma TakerLedgerStep<T(!new)>(run: seq<Sys<T>>, did: seq<Action<T>>, k: nat, e: nat)
    requires |run| == |did| + 1 && k + 1 < e <= |did| && TakerLedger(run, did, k, e - 1)
    requires var a := did[e - 1];
             && run[e].wokenTakers == (if a.DoTakeAgain? then run[e - 1].wokenTakers - {a.id} else run[e - 1].wokenTakers)
             && (a.DoTakeAgain? ==> TakeStep(run[e - 1].q).1 == Return(false))
    ensures TakerLedger(run, did, k, e)
  {
    forall id | id in Takers(run[k])
      ensures id in run[e].wokenTakers <==> !TakerRefused(run, did, k, e, id)
    {
      assert TakerRefused(run, did, k, e, id) <==> TakerRefused(run, did, k, e - 1, id) || did[e - 1] == DoTakeAgain(id) by {
        if did[e - 1] == DoTakeAgain(id) {
          assert k < e - 1 < e;
        }
      }
    }
  }

  lemma PutterLedgerStep<T(!new)>(run: seq<Sys<T>>, did: seq<Action<T>>, k: nat, e: nat)
    requires |run| == |did| + 1 && k + 1 < e <= |did| && PutterLedger(run, did, k, e - 1)
    requires var a := did[e - 1];
             && run[e].wokenPutters == (if a.DoPutAgain? then run[e - 1].wokenPutters - {a.p} else run[e - 1].wokenPutters)
             && (a.DoPutAgain? ==> PutStep(run[e - 1].q, a.p.item).1 == Return(false))
    ensures PutterLedger(run, did, k, e)
  {
    forall p | p in Putters(run[k])
      ensures p in run[e].wokenPutters <==> !PutterRefused(run, did, k, e, p)
    {
      assert PutterRefused(run, did, k, e, p) <==> PutterRefused(run, did, k, e - 1, p) || did[e - 1] == DoPutAgain(p) by {
        if did[e - 1] == DoPutAgain(p) {
          assert k < e - 1 < e;
        }
      }
    }
  }

  lemma FlushBegins<T(!new)>(s: Sys<T>, t: Sys<T>)
    requires Inv(s) && BeginFlush(s, t)
    ensures t.q.flushing && t.wokenTakers == Takers(s) && t.wokenPutters == Putters(s)
  {
  }

  lemma {:induction false} FlushAccount<T(!new)>(run: seq<Sys<T>>, did: seq<Action<T>>, k: nat, e: nat)
    requires IsRun(run, did) && InFlush(run, did, k, e)
    ensures run[e].q.flushing && TakerLedger(run, did, k, e) && PutterLedger(run, did, k, e)
    decreases e
  {
    RunsKeepInv(run, did, e - 1);
    assert StepAt(run, did, e - 1);
    if e == k + 1 {
      FlushBegins(run[k], run[e]);
    } else {
      FlushAccount(run, did, k, e - 1);
      FlushingStep(run[e - 1], run[e], did[e - 1]);
      TakerLedgerStep(run, did, k, e);
      PutterLedgerStep(run, did, k, e);
    }
  }

  /** Everyone who waited when begin_flush was called has been turned away, exactly when end_flush is
      withheld until no woken thread is left to check again. */
  lemma FlushReleasesAllIff<T(!new)>(run: seq<Sys<T>>, did: seq<Action<T>>, k: nat, e: nat)
    requires IsRun(run, did) && InFlush(run, did, k, e)
    ensures (forall id :: id in Takers(run[k]) ==> TakerRefused(run, did, k, e, id))
            && (forall p :: p in Putters(run[k]) ==> PutterRefused(run, did, k, e, p))
            <==> run[e].wokenTakers == {} && run[e].wokenPutters == {}
  {
    FlushAccount(run, did, k, e);
  }

  lemma FlushingBegins<T(!new)>(s: Sys<T>, t: Sys<T>, a: Action<T>)
    requires StepBy(s, t, a) && !s.q.flushing && !a.DoBeginFlush? && s.takers !! s.wokenTakers && s.putters !! s.wokenPutters
    ensures !t.q.flushing
  {
  }

  lemma {:induction false} NotFlushingSince<T(!new)>(run: seq<Sys<T>>, did: seq<Action<T>>, e: nat, j: nat)
    requires IsRun(run, did) && e < j <= |did| && did[e].DoEndFlush?
    requires forall m :: e < m < j ==> !did[m].DoBeginFlush?
    ensures !run[j].q.flushing
    decreases j
  {
    assert StepAt(run, did, j - 1);
    if j > e + 1 {
      NotFlushingSince(run, did, e, j - 1);
      RunsKeepInv(run, did, j - 1);
      FlushingBegins(run[j - 1], run[j], did[j - 1]);
    }
  }

  lemma TakerChecksAgain<T(!new)>(s: Sys<T>, t: Sys<T>, id: nat)
    requires Inv(s) && TakeAgain(s, t, id) && !s.q.flushing
    ensures id in t.takers <==> s.q.items == []
  {
    if s.q.items != [] {
      var u := s.(wokenTakers := s.wokenTakers - {id});
      WakePutterKeeps(u.(q := u.q.(items := u.q.items[1..]), taken := u.taken + [u.q.items[0]]), t);
    }
  }

  lemma PutterChecksAgain<T(!new)>(s: Sys<T>, t: Sys<T>, p: Putter<T>)
    requires Inv(s) && PutAgain(s, t, p) && !s.q.flushing
    ensures p in t.putters <==> |s.q.items| == s.q.size
  {
    if |s.q.items| != s.q.size {
      var u := s.(wokenPutters := s.wokenPutters - {p});
      WakeTakerKeeps(u.(q := u.q.(items := u.q.items + [p.item]), accepted := u.accepted + [p.item]), t);
    }
  }

  /** A thread that checks again at step j, after the end_flush of step e and before another flush,
      is back asleep exactly if the queue is empty then; a putter, if it is full. */
  lemma LateWaiterSleepsIff<T(!new)>(run: seq<Sys<T>>, did: seq<Action<T>>, e: nat, j: nat)
    requires IsRun(run, did) && e < j < |did| && did[e].DoEndFlush?
    requires forall m :: e < m < j ==> !did[m].DoBeginFlush?
    ensures did[j].DoTakeAgain? ==> (did[j].id in run[j + 1].takers <==> run[j].q.items == [])
    ensures did[j].DoPutAgain? ==> (did[j].p in run[j + 1].putters <==> |run[j].q.items| == run[j].q.size)
  {
    NotFlushingSince(run, did, e, j);
    RunsKeepInv(run, did, j);
    assert StepAt(run, did, j);
    if did[j].DoTakeAgain? {
      TakerChecksAgain(run[j], run[j + 1], did[j].id);
    }
    if did[j].DoPutAgain? {
      PutterChecksAgain(run[j], run[j + 1], did[j].p);
    }
  }

  /** A taker left over when end_flush comes goes back to sleep if it checks again at once. */
  lemma LeftTakerSleeps<T(!new)>(s: Sys<T>, id: nat) returns (t: Sys<T>, u: Sys<T>)
    requires Inv(s) && s.q.flushing && id in s.wokenTakers
    ensures EndFlush(s, t) && TakeAgain(t, u, id) && id in u.takers
  {
    t := s.(q := EndFlushStep(s.q));
    u := t.(wokenTakers := t.wokenTakers - {id}, takers := t.takers + {id});
  }

  /** A putter left over goes back to sleep if the queue has been filled before it checks again. */
  lemma LeftPutterSleeps<T(!new)>(s: Sys<T>, p: Putter<T>) returns (run: seq<Sys<T>>, did: seq<Action<T>>)
    requires Inv(s) && s.q.flushing && p in s.wokenPutters
    ensures |run| == |did| + 1 && run[0] == s && did != [] && did[0].DoEndFlush?
    ensures forall i :: 0 <= i < |did| ==> StepBy(run[i], run[i + 1], did[i])
    ensures did[|did| - 1] == DoPutAgain(p) && p in run[|run| - 1].putters
  {
    var t := s.(q := EndFlushStep(s.q));
    assert StepBy(s, t, DoEndFlush);
    var more, acts := FillUp(t, p.item);
    var last := more[|more| - 1];
    var u := last.(wokenPutters := last.wokenPutters - {p}, putters := last.putters + {p});
    assert StepBy(last, u, DoPutAgain(p));
    run, did := [s] + more + [u], [DoEndFlush] + acts + [DoPutAgain(p)];
    forall i | 0 <= i < |did|
      ensures StepBy(run[i], run[i + 1], did[i])
    {
      if i == 0 {
      } else if i == |did| - 1 {
        assert run[i] == last;
      } else {
        assert run[i] == more[i - 1] && run[i + 1] == more[i] && did[i] == acts[i - 1];
      }
    }
  }

  /** Offers until the queue is full. */
  lemma {:induction false} FillUp<T(!new)>(s: Sys<T>, e: T) returns (run: seq<Sys<T>>, did: seq<Action<T>>)
    requires !s.q.flushing && s.takers == {} && |s.q.items| <= s.q.size
    ensures |run| == |did| + 1 && run[0] == s
    ensures forall i :: 0 <= i < |did| ==> StepBy(run[i], run[i + 1], did[i])
    ensures var last := run[|run| - 1];
            && |last.q.items| == last.q.size && !last.q.flushing && last.takers == {}
            && last.wokenPutters == s.wokenPutters && last.putters == s.putters
    decreases s.q.size - |s.q.items|
  {
    if |s.q.items| == s.q.size {
      run, did := [s], [];
    } else {
      var t := s.(q := s.q.(items := s.q.items + [e]), accepted := s.accepted + [e]);
      assert StepBy(s, t, DoOffer(e));
      var more, acts := FillUp(t, e);
      run, did := [s] + more, [DoOffer(e)] + acts;
      forall i | 0 <= i < |did|
        ensures StepBy(run[i], run[i + 1], did[i])
      {
        if i > 0 {
          assert run[i] == more[i - 1] && run[i + 1] == more[i] && did[i] == acts[i - 1];
        }
      }
    }
  }

  /** So begin_flush does not release every waiter: a run in which one checks again only after
      end_flush and is back asleep. */
  lemma WaiterSleepsThroughFlush(size: nat) returns (run: seq<Sys<int>>, did: seq<Action<int>>)
    ensures IsRun(run, did) && |run| == 5 && run[0].q.size == size
    ensures did == [DoTake(7), DoBeginFlush, DoEndFlush, DoTakeAgain(7)]
    ensures run[1].takers == {7} && run[2].q.flushing && run[2].takers == {} && run[4].takers == {7}
  {
    var s0: Sys<int> := Sys(Queue(size, [], false), {}, {}, {}, {}, [], []);
    var s1 := s0.(takers := {7});
    assert Take(s0, s1, 7);
    var s2 := s1.(q := Queue(size, [], true), takers := {}, wokenTakers := {7});
    assert BeginFlush(s1, s2);
    var s3 := s2.(q := Queue(size, [], false));
    assert EndFlush(s2, s3);
    var s4 := s3.(takers := {7}, wokenTakers := {});
    assert TakeAgain(s3, s4, 7);
    run := [s0, s1, s2, s3, s4];
    did := [DoTake(7), DoBeginFlush, DoEndFlush, DoTakeAgain(7)];
    assert StepAt(run, did, 0) && StepAt(run, did, 1) && StepAt(run, did, 2) && StepAt(run, did, 3);
  }
}
