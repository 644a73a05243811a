/**
CAMSchedule as the linked structure it is: nodes between two sentinels, relinked in place,
and a cache of up to five spare nodes.  Every operation is proved to do to the list of
advises what ScheduleSpec says.
 */
module Schedule {
  import opened Filters
  import opened ScheduleSpec

  class AdvisePacket {
    var next: AdvisePacket?
    var cookie: nat
    var time: int
    var period: int
    var handle: int
    var periodic: bool

    constructor (next: AdvisePacket?, time: int)
      ensures this.next == next && this.time == time
    {
      this.next, this.time := next, time;
      cookie, period, handle, periodic := 0, 0, 0, false;
    }

    method Fill(cookie: nat, time: int, period: int, handle: int, periodic: bool)
      modifies this
      ensures Value() == Booking(cookie, time, period, handle, periodic)
    {
      this.cookie, this.time, this.period, this.handle, this.periodic := cookie, time, period, handle, periodic;
    }

    function Value(): Booking
      reads `cookie, `time, `period, `handle, `periodic
    {
      Booking(cookie, time, period, handle, periodic)
    }
  }

  ghost predicate Distinct(s: seq<AdvisePacket>) {
    forall i, j :: 0 <= i < j < |s| ==> s[i] != s[j]
  }

  ghost predicate Disjoint(s: seq<AdvisePacket>, u: seq<AdvisePacket>) {
    forall i, j :: 0 <= i < |s| && 0 <= j < |u| ==> s[i] != u[j]
  }

  /** Consecutive nodes are linked and the last one ends the chain. */
  ghost predicate Chained(s: seq<AdvisePacket>)
    reads s`next
  {
    && (forall i :: 0 <= i < |s| - 1 ==> s[i].next == s[i + 1])
    && (s != [] ==> s[|s| - 1].next == null)
  }

  class AMSchedule {
    const head: AdvisePacket
    const z: AdvisePacket
    var nextCookie: nat
    var adviseCount: nat
    var adviseCache: AdvisePacket?
    var cacheCount: nat
    var eventSet: bool            // m_ev, reset by the clock thread's wait
    var signals: seq<Signal>      // SetEvent and ReleaseSemaphore calls made so far
    ghost var list: seq<Booking>
    ghost var spine: seq<AdvisePacket>    // head, the nodes of the list, z
    ghost var cached: seq<AdvisePacket>

    ghost function Chain(): set<AdvisePacket>
      reads this`spine
    {
      set p | p in spine
    }

    ghost function Nodes(): set<AdvisePacket>
      reads this`spine, this`cached
    {
      Chain() + (set p | p in cached)
    }

    /** head -> elements -> z -> null, and the cache -> null, with no node in two places. */
    ghost predicate Linked()
      reads this`spine, this`cached, this`adviseCache, this`adviseCount, this`cacheCount
      reads spine`next, cached`next, z`time
    {
      && |spine| >= 2 && spine[0] == head && spine[|spine| - 1] == z
      && Distinct(spine) && Distinct(cached) && Disjoint(spine, cached)
      && Chained(spine) && Chained(cached)
      && (if cached == [] then adviseCache == null else adviseCache == cached[0])
      && z.time == MAX_TIME
      && adviseCount == |spine| - 2
      && cacheCount == |cached| <= 5
    }

    /** The nodes carry the advises of the list. */
    ghost predicate Carries()
      reads this`spine, this`list
      reads spine`cookie, spine`time, spine`period, spine`handle, spine`periodic
    {
      && |spine| == |list| + 2
      && forall i :: 0 <= i < |list| ==> spine[i + 1].Value() == list[i]
    }

    ghost predicate Valid()
      reads this`spine, this`cached, this`adviseCache, this`adviseCount, this`cacheCount
      reads this`list, spine, cached, z
    {
      Linked() && Carries()
    }

    constructor ()
      ensures Valid() && list == [] && fresh(Nodes()) && !eventSet && signals == []
      ensures nextCookie == 0
    {
      var last := new AdvisePacket(null, MAX_TIME);
      var first := new AdvisePacket(last, 0);
      head, z := first, last;
      nextCookie, adviseCount, adviseCache, cacheCount := 0, 0, null, 0;
      eventSet, signals := false, [];
      list, spine, cached := [], [first, last], [];
    }

    /** A node for a new advise: one from the cache, or a new one. */
    method TakePacket() returns (p: AdvisePacket)
      requires Valid()
      modifies this`adviseCache, this`cacheCount, this`cached
      ensures Valid() && p !in spine && p !in cached
      ensures if old(cached) == [] then fresh(p) && cached == [] else old(cached) == [p] + cached
    {
      if adviseCache != null {
        p := adviseCache;
        adviseCache := p.next;
        cacheCount := cacheCount - 1;
        cached := cached[1..];
      } else {
        p := new AdvisePacket(null, 0);
      }
    }

    /** InsertAfter: p->m_next = m_next; m_next = p. */
    method LinkAfter(prev: AdvisePacket, p: AdvisePacket, ghost i: nat)
      requires Linked() && i < |spine| - 1 && spine[i] == prev
      requires p !in spine && p !in cached
      modifies this`spine, this`adviseCount, prev`next, p`next
      ensures Linked() && spine == old(spine)[..i + 1] + [p] + old(spine)[i + 1..]
    {
      p.next := prev.next;
      prev.next := p;
      spine := spine[..i + 1] + [p] + spine[i + 1..];
      adviseCount := adviseCount + 1;
    }

    /** RemoveNext. */
    method UnlinkAfter(prev: AdvisePacket, ghost i: nat) returns (p: AdvisePacket)
      requires Linked() && i < |spine| - 2 && spine[i] == prev
      modifies this`spine, this`adviseCount, prev`next
      ensures Linked() && p == old(spine)[i + 1]
      ensures spine == old(spine)[..i + 1] + old(spine)[i + 2..]
      ensures p !in spine && p !in cached
    {
      assert prev.next == spine[i + 1];
      p := prev.next;
      prev.next := p.next;
      spine := spine[..i + 1] + spine[i + 2..];
      adviseCount := adviseCount - 1;
    }

    /** Delete: keep the node for reuse unless five are kept already. */
    method Recycle(p: AdvisePacket)
      requires Valid() && p !in spine && p !in cached
      modifies this`adviseCache, this`cacheCount, this`cached, p`next
      ensures Valid()
      ensures cached == if |old(cached)| < 5 then [p] + old(cached) else old(cached)
    {
      if cacheCount < 5 {
        p.next := adviseCache;
        adviseCache := p;
        cacheCount := cacheCount + 1;
        cached := [p] + cached;
      }
    }

    method Discard(p: AdvisePacket)
      requires Valid() && p !in spine && p !in cached
      modifies this`adviseCache, this`cacheCount, this`cached, p`next
      ensures Valid() && forall q :: q in cached ==> q in old(cached) || q == p
    {
      Recycle(p);
    }

    /** Linking in a node that carries an advise. */
    method LinkValue(prev: AdvisePacket, p: AdvisePacket, ghost i: nat)
      requires Valid() && i <= |list| && spine[i] == prev
      requires p !in spine && p !in cached
      modifies this`spine, this`list, this`adviseCount, prev`next, p`next
      ensures Valid()
      ensures list == old(list)[..i] + [old(p.Value())] + old(list)[i..]
      ensures forall q :: q in spine ==> q in old(spine) || q == p
    {
      LinkAfter(prev, p, i);
      list := list[..i] + [p.Value()] + list[i..];
    }

    /** The walk of AddAdvisePacket: to the last node earlier than the packet. */
    method FindNotEarlier(p: AdvisePacket) returns (prev: AdvisePacket, ghost i: nat)
      requires Valid() && p.time < MAX_TIME
      ensures i <= |list| && spine[i] == prev
      ensures InsertNew(list, p.Value()) == list[..i] + [p.Value()] + list[i..]
      ensures prev == head <==> list == [] || p.time <= list[0].time
    {
      prev, i := head, 0;
      assert prev.next == spine[i + 1];
      var n := prev.next;
      while n.time < p.time
        invariant i <= |list| && spine[i] == prev && spine[i + 1] == n
        invariant forall j :: 0 <= j < i ==> list[j].time < p.time
        decreases |list| - i
      {
        prev, i := n, i + 1;
        assert prev.next == spine[i + 1];
        n := prev.next;
      }
      InsertNewAt(list, p.Value(), i);
    }

    /** AddAdvisePacket(pPacket): link the numbered packet in; the clock's event is set when it
        became the first. */
    method InsertPacket(p: AdvisePacket)
      requires Valid() && p !in spine && p !in cached && p.time < MAX_TIME
      modifies this`adviseCount, this`eventSet, this`spine, this`list, spine`next, p`next
      ensures Valid()
      ensures forall q :: q in spine ==> q in old(spine) || q == p
      ensures list == InsertNew(old(list), old(p.Value()))
      ensures eventSet == (old(eventSet) || old(list) == [] || p.time <= old(list)[0].time)
    {
      var prev, i := FindNotEarlier(p);
      LinkValue(prev, p, i);
      eventSet := eventSet || prev == head;
    }

    method NewPacket(cookie: nat, time: int, period: int, handle: int, periodic: bool) returns (p: AdvisePacket)
      requires Valid()
      modifies this`adviseCache, this`cacheCount, this`cached, cached
      ensures Valid() && p !in spine && p !in cached
      ensures fresh(p) || p in old(cached)
      ensures forall q :: q in cached ==> q in old(cached)
      ensures p.Value() == Booking(cookie, time, period, handle, periodic)
    {
      p := TakePacket();
      p.Fill(cookie, time, period, handle, periodic);
    }

    method AddAdvisePacket(time: int, period: int, handle: int, periodic: bool) returns (result: nat)
      requires Valid() && time < MAX_TIME
      modifies this`adviseCache, this`cacheCount, this`cached, this`nextCookie, this`adviseCount
      modifies this`eventSet, this`spine, this`list, Nodes()
      ensures Valid() && fresh(Nodes() - old(Nodes()))
      ensures result == nextCookie == old(nextCookie) + 1
      ensures list == InsertNew(old(list), Booking(result, time, period, handle, periodic))
      ensures eventSet == (old(eventSet) || old(list) == [] || time <= old(list)[0].time)
    {
      nextCookie := nextCookie + 1;
      result := nextCookie;
      AddNumbered(result, time, period, handle, periodic);
    }

    method AddNumbered(cookie: nat, time: int, period: int, handle: int, periodic: bool)
      requires Valid() && time < MAX_TIME
      modifies this`adviseCache, this`cacheCount, this`cached, this`adviseCount
      modifies this`eventSet, this`spine, this`list, Nodes()
      ensures Valid() && fresh(Nodes() - old(Nodes()))
      ensures list == InsertNew(old(list), Booking(cookie, time, period, handle, periodic))
      ensures eventSet == (old(eventSet) || old(list) == [] || time <= old(list)[0].time)
    {
      var p := NewPacket(cookie, time, period, handle, periodic);
      InsertPacket(p);
    }

    /** RemoveNext and Delete of the node after prev. */
    method DropAfter(prev: AdvisePacket, ghost i: nat)
      requires Valid() && i < |list| && spine[i] == prev
      modifies this`spine, this`list, this`adviseCount, this`adviseCache, this`cacheCount, this`cached
      modifies spine`next
      ensures Valid() && Nodes() <= old(Nodes()) && forall q :: q in spine ==> q in old(spine)
      ensures list == old(list)[..i] + old(list)[i + 1..]
    {
      var p := UnlinkAfter(prev, i);
      list := list[..i] + list[i + 1..];
      Discard(p);
    }

    /** IsZ: only the sentinel has no successor. */
    lemma OnlyZEnds(i: nat)
      requires Valid() && i < |spine|
      ensures spine[i].next == null <==> i == |list| + 1
    {
      if i < |spine| - 1 {
        assert spine[i].next == spine[i + 1];
      }
    }

    /** Unadvise: S_OK when the cookie was found. */
    method Unadvise(cookie: nat) returns (found: bool)
      requires Valid()
      modifies this`spine, this`list, this`adviseCount, this`adviseCache, this`cacheCount, this`cached
      modifies spine`next
      ensures Valid() && Nodes() <= old(Nodes())
      ensures found == HasCookie(old(list), cookie) && list == Remove(old(list), cookie)
    {
      var prev := head;
      ghost var i := 0;
      assert prev.next == spine[i + 1];
      var n := prev.next;
      OnlyZEnds(i + 1);
      while n.next != null
        invariant Valid() && list == old(list) && spine == old(spine) && cached == old(cached)
        invariant i <= |list| && spine[i] == prev && spine[i + 1] == n
        invariant n.next == null ==> i == |list|
        invariant forall j :: 0 <= j < i ==> list[j].cookie != cookie
        decreases |list| - i
      {
        if n.cookie == cookie {
          RemoveAt(list, cookie, i);
          DropAfter(prev, i);
          return true;
        }
        prev, i := n, i + 1;
        assert prev.next == spine[i + 1];
        n := prev.next;
        OnlyZEnds(i + 1);
      }
      RemoveAbsent(list, cookie);
      found := false;
    }

    /** The walk of ShuntHead: past every node not later than the first. */
    method FindLater() returns (prev: AdvisePacket, ghost i: nat)
      requires Valid() && list != [] && list[0].time < MAX_TIME
      ensures 1 <= i <= |list| && spine[i] == prev
      ensures InsertShunted(list[1..], list[0]) == list[1..][..i - 1] + [list[0]] + list[1..][i - 1..]
    {
      var t := head.next.time;
      prev, i := head.next, 1;
      assert prev == spine[1];
      assert prev.next == spine[i + 1];
      var n := prev.next;
      while n.time <= t
        invariant 1 <= i <= |list| && spine[i] == prev && spine[i + 1] == n
        invariant forall j :: 1 <= j < i ==> list[j].time <= t
        decreases |list| - i
      {
        prev, i := n, i + 1;
        assert prev.next == spine[i + 1];
        n := prev.next;
      }
      InsertShuntedAt(list[1..], list[0], i - 1);
    }

    /** head.m_next = pPacket->m_next; (p_prev->m_next = pPacket)->m_next = p_n. */
    method MoveFirst(prev: AdvisePacket, ghost i: nat)
      requires Valid() && 1 < i <= |list| && spine[i] == prev
      modifies this`spine, this`list, this`adviseCount, spine`next
      ensures Valid() && forall q :: q in spine ==> q in old(spine)
      ensures list == old(list)[1..][..i - 1] + [old(list)[0]] + old(list)[1..][i - 1..]
    {
      var p := UnlinkAfter(head, 0);
      list := list[1..];
      LinkValue(prev, p, i - 1);
    }

    /** ShuntHead: the first node, whose time has changed, goes to its place. */
    method ShuntHead()
      requires Valid() && list != [] && list[0].time < MAX_TIME
      modifies this`spine, this`list, this`adviseCount, spine`next
      ensures Valid() && forall q :: q in spine ==> q in old(spine)
      ensures list == InsertShunted(old(list)[1..], old(list)[0])
    {
      var prev, i := FindLater();
      assert head.next == spine[1];
      if prev != head.next {
        MoveFirst(prev, i);
      } else {
        assert list == [list[0]] + list[1..];
      }
    }

    /** One round of Advise: signal the first packet; move it on if it is periodic, drop it if
        not. */
    method DispatchFirst(t: int)
      requires Valid() && list != [] && list[0].time <= t
      requires list[0].periodic ==> t + list[0].period < MAX_TIME
      modifies this`spine, this`list, this`adviseCount, this`adviseCache, this`cacheCount, this`cached
      modifies this`signals, Chain()
      ensures Valid() && Nodes() <= old(Nodes()) && Chain() <= old(Chain())
      ensures list == Dispatch(old(list))
      ensures var a := old(list)[0]; signals == old(signals) + [Signal(a.cookie, a.time, a.handle, a.periodic)]
    {
      assert head.next == spine[1];
      var p := head.next;
      signals := signals + [Signal(p.cookie, p.time, p.handle, p.periodic)];
      if p.periodic {
        Postpone(p);
        ShuntHead();
      } else {
        DropAfter(head, 0);
      }
    }

    /** m_rtEventTime += m_rtPeriod */
    method Postpone(p: AdvisePacket)
      requires Valid() && list != [] && spine[1] == p
      modifies this`list, p`time
      ensures Valid() && list == old(list)[0 := Next(old(list)[0])]
    {
      p.time := p.time + p.period;
      list := list[0 := Next(list[0])];
    }

    /** Advise(t): dispatch everything due, return the time of the next event. */
    method Advise(t: int) returns (next: int)
      requires Valid() && PositivePeriods(list) && BelowMax(list, t)
      modifies this`spine, this`list, this`adviseCount, this`adviseCache, this`cacheCount, this`cached
      modifies this`signals, Chain()
      ensures Valid() && Nodes() <= old(Nodes())
      ensures list == AdviseAll(old(list), t).0
      ensures signals == old(signals) + AdviseAll(old(list), t).1
      ensures next == FirstTime(list)
    {
      var empty;
      empty, next := Peek();
      while t >= next && !empty
        invariant Valid() && PositivePeriods(list) && BelowMax(list, t)
        invariant Nodes() <= old(Nodes()) && Chain() <= old(Chain())
        invariant empty == (list == []) && next == FirstTime(list)
        invariant SameOutcome(old(list), old(signals), list, signals, t)
        decreases Due(list, Everyone, t)
      {
        empty, next := Round(t);
      }
    }

    method Round(t: int) returns (empty: bool, next: int)
      requires Valid() && list != [] && list[0].time <= t && PositivePeriods(list) && BelowMax(list, t)
      modifies this`spine, this`list, this`adviseCount, this`adviseCache, this`cacheCount, this`cached
      modifies this`signals, Chain()
      ensures Valid() && PositivePeriods(list) && BelowMax(list, t)
      ensures Nodes() <= old(Nodes()) && Chain() <= old(Chain())
      ensures empty == (list == []) && next == FirstTime(list)
      ensures SameOutcome(old(list), old(signals), list, signals, t)
      ensures Due(list, Everyone, t) < Due(old(list), Everyone, t)
    {
      DispatchUsesOne(list, Everyone, t);
      DispatchKeepsBound(list, t);
      DispatchContinues(list, signals, t);
      DispatchFirst(t);
      empty, next := Peek();
    }

    /** head.m_next->m_rtEventTime and head.m_next->IsZ(). */
    method Peek() returns (empty: bool, time: int)
      requires Valid()
      ensures empty == (list == []) && time == FirstTime(list)
    {
      OnlyZEnds(1);
      assert head.next == spine[1];
      time := head.next.time;
      empty := head.next.next == null;
    }
  }
}
