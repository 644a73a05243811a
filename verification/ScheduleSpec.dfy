/**
What CAMSchedule computes, over plain sequences: a list of advises in time order, the two
insertion rules, removal by cookie, and the dispatch loop of Advise.
 */
module ScheduleSpec {
  import opened MachineInts
  import opened Filters
  import opened Alignment

  datatype Booking = Booking(cookie: nat, time: int, period: int, handle: int, periodic: bool)

  /** A handle signalled by the dispatch loop, and the scheduled time it was signalled for. */
  datatype Signal = Signal(cookie: nat, time: int, handle: int, periodic: bool)

  function Fired(a: Booking): Signal {
    Signal(a.cookie, a.time, a.handle, a.periodic)
  }

  ghost predicate Sorted(l: seq<Booking>) {
    forall i, j :: 0 <= i < j < |l| ==> l[i].time <= l[j].time
  }

  ghost predicate DistinctCookies(l: seq<Booking>) {
    forall i, j :: 0 <= i < j < |l| ==> l[i].cookie != l[j].cookie
  }

  ghost predicate PositivePeriods(l: seq<Booking>) {
    forall i :: 0 <= i < |l| ==> l[i].periodic ==> l[i].period > 0
  }

  /** A new packet goes before the first one that is not earlier. */
  function InsertNew(l: seq<Booking>, a: Booking): seq<Booking> {
    if l == [] || l[0].time >= a.time then [a] + l else [l[0]] + InsertNew(l[1..], a)
  }

  /** A shunted packet goes before the first one that is later. */
  function InsertShunted(l: seq<Booking>, a: Booking): seq<Booking> {
    if l == [] || l[0].time > a.time then [a] + l else [l[0]] + InsertShunted(l[1..], a)
  }

  function Remove(l: seq<Booking>, cookie: nat): seq<Booking> {
    if l == [] then [] else if l[0].cookie == cookie then l[1..] else [l[0]] + Remove(l[1..], cookie)
  }

  ghost predicate HasCookie(l: seq<Booking>, cookie: nat) {
    exists i :: 0 <= i < |l| && l[i].cookie == cookie
  }

  function Next(a: Booking): Booking {
    a.(time := a.time + a.period)
  }

  /** The body of the dispatch loop: a periodic packet is moved on, any other dropped. */
  function Dispatch(l: seq<Booking>): seq<Booking>
    requires l != []
  {
    if l[0].periodic then InsertShunted(l[1..], Next(l[0])) else l[1..]
  }

  /** How often a packet is due by time t: a periodic one at its time and every period after. */
  function DueCount(a: Booking, t: int): nat
    requires a.periodic ==> a.period > 0
  {
    if a.time > t then 0 else if a.periodic then Quot(t - a.time, a.period) + 1 else 1
  }

  datatype Who = Everyone | Only(cookie: nat)

  predicate Selects(who: Who, cookie: nat) {
    who.Everyone? || who.cookie == cookie
  }

  /** The firings due by t, of all packets or of one. */
  function Due(l: seq<Booking>, who: Who, t: int): nat
    requires PositivePeriods(l)
  {
    if l == [] then 0 else (if Selects(who, l[0].cookie) then DueCount(l[0], t) else 0) + Due(l[1..], who, t)
  }

  function Count(s: seq<Signal>, who: Who): nat {
    if s == [] then 0 else (if Selects(who, s[0].cookie) then 1 else 0) + Count(s[1..], who)
  }

  /** A periodic packet moved on past t: to its first time after t on its own grid. */
  function Advanced(a: Booking, t: int): Booking
    requires a.periodic ==> a.period > 0
  {
    if a.periodic then a.(time := a.time + DueCount(a, t) * a.period) else a
  }

  /** What has to be left after t: one-shot packets that were due are gone, periodic ones
      have moved on, the others are untouched. */
  function Remaining(l: seq<Booking>, t: int): seq<Booking>
    requires PositivePeriods(l)
  {
    if l == [] then []
    else if l[0].time <= t && !l[0].periodic then Remaining(l[1..], t)
    else [Advanced(l[0], t)] + Remaining(l[1..], t)
  }

  // ---------------------------------------------------------------------------------
  // The insertion rules
  // ---------------------------------------------------------------------------------

  lemma {:induction false} InsertNewAt(l: seq<Booking>, a: Booking, i: nat)
    requires i <= |l|
    requires forall j :: 0 <= j < i ==> l[j].time < a.time
    requires i == |l| || l[i].time >= a.time
    ensures InsertNew(l, a) == l[..i] + [a] + l[i..]
  {
    if i > 0 {
      InsertNewAt(l[1..], a, i - 1);
      assert l == [l[0]] + l[1..];
    }
  }

  lemma {:induction false} InsertShuntedAt(l: seq<Booking>, a: Booking, i: nat)
    requires i <= |l|
    requires forall j :: 0 <= j < i ==> l[j].time <= a.time
    requires i == |l| || l[i].time > a.time
    ensures InsertShunted(l, a) == l[..i] + [a] + l[i..]
  {
    if i > 0 {
      InsertShuntedAt(l[1..], a, i - 1);
      assert l == [l[0]] + l[1..];
    }
  }

  lemma {:induction false} RemoveAt(l: seq<Booking>, cookie: nat, i: nat)
    requires i < |l| && l[i].cookie == cookie
    requires forall j :: 0 <= j < i ==> l[j].cookie != cookie
    ensures Remove(l, cookie) == l[..i] + l[i + 1..]
  {
    if i > 0 {
      RemoveAt(l[1..], cookie, i - 1);
      assert l == [l[0]] + l[1..];
    }
  }

  lemma {:induction false} RemoveAbsent(l: seq<Booking>, cookie: nat)
    requires forall j :: 0 <= j < |l| ==> l[j].cookie != cookie
    ensures Remove(l, cookie) == l
  {
    if l != [] {
      RemoveAbsent(l[1..], cookie);
    }
  }

  /** Where the shunted packet lands. */
  lemma {:induction false} ShuntPosition(l: seq<Booking>, a: Booking) returns (i: nat)
    ensures i <= |l|
    ensures forall j :: 0 <= j < i ==> l[j].time <= a.time
    ensures i == |l| || l[i].time > a.time
    ensures InsertShunted(l, a) == l[..i] + [a] + l[i..]
  {
    if l == [] || l[0].time > a.time {
      i := 0;
    } else {
      i := ShuntPosition(l[1..], a);
      i := i + 1;
      assert l == [l[0]] + l[1..];
    }
  }

  lemma ShuntKeepsOrder(l: seq<Booking>, a: Booking)
    requires Sorted(l)
    ensures Sorted(InsertShunted(l, a))
    ensures InsertShunted(l, a)[0].time == if l == [] || a.time < l[0].time then a.time else l[0].time
  {
    var i := ShuntPosition(l, a);
    var r := l[..i] + [a] + l[i..];
    forall j, k | 0 <= j < k < |r|
      ensures r[j].time <= r[k].time
    {
      if k < i {
        assert r[j] == l[j] && r[k] == l[k];
      } else if k > i {
        assert r[k] == l[k - 1];
      }
    }
  }

  // ---------------------------------------------------------------------------------
  // The dispatch loop
  // ---------------------------------------------------------------------------------

  /** Moving a periodic packet on by one period uses up one of its due firings. */
  lemma NextDue(a: Booking, t: int)
    requires a.periodic && a.period > 0 && a.time <= t
    ensures DueCount(a, t) == DueCount(Next(a), t) + 1
    ensures Advanced(Next(a), t) == Advanced(a, t)
  {
    MulDistributes(DueCount(Next(a), t), 1, a.period);
  }

  function Share(a: Booking, who: Who, t: int): nat
    requires a.periodic ==> a.period > 0
  {
    if Selects(who, a.cookie) then DueCount(a, t) else 0
  }

  function Leaves(a: Booking, t: int): seq<Booking>
    requires a.periodic ==> a.period > 0
  {
    if a.time <= t && !a.periodic then [] else [Advanced(a, t)]
  }

  lemma DueCons(a: Booking, l: seq<Booking>, who: Who, t: int)
    requires PositivePeriods(l) && (a.periodic ==> a.period > 0)
    ensures PositivePeriods([a] + l)
    ensures Due([a] + l, who, t) == Share(a, who, t) + Due(l, who, t)
    ensures Remaining([a] + l, t) == Leaves(a, t) + Remaining(l, t)
  {
    assert ([a] + l)[1..] == l;
  }

  /** A packet put into a list, wherever it lands, adds its own share. */
  lemma {:induction false} ShuntedDue(l: seq<Booking>, a: Booking, who: Who, t: int)
    requires PositivePeriods(l) && (a.periodic ==> a.period > 0)
    ensures PositivePeriods(InsertShunted(l, a))
    ensures Due(InsertShunted(l, a), who, t) == Share(a, who, t) + Due(l, who, t)
  {
    if l == [] || l[0].time > a.time {
      DueCons(a, l, who, t);
    } else {
      ShuntedDue(l[1..], a, who, t);
      DueCons(l[0], InsertShunted(l[1..], a), who, t);
    }
  }

  lemma {:induction false} ShuntedRemaining(l: seq<Booking>, a: Booking, t: int)
    requires PositivePeriods(l) && (a.periodic ==> a.period > 0)
    ensures PositivePeriods(InsertShunted(l, a))
    ensures multiset(Remaining(InsertShunted(l, a), t)) == multiset(Leaves(a, t)) + multiset(Remaining(l, t))
  {
    if l == [] || l[0].time > a.time {
      DueCons(a, l, Everyone, t);
    } else {
      var inner := InsertShunted(l[1..], a);
      ShuntedRemaining(l[1..], a, t);
      DueCons(l[0], inner, Everyone, t);
      assert Remaining(l, t) == Leaves(l[0], t) + Remaining(l[1..], t);
      MultisetUnion(Leaves(l[0], t), Remaining(inner, t));
      MultisetUnion(Leaves(l[0], t), Remaining(l[1..], t));
    }
  }

  lemma MultisetUnion(s: seq<Booking>, u: seq<Booking>)
    ensures multiset(s + u) == multiset(s) + multiset(u)
  {
  }

  /** One round of the loop uses up one due firing, of the packet at the head, and changes
      nothing about what will be left. */
  lemma DispatchUsesOne(l: seq<Booking>, who: Who, t: int)
    requires l != [] && PositivePeriods(l) && l[0].time <= t
    ensures PositivePeriods(Dispatch(l))
    ensures Due(l, who, t) == Due(Dispatch(l), who, t) + (if Selects(who, l[0].cookie) then 1 else 0)
    ensures multiset(Remaining(Dispatch(l), t)) == multiset(Remaining(l, t))
  {
    if l[0].periodic {
      var a, rest := Next(l[0]), l[1..];
      ShuntedDue(rest, a, who, t);
      ShuntedRemaining(rest, a, t);
      NextDue(l[0], t);
      DueCons(l[0], rest, who, t);
      assert l == [l[0]] + rest;
    }
  }

  /** The whole loop: what is left, and the signals in the order they were given.  It stops
      because each round uses up one due firing. */
  function AdviseAll(l: seq<Booking>, t: int): (seq<Booking>, seq<Signal>)
    requires PositivePeriods(l)
    decreases Due(l, Everyone, t)
  {
    if l == [] || t < l[0].time then
      (l, [])
    else
      DispatchUsesOne(l, Everyone, t);
      var (rest, signals) := AdviseAll(Dispatch(l), t);
      (rest, [Fired(l[0])] + signals)
  }

  // ---------------------------------------------------------------------------------
  // What one Advise call does
  // ---------------------------------------------------------------------------------

  ghost predicate TimeOrdered(s: seq<Signal>) {
    forall i, j :: 0 <= i < j < |s| ==> s[i].time <= s[j].time
  }

  lemma DispatchSorted(l: seq<Booking>)
    requires l != [] && Sorted(l) && PositivePeriods(l)
    ensures Sorted(Dispatch(l))
    ensures Dispatch(l) != [] ==> l[0].time <= Dispatch(l)[0].time
  {
    if l[0].periodic {
      ShuntKeepsOrder(l[1..], Next(l[0]));
    }
  }

  /** After Advise(t) the list is in order and everything left is later than t; the signals
      came in time order, none before the head's time and none after t. */
  lemma {:induction false} AdviseInOrder(l: seq<Booking>, t: int)
    requires Sorted(l) && PositivePeriods(l)
    ensures var (rest, signals) := AdviseAll(l, t);
            && Sorted(rest) && PositivePeriods(rest)
            && (forall i :: 0 <= i < |rest| ==> rest[i].time > t)
            && TimeOrdered(signals)
            && (forall i :: 0 <= i < |signals| ==> l != [] && l[0].time <= signals[i].time <= t)
    decreases Due(l, Everyone, t)
  {
    if l != [] && l[0].time <= t {
      DispatchUsesOne(l, Everyone, t);
      DispatchSorted(l);
      AdviseInOrder(Dispatch(l), t);
    }
  }

  lemma {:induction false} NothingDue(l: seq<Booking>, who: Who, t: int)
    requires PositivePeriods(l) && forall i :: 0 <= i < |l| ==> l[i].time > t
    ensures Due(l, who, t) == 0 && Remaining(l, t) == l
  {
    if l != [] {
      NothingDue(l[1..], who, t);
      assert l == [l[0]] + l[1..];
    }
  }

  /** Advise(t) signals every packet exactly as often as it is due, and leaves exactly the
      packets that have to be left. */
  lemma {:induction false} AdviseFiresWhatIsDue(l: seq<Booking>, who: Who, t: int)
    requires Sorted(l) && PositivePeriods(l)
    ensures Count(AdviseAll(l, t).1, who) == Due(l, who, t)
    ensures multiset(AdviseAll(l, t).0) == multiset(Remaining(l, t))
    decreases Due(l, Everyone, t)
  {
    if l == [] || t < l[0].time {
      NothingDue(l, who, t);
    } else {
      DispatchUsesOne(l, Everyone, t);
      DispatchUsesOne(l, who, t);
      DispatchSorted(l);
      AdviseFiresWhatIsDue(Dispatch(l), who, t);
    }
  }

  lemma {:induction false} DueOfOne(l: seq<Booking>, i: nat, t: int)
    requires i < |l| && DistinctCookies(l) && PositivePeriods(l)
    ensures Due(l, Only(l[i].cookie), t) == DueCount(l[i], t)
  {
    if i == 0 {
      NotDue(l[1..], l[0].cookie, t);
    } else {
      DueOfOne(l[1..], i - 1, t);
    }
  }

  lemma {:induction false} NotDue(l: seq<Booking>, cookie: nat, t: int)
    requires PositivePeriods(l) && forall i :: 0 <= i < |l| ==> l[i].cookie != cookie
    ensures Due(l, Only(cookie), t) == 0
  {
    if l != [] {
      NotDue(l[1..], cookie, t);
    }
  }

  /** The dispatch contract, packet by packet: a due one-shot is signalled once, a periodic
      packet first due at e once for each e + k * period up to t, any other not at all. */
  lemma AdviseExactly(l: seq<Booking>, i: nat, t: int)
    requires i < |l| && Sorted(l) && PositivePeriods(l) && DistinctCookies(l)
    ensures var a := l[i];
            Count(AdviseAll(l, t).1, Only(a.cookie)) ==
              if a.time > t then 0 else if a.periodic then Quot(t - a.time, a.period) + 1 else 1
  {
    AdviseFiresWhatIsDue(l, Only(l[i].cookie), t);
    DueOfOne(l, i, t);
  }

  // ---------------------------------------------------------------------------------
  // Which handle is signalled, how and for what time
  // ---------------------------------------------------------------------------------

  /** A signal that booking a asks for: its own handle, set or released as its kind demands, at its
      time or, if it is periodic, any whole number of periods later. */
  ghost predicate AskedBy(s: Signal, a: Booking) {
    && s.cookie == a.cookie && s.handle == a.handle && s.periodic == a.periodic
    && if a.periodic then s.time >= a.time && Multiple(s.time - a.time, a.period) else s.time == a.time
  }

  ghost predicate IsDue(s: Signal, l: seq<Booking>, t: int) {
    s.time <= t && exists a :: a in l && AskedBy(s, a)
  }

  /** Of what a periodic booking asks for, the first at its time and the others by its successor. */
  lemma AskedNow(s: Signal, a: Booking)
    requires a.periodic && a.period > 0
    ensures AskedBy(s, a) <==> s == Signal(a.cookie, a.time, a.handle, true) || AskedBy(s, Next(a))
    ensures !AskedBy(Signal(a.cookie, a.time, a.handle, true), Next(a))
  {
    MultipleNext(s.time - a.time, a.period);
    assert s.time - Next(a).time == s.time - a.time - a.period;
  }

  lemma MultipleNext(x: int, p: int)
    requires p > 0
    ensures Multiple(0, p) && (Multiple(x, p) <==> Multiple(x - p, p))
    ensures 0 < x && Multiple(x, p) ==> p <= x
  {
    assert 0 == Times(0, p);
    assert p == Times(1, p) && -p == Times(-1, p);
    if Multiple(x, p) {
      MultipleSum(x, -p, p);
      if 0 < x {
        MultipleBelow(0, x, p);
      }
    }
    if Multiple(x - p, p) {
      MultipleSum(x - p, p, p);
    }
  }

  lemma ShuntedHas(l: seq<Booking>, a: Booking, b: Booking)
    ensures b in InsertShunted(l, a) <==> b in l || b == a
  {
    var i := ShuntPosition(l, a);
    assert l == l[..i] + l[i..];
  }

  lemma ShuntedDistinct(l: seq<Booking>, a: Booking)
    requires DistinctCookies(l) && forall b :: b in l ==> b.cookie != a.cookie
    ensures DistinctCookies(InsertShunted(l, a))
  {
    var i := ShuntPosition(l, a);
    var r := l[..i] + [a] + l[i..];
    forall j, k | 0 <= j < k < |r|
      ensures r[j].cookie != r[k].cookie
    {
      assert r[j] == if j < i then l[j] else if j == i then a else l[j - 1];
      assert r[k] == if k < i then l[k] else if k == i then a else l[k - 1];
    }
  }

  lemma DispatchHas(l: seq<Booking>, b: Booking)
    requires l != []
    ensures b in Dispatch(l) <==> b in l[1..] || (l[0].periodic && b == Next(l[0]))
  {
    if l[0].periodic {
      ShuntedHas(l[1..], Next(l[0]), b);
    }
  }

  lemma DispatchDistinct(l: seq<Booking>)
    requires l != [] && DistinctCookies(l)
    ensures DistinctCookies(Dispatch(l)) && forall b :: b in l[1..] ==> b.cookie != l[0].cookie
  {
    if l[0].periodic {
      ShuntedDistinct(l[1..], Next(l[0]));
    }
  }

  /** One round of the loop gives one of the signals due and leaves the others due. */
  lemma DispatchDue(s: Signal, l: seq<Booking>, t: int)
    requires l != [] && l[0].time <= t && PositivePeriods(l) && DistinctCookies(l)
    ensures var first := Signal(l[0].cookie, l[0].time, l[0].handle, l[0].periodic);
            && (IsDue(s, l, t) <==> s == first || IsDue(s, Dispatch(l), t))
            && !IsDue(first, Dispatch(l), t)
  {
    var a := l[0];
    var first := Signal(a.cookie, a.time, a.handle, a.periodic);
    DispatchDistinct(l);
    if a.periodic {
      AskedNow(s, a);
      AskedNow(first, a);
      DispatchHas(l, Next(a));
    }
    forall b
      ensures b in l <==> b == a || b in l[1..]
    {
      assert l == [a] + l[1..];
    }
    forall b
      ensures b in Dispatch(l) <==> b in l[1..] || (a.periodic && b == Next(a))
    {
      DispatchHas(l, b);
    }
    if s == first {
      assert AskedBy(s, a);
    }
  }

  /** Advise(t) gives every signal that a booking asks for up to t, exactly once, and no other. */
  lemma {:induction false} SignalledOnce(l: seq<Booking>, t: int, s: Signal)
    requires PositivePeriods(l) && DistinctCookies(l) && Sorted(l)
    ensures multiset(AdviseAll(l, t).1)[s] == if IsDue(s, l, t) then 1 else 0
    decreases Due(l, Everyone, t)
  {
    if l == [] || t < l[0].time {
      assert forall a :: a in l ==> a.time > t;
    } else {
      DispatchUsesOne(l, Everyone, t);
      DispatchSorted(l);
      DispatchDistinct(l);
      SignalledOnce(Dispatch(l), t, s);
      DispatchDue(s, l, t);
      assert AdviseAll(l, t).1 == [Fired(l[0])] + AdviseAll(Dispatch(l), t).1;
    }
  }

  /** A periodic packet is left at its first time after t on its own grid. */
  lemma AdvancedIsNext(a: Booking, t: int)
    requires a.periodic && a.period > 0
    ensures Advanced(a, t) == a.(time := Advanced(a, t).time) && Multiple(Advanced(a, t).time - a.time, a.period)
    ensures Advanced(a, t).time > t
    ensures a.time <= t ==> Advanced(a, t).time <= t + a.period
    ensures a.time > t ==> Advanced(a, t) == a
  {
    assert Advanced(a, t).time - a.time == Times(DueCount(a, t), a.period);
    if a.time <= t {
      QuotRem(t - a.time, a.period);
      MulDistributes(Quot(t - a.time, a.period), 1, a.period);
    }
  }

  // ---------------------------------------------------------------------------------
  // The invariant of the list
  // ---------------------------------------------------------------------------------

  ghost predicate InRange(a: Booking, lastCookie: nat) {
    1 <= a.cookie <= lastCookie && 0 <= a.time < MAX_TIME && (a.periodic ==> a.period > 0)
  }

  /** In time order below the sentinel's time, with distinct non-zero cookies already given
      out and positive periods. */
  ghost predicate Valid(l: seq<Booking>, lastCookie: nat) {
    && Sorted(l) && DistinctCookies(l)
    && forall i :: 0 <= i < |l| ==> InRange(l[i], lastCookie)
  }

  lemma ValidInsert(l: seq<Booking>, i: nat, a: Booking, n: nat, m: nat)
    requires Valid(l, n) && i <= |l| && n <= m && InRange(a, m)
    requires forall j :: 0 <= j < i ==> l[j].time <= a.time
    requires forall j :: i <= j < |l| ==> l[j].time >= a.time
    requires forall j :: 0 <= j < |l| ==> l[j].cookie != a.cookie
    ensures Valid(l[..i] + [a] + l[i..], m)
  {
    var r := l[..i] + [a] + l[i..];
    forall j, k | 0 <= j < k < |r|
      ensures r[j].time <= r[k].time && r[j].cookie != r[k].cookie
    {
      assert r[j] == if j < i then l[j] else if j == i then a else l[j - 1];
      assert r[k] == if k < i then l[k] else if k == i then a else l[k - 1];
    }
    forall k | 0 <= k < |r|
      ensures InRange(r[k], m)
    {
      assert r[k] == if k < i then l[k] else if k == i then a else l[k - 1];
    }
  }

  lemma ValidDelete(l: seq<Booking>, i: nat, n: nat)
    requires Valid(l, n) && i < |l|
    ensures Valid(l[..i] + l[i + 1..], n)
  {
    var r := l[..i] + l[i + 1..];
    forall j, k | 0 <= j < k < |r|
      ensures r[j].time <= r[k].time && r[j].cookie != r[k].cookie
    {
      assert r[j] == if j < i then l[j] else l[j + 1];
      assert r[k] == if k < i then l[k] else l[k + 1];
    }
  }

  /** Numbering a packet with the next cookie and inserting it keeps the invariant. */
  lemma ValidInsertNew(l: seq<Booking>, a: Booking, n: nat)
    requires Valid(l, n) && InRange(a, n + 1) && a.cookie == n + 1
    ensures Valid(InsertNew(l, a), n + 1)
  {
    var i := InsertPosition(l, a);
    forall j | i <= j < |l|
      ensures l[j].time >= a.time
    {
      assert i == j || l[i].time <= l[j].time;
    }
    ValidInsert(l, i, a, n, n + 1);
  }

  lemma {:induction false} InsertPosition(l: seq<Booking>, a: Booking) returns (i: nat)
    ensures i <= |l|
    ensures forall j :: 0 <= j < i ==> l[j].time < a.time
    ensures i == |l| || l[i].time >= a.time
    ensures InsertNew(l, a) == l[..i] + [a] + l[i..]
  {
    if l == [] || l[0].time >= a.time {
      i := 0;
    } else {
      i := InsertPosition(l[1..], a);
      i := i + 1;
      assert l == [l[0]] + l[1..];
    }
  }

  lemma ValidShunt(l: seq<Booking>, a: Booking, n: nat)
    requires Valid(l, n) && InRange(a, n)
    requires forall j :: 0 <= j < |l| ==> l[j].cookie != a.cookie
    ensures Valid(InsertShunted(l, a), n)
  {
    var i := ShuntPosition(l, a);
    forall j | i <= j < |l|
      ensures l[j].time >= a.time
    {
      assert i == j || l[i].time <= l[j].time;
    }
    ValidInsert(l, i, a, n, n);
  }

  lemma ValidTail(l: seq<Booking>, n: nat)
    requires Valid(l, n) && l != []
    ensures Valid(l[1..], n)
    ensures forall j :: 0 <= j < |l| - 1 ==> l[1..][j].cookie != l[0].cookie
  {
    ValidDelete(l, 0, n);
    assert l[..0] + l[1..] == l[1..];
  }

  /** A round of the loop keeps the invariant as long as the periodic packet it moves on
      stays below the sentinel's time. */
  lemma ValidDispatch(l: seq<Booking>, t: int, n: nat)
    requires Valid(l, n) && l != [] && l[0].time <= t
    requires l[0].periodic ==> t + l[0].period < MAX_TIME
    ensures Valid(Dispatch(l), n)
  {
    ValidTail(l, n);
    if l[0].periodic {
      ValidShunt(l[1..], Next(l[0]), n);
    }
  }

  /** And only then: a packet moved on to the sentinel's time or past it breaks the invariant. */
  lemma ValidDispatchIff(l: seq<Booking>, n: nat)
    requires Valid(l, n) && l != []
    ensures Valid(Dispatch(l), n) <==> !l[0].periodic || l[0].time + l[0].period < MAX_TIME
  {
    if !l[0].periodic || l[0].time + l[0].period < MAX_TIME {
      ValidTail(l, n);
      if l[0].periodic {
        ValidShunt(l[1..], Next(l[0]), n);
      }
    } else {
      var i := ShuntPosition(l[1..], Next(l[0]));
      assert Dispatch(l)[i] == Next(l[0]);
      assert !InRange(Dispatch(l)[i], n);
    }
  }

  /** Every packet the loop may have to move on stays below the sentinel's time. */
  ghost predicate BelowMax(l: seq<Booking>, t: int) {
    forall i :: 0 <= i < |l| && l[i].periodic ==> t + l[i].period < MAX_TIME
  }

  lemma DispatchKeepsBound(l: seq<Booking>, t: int)
    requires l != [] && BelowMax(l, t)
    ensures BelowMax(Dispatch(l), t)
  {
    if l[0].periodic {
      var i := ShuntPosition(l[1..], Next(l[0]));
    }
  }

  /** The time of the first node: that of the sentinel when the list is empty. */
  function FirstTime(l: seq<Booking>): int {
    if l == [] then MAX_TIME else l[0].time
  }

  /** What Advise(t) returns is the least time left, and later than t. */
  lemma NextIsLater(l: seq<Booking>, t: int)
    requires Sorted(l) && PositivePeriods(l) && t < MAX_TIME
    ensures FirstTime(AdviseAll(l, t).0) > t
    ensures forall i :: 0 <= i < |AdviseAll(l, t).0| ==> FirstTime(AdviseAll(l, t).0) <= AdviseAll(l, t).0[i].time
  {
    AdviseInOrder(l, t);
  }

  /** Part way through the loop: what was signalled, followed by what the rest of the list
      has still to signal, is the same as at the start. */
  ghost predicate SameOutcome(l: seq<Booking>, before: seq<Signal>, m: seq<Booking>, signals: seq<Signal>, t: int)
    requires PositivePeriods(l) && PositivePeriods(m)
  {
    && AdviseAll(l, t).0 == AdviseAll(m, t).0
    && before + AdviseAll(l, t).1 == signals + AdviseAll(m, t).1
  }

  lemma DispatchContinues(l: seq<Booking>, before: seq<Signal>, t: int)
    requires l != [] && l[0].time <= t && PositivePeriods(l)
    ensures PositivePeriods(Dispatch(l)) && SameOutcome(l, before, Dispatch(l), before + [Fired(l[0])], t)
  {
    DispatchUsesOne(l, Everyone, t);
    var later := AdviseAll(Dispatch(l), t).1;
    assert before + ([Fired(l[0])] + later) == before + [Fired(l[0])] + later;
  }

  // ---------------------------------------------------------------------------------
  // Every run
  // ---------------------------------------------------------------------------------

  datatype Op =
    | Add(time: int, period: int, handle: int, periodic: bool)
    | Unadvise(cookie: nat)
    | AdviseUntil(t: int)

  datatype State = State(list: seq<Booking>, lastCookie: nat)

  /** What the clock demands of its callers: positive times and periods, and no periodic
      packet pushed to the sentinel's time. */
  ghost predicate Allowed(s: State, op: Op) {
    match op
    case Add(time, period, handle, periodic) => 0 <= time < MAX_TIME && (periodic ==> period > 0)
    case Unadvise(cookie) => true
    case AdviseUntil(t) => BelowMax(s.list, t)
  }

  ghost function Step(s: State, op: Op): State
    requires Valid(s.list, s.lastCookie)
  {
    match op
    case Add(time, period, handle, periodic) =>
      State(InsertNew(s.list, Booking(s.lastCookie + 1, time, period, handle, periodic)), s.lastCookie + 1)
    case Unadvise(cookie) => s.(list := Remove(s.list, cookie))
    case AdviseUntil(t) => s.(list := AdviseAll(s.list, t).0)
  }

  lemma ValidRemove(l: seq<Booking>, cookie: nat, n: nat)
    requires Valid(l, n)
    ensures Valid(Remove(l, cookie), n) && !HasCookie(Remove(l, cookie), cookie)
  {
    if i: nat :| i < |l| && l[i].cookie == cookie {
      RemoveAt(l, cookie, i);
      ValidDelete(l, i, n);
    } else {
      RemoveAbsent(l, cookie);
    }
  }

  lemma {:induction false} ValidAdvise(l: seq<Booking>, t: int, n: nat)
    requires Valid(l, n) && BelowMax(l, t)
    ensures Valid(AdviseAll(l, t).0, n)
    decreases Due(l, Everyone, t)
  {
    if l != [] && l[0].time <= t {
      DispatchUsesOne(l, Everyone, t);
      ValidDispatch(l, t, n);
      DispatchKeepsBound(l, t);
      ValidAdvise(Dispatch(l), t, n);
    }
  }

  lemma StepKeepsValid(s: State, op: Op)
    requires Valid(s.list, s.lastCookie) && Allowed(s, op)
    ensures Valid(Step(s, op).list, Step(s, op).lastCookie)
  {
    match op
    case Add(time, period, handle, periodic) =>
      ValidInsertNew(s.list, Booking(s.lastCookie + 1, time, period, handle, periodic), s.lastCookie);
    case Unadvise(cookie) => ValidRemove(s.list, cookie, s.lastCookie);
    case AdviseUntil(t) => ValidAdvise(s.list, t, s.lastCookie);
  }

  /** A run from the empty schedule through allowed calls. */
  ghost predicate IsRun(states: seq<State>, ops: seq<Op>) {
    && |states| == |ops| + 1 && states[0] == State([], 0)
    && forall i :: 0 <= i < |ops| ==>
         Valid(states[i].list, states[i].lastCookie) ==>
           Allowed(states[i], ops[i]) && states[i + 1] == Step(states[i], ops[i])
  }

  lemma {:induction false} RunsKeepValid(states: seq<State>, ops: seq<Op>, i: nat)
    requires IsRun(states, ops) && i < |states|
    ensures Valid(states[i].list, states[i].lastCookie)
  {
    if i > 0 {
      RunsKeepValid(states, ops, i - 1);
      StepKeepsValid(states[i - 1], ops[i - 1]);
    }
  }
}
