/**
What each locked section of COutputQueue, in queued mode, does to the fields the clients and
the worker thread share.
 */
module OutputQueueSpec {
  import opened Options

  /** What can be on the list.  Samples, segments and ends of stream are numbered in the order
      they were accepted.  A segment stands for NEW_SEGMENT and the packet behind it, which are
      queued and taken off together; Send and Reset carry no data. */
  datatype Item = Data(n: nat) | Segment(n: nat) | EndOfStream(n: nat) | Send | Reset

  datatype Config = Config(size: nat, exact: bool, flushOpt: bool)

  /** hr is m_hr: 0 for S_OK, 1 for S_FALSE, anything else as the pin returned it. */
  datatype Queue = Queue(
    list: seq<Item>, batch: seq<Item>, waiting: nat, semaphore: nat,
    flushing: bool, flushed: bool, terminate: bool, hr: int, flushComplete: bool)

  /** What the worker leaves its locked section with. */
  datatype Outcome = Wait | Go(control: Option<Item>) | Stop

  // ---------------------------------------------------------------------------------
  // Clients
  // ---------------------------------------------------------------------------------

  function Notified(q: Queue): Queue {
    q.(semaphore := q.semaphore + q.waiting, waiting := 0)
  }

  /** m_List->GetCount(): a segment takes two places. */
  function ListCount(l: seq<Item>): nat {
    if l == [] then 0 else (if l[|l| - 1].Segment? then 2 else 1) + ListCount(l[..|l| - 1])
  }

  function ReceiveStep(c: Config, q: Queue, samples: seq<Item>): Queue {
    if q.hr != 0 then q
    else
      var r := q.(flushed := false, list := q.list + samples);
      if !c.exact || |q.batch| + ListCount(r.list) >= c.size then Notified(r) else r
  }

  function QueueStep(q: Queue, item: Item): Queue {
    Notified(q.(list := q.list + [item]))
  }

  function EosStep(q: Queue, item: Item): Queue {
    if q.hr != 0 then q else QueueStep(q.(flushed := false), item)
  }

  /** BeginFlush's locked section, and whether the flush goes on to the worker and downstream. */
  function BeginFlushStep(c: Config, q: Queue): (Queue, bool) {
    var r := q.(flushing := true, hr := if q.hr == 0 then 1 else q.hr);
    if q.flushed && c.flushOpt then (r, false) else (Notified(r.(flushComplete := false)), true)
  }

  function TerminateStep(q: Queue): Queue {
    Notified(q.(terminate := true, hr := 1))
  }

  // ---------------------------------------------------------------------------------
  // The worker
  // ---------------------------------------------------------------------------------

  /** Items are moved to the batch until it is full, a control item is met or the list ends. */
  function Gather(c: Config, list: seq<Item>, batch: seq<Item>): (seq<Item>, seq<Item>, Outcome) {
    if list == [] then ([], batch, if c.exact || batch == [] then Wait else Go(None))
    else match list[0]
      case Data(_) =>
        if |batch| + 1 == c.size then (list[1..], batch + [list[0]], Go(None))
        else Gather(c, list[1..], batch + [list[0]])
      case Send => if batch == [] then Gather(c, list[1..], batch) else (list[1..], batch, Go(None))
      case _ => (list[1..], batch, Go(Some(list[0])))
  }

  /** The worker's locked section.  On Go the batch is what it has to send. */
  function WorkerStep(c: Config, q: Queue): (Queue, Outcome) {
    if q.terminate then (q.(list := [], batch := []), Stop)
    else
      var p := if q.flushing then q.(list := [], batch := [], flushComplete := true) else q;
      var (list, batch, outcome) := Gather(c, p.list, p.batch);
      (p.(list := list, batch := batch, waiting := p.waiting + if outcome.Wait? then 1 else 0), outcome)
  }

  // ---------------------------------------------------------------------------------
  // Gathering
  // ---------------------------------------------------------------------------------

  predicate Carries(i: Item) {
    i.Data? || i.Segment? || i.EndOfStream?
  }

  /** The items that have to go downstream. */
  function Payload(l: seq<Item>): seq<Item> {
    if l == [] then [] else Payload(l[..|l| - 1]) + (if Carries(l[|l| - 1]) then [l[|l| - 1]] else [])
  }

  function DataOf(l: seq<Item>): seq<Item> {
    if l == [] then [] else DataOf(l[..|l| - 1]) + (if l[|l| - 1].Data? then [l[|l| - 1]] else [])
  }

  function ControlPayload(o: Option<Item>): seq<Item> {
    if o.Some? then Payload([o.value]) else []
  }

  ghost predicate AllData(l: seq<Item>) {
    forall i :: 0 <= i < |l| ==> l[i].Data?
  }

  lemma {:induction false} PayloadConcat(a: seq<Item>, b: seq<Item>)
    ensures Payload(a + b) == Payload(a) + Payload(b)
  {
    if b == [] {
      assert a + b == a;
    } else {
      assert (a + b)[..|a + b| - 1] == a + b[..|b| - 1];
      PayloadConcat(a, b[..|b| - 1]);
    }
  }

  lemma {:induction false} DataConcat(a: seq<Item>, b: seq<Item>)
    ensures DataOf(a + b) == DataOf(a) + DataOf(b)
  {
    if b == [] {
      assert a + b == a;
    } else {
      assert (a + b)[..|a + b| - 1] == a + b[..|b| - 1];
      DataConcat(a, b[..|b| - 1]);
    }
  }

  lemma {:induction false} AllDataIsPayload(l: seq<Item>)
    requires AllData(l)
    ensures Payload(l) == l && DataOf(l) == l && ListCount(l) == |l|
  {
    if l != [] {
      AllDataIsPayload(l[..|l| - 1]);
      assert l == l[..|l| - 1] + [l[|l| - 1]];
    }
  }

  lemma PayloadHead(l: seq<Item>)
    requires l != []
    ensures Payload(l) == (if Carries(l[0]) then [l[0]] else []) + Payload(l[1..])
  {
    PayloadConcat([l[0]], l[1..]);
    assert l == [l[0]] + l[1..];
    PayloadOne(l[0]);
  }

  lemma PayloadOne(i: Item)
    ensures Payload([i]) == if Carries(i) then [i] else []
  {
  }

  lemma Assoc(a: seq<Item>, b: seq<Item>, c: seq<Item>)
    ensures a + (b + c) == a + b + c
  {
  }

  function Found(o: Outcome): seq<Item> {
    if o.Go? then ControlPayload(o.control) else []
  }

  /** Gathering loses nothing and changes no order: what is batched, the control item found and
      what is left on the list are, in this order, what there was. */
  lemma {:induction false} GatherKeeps(c: Config, list: seq<Item>, batch: seq<Item>)
    requires |batch| < c.size && AllData(batch)
    ensures var (l, b, o) := Gather(c, list, batch);
            b + Found(o) + Payload(l) == batch + Payload(list)
    decreases |list|
  {
    if list == [] {
      assert batch + [] + [] == batch + [];
    } else {
      PayloadHead(list);
      match list[0]
      case Data(_) =>
        Assoc(batch, [list[0]], Payload(list[1..]));
        var more := batch + [list[0]];
        if |batch| + 1 != c.size {
          GatherKeeps(c, list[1..], more);
        } else {
          assert more + [] == more;
        }
      case Send =>
        if batch == [] {
          GatherKeeps(c, list[1..], batch);
        } else {
          assert batch + [] == batch;
        }
      case _ =>
        PayloadOne(list[0]);
        Assoc(batch, Payload([list[0]]), Payload(list[1..]));
    }
  }

  /** The batch holds samples only and is never overfilled; the worker waits only with an empty list
      and nothing to send. */
  lemma {:induction false} GatherFits(c: Config, list: seq<Item>, batch: seq<Item>)
    requires |batch| < c.size && AllData(batch)
    ensures var (l, b, o) := Gather(c, list, batch);
            && AllData(b) && |b| <= c.size && !o.Stop?
            && (o.Wait? ==> l == [] && |b| < c.size && (b == [] || c.exact))
            && (o.Go? && o.control.Some? ==> !o.control.value.Data? && !o.control.value.Send?)
    decreases |list|
  {
    if list != [] {
      match list[0]
      case Data(_) =>
        if |batch| + 1 != c.size {
          GatherFits(c, list[1..], batch + [list[0]]);
        }
      case Send =>
        if batch == [] {
          GatherFits(c, list[1..], batch);
        }
      case _ =>
    }
  }

  /** A short run of samples only fills the batch part way. */
  lemma {:induction false} GatherShort(c: Config, list: seq<Item>, batch: seq<Item>)
    requires c.exact && AllData(list) && |batch| + |list| < c.size
    ensures Gather(c, list, batch) == ([], batch + list, Wait)
    decreases |list|
  {
    if list != [] {
      GatherShort(c, list[1..], batch + [list[0]]);
      assert batch + [list[0]] + list[1..] == batch + list;
    } else {
      assert batch + list == batch;
    }
  }

  /** Just enough samples make a full batch. */
  lemma {:induction false} GatherFull(c: Config, list: seq<Item>, batch: seq<Item>)
    requires list != [] && AllData(list) && |batch| + |list| == c.size
    ensures Gather(c, list, batch) == ([], batch + list, Go(None))
    decreases |list|
  {
    assert batch + [list[0]] + list[1..] == batch + list;
    if |list| > 1 {
      GatherFull(c, list[1..], batch + [list[0]]);
    } else {
      assert list[1..] == [] && batch + [list[0]] == batch + list;
    }
  }

  /** What stays in the batch once the worker, left alone, has sent all it is going to send. */
  function Remains(c: Config, list: seq<Item>, batch: seq<Item>): seq<Item>
    requires |batch| < c.size && AllData(batch)
    decreases |list| + |batch|
  {
    GatherFits(c, list, batch);
    GatherShrinks(c, list, batch);
    var (l, b, o) := Gather(c, list, batch);
    if o.Wait? then b else Remains(c, l, [])
  }

  lemma {:induction false} GatherShrinks(c: Config, list: seq<Item>, batch: seq<Item>)
    requires |batch| < c.size
    ensures Gather(c, list, batch).2.Wait? || |Gather(c, list, batch).0| < |list| + |batch|
    decreases |list|
  {
    if list != [] && list[0].Data? && |batch| + 1 != c.size {
      GatherShrinks(c, list[1..], batch + [list[0]]);
    } else if list != [] && list[0].Send? && batch == [] {
      GatherShrinks(c, list[1..], batch);
    }
  }

  lemma RemainsAfterGather(c: Config, list: seq<Item>, batch: seq<Item>, list': seq<Item>, batch': seq<Item>)
    requires |batch| < c.size && AllData(batch) && |batch'| < c.size && AllData(batch')
    requires Gather(c, list, batch) == Gather(c, list', batch')
    ensures Remains(c, list, batch) == Remains(c, list', batch')
  {
  }

  /** SendAnyway does what it says: everything queued before it is sent, so what is kept back for a
      full batch depends on what comes after it alone.  A segment, an end of stream and a reset do
      the same. */
  lemma {:induction false} SendAnywaySends(c: Config, before: seq<Item>, item: Item, later: seq<Item>, batch: seq<Item>)
    requires |batch| < c.size && AllData(batch) && !item.Data?
    ensures Remains(c, before + [item] + later, batch) == Remains(c, later, [])
    decreases |before|
  {
    var list := before + [item] + later;
    if before == [] {
      assert list[0] == item && list[1..] == later;
      if item.Send? && batch == [] {
        RemainsAfterGather(c, list, batch, later, []);
      }
    } else {
      var rest := before[1..];
      assert list[0] == before[0] && list[1..] == rest + [item] + later;
      if before[0].Data? && |batch| + 1 != c.size {
        SendAnywaySends(c, rest, item, later, batch + [before[0]]);
        RemainsAfterGather(c, list, batch, list[1..], batch + [before[0]]);
      } else if before[0].Send? && batch == [] {
        SendAnywaySends(c, rest, item, later, batch);
        RemainsAfterGather(c, list, batch, list[1..], batch);
      } else {
        SendAnywaySends(c, rest, item, later, []);
      }
    }
  }

  /** What the worker leaves its locked section with, unless it has to stop. */
  ghost predicate Collected(c: Config, r: Queue, o: Outcome) {
    && AllData(r.batch) && |r.batch| <= c.size && !o.Stop?
    && (o.Wait? ==> r.list == [] && |r.batch| < c.size && (r.batch == [] || c.exact))
    && (o.Go? && o.control.Some? ==> !o.control.value.Data? && !o.control.value.Send?)
  }

  lemma WorkerStepKeeps(c: Config, q: Queue)
    requires |q.batch| < c.size && AllData(q.batch) && !q.terminate
    ensures var (r, o) := WorkerStep(c, q);
            && Collected(c, r, o)
            && (q.flushing ==> r.list == [] && r.batch == [] && o.Wait?)
            && (!q.flushing ==>
                  r.batch + Found(o) + Payload(r.list) == q.batch + Payload(q.list))
  {
    if !q.flushing {
      GatherKeeps(c, q.list, q.batch);
      GatherFits(c, q.list, q.batch);
    }
  }

  // ---------------------------------------------------------------------------------
  // No lost wake-up
  // ---------------------------------------------------------------------------------

  /** Too little for an exact batch, and nothing but samples. */
  ghost predicate Short(c: Config, q: Queue) {
    c.exact && AllData(q.list) && |q.batch| + |q.list| < c.size
  }

  /** The worker counts as waiting, or the semaphore is up, exactly while it is about to wait or
      waiting (parked); and it counts as waiting only while there is nothing for it to do.
      `unanswered` is a flush that was passed on to it, that it has not seen and that is not over. */
  ghost predicate Alert(c: Config, q: Queue, parked: bool, unanswered: bool) {
    && q.waiting + q.semaphore == (if parked then 1 else 0)
    && (unanswered ==> q.flushing)
    && (q.waiting > 0 ==> !q.terminate && !unanswered && (q.list == [] || Short(c, q)))
  }

  lemma ReceiveKeepsAlert(c: Config, q: Queue, samples: seq<Item>, parked: bool, unanswered: bool)
    requires Alert(c, q, parked, unanswered) && AllData(samples)
    ensures Alert(c, ReceiveStep(c, q, samples), parked, unanswered)
  {
    var r := ReceiveStep(c, q, samples);
    if q.hr == 0 && r.waiting > 0 {
      assert AllData(r.list);
      AllDataIsPayload(r.list);
    }
  }

  /** A worker that counts as waiting is let through exactly if there is now enough for it. */
  lemma NoticeCount(c: Config, q: Queue, samples: seq<Item>, parked: bool, unanswered: bool)
    requires Alert(c, q, parked, unanswered) && AllData(samples) && q.hr == 0
    ensures q.waiting > 0 ==>
      var r := ReceiveStep(c, q, samples);
      r.semaphore == 1 <==> !c.exact || |q.batch| + |q.list| + |samples| >= c.size
  {
    if q.waiting > 0 {
      assert AllData(q.list + samples);
      AllDataIsPayload(q.list + samples);
    }
  }

  /** After a control item, an end of stream, a flush that is passed on or a termination a parked
      worker is let through. */
  lemma NotifyKeepsAlert(c: Config, q: Queue, item: Item, parked: bool, unanswered: bool)
    requires Alert(c, q, parked, unanswered)
    ensures var r := QueueStep(q, item);
            Alert(c, r, parked, unanswered) && (parked ==> r.semaphore == 1)
    ensures var r := EosStep(q, item);
            Alert(c, r, parked, unanswered) && (parked && q.hr == 0 ==> r.semaphore == 1)
    ensures var r := TerminateStep(q);
            Alert(c, r, parked, unanswered) && (parked ==> r.semaphore == 1)
  {
  }

  lemma FlushKeepsAlert(c: Config, q: Queue, parked: bool, unanswered: bool)
    requires Alert(c, q, parked, unanswered)
    ensures var (r, passedOn) := BeginFlushStep(c, q);
            && Alert(c, r, parked, unanswered || passedOn) && r.flushing && r.hr != 0
            && (parked && passedOn ==> r.semaphore == 1)
  {
  }

  lemma WorkerKeepsAlert(c: Config, q: Queue, unanswered: bool)
    requires Alert(c, q, false, unanswered) && |q.batch| < c.size && AllData(q.batch)
    ensures var (r, o) := WorkerStep(c, q);
            Alert(c, if o.Go? then r.(batch := []) else r, o.Wait?, unanswered && (o.Stop? || !q.flushing))
  {
    if !q.terminate {
      WorkerStepKeeps(c, q);
    }
  }

  /** Whatever is skipped when the worker is not notified, it would have gone back to sleep: run
      in that state it sends nothing and waits. */
  lemma ParkedHasNothingToDo(c: Config, q: Queue, parked: bool, unanswered: bool)
    requires Alert(c, q, parked, unanswered) && q.waiting > 0 && (q.batch == [] || c.exact)
    ensures WorkerStep(c, q).1 == Wait
  {
    if !q.flushing && q.list != [] {
      GatherShort(c, q.list, q.batch);
    }
  }
}
