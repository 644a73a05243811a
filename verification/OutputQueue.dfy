/**
COutputQueue in queued mode with its fields and its batch array: each method is one locked
section, proved to do to the shared state what OutputQueueSpec says.
 */
module OutputQueue {
  import opened Options
  import opened OutputQueueSpec

  class Queuer {
    const c: Config
    const samples: array<Item>       // m_ppSamples
    var batched: nat                 // m_nBatched
    var list: seq<Item>
    var waiting: nat
    var semaphore: nat
    var flushing: bool
    var flushed: bool
    var terminate: bool
    var hr: int
    var flushComplete: bool
    var released: seq<Item>          // the samples Release() was called on
    ghost var parked: bool           // the worker is about to wait or waiting
    ghost var unanswered: bool       // a flush was passed on to it and not seen by it

    /** The batch holds samples only and is not full, and no wake-up is owed to the worker. */
    ghost predicate Valid()
      reads this, samples
    {
      && samples.Length == c.size && batched < c.size && AllData(samples[..batched])
      && (batched != 0 ==> c.exact)
      && Alert(c, View(), parked, unanswered)
    }

    ghost function View(): Queue
      reads this, samples
      requires batched <= samples.Length
    {
      Queue(list, samples[..batched], waiting, semaphore, flushing, flushed, terminate, hr, flushComplete)
    }

    constructor (size: nat, exact: bool, flushOpt: bool)
      requires size > 0
      ensures Valid() && fresh(samples) && c == Config(size, exact && size > 1, flushOpt) && released == []
      ensures View() == Queue([], [], 0, 0, false, true, false, 0, false) && !parked && !unanswered
    {
      c := Config(size, exact && size > 1, flushOpt);
      samples := new Item[size](_ => Send);
      batched, list, waiting, semaphore := 0, [], 0, 0;
      flushing, flushed, terminate, hr, flushComplete, released := false, true, false, 0, false, [];
      parked, unanswered := false, false;
    }

    method NotifyThread()
      requires batched <= samples.Length
      modifies this`waiting, this`semaphore
      ensures View() == Notified(old(View()))
    {
      if waiting != 0 {
        semaphore := semaphore + waiting;
        waiting := 0;
      }
    }

    /** Samples are queued, or all released when the sticky result is not S_OK. */
    method ReceiveMultiple(given: seq<Item>) returns (result: int, processed: nat)
      requires Valid() && AllData(given)
      modifies this`list, this`waiting, this`semaphore, this`flushed, this`released
      ensures Valid() && View() == ReceiveStep(c, old(View()), given)
      ensures result == old(hr) && processed == if result == 0 then |given| else 0
      ensures released == old(released) + if result == 0 then [] else given
      ensures result == 0 ==> list == old(list) + given && !flushed
      ensures result == 0 && old(waiting) > 0 ==>
        (semaphore == 1 <==> !c.exact || batched + |old(list)| + |given| >= c.size)
      ensures result != 0 ==> View() == old(View())
    {
      ReceiveKeepsAlert(c, View(), given, parked, unanswered);
      if hr != 0 {
        ReleaseAll(given);
        return hr, 0;
      }
      NoticeCount(c, View(), given, parked, unanswered);
      QueueAll(given);
      return 0, |given|;
    }

    method ReleaseAll(given: seq<Item>)
      modifies this`released
      ensures released == old(released) + given
    {
      for i := 0 to |given|
        invariant released == old(released) + given[..i]
      {
        released := released + [given[i]];
      }
      assert given[..|given|] == given;
    }

    method QueueAll(given: seq<Item>)
      requires hr == 0 && batched <= samples.Length
      modifies this`list, this`waiting, this`semaphore, this`flushed
      ensures View() == ReceiveStep(c, old(View()), given)
    {
      flushed := false;
      for i := 0 to |given|
        invariant waiting == old(waiting) && semaphore == old(semaphore) && !flushed
        invariant list == old(list) + given[..i]
      {
        list := list + [given[i]];
      }
      assert given[..|given|] == given;
      if !c.exact || batched + ListCount(list) >= c.size {
        NotifyThread();
      }
    }

    /** NewSegment, SendAnyway and Reset: the item goes behind everything there is, and a parked worker
        is let through to it. */
    method QueueItem(item: Item)
      requires Valid()
      modifies this`list, this`waiting, this`semaphore
      ensures Valid() && list == old(list) + [item]
      ensures waiting == 0 && (parked ==> semaphore == 1)
      ensures View() == QueueStep(old(View()), item)
    {
      NotifyKeepsAlert(c, View(), item, parked, unanswered);
      list := list + [item];
      NotifyThread();
    }

    /** An end of stream, unless the sticky result is not S_OK. */
    method Eos(item: Item)
      requires Valid()
      modifies this`list, this`waiting, this`semaphore, this`flushed
      ensures Valid() && list == (if hr == 0 then old(list) + [item] else old(list))
      ensures hr == 0 ==> waiting == 0 && !flushed && (parked ==> semaphore == 1)
      ensures hr != 0 ==> View() == old(View())
      ensures View() == EosStep(old(View()), item)
    {
      if hr == 0 {
        NotifyKeepsAlert(c, View(), item, parked, unanswered);
        flushed := false;
        QueueItem(item);
      }
    }

    /** From now on samples are turned away; a flush that is passed on is put to the worker, which is
        let through if it is parked. */
    method BeginFlush() returns (passOn: bool)
      requires Valid()
      modifies this`flushing, this`hr, this`flushComplete, this`waiting, this`semaphore, this`unanswered
      ensures Valid() && flushing && hr == (if old(hr) == 0 then 1 else old(hr))
      ensures !passOn <==> flushed && c.flushOpt
      ensures passOn ==> unanswered && !flushComplete && waiting == 0 && (parked ==> semaphore == 1)
      ensures unanswered == (old(unanswered) || passOn)
      ensures (View(), passOn) == BeginFlushStep(c, old(View()))
    {
      FlushKeepsAlert(c, View(), parked, unanswered);
      passOn := StartFlush();
      unanswered := unanswered || passOn;
    }

    method StartFlush() returns (passOn: bool)
      requires batched <= samples.Length
      modifies this`flushing, this`hr, this`flushComplete, this`waiting, this`semaphore
      ensures (View(), passOn) == BeginFlushStep(c, old(View()))
    {
      flushing := true;
      if hr == 0 {
        hr := 1;
      }
      if flushed && c.flushOpt {
        return false;
      }
      flushComplete := false;
      NotifyThread();
      passOn := true;
    }

    /** The worker is asked to end, and let through if it is parked. */
    method Terminate()
      requires Valid()
      modifies this`terminate, this`hr, this`waiting, this`semaphore
      ensures Valid() && terminate && hr == 1 && waiting == 0 && (parked ==> semaphore == 1)
      ensures View() == TerminateStep(old(View()))
    {
      NotifyKeepsAlert(c, View(), Send, parked, unanswered);
      terminate, hr := true, 1;
      NotifyThread();
    }

    /** The worker's wait returns. */
    method Wake()
      requires Valid() && semaphore > 0
      modifies this`semaphore, this`parked
      ensures Valid() && !parked && old(parked) && semaphore == 0 && waiting == 0
    {
      semaphore := semaphore - 1;
      parked := false;
    }

    /** Every sample on the list and in the batch is released. */
    method FreeSamples()
      requires batched <= samples.Length && AllData(samples[..batched])
      modifies this`list, this`batched, this`released
      ensures batched == 0 && View() == old(View()).(list := [], batch := [])
      ensures released == old(released) + DataOf(old(list)) + old(samples[..batched])
    {
      FreeList();
      FreeBatch();
    }

    method FreeList()
      modifies this`list, this`released
      ensures list == [] && released == old(released) + DataOf(old(list))
    {
      ghost var done: seq<Item> := [];
      while list != []
        invariant done + list == old(list) && released == old(released) + DataOf(done)
      {
        var item := list[0];
        DataConcat(done, [item]);
        done := done + [item];
        list := list[1..];
        if item.Data? {
          released := released + [item];
        }
      }
      assert done == old(list);
    }

    method FreeBatch()
      requires batched <= samples.Length
      modifies this`batched, this`released
      ensures batched == 0 && released == old(released) + old(samples[..batched])
    {
      for i := 0 to batched
        invariant batched == old(batched) && released == old(released) + samples[..i]
      {
        released := released + [samples[i]];
      }
      batched := 0;
    }

    /** The inner loop of ThreadProc once no control action is pending. */
    method FillBatch() returns (outcome: Outcome)
      requires samples.Length == c.size && batched < c.size
      modifies this`list, this`batched, samples
      ensures batched <= c.size == samples.Length
      ensures (list, samples[..batched], outcome) == Gather(c, old(list), old(samples[..batched]))
    {
      while true
        invariant samples.Length == c.size && batched < c.size
        invariant Gather(c, list, samples[..batched]) == Gather(c, old(list), old(samples[..batched]))
        decreases |list|
      {
        if list == [] {
          return if c.exact || batched == 0 then Wait else Go(None);
        }
        var item := list[0];
        list := list[1..];
        if item.Data? {
          ghost var before := samples[..batched];
          samples[batched] := item;
          batched := batched + 1;
          assert samples[..batched] == before + [item];
          if batched == c.size {
            return Go(None);
          }
        } else if item.Send? {
          if batched != 0 {
            return Go(None);
          }
        } else {
          return Go(Some(item));
        }
      }
    }

    /** The locked section of ThreadProc.  It parks only with nothing to do, and answers a flush by
        leaving nothing queued; on Go the first `number` entries of the array are to be
        sent. */
    method Collect() returns (outcome: Outcome, number: nat)
      requires Valid() && !parked
      modifies this`list, this`batched, this`waiting, this`flushComplete, this`released, samples
      modifies this`parked, this`unanswered
      ensures Valid() && number <= samples.Length && (parked <==> outcome == Wait)
      ensures outcome != Stop && old(flushing) ==> list == [] && batched == 0 && flushComplete && !unanswered
      ensures var (q, o) := WorkerStep(c, old(View()));
              && outcome == o && View() == (if o.Go? then q.(batch := []) else q)
              && (o.Go? ==> samples[..number] == q.batch)
      ensures old(terminate) || old(flushing) ==> released == old(released) + DataOf(old(list)) + old(samples[..batched])
      ensures !old(terminate) && !old(flushing) ==> released == old(released)
    {
      WorkerKeepsAlert(c, View(), unanswered);
      if !terminate {
        WorkerStepKeeps(c, View());
      }
      ghost var was := flushing;
      outcome, number := Gathering();
      parked := outcome.Wait?;
      unanswered := unanswered && (outcome.Stop? || !was);
    }

    method Gathering() returns (outcome: Outcome, number: nat)
      requires samples.Length == c.size && batched < c.size && AllData(samples[..batched])
      modifies this`list, this`batched, this`waiting, this`flushComplete, this`released, samples
      ensures number <= samples.Length && batched <= samples.Length
      ensures var (q, o) := WorkerStep(c, old(View()));
              && outcome == o && View() == (if o.Go? then q.(batch := []) else q)
              && (o.Go? ==> samples[..number] == q.batch)
      ensures old(terminate) || old(flushing) ==> released == old(released) + DataOf(old(list)) + old(samples[..batched])
      ensures !old(terminate) && !old(flushing) ==> released == old(released)
    {
      number := 0;
      if terminate {
        FreeSamples();
        return Stop, 0;
      }
      if flushing {
        FreeSamples();
        flushComplete := true;
      }
      WorkerStepKeeps(c, old(View()));
      outcome, number := FillAndLeave();
    }

    method FillAndLeave() returns (outcome: Outcome, number: nat)
      requires samples.Length == c.size && batched < c.size
      modifies this`list, this`batched, this`waiting, samples
      ensures number <= samples.Length && batched <= samples.Length
      ensures var (l, b, o) := Gather(c, old(list), old(samples[..batched]));
              && list == l && outcome == o && waiting == old(waiting) + (if o.Wait? then 1 else 0)
              && (if o.Wait? then samples[..batched] == b else batched == 0 && samples[..number] == b)
    {
      number := 0;
      outcome := FillBatch();
      if outcome.Wait? {
        waiting := waiting + 1;
      } else {
        number := batched;
        batched := 0;
      }
    }
  }
}
