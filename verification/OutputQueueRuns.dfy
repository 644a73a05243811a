/**
COutputQueue in queued mode, clients against the worker thread.  A step is one locked section,
one unlocked access of the worker to m_hr, one call downstream or one wait.
 */
module OutputQueueRuns {
  import opened Options
  import opened OutputQueueSpec

  /** The worker: Chosen has left the lock with samples to send, Calling has seen m_hr == S_OK,
      Returned has the pin's result in hand, Releasing has stored it (or made no call),
      Controlling has dealt with the samples, Ending is about to send the end of stream. */
  datatype Pc =
    | Top | Waiting | Ended
    | Chosen(send: seq<Item>, control: Option<Item>)
    | Calling(send: seq<Item>, control: Option<Item>)
    | Returned(send: seq<Item>, control: Option<Item>, result: int)
    | Releasing(send: seq<Item>, control: Option<Item>)
    | Controlling(control: Option<Item>)
    | Ending(item: Item)

  datatype Sys = Sys(
    c: Config, q: Queue, pc: Pc,
    accepted: seq<Item>,      // samples, segments and ends of stream, in call order
    delivered: seq<Item>,     // handed to the downstream pin, in order
    released: multiset<Item>, // samples released
    unanswered: bool,         // a flush passed on to the worker, not seen by it and not over
    clean: bool)              // no flush, no termination, no result but S_OK so far

  ghost predicate Init(s: Sys) {
    && s.c.size > 0
    && s.q == Queue([], [], 0, 0, false, true, false, 0, false) && s.pc == Top
    && s.accepted == [] && s.delivered == [] && s.released == multiset{}
    && !s.unanswered && s.clean
  }

  // ---------------------------------------------------------------------------------
  // Client steps
  // ---------------------------------------------------------------------------------

  function Fresh(first: nat, count: nat): seq<Item> {
    seq(count, i requires i >= 0 => Data(first + i))
  }

  /** ReceiveMultiple.  Samples that are turned away are released at once and get no number. */
  ghost predicate Receive(s: Sys, t: Sys, count: nat) {
    var samples := Fresh(|s.accepted|, count);
    t == s.(q := ReceiveStep(s.c, s.q, samples), accepted := if s.q.hr == 0 then s.accepted + samples else s.accepted)
  }

  /** NewSegment looks at m_hr before it takes the lock, so by then m_hr may be anything. */
  ghost predicate NewSegment(s: Sys, t: Sys) {
    var item := Segment(|s.accepted|);
    t == s.(q := QueueStep(s.q, item), accepted := s.accepted + [item])
  }

  ghost predicate EndStream(s: Sys, t: Sys) {
    var item := EndOfStream(|s.accepted|);
    t == s.(q := EosStep(s.q, item), accepted := if s.q.hr == 0 then s.accepted + [item] else s.accepted)
  }

  /** SendAnyway and Reset. */
  ghost predicate QueueControl(s: Sys, t: Sys, item: Item) {
    (item == Send || item == Reset) && t == s.(q := QueueStep(s.q, item))
  }

  ghost predicate BeginFlush(s: Sys, t: Sys) {
    var (q, passedOn) := BeginFlushStep(s.c, s.q);
    t == s.(q := q, unanswered := s.unanswered || passedOn, clean := false)
  }

  ghost predicate Terminate(s: Sys, t: Sys) {
    t == s.(q := TerminateStep(s.q), clean := false)
  }

  /** EndFlush and the end of Reset touch the fields without the lock: the event is waited for,
      the flags are cleared, m_hr is reset.  These may happen at any time. */
  ghost predicate Unlocked(s: Sys, t: Sys) {
    || t == s.(q := s.q.(flushComplete := false))
    || t == s.(q := s.q.(flushing := false, flushed := true), unanswered := false)
    || t == s.(q := s.q.(flushing := false), unanswered := false)
    || t == s.(q := s.q.(hr := 0))
  }

  // ---------------------------------------------------------------------------------
  // Worker steps
  // ---------------------------------------------------------------------------------

  /** The locked section of ThreadProc. */
  ghost predicate Collect(s: Sys, t: Sys) {
    && s.pc.Top?
    && var (q, outcome) := WorkerStep(s.c, s.q);
    && var freed := if s.q.terminate || s.q.flushing then DataOf(s.q.batch + Payload(s.q.list)) else [];
       match outcome
       case Stop => t == s.(q := q, pc := Ended, released := s.released + multiset(freed))
       case Wait => t == s.(q := q, pc := Waiting, released := s.released + multiset(freed),
                            unanswered := s.unanswered && !s.q.flushing)
       case Go(control) =>
         t == s.(q := q.(batch := []), pc := Off(q.batch, control),
                 released := s.released + multiset(freed), unanswered := s.unanswered && !s.q.flushing)
  }

  ghost predicate Wake(s: Sys, t: Sys) {
    s.pc.Waiting? && s.q.semaphore > 0 && t == s.(q := s.q.(semaphore := s.q.semaphore - 1), pc := Top)
  }

  ghost predicate LookAtResult(s: Sys, t: Sys) {
    && s.pc.Chosen?
    && t == s.(pc := if s.q.hr == 0 then Calling(s.pc.send, s.pc.control) else Releasing(s.pc.send, s.pc.control))
  }

  ghost predicate CallDownstream(s: Sys, t: Sys, result: int) {
    && s.pc.Calling?
    && t == s.(delivered := s.delivered + s.pc.send, pc := Returned(s.pc.send, s.pc.control, result),
               clean := s.clean && result == 0)
  }

  /** A flushing result is not overwritten. */
  ghost predicate StoreResult(s: Sys, t: Sys) {
    && s.pc.Returned?
    && t == s.(q := s.q.(hr := if s.q.hr == 0 then s.pc.result else s.q.hr), pc := Releasing(s.pc.send, s.pc.control))
  }

  ghost predicate ReleaseAll(s: Sys, t: Sys) {
    && s.pc.Releasing?
    && t == s.(released := s.released + multiset(s.pc.send), pc := Controlling(s.pc.control))
  }

  ghost predicate DoControl(s: Sys, t: Sys) {
    && s.pc.Controlling?
    && match s.pc.control
       case None => t == s.(pc := Top)
       case Some(item) =>
         match item
         case EndOfStream(_) => t == s.(pc := if s.q.hr == 0 then Ending(item) else Top)
         case Segment(_) => t == s.(delivered := s.delivered + [item], pc := Top)
         case Reset => t == s.(q := s.q.(hr := 0, flushComplete := true), pc := Top)
         case _ => t == s.(pc := Top)
  }

  ghost predicate SendEnd(s: Sys, t: Sys) {
    s.pc.Ending? && t == s.(delivered := s.delivered + [s.pc.item], pc := Top)
  }

  ghost predicate ClientNext(s: Sys, t: Sys) {
    || (exists count :: Receive(s, t, count))
    || NewSegment(s, t) || EndStream(s, t)
    || (exists item :: QueueControl(s, t, item))
    || BeginFlush(s, t) || Terminate(s, t) || Unlocked(s, t)
  }

  ghost predicate WorkerNext(s: Sys, t: Sys) {
    || Collect(s, t) || Wake(s, t) || LookAtResult(s, t)
    || (exists result :: CallDownstream(s, t, result))
    || StoreResult(s, t) || ReleaseAll(s, t) || DoControl(s, t) || SendEnd(s, t)
  }

  ghost predicate Next(s: Sys, t: Sys) {
    ClientNext(s, t) || WorkerNext(s, t)
  }

  // ---------------------------------------------------------------------------------
  // What is on its way
  // ---------------------------------------------------------------------------------

  /** What the worker has taken and may still hand downstream. */
  function InFlight(pc: Pc): seq<Item> {
    match pc
    case Chosen(send, control) => send + ControlPayload(control)
    case Calling(send, control) => send + ControlPayload(control)
    case Returned(_, control, _) => ControlPayload(control)
    case Releasing(_, control) => ControlPayload(control)
    case Controlling(control) => ControlPayload(control)
    case Ending(item) => [item]
    case _ => []
  }

  /** The samples the worker has taken and not released. */
  function Taken(pc: Pc): seq<Item> {
    if pc.Chosen? || pc.Calling? || pc.Returned? || pc.Releasing? then pc.send else []
  }

  function ControlOf(pc: Pc): Option<Item> {
    if pc.Chosen? || pc.Calling? || pc.Returned? || pc.Releasing? || pc.Controlling? then pc.control else None
  }

  function Queued(q: Queue): seq<Item> {
    q.batch + Payload(q.list)
  }

  /** Everything handed downstream or still on its way there, in order. */
  function Trail(s: Sys): seq<Item> {
    s.delivered + (InFlight(s.pc) + Queued(s.q))
  }

  /** The worker's state makes sense. */
  ghost predicate Shape(s: Sys) {
    && |s.q.batch| < s.c.size && AllData(s.q.batch) && AllData(Taken(s.pc))
    && (s.q.batch != [] ==> s.c.exact)
    && (s.clean ==> s.q.hr == 0 && !s.q.flushing && !s.q.terminate)
    && (s.clean && s.pc.Returned? ==> s.pc.result == 0)
    && (ControlOf(s.pc).Some? ==> !ControlOf(s.pc).value.Data? && !ControlOf(s.pc).value.Send?)
    && (s.pc.Ending? ==> s.pc.item.EndOfStream?)
  }

  ghost predicate Same(s: Sys, t: Sys) {
    Trail(t) == Trail(s) && t.accepted == s.accepted
  }

  ghost predicate Grows(s: Sys, t: Sys, items: seq<Item>) {
    && Trail(t) == Trail(s) + items && t.accepted == s.accepted + items
    && forall i :: 0 <= i < |items| ==> Carries(items[i]) && items[i].n == |s.accepted| + i
  }

  ghost predicate Cuts(s: Sys, t: Sys, a: seq<Item>, b: seq<Item>, d: seq<Item>) {
    && !t.clean && t.accepted == s.accepted && Trail(s) == a + b + d && Trail(t) == a + d
    && s.delivered <= a
  }

  /** A step keeps the trail, extends it by what it accepts, or, once something has gone wrong,
      cuts a piece out of it. */
  ghost predicate Extends(s: Sys, t: Sys) {
    || Same(s, t)
    || (exists items :: Grows(s, t, items))
    || (exists a, b, d :: Cuts(s, t, a, b, d))
  }

  lemma Regroup(a: seq<Item>, b: seq<Item>, c: seq<Item>, d: seq<Item>, e: seq<Item>)
    ensures a + (b + (c + (d + e))) == a + (b + (c + d)) + e
  {
  }

  lemma QueueingExtends(s: Sys, t: Sys, items: seq<Item>)
    requires t.q.list == s.q.list + items && t.q.batch == s.q.batch && t.pc == s.pc && t.delivered == s.delivered
    ensures Trail(t) == Trail(s) + Payload(items)
  {
    PayloadConcat(s.q.list, items);
    Regroup(s.delivered, InFlight(s.pc), s.q.batch, Payload(s.q.list), Payload(items));
  }

  lemma ReceiveExtends(s: Sys, t: Sys, count: nat)
    requires Receive(s, t, count) && s.q.hr == 0
    ensures Grows(s, t, Fresh(|s.accepted|, count))
  {
    var samples := Fresh(|s.accepted|, count);
    QueueingExtends(s, t, samples);
    AllDataIsPayload(samples);
  }

  lemma OneItemExtends(s: Sys, t: Sys)
    ensures NewSegment(s, t) ==> Grows(s, t, [Segment(|s.accepted|)])
    ensures EndStream(s, t) && s.q.hr == 0 ==> Grows(s, t, [EndOfStream(|s.accepted|)])
  {
    if NewSegment(s, t) {
      var item := Segment(|s.accepted|);
      QueueingExtends(s, t, [item]);
      assert Payload([item]) == [item];
    }
    if EndStream(s, t) && s.q.hr == 0 {
      var item := EndOfStream(|s.accepted|);
      QueueingExtends(s, t, [item]);
      assert Payload([item]) == [item];
    }
  }

  lemma ControlItemExtends(s: Sys, t: Sys, item: Item)
    requires QueueControl(s, t, item)
    ensures Same(s, t)
  {
    QueueingExtends(s, t, [item]);
    assert Payload([item]) == [];
  }

  lemma FlagsExtend(s: Sys, t: Sys)
    requires BeginFlush(s, t) || Terminate(s, t) || Unlocked(s, t)
    ensures Same(s, t)
  {
  }

  lemma ClientExtends(s: Sys, t: Sys)
    requires ClientNext(s, t)
    ensures Extends(s, t)
  {
    if count :| Receive(s, t, count) {
      if s.q.hr == 0 {
        ReceiveExtends(s, t, count);
      }
    } else if item :| QueueControl(s, t, item) {
      ControlItemExtends(s, t, item);
    } else if NewSegment(s, t) || EndStream(s, t) {
      OneItemExtends(s, t);
    } else {
      FlagsExtend(s, t);
    }
  }

  function Off(batch: seq<Item>, control: Option<Item>): Pc {
    if batch == [] then Controlling(control) else Chosen(batch, control)
  }

  lemma OffCarries(batch: seq<Item>, control: Option<Item>)
    ensures InFlight(Off(batch, control)) == batch + ControlPayload(control)
  {
  }

  lemma GatheredTrail(s: Sys, t: Sys)
    requires Shape(s) && Collect(s, t) && !s.q.terminate && !s.q.flushing
    ensures InFlight(s.pc) == [] && t.delivered == s.delivered && t.accepted == s.accepted
    ensures InFlight(t.pc) + Queued(t.q) == Queued(s.q)
  {
    WorkerStepKeeps(s.c, s.q);
    var (q, o) := WorkerStep(s.c, s.q);
    if o.Go? {
      OffCarries(q.batch, o.control);
      assert t.pc == Off(q.batch, o.control) && Queued(t.q) == Payload(q.list);
    } else {
      assert q.batch + [] == q.batch;
    }
  }

  lemma CollectKeepsTrail(s: Sys, t: Sys)
    requires Shape(s) && Collect(s, t) && !s.q.terminate && !s.q.flushing
    ensures Same(s, t)
  {
    GatheredTrail(s, t);
    assert [] + Queued(s.q) == Queued(s.q);
  }

  lemma CollectCuts(s: Sys, t: Sys)
    requires Shape(s) && Collect(s, t) && (s.q.terminate || s.q.flushing)
    ensures Cuts(s, t, s.delivered, Queued(s.q), [])
  {
  }

  lemma LookCuts(s: Sys, t: Sys)
    requires Shape(s) && LookAtResult(s, t) && s.q.hr != 0
    ensures Cuts(s, t, s.delivered, s.pc.send, ControlPayload(s.pc.control) + Queued(s.q))
  {
  }

  lemma CallKeepsTrail(s: Sys, t: Sys, result: int)
    requires CallDownstream(s, t, result)
    ensures Same(s, t)
  {
    assert Trail(s) == s.delivered + s.pc.send + ControlPayload(s.pc.control) + Queued(s.q);
  }

  lemma EndIsCut(s: Sys, t: Sys, item: Item)
    requires Shape(s) && DoControl(s, t) && s.pc.control == Some(item) && item.EndOfStream? && s.q.hr != 0
    ensures Cuts(s, t, s.delivered, [item], Queued(s.q))
  {
    assert Payload([item]) == [item];
  }

  lemma ControlKeepsTrail(s: Sys, t: Sys, item: Item)
    requires Shape(s) && DoControl(s, t) && s.pc.control == Some(item) && (item.EndOfStream? ==> s.q.hr == 0)
    ensures Same(s, t)
  {
    assert Payload([item]) == if Carries(item) then [item] else [];
  }

  lemma DoControlExtends(s: Sys, t: Sys)
    requires Shape(s) && DoControl(s, t)
    ensures Same(s, t) || exists item :: Cuts(s, t, s.delivered, [item], Queued(s.q))
  {
    if s.pc.control.Some? {
      var item := s.pc.control.value;
      if item.EndOfStream? && s.q.hr != 0 {
        EndIsCut(s, t, item);
      } else {
        ControlKeepsTrail(s, t, item);
      }
    }
  }

  lemma StoreKeepsTrail(s: Sys, t: Sys)
    requires Wake(s, t) || StoreResult(s, t) || ReleaseAll(s, t) || SendEnd(s, t)
    ensures Same(s, t)
  {
  }

  lemma WorkerExtends(s: Sys, t: Sys)
    requires Shape(s) && WorkerNext(s, t)
    ensures Extends(s, t)
  {
    if Collect(s, t) {
      if s.q.terminate || s.q.flushing {
        CollectCuts(s, t);
      } else {
        CollectKeepsTrail(s, t);
      }
    } else if LookAtResult(s, t) {
      if s.q.hr != 0 {
        LookCuts(s, t);
      }
    } else if result :| CallDownstream(s, t, result) {
      CallKeepsTrail(s, t, result);
    } else if DoControl(s, t) {
      DoControlExtends(s, t);
    } else {
      StoreKeepsTrail(s, t);
    }
  }

  // ---------------------------------------------------------------------------------
  // The shape is kept
  // ---------------------------------------------------------------------------------

  /** What no client step touches, and what it may do to the list. */
  ghost predicate ClientFrame(s: Sys, t: Sys, items: seq<Item>) {
    && t.c == s.c && t.pc == s.pc && t.delivered == s.delivered && t.released == s.released
    && t.q.batch == s.q.batch && t.q.list == s.q.list + items
    && (t.clean ==> s.clean && t.q.hr == s.q.hr && t.q.flushing == s.q.flushing && t.q.terminate == s.q.terminate)
  }

  lemma ReceiveFrame(s: Sys, t: Sys, count: nat)
    requires Receive(s, t, count)
    ensures ClientFrame(s, t, if s.q.hr == 0 then Fresh(|s.accepted|, count) else [])
  {
  }

  lemma QueueFrame(s: Sys, t: Sys)
    ensures NewSegment(s, t) ==> ClientFrame(s, t, [Segment(|s.accepted|)])
    ensures EndStream(s, t) ==> ClientFrame(s, t, if s.q.hr == 0 then [EndOfStream(|s.accepted|)] else [])
  {
  }

  lemma ControlFrame(s: Sys, t: Sys, item: Item)
    requires QueueControl(s, t, item)
    ensures ClientFrame(s, t, [item])
  {
  }

  lemma FlagsFrame(s: Sys, t: Sys)
    requires BeginFlush(s, t) || Terminate(s, t) || Unlocked(s, t)
    ensures t.clean ==> s.clean && (s.q.hr == 0 ==> t.q.hr == 0) && (t.q.flushing ==> s.q.flushing) && t.q.terminate == s.q.terminate
    ensures t.c == s.c && t.pc == s.pc && t.delivered == s.delivered && t.released == s.released
    ensures t.accepted == s.accepted && t.q.batch == s.q.batch && t.q.list == s.q.list
  {
  }

  lemma ClientKeepsShape(s: Sys, t: Sys)
    requires Shape(s) && ClientNext(s, t)
    ensures Shape(t)
    ensures t.clean ==> s.clean
  {
    if count :| Receive(s, t, count) {
      ReceiveFrame(s, t, count);
    } else if NewSegment(s, t) || EndStream(s, t) {
      QueueFrame(s, t);
    } else if item :| QueueControl(s, t, item) {
      ControlFrame(s, t, item);
    } else {
      FlagsFrame(s, t);
    }
  }

  lemma OffShape(batch: seq<Item>, control: Option<Item>)
    ensures Taken(Off(batch, control)) == batch && ControlOf(Off(batch, control)) == control
    ensures !Off(batch, control).Ending? && !Off(batch, control).Returned?
  {
  }

  lemma CollectFrame(s: Sys, t: Sys)
    requires Collect(s, t)
    ensures t.c == s.c && t.clean == s.clean && t.q.hr == s.q.hr && t.q.flushing == s.q.flushing && t.q.terminate == s.q.terminate
    ensures var (q, o) := WorkerStep(s.c, s.q);
            match o
            case Stop => t.pc == Ended && t.q.batch == q.batch
            case Wait => t.pc == Waiting && t.q.batch == q.batch
            case Go(control) => t.pc == Off(q.batch, control) && t.q.batch == []
  {
  }

  lemma CollectKeepsShape(s: Sys, t: Sys)
    requires Shape(s) && Collect(s, t)
    ensures Shape(t)
  {
    CollectFrame(s, t);
    var (q, o) := WorkerStep(s.c, s.q);
    if !s.q.terminate {
      WorkerStepKeeps(s.c, s.q);
      if o.Go? {
        OffShape(q.batch, o.control);
      }
    }
  }

  lemma SendingKeepsShape(s: Sys, t: Sys)
    requires Shape(s)
    requires LookAtResult(s, t) || StoreResult(s, t) || ReleaseAll(s, t) || exists result :: CallDownstream(s, t, result)
    ensures Shape(t)
  {
  }

  lemma ControlKeepsShape(s: Sys, t: Sys)
    requires Shape(s) && (Wake(s, t) || DoControl(s, t) || SendEnd(s, t))
    ensures Shape(t)
  {
  }

  lemma WorkerKeepsShape(s: Sys, t: Sys)
    requires Shape(s) && WorkerNext(s, t)
    ensures Shape(t)
  {
    if Collect(s, t) {
      CollectKeepsShape(s, t);
    } else if Wake(s, t) || DoControl(s, t) || SendEnd(s, t) {
      ControlKeepsShape(s, t);
    } else {
      SendingKeepsShape(s, t);
    }
  }

  // ---------------------------------------------------------------------------------
  // Order
  // ---------------------------------------------------------------------------------

  /** The items are accepted ones, each at most once, in the order of acceptance. */
  ghost predicate InOrder(items: seq<Item>, accepted: seq<Item>) {
    && (forall i :: 0 <= i < |items| ==> Carries(items[i]) && items[i].n < |accepted| && accepted[items[i].n] == items[i])
    && (forall i, j :: 0 <= i < j < |items| ==> items[i].n < items[j].n)
  }

  ghost predicate Order(s: Sys) {
    && InOrder(Trail(s), s.accepted)
    && (s.clean ==> Trail(s) == s.accepted)
  }

  lemma GrownInOrder(u: seq<Item>, items: seq<Item>, accepted: seq<Item>)
    requires InOrder(u, accepted)
    requires forall i :: 0 <= i < |items| ==> Carries(items[i]) && items[i].n == |accepted| + i
    ensures InOrder(u + items, accepted + items)
  {
    var v, all := u + items, accepted + items;
    forall i | 0 <= i < |v|
      ensures Carries(v[i]) && v[i].n < |all| && all[v[i].n] == v[i]
    {
      assert v[i] == if i < |u| then u[i] else items[i - |u|];
    }
    forall i, j | 0 <= i < j < |v|
      ensures v[i].n < v[j].n
    {
      assert v[i] == if i < |u| then u[i] else items[i - |u|];
      assert v[j] == if j < |u| then u[j] else items[j - |u|];
    }
  }

  lemma GrowsKeepsOrder(s: Sys, t: Sys, items: seq<Item>)
    requires Order(s) && Grows(s, t, items) && (t.clean ==> s.clean)
    ensures Order(t)
  {
    GrownInOrder(Trail(s), items, s.accepted);
  }

  lemma CutKeepsOrder(a: seq<Item>, b: seq<Item>, d: seq<Item>, accepted: seq<Item>)
    requires InOrder(a + b + d, accepted)
    ensures InOrder(a + d, accepted)
  {
    var u, v := a + b + d, a + d;
    forall i | 0 <= i < |v|
      ensures Carries(v[i]) && v[i].n < |accepted| && accepted[v[i].n] == v[i]
    {
      assert v[i] == u[if i < |a| then i else i + |b|];
    }
    forall i, j | 0 <= i < j < |v|
      ensures v[i].n < v[j].n
    {
      assert v[i] == u[if i < |a| then i else i + |b|];
      assert v[j] == u[if j < |a| then j else j + |b|];
    }
  }

  lemma WorkerFrame(s: Sys, t: Sys)
    requires WorkerNext(s, t)
    ensures (t.clean ==> s.clean) && t.accepted == s.accepted
  {
    if Collect(s, t) {
    } else if LookAtResult(s, t) || StoreResult(s, t) {
    } else if Wake(s, t) || ReleaseAll(s, t) {
    } else if DoControl(s, t) || SendEnd(s, t) {
    }
  }

  lemma NextKeepsOrder(s: Sys, t: Sys)
    requires Shape(s) && Order(s) && Next(s, t)
    ensures Order(t)
  {
    if ClientNext(s, t) {
      ClientExtends(s, t);
      ClientKeepsShape(s, t);
    } else {
      WorkerExtends(s, t);
      WorkerFrame(s, t);
    }
    if Same(s, t) {
    } else if items :| Grows(s, t, items) {
      GrowsKeepsOrder(s, t, items);
    } else {
      var a, b, d :| Cuts(s, t, a, b, d);
      CutKeepsOrder(a, b, d, s.accepted);
    }
  }

  // ---------------------------------------------------------------------------------
  // Every sample is released once or still held
  // ---------------------------------------------------------------------------------

  ghost predicate Balanced(s: Sys) {
    s.released + multiset(DataOf(Taken(s.pc))) + multiset(DataOf(Queued(s.q))) == multiset(DataOf(s.accepted))
  }

  lemma DataCount(a: seq<Item>, b: seq<Item>)
    ensures multiset(DataOf(a + b)) == multiset(DataOf(a)) + multiset(DataOf(b))
  {
    DataConcat(a, b);
  }

  lemma QueuedGrows(q: Queue, r: Queue, items: seq<Item>)
    requires r.batch == q.batch && r.list == q.list + items
    ensures multiset(DataOf(Queued(r))) == multiset(DataOf(Queued(q))) + multiset(DataOf(Payload(items)))
  {
    PayloadConcat(q.list, items);
    Assoc(q.batch, Payload(q.list), Payload(items));
    DataCount(Queued(q), Payload(items));
  }

  lemma BalanceGrows(s: Sys, t: Sys, items: seq<Item>)
    requires Balanced(s) && ClientFrame(s, t, items)
    requires t.accepted == s.accepted + Payload(items)
    ensures Balanced(t)
  {
    QueuedGrows(s.q, t.q, items);
    DataCount(s.accepted, Payload(items));
  }

  lemma ReceiveKeepsBalance(s: Sys, t: Sys, count: nat)
    requires Balanced(s) && Receive(s, t, count)
    ensures Balanced(t)
  {
    ReceiveFrame(s, t, count);
    var samples := if s.q.hr == 0 then Fresh(|s.accepted|, count) else [];
    AllDataIsPayload(samples);
    BalanceGrows(s, t, samples);
  }

  lemma SegmentKeepsBalance(s: Sys, t: Sys)
    requires Balanced(s) && NewSegment(s, t)
    ensures Balanced(t)
  {
    QueueFrame(s, t);
    assert Payload([Segment(|s.accepted|)]) == [Segment(|s.accepted|)];
    BalanceGrows(s, t, [Segment(|s.accepted|)]);
  }

  lemma EndKeepsBalance(s: Sys, t: Sys)
    requires Balanced(s) && EndStream(s, t)
    ensures Balanced(t)
  {
    QueueFrame(s, t);
    var items := if s.q.hr == 0 then [EndOfStream(|s.accepted|)] else [];
    assert Payload(items) == items;
    BalanceGrows(s, t, items);
  }

  lemma ClientKeepsBalance(s: Sys, t: Sys)
    requires Balanced(s) && ClientNext(s, t)
    ensures Balanced(t)
  {
    if count :| Receive(s, t, count) {
      ReceiveKeepsBalance(s, t, count);
    } else if NewSegment(s, t) {
      SegmentKeepsBalance(s, t);
    } else if EndStream(s, t) {
      EndKeepsBalance(s, t);
    } else if item :| QueueControl(s, t, item) {
      ControlFrame(s, t, item);
      assert Payload([item]) == [];
      BalanceGrows(s, t, [item]);
    } else {
      FlagsFrame(s, t);
    }
  }

  lemma CollectedBalance(q: Queue, r: Queue, control: seq<Item>)
    requires r.batch + control + Payload(r.list) == Queued(q) && DataOf(control) == []
    ensures multiset(DataOf(Queued(q))) == multiset(DataOf(r.batch)) + multiset(DataOf(Payload(r.list)))
    ensures multiset(DataOf(Queued(r))) == multiset(DataOf(Queued(q)))
  {
    DataCount(r.batch + control, Payload(r.list));
    DataCount(r.batch, control);
    DataCount(r.batch, Payload(r.list));
  }

  lemma FreedFrame(s: Sys, t: Sys)
    requires Shape(s) && Collect(s, t) && (s.q.terminate || s.q.flushing)
    ensures t.q.batch == [] && t.q.list == [] && Taken(s.pc) == [] && Taken(t.pc) == [] && t.accepted == s.accepted
    ensures t.released == s.released + multiset(DataOf(Queued(s.q)))
  {
    if !s.q.terminate {
      WorkerStepKeeps(s.c, s.q);
    }
  }

  lemma FreedBalance(s: Sys, t: Sys)
    requires Shape(s) && Balanced(s) && Collect(s, t) && (s.q.terminate || s.q.flushing)
    ensures Balanced(t)
  {
    FreedFrame(s, t);
    assert Queued(t.q) == [] && DataOf([]) == [];
  }

  lemma GatheredFrame(s: Sys, t: Sys)
    requires Shape(s) && Collect(s, t) && !s.q.terminate && !s.q.flushing
    ensures t.accepted == s.accepted && Taken(s.pc) == [] && t.released == s.released
    ensures var (q, o) := WorkerStep(s.c, s.q);
            if o.Go? then Taken(t.pc) == q.batch && Queued(t.q) == Payload(q.list)
            else Taken(t.pc) == [] && Queued(t.q) == Queued(q)
  {
    WorkerStepKeeps(s.c, s.q);
    var (q, o) := WorkerStep(s.c, s.q);
    if o.Go? {
      OffShape(q.batch, o.control);
    }
  }

  lemma GatheredBalance(s: Sys, t: Sys)
    requires Shape(s) && Balanced(s) && Collect(s, t) && !s.q.terminate && !s.q.flushing
    ensures Balanced(t)
  {
    var (q, o) := WorkerStep(s.c, s.q);
    GatheredFrame(s, t);
    WorkerStepKeeps(s.c, s.q);
    if o.Go? {
      ControlHasNoData(o.control);
      CollectedBalance(s.q, q, ControlPayload(o.control));
    } else {
      CollectedBalance(s.q, q, []);
    }
  }

  lemma ControlHasNoData(control: Option<Item>)
    requires control.Some? ==> !control.value.Data?
    ensures DataOf(ControlPayload(control)) == []
  {
  }

  lemma SendingFrame(s: Sys, t: Sys)
    requires WorkerNext(s, t) && !Collect(s, t)
    ensures t.q.batch == s.q.batch && t.q.list == s.q.list && t.accepted == s.accepted
    ensures if ReleaseAll(s, t) then t.released == s.released + multiset(Taken(s.pc)) && Taken(t.pc) == []
            else t.released == s.released && Taken(t.pc) == Taken(s.pc)
  {
    if LookAtResult(s, t) {
    } else if StoreResult(s, t) || ReleaseAll(s, t) {
    } else if DoControl(s, t) {
    } else if Wake(s, t) || SendEnd(s, t) {
    }
  }

  lemma WorkerKeepsBalance(s: Sys, t: Sys)
    requires Shape(s) && Balanced(s) && WorkerNext(s, t)
    ensures Balanced(t)
  {
    if !Collect(s, t) {
      SendingFrame(s, t);
      AllDataIsPayload(Taken(s.pc));
    } else if s.q.terminate || s.q.flushing {
      FreedBalance(s, t);
    } else {
      GatheredBalance(s, t);
    }
  }

  // ---------------------------------------------------------------------------------
  // No lost wake-up
  // ---------------------------------------------------------------------------------

  ghost predicate Wakeful(s: Sys) {
    Alert(s.c, s.q, s.pc.Waiting?, s.unanswered)
  }

  lemma FlagsKeepWakeful(s: Sys, t: Sys)
    requires Wakeful(s) && (BeginFlush(s, t) || Terminate(s, t) || Unlocked(s, t))
    ensures Wakeful(t)
  {
    if BeginFlush(s, t) {
      FlushKeepsAlert(s.c, s.q, s.pc.Waiting?, s.unanswered);
    } else if Terminate(s, t) {
      NotifyKeepsAlert(s.c, s.q, Send, s.pc.Waiting?, s.unanswered);
    }
  }

  lemma ClientKeepsWakeful(s: Sys, t: Sys)
    requires Wakeful(s) && ClientNext(s, t)
    ensures Wakeful(t)
  {
    if count :| Receive(s, t, count) {
      ReceiveKeepsAlert(s.c, s.q, Fresh(|s.accepted|, count), s.pc.Waiting?, s.unanswered);
    } else if NewSegment(s, t) {
      NotifyKeepsAlert(s.c, s.q, Segment(|s.accepted|), s.pc.Waiting?, s.unanswered);
    } else if EndStream(s, t) {
      NotifyKeepsAlert(s.c, s.q, EndOfStream(|s.accepted|), s.pc.Waiting?, s.unanswered);
    } else if item :| QueueControl(s, t, item) {
      NotifyKeepsAlert(s.c, s.q, item, s.pc.Waiting?, s.unanswered);
    } else {
      FlagsKeepWakeful(s, t);
    }
  }

  lemma CollectKeepsWakeful(s: Sys, t: Sys)
    requires Shape(s) && Wakeful(s) && Collect(s, t)
    ensures Wakeful(t)
  {
    WorkerKeepsAlert(s.c, s.q, s.unanswered);
  }

  lemma WorkerKeepsWakeful(s: Sys, t: Sys)
    requires Shape(s) && Wakeful(s) && WorkerNext(s, t)
    ensures Wakeful(t)
  {
    if Collect(s, t) {
      CollectKeepsWakeful(s, t);
    } else if DoControl(s, t) {
    } else if Wake(s, t) || SendEnd(s, t) || StoreResult(s, t) {
    }
  }

  // ---------------------------------------------------------------------------------
  // Every run
  // ---------------------------------------------------------------------------------

  ghost predicate Inv(s: Sys) {
    Shape(s) && Order(s) && Balanced(s) && Wakeful(s)
  }

  ghost predicate StepAt(run: seq<Sys>, i: nat)
    requires i + 1 < |run|
  {
    Next(run[i], run[i + 1])
  }

  ghost predicate IsRun(run: seq<Sys>) {
    run != [] && Init(run[0]) && forall i :: 0 <= i < |run| - 1 ==> StepAt(run, i)
  }

  lemma NextKeepsInv(s: Sys, t: Sys)
    requires Inv(s) && Next(s, t)
    ensures Inv(t)
  {
    NextKeepsOrder(s, t);
    if ClientNext(s, t) {
      ClientKeepsShape(s, t);
      ClientKeepsBalance(s, t);
      ClientKeepsWakeful(s, t);
    } else {
      WorkerKeepsShape(s, t);
      WorkerKeepsBalance(s, t);
      WorkerKeepsWakeful(s, t);
    }
  }

  lemma InitInv(s: Sys)
    requires Init(s)
    ensures Inv(s)
  {
  }

  lemma {:induction false} RunsKeepInv(run: seq<Sys>, i: nat)
    requires IsRun(run) && i < |run|
    ensures Inv(run[i])
  {
    if i == 0 {
      InitInv(run[0]);
    } else {
      RunsKeepInv(run, i - 1);
      assert StepAt(run, i - 1);
      NextKeepsInv(run[i - 1], run[i]);
    }
  }

  /** While downstream has always said S_OK and nothing was flushed, what was delivered, what the
      worker has in hand, the batch and the list are, in this order, all that was accepted. */
  lemma NothingLostWhileClean(run: seq<Sys>, i: nat)
    requires IsRun(run) && i < |run| && run[i].clean
    ensures var s := run[i];
            s.delivered + (InFlight(s.pc) + (s.q.batch + Payload(s.q.list))) == s.accepted
  {
    RunsKeepInv(run, i);
  }

  /** In every run delivery is in the order of acceptance and nothing is delivered twice. */
  lemma DeliveredInOrder(run: seq<Sys>, i: nat)
    requires IsRun(run) && i < |run|
    ensures InOrder(run[i].delivered, run[i].accepted)
  {
    RunsKeepInv(run, i);
    var s := run[i];
    var rest := InFlight(s.pc) + Queued(s.q);
    assert Trail(s) == s.delivered + rest + [];
    CutKeepsOrder(s.delivered, rest, [], s.accepted);
    assert s.delivered + [] == s.delivered;
  }

  /** In every run each accepted sample has been released exactly once or is still held by the
      worker, the batch or the list. */
  lemma ReleasedOnceOrHeld(run: seq<Sys>, i: nat, n: nat)
    requires IsRun(run) && i < |run| && n < |run[i].accepted| && run[i].accepted[n].Data?
    ensures var s := run[i];
            var held := multiset(DataOf(Taken(s.pc))) + multiset(DataOf(s.q.batch + Payload(s.q.list)));
            (s.released + held)[Data(n)] == 1
  {
    RunsKeepInv(run, i);
    NumberedInOrder(run, i);
    EachNumberOnce(run[i].accepted, n);
  }

  ghost predicate Numbered(l: seq<Item>) {
    forall k :: 0 <= k < |l| ==> Carries(l[k]) && l[k].n == k
  }

  lemma NextKeepsNumbers(s: Sys, t: Sys)
    requires Shape(s) && Numbered(s.accepted) && Next(s, t)
    ensures Numbered(t.accepted)
  {
    if ClientNext(s, t) {
      ClientExtends(s, t);
    } else {
      WorkerExtends(s, t);
    }
  }

  lemma StepKeepsNumbers(run: seq<Sys>, i: nat)
    requires IsRun(run) && i + 1 < |run| && Numbered(run[i].accepted)
    ensures Numbered(run[i + 1].accepted)
  {
    RunsKeepInv(run, i);
    assert StepAt(run, i);
    NextKeepsNumbers(run[i], run[i + 1]);
  }

  lemma {:induction false} NumberedInOrder(run: seq<Sys>, i: nat)
    requires IsRun(run) && i < |run|
    ensures Numbered(run[i].accepted)
  {
    if i > 0 {
      NumberedInOrder(run, i - 1);
      StepKeepsNumbers(run, i - 1);
    }
  }

  lemma {:induction false} EachNumberOnce(l: seq<Item>, n: nat)
    requires Numbered(l)
    ensures multiset(DataOf(l))[Data(n)] == if n < |l| && l[n].Data? then 1 else 0
  {
    if l != [] {
      EachNumberOnce(l[..|l| - 1], n);
    }
  }

  /** No lost wake-up: a worker at its wait is let through by the semaphore unless there is
      nothing for it to do, and then neither a termination nor a flush is waiting for it. */
  lemma NoLostWakeUp(run: seq<Sys>, i: nat)
    requires IsRun(run) && i < |run| && run[i].pc.Waiting?
    ensures var s := run[i];
            || s.q.semaphore == 1
            || (s.q.waiting == 1 && !s.q.terminate && !s.unanswered && WorkerStep(s.c, s.q).1 == Wait)
  {
    RunsKeepInv(run, i);
    if run[i].q.waiting > 0 {
      ParkedHasNothingToDo(run[i].c, run[i].q, true, run[i].unanswered);
    }
  }

  /** IsIdle, the value the code computes. */
  predicate SaysIdle(q: Queue) {
    q.waiting != 0 && q.batch == []
  }

  /** Without exact batching IsIdle tells the truth: nothing is queued and every sample accepted
      has been released. */
  lemma IdleMeansAllReleased(run: seq<Sys>, i: nat)
    requires IsRun(run) && i < |run| && !run[i].c.exact && SaysIdle(run[i].q)
    ensures run[i].q.list == [] && run[i].released == multiset(DataOf(run[i].accepted))
  {
    RunsKeepInv(run, i);
    assert Queued(run[i].q) == [];
  }

  /** With exact batching it does not: for every batch size over one there is a run in which it
      says idle with a sample on the list. */
  lemma IdleWithSampleQueued(c: Config) returns (run: seq<Sys>)
    requires c.exact && c.size > 1
    ensures IsRun(run) && |run| == 3 && run[2].c == c
    ensures SaysIdle(run[2].q) && run[2].q.list == [Data(0)]
  {
    var q0 := Queue([], [], 0, 0, false, true, false, 0, false);
    var s0 := Sys(c, q0, Top, [], [], multiset{}, false, true);
    var s1 := s0.(q := q0.(waiting := 1), pc := Waiting);
    assert DataOf([]) == [];
    assert s1.released == s0.released + multiset(DataOf([]));
    assert Collect(s0, s1);
    var s2 := s1.(q := s1.q.(list := [Data(0)], flushed := false), accepted := [Data(0)]);
    assert Fresh(0, 1) == [Data(0)];
    assert ListCount([Data(0)]) == 1;
    assert Receive(s1, s2, 1);
    run := [s0, s1, s2];
    assert StepAt(run, 0) && StepAt(run, 1);
  }

  // ---------------------------------------------------------------------------------
  // What a flush guarantees
  // ---------------------------------------------------------------------------------

  /** What is handed on from here is numbered from `first` up; `done` items are behind us. */
  ghost predicate Only(s: Sys, done: nat, first: nat) {
    && done <= |s.delivered| && first <= |s.accepted|
    && forall i :: done <= i < |Trail(s)| ==> Carries(Trail(s)[i]) && Trail(s)[i].n >= first
  }

  lemma ClientDelivers(s: Sys, t: Sys)
    requires ClientNext(s, t)
    ensures t.delivered == s.delivered
  {
    if count :| Receive(s, t, count) {
      ReceiveFrame(s, t, count);
    } else if NewSegment(s, t) || EndStream(s, t) {
      QueueFrame(s, t);
    } else if item :| QueueControl(s, t, item) {
      ControlFrame(s, t, item);
    } else {
      FlagsFrame(s, t);
    }
  }

  lemma WorkerDelivers(s: Sys, t: Sys)
    requires WorkerNext(s, t)
    ensures s.delivered <= t.delivered
  {
    if Collect(s, t) {
    } else if DoControl(s, t) {
    } else if Wake(s, t) || LookAtResult(s, t) || StoreResult(s, t) {
    } else if ReleaseAll(s, t) || SendEnd(s, t) {
    }
  }

  lemma CutKeepsOnly(u: seq<Item>, v: seq<Item>, a: seq<Item>, b: seq<Item>, d: seq<Item>, done: nat, first: nat)
    requires u == a + b + d && v == a + d && done <= |a|
    requires forall i :: done <= i < |u| ==> Carries(u[i]) && u[i].n >= first
    ensures forall i :: done <= i < |v| ==> Carries(v[i]) && v[i].n >= first
  {
    forall i | done <= i < |v|
      ensures Carries(v[i]) && v[i].n >= first
    {
      assert v[i] == u[if i < |a| then i else i + |b|];
    }
  }

  lemma NextKeepsOnly(s: Sys, t: Sys, done: nat, first: nat)
    requires Shape(s) && Next(s, t) && Only(s, done, first)
    ensures s.delivered <= t.delivered && Only(t, done, first)
  {
    if ClientNext(s, t) {
      ClientExtends(s, t);
      ClientDelivers(s, t);
    } else {
      WorkerExtends(s, t);
      WorkerDelivers(s, t);
    }
    if Same(s, t) {
    } else if items :| Grows(s, t, items) {
    } else {
      var a, b, d :| Cuts(s, t, a, b, d);
      CutKeepsOnly(Trail(s), Trail(t), a, b, d, done, first);
    }
  }

  /** While a flush is on, the worker either has not seen it yet, or has nothing on its way that was
      accepted before it. */
  ghost predicate Flushing(s: Sys, first: nat) {
    s.q.flushing && first <= |s.accepted| && (s.unanswered || Only(s, |s.delivered|, first))
  }

  lemma SeenEmpties(s: Sys, t: Sys, first: nat)
    requires Shape(s) && Collect(s, t) && s.q.flushing && first <= |s.accepted|
    ensures Only(t, |t.delivered|, first)
  {
    CollectCuts(s, t);
    assert Trail(t) == t.delivered + [];
  }

  lemma AcceptedGrows(s: Sys, t: Sys)
    requires Shape(s) && Next(s, t)
    ensures |s.accepted| <= |t.accepted|
  {
    if ClientNext(s, t) {
      ClientExtends(s, t);
    } else {
      WorkerExtends(s, t);
    }
  }

  /** Only the worker's own look at a flush answers it. */
  lemma OnlyCollectAnswers(s: Sys, t: Sys)
    requires Next(s, t) && s.unanswered && t.q.flushing && !Collect(s, t)
    ensures t.unanswered
  {
    if ClientNext(s, t) {
      if BeginFlush(s, t) || Terminate(s, t) {
      } else if Unlocked(s, t) {
      } else if count :| Receive(s, t, count) {
      }
    } else if DoControl(s, t) {
    } else if Wake(s, t) || LookAtResult(s, t) || StoreResult(s, t) {
    } else if ReleaseAll(s, t) || SendEnd(s, t) {
    }
  }

  lemma NextKeepsFlushing(s: Sys, t: Sys, first: nat)
    requires Shape(s) && Next(s, t) && Flushing(s, first) && t.q.flushing
    ensures Flushing(t, first)
  {
    AcceptedGrows(s, t);
    if Collect(s, t) {
      SeenEmpties(s, t, first);
    } else if s.unanswered {
      OnlyCollectAnswers(s, t);
    } else {
      NextKeepsOnly(s, t, |s.delivered|, first);
    }
  }

  lemma StepKeepsOnly(run: seq<Sys>, i: nat, done: nat, first: nat)
    requires IsRun(run) && i + 1 < |run| && Only(run[i], done, first)
    ensures run[i].delivered <= run[i + 1].delivered && Only(run[i + 1], done, first)
  {
    RunsKeepInv(run, i);
    assert StepAt(run, i);
    NextKeepsOnly(run[i], run[i + 1], done, first);
  }

  lemma StepKeepsFlushing(run: seq<Sys>, i: nat, first: nat)
    requires IsRun(run) && i + 1 < |run| && Flushing(run[i], first) && run[i + 1].q.flushing
    ensures Flushing(run[i + 1], first)
  {
    RunsKeepInv(run, i);
    assert StepAt(run, i);
    NextKeepsFlushing(run[i], run[i + 1], first);
  }

  lemma BeginIsFlushing(s: Sys, t: Sys)
    requires BeginFlush(s, t) && BeginFlushStep(s.c, s.q).1
    ensures Flushing(t, |s.accepted|) && t.pc == s.pc && t.unanswered && !t.q.flushComplete
  {
  }

  /** A flush begun at step k, passed on to the worker, and still on in state i. */
  ghost predicate InFlush(run: seq<Sys>, k: nat, i: nat) {
    && IsRun(run) && k < i < |run| && BeginFlush(run[k], run[k + 1]) && BeginFlushStep(run[k].c, run[k].q).1
    && forall j :: k < j <= i ==> run[j].q.flushing
  }

  lemma {:induction false} FlushingGoesOn(run: seq<Sys>, k: nat, i: nat)
    requires InFlush(run, k, i)
    ensures Flushing(run[i], |run[k].accepted|)
    decreases i
  {
    if i == k + 1 {
      BeginIsFlushing(run[k], run[i]);
    } else {
      FlushingGoesOn(run, k, i - 1);
      StepKeepsFlushing(run, i - 1, |run[k].accepted|);
    }
  }

  lemma {:induction false} OnlyGoesOn(run: seq<Sys>, m: nat, i: nat, first: nat)
    requires IsRun(run) && m <= i < |run| && Only(run[m], |run[m].delivered|, first)
    ensures run[m].delivered <= run[i].delivered && Only(run[i], |run[m].delivered|, first)
    decreases i
  {
    if i > m {
      OnlyGoesOn(run, m, i - 1, first);
      StepKeepsOnly(run, i - 1, |run[m].delivered|, first);
    }
  }

  // When the event is set

  /** The worker has a Reset in hand: it will set the event EndFlush waits for. */
  predicate ResetInHand(s: Sys) {
    ControlOf(s.pc) == Some(Reset)
  }

  lemma ReceiveEvents(s: Sys, t: Sys, count: nat)
    requires Receive(s, t, count)
    ensures t.pc == s.pc && t.q.flushComplete == s.q.flushComplete && t.unanswered == s.unanswered
  {
  }

  lemma QueueEvents(s: Sys, t: Sys)
    requires NewSegment(s, t) || EndStream(s, t) || QueueControl(s, t, Send) || QueueControl(s, t, Reset)
    ensures t.pc == s.pc && t.q.flushComplete == s.q.flushComplete && t.unanswered == s.unanswered
  {
  }

  lemma FlagEvents(s: Sys, t: Sys)
    requires BeginFlush(s, t) || Terminate(s, t) || Unlocked(s, t)
    ensures t.pc == s.pc && (t.q.flushComplete ==> s.q.flushComplete)
    ensures !s.unanswered && t.unanswered ==> !t.q.flushComplete
    ensures s.unanswered && t.q.flushing ==> t.unanswered
  {
    if BeginFlush(s, t) {
    } else if Terminate(s, t) {
    }
  }

  /** What a client step does to the event and the worker. */
  lemma ClientEvents(s: Sys, t: Sys)
    requires ClientNext(s, t)
    ensures t.pc == s.pc && (t.q.flushComplete ==> s.q.flushComplete)
    ensures !s.unanswered && t.unanswered ==> !t.q.flushComplete
    ensures s.unanswered && t.q.flushing ==> t.unanswered
  {
    if count :| Receive(s, t, count) {
      ReceiveEvents(s, t, count);
    } else if BeginFlush(s, t) || Terminate(s, t) || Unlocked(s, t) {
      FlagEvents(s, t);
    } else {
      QueueEvents(s, t);
    }
  }

  /** While a flush is on, looking at the queue empties it and ends at a wait, or ends the worker. */
  lemma CollectInFlush(s: Sys, t: Sys)
    requires Shape(s) && Collect(s, t) && s.q.flushing
    ensures s.q.terminate ==> t.pc.Ended? && t.unanswered == s.unanswered && t.q.flushComplete == s.q.flushComplete
    ensures !s.q.terminate ==> t.pc.Waiting? && !t.unanswered && t.q.flushComplete
  {
    if !s.q.terminate {
      WorkerStepKeeps(s.c, s.q);
    }
  }

  /** What the worker's other steps do. */
  lemma WorkerEvents(s: Sys, t: Sys)
    requires WorkerNext(s, t) && !Collect(s, t)
    ensures t.unanswered == s.unanswered
    ensures ResetInHand(t) ==> ResetInHand(s)
    ensures ResetInHand(s) && !ResetInHand(t) ==> t.pc.Top? && t.q.flushComplete
    ensures t.q.flushComplete != s.q.flushComplete ==> ResetInHand(s) && t.pc.Top? && t.q.flushComplete
    ensures !s.pc.Top? && !s.pc.Ended?
  {
    if DoControl(s, t) {
    } else if LookAtResult(s, t) || StoreResult(s, t) {
    } else if Wake(s, t) || ReleaseAll(s, t) || SendEnd(s, t) {
    }
  }

  /** In a flush begun with or without a Reset in the worker's hand: no other Reset comes into it, and
      the event is set for an unseen flush only by that one. */
  ghost predicate EventFrom(s: Sys, had: bool) {
    && s.q.flushing
    && (ResetInHand(s) ==> had)
    && (s.q.flushComplete && s.unanswered ==> had && (s.pc.Top? || s.pc.Ended?))
  }

  lemma NextKeepsEventFrom(s: Sys, t: Sys, had: bool)
    requires Shape(s) && Next(s, t) && EventFrom(s, had) && t.q.flushing
    ensures EventFrom(t, had)
  {
    if ClientNext(s, t) {
      ClientEvents(s, t);
    } else if Collect(s, t) {
      CollectInFlush(s, t);
    } else {
      WorkerEvents(s, t);
    }
  }

  lemma {:induction false} EventInFlush(run: seq<Sys>, k: nat, i: nat)
    requires InFlush(run, k, i)
    ensures EventFrom(run[i], ResetInHand(run[k]))
    decreases i
  {
    if i == k + 1 {
      BeginIsFlushing(run[k], run[i]);
    } else {
      EventInFlush(run, k, i - 1);
      StepKeepsEventFrom(run, i - 1, ResetInHand(run[k]));
    }
  }

  lemma StepKeepsEventFrom(run: seq<Sys>, i: nat, had: bool)
    requires IsRun(run) && i + 1 < |run| && EventFrom(run[i], had) && run[i + 1].q.flushing
    ensures EventFrom(run[i + 1], had)
  {
    RunsKeepInv(run, i);
    assert StepAt(run, i);
    NextKeepsEventFrom(run[i], run[i + 1], had);
  }

  /** Nobody has taken the event back. */
  ghost predicate EventKept(run: seq<Sys>, k: nat, i: nat) {
    forall j :: k < j < i && i < |run| ==> KeptAt(run, j)
  }

  ghost predicate KeptAt(run: seq<Sys>, j: nat)
    requires j + 1 < |run|
  {
    run[j].q.flushComplete ==> run[j + 1].q.flushComplete
  }

  lemma StepKeepsHand(s: Sys, t: Sys)
    requires Shape(s) && Next(s, t) && (ResetInHand(s) || s.q.flushComplete) && (s.q.flushComplete ==> t.q.flushComplete)
    ensures ResetInHand(t) || t.q.flushComplete
  {
    if ClientNext(s, t) {
      ClientEvents(s, t);
    } else if !Collect(s, t) {
      WorkerEvents(s, t);
    }
  }

  lemma {:induction false} ResetSetsEvent(run: seq<Sys>, k: nat, i: nat)
    requires InFlush(run, k, i) && EventKept(run, k, i) && ResetInHand(run[k])
    ensures ResetInHand(run[i]) || run[i].q.flushComplete
    decreases i
  {
    if i == k + 1 {
      BeginIsFlushing(run[k], run[i]);
    } else {
      assert EventKept(run, k, i - 1);
      ResetSetsEvent(run, k, i - 1);
      RunsKeepInv(run, i - 1);
      assert StepAt(run, i - 1) && KeptAt(run, i - 1);
      StepKeepsHand(run[i - 1], run[i]);
    }
  }

  /** In a flush the event is set although the worker has not seen the flush, exactly if the worker had
      a Reset in hand when the flush began, has answered it and has not looked at the queue since, or
      only to end.  (Until somebody takes the event back.) */
  lemma EventUnseenIff(run: seq<Sys>, k: nat, i: nat)
    requires InFlush(run, k, i) && EventKept(run, k, i)
    ensures run[i].q.flushComplete && run[i].unanswered
       <==> run[i].unanswered && ResetInHand(run[k]) && (run[i].pc.Top? || run[i].pc.Ended?)
  {
    EventInFlush(run, k, i);
    if ResetInHand(run[k]) {
      ResetSetsEvent(run, k, i);
    }
  }

  /** EndFlush's wait does wait for the worker: if no Reset was in its hand when the flush began, the
      event is set only when it has seen the flush, whatever was or is on the list. */
  lemma FlushEventMeansSeen(run: seq<Sys>, k: nat, i: nat)
    requires InFlush(run, k, i) && !ResetInHand(run[k])
    ensures run[i].q.flushComplete ==> !run[i].unanswered
  {
    EventInFlush(run, k, i);
  }

  /** What a flush is for: once EndFlush's wait can return, that is when the event is set in the flush
      begun at step k, nothing accepted before BeginFlush is delivered any more, provided that the
      worker had no Reset in hand at BeginFlush. */
  lemma NothingOldAfterFlush(run: seq<Sys>, k: nat, m: nat, i: nat, d: nat)
    requires InFlush(run, k, m) && !ResetInHand(run[k]) && m <= i < |run|
    requires run[m].q.flushComplete && |run[m].delivered| <= d < |run[i].delivered|
    ensures Carries(run[i].delivered[d]) && run[i].delivered[d].n >= |run[k].accepted|
  {
    FlushingGoesOn(run, k, m);
    FlushEventMeansSeen(run, k, m);
    OnlyGoesOn(run, m, i, |run[k].accepted|);
    assert run[i].delivered[d] == Trail(run[i])[d];
  }

  /** A Reset in hand lets old samples through: for every configuration there is a run in which it is
      answered during the flush, EndFlush goes on, and the samples accepted before BeginFlush are
      delivered. */
  lemma ResetLetsOldThrough(c: Config) returns (run: seq<Sys>)
    requires c.size > 0
    ensures IsRun(run) && |run| == 11 && run[0].c == c
    ensures InFlush(run, 3, 5) && ResetInHand(run[3]) && run[5].q.flushComplete && run[5].unanswered
    ensures !run[6].q.flushComplete && !run[7].q.flushing && run[5].delivered == []
    ensures run[10].delivered == run[3].accepted == Fresh(0, c.size)
  {
    var begun := ResetThenSample(c);
    var s4, s5 := FlushAroundReset(begun, Fresh(0, c.size));
    var s6, s7 := FlushEnds(begun + [s4, s5], Fresh(0, c.size));
    run := SamplesGoOn(begun + [s4, s5] + [s6, s7], Fresh(0, c.size));
    assert run[..6] == begun + [s4, s5] && run[3] == begun[3] && run[4] == s4 && run[5] == s5 && run[6] == s6 && run[7] == s7;
  }

  lemma ExtendRun(run: seq<Sys>, t: Sys)
    requires IsRun(run) && Next(run[|run| - 1], t)
    ensures IsRun(run + [t])
  {
    var more := run + [t];
    forall i | 0 <= i < |more| - 1
      ensures StepAt(more, i)
    {
      if i < |run| - 1 {
        assert StepAt(run, i);
      }
    }
  }

  /** The worker takes a Reset off the list; a batch of samples is accepted. */
  lemma ResetThenSample(c: Config) returns (run: seq<Sys>)
    requires c.size > 0
    ensures IsRun(run) && |run| == 4 && run[0].c == c && run[3].c == c && run[3].pc == Controlling(Some(Reset))
    ensures run[3].q == Queue(Fresh(0, c.size), [], 0, 0, false, false, false, 0, false)
    ensures run[3].accepted == Fresh(0, c.size) && run[3].delivered == [] && !run[3].unanswered
  {
    var s0 := Sys(c, Queue([], [], 0, 0, false, true, false, 0, false), Top, [], [], multiset{}, false, true);
    var s1 := s0.(q := s0.q.(list := [Reset]));
    assert QueueControl(s0, s1, Reset);
    assert IsRun([s0]);
    ExtendRun([s0], s1);
    var s2 := s1.(q := s1.q.(list := []), pc := Controlling(Some(Reset)));
    CollectReset(s1, s2);
    ExtendRun([s0] + [s1], s2);
    var s3 := s2.(q := s2.q.(list := Fresh(0, c.size), flushed := false), accepted := Fresh(0, c.size));
    assert [] + Fresh(0, c.size) == Fresh(0, c.size);
    assert Receive(s2, s3, c.size);
    ExtendRun([s0] + [s1] + [s2], s3);
    run := [s0] + [s1] + [s2] + [s3];
  }

  /** A flush begins and the Reset is answered. */
  lemma FlushAroundReset(run: seq<Sys>, samples: seq<Item>) returns (s4: Sys, s5: Sys)
    requires IsRun(run) && |run| == 4 && run[3].pc == Controlling(Some(Reset)) && run[3].delivered == []
    requires run[3].q == Queue(samples, [], 0, 0, false, false, false, 0, false)
    ensures IsRun(run + [s4, s5]) && BeginFlush(run[3], s4) && BeginFlushStep(run[3].c, run[3].q).1 && s4.q.flushing
    ensures s5.pc == Top && s5.unanswered && s5.delivered == [] && s5.c == run[3].c
    ensures s5.q == Queue(samples, [], 0, 0, true, false, false, 0, true)
  {
    var s3 := run[3];
    s4 := s3.(q := s3.q.(flushing := true, hr := 1), unanswered := true, clean := false);
    assert BeginFlush(s3, s4);
    ExtendRun(run, s4);
    s5 := s4.(q := s4.q.(hr := 0, flushComplete := true), pc := Top);
    assert DoControl(s4, s5);
    ExtendRun(run + [s4], s5);
    assert run + [s4] + [s5] == run + [s4, s5];
  }

  /** EndFlush takes the event and clears the flags. */
  lemma FlushEnds(run: seq<Sys>, samples: seq<Item>) returns (s6: Sys, s7: Sys)
    requires IsRun(run) && run[|run| - 1].pc == Top && run[|run| - 1].delivered == []
    requires run[|run| - 1].q == Queue(samples, [], 0, 0, true, false, false, 0, true)
    ensures IsRun(run + [s6, s7]) && !s6.q.flushComplete
    ensures s7.pc == Top && !s7.unanswered && s7.delivered == [] && s7.c == run[|run| - 1].c
    ensures s7.q == Queue(samples, [], 0, 0, false, true, false, 0, false)
  {
    var s5 := run[|run| - 1];
    s6 := s5.(q := s5.q.(flushComplete := false));
    assert Unlocked(s5, s6);
    ExtendRun(run, s6);
    s7 := s6.(q := s6.q.(flushing := false, flushed := true), unanswered := false);
    assert Unlocked(s6, s7);
    ExtendRun(run + [s6], s7);
    assert run + [s6] + [s7] == run + [s6, s7];
  }

  /** The samples are collected and handed on. */
  lemma SamplesGoOn(run: seq<Sys>, samples: seq<Item>) returns (more: seq<Sys>)
    requires IsRun(run)
    requires var s := run[|run| - 1];
             && s.pc == Top && s.q == Queue(samples, [], 0, 0, false, true, false, 0, false) && s.delivered == []
             && s.c.size == |samples| > 0 && AllData(samples) && !s.unanswered
    ensures IsRun(more) && |more| == |run| + 3 && more[..|run|] == run && more[|run| + 2].delivered == samples
  {
    var s7 := run[|run| - 1];
    var s8 := s7.(q := s7.q.(list := []), pc := Chosen(samples, None));
    CollectFull(s7, s8, samples);
    ExtendRun(run, s8);
    var s9 := s8.(pc := Calling(samples, None));
    assert LookAtResult(s8, s9);
    ExtendRun(run + [s8], s9);
    var s10 := s9.(delivered := samples, pc := Returned(samples, None, 0));
    assert CallDownstream(s9, s10, 0);
    more := run + [s8] + [s9] + [s10];
    ExtendRun(run + [s8] + [s9], s10);
  }

  lemma CollectReset(s: Sys, t: Sys)
    requires s.pc.Top? && s.q.list == [Reset] && s.q.batch == [] && !s.q.terminate && !s.q.flushing
    requires t == s.(q := s.q.(list := []), pc := Controlling(Some(Reset)))
    ensures Collect(s, t)
  {
    assert s.released + multiset(DataOf([])) == s.released;
    assert [Reset][1..] == [];
    assert Gather(s.c, [Reset], []) == ([], [], Go(Some(Reset)));
  }

  lemma CollectFull(s: Sys, t: Sys, samples: seq<Item>)
    requires s.pc.Top? && s.q.list == samples && s.q.batch == [] && !s.q.terminate && !s.q.flushing
    requires s.c.size == |samples| > 0 && AllData(samples) && !s.unanswered
    requires t == s.(q := s.q.(list := []), pc := Chosen(samples, None))
    ensures Collect(s, t)
  {
    assert s.released + multiset([]) == s.released;
    GatherFull(s.c, samples, []);
    assert [] + samples == samples;
  }
}
