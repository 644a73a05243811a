/**
COutputQueue over whole runs after a result other than S_OK, when m_hr is sticky and nothing but segments
is sent, and before a flush that is not passed on because there is nothing to flush.
 */
module OutputQueueErrors {
  import opened Options
  import opened OutputQueueSpec
  import opened OutputQueueRuns

  /** The sticky result is not S_OK, or a call has just come back with such a result, and no call that
      looked at it earlier is still to be made. */
  ghost predicate Shut(s: Sys) {
    && !s.pc.Calling? && !s.pc.Ending?
    && (s.q.hr != 0 || (s.pc.Returned? && s.pc.result != 0))
  }

  /** The end of a flush, or of a Reset, makes it S_OK again. */
  ghost predicate Reopens(s: Sys, t: Sys) {
    s.q.hr != 0 && t.q.hr == 0
  }

  /** Only segments have been added. */
  ghost predicate OnlySegmentsAdded(before: seq<Item>, after: seq<Item>) {
    && |before| <= |after| && before == after[..|before|]
    && forall i :: |before| <= i < |after| ==> after[i].Segment?
  }

  ghost predicate OneSegmentMore(before: seq<Item>, after: seq<Item>) {
    after == before || exists item: Item :: item.Segment? && after == before + [item]
  }

  lemma SegmentAdded(a: seq<Item>, b: seq<Item>, c: seq<Item>)
    requires OnlySegmentsAdded(a, b) && OneSegmentMore(b, c)
    ensures OnlySegmentsAdded(a, c)
  {
  }

  lemma ClientKeepsShut(s: Sys, t: Sys)
    requires Shut(s) && ClientNext(s, t) && !Reopens(s, t)
    ensures Shut(t) && t.delivered == s.delivered
  {
    if count :| Receive(s, t, count) {
      ReceiveFrame(s, t, count);
    } else if NewSegment(s, t) || EndStream(s, t) {
      QueueFrame(s, t);
    } else if item :| QueueControl(s, t, item) {
      ControlFrame(s, t, item);
    } else {
      FlagsFrame(s, t);
    }
  }

  lemma WorkerKeepsShut(s: Sys, t: Sys)
    requires Shut(s) && WorkerNext(s, t) && !Reopens(s, t)
    ensures Shut(t)
    ensures OneSegmentMore(s.delivered, t.delivered)
  {
    if Collect(s, t) {
      CollectFrame(s, t);
    } else if LookAtResult(s, t) || StoreResult(s, t) {
    } else if Wake(s, t) || ReleaseAll(s, t) {
    } else if DoControl(s, t) {
    }
  }

  /** The pin's answer is kept: the first that is not S_OK shuts the queue as soon as it is given. */
  lemma BadResultShuts(s: Sys, t: Sys, result: int)
    requires CallDownstream(s, t, result) && result != 0
    ensures Shut(t) && forall u :: StoreResult(t, u) && t.q.hr == 0 ==> u.q.hr == result
  {
  }

  /** From then on, until m_hr is made S_OK again, no sample and no end of stream goes downstream;
      only segments, which are sent whatever m_hr is. */
  lemma {:induction false} NothingSentWhileShut(run: seq<Sys>, i: nat, j: nat)
    requires IsRun(run) && i <= j < |run| && Shut(run[i])
    requires forall k :: i <= k < j ==> StaysShut(run, k)
    ensures Shut(run[j]) && OnlySegmentsAdded(run[i].delivered, run[j].delivered)
  {
    if i < j {
      NothingSentWhileShut(run, i, j - 1);
      assert StaysShut(run, j - 1);
      ShutAt(run, j - 1);
      SegmentAdded(run[i].delivered, run[j - 1].delivered, run[j].delivered);
    }
  }

  lemma ShutAt(run: seq<Sys>, i: nat)
    requires IsRun(run) && i + 1 < |run| && Shut(run[i]) && StaysShut(run, i)
    ensures Shut(run[i + 1]) && OneSegmentMore(run[i].delivered, run[i + 1].delivered)
  {
    assert StepAt(run, i);
    NextKeepsShut(run[i], run[i + 1]);
  }

  lemma NextKeepsShut(s: Sys, t: Sys)
    requires Shut(s) && Next(s, t) && !Reopens(s, t)
    ensures Shut(t) && OneSegmentMore(s.delivered, t.delivered)
  {
    if ClientNext(s, t) {
      ClientKeepsShut(s, t);
    } else {
      WorkerKeepsShut(s, t);
    }
  }

  /** Only a client that ends a flush, and the worker at a Reset, make m_hr S_OK again. */
  lemma ReopenedBy(s: Sys, t: Sys)
    requires Next(s, t) && Reopens(s, t)
    ensures Unlocked(s, t) || (s.pc == Controlling(Some(Reset)) && DoControl(s, t))
  {
    if ClientNext(s, t) {
      ClientReopens(s, t);
    } else {
      WorkerReopens(s, t);
    }
  }

  lemma ClientReopens(s: Sys, t: Sys)
    requires ClientNext(s, t) && Reopens(s, t)
    ensures Unlocked(s, t)
  {
    if count :| Receive(s, t, count) {
    } else if item :| QueueControl(s, t, item) {
    } else if NewSegment(s, t) || EndStream(s, t) {
    } else if BeginFlush(s, t) || Terminate(s, t) {
    }
  }

  lemma WorkerReopens(s: Sys, t: Sys)
    requires WorkerNext(s, t) && Reopens(s, t)
    ensures s.pc == Controlling(Some(Reset)) && DoControl(s, t)
  {
    if Collect(s, t) {
      CollectFrame(s, t);
    } else if LookAtResult(s, t) || StoreResult(s, t) {
    } else if Wake(s, t) || ReleaseAll(s, t) {
    }
  }

  ghost predicate StaysShut(run: seq<Sys>, k: nat)
    requires k + 1 < |run|
  {
    !Reopens(run[k], run[k + 1])
  }

  // ---------------------------------------------------------------------------------
  // Segments
  // ---------------------------------------------------------------------------------

  /** Taking out a piece without segments takes out no segment. */
  lemma CutKeepsSegment(a: seq<Item>, b: seq<Item>, d: seq<Item>, x: Item)
    requires x in a + b + d && x !in b
    ensures x in a + d
  {
  }

  lemma WorkerKeepsSegment(s: Sys, t: Sys, x: Item)
    requires Shape(s) && WorkerNext(s, t) && !s.q.terminate && !s.q.flushing && x.Segment? && x in Trail(s)
    ensures x in Trail(t)
  {
    if Collect(s, t) {
      CollectKeepsTrail(s, t);
    } else if LookAtResult(s, t) {
      if s.q.hr != 0 {
        LookCuts(s, t);
        CutKeepsSegment(s.delivered, s.pc.send, ControlPayload(s.pc.control) + Queued(s.q), x);
      }
    } else if result :| CallDownstream(s, t, result) {
      CallKeepsTrail(s, t, result);
    } else if DoControl(s, t) {
      ControlKeepsSegment(s, t, x);
    } else {
      StoreKeepsTrail(s, t);
    }
  }

  lemma ControlKeepsSegment(s: Sys, t: Sys, x: Item)
    requires Shape(s) && DoControl(s, t) && x.Segment? && x in Trail(s)
    ensures x in Trail(t)
  {
    if s.pc.control.Some? {
      var item := s.pc.control.value;
      assert Payload([item]) == if Carries(item) then [item] else [];
      if item.EndOfStream? && s.q.hr != 0 {
        CutKeepsSegment(s.delivered, [item], Queued(s.q), x);
      }
    }
  }

  lemma ClientKeepsSegment(s: Sys, t: Sys, x: Item)
    requires ClientNext(s, t) && x in Trail(s)
    ensures x in Trail(t)
  {
    if count :| Receive(s, t, count) {
      if s.q.hr == 0 {
        ReceiveExtends(s, t, count);
      }
    } else if item :| QueueControl(s, t, item) {
      ControlItemExtends(s, t, item);
    } else if NewSegment(s, t) || EndStream(s, t) {
      OneItemExtends(s, t);
    } else {
      FlagsExtend(s, t);
    }
  }

  ghost predicate Calm(s: Sys) {
    !s.q.terminate && !s.q.flushing
  }

  lemma NextKeepsSegment(s: Sys, t: Sys, x: Item)
    requires Shape(s) && Next(s, t) && Calm(s) && x.Segment? && x in Trail(s)
    ensures x in Trail(t)
  {
    if ClientNext(s, t) {
      ClientKeepsSegment(s, t, x);
    } else {
      WorkerKeepsSegment(s, t, x);
    }
  }

  /** A segment that was accepted has been delivered or is still on its way, whatever m_hr has been, for
      as long as nothing is flushed and the queue not terminated. */
  lemma {:induction false} SegmentsGetThrough(run: seq<Sys>, i: nat, j: nat, x: Item)
    requires IsRun(run) && i <= j < |run| && x.Segment? && x in Trail(run[i])
    requires forall k :: i <= k < j ==> Calm(run[k])
    ensures x in Trail(run[j])
  {
    if i < j {
      SegmentsGetThrough(run, i, j - 1, x);
      SegmentAt(run, j - 1, x);
    }
  }

  lemma SegmentAt(run: seq<Sys>, i: nat, x: Item)
    requires IsRun(run) && i + 1 < |run| && x.Segment? && x in Trail(run[i]) && Calm(run[i])
    ensures x in Trail(run[i + 1])
  {
    RunsKeepInv(run, i);
    assert StepAt(run, i);
    NextKeepsSegment(run[i], run[i + 1], x);
  }

  // ---------------------------------------------------------------------------------
  // The flush that is skipped
  // ---------------------------------------------------------------------------------

  lemma FlushedStep(s: Sys, t: Sys)
    requires Next(s, t) && s.q.flushed && t.q.flushed
    ensures OneSegmentMore(s.accepted, t.accepted)
  {
    if ClientNext(s, t) {
      if count :| Receive(s, t, count) {
      } else if item :| QueueControl(s, t, item) {
      } else if NewSegment(s, t) || EndStream(s, t) {
      } else {
        FlagsFrame(s, t);
      }
    } else {
      WorkerFrame(s, t);
    }
  }

  /** A flush is left out only while m_bFlushed is set, and as long as it is no sample and no end of
      stream is accepted, so there is nothing downstream to flush. */
  lemma {:induction false} NothingToFlush(run: seq<Sys>, i: nat, j: nat)
    requires IsRun(run) && i <= j < |run| && forall k :: i <= k <= j ==> Skips(run[k])
    ensures OnlySegmentsAdded(run[i].accepted, run[j].accepted)
  {
    if i < j {
      NothingToFlush(run, i, j - 1);
      SkipsAt(run, j - 1);
      SegmentAdded(run[i].accepted, run[j - 1].accepted, run[j].accepted);
    }
  }

  lemma SkipsAt(run: seq<Sys>, i: nat)
    requires IsRun(run) && i + 1 < |run| && Skips(run[i]) && Skips(run[i + 1])
    ensures OneSegmentMore(run[i].accepted, run[i + 1].accepted)
  {
    assert StepAt(run, i);
    FlushedStep(run[i], run[i + 1]);
  }

  ghost predicate Skips(s: Sys) {
    s.q.flushed
  }
}
