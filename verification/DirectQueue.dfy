/**
COutputQueue without a thread: samples are batched and sent from within ReceiveMultiple.
 */
module DirectQueueSpec {
  import opened MachineInts

  /** What the downstream pin answers to a batch: its result, 0 for S_OK, and how many samples it says
      it has processed. */
  datatype Answer = Answer(hr: int, processed: int)

  datatype Setup = Setup(size: nat, exact: bool, downstream: nat -> Answer)

  /** The batch, the sticky result, the number of batches sent, and what was handed on and released.
      Samples are told apart by their numbers. */
  datatype Direct = Direct(batch: seq<nat>, hr: int, sends: nat, delivered: seq<nat>, released: seq<nat>)

  const FRESH := Direct([], 0, 0, [], [])

  /** The batch is handed on unless an earlier result was not S_OK; released it is in any case. */
  function SendStep(u: Setup, s: Direct): Direct {
    var t := s.(batch := [], released := s.released + s.batch);
    if s.hr == 0 then t.(hr := u.downstream(s.sends).hr, sends := s.sends + 1, delivered := s.delivered + s.batch) else t
  }

  function AddStep(u: Setup, s: Direct, sample: nat): Direct {
    var t := s.(batch := s.batch + [sample]);
    if |t.batch| == u.size then SendStep(u, t) else t
  }

  /** Sample by sample. */
  function AddAll(u: Setup, s: Direct, given: seq<nat>): Direct {
    if given == [] then s else AddStep(u, AddAll(u, s, given[..|given| - 1]), given[|given| - 1])
  }

  function ReceiveStep(u: Setup, s: Direct, given: seq<nat>): Direct {
    if s.hr != 0 then s.(released := s.released + given) else AddAll(u, s, given)
  }

  function SendAnywayStep(u: Setup, s: Direct): Direct {
    if s.hr != 0 || s.batch == [] then s else SendStep(u, s)
  }

  // ---------------------------------------------------------------------------------
  // One call
  // ---------------------------------------------------------------------------------

  /** All there was: sent on, then, after a result that is not S_OK, thrown away, then still in the
      batch; both the sent and the thrown away have been released. */
  ghost predicate Splits(s: Direct, t: Direct, given: seq<nat>, sent: seq<nat>, dropped: seq<nat>) {
    && sent + dropped + t.batch == s.batch + given && (t.hr == 0 ==> dropped == [])
    && t.delivered == s.delivered + sent && t.released == s.released + (sent + dropped)
  }

  lemma AddSplits(u: Setup, s: Direct, t: Direct, given: seq<nat>, x: nat, sent: seq<nat>, dropped: seq<nat>)
    returns (sent': seq<nat>, dropped': seq<nat>)
    requires Splits(s, t, given, sent, dropped)
    ensures Splits(s, AddStep(u, t, x), given + [x], sent', dropped')
  {
    var piece := t.batch + [x];
    sent', dropped' := sent, dropped;
    assert sent + dropped + piece == (sent + dropped + t.batch) + [x];
    assert s.batch + (given + [x]) == (s.batch + given) + [x];
    if |piece| == u.size {
      if t.hr == 0 {
        sent' := sent + piece;
        assert s.released + (sent + []) + piece == s.released + (sent' + []);
      } else {
        dropped' := dropped + piece;
        assert s.released + (sent + dropped) + piece == s.released + (sent + dropped');
        assert sent + dropped' + [] == sent + dropped + piece;
      }
    }
  }

  /** In a call every sample is accounted for, in order. */
  lemma {:induction false} ReceiveSplits(u: Setup, s: Direct, given: seq<nat>) returns (sent: seq<nat>, dropped: seq<nat>)
    requires s.hr == 0
    ensures Splits(s, AddAll(u, s, given), given, sent, dropped)
  {
    if given == [] {
      sent, dropped := [], [];
    } else {
      var less := given[..|given| - 1];
      sent, dropped := ReceiveSplits(u, s, less);
      sent, dropped := AddSplits(u, s, AddAll(u, s, less), less, given[|given| - 1], sent, dropped);
      assert less + [given[|given| - 1]] == given;
    }
  }

  /** How many stay in the batch. */
  lemma {:induction false} AddAllBatched(u: Setup, s: Direct, given: seq<nat>)
    requires u.size > 0 && |s.batch| < u.size
    ensures |AddAll(u, s, given).batch| == Rem(|s.batch| + |given|, u.size)
    ensures |AddAll(u, s, given).batch| < u.size
  {
    if given != [] {
      AddAllBatched(u, s, given[..|given| - 1]);
      RemNext(|s.batch| + |given| - 1, u.size);
    }
  }

  lemma {:induction false} RemNext(m: nat, u: nat)
    requires u > 0
    ensures Rem(m + 1, u) == if Rem(m, u) + 1 == u then 0 else Rem(m, u) + 1
  {
    if m >= u {
      RemNext(m - u, u);
    }
  }

  // ---------------------------------------------------------------------------------
  // What downstream answers
  // ---------------------------------------------------------------------------------

  /** Of the batch about to be sent, how many samples downstream does not process. */
  function LostBySend(u: Setup, s: Direct): int {
    |s.batch| - (if s.hr == 0 then u.downstream(s.sends).processed else 0)
  }

  /** iLost after the samples given. */
  function Lost(u: Setup, s: Direct, given: seq<nat>): int {
    if given == [] then 0
    else
      var t := AddAll(u, s, given[..|given| - 1]);
      var t' := t.(batch := t.batch + [given[|given| - 1]]);
      Lost(u, s, given[..|given| - 1]) + (if |t'.batch| == u.size then LostBySend(u, t') else 0)
  }

  /** What downstream says it has processed in the sends from `first` up to `last`. */
  function ProcessedIn(u: Setup, first: nat, last: nat): int
    requires first <= last
    decreases last
  {
    if first == last then 0 else ProcessedIn(u, first, last - 1) + u.downstream(last - 1).processed
  }

  /** The sends of a call that began with S_OK: every answer but the last was S_OK, the last is the
      sticky result, and as long as that is S_OK no full batch was kept back. */
  ghost predicate Answered(u: Setup, s: Direct, t: Direct, batches: nat) {
    && s.sends <= t.sends <= s.sends + batches
    && (forall k :: s.sends <= k < t.sends - 1 ==> u.downstream(k).hr == 0)
    && (t.sends > s.sends ==> u.downstream(t.sends - 1).hr == t.hr)
    && (t.sends == s.sends ==> t.hr == 0)
    && (t.hr == 0 ==> t.sends == s.sends + batches)
  }

  lemma AnsweredMore(u: Setup, s: Direct, t: Direct, batches: nat, x: nat)
    requires Answered(u, s, t, batches) && |t.batch| + 1 == u.size
    ensures Answered(u, s, AddStep(u, t, x), batches + 1)
  {
  }

  lemma {:induction false} ResultIsKept(u: Setup, s: Direct, given: seq<nat>)
    requires u.size > 0 && |s.batch| < u.size && s.hr == 0
    ensures Answered(u, s, AddAll(u, s, given), Quot(|s.batch| + |given|, u.size))
  {
    if given != [] {
      var less := given[..|given| - 1];
      ResultIsKept(u, s, less);
      AddAllBatched(u, s, less);
      var t := AddAll(u, s, less);
      QuotNext(|s.batch| + |less|, u.size);
      if |t.batch| + 1 == u.size {
        AnsweredMore(u, s, t, Quot(|s.batch| + |less|, u.size), given[|given| - 1]);
      }
    }
  }

  lemma {:induction false} QuotNext(m: nat, u: nat)
    requires u > 0
    ensures Quot(m + 1, u) == Quot(m, u) + if Rem(m, u) + 1 == u then 1 else 0
  {
    if m >= u {
      QuotNext(m - u, u);
    }
  }

  /** The samples lost are those of the batches filled less what downstream has processed. */
  lemma {:induction false} LostIs(u: Setup, s: Direct, given: seq<nat>)
    requires u.size > 0 && |s.batch| < u.size
    ensures var t := AddAll(u, s, given);
            && s.sends <= t.sends
            && Lost(u, s, given) == Quot(|s.batch| + |given|, u.size) * u.size - ProcessedIn(u, s.sends, t.sends)
  {
    if given != [] {
      var less := given[..|given| - 1];
      LostIs(u, s, less);
      AddAllBatched(u, s, less);
      var q := Quot(|s.batch| + |less|, u.size);
      QuotNext(|s.batch| + |less|, u.size);
      MulDistributes(q, 1, u.size);
    }
  }

  // ---------------------------------------------------------------------------------
  // Every sequence of calls
  // ---------------------------------------------------------------------------------

  /** The calls; Mark is EOS or NewSegment, which send what is batched if batches are exact. */
  datatype Call = Receive(given: seq<nat>) | SendAnyway | Mark | Reset | BeginFlush | EndFlush

  function Step(u: Setup, s: Direct, call: Call): Direct {
    match call
    case Receive(given) => ReceiveStep(u, s, given)
    case SendAnyway => SendAnywayStep(u, s)
    case Mark => if u.exact then SendAnywayStep(u, s) else s
    case Reset => s.(hr := 0)
    case BeginFlush => s.(hr := if s.hr == 0 then 1 else s.hr)
    case EndFlush => s.(hr := 0, batch := [], released := s.released + s.batch)
  }

  ghost predicate IsRun(u: Setup, run: seq<Direct>, calls: seq<Call>) {
    && |run| == |calls| + 1 && run[0] == FRESH
    && forall i :: 0 <= i < |calls| ==> run[i + 1] == Step(u, run[i], calls[i])
  }

  lemma StepKeepsBatch(u: Setup, s: Direct, call: Call)
    requires u.size > 0 && |s.batch| < u.size
    ensures |Step(u, s, call).batch| < u.size
  {
    if call.Receive? && s.hr == 0 {
      AddAllBatched(u, s, call.given);
    }
  }

  /** The batch is never full between calls. */
  lemma {:induction false} RunsKeepBatch(u: Setup, run: seq<Direct>, calls: seq<Call>, i: nat)
    requires u.size > 0 && IsRun(u, run, calls) && i < |run|
    ensures |run[i].batch| < u.size
  {
    if i > 0 {
      RunsKeepBatch(u, run, calls, i - 1);
      StepKeepsBatch(u, run[i - 1], calls[i - 1]);
    }
  }

  /** The assertion at the entry of ReceiveMultiple: nothing is batched unless batches are exact.  It is
      made only while the sticky result is S_OK. */
  ghost predicate EntryAssertion(u: Setup, s: Direct) {
    s.hr == 0 ==> s.batch == [] || u.exact
  }

  /** One sample is enough to break it. */
  lemma OneSampleBreaks(u: Setup, x: nat) returns (run: seq<Direct>, calls: seq<Call>)
    requires u.size > 1 && !u.exact
    ensures IsRun(u, run, calls) && calls == [Receive([x])]
    ensures run[1].batch == [x] && run[1].hr == 0 && !EntryAssertion(u, run[1])
  {
    calls := [Receive([x])];
    assert AddAll(u, FRESH, []) == FRESH;
    assert [x][..0] == [];
    var s := Step(u, FRESH, calls[0]);
    assert s == AddStep(u, FRESH, x);
    run := [FRESH, s];
  }

  /** In whatever way it is called and whatever downstream answers, the assertion holds at every entry
      exactly in the configurations with exact batches or batches of one. */
  lemma AssertionHoldsIff(u: Setup)
    requires u.size > 0
    ensures (forall run, calls, i :: IsRun(u, run, calls) && 0 <= i < |run| ==> EntryAssertion(u, run[i]))
            <==> u.exact || u.size == 1
  {
    if u.exact || u.size == 1 {
      forall run, calls, i | IsRun(u, run, calls) && 0 <= i < |run|
        ensures EntryAssertion(u, run[i])
      {
        RunsKeepBatch(u, run, calls, i);
      }
    } else {
      var run, calls := OneSampleBreaks(u, 0);
      assert IsRun(u, run, calls) && !EntryAssertion(u, run[1]);
    }
  }

  /** The samples given in the calls so far. */
  function GivenIn(call: Call): seq<nat> {
    if call.Receive? then call.given else []
  }

  function Given(calls: seq<Call>): seq<nat> {
    if calls == [] then [] else Given(calls[..|calls| - 1]) + GivenIn(calls[|calls| - 1])
  }

  lemma ReceiveBalances(u: Setup, s: Direct, given: seq<nat>)
    requires s.hr == 0
    ensures var t := AddAll(u, s, given);
            multiset(t.released) + multiset(t.batch) == multiset(s.released) + multiset(s.batch) + multiset(given)
  {
    var t := AddAll(u, s, given);
    var sent, dropped := ReceiveSplits(u, s, given);
    var gone := sent + dropped;
    assert gone + t.batch == s.batch + given && t.released == s.released + gone;
    assert multiset(gone + t.batch) == multiset(gone) + multiset(t.batch);
    assert multiset(s.batch + given) == multiset(s.batch) + multiset(given);
    assert multiset(s.released + gone) == multiset(s.released) + multiset(gone);
    Regroup(multiset(s.released), multiset(gone), multiset(t.batch), multiset(s.batch), multiset(given));
  }

  lemma Regroup(r: multiset<nat>, g: multiset<nat>, t: multiset<nat>, b: multiset<nat>, n: multiset<nat>)
    requires g + t == b + n
    ensures r + g + t == r + b + n
  {
    assert r + g + t == r + (g + t);
    assert r + b + n == r + (b + n);
  }

  lemma StepBalances(u: Setup, s: Direct, call: Call)
    ensures var t := Step(u, s, call);
            multiset(t.released) + multiset(t.batch)
            == multiset(s.released) + multiset(s.batch) + multiset(GivenIn(call))
  {
    if call.Receive? && s.hr == 0 {
      ReceiveBalances(u, s, call.given);
    }
  }

  /** After a result other than S_OK nothing is sent and the result stays, until a Reset or the end of a
      flush. */
  lemma NothingSentAfterBadResult(u: Setup, s: Direct, call: Call)
    requires s.hr != 0 && !call.Reset? && !call.EndFlush?
    ensures var t := Step(u, s, call); t.hr == s.hr && t.delivered == s.delivered && t.sends == s.sends
  {
  }

  ghost predicate DuringFlush(call: Call) {
    !call.Reset? && !call.EndFlush?
  }

  /** From a BeginFlush on nothing goes downstream, and the EndFlush leaves nothing of what was given
      before it, whatever is called in between but a Reset. */
  lemma {:induction false} FlushDiscards(u: Setup, run: seq<Direct>, calls: seq<Call>, i: nat, j: nat)
    requires IsRun(u, run, calls) && i < j <= |calls| && calls[i].BeginFlush?
    requires forall k :: i < k < j ==> DuringFlush(calls[k])
    ensures run[j].hr != 0 && run[j].delivered == run[i].delivered
    ensures j < |calls| && calls[j].EndFlush? ==>
      run[j + 1].hr == 0 && run[j + 1].batch == [] && run[j + 1].delivered == run[i].delivered
  {
    assert run[j - 1 + 1] == Step(u, run[j - 1], calls[j - 1]);
    if i + 1 < j {
      FlushDiscards(u, run, calls, i, j - 1);
      assert DuringFlush(calls[j - 1]);
      NothingSentAfterBadResult(u, run[j - 1], calls[j - 1]);
    }
  }

  /** At an end of stream or a new segment an exact queue holds nothing back, and SendAnyway never does. */
  lemma MarkHoldsNothingBack(u: Setup, s: Direct)
    requires s.hr == 0 && (u.exact || s.batch == [])
    ensures var t := Step(u, s, Mark); t.batch == [] && t.delivered == s.delivered + s.batch
    ensures var t := Step(u, s, SendAnyway); t.batch == [] && t.delivered == s.delivered + s.batch
  {
  }

  lemma StepInOrder(u: Setup, s: Direct, call: Call)
    requires s.hr == 0 && Step(u, s, call).hr == 0 && !call.EndFlush?
    ensures var t := Step(u, s, call); t.delivered + t.batch == s.delivered + s.batch + GivenIn(call)
  {
    if call.Receive? {
      var t := AddAll(u, s, call.given);
      var sent, dropped := ReceiveSplits(u, s, call.given);
      assert sent + [] + t.batch == s.batch + call.given;
      assert t.delivered + t.batch == s.delivered + (sent + t.batch);
      assert s.delivered + (s.batch + call.given) == s.delivered + s.batch + call.given;
    }
  }

  /** While every result has been S_OK and nothing was flushed, what was handed on and what is batched
      are, in this order, all that was given. */
  lemma {:induction false} NothingLostWhileOk(u: Setup, run: seq<Direct>, calls: seq<Call>, i: nat)
    requires IsRun(u, run, calls) && i < |run|
    requires (forall j :: 0 <= j <= i ==> run[j].hr == 0) && (forall j :: 0 <= j < i ==> !calls[j].EndFlush?)
    ensures run[i].delivered + run[i].batch == Given(calls[..i])
  {
    if i > 0 {
      NothingLostWhileOk(u, run, calls, i - 1);
      assert run[i - 1 + 1] == Step(u, run[i - 1], calls[i - 1]);
      StepInOrder(u, run[i - 1], calls[i - 1]);
      assert calls[..i][..i - 1] == calls[..i - 1];
    }
  }

  /** Every sample ever given is released exactly once or still in the batch, whatever is called. */
  lemma {:induction false} ReleasedOnceOrBatched(u: Setup, run: seq<Direct>, calls: seq<Call>, i: nat)
    requires IsRun(u, run, calls) && i < |run|
    ensures multiset(run[i].released) + multiset(run[i].batch) == multiset(Given(calls[..i]))
  {
    if i > 0 {
      ReleasedOnceOrBatched(u, run, calls, i - 1);
      StepBalances(u, run[i - 1], calls[i - 1]);
      assert calls[..i][..i - 1] == calls[..i - 1];
    }
  }
}

/** The object, with its array. */
module DirectQueue {
  import opened MachineInts
  import opened DirectQueueSpec

  class DirectQueuer {
    const u: Setup
    const samples: array<nat>     // m_ppSamples
    var batched: nat              // m_nBatched
    var hr: int
    var sends: nat
    var delivered: seq<nat>
    var released: seq<nat>

    ghost predicate Valid()
      reads this, samples
    {
      samples.Length == u.size && batched < u.size
    }

    ghost function View(): Direct
      reads this, samples
      requires batched <= samples.Length
    {
      Direct(samples[..batched], hr, sends, delivered, released)
    }

    constructor (size: nat, exact: bool, downstream: nat -> Answer)
      requires size > 0
      ensures Valid() && fresh(samples) && u == Setup(size, exact && size > 1, downstream) && View() == FRESH
    {
      u := Setup(size, exact && size > 1, downstream);
      samples := new nat[size](_ => 0);
      batched, hr, sends, delivered, released := 0, 0, 0, [], [];
    }

    method ReleaseAll(given: seq<nat>)
      modifies this`released
      ensures released == old(released) + given
    {
      for i := 0 to |given|
        invariant released == old(released) + given[..i]
      {
        released := released + [given[i]];
      }
      assert given[..|given|] == given;
    }

    method SendBatch() returns (lost: int)
      requires samples.Length == u.size && 0 < batched <= u.size
      modifies this`batched, this`hr, this`sends, this`delivered, this`released
      ensures Valid() && View() == SendStep(u, old(View())) && lost == LostBySend(u, old(View()))
      ensures old(hr) == 0 ==> hr == u.downstream(old(sends)).hr && delivered == old(delivered) + old(samples[..batched])
      ensures old(hr) != 0 ==> hr == old(hr) && delivered == old(delivered) && sends == old(sends)
    {
      var done := 0;
      if hr == 0 {
        var answer := u.downstream(sends);
        sends := sends + 1;
        delivered := delivered + samples[..batched];
        hr, done := answer.hr, answer.processed;
      }
      lost := batched - done;
      ReleaseAll(samples[..batched]);
      batched := 0;
    }

    /** One sample into the batch, which is sent when it is full. */
    method Add(sample: nat) returns (lost: int)
      requires Valid()
      modifies this`batched, this`hr, this`sends, this`delivered, this`released, samples
      ensures Valid() && View() == AddStep(u, old(View()), sample)
      ensures var t := old(View()).(batch := old(View()).batch + [sample]);
              lost == if |t.batch| == u.size then LostBySend(u, t) else 0
    {
      ghost var before := samples[..batched];
      samples[batched] := sample;
      batched := batched + 1;
      assert samples[..batched] == before + [sample];
      lost := 0;
      if batched == u.size {
        lost := SendBatch();
      }
    }

    /** The loop over the samples given. */
    method Fill(given: seq<nat>) returns (lost: int)
      requires Valid()
      modifies this`batched, this`hr, this`sends, this`delivered, this`released, samples
      ensures Valid() && View() == AddAll(u, old(View()), given) && lost == Lost(u, old(View()), given)
    {
      lost := 0;
      for i := 0 to |given|
        invariant Valid() && View() == AddAll(u, old(View()), given[..i]) && lost == Lost(u, old(View()), given[..i])
      {
        assert given[..i + 1][..i] == given[..i];
        var more := Add(given[i]);
        lost := lost + more;
      }
      assert given[..|given|] == given;
    }

    /** ReceiveMultiple without a thread.  SendAnyway calls it with no samples and the flag set; with
        samples and the flag set its loop would not end while a batch is part full. */
    method ReceiveMultiple(given: seq<nat>, sendAnyway: bool) returns (result: int, processed: int)
      requires Valid() && (sendAnyway ==> given == [])
      modifies this, samples
      ensures Valid() && result == hr && processed >= 0
      ensures old(hr) != 0 ==> processed == 0 && hr == old(hr) && delivered == old(delivered)
      ensures old(hr) == 0 && !sendAnyway ==>
        var batches := Quot(old(batched) + |given|, u.size);
        && Answered(u, old(View()), View(), batches)
        && var p := |given| - (batches * u.size - ProcessedIn(u, old(sends), sends));
           processed == if p < 0 then 0 else p
      ensures View() == if sendAnyway then SendAnywayStep(u, old(View())) else ReceiveStep(u, old(View()), given)
      ensures old(hr) == 0 ==> batched == (if sendAnyway then 0 else Rem(old(batched) + |given|, u.size))
    {
      if hr != 0 {
        ReleaseAll(given);
        assert sendAnyway ==> released == old(released);
        return hr, 0;
      }
      AddAllBatched(u, View(), given);
      ResultIsKept(u, View(), given);
      LostIs(u, View(), given);
      var lost := 0;
      if !sendAnyway {
        lost := Fill(given);
      } else if batched != 0 {
        lost := SendBatch();
      }
      result := hr;
      processed := if |given| - lost < 0 then 0 else |given| - lost;
    }
  }
}
