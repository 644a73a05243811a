/**
The allocator in use: threads that get and release buffers, wait for them, commit, decommit
and change the properties, in any interleaving of the locked sections.
 */
module AllocatorRuns {
  import opened MachineInts
  import opened AllocatorSpec

  /** How the current block was cut: `number` slots of `aligned` bytes. */
  datatype Cut = Cut(number: nat, aligned: nat, prefix: nat, size: nat)

  datatype Sys = Sys(
    pool: Pool,
    held: set<Sample>,      // given out by GetBuffer and not released yet
    waiters: set<nat>,      // threads about to wait or waiting on the semaphore
    nowaits: nat,           // GetBuffer calls with AM_GBF_NOWAIT that timed out so far
    refs: int,              // references the allocator holds on itself
    releases: nat,          // threads that have left the lock and still owe a Release
    cut: Cut)

  ghost predicate Init(s: Sys) {
    && s.pool == Pool([], 0, 0, 0, 0, 0, 0, 0, false, false, false, false, 0)
    && s.held == {} && s.waiters == {} && s.nowaits == 0 && s.refs == 0 && s.releases == 0
    && s.cut == Cut(0, 1, 0, 1)
  }

  // ---------------------------------------------------------------------------------
  // Steps
  // ---------------------------------------------------------------------------------

  /** GetBuffer's locked section finds a sample. */
  ghost predicate Get(s: Sys, t: Sys) {
    && s.pool.committed && s.pool.free != []
    && t == s.(pool := s.pool.(free := s.pool.free[1..]), held := s.held + {s.pool.free[0]})
  }

  /** It finds none and calls SetWaiting; a NOWAIT caller leaves without waiting. */
  ghost predicate GetNone(s: Sys, t: Sys, thread: nat, nowait: bool) {
    && s.pool.committed && s.pool.free == [] && thread !in s.waiters
    && var p := s.pool.(waiting := s.pool.waiting + 1);
       t == if nowait then s.(pool := p, nowaits := s.nowaits + 1) else s.(pool := p, waiters := s.waiters + {thread})
  }

  /** WaitForSingleObject returns; the thread goes round the loop. */
  ghost predicate Wake(s: Sys, t: Sys, thread: nat) {
    && thread in s.waiters && s.pool.semaphore > 0
    && t == s.(pool := s.pool.(semaphore := s.pool.semaphore - 1), waiters := s.waiters - {thread})
  }

  function Owed(release: bool): nat {
    if release then 1 else 0
  }

  ghost predicate ReleaseBuffer(s: Sys, t: Sys, sample: Sample) {
    && sample in s.held
    && var (p, release) := ReleaseStep(s.pool, sample);
       t == s.(pool := p, held := s.held - {sample}, releases := s.releases + Owed(release))
  }

  ghost predicate Decommit(s: Sys, t: Sys) {
    var (p, release) := DecommitStep(s.pool);
    t == s.(pool := p, releases := s.releases + Owed(release))
  }

  /** Did this commit have to allocate, and so take the self-reference? */
  predicate Allocates(p: Pool) {
    !p.committed && !p.decommitting
  }

  function CutOf(p: Pool): Cut {
    if p.prefix >= 0 && p.size > 0 && p.alignment > 0 && AlignedSize(p.size, p.prefix, p.alignment).Some? then
      AlignedSizeIs(p.size, p.prefix, p.alignment);
      Cut(p.total, AlignedSize(p.size, p.prefix, p.alignment).value, p.prefix, p.size)
    else
      Cut(0, 1, 0, 1)
  }

  ghost predicate Commit(s: Sys, t: Sys, system: System) {
    var (p, hr) := CommitStep(s.pool, system);
    t == s.(pool := p, refs := s.refs + Owed(Allocates(s.pool) && hr == Ok),
            cut := if p.block == s.pool.block then s.cut else CutOf(p))
  }

  /** The Release after the lock was left. */
  ghost predicate FinishRelease(s: Sys, t: Sys) {
    s.releases > 0 && t == s.(releases := s.releases - 1, refs := s.refs - 1)
  }

  ghost predicate SetProperties(s: Sys, t: Sys, r: Request, granularity: uint32) {
    t == s.(pool := SetPropertiesStep(s.pool, r, granularity).0)
  }

  ghost predicate Next(s: Sys, t: Sys) {
    || Get(s, t)
    || (exists thread, nowait :: GetNone(s, t, thread, nowait))
    || (exists thread :: Wake(s, t, thread))
    || (exists sample :: ReleaseBuffer(s, t, sample))
    || Decommit(s, t)
    || (exists system :: Commit(s, t, system))
    || FinishRelease(s, t)
    || (exists r, granularity :: SetProperties(s, t, r, granularity))
  }

  // ---------------------------------------------------------------------------------
  // The invariant
  // ---------------------------------------------------------------------------------

  /** The lazy semaphore: every wait is paid for. */
  ghost predicate Signalling(s: Sys) {
    s.pool.waiting + s.pool.semaphore == |s.waiters| + s.nowaits
  }

  /** The allocator holds a reference on itself while it is committed or decommitting, and one for
      each thread that still owes a Release. */
  ghost predicate Counted(s: Sys) {
    s.refs == s.releases + Owed(s.pool.committed || s.pool.decommitting)
  }

  ghost predicate IsSlot(u: Sample, block: nat, cut: Cut) {
    exists i: nat :: i < cut.number && u == SampleAt(block, i, cut.aligned, cut.prefix, cut.size)
  }

  /** Every sample is a slot of the live block. */
  ghost predicate InBlock(s: Sys) {
    && s.cut.size > 0 && s.cut.size + s.cut.prefix <= s.cut.aligned
    && (forall i :: 0 <= i < |s.pool.free| ==> IsSlot(s.pool.free[i], s.pool.block, s.cut))
    && (forall u :: u in s.held ==> IsSlot(u, s.pool.block, s.cut))
  }

  ghost predicate Inv(s: Sys) {
    Sound(s.pool, s.held) && Signalling(s) && Counted(s) && InBlock(s)
  }

  lemma GetKeepsInv(s: Sys, t: Sys)
    requires Inv(s) && Get(s, t)
    ensures Inv(t)
  {
    TakeKeepsSound(s.pool, s.held);
  }

  lemma WaitKeepsInv(s: Sys, t: Sys, thread: nat)
    requires Inv(s) && (Wake(s, t, thread) || GetNone(s, t, thread, false) || GetNone(s, t, thread, true))
    ensures Inv(t)
  {
  }

  lemma ReleaseKeepsInv(s: Sys, t: Sys, sample: Sample)
    requires Inv(s) && ReleaseBuffer(s, t, sample)
    ensures Inv(t)
  {
    ReleaseKeepsSound(s.pool, s.held, sample);
    assert t.pool.free == [sample] + s.pool.free;
  }

  lemma DecommitKeepsInv(s: Sys, t: Sys)
    requires Inv(s) && Decommit(s, t)
    ensures Inv(t)
  {
    DecommitKeepsSound(s.pool, s.held);
  }

  lemma CarveInBlock(s: Sys, t: Sys, system: System)
    requires Inv(s) && Commit(s, t, system) && t.pool.block != s.pool.block
    ensures InBlock(t)
  {
    AllocatesOnlyUnheld(s.pool, s.held);
    var p, cut := t.pool, t.cut;
    AlignedSizeIs(p.size, p.prefix, p.alignment);
    assert p.free == Carve(p.block, p.total, cut.aligned, p.prefix, p.size);
    forall i | 0 <= i < |p.free|
      ensures IsSlot(p.free[i], p.block, cut)
    {
      CarveLength(p.block, p.total, cut.aligned, p.prefix, p.size);
      CarveIs(p.block, p.total, cut.aligned, p.prefix, p.size, i);
    }
  }

  lemma CommitKeepsInv(s: Sys, t: Sys, system: System)
    requires Inv(s) && Commit(s, t, system)
    ensures Inv(t)
  {
    CommitKeepsSound(s.pool, s.held, system);
    if t.pool.block != s.pool.block {
      CarveInBlock(s, t, system);
    } else if Allocates(s.pool) {
      AllocatesOnlyUnheld(s.pool, s.held);
    }
  }

  lemma SetPropertiesInv(s: Sys, t: Sys, r: Request, granularity: uint32)
    requires Inv(s) && SetProperties(s, t, r, granularity)
    ensures Inv(t)
  {
    SetPropertiesKeepsSound(s.pool, s.held, r, granularity);
  }

  lemma NextKeepsInv(s: Sys, t: Sys)
    requires Inv(s) && Next(s, t)
    ensures Inv(t)
  {
    if Get(s, t) {
      GetKeepsInv(s, t);
    } else if thread, nowait :| GetNone(s, t, thread, nowait) {
      WaitKeepsInv(s, t, thread);
    } else if thread :| Wake(s, t, thread) {
      WaitKeepsInv(s, t, thread);
    } else if sample :| ReleaseBuffer(s, t, sample) {
      ReleaseKeepsInv(s, t, sample);
    } else if Decommit(s, t) {
      DecommitKeepsInv(s, t);
    } else if system :| Commit(s, t, system) {
      CommitKeepsInv(s, t, system);
    } else if r, granularity :| SetProperties(s, t, r, granularity) {
      SetPropertiesInv(s, t, r, granularity);
    }
  }

  ghost predicate IsRun(run: seq<Sys>) {
    run != [] && Init(run[0]) && forall i :: 0 <= i < |run| - 1 ==> Next(run[i], run[i + 1])
  }

  lemma {:induction false} RunsKeepInv(run: seq<Sys>, i: nat)
    requires IsRun(run) && i < |run|
    ensures Inv(run[i])
  {
    if i > 0 {
      RunsKeepInv(run, i - 1);
      NextKeepsInv(run[i - 1], run[i]);
    }
  }

  // ---------------------------------------------------------------------------------
  // What follows for every run
  // ---------------------------------------------------------------------------------

  /** No waiter is stuck: while a sample is free, or after the allocator has been decommitted,
      the semaphore lets every waiter through. */
  lemma NoWaiterStuck(run: seq<Sys>, i: nat)
    requires IsRun(run) && i < |run|
    requires run[i].pool.free != [] || !run[i].pool.committed
    ensures run[i].pool.semaphore >= |run[i].waiters|
    ensures forall thread :: thread in run[i].waiters ==> exists t :: Wake(run[i], t, thread)
  {
    RunsKeepInv(run, i);
    var s := run[i];
    forall thread | thread in s.waiters
      ensures exists t :: Wake(s, t, thread)
    {
      assert s.waiters == (s.waiters - {thread}) + {thread};
      var t := s.(pool := s.pool.(semaphore := s.pool.semaphore - 1), waiters := s.waiters - {thread});
      assert Wake(s, t, thread);
    }
  }

  /** The equation between waiters and semaphore that the header promises holds exactly as long
      as no NOWAIT call has timed out. */
  lemma WaitersAreCountedIff(run: seq<Sys>, i: nat)
    requires IsRun(run) && i < |run|
    ensures run[i].pool.waiting + run[i].pool.semaphore == |run[i].waiters| <==> run[i].nowaits == 0
  {
    RunsKeepInv(run, i);
  }

  /** And a NOWAIT call can time out: commit one buffer, get it, ask again without waiting. */
  lemma NowaitBreaksTheCount() returns (run: seq<Sys>)
    ensures IsRun(run) && |run| == 5
    ensures run[4].waiters == {} && run[4].pool.waiting == 1
  {
    var s0 := Sys(Pool([], 0, 0, 0, 0, 0, 0, 0, false, false, false, false, 0), {}, {}, 0, 0, 0, Cut(0, 1, 0, 1));
    var r := Request(1, 8, 1, 0);
    var s1 := s0.(pool := SetPropertiesStep(s0.pool, r, 0).0);
    assert SetProperties(s0, s1, r, 0);
    RemOfOne(8);
    assert s1.pool == s0.pool.(size := 8, count := 1, alignment := 1, changed := true);
    var u := Sample(1, 0, 8);
    var s2 := s1.(pool := s1.pool.(free := [u], total := 1, hasBuffer := true, block := 1, changed := false, committed := true),
                  refs := 1, cut := Cut(1, 8, 0, 8));
    assert Carve(1, 1, 8, 0, 8) == [u];
    assert Commit(s1, s2, System(true, 1));
    var s3 := s2.(pool := s2.pool.(free := []), held := {u});
    assert Get(s2, s3);
    var s4 := s3.(pool := s3.pool.(waiting := 1), nowaits := 1);
    assert GetNone(s3, s4, 0, true);
    run := [s0, s1, s2, s3, s4];
  }

  /** Two buffers held at the same time share no byte of memory, prefixes included, and both
      lie in the live block. */
  lemma HeldBuffersApart(run: seq<Sys>, i: nat, u: Sample, v: Sample)
    requires IsRun(run) && i < |run| && u in run[i].held && v in run[i].held && u != v
    ensures run[i].pool.hasBuffer && Apart(u, v, run[i].cut.prefix)
    ensures Inside(u, run[i].pool.block, run[i].cut.prefix, run[i].cut.number * run[i].cut.aligned)
  {
    RunsKeepInv(run, i);
    var s := run[i];
    var c := s.cut;
    var j: nat :| j < c.number && u == SampleAt(s.pool.block, j, c.aligned, c.prefix, c.size);
    var k: nat :| k < c.number && v == SampleAt(s.pool.block, k, c.aligned, c.prefix, c.size);
    SlotFits(c.number, j, c.aligned);
    if j < k {
      SlotFits(k, j, c.aligned);
    } else {
      SlotFits(j, k, c.aligned);
    }
  }

  /** Once the properties agreed on have been allocated, the slots are as they say. */
  ghost predicate AsAgreed(s: Sys) {
    var p := s.pool;
    p.changed || p.count == 0 ||
    (s.cut.size == p.size && s.cut.prefix == p.prefix && p.alignment > 0 && Rem(s.cut.aligned, p.alignment) == 0)
  }

  lemma CommitKeepsAgreed(s: Sys, t: Sys, system: System)
    requires AsAgreed(s) && Commit(s, t, system)
    ensures AsAgreed(t)
  {
    if t.pool.block != s.pool.block {
      AlignedSizeIs(s.pool.size, s.pool.prefix, s.pool.alignment);
    }
  }

  lemma {:induction false} RunsKeepAgreed(run: seq<Sys>, i: nat)
    requires IsRun(run) && i < |run|
    ensures AsAgreed(run[i])
  {
    if i > 0 {
      RunsKeepAgreed(run, i - 1);
      NextKeepsAgreed(run[i - 1], run[i]);
    }
  }

  /** The other steps leave the properties and the cut alone, or mark them as changed. */
  lemma OtherKeepsAgreed(s: Sys, t: Sys)
    requires AsAgreed(s) && t.cut == s.cut
    requires t.pool.changed ||
             (t.pool.changed == s.pool.changed && t.pool.count == s.pool.count && t.pool.size == s.pool.size
              && t.pool.prefix == s.pool.prefix && t.pool.alignment == s.pool.alignment)
    ensures AsAgreed(t)
  {
  }

  lemma NextKeepsAgreed(s: Sys, t: Sys)
    requires AsAgreed(s) && Next(s, t)
    ensures AsAgreed(t)
  {
    if system :| Commit(s, t, system) {
      CommitKeepsAgreed(s, t, system);
    } else if r, granularity :| SetProperties(s, t, r, granularity) {
      OtherKeepsAgreed(s, t);
    } else if sample :| ReleaseBuffer(s, t, sample) {
      OtherKeepsAgreed(s, t);
    } else {
      OtherKeepsAgreed(s, t);
    }
  }

  lemma SlotAligned(j: nat, aligned: nat, alignment: nat)
    requires alignment > 0 && Rem(aligned, alignment) == 0
    ensures j * aligned >= 0 && Rem(j * aligned, alignment) == 0
  {
    var q := Quot(aligned, alignment);
    QuotRem(aligned, alignment);
    assert j * aligned == (j * q) * alignment;
    QuotIs(j * aligned, alignment, j * q, 0);
  }

  /** A buffer that is held has the agreed size, and it begins, prefix included, on the agreed
      alignment. */
  lemma HeldAsAgreed(run: seq<Sys>, i: nat, u: Sample)
    requires IsRun(run) && i < |run| && u in run[i].held
    ensures var p := run[i].pool;
            && u.size == p.size && p.alignment > 0
            && u.pointer - p.prefix >= 0 && Rem(u.pointer - p.prefix, p.alignment) == 0
  {
    RunsKeepInv(run, i);
    RunsKeepAgreed(run, i);
    var s := run[i];
    var j: nat :| j < s.cut.number && u == SampleAt(s.pool.block, j, s.cut.aligned, s.cut.prefix, s.cut.size);
    SlotAligned(j, s.cut.aligned, s.pool.alignment);
  }

  /** Memory is replaced, and properties are changed, only while no buffer is in use. */
  lemma NeverActsOnBuffersInUse(run: seq<Sys>, i: nat)
    requires IsRun(run) && i < |run| - 1
    ensures run[i + 1].pool.block != run[i].pool.block ==> run[i].held == {}
    ensures !run[i + 1].pool.hasBuffer && run[i].pool.hasBuffer ==> run[i].held == {}
    ensures run[i + 1].pool.size != run[i].pool.size || run[i + 1].pool.count != run[i].pool.count ==> run[i].held == {}
    ensures run[i + 1].pool.prefix != run[i].pool.prefix || run[i + 1].pool.alignment != run[i].pool.alignment ==> run[i].held == {}
  {
    RunsKeepInv(run, i);
    var s, t := run[i], run[i + 1];
    if system :| Commit(s, t, system) {
      if Allocates(s.pool) {
        AllocatesOnlyUnheld(s.pool, s.held);
      }
    }
  }

  /** The allocator keeps itself alive exactly while it is committed or has buffers out: once
      its last own reference is gone, nothing is held and nobody owes a Release. */
  lemma AliveWhileInUse(run: seq<Sys>, i: nat)
    requires IsRun(run) && i < |run|
    ensures run[i].refs - run[i].releases == 1 <==> run[i].pool.committed || run[i].pool.decommitting
    ensures run[i].refs == 0 ==> run[i].held == {} && run[i].releases == 0 && !run[i].pool.committed
    ensures run[i].refs >= 0
  {
    RunsKeepInv(run, i);
  }

  /** GetFreeCount gives the agreed number less the buffers held; while the allocator is
      committed these are exactly the buffers on the free list. */
  lemma FreeCountIs(run: seq<Sys>, i: nat)
    requires IsRun(run) && i < |run|
    ensures run[i].pool.count - run[i].pool.total + |run[i].pool.free| == run[i].pool.count - |run[i].held|
    ensures run[i].pool.committed ==> run[i].pool.count - |run[i].held| == |run[i].pool.free|
  {
    RunsKeepInv(run, i);
  }
}
