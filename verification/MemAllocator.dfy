/**
CMemAllocator with its fields: each method is one locked section, or a part of one, proved to
do to the fields what AllocatorSpec says.
 */
module MemAllocator {
  import opened MachineInts
  import opened AllocatorSpec

  datatype GetResult = Got(sample: Sample) | MustWait | Refused

  class Allocator {
    var free: seq<Sample>
    var waiting: nat
    var semaphore: nat
    var count: int32
    var total: nat
    var size: int32
    var alignment: int32
    var prefix: int32
    var changed: bool
    var committed: bool
    var decommitting: bool
    var hasBuffer: bool
    var block: nat
    ghost var held: set<Sample>     // given out and not released

    function View(): Pool
      reads this
    {
      Pool(free, waiting, semaphore, count, total, size, alignment, prefix, changed, committed, decommitting,
           hasBuffer, block)
    }

    /** The free list, the counts and the flags agree with the buffers that are out. */
    ghost predicate Valid()
      reads this
    {
      Sound(View(), held)
    }

    /** Without a memory block there are no samples. */
    predicate Backed()
      reads this
    {
      hasBuffer || (free == [] && total == 0)
    }

    constructor ()
      ensures Valid() && held == {} && View() == Pool([], 0, 0, 0, 0, 0, 0, 0, false, false, false, false, 0)
    {
      free, waiting, semaphore, count, total := [], 0, 0, 0, 0;
      size, alignment, prefix, changed, committed, decommitting := 0, 0, 0, false, false, false;
      hasBuffer, block, held := false, 0, {};
    }

    method NotifySample()
      modifies this`waiting, this`semaphore
      ensures View() == Notified(old(View()))
    {
      if waiting != 0 {
        semaphore := semaphore + waiting;
        waiting := 0;
      }
    }

    /** The locked section of GetBuffer: the buffer given out is held by nobody else. */
    method TakeSample() returns (r: GetResult)
      requires Valid()
      modifies this
      ensures Valid()
      ensures r == if !old(committed) then Refused else if old(free) == [] then MustWait else Got(old(free)[0])
      ensures match r
              case Got(s) => s !in old(held) && held == old(held) + {s} && old(free) == [s] + free && View() == old(View()).(free := free)
              case MustWait => held == old(held) && View() == old(View()).(waiting := old(waiting) + 1)
              case Refused => held == old(held) && View() == old(View())
    {
      if !committed {
        return Refused;
      }
      if free == [] {
        waiting := waiting + 1;
        return MustWait;
      }
      TakeKeepsSound(View(), held);
      r := Got(free[0]);
      free, held := free[1..], held + {free[0]};
    }

    /** A buffer that is out comes back; nobody is left counted as waiting; the last one out
        completes a decommit in progress, and only then is a Release owed. */
    method ReleaseBuffer(s: Sample) returns (release: bool)
      requires Valid() && s in held
      modifies this
      ensures Valid() && held == old(held) - {s} && free == [s] + old(free)
      ensures waiting == 0 && semaphore == old(semaphore) + old(waiting)
      ensures release <==> old(decommitting) && held == {}
      ensures decommitting <==> old(decommitting) && held != {}
      ensures (View(), release) == ReleaseStep(old(View()), s)
    {
      ReleaseKeepsSound(View(), held, s);
      free, held := [s] + free, held - {s};
      if waiting != 0 {
        NotifySample();
      }
      release := decommitting && |free| == total;
      if release {
        decommitting := false;
      }
    }

    /** No buffer can be had any more and every waiter is let go; the decommit is finished at once,
        with a Release owed, exactly if no buffer is out. */
    method Decommit() returns (release: bool)
      requires Valid()
      modifies this
      ensures Valid() && held == old(held) && free == old(free)
      ensures !committed && waiting == 0 && semaphore == old(semaphore) + old(waiting)
      ensures decommitting <==> held != {}
      ensures release <==> (old(committed) || old(decommitting)) && held == {}
      ensures (View(), release) == DecommitStep(old(View()))
    {
      DecommitKeepsSound(View(), held);
      if !committed && !decommitting {
        return false;
      }
      committed := false;
      if |free| < total {
        decommitting := true;
        release := false;
      } else {
        decommitting := false;
        release := true;
      }
      NotifySample();
    }

    /** Committed exactly if it succeeds, and then with the agreed number of samples, all free but
        those still out from before; it can fail only with none out. */
    method Commit(system: System) returns (hr: HResult)
      requires Valid()
      modifies this
      ensures Valid() && held == old(held)
      ensures (hr == Ok <==> committed) && !decommitting
      ensures hr == Ok ==> |free| + |held| == count
      ensures hr != Ok ==> held == {}
      ensures count == old(count) && size == old(size) && alignment == old(alignment) && prefix == old(prefix)
      ensures old(committed) || old(decommitting) ==> hr == Ok
      ensures hr == SizeNotSet <==> !old(committed) && !old(decommitting) && (count <= 0 || size <= 0 || alignment <= 0)
      ensures hr == Ok || hr == SizeNotSet || hr == OutOfMemory
      ensures (hr == OutOfMemory && hasBuffer) || (hr == Ok && old(changed)) ==> block == old(block) + 1
      ensures hr == Ok && !old(changed) ==> free == old(free) && block == old(block)
      ensures hr == OutOfMemory <==>
        && !old(committed) && !old(decommitting) && count > 0 && size > 0 && alignment > 0
        && old(changed) && !(Allocatable(old(View())) && system.memory && system.samples >= count)
      ensures (View(), hr) == CommitStep(old(View()), system)
    {
      CommitKeepsSound(View(), held, system);
      CommitOutcome(View(), system);
      if !committed && !decommitting {
        CommitMemory(View(), system);
      }
      if committed {
        return Ok;
      }
      committed := true;
      if decommitting {
        decommitting := false;
        return Ok;
      }
      hr := Alloc(system);
      if hr != Ok {
        committed := false;
      }
    }

    /** Alloc runs with m_bCommitted already set and does not look at it. */
    method Alloc(system: System) returns (hr: HResult)
      requires Backed() && committed
      modifies this
      ensures Backed() && held == old(held)
      ensures (View(), hr) == var (q, h) := AllocStep(old(View()).(committed := false), system); (q.(committed := true), h)
    {
      if count <= 0 || size <= 0 || alignment <= 0 {
        return SizeNotSet;
      }
      if !changed {
        return Ok;
      }
      if hasBuffer {
        ReallyFree();
      }
      if prefix < 0 {
        return OutOfMemory;
      }
      var aligned := AlignedSize(size, prefix, alignment);
      if aligned.None? || count * aligned.value > 0x7FFF_FFFF || !system.memory {
        return OutOfMemory;
      }
      AlignedSizeIs(size, prefix, alignment);
      hr := CreateSamples(aligned.value, system.samples);
    }

    /** The loop that cuts the block into samples; `new` can fail part way. */
    method CreateSamples(aligned: nat, samples: nat) returns (hr: HResult)
      requires count > 0 && free == [] && total == 0
      modifies this
      ensures hasBuffer && held == old(held) && (View(), hr) == CarveStep(old(View()), aligned, samples)
    {
      hasBuffer := true;
      block := block + 1;
      var next := 0;
      while total < count
        invariant held == old(held) && total <= count && total <= samples && next == total * aligned
        invariant free == Carve(block, total, aligned, prefix, size)
        invariant View() == old(View()).(hasBuffer := true, block := old(block) + 1, free := free, total := total)
      {
        if total == samples {
          return OutOfMemory;
        }
        free := [Sample(block, next + prefix, size)] + free;
        MulDistributes(total, 1, aligned);
        total := total + 1;
        next := next + aligned;
      }
      changed := false;
      hr := Ok;
    }

    method ReallyFree()
      modifies this
      ensures Backed() && held == old(held) && View() == ReallyFreed(old(View()))
    {
      while free != []
        invariant held == old(held) && View() == old(View()).(free := free)
      {
        free := free[1..];
      }
      total := 0;
      hasBuffer := false;
    }

    /** Accepted only while no buffer is out and nothing is committed, and then the next commit has to
        allocate anew; refused, it changes nothing. */
    method SetProperties(r: Request, granularity: uint32) returns (hr: HResult)
      requires Valid()
      modifies this
      ensures Valid() && held == old(held)
      ensures hr == Ok ==> held == {} && !committed && !decommitting && changed
      ensures hr != Ok ==> View() == old(View())
      ensures hr == BadAlign <==> r.align == 0 || BitAnd(granularity, WrapU32(r.align - 1)) != 0
      ensures hr == AlreadyCommitted <==> hr != BadAlign && committed
      ensures hr == Ok ==> count == r.buffers && alignment == r.align && prefix == r.prefix && GrantsIff(r, size)
      ensures hr == BuffersOutstanding <==> hr != BadAlign && !committed && held != {}
      ensures (View(), hr) == SetPropertiesStep(old(View()), r, granularity)
    {
      SetPropertiesKeepsSound(View(), held, r, granularity);
      if r.align == 0 || BitAnd(granularity, WrapU32(r.align - 1)) != 0 {
        return BadAlign;
      }
      if committed {
        return AlreadyCommitted;
      }
      if |free| < total {
        return BuffersOutstanding;
      }
      GrantedSizeGrantsIff(r);
      size := GrantedSize(r);
      count, alignment, prefix, changed := r.buffers, r.align, r.prefix, true;
      hr := Ok;
    }
  }
}
