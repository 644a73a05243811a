/**
What each locked section of CBaseAllocator and CMemAllocator does to the allocator's fields,
and the layout of the samples in the memory block.
 */
module AllocatorSpec {
  import opened Options
  import opened MachineInts

  /** A media sample: the block it was cut from and the range of bytes it gives out. */
  datatype Sample = Sample(block: nat, pointer: int, size: int)

  datatype HResult =
    | Ok | NotCommitted | AlreadyCommitted | BuffersOutstanding | BadAlign | SizeNotSet | OutOfMemory

  /** The fields, with the semaphore's count and the number of memory blocks so far. */
  datatype Pool = Pool(
    free: seq<Sample>, waiting: nat, semaphore: nat,
    count: int32, total: nat, size: int32, alignment: int32, prefix: int32,
    changed: bool, committed: bool, decommitting: bool,
    hasBuffer: bool, block: nat)

  datatype Request = Request(buffers: int32, bytes: int32, align: int32, prefix: int32)

  /** The outcomes of the calls to the system inside Alloc: whether VirtualAlloc succeeds and
      how many samples can be created. */
  datatype System = System(memory: bool, samples: nat)

  // ---------------------------------------------------------------------------------
  // The locked sections
  // ---------------------------------------------------------------------------------

  function Notified(p: Pool): Pool {
    p.(semaphore := p.semaphore + p.waiting, waiting := 0)
  }

  function ReleaseStep(p: Pool, s: Sample): (Pool, bool) {
    var q := Notified(p.(free := [s] + p.free));
    if p.decommitting && |q.free| == p.total then (q.(decommitting := false), true) else (q, false)
  }

  function DecommitStep(p: Pool): (Pool, bool) {
    if !p.committed && !p.decommitting then (p, false)
    else (Notified(p.(committed := false, decommitting := |p.free| < p.total)), |p.free| >= p.total)
  }

  function CommitStep(p: Pool, system: System): (Pool, HResult) {
    if p.committed then (p, Ok)
    else if p.decommitting then (p.(committed := true, decommitting := false), Ok)
    else
      var (q, hr) := AllocStep(p, system);
      (q.(committed := hr == Ok), hr)
  }

  function ReallyFreed(p: Pool): Pool {
    p.(free := [], total := 0, hasBuffer := false)
  }

  /** Bytes per sample, prefix included, rounded up to the alignment; None when the sum does
      not fit a LONG. */
  function AlignedSize(size: int32, prefix: int32, alignment: int32): Option<int32>
    requires size > 0 && prefix >= 0 && alignment > 0
  {
    var s := Overflowed32(size + prefix);
    if s < size then None
    else if alignment == 1 || Rem(s, alignment) == 0 then Some(s)
    else
      RemFits(s, alignment);
      var n := Overflowed32(s + alignment - Rem(s, alignment));
      if n < s then None else Some(n)
  }

  function SampleAt(block: nat, k: nat, aligned: nat, prefix: int, size: int): Sample {
    Sample(block, k * aligned + prefix, size)
  }

  /** The free list after k samples have been cut off the block. */
  function Carve(block: nat, k: nat, aligned: nat, prefix: int, size: int): seq<Sample> {
    if k == 0 then [] else [SampleAt(block, k - 1, aligned, prefix, size)] + Carve(block, k - 1, aligned, prefix, size)
  }

  function AllocStep(p: Pool, system: System): (Pool, HResult) {
    if p.count <= 0 || p.size <= 0 || p.alignment <= 0 then (p, SizeNotSet)
    else if !p.changed then (p, Ok)
    else
      var q := if p.hasBuffer then ReallyFreed(p) else p;
      if p.prefix < 0 then (q, OutOfMemory)
      else
        var aligned := AlignedSize(p.size, p.prefix, p.alignment);
        if aligned.None? || p.count * aligned.value > 0x7FFF_FFFF || !system.memory then (q, OutOfMemory)
        else CarveStep(q, aligned.value, system.samples)
  }

  function CarveStep(q: Pool, aligned: nat, samples: nat): (Pool, HResult)
    requires q.count > 0
  {
    var k := if samples < q.count then samples else q.count;
    var r := q.(hasBuffer := true, block := q.block + 1, total := k,
                free := Carve(q.block + 1, k, aligned, q.prefix, q.size));
    if k < q.count then (r, OutOfMemory) else (r.(changed := false), Ok)
  }

  /** C++ remainder: it has the sign of the dividend. */
  function CRem(n: int, d: int): int
    requires d != 0
  {
    Negated(Rem(Abs(n), Abs(d)), n < 0)
  }

  /** The size granted for a request: prefix and bytes rounded up together. */
  function GrantedSize(r: Request): int32
    requires r.align != 0
  {
    Overflowed32(Rounding(Overflowed32(r.bytes + r.prefix), r.align) - r.prefix)
  }

  function SetPropertiesStep(p: Pool, r: Request, granularity: uint32): (Pool, HResult) {
    if r.align == 0 || BitAnd(granularity, WrapU32(r.align - 1)) != 0 then (p, BadAlign)
    else if p.committed then (p, AlreadyCommitted)
    else if |p.free| < p.total then (p, BuffersOutstanding)
    else
      (p.(size := GrantedSize(r), count := r.buffers, alignment := r.align, prefix := r.prefix, changed := true), Ok)
  }

  // ---------------------------------------------------------------------------------
  // Sizes
  // ---------------------------------------------------------------------------------

  lemma {:induction false} RemFits(m: nat, u: nat)
    requires u > 0
    ensures Rem(m, u) < u && Rem(m, u) <= m && Rem(m - Rem(m, u), u) == 0
  {
    if m >= u {
      RemFits(m - u, u);
    }
  }

  lemma RemStep(m: nat, u: nat)
    requires u > 0
    ensures Rem(m + u, u) == Rem(m, u)
  {
  }

  /** The rounding step of GrantedSize, and the same in the source's wrapping arithmetic. */
  function Rounding(s: int32, align: int32): int32
    requires align != 0
  {
    RemFits(Abs(s), Abs(align));
    var rem := CRem(s, align);
    if rem == 0 then s else Overflowed32(Overflowed32(s - rem) + align)
  }

  lemma RoundingWraps(s: int32, align: int32)
    requires align != 0
    ensures var rem := CRem(s, align);
            Rounding(s, align) == if rem == 0 then s else WrapS32(WrapS32(s - rem) + align)
  {
    RemFits(Abs(s), Abs(align));
    var less := s - CRem(s, align);
    OverflowIsWrap(less);
    var more: int := Overflowed32(less) + align;
    OverflowIsWrap(more);
  }

  /** GrantedSize is the source's LONG arithmetic, every sum of which wraps. */
  lemma GrantedSizeWraps(r: Request)
    requires r.align != 0
    ensures var s := WrapS32(r.bytes + r.prefix);
            var rem := CRem(s, r.align);
            GrantedSize(r) == WrapS32((if rem == 0 then s else WrapS32(WrapS32(s - rem) + r.align)) - r.prefix)
  {
    var sum, s := r.bytes + r.prefix, Overflowed32(r.bytes + r.prefix);
    OverflowIsWrap(sum);
    RoundingWraps(s, r.align);
    OverflowIsWrap(Rounding(s, r.align) - r.prefix);
  }

  function RoundedUp(s: nat, align: nat): nat
    requires align > 0
  {
    RemFits(s, align);
    if Rem(s, align) == 0 then s else s - Rem(s, align) + align
  }

  /** The size granted does what it is for: it covers the request, ends on the alignment and wastes
      less than one unit of it. */
  ghost predicate Grants(r: Request, size: int)
    requires r.align > 0
  {
    && r.bytes <= size < r.bytes + r.align && 0 <= size + r.prefix
    && Rem(size + r.prefix, r.align) == 0
  }

  lemma RoundedUpIs(s: nat, align: nat)
    requires align > 0
    ensures s <= RoundedUp(s, align) < s + align && Rem(RoundedUp(s, align), align) == 0
  {
    RemFits(s, align);
    RemStep(s - Rem(s, align), align);
  }

  /** For every sensible request whose bytes and prefix together fit a LONG, it does so exactly if the
      rounded size less the prefix fits one too. */
  lemma GrantedSizeRoundsIff(r: Request)
    requires r.bytes > 0 && r.prefix >= 0 && r.align > 0 && r.bytes + r.prefix <= 0x7FFF_FFFF
    ensures Grants(r, GrantedSize(r)) <==> RoundedUp(r.bytes + r.prefix, r.align) - r.prefix <= 0x7FFF_FFFF
  {
    var s := r.bytes + r.prefix;
    RemFits(s, r.align);
    RoundedUpIs(s, r.align);
  }

  /** The remainder of what is missing from s to a multiple of p. */
  lemma RemOfRest(whole: nat, q: int, p: nat, s: nat, m: int, t: nat)
    requires p > 0 && whole == q * p && s == m * p + t && t < p && s < whole
    ensures Rem(whole - s, p) == if t == 0 then 0 else p - t
  {
    CancelBelow(m, q, p, t);
    MulDistributes(q - m, m, p);
    if t == 0 {
      QuotIs(whole - s, p, q - m, 0);
    } else {
      MulDistributes(q - m - 1, 1, p);
      QuotIs(whole - s, p, q - m - 1, p - t);
    }
  }

  lemma RemOfNegative(s: nat, k: nat)
    requires k <= 30 && 0 < s < 0x1_0000_0000
    ensures var p := Pow2(k); var t := Rem(s, p);
            t < p && Rem(0x1_0000_0000 - s, p) == if t == 0 then 0 else p - t
  {
    Pow2Add(32 - k, k);
    Powers();
    QuotRem(s, Pow2(k));
    RemOfRest(0x1_0000_0000, Pow2(32 - k), Pow2(k), s, Quot(s, Pow2(k)), Rem(s, Pow2(k)));
  }

  lemma CancelBelow(m: int, q: int, p: nat, t: nat)
    requires m * p + t < q * p
    ensures m < q
  {
    if m >= q {
      MulMono(q, m, p);
    }
  }

  /** Where bytes and prefix together overflow, and the alignment is a power of two, it does so exactly
      if nothing had to be rounded: otherwise the remainder of a negative number is taken off and a
      unit too many put on. */
  lemma OverflowedGrantIff(r: Request, k: nat)
    requires r.bytes > 0 && r.prefix >= 0 && k <= 30 && r.align == Pow2(k) && r.bytes + r.prefix > 0x7FFF_FFFF
    ensures Grants(r, GrantedSize(r)) <==> Rem(r.bytes + r.prefix, r.align) == 0
  {
    var s := r.bytes + r.prefix;
    RemOfNegative(s, k);
    AlignAtMost(k);
  }

  lemma AlignAtMost(k: nat)
    requires k <= 30
    ensures Pow2(k) <= 0x4000_0000
  {
    Pow2Add(30 - k, k);
    MulMono(1, Pow2(30 - k), Pow2(k));
    Powers();
  }

  /** Such a request: 0x7FFF0000 bytes and a prefix of 0x10001, aligned to 16. */
  lemma OverflowedRequestWastes()
    ensures var r := Request(1, 0x7FFF_0000, 16, 0x1_0001);
            GrantedSize(r) == 0x7FFF_001F && !Grants(r, GrantedSize(r))
  {
    QuotIs(0x7FFF_FFFF, 16, 0x7FF_FFFF, 15);
  }

  /** None exactly when the rounded size does not fit a LONG. */
  lemma AlignedSizeIs(size: int32, prefix: int32, alignment: int32)
    requires size > 0 && prefix >= 0 && alignment > 0
    ensures var s := size + prefix;
            var rounded := if Rem(s, alignment) == 0 then s else s - Rem(s, alignment) + alignment;
            AlignedSize(size, prefix, alignment) == (if rounded <= 0x7FFF_FFFF then Some(rounded) else None)
    ensures var n := AlignedSize(size, prefix, alignment);
            n.Some? ==> size + prefix <= n.value < size + prefix + alignment && Rem(n.value, alignment) == 0
  {
    var s := size + prefix;
    RemFits(s, alignment);
    RemOfOne(s);
    RemStep(s - Rem(s, alignment), alignment);
  }

  // ---------------------------------------------------------------------------------
  // The layout
  // ---------------------------------------------------------------------------------

  ghost predicate Distinct(s: seq<Sample>) {
    forall i, j :: 0 <= i < j < |s| ==> s[i] != s[j]
  }

  /** A sample's bytes and its prefix lie in the block. */
  ghost predicate Inside(s: Sample, block: nat, prefix: int, bytes: int) {
    s.block == block && 0 <= s.pointer - prefix && s.pointer + s.size <= bytes
  }

  /** Neither sample's bytes nor prefix touch the other's. */
  ghost predicate Apart(s: Sample, u: Sample, prefix: int) {
    s.pointer + s.size <= u.pointer - prefix || u.pointer + u.size <= s.pointer - prefix
  }

  lemma {:induction false} CarveIs(block: nat, k: nat, aligned: nat, prefix: int, size: int, i: nat)
    requires i < k
    ensures |Carve(block, k, aligned, prefix, size)| == k
    ensures Carve(block, k, aligned, prefix, size)[i] == SampleAt(block, k - 1 - i, aligned, prefix, size)
  {
    if i > 0 {
      CarveIs(block, k - 1, aligned, prefix, size, i - 1);
    } else if k > 1 {
      CarveIs(block, k - 1, aligned, prefix, size, 0);
    }
  }

  lemma CarveLength(block: nat, k: nat, aligned: nat, prefix: int, size: int)
    ensures |Carve(block, k, aligned, prefix, size)| == k
  {
    if k > 0 {
      CarveIs(block, k, aligned, prefix, size, 0);
    }
  }

  /** The samples cut from a block lie inside it, pairwise apart, in whole aligned slots. */
  lemma CarveLayout(block: nat, k: nat, aligned: nat, prefix: int, size: int, i: nat, j: nat)
    requires i < j < k && prefix >= 0 && size > 0 && size + prefix <= aligned
    ensures var c := Carve(block, k, aligned, prefix, size);
            && |c| == k && c[i] != c[j] && Apart(c[i], c[j], prefix)
            && Inside(c[i], block, prefix, k * aligned) && Inside(c[j], block, prefix, k * aligned)
  {
    CarveIs(block, k, aligned, prefix, size, i);
    CarveIs(block, k, aligned, prefix, size, j);
    SlotFits(k, k - 1 - i, aligned);
    SlotFits(k, k - 1 - j, aligned);
    SlotFits(k - 1 - i, k - 1 - j, aligned);
  }

  lemma SlotFits(k: nat, i: nat, aligned: nat)
    requires i < k
    ensures 0 <= i * aligned && i * aligned + aligned <= k * aligned
  {
    MulMono(i + 1, k, aligned);
    MulDistributes(i, 1, aligned);
  }

  lemma CarveDistinct(block: nat, k: nat, aligned: nat, prefix: int, size: int)
    requires prefix >= 0 && size > 0 && size + prefix <= aligned
    ensures Distinct(Carve(block, k, aligned, prefix, size)) && |Carve(block, k, aligned, prefix, size)| == k
  {
    var c := Carve(block, k, aligned, prefix, size);
    CarveLength(block, k, aligned, prefix, size);
    forall i, j | 0 <= i < j < |c|
      ensures c[i] != c[j]
    {
      CarveLayout(block, k, aligned, prefix, size, i, j);
    }
  }

  // ---------------------------------------------------------------------------------
  // What every locked section keeps
  // ---------------------------------------------------------------------------------

  /** Nobody is counted as waiting while a sample is free or the allocator is not committed. */
  ghost predicate Quiet(p: Pool) {
    (p.free != [] ==> p.waiting == 0) && (!p.committed ==> p.waiting == 0)
  }

  /** Every sample is free or held by a client, and only once. */
  ghost predicate Accounted(p: Pool, held: set<Sample>) {
    && p.total == |p.free| + |held|
    && Distinct(p.free)
    && forall i :: 0 <= i < |p.free| ==> p.free[i] !in held
  }

  /** A decommit is in progress only while something is held, and something is held only while
      committed or decommitting; the samples are the agreed number of them. */
  ghost predicate Phases(p: Pool, held: set<Sample>) {
    && (p.decommitting ==> !p.committed && held != {})
    && (held != {} ==> p.committed || p.decommitting)
    && (p.total > 0 ==> p.hasBuffer)
    && (p.committed || p.decommitting ==> !p.changed && p.count > 0)
    && (p.changed || p.count == 0 || (p.hasBuffer && p.total == p.count))
  }

  ghost predicate Sound(p: Pool, held: set<Sample>) {
    Quiet(p) && Accounted(p, held) && Phases(p, held)
  }

  lemma TakeKeepsSound(p: Pool, held: set<Sample>)
    requires Sound(p, held) && p.committed && p.free != []
    ensures Sound(p.(free := p.free[1..]), held + {p.free[0]})
  {
  }

  lemma OneMoreFree(sample: Sample, free: seq<Sample>, held: set<Sample>)
    requires Distinct(free) && sample in held && forall i :: 0 <= i < |free| ==> free[i] !in held
    ensures Distinct([sample] + free)
    ensures forall i :: 0 <= i < |free| + 1 ==> ([sample] + free)[i] !in held - {sample}
    ensures |held - {sample}| == |held| - 1
  {
  }

  /** The last buffer back completes a decommit in progress, and only the last. */
  lemma ReleaseKeepsSound(p: Pool, held: set<Sample>, s: Sample)
    requires Sound(p, held) && s in held
    ensures var (q, release) := ReleaseStep(p, s);
            && Sound(q, held - {s})
            && (release <==> p.decommitting && held == {s})
  {
    OneMoreFree(s, p.free, held);
    assert held == (held - {s}) + {s};
  }

  lemma DecommitKeepsSound(p: Pool, held: set<Sample>)
    requires Sound(p, held)
    ensures var (q, release) := DecommitStep(p);
            && Sound(q, held) && !q.committed && (q.decommitting <==> held != {})
            && (release <==> (p.committed || p.decommitting) && held == {})
  {
    assert held == {} <==> |held| == 0;
  }

  /** A commit that has to allocate does so only while nothing is held. */
  lemma AllocatesOnlyUnheld(p: Pool, held: set<Sample>)
    requires Sound(p, held) && !p.committed && !p.decommitting
    ensures held == {} && p.total == |p.free| && p.waiting == 0
  {
  }

  lemma CarveKeepsSound(p: Pool, system: System)
    requires Sound(p, {}) && !p.committed && !p.decommitting && AllocStep(p, system).0.block != p.block
    ensures var (q, hr) := CommitStep(p, system); Sound(q, {})
  {
    AlignedSizeIs(p.size, p.prefix, p.alignment);
    var q := AllocStep(p, system).0;
    CarveDistinct(q.block, q.total, AlignedSize(p.size, p.prefix, p.alignment).value, p.prefix, p.size);
  }

  /** A successful commit leaves the agreed number of samples, those not held all free; a failed one
      leaves nothing held and nothing committed. */
  lemma CommitKeepsSound(p: Pool, held: set<Sample>, system: System)
    requires Sound(p, held)
    ensures var (q, hr) := CommitStep(p, system);
            && Sound(q, held) && !q.decommitting && (q.committed <==> hr == Ok)
            && (hr == Ok ==> |q.free| + |held| == q.count)
            && (hr != Ok ==> held == {})
  {
    if !p.committed && !p.decommitting {
      AllocatesOnlyUnheld(p, held);
      if AllocStep(p, system).0.block != p.block {
        CarveKeepsSound(p, system);
      }
    }
  }

  /** The samples' slots together fit a LONG. */
  ghost predicate Allocatable(p: Pool) {
    p.size > 0 && p.alignment > 0 && p.prefix >= 0 && p.count * RoundedUp(p.size + p.prefix, p.alignment) <= 0x7FFF_FFFF
  }

  /** When a commit succeeds and how it fails: it needs nothing while committed or decommitting, then
      properties that have been set, then, if these have changed, a block that fits a LONG, the memory
      and all the samples. */
  lemma CommitOutcome(p: Pool, system: System)
    ensures var hr := CommitStep(p, system).1;
            var unset := p.count <= 0 || p.size <= 0 || p.alignment <= 0;
            if p.committed || p.decommitting then hr == Ok
            else if unset then hr == SizeNotSet
            else if p.changed ==> Allocatable(p) && system.memory && system.samples >= p.count then hr == Ok
            else hr == OutOfMemory
  {
    if p.count > 0 && p.size > 0 && p.alignment > 0 && p.prefix >= 0 {
      AlignedSizeIs(p.size, p.prefix, p.alignment);
      CountFits(p.count, RoundedUp(p.size + p.prefix, p.alignment));
    }
  }

  lemma CountFits(count: int, rounded: nat)
    requires count > 0
    ensures rounded <= count * rounded
  {
    MulMono(1, count, rounded);
  }

  /** What becomes of the memory: without a change it is kept as it is; otherwise what there was is given
      up, and any block there is afterwards is a new one. */
  lemma CommitMemory(p: Pool, system: System)
    requires !p.committed && !p.decommitting
    ensures var (q, hr) := CommitStep(p, system);
            && (hr == SizeNotSet || (hr == Ok && !p.changed) ==>
                  q.free == p.free && q.block == p.block && q.hasBuffer == p.hasBuffer)
            && (hr == OutOfMemory && !q.hasBuffer && p.hasBuffer ==> q.free == [] && q.total == 0)
            && (hr == OutOfMemory && q.hasBuffer ==> q.block == p.block + 1)
            && (hr == Ok && p.changed ==> q.block == p.block + 1 && q.hasBuffer && !q.changed)
  {
  }

  /** The size stored is the one that was asked for, rounded, on all the requests for which the source
      gets that right. */
  ghost predicate GrantsIff(r: Request, size: int) {
    && (r.bytes > 0 && r.prefix >= 0 && r.align > 0 && r.bytes + r.prefix <= 0x7FFF_FFFF ==>
          (Grants(r, size) <==> RoundedUp(r.bytes + r.prefix, r.align) - r.prefix <= 0x7FFF_FFFF))
    && (forall k: nat :: k <= 30 && r.bytes > 0 && r.prefix >= 0 && r.align == Pow2(k) && r.bytes + r.prefix > 0x7FFF_FFFF ==>
          (Grants(r, size) <==> Rem(r.bytes + r.prefix, r.align) == 0))
  }

  lemma GrantedSizeGrantsIff(r: Request)
    requires r.align != 0
    ensures GrantsIff(r, GrantedSize(r))
  {
    if r.bytes > 0 && r.prefix >= 0 && r.align > 0 && r.bytes + r.prefix <= 0x7FFF_FFFF {
      GrantedSizeRoundsIff(r);
    }
    forall k: nat | k <= 30 && r.bytes > 0 && r.prefix >= 0 && r.align == Pow2(k) && r.bytes + r.prefix > 0x7FFF_FFFF
      ensures Grants(r, GrantedSize(r)) <==> Rem(r.bytes + r.prefix, r.align) == 0
    {
      OverflowedGrantIff(r, k);
    }
  }

  lemma SetPropertiesKeepsSound(p: Pool, held: set<Sample>, r: Request, granularity: uint32)
    requires Sound(p, held)
    ensures var (q, hr) := SetPropertiesStep(p, r, granularity);
            && Sound(q, held)
            && (hr == Ok ==> held == {} && !q.committed && !q.decommitting && q.changed)
            && (hr != Ok ==> q == p)
            && (hr == BuffersOutstanding <==> hr != BadAlign && !p.committed && held != {})
  {
    assert held == {} <==> |held| == 0;
  }
}
