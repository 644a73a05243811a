/**
Rounding positions to an alignment that is a power of two, with the mask arithmetic of CPullPin.
 */
module Alignment {
  import opened MachineInts

  /** ll & ~(lAlign - 1), the mask sign-extended to 64 bits. */
  function AlignDown(ll: int64, align: int32): int64 {
    ToS64(BitAnd(WrapU64(ll), WrapU64(0 - align)))
  }

  function AlignUp(ll: int64, align: int32): int64 {
    AlignDown(WrapS64(ll + align - 1), align)
  }

  function Times(m: int, a: int): int {
    m * a
  }

  ghost predicate Multiple(x: int, a: int) {
    exists m :: x == Times(m, a)
  }

  /** x with its last k bits cleared, and x without them. */
  function Cleared(x: nat, k: nat): nat {
    if k == 0 then x else 2 * Cleared(x / 2, k - 1)
  }

  function Shifted(x: nat, k: nat): nat {
    if k == 0 then x else Shifted(x / 2, k - 1)
  }

  lemma {:induction false} PowGrows(k: nat, n: nat)
    requires k <= n
    ensures 1 <= Pow2(k) <= Pow2(n)
  {
    if k < n {
      PowGrows(k, n - 1);
    }
  }

  lemma AndOnesStep(x: nat, p: nat)
    requires x > 0 && p > 0 && BitAnd(x / 2, p - 1) == x / 2
    ensures BitAnd(x, 2 * p - 1) == x
  {
    assert (2 * p - 1) / 2 == p - 1 && (2 * p - 1) % 2 == 1;
  }

  lemma {:induction false} AndOnes(x: nat, n: nat)
    requires x < Pow2(n)
    ensures BitAnd(x, Pow2(n) - 1) == x
  {
    if n > 0 && x > 0 {
      AndOnes(x / 2, n - 1);
      AndOnesStep(x, Pow2(n - 1));
    }
  }

  /** Anding with n - k ones followed by k zeros clears the last k bits. */
  lemma {:induction false} AndMask(x: nat, k: nat, n: nat)
    requires k <= n && x < Pow2(n)
    ensures Pow2(k) <= Pow2(n) && BitAnd(x, Pow2(n) - Pow2(k)) == Cleared(x, k)
  {
    PowGrows(k, n);
    if k == 0 {
      AndOnes(x, n);
    } else if x == 0 {
      ClearedZero(k);
    } else {
      PowGrows(k - 1, n - 1);
      AndMask(x / 2, k - 1, n - 1);
      var half := Pow2(n - 1) - Pow2(k - 1);
      assert Pow2(n) - Pow2(k) == 2 * half;
    }
  }

  lemma {:induction false} ClearedZero(k: nat)
    ensures Cleared(0, k) == 0
  {
    if k > 0 {
      ClearedZero(k - 1);
    }
  }

  /** Clearing the last k bits gives the greatest multiple of 2^k not above x. */
  lemma {:induction false} ClearedIsMultiple(x: nat, k: nat)
    ensures Cleared(x, k) == Times(Shifted(x, k), Pow2(k))
    ensures Cleared(x, k) <= x < Cleared(x, k) + Pow2(k)
  {
    if k > 0 {
      ClearedIsMultiple(x / 2, k - 1);
      DoubleProduct(Shifted(x / 2, k - 1), Pow2(k - 1));
    }
  }

  lemma DoubleProduct(m: nat, p: nat)
    ensures 2 * (m * p) == m * (2 * p)
  {
  }

  lemma MultipleSum(x: int, y: int, a: int)
    requires Multiple(x, a) && Multiple(y, a)
    ensures Multiple(x + y, a)
  {
    var m :| x == Times(m, a);
    var n :| y == Times(n, a);
    MulDistributes(m, n, a);
    assert x + y == Times(m + n, a);
  }

  lemma MultipleBelow(x: int, y: int, a: nat)
    requires Multiple(x, a) && Multiple(y, a) && x < y
    ensures x + a <= y
  {
    var m :| x == Times(m, a);
    var n :| y == Times(n, a);
    if m >= n {
      MulMono(n, m, a);
    } else {
      MulMono(m + 1, n, a);
      MulDistributes(m, 1, a);
    }
  }

  /** A LONGLONG as the 64-bit word it is. */
  function Word(ll: int64): uint64 {
    if ll < 0 then ll + 0x1_0000_0000_0000_0000 else ll
  }

  lemma WordIsWrap(ll: int64)
    ensures WrapU64(ll) == Word(ll)
  {
    assert ll / 0x1_0000_0000_0000_0000 == if ll < 0 then -1 else 0;
  }

  lemma NegativeMask(p: int)
    requires 1 <= p <= 0x7FFF_FFFF
    ensures WrapU64(0 - p) == 0x1_0000_0000_0000_0000 - p
  {
    assert (0 - p) / 0x1_0000_0000_0000_0000 == -1;
  }

  lemma AlignDownIs(ll: int64, p: int32)
    requires 1 <= p
    ensures AlignDown(ll, p) == ToS64(BitAnd(Word(ll), 0x1_0000_0000_0000_0000 - p))
  {
    WordIsWrap(ll);
    NegativeMask(p);
  }

  lemma AlignDownClears(ll: int64, k: nat)
    requires k <= 30
    ensures 1 <= Pow2(k) <= 0x4000_0000 && Cleared(Word(ll), k) <= Word(ll)
    ensures AlignDown(ll, Pow2(k)) == ToS64(Cleared(Word(ll), k))
  {
    PowGrows(k, 30);
    Powers();
    AlignDownIs(ll, Pow2(k));
    AndMask(Word(ll), k, 64);
    ClearedIsMultiple(Word(ll), k);
  }

  lemma PowerIsMultiple(n: nat, k: nat)
    requires k <= n
    ensures Multiple(Pow2(n), Pow2(k)) && Multiple(0 - Pow2(n), Pow2(k))
  {
    Pow2Add(n - k, k);
    NegativeTimes(Pow2(n), Pow2(n - k), Pow2(k));
  }

  lemma NegativeTimes(x: int, m: int, p: int)
    requires x == m * p
    ensures Multiple(x, p) && Multiple(0 - x, p)
  {
    assert x == Times(m, p);
    assert 0 - x == Times(0 - m, p);
  }

  /** The sign bit survives: 2^63 is a multiple of every alignment. */
  lemma ClearedKeepsSign(w: uint64, k: nat)
    requires k <= 30
    ensures Cleared(w, k) >= 0x8000_0000_0000_0000 <==> w >= 0x8000_0000_0000_0000
  {
    Powers();
    assert Pow2(64) == 2 * Pow2(63);
    PowerIsMultiple(63, k);
    ClearedIsMultiple(w, k);
    if w >= 0x8000_0000_0000_0000 && Cleared(w, k) < Pow2(63) {
      MultipleBelow(Cleared(w, k), Pow2(63), Pow2(k));
    }
  }

  /** AlignDown gives the greatest multiple of the alignment not above the position, also of a negative
      one. */
  lemma AlignDownRounds(ll: int64, k: nat)
    requires k <= 30
    ensures 1 <= Pow2(k) <= 0x4000_0000
    ensures Multiple(AlignDown(ll, Pow2(k)), Pow2(k))
    ensures AlignDown(ll, Pow2(k)) <= ll < AlignDown(ll, Pow2(k)) + Pow2(k)
  {
    var w := Word(ll);
    AlignDownClears(ll, k);
    ClearedIsMultiple(w, k);
    ClearedKeepsSign(w, k);
    if ll < 0 {
      Powers();
      PowerIsMultiple(64, k);
      MultipleSum(Cleared(w, k), 0 - Pow2(64), Pow2(k));
    }
  }

  /** ll + (lAlign - 1), brought back into range. */
  function Summed(ll: int64, p: int32): int64
    requires 1 <= p
  {
    if ll + p - 1 <= MAX_INT64 then ll + p - 1 else ll + p - 1 - 0x1_0000_0000_0000_0000
  }

  lemma SummedIsWrap(ll: int64, p: int32)
    requires 1 <= p
    ensures WrapS64(ll + p - 1) == Summed(ll, p)
  {
    var sum: int := ll + p - 1;
    if sum <= MAX_INT64 {
      WrapInRange(sum);
    } else {
      WrapAbove(sum);
    }
  }

  lemma WrapAbove(x: int)
    requires MAX_INT64 < x <= MAX_INT64 + 0x8000_0000
    ensures WrapS64(x) == x - 0x1_0000_0000_0000_0000
  {
  }

  /** What AlignUp is for: the least multiple not below the position. */
  ghost predicate RoundsUp(ll: int, up: int, p: int) {
    Multiple(up, p) && ll <= up < ll + p
  }

  lemma RoundsUpIff(ll: int64, p: int32, down: int)
    requires 1 <= p <= 0x4000_0000 && Multiple(down, p) && down <= Summed(ll, p) < down + p
    ensures RoundsUp(ll, down, p) <==> ll + p - 1 <= MAX_INT64
  {
  }

  lemma UpOf(ll: int64, p: int32, down: int)
    requires 1 <= p <= 0x4000_0000 && Multiple(down, p) && down <= Summed(ll, p) < down + p
    requires down == AlignDown(Summed(ll, p), p)
    ensures RoundsUp(ll, AlignUp(ll, p), p) <==> ll + p - 1 <= MAX_INT64
  {
    SummedIsWrap(ll, p);
    RoundsUpIff(ll, p, down);
  }

  /** It gives that exactly if the sum it starts from does not overflow. */
  lemma AlignUpRoundsIff(ll: int64, k: nat)
    requires k <= 30
    ensures 1 <= Pow2(k) <= 0x4000_0000
    ensures RoundsUp(ll, AlignUp(ll, Pow2(k)), Pow2(k)) <==> ll + Pow2(k) - 1 <= MAX_INT64
  {
    AlignDownRounds(ll, k);
    AlignDownRounds(Summed(ll, Pow2(k)), k);
    UpOf(ll, Pow2(k), AlignDown(Summed(ll, Pow2(k)), Pow2(k)));
  }

  lemma WrapInRange(x: int64)
    ensures WrapS64(x) == x
  {
    assert x / 0x1_0000_0000_0000_0000 == if x >= 0 then 0 else -1;
  }
}
