/**
Shifts of 32-bit two's complement integers, bit by bit: to the left with wrap-around, to the
right with the sign.
 */
module Shifts {
  import opened MachineInts
  import opened Alignment

  function Doubled(x: int32): int32 {
    Overflowed32(2 * x)
  }

  function Shl(x: int32, k: nat): int32
    decreases k
  {
    if k == 0 then x else Shl(Doubled(x), k - 1)
  }

  function Shr(x: int32, k: nat): int32
    decreases k
  {
    if k == 0 then x else Shr(x / 2, k - 1)
  }

  /** x can be shifted left by k without losing a bit: it fits in 32 - k bits. */
  ghost predicate Fits(x: int32, k: nat)
    decreases k
  {
    k > 0 ==> -0x4000_0000 <= x < 0x4000_0000 && Fits(2 * x, k - 1)
  }

  lemma {:induction false} FitsIff(x: int32, k: nat)
    requires k <= 31
    ensures Fits(x, k) <==> 0 - Pow2(31 - k) <= x < Pow2(31 - k)
    decreases k
  {
    Powers();
    assert Pow2(31) == 0x8000_0000;
    if k > 0 {
      PowGrows(31 - k, 30);
      assert Pow2(31 - (k - 1)) == 2 * Pow2(31 - k);
      if -0x4000_0000 <= x < 0x4000_0000 {
        FitsIff(2 * x, k - 1);
      }
    }
  }

  lemma {:induction false} FitsLess(x: int32, j: nat, k: nat)
    requires j <= k && Fits(x, k)
    ensures Fits(x, j)
    decreases k
  {
    if j > 0 {
      FitsLess(2 * x, j - 1, k - 1);
    }
  }

  /** The last of k doublings does not overflow either. */
  lemma {:induction false} FitsHalf(x: int32, k: nat)
    requires k > 0 && Fits(x, k)
    ensures -0x4000_0000 <= Shl(x, k - 1) < 0x4000_0000 && Shl(x, k) == 2 * Shl(x, k - 1)
    decreases k
  {
    if k > 1 {
      FitsHalf(2 * x, k - 1);
    }
  }

  /** Left by a and right by b is one shift by the difference, when nothing was lost. */
  lemma {:induction false} LeftRight(x: int32, a: nat, b: nat)
    requires Fits(x, a)
    ensures Shr(Shl(x, a), b) == if b <= a then Shl(x, a - b) else Shr(x, b - a)
    decreases a
  {
    if a > 0 && b > 0 {
      FitsHalf(x, a);
      FitsLess(x, a - 1, a);
      LeftRight(x, a - 1, b - 1);
    }
  }

  lemma {:induction false} ShrShr(x: int32, a: nat, b: nat)
    ensures Shr(Shr(x, a), b) == Shr(x, a + b)
    decreases a
  {
    if a > 0 {
      ShrShr(x / 2, a - 1, b);
    }
  }

  lemma {:induction false} ShlShl(x: int32, a: nat, b: nat)
    ensures Shl(Shl(x, a), b) == Shl(x, a + b)
    decreases a
  {
    if a > 0 {
      ShlShl(Doubled(x), a - 1, b);
    }
  }

  /** Each shift to the right takes one bit off. */
  lemma {:induction false} ShrBound(x: int32, k: nat, n: nat)
    requires 0 - Pow2(n + k) <= x < Pow2(n + k)
    ensures 0 - Pow2(n) <= Shr(x, k) < Pow2(n)
    decreases k
  {
    if k > 0 {
      assert Pow2(n + k) == 2 * Pow2(n + k - 1);
      ShrBound(x / 2, k - 1, n);
    }
  }

  lemma ShrFits(x: int32, k: nat)
    requires k <= 31
    ensures Fits(Shr(x, k), k)
  {
    Powers();
    assert Pow2(31) == 0x8000_0000;
    ShrBound(x, k, 31 - k);
    FitsIff(Shr(x, k), k);
  }

  /** Right and left again is the identity on what has only zeros there. */
  lemma RightLeft(x: int32, a: nat, b: nat)
    requires Fits(x, a) && b <= a
    ensures Shl(Shr(Shl(x, a), b), b) == Shl(x, a)
  {
    LeftRight(x, a, b);
    ShlShl(x, a - b, b);
  }

  /** Dropping m bits, then n, is dropping n. */
  lemma NarrowTwice(y: int32, m: nat, n: nat)
    requires m <= n && m <= 31
    ensures Shr(Shl(Shr(y, m), m), n) == Shr(y, n)
  {
    ShrFits(y, m);
    LeftRight(Shr(y, m), m, n);
    ShrShr(y, m, n - m);
  }

  /** A left shift is a product modulo 2^32. */
  lemma {:induction false} ShlWraps(x: int32, k: nat) returns (m: int)
    ensures Shl(x, k) == x * Pow2(k) - 0x1_0000_0000 * m
    decreases k
  {
    if k == 0 {
      m := 0;
    } else {
      m := ShlWraps(Doubled(x), k - 1);
      var p := Pow2(k - 1);
      var c := if 2 * x > 0x7FFF_FFFF then 1 else if 2 * x < -0x8000_0000 then -1 else 0;
      assert Doubled(x) == 2 * x - 0x1_0000_0000 * c;
      m := Carry(x, c, p, m);
    }
  }

  lemma Carry(x: int, c: int, p: int, m: int) returns (n: int)
    ensures (2 * x - 0x1_0000_0000 * c) * p - 0x1_0000_0000 * m == x * (2 * p) - 0x1_0000_0000 * n
  {
    n := c * p + m;
    MulDistributes(2 * x, 0 - 0x1_0000_0000 * c, p);
    assert (0 - 0x1_0000_0000 * c) * p == 0 - 0x1_0000_0000 * (c * p);
    assert (2 * x) * p == x * (2 * p);
  }
}
