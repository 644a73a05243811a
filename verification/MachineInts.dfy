/**
Fixed-width integers as the base classes use them: every signed operation wraps in
two's complement, a 64-bit word splits into two 32-bit halves.
 */
module MachineInts {
  type uint32 = x: int | 0 <= x < 0x1_0000_0000
  type uint64 = x: int | 0 <= x < 0x1_0000_0000_0000_0000
  type int32 = x: int | -0x8000_0000 <= x < 0x8000_0000
  type int64 = x: int | -0x8000_0000_0000_0000 <= x < 0x8000_0000_0000_0000

  const MAX_INT64: int64 := 0x7FFF_FFFF_FFFF_FFFF
  const MIN_INT64: int64 := -0x8000_0000_0000_0000

  function Abs(x: int): nat {
    if x < 0 then -x else x
  }

  /** Quotient and remainder of magnitudes, by repeated subtraction. */
  function Quot(m: nat, u: nat): nat
    requires u > 0
  {
    if m < u then 0 else 1 + Quot(m - u, u)
  }

  function Rem(m: nat, u: nat): nat
    requires u > 0
  {
    if m < u then m else Rem(m - u, u)
  }

  lemma {:induction false} QuotRem(m: nat, u: nat)
    requires u > 0
    ensures m == Quot(m, u) * u + Rem(m, u) && Rem(m, u) < u
  {
    if m < u {
    } else {
      QuotRem(m - u, u);
      MulDistributes(Quot(m - u, u), 1, u);
    }
  }

  lemma {:induction false} RemOfOne(m: nat)
    ensures Rem(m, 1) == 0
  {
    if m > 0 {
      RemOfOne(m - 1);
    }
  }

  lemma MulDistributes(x: int, y: int, z: int)
    ensures (x + y) * z == x * z + y * z
  {
  }

  lemma MulMono(x: int, y: int, z: nat)
    requires x <= y
    ensures x * z <= y * z
  {
    assert (y - x) * z >= 0;
  }

  lemma MulBound(x: nat, y: nat, mx: nat, my: nat)
    requires x <= mx && y <= my
    ensures x * y <= mx * my
  {
    MulMono(x, mx, y);
    MulMono(y, my, mx);
  }

  lemma QuotBound(m: nat, u: nat, k: nat)
    requires u > 0
    ensures Quot(m, u) < k <==> m < k * u
  {
    var q := Quot(m, u);
    QuotRem(m, u);
    if q >= k {
      MulMono(k, q, u);
    } else {
      MulMono(q + 1, k, u);
      MulDistributes(q, 1, u);
    }
  }

  /** The division theorem: a decomposition of m by u is the one of Quot and Rem. */
  lemma QuotIs(m: nat, u: nat, q: nat, r: nat)
    requires m == q * u + r && r < u
    ensures Quot(m, u) == q && Rem(m, u) == r
  {
    MulDistributes(q, 1, u);
    QuotBound(m, u, q);
    QuotBound(m, u, q + 1);
    QuotRem(m, u);
  }

  /** Machine division of unsigned values. */
  method Divide(m: nat, u: nat) returns (quotient: nat, remainder: nat)
    requires u > 0
    ensures quotient == Quot(m, u) && remainder == Rem(m, u)
  {
    quotient, remainder := m / u, m % u;
    QuotIs(m, u, quotient, remainder);
  }

  function Negated(x: int, negative: bool): int {
    if negative then 0 - x else x
  }

  /** C++ division: the quotient is truncated toward zero. */
  function TruncDiv(n: int, d: int): int
    requires d != 0
  {
    Negated(Quot(Abs(n), Abs(d)), (n < 0) != (d < 0))
  }

  /** The remainder it leaves is smaller than the divisor and has the dividend's sign. */
  lemma TruncDivLaw(n: int, d: int)
    requires d != 0
    ensures var r := n - TruncDiv(n, d) * d;
            Abs(r) < Abs(d) && (n >= 0 ==> r >= 0) && (n <= 0 ==> r <= 0)
  {
    var q := Quot(Abs(n), Abs(d));
    QuotRem(Abs(n), Abs(d));
    Signs(q, d);
  }

  lemma Signs(q: int, d: int)
    ensures q * d == if d < 0 then 0 - q * Abs(d) else q * Abs(d)
    ensures (0 - q) * d == 0 - q * d
  {
  }

  function WrapU32(x: int): uint32 { x % 0x1_0000_0000 }

  function WrapU64(x: int): uint64 { x % 0x1_0000_0000_0000_0000 }

  function ToS32(u: uint32): int32 {
    if u < 0x8000_0000 then u else u - 0x1_0000_0000
  }

  function ToS64(u: uint64): int64 {
    if u < 0x8000_0000_0000_0000 then u else u - 0x1_0000_0000_0000_0000
  }

  function WrapS32(x: int): int32 { ToS32(WrapU32(x)) }

  function WrapS64(x: int): int64 { ToS64(WrapU64(x)) }

  /** A sum or difference of two LONGs, brought back into range. */
  function Overflowed32(x: int): int32
    requires -0x1_0000_0000 <= x <= 0x1_0000_0000
  {
    if x > 0x7FFF_FFFF then x - 0x1_0000_0000 else if x < -0x8000_0000 then x + 0x1_0000_0000 else x
  }

  lemma OverflowIsWrap(x: int)
    requires -0x1_0000_0000 <= x <= 0x1_0000_0000
    ensures Overflowed32(x) == WrapS32(x)
  {
    assert x == 0x1_0000_0000 || x / 0x1_0000_0000 == 0 || x / 0x1_0000_0000 == -1;
  }

  function Pow2(n: nat): (p: nat)
    ensures p > 0
  {
    if n == 0 then 1 else 2 * Pow2(n - 1)
  }

  lemma {:induction false} Pow2Add(m: nat, n: nat)
    ensures Pow2(m + n) == Pow2(m) * Pow2(n)
  {
    if m > 0 {
      Pow2Add(m - 1, n);
      assert Pow2(m) * Pow2(n) == 2 * (Pow2(m - 1) * Pow2(n));
    }
  }

  lemma Pow2To16()
    ensures Pow2(14) == 0x4000 && Pow2(16) == 0x1_0000
  {
    assert Pow2(2) == 4;
    assert Pow2(4) == 16;
    assert Pow2(7) == 128;
    Pow2Add(7, 7);
    Pow2Add(2, 14);
  }

  lemma Powers()
    ensures Pow2(30) == 0x4000_0000 && Pow2(32) == 0x1_0000_0000 && Pow2(64) == 0x1_0000_0000_0000_0000
  {
    Pow2To16();
    Pow2Add(14, 16);
    Pow2Add(16, 16);
    Pow2Add(32, 32);
  }

  /** Bitwise and of two words. */
  function BitAnd(x: nat, y: nat): (r: nat)
    ensures r <= x
    decreases x
  {
    if x == 0 then 0 else 2 * BitAnd(x / 2, y / 2) + (if x % 2 == 1 && y % 2 == 1 then 1 else 0)
  }

  function BitOr(x: nat, y: nat): nat
    decreases x + y
  {
    if x == 0 && y == 0 then 0 else 2 * BitOr(x / 2, y / 2) + (if x % 2 == 1 || y % 2 == 1 then 1 else 0)
  }

  /** LowPart and HighPart of a ULARGE_INTEGER, and the word made of two parts. */
  function Low(x: uint64): uint32 { x % 0x1_0000_0000 }

  function High(x: uint64): uint32 { x / 0x1_0000_0000 }

  function Join(high: uint32, low: uint32): uint64 { high * 0x1_0000_0000 + low }

  /** Bitwise complement. */
  function Not32(x: uint32): uint32 { 0x1_0000_0000 - 1 - x }

  function Not64(x: uint64): uint64 { 0x1_0000_0000_0000_0000 - 1 - x }

  /** `x >= 0 ? x : -x` cast to unsigned: the magnitude, also of the least value. */
  method Magnitude64(x: int64) returns (u: uint64)
    ensures u == Abs(x)
  {
    u := WrapU64(if x >= 0 then x else WrapS64(0 - x));
  }

  method Magnitude32(x: int32) returns (u: uint32)
    ensures u == Abs(x)
  {
    u := WrapU32(if x >= 0 then x else WrapS32(0 - x));
  }
}
