/**
The 128-bit scaled division of arithutil.cpp, (a * b + d) / c, in its general form and
in the fast 64 x 32 / 32 form.  Both are the source's own limb arithmetic; both are proved
to return the one value defined over unbounded integers by `ScaledValue`.
 */
module MulDiv {
  import opened MachineInts

  function Saturated(negative: bool): int64 {
    if negative then MIN_INT64 else MAX_INT64
  }

  /** A magnitude given its sign: one that needs more than 64 bits saturates; one of at
      most 2^64 - 1 is reduced to 64 bits signed, so that above 2^63 the sign flips. */
  function Signed64(q: nat, negative: bool): int64 {
    if 0x1_0000_0000_0000_0000 <= q then Saturated(negative)
    else if negative then
      if q <= 0x8000_0000_0000_0000 then 0 - q else 0x1_0000_0000_0000_0000 - q
    else
      if q < 0x8000_0000_0000_0000 then q else q - 0x1_0000_0000_0000_0000
  }

  /** The sign flag the source ends with: that of the exact quotient, or, for a zero
      numerator, that of the factors (`factorsNegative`) and the divisor. */
  predicate NegativeResult(n: int, c: int, factorsNegative: bool) {
    (if n == 0 then factorsNegative else n < 0) != (c < 0)
  }

  /** What both routines return for numerator n and divisor c, over exact integers. */
  function ScaledValue(n: int, c: int, factorsNegative: bool): int64 {
    var negative := NegativeResult(n, c, factorsNegative);
    if c == 0 then Saturated(negative) else Signed64(Quot(Abs(n), Abs(c)), negative)
  }

  // ---------------------------------------------------------------------------------
  // What the value means
  // ---------------------------------------------------------------------------------

  lemma QuotientSign(n: int, c: int, factorsNegative: bool)
    requires c != 0
    ensures TruncDiv(n, c) == Negated(Quot(Abs(n), Abs(c)), NegativeResult(n, c, factorsNegative))
  {
    if n == 0 {
      assert Quot(Abs(n), Abs(c)) == 0;
    }
  }

  /** The law the routines are for: the result is the quotient truncated toward zero exactly
      when that quotient is a 64-bit signed value. */
  lemma ExactIffRepresentable(n: int, c: int, factorsNegative: bool)
    requires c != 0
    ensures ScaledValue(n, c, factorsNegative) == TruncDiv(n, c)
      <==> MIN_INT64 <= TruncDiv(n, c) <= MAX_INT64
  {
    QuotientSign(n, c, factorsNegative);
  }

  /** Out of range there are two bands.  A magnitude of 2^64 or more saturates by sign, as does
      division by zero; in between the result is off by 2^64 and so has the opposite sign. */
  lemma OverflowBands(n: int, c: int, factorsNegative: bool)
    ensures c == 0 && n > 0 ==> ScaledValue(n, c, factorsNegative) == MAX_INT64
    ensures c == 0 && n < 0 ==> ScaledValue(n, c, factorsNegative) == MIN_INT64
    ensures c == 0 && n == 0 ==> ScaledValue(n, c, factorsNegative) == if factorsNegative then MIN_INT64 else MAX_INT64
    ensures c != 0 ==>
            var x := TruncDiv(n, c);
            var r := ScaledValue(n, c, factorsNegative);
            && (x >= 0x1_0000_0000_0000_0000 ==> r == MAX_INT64)
            && (x <= -0x1_0000_0000_0000_0000 ==> r == MIN_INT64)
            && (MAX_INT64 < x < 0x1_0000_0000_0000_0000 ==> r == x - 0x1_0000_0000_0000_0000 < 0)
            && (-0x1_0000_0000_0000_0000 < x < MIN_INT64 ==> r == x + 0x1_0000_0000_0000_0000 > 0)
  {
    if c != 0 {
      QuotientSign(n, c, factorsNegative);
    }
  }

  /** The band in between is met: 2^62 * 2 / 1 comes out as the least 64-bit value. */
  lemma WrappedQuotient()
    ensures var a, b, c, d := 0x4000_0000_0000_0000, 2, 1, 0;
            && MAX_INT64 < TruncDiv(a * b + d, c) < 0x1_0000_0000_0000_0000
            && ScaledValue(a * b + d, c, (a < 0) != (b < 0)) == MIN_INT64
  {
    QuotIs(0x8000_0000_0000_0000, 1, 0x8000_0000_0000_0000, 0);
  }

  // ---------------------------------------------------------------------------------
  // Long multiplication
  // ---------------------------------------------------------------------------------

  lemma SchoolbookProduct(ah: int, al: int, bh: int, bl: int)
    ensures (ah * 0x1_0000_0000 + al) * (bh * 0x1_0000_0000 + bl)
         == ah * bh * 0x1_0000_0000_0000_0000 + (al * bh + ah * bl) * 0x1_0000_0000 + al * bl
  {
    var b := bh * 0x1_0000_0000 + bl;
    MulDistributes(ah * 0x1_0000_0000, al, b);
    assert ah * 0x1_0000_0000 * b == ah * bh * 0x1_0000_0000_0000_0000 + ah * bl * 0x1_0000_0000;
    assert al * b == al * bh * 0x1_0000_0000 + al * bl;
  }

  /** UInt32x32To64. */
  method Widening(x: int, y: int) returns (p: uint64)
    requires 0 <= x < 0x1_0000_0000 && 0 <= y < 0x1_0000_0000
    ensures p == x * y
  {
    MulBound(x, y, 0xFFFF_FFFF, 0xFFFF_FFFF);
    p := x * y;
  }

  /** Why the middle sum cannot overflow: a magnitude of at most 2^63 has a high part of at
      most 2^31. */
  lemma PartialProducts(ah: nat, al: nat, bh: nat, bl: nat)
    requires ah <= 0x8000_0000 && bh <= 0x8000_0000 && al < 0x1_0000_0000 && bl < 0x1_0000_0000
    ensures al * bh <= 0x7FFF_FFFF_8000_0000 && ah * bl <= 0x7FFF_FFFF_8000_0000
    ensures ah * bh <= 0x4000_0000_0000_0000
  {
    MulBound(al, bh, 0xFFFF_FFFF, 0x8000_0000);
    MulBound(ah, bl, 0x8000_0000, 0xFFFF_FFFF);
    MulBound(ah, bh, 0x8000_0000, 0x8000_0000);
  }

  /** Carrying the four 32 x 32 partial products into two words. */
  method CombineProducts(ll: uint64, lh: uint64, hl: uint64, hh: uint64)
    returns (p0: uint64, p1: uint64)
    requires lh + hl <= 0xFFFF_FFFF_0000_0000 && hh <= 0x4000_0000_0000_0000
    ensures p1 * 0x1_0000_0000_0000_0000 + p0
         == hh * 0x1_0000_0000_0000_0000 + (lh + hl) * 0x1_0000_0000 + ll
  {
    p0 := ll;
    var x := WrapU64(lh + hl + High(p0));
    p0 := Join(Low(x), Low(p0));
    p1 := WrapU64(hh + High(x));
  }

  /** The two words p[0], p[1] hold the exact 128-bit product: the middle sum does not
      overflow because no magnitude exceeds 2^63. */
  method Multiply(ua: uint64, ub: uint64) returns (p0: uint64, p1: uint64)
    requires ua <= 0x8000_0000_0000_0000 && ub <= 0x8000_0000_0000_0000
    ensures p1 * 0x1_0000_0000_0000_0000 + p0 == ua * ub
  {
    var ah, al := Split(ua);
    var bh, bl := Split(ub);
    PartialProducts(ah, al, bh, bl);
    var ll := Widening(al, bl);
    var lh := Widening(al, bh);
    var hl := Widening(ah, bl);
    var hh := Widening(ah, bh);
    p0, p1 := CombineProducts(ll, lh, hl, hh);
    SchoolbookProduct(ah, al, bh, bl);
  }

  /** HighPart and LowPart. */
  method Split(x: uint64) returns (high: uint32, low: uint32)
    ensures x == high * 0x1_0000_0000 + low
  {
    high, low := High(x), Low(x);
  }

  // ---------------------------------------------------------------------------------
  // Extended signed addition
  // ---------------------------------------------------------------------------------

  /** The addend sign-extended to 128 bits, negated first for a negative product. */
  method ExtendSign(d: int64, negative: bool) returns (ud0: uint64, ud1: uint64)
    ensures var e := Negated(d, negative);
            if e < 0 then ud1 == 0xFFFF_FFFF_FFFF_FFFF && ud0 == e + 0x1_0000_0000_0000_0000
            else ud1 == 0 && ud0 == e
  {
    if negative {
      ud0 := WrapU64(WrapS64(0 - d));
      ud1 := if d > 0 then 0xFFFF_FFFF_FFFF_FFFF else 0;
    } else {
      ud0 := WrapU64(d);
      ud1 := if d < 0 then 0xFFFF_FFFF_FFFF_FFFF else 0;
    }
  }

  /** The two 32-bit additions with their carries. */
  method AddWords(q0: uint64, ud0: uint64) returns (p0: uint64, carry: uint32)
    ensures p0 + carry * 0x1_0000_0000_0000_0000 == q0 + ud0 && carry <= 1
  {
    var total: uint64 := Low(ud0) + Low(q0);
    p0 := Join(High(q0), Low(total));
    total := High(total);
    total := total + (High(ud0) + High(p0));
    p0 := Join(Low(total), Low(p0));
    carry := High(total);
  }

  /** `~p0, ~p1, +1 with carry`: 128-bit negation. */
  method Negate128(q0: uint64, q1: uint64) returns (p0: uint64, p1: uint64)
    requires q1 > 0
    ensures p1 * 0x1_0000_0000_0000_0000 + p0
         == (0x1_0000_0000_0000_0000 - q1) * 0x1_0000_0000_0000_0000 - q0
  {
    p0 := Not64(q0);
    p1 := Not64(q1);
    p0 := WrapU64(p0 + 1);
    p1 := WrapU64(p1 + (if p0 == 0 then 1 else 0));
  }

  /** The high words, and the sign bit of the sum. */
  method AddHigh(q1: uint64, ud1: uint64, carry: uint32) returns (p1: uint64, signBit: bool)
    requires q1 <= 0x4000_0000_0000_0000 && carry <= 1
    requires ud1 == 0 || ud1 == 0xFFFF_FFFF_FFFF_FFFF
    ensures ud1 == 0 ==> p1 == q1 + carry && !signBit
    ensures ud1 != 0 && q1 + carry > 0 ==> p1 == q1 + carry - 1 && !signBit
    ensures ud1 != 0 && q1 + carry == 0 ==> p1 == 0xFFFF_FFFF_FFFF_FFFF && signBit
  {
    p1 := WrapU64(q1 + ud1 + carry);
    signBit := ToS32(High(p1)) < 0;
  }

  /** Adds d (negated when the product is negative) to the product held as a magnitude,
      keeps a magnitude and tracks the sign. */
  method AddSigned(q0: uint64, q1: uint64, d: int64, negative: bool)
    returns (p0: uint64, p1: uint64, flipped: bool)
    requires q1 <= 0x4000_0000_0000_0000
    ensures var v := q1 * 0x1_0000_0000_0000_0000 + q0 + Negated(d, negative);
            && p1 * 0x1_0000_0000_0000_0000 + p0 == Abs(v)
            && flipped == (v < 0)
  {
    p0, p1, flipped := q0, q1, false;
    if d != 0 {
      var ud0, ud1 := ExtendSign(d, negative);
      var carry;
      p0, carry := AddWords(p0, ud0);
      p1, flipped := AddHigh(p1, ud1, carry);
      if flipped {
        p0, p1 := Negate128(p0, p1);
      }
    }
  }

  // ---------------------------------------------------------------------------------
  // Division
  // ---------------------------------------------------------------------------------

  lemma Pow2Of64()
    ensures Pow2(64) == 0x1_0000_0000_0000_0000
  {
    Powers();
  }

  /** Dividing the high part first and carrying its remainder, for a 32-bit divisor. */
  lemma TwoStepDivision(p1: nat, hi: nat, lo: nat, u: nat)
    requires 0 < u < 0x1_0000_0000 && p1 < u && hi < 0x1_0000_0000 && lo < 0x1_0000_0000
    ensures var first := p1 * 0x1_0000_0000 + hi;
            var second := Rem(first, u) * 0x1_0000_0000 + lo;
            && Quot(first, u) < 0x1_0000_0000
            && Rem(first, u) < u
            && Quot(second, u) < 0x1_0000_0000
            && Quot(p1 * 0x1_0000_0000_0000_0000 + hi * 0x1_0000_0000 + lo, u)
               == Quot(first, u) * 0x1_0000_0000 + Quot(second, u)
  {
    var first := p1 * 0x1_0000_0000 + hi;
    var h, r := Quot(first, u), Rem(first, u);
    QuotRem(first, u);
    QuotBound(first, u, 0x1_0000_0000);
    var second := r * 0x1_0000_0000 + lo;
    var l, s := Quot(second, u), Rem(second, u);
    QuotRem(second, u);
    QuotBound(second, u, 0x1_0000_0000);
    Recombine(p1, hi, lo, u, h, r, l, s);
    QuotIs(p1 * 0x1_0000_0000_0000_0000 + hi * 0x1_0000_0000 + lo, u, h * 0x1_0000_0000 + l, s);
  }

  lemma Recombine(p1: int, hi: int, lo: int, u: int, h: int, r: int, l: int, s: int)
    requires p1 * 0x1_0000_0000 + hi == h * u + r
    requires r * 0x1_0000_0000 + lo == l * u + s
    ensures p1 * 0x1_0000_0000_0000_0000 + hi * 0x1_0000_0000 + lo == (h * 0x1_0000_0000 + l) * u + s
  {
    MulDistributes(h * 0x1_0000_0000, l, u);
  }

  /** One round of shift-subtract keeps the dividend equal to (result * uc + p1) scaled up,
      plus the bits not yet shifted in. */
  lemma ShiftSubtractStep(m: int, res: int, uc: int, p1: int, rest: int, scale: int, bit: int)
    requires m == (res * uc + p1) * (2 * scale) + (bit * scale + rest)
    ensures m == (2 * res * uc + (2 * p1 + bit)) * scale + rest
    ensures m == ((2 * res + 1) * uc + (2 * p1 + bit - uc)) * scale + rest
  {
    assert (res * uc + p1) * (2 * scale) == (2 * res * uc + 2 * p1) * scale;
    assert (2 * res + 1) * uc == 2 * res * uc + uc;
    MulDistributes(2 * res * uc + 2 * p1, bit, scale);
  }

  lemma TopBit(p0: nat, rest: nat, weight: nat, scale: nat)
    requires weight > 0 && p0 == rest * weight && 2 * (weight * scale) == 0x1_0000_0000_0000_0000
    ensures p0 >= 0x8000_0000_0000_0000 <==> rest >= scale
    ensures rest >= scale ==> 2 * p0 - 0x1_0000_0000_0000_0000 == (rest - scale) * (2 * weight)
    ensures 2 * p0 == rest * (2 * weight)
  {
    if rest >= scale {
      MulBound(scale, weight, rest, weight);
    } else {
      MulBound(rest + 1, weight, scale, weight);
      MulDistributes(rest, 1, weight);
    }
    MulDistributes(rest, 0 - scale, 2 * weight);
  }

  /** One round: shift p[1]:p[0] left by one bit, subtract the divisor if it goes. */
  method Round(q0: uint64, q1: uint64, uc: uint64, res: uint64)
    returns (p0: uint64, p1: uint64, result: uint64)
    requires q1 < uc <= 0x8000_0000_0000_0000 && res < 0x8000_0000_0000_0000
    ensures var bit := if q0 >= 0x8000_0000_0000_0000 then 1 else 0;
            && p0 == 2 * q0 - bit * 0x1_0000_0000_0000_0000
            && p1 < uc
            && if uc <= 2 * q1 + bit then p1 == 2 * q1 + bit - uc && result == 2 * res + 1
               else p1 == 2 * q1 + bit && result == 2 * res
  {
    result := WrapU64(res * 2);
    p1 := WrapU64(q1 * 2);
    if High(q0) >= 0x8000_0000 {
      p1 := Join(High(p1), WrapU32(Low(p1) + 1));
    }
    p0 := WrapU64(q0 * 2);
    if uc <= p1 {
      p1 := p1 - uc;
      result := result + 1;
    }
  }

  /** The 64-round long division.  p1 stays below the divisor, which is at most 2^63, so
      the bit shifted out of p[1] is always zero and nothing is lost. */
  method LongDivide(q0: uint64, q1: uint64, uc: uint64) returns (result: uint64)
    requires 0 < uc <= 0x8000_0000_0000_0000 && q1 < uc
    ensures result == Quot(q1 * 0x1_0000_0000_0000_0000 + q0, uc)
  {
    var p0: uint64, p1: uint64 := q0, q1;
    result := 0;
    ghost var m := q1 * 0x1_0000_0000_0000_0000 + q0;
    ghost var rest: nat := q0;
    Pow2Of64();
    for i := 0 to 64
      invariant p1 < uc && result < Pow2(i)
      invariant rest < Pow2(64 - i) && p0 == rest * Pow2(i)
      invariant m == (result * uc + p1) * Pow2(64 - i) + rest
    {
      ghost var scale := Pow2(63 - i);
      RoundScale(i);
      TopBit(p0, rest, Pow2(i), scale);
      ghost var bit := if rest >= scale then 1 else 0;
      ShiftSubtractStep(m, result, uc, p1, rest - bit * scale, scale, bit);
      p0, p1, result := Round(p0, p1, uc, result);
      rest := rest - bit * scale;
    }
    QuotIs(m, uc, result, p1);
  }

  lemma RoundScale(i: nat)
    requires i < 64
    ensures Pow2(64 - i) == 2 * Pow2(63 - i) && Pow2(i + 1) == 2 * Pow2(i)
    ensures 2 * (Pow2(i) * Pow2(63 - i)) == 0x1_0000_0000_0000_0000
    ensures Pow2(i) <= 0x8000_0000_0000_0000
  {
    Pow2Of64();
    Pow2Add(i, 63 - i);
    MulMono(1, Pow2(63 - i), Pow2(i));
  }

  /** EnlargedUnsignedDivide: 64 by 32 bits.  A quotient that does not fit 32 bits is cut to them,
      which is why its callers make sure that it does. */
  method EnlargedUnsignedDivide(dividend: uint64, divisor: uint32)
    returns (quotient: uint32, remainder: uint32)
    requires divisor != 0
    ensures Quot(dividend, divisor) < 0x1_0000_0000 ==> quotient == Quot(dividend, divisor)
    ensures exists k: nat :: Quot(dividend, divisor) == TimesWord(k) + quotient
    ensures remainder == Rem(dividend, divisor)
  {
    QuotRem(dividend, divisor);
    var whole, rest := Divide(dividend, divisor);
    quotient, remainder := whole % 0x1_0000_0000, rest;
    assert whole == TimesWord(whole / 0x1_0000_0000) + quotient;
  }

  function TimesWord(k: nat): nat {
    k * 0x1_0000_0000
  }

  /** `bSign ? -(LONGLONG)magnitude : (LONGLONG)magnitude`. */
  method ApplySign(negative: bool, magnitude: uint64) returns (r: int64)
    ensures r == Signed64(magnitude, negative)
  {
    var value: int := ToS64(magnitude);
    r := if negative then WrapS64(0 - value) else value;
  }

  // ---------------------------------------------------------------------------------
  // The two routines
  // ---------------------------------------------------------------------------------

  lemma ProductOfMagnitudes(a: int64, b: int64)
    ensures Abs(a) * Abs(b) == if (a < 0) != (b < 0) then 0 - a * b else a * b
    ensures Abs(a) * Abs(b) <= 0x4000_0000_0000_0000 * 0x1_0000_0000_0000_0000
  {
    MulBound(Abs(a), Abs(b), 0x8000_0000_0000_0000, 0x8000_0000_0000_0000);
  }

  /** `uc <= p[1]`, the source's test for overflow and for a zero divisor. */
  lemma SaturationTest(p0: uint64, p1: uint64, uc: nat)
    requires uc > 0
    ensures uc <= p1 <==> Quot(p1 * 0x1_0000_0000_0000_0000 + p0, uc) >= 0x1_0000_0000_0000_0000
  {
    QuotBound(p1 * 0x1_0000_0000_0000_0000 + p0, uc, 0x1_0000_0000_0000_0000);
  }

  /** A 32-bit divisor: the high parts first, then the rest with their remainder. */
  method DivideBy32(q0: uint64, q1: uint32, uc: uint32) returns (magnitude: uint64)
    requires q1 < uc
    ensures magnitude == Quot(q1 * 0x1_0000_0000_0000_0000 + q0, uc)
  {
    var qh, ql := Split(q0);
    TwoStepDivision(q1, qh, ql, uc);
    var high, remainder := Divide(Join(q1, qh), uc);
    var low, unused := Divide(Join(remainder, ql), uc);
    magnitude := low + Join(high, 0);
  }

  /** The three division routes of llMulDiv give one quotient. */
  method DivideGeneral(q0: uint64, q1: uint64, uc: uint64, negative: bool) returns (r: int64)
    requires uc <= 0x8000_0000_0000_0000
    ensures r == if uc == 0 then Saturated(negative)
                 else Signed64(Quot(q1 * 0x1_0000_0000_0000_0000 + q0, uc), negative)
  {
    if uc <= q1 {
      if uc > 0 {
        SaturationTest(q0, q1, uc);
      }
      return Saturated(negative);
    }
    var magnitude: uint64;
    if q1 == 0 {
      var quotient, unused := Divide(q0, uc);
      QuotAtMost(q0, uc);
      magnitude := quotient;
    } else {
      var divisorHigh, divisorLow := Split(uc);
      if divisorHigh == 0 {
        magnitude := DivideBy32(q0, q1, divisorLow);
      } else {
        magnitude := LongDivide(q0, q1, uc);
      }
    }
    r := ApplySign(negative, magnitude);
  }

  lemma {:induction false} QuotAtMost(m: nat, u: nat)
    requires u > 0
    ensures Quot(m, u) <= m
  {
    if m >= u {
      QuotAtMost(m - u, u);
    }
  }

  method LlMulDiv(a: int64, b: int64, c: int64, d: int64) returns (r: int64)
    ensures r == ScaledValue(a * b + d, c, (a < 0) != (b < 0))
  {
    var ua := Magnitude64(a);
    var ub := Magnitude64(b);
    var uc := Magnitude64(c);
    var negative := (a < 0) != (b < 0);
    ProductOfMagnitudes(a, b);
    var p0, p1 := Multiply(ua, ub);
    var flipped;
    p0, p1, flipped := AddSigned(p0, p1, d, negative);
    negative := negative != flipped;
    if c < 0 {
      negative := !negative;
    }
    r := DivideGeneral(p0, p1, uc, negative);
  }

  /** The division of the fast form: a 32-bit divisor, one route. */
  method DivideFast(q0: uint64, q1: uint32, uc: uint32, negative: bool) returns (r: int64)
    ensures r == if uc == 0 then Saturated(negative)
                 else Signed64(Quot(q1 * 0x1_0000_0000_0000_0000 + q0, uc), negative)
  {
    if uc <= q1 {
      if uc > 0 {
        SaturationTest(q0, q1, uc);
      }
      return Saturated(negative);
    }
    var qh, ql := Split(q0);
    TwoStepDivision(q1, qh, ql, uc);
    var dividend := Join(q1, qh);
    var high: uint32 := 0;
    if dividend >= uc {
      high, qh := EnlargedUnsignedDivide(dividend, uc);
    }
    var low, unused := EnlargedUnsignedDivide(Join(qh, ql), uc);
    r := ApplySign(negative, Join(high, low));
  }

  method Int64x32Div32(a: int64, b: int32, c: int32, d: int32) returns (r: int64)
    ensures r == ScaledValue(a * b + d, c, (a < 0) != (b < 0))
  {
    var ua := Magnitude64(a);
    var ub := Magnitude32(b);
    var uc := Magnitude32(c);
    var negative := (a < 0) != (b < 0);
    ProductOfMagnitudes(a, b);
    var p0, p1 := Multiply96(ua, ub);
    var flipped;
    p0, p1, flipped := AddSigned96(p0, p1, d, negative);
    negative := negative != flipped;
    if c < 0 {
      negative := !negative;
    }
    r := DivideFast(p0, p1, uc, negative);
  }

  /** 64 x 32 bits; the second partial product is skipped when its factor is zero. */
  method Multiply96(ua: uint64, ub: uint32) returns (p0: uint64, p1: uint32)
    requires ua <= 0x8000_0000_0000_0000 && ub <= 0x8000_0000
    ensures p1 * 0x1_0000_0000_0000_0000 + p0 == ua * ub && p1 <= 0x4000_0000
  {
    var ah, al := Split(ua);
    MulBound(al, ub, 0xFFFF_FFFF, 0x8000_0000);
    MulBound(ah, ub, 0x8000_0000, 0x8000_0000);
    SchoolbookProduct(ah, al, 0, ub);
    p0 := Widening(al, ub);
    if ah != 0 {
      var hl := Widening(ah, ub);
      p0, p1 := CarryHigh(p0, hl);
    } else {
      p1 := 0;
    }
  }

  method CarryHigh(ll: uint64, hl: uint64) returns (p0: uint64, p1: uint32)
    requires hl <= 0x4000_0000_0000_0000 && ll <= 0x8000_0000_0000_0000
    ensures p1 * 0x1_0000_0000_0000_0000 + p0 == hl * 0x1_0000_0000 + ll
    ensures p1 <= 0x4000_0000
  {
    var x := WrapU64(hl + High(ll));
    p0 := Join(Low(x), Low(ll));
    p1 := High(x);
  }

  /** 96-bit negation. */
  method Negate96(q0: uint64, q1: uint32) returns (p0: uint64, p1: uint32)
    requires q1 > 0
    ensures p1 * 0x1_0000_0000_0000_0000 + p0
         == (0x1_0000_0000 - q1) * 0x1_0000_0000_0000_0000 - q0
  {
    p0 := Not64(q0);
    p1 := Not32(q1);
    p0 := WrapU64(p0 + 1);
    p1 := WrapU32(p1 + (if p0 == 0 then 1 else 0));
  }

  method ExtendSign96(d: int32, negative: bool) returns (ud0: uint64, ud1: uint32)
    ensures var e := Negated(d, negative);
            if e < 0 then ud1 == 0xFFFF_FFFF && ud0 == e + 0x1_0000_0000_0000_0000
            else ud1 == 0 && ud0 == e
  {
    if negative {
      // d is widened before it is negated
      ud0 := WrapU64(0 - d);
      ud1 := if d > 0 then 0xFFFF_FFFF else 0;
    } else {
      ud0 := WrapU64(d);
      ud1 := if d < 0 then 0xFFFF_FFFF else 0;
    }
  }

  method AddHigh96(q1: uint32, ud1: uint32, carry: uint32) returns (p1: uint32, signBit: bool)
    requires q1 <= 0x4000_0000 && carry <= 1
    requires ud1 == 0 || ud1 == 0xFFFF_FFFF
    ensures ud1 == 0 ==> p1 == q1 + carry && !signBit
    ensures ud1 != 0 && q1 + carry > 0 ==> p1 == q1 + carry - 1 && !signBit
    ensures ud1 != 0 && q1 + carry == 0 ==> p1 == 0xFFFF_FFFF && signBit
  {
    p1 := WrapU32(q1 + ud1 + carry);
    signBit := ToS32(p1) < 0;
  }

  method AddSigned96(q0: uint64, q1: uint32, d: int32, negative: bool)
    returns (p0: uint64, p1: uint32, flipped: bool)
    requires q1 <= 0x4000_0000
    ensures var v := q1 * 0x1_0000_0000_0000_0000 + q0 + Negated(d, negative);
            && p1 * 0x1_0000_0000_0000_0000 + p0 == Abs(v)
            && flipped == (v < 0)
  {
    p0, p1, flipped := q0, q1, false;
    if d != 0 {
      var ud0, ud1 := ExtendSign96(d, negative);
      var carry;
      p0, carry := AddWords(p0, ud0);
      p1, flipped := AddHigh96(p1, ud1, carry);
      if flipped {
        p0, p1 := Negate96(p0, p1);
      }
    }
  }
}
