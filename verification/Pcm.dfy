/**
PCM sample formats and the conversions between them.  The integer conversions are the shifts the
source writes out pair by pair; the floating point values that occur are exact in binary32 and
binary64 and are modelled as reals.
 */
module Pcm {
  import opened Options
  import opened MachineInts
  import opened Alignment
  import opened Shifts

  /** The integer formats; Float and Double samples are reals. */
  datatype Format = U8 | S16 | S24 | S32 | S16of32 | S18of32 | S20of32 | S24of32

  type byte = x: int | 0 <= x < 256

  /** Three bytes, the least significant first. */
  datatype Pcm24 = Pcm24(b0: byte, b1: byte, b2: byte)

  datatype Sample = Int(v: int32) | Packed(p: Pcm24)

  // ---------------------------------------------------------------------------------
  // Packed 24-bit integers
  // ---------------------------------------------------------------------------------

  function SignedByte(b: byte): int {
    if b < 128 then b else b - 256
  }

  /** The number the three bytes stand for. */
  function IntValue(p: Pcm24): int32 {
    SignedByte(p.b2) * 65536 + p.b1 * 256 + p.b0
  }

  /** The low 24 bits of a number, in bytes. */
  function ValueOf(s: int32): Pcm24 {
    Pcm24(s % 256, (s / 256) % 256, (s / 65536) % 256)
  }

  /** Or-ing in bits below the last k, which are zero, adds them. */
  lemma {:induction false} OrBelow(m: nat, y: nat, k: nat)
    requires y < Pow2(k)
    ensures BitOr(m * Pow2(k), y) == m * Pow2(k) + y
    decreases k
  {
    if k == 0 {
      OrZero(m);
    } else {
      DoubleProduct(m, Pow2(k - 1));
      OrBelow(m, y / 2, k - 1);
      OrStep(m * Pow2(k - 1), y);
    }
  }

  lemma {:induction false} OrZero(x: nat)
    ensures BitOr(x, 0) == x
  {
    if x > 0 {
      OrZero(x / 2);
    }
  }

  lemma OrStep(h: nat, y: nat)
    requires BitOr(h, y / 2) == h + y / 2
    ensures BitOr(2 * h, y) == 2 * h + y
  {
    assert (2 * h) / 2 == h && (2 * h) % 2 == 0;
  }

  /** v |= x on an int32_t. */
  function Or32(v: int32, x: uint32): int32 {
    WrapS32(BitOr(WrapU32(v), x))
  }

  lemma WordOf(v: int32, w: int)
    requires w == if v < 0 then v + 0x1_0000_0000 else v
    ensures WrapU32(v) == w && 0 <= w < 0x1_0000_0000
  {
  }

  lemma WordBack(v: int32, x: int, w: int)
    requires w == (if v < 0 then v + 0x1_0000_0000 else v) && 0 <= x && w + x < 0x1_0000_0000
    requires v >= 0 ==> w + x < 0x8000_0000
    ensures WrapS32(w + x) == v + x
  {
  }

  lemma OrWord(h: int, x: uint32)
    requires -0x8000 <= h < 0x8000 && x < 0x1_0000
    ensures Or32(h * 0x1_0000, x) == h * 0x1_0000 + x
  {
    Pow2To16();
    var m := if h < 0 then h + 0x1_0000 else h;
    OrBelow(m, x, 16);
    WordOf(h * 0x1_0000, m * 0x1_0000);
    WordBack(h * 0x1_0000, x, m * 0x1_0000);
  }

  lemma OrByte(h: int, x: uint32)
    requires -0x80_0000 <= h < 0x80_0000 && x < 0x100
    ensures Or32(h * 0x100, x) == h * 0x100 + x
  {
    assert Pow2(8) == 0x100;
    var m := if h < 0 then h + 0x100_0000 else h;
    OrBelow(m, x, 8);
    WordOf(h * 0x100, m * 0x100);
    WordBack(h * 0x100, x, m * 0x100);
  }

  lemma ShiftedTop(h: int32)
    requires -128 <= h < 128
    ensures Shl(h, 16) == h * 0x1_0000
  {
    FitsNarrow(h);
    ShlTimes(h, 16);
    Pow2To16();
  }

  method ShiftTop(top: int32) returns (v: int32)
    requires -128 <= top < 128
    ensures v == top * 0x1_0000
  {
    ShiftedTop(top);
    v := Shl(top, 16);
  }

  method OrMiddle(v: int32, h: int, b1: byte) returns (r: int32)
    requires -128 <= h < 128 && v == h * 0x1_0000
    ensures r == v + b1 * 256
  {
    OrWord(h, b1 * 256);
    r := Or32(v, b1 * 256);
  }

  method OrLow(v: int32, m: int, b0: byte) returns (r: int32)
    requires -0x8000 <= m < 0x8000 && v == m * 0x100
    ensures r == v + b0
  {
    OrByte(m, b0);
    r := Or32(v, b0);
  }

  /** int_value as it is computed: the sign comes from the top byte, the others are or-ed in. */
  method ComputeIntValue(p: Pcm24) returns (v: int32)
    ensures v == IntValue(p)
  {
    var top: int32 := SignedByte(p.b2);
    v := ShiftTop(top);
    v := OrMiddle(v, top, p.b1);
    v := OrLow(v, top * 256 + p.b1, p.b0);
  }

  /** value_of as it is computed: shifted to the top, then taken from there byte by byte. */
  method ComputeValueOf(s24: int32) returns (p: Pcm24)
    ensures p == ValueOf(s24)
  {
    assert Pow2(8) == 256;
    var m := ShlWraps(s24, 8);
    var s: int := Shl(s24, 8);
    var u: uint32 := if s < 0 then s + 0x1_0000_0000 else s;
    p := Pcm24((u / 0x100) % 256, (u / 0x1_0000) % 256, (u / 0x100_0000) % 256);
    BytesOf(s24, u, if s < 0 then 1 - m else 0 - m);
  }

  lemma DropMultiple(x: int, c: int)
    ensures (x + 256 * c) % 256 == x % 256
  {
  }

  lemma BytesOf(s: int, u: int, c: int)
    requires u == 256 * s + 0x1_0000_0000 * c
    ensures (u / 0x100) % 256 == s % 256
    ensures (u / 0x1_0000) % 256 == (s / 256) % 256
    ensures (u / 0x100_0000) % 256 == (s / 65536) % 256
  {
    LowByte(s, u, c);
    MiddleByte(s, u, c);
    HighByte(s, u, c);
  }

  lemma LowByte(s: int, u: int, c: int)
    requires u == 256 * s + 0x1_0000_0000 * c
    ensures (u / 0x100) % 256 == s % 256
  {
    assert u / 0x100 == s + 0x100_0000 * c;
    DropMultiple(s, 0x1_0000 * c);
  }

  lemma MiddleByte(s: int, u: int, c: int)
    requires u == 256 * s + 0x1_0000_0000 * c
    ensures (u / 0x1_0000) % 256 == (s / 256) % 256
  {
    assert u / 0x1_0000 == s / 256 + 0x1_0000 * c;
    DropMultiple(s / 256, 0x100 * c);
  }

  lemma HighByte(s: int, u: int, c: int)
    requires u == 256 * s + 0x1_0000_0000 * c
    ensures (u / 0x100_0000) % 256 == (s / 65536) % 256
  {
    assert u / 0x100_0000 == s / 65536 + 0x100 * c;
    DropMultiple(s / 65536, c);
  }

  lemma FitsNarrow(x: int32)
    ensures -128 <= x < 128 ==> Fits(x, 24)
    ensures -0x8000 <= x < 0x8000 ==> Fits(x, 16)
    ensures -0x80_0000 <= x < 0x80_0000 <==> Fits(x, 8)
  {
    Pow2To16();
    assert Pow2(7) == 128;
    Pow2Add(1, 14);
    Pow2Add(7, 16);
    FitsIff(x, 24);
    FitsIff(x, 16);
    FitsIff(x, 8);
  }

  lemma {:induction false} ShlTimes(x: int32, k: nat)
    requires Fits(x, k)
    ensures Shl(x, k) == x * Pow2(k)
    decreases k
  {
    if k > 0 {
      ShlTimes(2 * x, k - 1);
      assert (2 * x) * Pow2(k - 1) == x * (2 * Pow2(k - 1));
    }
  }

  /** value_of and int_value: the low 24 bits with their sign, so the number itself exactly if it
      has no more than 24 bits. */
  lemma IntOfValue(s: int32)
    ensures var low := s % 0x100_0000;
            IntValue(ValueOf(s)) == if low < 0x80_0000 then low else low - 0x100_0000
    ensures IntValue(ValueOf(s)) == s <==> -0x80_0000 <= s < 0x80_0000
  {
    var p := ValueOf(s);
    var h := Digits(s);
    LowDigits(h, 65536 * p.b2 + 256 * p.b1 + p.b0);
  }

  lemma Digits(s: int32) returns (h: int)
    ensures s == 0x100_0000 * h + (65536 * ValueOf(s).b2 + 256 * ValueOf(s).b1 + ValueOf(s).b0)
  {
    assert (s / 256) / 256 == s / 65536;
    h := (s / 65536) / 256;
  }

  lemma LowDigits(h: int, low: int)
    requires 0 <= low < 0x100_0000
    ensures (0x100_0000 * h + low) % 0x100_0000 == low
  {
  }

  lemma ValueOfInt(p: Pcm24)
    ensures ValueOf(IntValue(p)) == p
    ensures -0x80_0000 <= IntValue(p) < 0x80_0000
  {
    var v := IntValue(p);
    assert v / 256 == SignedByte(p.b2) * 256 + p.b1;
    assert v / 65536 == SignedByte(p.b2);
  }

  // ---------------------------------------------------------------------------------
  // The conversions
  // ---------------------------------------------------------------------------------

  /** Bits of an integer format; the S..of32 formats keep them in the low bits of 32. */
  function Width(f: Format): nat {
    match f
    case U8 => 8
    case S16 => 16
    case S16of32 => 16
    case S18of32 => 18
    case S20of32 => 20
    case S24 => 24
    case S24of32 => 24
    case _ => 32
  }

  /** The values of a format's C++ type. */
  predicate HasType(f: Format, s: Sample) {
    match f
    case U8 => s.Int? && 0 <= s.v < 256
    case S16 => s.Int? && -0x8000 <= s.v < 0x8000
    case S24 => s.Packed?
    case _ => s.Int?
  }

  /** The pairs the header defines a conversion for. */
  predicate Defined(from: Format, to: Format) {
    if from == to then from.S16? || from.S32? else !(from.S16? && to.S16of32?)
  }

  /** Conversion to uint8_t and int16_t keeps the low bits. */
  function AsU8(x: int): Sample {
    Int(x % 256)
  }

  function AsS16(x: int32): Sample {
    Int(Shr(Shl(x, 16), 16))
  }

  /** From U8, once 128 has been taken off. */
  function FromCentred(x: int32, to: Format): Sample {
    match to
    case S16 => AsS16(Shl(x, 8))
    case S16of32 => AsS16(Shl(x, 8))
    case S18of32 => Int(Shl(x, 10))
    case S20of32 => Int(Shl(x, 12))
    case S24of32 => Int(Shl(x, 16))
    case S24 => Packed(ValueOf(Shl(x, 16)))
    case _ => Int(Shl(x, 24))
  }

  function FromS16(s: int32, to: Format): Sample {
    match to
    case U8 => AsU8(Shr(s, 8) + 128)
    case S16 => Int(s)
    case S18of32 => Int(Shl(s, 2))
    case S20of32 => Int(Shl(s, 4))
    case S24of32 => Int(Shl(s, 8))
    case S24 => Packed(ValueOf(Shl(s, 8)))
    case _ => Int(Shl(s, 16))
  }

  function FromS24(p: Pcm24, to: Format): Sample {
    match to
    case U8 => AsU8(Shr(IntValue(p), 16) + 128)
    case S16 => AsS16(Shr(IntValue(p), 8))
    case S16of32 => AsS16(Shr(IntValue(p), 8))
    case S18of32 => Int(Shr(IntValue(p), 6))
    case S20of32 => Int(Shr(IntValue(p), 4))
    case S24of32 => Int(IntValue(p))
    case _ => Int(Shl(IntValue(p), 8))
  }

  /** The formats kept in 32 bits: `drop` is the number of unused high bits, 16 for S16of32, 14 for
      S18of32, 12 for S20of32, 8 for S24of32. */
  function FromOf32(s: int32, drop: nat, to: Format): Sample {
    match to
    case U8 => AsU8(Shr(Shl(s, drop), 24) + 128)
    case S16 => AsS16(Shr(Shl(s, drop), 16))
    case S16of32 => AsS16(Shr(Shl(s, drop), 16))
    case S18of32 => Int(Shr(Shl(s, drop), 14))
    case S20of32 => Int(Shr(Shl(s, drop), 12))
    case S24of32 => Int(Shr(Shl(s, drop), 8))
    case S24 => Packed(ValueOf(Shr(Shl(s, drop), 8)))
    case _ => Int(Shl(s, drop))
  }

  function FromS32(s: int32, to: Format): Sample {
    match to
    case U8 => AsU8(Shr(s, 24) + 128)
    case S16 => AsS16(Shr(s, 16))
    case S16of32 => AsS16(Shr(s, 16))
    case S18of32 => Int(Shr(s, 14))
    case S20of32 => Int(Shr(s, 12))
    case S24of32 => Int(Shr(s, 8))
    case S24 => Packed(ValueOf(Shr(s, 8)))
    case _ => Int(s)
  }

  /** A defined conversion between integer formats. */
  function Convert(from: Format, to: Format, s: Sample): Sample
    requires HasType(from, s) && Defined(from, to)
  {
    match from
    case U8 => FromCentred(s.v - 128, to)
    case S16 => FromS16(s.v, to)
    case S24 => FromS24(s.p, to)
    case S32 => FromS32(s.v, to)
    case S16of32 => FromOf32(s.v, 16, to)
    case S18of32 => FromOf32(s.v, 14, to)
    case S20of32 => FromOf32(s.v, 12, to)
    case S24of32 => FromOf32(s.v, 8, to)
  }

  // ---------------------------------------------------------------------------------
  // Everything goes as if through S32
  // ---------------------------------------------------------------------------------

  lemma FromU8ViaS32(x: int32, to: Format)
    requires -128 <= x < 128 && !to.U8?
    ensures FromCentred(x, to) == FromS32(Shl(x, 24), to)
  {
    FitsNarrow(x);
    LeftRight(x, 24, 32 - Width(to));
  }

  lemma FromS16ViaS32(s: int32, to: Format)
    requires -0x8000 <= s < 0x8000 && !to.S16of32?
    ensures FromS16(s, to) == FromS32(Shl(s, 16), to)
  {
    FitsNarrow(s);
    LeftRight(s, 16, 32 - Width(to));
  }

  lemma FromS24ViaS32(p: Pcm24, to: Format)
    requires !to.S24?
    ensures FromS24(p, to) == FromS32(Shl(IntValue(p), 8), to)
  {
    ValueOfInt(p);
    FitsNarrow(IntValue(p));
    LeftRight(IntValue(p), 8, 32 - Width(to));
  }

  /** Every defined integer conversion is the one to S32 followed by the one from S32. */
  lemma ConvertsViaS32(from: Format, to: Format, s: Sample)
    requires HasType(from, s) && Defined(from, to)
    ensures HasType(S32, Convert(from, S32, s))
    ensures Convert(from, to, s) == Convert(S32, to, Convert(from, S32, s))
  {
    match from
    case U8 => FromU8ViaS32(s.v - 128, to);
    case S16 => FromS16ViaS32(s.v, to);
    case S24 => FromS24ViaS32(s.p, to);
    case _ =>
  }

  // ---------------------------------------------------------------------------------
  // Round trips
  // ---------------------------------------------------------------------------------

  /** The number a sample stands for, in its format's own scale. */
  function Value(f: Format, s: Sample): int32
    requires HasType(f, s)
  {
    match f
    case U8 => s.v - 128
    case S24 => IntValue(s.p)
    case _ => s.v
  }

  /** It uses no more than the format's bits. */
  ghost predicate InRange(f: Format, s: Sample)
  {
    HasType(f, s) && Fits(Value(f, s), 32 - Width(f))
  }

  function Wide(f: Format, s: Sample): int32
    requires HasType(f, s)
  {
    Shl(Value(f, s), 32 - Width(f))
  }

  lemma ToS32IsWide(f: Format, s: Sample)
    requires HasType(f, s)
    ensures Convert(f, S32, s) == Int(Wide(f, s))
  {
  }

  lemma U8Value(y: int32)
    ensures -128 <= Shr(y, 24) < 128
    ensures AsU8(Shr(y, 24) + 128) == Int(Shr(y, 24) + 128)
  {
    assert Pow2(7) == 128;
    Powers();
    assert Pow2(31) == 0x8000_0000;
    ShrBound(y, 24, 7);
  }

  /** Converting from S32 keeps the upper bits. */
  lemma FromS32Value(f: Format, y: int32)
    ensures HasType(f, FromS32(y, f)) && InRange(f, FromS32(y, f))
    ensures Value(f, FromS32(y, f)) == Shr(y, 32 - Width(f))
  {
    ShrFits(y, 32 - Width(f));
    FitsNarrow(Shr(y, 32 - Width(f)));
    match f
    case U8 => U8Value(y);
    case S16 => S16Value(y);
    case S16of32 => LeftRight(Shr(y, 16), 16, 16);
    case S24 => IntOfValue(Shr(y, 8));
    case _ =>
  }

  lemma S16Value(y: int32)
    ensures AsS16(Shr(y, 16)) == Int(Shr(y, 16)) && -0x8000 <= Shr(y, 16) < 0x8000
  {
    ShrFits(y, 16);
    LeftRight(Shr(y, 16), 16, 16);
    Pow2To16();
    Pow2Add(1, 14);
    FitsIff(Shr(y, 16), 16);
  }

  lemma SameValue(f: Format, s: Sample, t: Sample)
    requires HasType(f, s) && HasType(f, t) && Value(f, s) == Value(f, t)
    ensures s == t
  {
    if f.S24? {
      ValueOfInt(s.p);
      ValueOfInt(t.p);
    }
  }

  lemma ConvertedValue(from: Format, to: Format, s: Sample)
    requires HasType(from, s) && Defined(from, to)
    ensures var t := Convert(from, to, s);
            HasType(to, t) && InRange(to, t) && Value(to, t) == Shr(Wide(from, s), 32 - Width(to))
  {
    ConvertsViaS32(from, to, s);
    ToS32IsWide(from, s);
    FromS32Value(to, Wide(from, s));
  }

  /** Widening and narrowing back is the identity on every value that is in range. */
  lemma WidenAndBack(a: Format, b: Format, s: Sample)
    requires Width(a) <= Width(b) && Defined(a, b) && Defined(b, a)
    requires InRange(a, s)
    ensures HasType(b, Convert(a, b, s)) && Convert(b, a, Convert(a, b, s)) == s
  {
    var t := Convert(a, b, s);
    ConvertedValue(a, b, s);
    RightLeft(Value(a, s), 32 - Width(a), 32 - Width(b));
    ConvertedValue(b, a, t);
    LeftRight(Value(a, s), 32 - Width(a), 32 - Width(a));
    SameValue(a, s, Convert(b, a, t));
  }

  /** Narrowing by way of a format in between loses nothing more. */
  lemma NarrowByWayOf(a: Format, m: Format, n: Format, s: Sample)
    requires HasType(a, s) && Width(n) <= Width(m)
    requires Defined(a, m) && Defined(m, n) && Defined(a, n)
    ensures HasType(m, Convert(a, m, s)) && Convert(m, n, Convert(a, m, s)) == Convert(a, n, s)
  {
    var t := Convert(a, m, s);
    ConvertedValue(a, m, s);
    ConvertedValue(m, n, t);
    ConvertedValue(a, n, s);
    NarrowTwice(Wide(a, s), 32 - Width(m), 32 - Width(n));
    SameValue(n, Convert(m, n, t), Convert(a, n, s));
  }

  // ---------------------------------------------------------------------------------
  // Floating point
  // ---------------------------------------------------------------------------------

  /** Conversion of a real to an integer truncates toward zero. */
  function Truncated(r: real): int {
    if r >= 0.0 then r.Floor else 0 - (0.0 - r).Floor
  }

  function ToInt32(r: real): Option<int32> {
    var n := Truncated(r);
    if -0x8000_0000 <= n < 0x8000_0000 then Some(n) else None
  }

  function S24ToFloat(p: Pcm24): real {
    IntValue(p) as real / 8388608.0
  }

  /** None where C++ leaves the result undefined: the product does not fit an int32_t. */
  function FloatToS24(r: real): Option<Pcm24> {
    var n := ToInt32(r * 8388608.0);
    if n.Some? then Some(ValueOf(n.value)) else None
  }

  function S32ToDouble(s: int32): real {
    s as real / 2147483648.0
  }

  function DoubleToS32(r: real): Option<int32> {
    ToInt32(r * 2147483648.0)
  }

  /** The other conversions to floating point go through S24 and S32. */
  function ToFloat(from: Format, s: Sample): real
    requires HasType(from, s)
  {
    if from.S24? then S24ToFloat(s.p) else FromS24Sample(from, s)
  }

  function FromS24Sample(from: Format, s: Sample): real
    requires HasType(from, s) && !from.S24?
  {
    ConvertedValue(from, S24, s);
    S24ToFloat(Convert(from, S24, s).p)
  }

  function ToDouble(from: Format, s: Sample): real
    requires HasType(from, s)
  {
    ConvertedValue(from, S32, s);
    S32ToDouble(Convert(from, S32, s).v)
  }

  /** And the other ones from floating point start with S24 and S32. */
  function FromFloat(r: real, to: Format): Option<Sample> {
    var p := FloatToS24(r);
    if p.None? then None else if to.S24? then Some(Packed(p.value)) else Some(Convert(S24, to, Packed(p.value)))
  }

  function FromDouble(r: real, to: Format): Option<Sample> {
    var n := DoubleToS32(r);
    if n.None? then None else Some(Convert(S32, to, Int(n.value)))
  }

  lemma TruncatedInteger(n: int)
    ensures Truncated(n as real) == n
  {
  }

  /** S24 to Float and back, and S32 to Double and back, are identities. */
  lemma FloatKeepsS24(p: Pcm24)
    ensures FloatToS24(S24ToFloat(p)) == Some(p)
  {
    ValueOfInt(p);
    TruncatedInteger(IntValue(p));
    assert S24ToFloat(p) * 8388608.0 == IntValue(p) as real;
  }

  lemma DoubleKeepsS32(s: int32)
    ensures DoubleToS32(S32ToDouble(s)) == Some(s)
  {
    TruncatedInteger(s);
    assert S32ToDouble(s) * 2147483648.0 == s as real;
  }

  /** Every integer format is turned into Float or Double as it would be through S32. */
  lemma ToFloatViaS32(from: Format, s: Sample)
    requires HasType(from, s)
    ensures HasType(S32, Convert(from, S32, s))
    ensures ToFloat(from, s) == ToFloat(S32, Convert(from, S32, s))
    ensures ToDouble(from, s) == ToDouble(S32, Convert(from, S32, s))
  {
    ConvertedValue(from, S32, s);
    if from.S24? {
      ValueOfInt(s.p);
      FitsNarrow(IntValue(s.p));
      WidenAndBack(S24, S32, s);
    } else {
      ConvertsViaS32(from, S24, s);
    }
  }

  /** A format of at most 24 bits survives Float, one of at most 32 bits survives Double, value by
      value within its range. */
  lemma FloatAndBack(f: Format, s: Sample)
    requires InRange(f, s) && Width(f) <= 24
    ensures FromFloat(ToFloat(f, s), f) == Some(s)
  {
    if f.S24? {
      FloatKeepsS24(s.p);
    } else {
      ConvertedValue(f, S24, s);
      FloatKeepsS24(Convert(f, S24, s).p);
      WidenAndBack(f, S24, s);
    }
  }

  lemma DoubleAndBack(f: Format, s: Sample)
    requires InRange(f, s)
    ensures FromDouble(ToDouble(f, s), f) == Some(s)
  {
    ConvertedValue(f, S32, s);
    DoubleKeepsS32(Convert(f, S32, s).v);
    WidenAndBack(f, S32, s);
  }

  /** Float to S24 gives the scaled value, truncated, exactly for inputs that scale to 24 bits;
      that takes in all of [-1, 1). */
  lemma FloatToS24Iff(r: real)
    requires FloatToS24(r).Some?
    ensures IntValue(FloatToS24(r).value) == Truncated(r * 8388608.0) <==> -8388609.0 < r * 8388608.0 < 8388608.0
  {
    IntOfValue(ToInt32(r * 8388608.0).value);
    TruncatedBounds(r * 8388608.0);
  }

  lemma TruncatedBounds(r: real)
    ensures -0x80_0000 <= Truncated(r) < 0x80_0000 <==> -8388609.0 < r < 8388608.0
  {
  }

  ghost predicate Truncates(n: int, r: real) {
    if r >= 0.0 then n as real <= r < n as real + 1.0 else n as real - 1.0 < r <= n as real
  }

  lemma TruncatedIs(r: real)
    ensures Truncates(Truncated(r), r)
  {
  }

  /** Double to S32 gives the scaled value, truncated, exactly where that fits 32 bits. */
  lemma DoubleToS32Iff(r: real)
    ensures DoubleToS32(r).Some? <==> -2147483649.0 < r * 2147483648.0 < 2147483648.0
    ensures DoubleToS32(r).Some? ==> Truncates(DoubleToS32(r).value, r * 2147483648.0)
  {
    TruncatedIs(r * 2147483648.0);
  }

  /** Half the number of values of a format. */
  function HalfRange(f: Format): nat {
    match f
    case U8 => 0x80
    case S16 => 0x8000
    case S16of32 => 0x8000
    case S18of32 => 0x2_0000
    case S20of32 => 0x8_0000
    case S24 => 0x80_0000
    case S24of32 => 0x80_0000
    case S32 => 0x8000_0000
  }

  lemma HalfRangeIs(f: Format)
    ensures HalfRange(f) == Pow2(Width(f) - 1)
  {
    Pow2To16();
    assert Pow2(7) == 0x80;
    Pow2Add(1, 14);
    Pow2Add(1, 16);
    Pow2Add(5, 14);
    Pow2Add(7, 16);
    Powers();
    assert Pow2(31) == 0x8000_0000;
  }

  lemma WideIs(f: Format, s: Sample) returns (up: nat)
    requires InRange(f, s)
    ensures Wide(f, s) == Value(f, s) * up && up * HalfRange(f) == 0x8000_0000
  {
    up := Pow2(32 - Width(f));
    ShlTimes(Value(f, s), 32 - Width(f));
    Pow2Add(32 - Width(f), Width(f) - 1);
    HalfRangeIs(f);
    Powers();
    assert Pow2(31) == 0x8000_0000;
  }

  lemma Rescaled(r: real, w: int, v: int, up: nat, half: nat)
    requires r == w as real / 2147483648.0 && w == v * up && up * half == 0x8000_0000
    ensures half > 0 && r == v as real / half as real
  {
    assert w * half == v * (up * half);
    assert w as real * half as real == (w * half) as real;
  }

  lemma ToDoubleIs(f: Format, s: Sample)
    requires HasType(f, s)
    ensures ToDouble(f, s) == Wide(f, s) as real / 2147483648.0
  {
    ToS32IsWide(f, s);
  }

  /** Every format has the same full scale: Double holds a sample's value divided by half the number of
      values of its format, and so does Float for formats of at most 24 bits. */
  lemma DoubleIsAmplitude(f: Format, s: Sample)
    requires InRange(f, s)
    ensures ToDouble(f, s) == Value(f, s) as real / HalfRange(f) as real
  {
    ToDoubleIs(f, s);
    var up := WideIs(f, s);
    Rescaled(ToDouble(f, s), Wide(f, s), Value(f, s), up, HalfRange(f));
  }

  lemma FloatIsDouble(f: Format, s: Sample)
    requires InRange(f, s) && Width(f) <= 24
    ensures ToFloat(f, s) == ToDouble(f, s)
  {
    ToDoubleIs(f, s);
    if f.S24? {
      WideS24(s.p);
      SameScale(IntValue(s.p));
    } else {
      WidenThenWide(f, s);
      WideS24(Convert(f, S24, s).p);
      SameScale(IntValue(Convert(f, S24, s).p));
    }
  }

  lemma WideS24(p: Pcm24)
    ensures Wide(S24, Packed(p)) == IntValue(p) * 256
  {
    ValueOfInt(p);
    FitsNarrow(IntValue(p));
    ShlTimes(IntValue(p), 8);
    assert Pow2(8) == 256;
  }

  lemma SameScale(v: int)
    ensures v as real / 8388608.0 == (v * 256) as real / 2147483648.0
  {
  }

  lemma WidenThenWide(f: Format, s: Sample)
    requires InRange(f, s) && Width(f) <= 24 && !f.S24?
    ensures HasType(S24, Convert(f, S24, s)) && Wide(S24, Convert(f, S24, s)) == Wide(f, s)
  {
    ConvertedValue(f, S24, s);
    RightLeft(Value(f, s), 32 - Width(f), 8);
  }

  /** The least value of each format is -1. */
  lemma LeastIsMinusOne()
    ensures ToDouble(U8, Int(0)) == -1.0 && ToFloat(U8, Int(0)) == -1.0
    ensures ToDouble(S16, Int(-0x8000)) == -1.0 && ToDouble(S16of32, Int(-0x8000)) == -1.0
    ensures ToDouble(S18of32, Int(-0x2_0000)) == -1.0 && ToDouble(S20of32, Int(-0x8_0000)) == -1.0
    ensures ToDouble(S24of32, Int(-0x80_0000)) == -1.0 && ToDouble(S24, Packed(Pcm24(0, 0, 128))) == -1.0
    ensures ToDouble(S32, Int(-0x8000_0000)) == -1.0
  {
    LeastOf(U8, Int(0));
    LeastOf(S16, Int(-0x8000));
    LeastOf(S16of32, Int(-0x8000));
    LeastOf(S18of32, Int(-0x2_0000));
    LeastOf(S20of32, Int(-0x8_0000));
    LeastOf(S24of32, Int(-0x80_0000));
    LeastOf(S24, Packed(Pcm24(0, 0, 128)));
    LeastOf(S32, Int(-0x8000_0000));
    FloatIsDouble(U8, Int(0));
  }

  lemma LeastOf(f: Format, s: Sample)
    requires HasType(f, s) && Value(f, s) == 0 - HalfRange(f)
    ensures InRange(f, s) && ToDouble(f, s) == -1.0
  {
    HalfRangeIs(f);
    FitsIff(Value(f, s), 32 - Width(f));
    DoubleIsAmplitude(f, s);
  }

  /** Full scale is outside: 1.0 becomes the most negative sample. */
  lemma FullScaleWraps()
    ensures FloatToS24(1.0) == Some(Pcm24(0, 0, 128)) && S24ToFloat(Pcm24(0, 0, 128)) == -1.0
  {
    assert Truncated(1.0 * 8388608.0) == 8388608;
  }

  // ---------------------------------------------------------------------------------
  // Byte order
  // ---------------------------------------------------------------------------------

  function Reversed(s: seq<byte>): (r: seq<byte>)
    ensures |r| == |s| && forall k :: 0 <= k < |s| ==> r[k] == s[|s| - 1 - k]
  {
    seq(|s|, i requires 0 <= i < |s| => s[|s| - 1 - i])
  }

  /** Reversing twice gives the bytes back. */
  lemma ReversedTwice(s: seq<byte>)
    ensures Reversed(Reversed(s)) == s
  {
    forall k | 0 <= k < |s|
      ensures Reversed(Reversed(s))[k] == s[k]
    {
      assert Reversed(s)[|s| - 1 - k] == s[k];
    }
  }

  /** reverse_bytes: into a second object, byte by byte. */
  method ReverseBytes(source: array<byte>) returns (result: array<byte>)
    ensures fresh(result) && result[..] == Reversed(source[..])
  {
    var size := source.Length;
    result := new byte[size](_ => 0);
    for i := 0 to size
      invariant forall k :: 0 <= k < i ==> result[k] == source[size - 1 - k]
    {
      result[i] := source[size - i - 1];
    }
  }
}
