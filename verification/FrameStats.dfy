/**
The frame statistics of CBaseVideoRenderer: the running sums kept by RecordFrameLateness,
the variance GetStdDev computes from them through llMulDiv, and the integer square root.
 */
module FrameStats {
  import opened MachineInts
  import opened Options
  import MulDiv

  // ---------------------------------------------------------------------------------
  // The running sums
  // ---------------------------------------------------------------------------------

  datatype Sums = Sums(frames: nat, totAcc: int, sumSqAcc: int, sumFrameTime: int, sumSqFrameTime: int)

  /** One RecordFrameLateness call: how late the frame was and the time since the last one,
      both in 100 ns units. */
  datatype Frame = Frame(late: int32, gap: int32)

  const NO_FRAMES := Sums(0, 0, 0, 0, 0)

  /** Milliseconds late, limited to a second either way. */
  function LateMs(late: int32): (t: int)
    ensures -1000 <= t <= 1000
  {
    var t := TruncDiv(late, 10000);
    if t > 1000 then 1000 else if t < -1000 then -1000 else t
  }

  /** Milliseconds between frames; a negative or overlong gap counts as a second. */
  function GapMs(gap: int32): (t: int)
    ensures 0 <= t <= 1000
  {
    var t := TruncDiv(gap, 10000);
    if t > 1000 || t < 0 then 1000 else t
  }

  /** Whole milliseconds toward zero; from 1001 on either way they read a second. */
  lemma LateMsIs(late: int32)
    ensures -10_010_000 < late < 10_010_000 ==>
              var t := 10000 * LateMs(late);
              Abs(t) <= Abs(late) < Abs(t) + 10000 && (late >= 0 ==> t >= 0) && (late <= 0 ==> t <= 0)
    ensures late >= 10_010_000 ==> LateMs(late) == 1000
    ensures late <= -10_010_000 ==> LateMs(late) == -1000
  {
    QuotRem(Abs(late), 10000);
    QuotBound(Abs(late), 10000, 1001);
  }

  /** Down to less than a millisecond before the last frame a gap still reads zero. */
  lemma GapMsIs(gap: int32)
    ensures 0 <= gap < 10_010_000 ==> 10000 * GapMs(gap) <= gap < 10000 * GapMs(gap) + 10000
    ensures -10000 < gap < 0 ==> GapMs(gap) == 0
    ensures gap <= -10000 || gap >= 10_010_000 ==> GapMs(gap) == 1000
  {
    QuotRem(Abs(gap), 10000);
    QuotBound(Abs(gap), 10000, 1001);
    QuotBound(Abs(gap), 10000, 1);
  }

  function Record(s: Sums, f: Frame): Sums {
    var acc := if s.frames > 1 then LateMs(f.late) else 0;
    var gap := if s.frames > 2 then GapMs(f.gap) else 0;
    Sums(s.frames + 1, s.totAcc + acc, s.sumSqAcc + Square(acc),
         s.sumFrameTime + gap, s.sumSqFrameTime + Square(gap))
  }

  // ---------------------------------------------------------------------------------
  // The data behind the sums
  // ---------------------------------------------------------------------------------

  function Replay(frames: seq<Frame>): Sums {
    if frames == [] then NO_FRAMES
    else Record(Replay(frames[..|frames| - 1]), frames[|frames| - 1])
  }

  function Sum(d: seq<int>): int {
    if d == [] then 0 else Sum(d[..|d| - 1]) + d[|d| - 1]
  }

  function SumSq(d: seq<int>): nat {
    if d == [] then 0 else SumSq(d[..|d| - 1]) + Square(d[|d| - 1])
  }

  function Square(x: int): (y: nat)
    ensures y == x * x
  {
    if x >= 0 then
      x * x
    else
      assert x * x >= 0;
      x * x
  }

  /** The observations: the first two frames give no lateness, the first three no gap. */
  function LateData(frames: seq<Frame>): seq<int> {
    if |frames| <= 2 then [] else LateData(frames[..|frames| - 1]) + [LateMs(frames[|frames| - 1].late)]
  }

  function GapData(frames: seq<Frame>): seq<int> {
    if |frames| <= 3 then [] else GapData(frames[..|frames| - 1]) + [GapMs(frames[|frames| - 1].gap)]
  }

  lemma {:induction false} LateDataIs(frames: seq<Frame>)
    ensures |LateData(frames)| == (if |frames| <= 2 then 0 else |frames| - 2)
    ensures forall i :: 0 <= i < |LateData(frames)| ==> LateData(frames)[i] == LateMs(frames[i + 2].late)
  {
    if |frames| > 2 {
      LateDataIs(frames[..|frames| - 1]);
    }
  }

  lemma {:induction false} GapDataIs(frames: seq<Frame>)
    ensures |GapData(frames)| == (if |frames| <= 3 then 0 else |frames| - 3)
    ensures forall i :: 0 <= i < |GapData(frames)| ==> GapData(frames)[i] == GapMs(frames[i + 3].gap)
  {
    if |frames| > 3 {
      GapDataIs(frames[..|frames| - 1]);
    }
  }

  ghost predicate Bounded(d: seq<int>) {
    forall i :: 0 <= i < |d| ==> -1000 <= d[i] <= 1000
  }

  lemma SumSnoc(d: seq<int>, y: int)
    ensures Sum(d + [y]) == Sum(d) + y && SumSq(d + [y]) == SumSq(d) + Square(y)
  {
    assert (d + [y])[..|d|] == d;
  }

  lemma {:induction false} LateSums(frames: seq<Frame>)
    ensures Replay(frames).frames == |frames|
    ensures Replay(frames).totAcc == Sum(LateData(frames))
    ensures Replay(frames).sumSqAcc == SumSq(LateData(frames))
    ensures |LateData(frames)| == (if |frames| <= 2 then 0 else |frames| - 2)
    ensures Bounded(LateData(frames))
  {
    if frames != [] {
      var init := frames[..|frames| - 1];
      LateSums(init);
      if |frames| > 2 {
        SumSnoc(LateData(init), LateMs(frames[|frames| - 1].late));
      }
    }
  }

  lemma {:induction false} GapSums(frames: seq<Frame>)
    ensures Replay(frames).frames == |frames|
    ensures Replay(frames).sumFrameTime == Sum(GapData(frames))
    ensures Replay(frames).sumSqFrameTime == SumSq(GapData(frames))
    ensures |GapData(frames)| == (if |frames| <= 3 then 0 else |frames| - 3)
    ensures Bounded(GapData(frames))
  {
    if frames != [] {
      var init := frames[..|frames| - 1];
      GapSums(init);
      if |frames| > 3 {
        SumSnoc(GapData(init), GapMs(frames[|frames| - 1].gap));
      }
    }
  }

  // ---------------------------------------------------------------------------------
  // Cauchy-Schwarz and the variance
  // ---------------------------------------------------------------------------------

  /** The squared deviations of d from x add up to something non-negative. */
  lemma {:induction false} DeviationsFrom(x: int, d: seq<int>)
    ensures 2 * x * Sum(d) <= |d| * Square(x) + SumSq(d)
  {
    if d != [] {
      var init, y := d[..|d| - 1], d[|d| - 1];
      DeviationsFrom(x, init);
      DeviationStep(x, y, Sum(init), SumSq(init), |init|);
    }
  }

  lemma DeviationStep(x: int, y: int, t: int, s: int, n: int)
    requires 2 * x * t <= n * Square(x) + s
    ensures 2 * x * (t + y) <= (n + 1) * Square(x) + (s + Square(y))
  {
    assert 0 <= Square(x - y) == Square(x) - 2 * x * y + Square(y);
    assert 2 * x * (t + y) == 2 * x * t + 2 * x * y;
    MulDistributes(n, 1, Square(x));
  }

  lemma {:induction false} CauchySchwarz(d: seq<int>)
    ensures Square(Sum(d)) <= |d| * SumSq(d)
  {
    if d != [] {
      var init, y := d[..|d| - 1], d[|d| - 1];
      CauchySchwarz(init);
      DeviationsFrom(y, init);
      CauchyStep(y, Sum(init), SumSq(init), |init|);
    }
  }

  lemma CauchyStep(y: int, t: int, s: nat, n: nat)
    requires Square(t) <= n * s && 2 * y * t <= n * Square(y) + s
    ensures Square(t + y) <= (n + 1) * (s + Square(y))
  {
    assert Square(t + y) == Square(t) + 2 * y * t + Square(y);
    MulDistributes(n, 1, s + Square(y));
    assert n * (s + Square(y)) == n * s + n * Square(y);
  }

  lemma {:induction false} SumsBounded(d: seq<int>)
    requires Bounded(d)
    ensures SumSq(d) <= |d| * 1_000_000 && -1000 * |d| <= Sum(d) <= 1000 * |d|
  {
    if d != [] {
      SumsBounded(d[..|d| - 1]);
      var y := d[|d| - 1];
      MulBound(Abs(y), Abs(y), 1000, 1000);
      assert Square(y) == Square(Abs(y));
    }
  }

  /** The quantity whose root GetStdDev takes, for n claimed observations. */
  function Variance(n: int, sumSq: int, tot: int): int
    requires n > 1
  {
    TruncDiv(sumSq - MulDiv.ScaledValue(Square(tot), n, false), n - 1)
  }

  /** GetStdDev is handed one observation more than was recorded (the count of frames less
      one, or less two).  The variance it computes is therefore never negative and never
      above a second squared, whatever was recorded. */
  lemma VarianceInRange(d: seq<int>, n: int)
    requires Bounded(d) && 1 < n == |d| + 1 <= 0x7FFF_FFFF
    ensures 0 <= MulDiv.ScaledValue(Square(Sum(d)), n, false) <= SumSq(d)
    ensures 0 <= Variance(n, SumSq(d), Sum(d)) <= 1_000_000
  {
    SumsBounded(d);
    CauchySchwarz(d);
    var s, q := SumSq(d), Quot(Square(Sum(d)), n);
    MulMono(n - 1, n, s);
    assert q <= s by {
      MulDistributes(s, 1, n);
      QuotBound(Square(Sum(d)), n, s + 1);
    }
    QuotBound(s - q, n - 1, 1_000_001);
  }

  /** q is m / u rounded down. */
  ghost predicate IsQuotient(q: int, m: int, u: int) {
    u * q <= m < u * (q + 1)
  }

  lemma QuotientIs(q: int, m: nat, u: nat)
    requires u > 0 && IsQuotient(q, m, u)
    ensures q >= 0 && Quot(m, u) == q
  {
    if q < 0 {
      MulMono(q + 1, 0, u);
    }
    QuotIs(m, u, q, m - u * q);
  }

  lemma QuotIsQuotient(m: nat, u: nat)
    requires u > 0
    ensures IsQuotient(Quot(m, u), m, u)
  {
    QuotRem(m, u);
    MulDistributes(Quot(m, u), 1, u);
  }

  /** v is the estimate (S - T^2/N) / (N - 1) of the variance, both quotients rounded down. */
  ghost predicate Estimates(v: int, n: int, sumSq: int, tot: int) {
    exists mean :: 0 <= mean <= sumSq && IsQuotient(mean, Square(tot), n) && IsQuotient(v, sumSq - mean, n - 1)
  }

  /** That is what the source computes, wherever T^2/N does not exceed S. */
  lemma VarianceEstimates(n: int, sumSq: int64, tot: int, v: int)
    requires n > 1 && Estimates(v, n, sumSq, tot)
    ensures 0 <= v == Variance(n, sumSq, tot) && IsInt64(sumSq - MulDiv.ScaledValue(Square(tot), n, false))
  {
    var mean :| 0 <= mean <= sumSq && IsQuotient(mean, Square(tot), n) && IsQuotient(v, sumSq - mean, n - 1);
    QuotientIs(mean, Square(tot), n);
    QuotientIs(v, sumSq - mean, n - 1);
  }

  /** On recorded data it never does. */
  lemma DataEstimated(d: seq<int>, n: int)
    requires Bounded(d) && 1 < n == |d| + 1 <= 0x7FFF_FFFF
    ensures Estimates(Variance(n, SumSq(d), Sum(d)), n, SumSq(d), Sum(d))
  {
    SumsBounded(d);
    CauchySchwarz(d);
    MulMono(n - 1, n, SumSq(d));
    EstimatedBy(SumSq(d), Sum(d), n);
  }

  lemma EstimatedBy(s: nat, t: int, n: int)
    requires 1 < n <= 0x7FFF_FFFF && Square(t) <= n * s && s <= 0x7FFF_FFFF * 1_000_000
    ensures Estimates(Variance(n, s, t), n, s, t)
  {
    var mean := Quot(Square(t), n);
    SmallQuotient(Square(t), n, s);
    QuotIsQuotient(Square(t), n);
    QuotIsQuotient(s - mean, n - 1);
  }

  /** A value llMulDiv gives that is that small is the quotient. */
  lemma SmallQuotient(m: nat, n: nat, s: nat)
    requires n > 0 && m <= n * s && s <= 0x7FFF_FFFF * 1_000_000
    ensures MulDiv.ScaledValue(m, n, false) == Quot(m, n) <= s
  {
    MulDistributes(s, 1, n);
    QuotBound(m, n, s + 1);
  }

  ghost predicate IsInt64(x: int) {
    MIN_INT64 <= x <= MAX_INT64
  }

  lemma SyncOffsetVariance(frames: seq<Frame>)
    requires |frames| <= 0x7FFF_FFFF
    ensures var s := Replay(frames);
            && s.frames == |frames| && IsInt64(s.totAcc) && IsInt64(s.sumSqAcc)
            && (|frames| > 2 ==>
                  && 0 <= MulDiv.ScaledValue(Square(s.totAcc), |frames| - 1, false) <= s.sumSqAcc
                  && 0 <= Variance(|frames| - 1, s.sumSqAcc, s.totAcc) <= 1_000_000)
  {
    LateSums(frames);
    SumsBounded(LateData(frames));
    if |frames| > 2 {
      VarianceInRange(LateData(frames), |frames| - 1);
    }
  }

  lemma JitterVariance(frames: seq<Frame>)
    requires |frames| <= 0x7FFF_FFFF
    ensures var s := Replay(frames);
            && s.frames == |frames| && IsInt64(s.sumFrameTime) && IsInt64(s.sumSqFrameTime)
            && (|frames| > 3 ==>
                  && 0 <= MulDiv.ScaledValue(Square(s.sumFrameTime), |frames| - 2, false) <= s.sumSqFrameTime
                  && 0 <= Variance(|frames| - 2, s.sumSqFrameTime, s.sumFrameTime) <= 1_000_000)
  {
    GapSums(frames);
    SumsBounded(GapData(frames));
    if |frames| > 3 {
      VarianceInRange(GapData(frames), |frames| - 2);
    }
  }

  // ---------------------------------------------------------------------------------
  // The integer square root
  // ---------------------------------------------------------------------------------

  function Root(x: nat): nat {
    if x == 0 then 0
    else
      var r := Root(x - 1);
      if Square(r + 1) <= x then r + 1 else r
  }

  lemma {:induction false} RootIsFloor(x: nat)
    ensures Square(Root(x)) <= x < Square(Root(x) + 1)
  {
    if x > 0 {
      RootIsFloor(x - 1);
      var r := Root(x - 1);
      assert Square(r + 2) == Square(r + 1) + 2 * r + 3;
    }
  }

  ghost predicate IsRoot(x: int, r: int) {
    r >= 0 && Square(r) <= x < Square(r + 1)
  }

  /** The root or one more. */
  ghost predicate NearRoot(x: int, s: int) {
    IsRoot(x, s) || IsRoot(x, s - 1)
  }

  /** One Newton step from r + k, where r is the root: never below r, and the excess falls
      from k to at most (k^2 + 2r) / 2(r + k). */
  lemma NewtonStep(x: nat, r: nat, k: nat, k': int)
    requires Square(r) <= x <= Square(r) + 2 * r && r + k > 0
    requires r + k' == Quot(Square(r + k) + x, 2 * (r + k))
    ensures 0 <= k' && 2 * (r + k) * k' <= Square(k) + 2 * r
  {
    var s := r + k;
    QuotRem(Square(s) + x, 2 * s);
    SquaresApart(r, k);
    ExcessRange(Square(s) + x, r, k', 2 * s, Square(k) + 2 * r);
  }

  lemma SquaresApart(r: int, k: int)
    ensures Square(r + k) + Square(r) == Square(k) + r * (2 * (r + k))
  {
  }

  lemma ExcessRange(m: int, r: nat, k': int, u: nat, excess: int)
    requires r * u <= m <= r * u + excess
    requires (r + k') * u <= m < (r + k') * u + u
    ensures 0 <= k' && u * k' <= excess
  {
    MulDistributes(r, k', u);
    MulDistributes(r + k', 1, u);
    CancelLess(r, r + k' + 1, u);
  }

  lemma StepNonIncreasing(r: nat, k: nat, k': int)
    requires r > 0 && 2 * (r + k) * k' <= Square(k) + 2 * r
    ensures k' <= k || k' <= 1
  {
    if k > 0 {
      assert r * k >= r && Square(k) >= 0;
      assert (k + 1) * (2 * (r + k)) == 2 * r * k + 2 * Square(k) + 2 * r + 2 * k;
      ExcessBelow(r, k, k', 1, k + 1);
    } else {
      ExcessBelow(r, k, k', 1, 2);
    }
  }

  lemma CancelLess(a: int, b: int, z: nat)
    requires a * z < b * z
    ensures a < b
  {
    if a >= b {
      MulMono(b, a, z);
    }
  }

  lemma ExcessBelow(r: nat, k: nat, k': int, p: nat, bound: int)
    requires 2 * (r + k) * k' <= Square(k) + 2 * r
    requires p * (Square(k) + 2 * r) < bound * (2 * (r + k))
    ensures p * k' < bound
  {
    MulMono(2 * (r + k) * k', Square(k) + 2 * r, p);
    assert 2 * (r + k) * k' * p == p * k' * (2 * (r + k));
    CancelLess(p * k', bound, 2 * (r + k));
  }

  /** The excess of the starting guess, at most the root itself, goes to a quarter, then to
      a fortieth, then to 1/3280 of it, plus a little more than one. */
  lemma FirstStep(r: nat, k: nat, k': int)
    requires r > 0 && k <= r && 2 * (r + k) * k' <= Square(k) + 2 * r
    ensures 4 * k' < r + 5
  {
    MulMono(k, r, k);
    MulMono(k, r, r);
    FirstBound(Square(r), r * k, Square(k), r, k);
    ExcessBelow(r, k, k', 4, r + 5);
  }

  lemma FirstBound(rr: int, rk: int, kk: int, r: nat, k: nat)
    requires rr == Square(r) && rk == r * k && kk == Square(k) && r > 0 && kk <= rk <= rr
    ensures 4 * (Square(k) + 2 * r) < (r + 5) * (2 * (r + k))
  {
    assert (r + 5) * (2 * (r + k)) == 2 * rr + 2 * rk + 10 * r + 10 * k;
  }

  lemma SecondStep(r: nat, k: nat, k': int)
    requires r > 0 && 4 * k < r + 5 && 2 * (r + k) * k' <= Square(k) + 2 * r
    ensures 40 * k' < r + 49
  {
    MulMono(4 * k, r + 4, k);
    MulMono(4 * k, r + 4, r);
    SecondBound(Square(r), r * k, Square(k), r, k);
    ExcessBelow(r, k, k', 40, r + 49);
  }

  lemma SecondBound(rr: int, rk: int, kk: int, r: nat, k: nat)
    requires rr == Square(r) && rk == r * k && kk == Square(k) && r > 0
    requires 4 * kk <= rk + 4 * k && 4 * rk <= rr + 4 * r
    ensures 40 * (Square(k) + 2 * r) < (r + 49) * (2 * (r + k))
  {
    assert (r + 49) * (2 * (r + k)) == 2 * rr + 2 * rk + 98 * r + 98 * k;
  }

  lemma ThirdStep(r: nat, k: nat, k': int)
    requires r > 0 && 40 * k < r + 49 && 2 * (r + k) * k' <= Square(k) + 2 * r
    ensures 3280 * k' < r + 3347
  {
    MulMono(40 * k, r + 48, k);
    MulMono(40 * k, r + 48, r);
    ThirdBound(Square(r), r * k, Square(k), r, k);
    ExcessBelow(r, k, k', 3280, r + 3347);
  }

  lemma ThirdBound(rr: int, rk: int, kk: int, r: nat, k: nat)
    requires rr == Square(r) && rk == r * k && kk == Square(k) && r > 0
    requires 40 * kk <= rk + 48 * k && 40 * rk <= rr + 48 * r
    ensures 3280 * (Square(k) + 2 * r) < (r + 3347) * (2 * (r + k))
  {
    assert (r + 3347) * (2 * (r + k)) == 2 * rr + 2 * rk + 6694 * r + 6694 * k;
  }

  method TruncDivide(n: int32, u: int32) returns (t: int32)
    requires u > 1
    ensures t == TruncDiv(n, u)
  {
    var q, unused := Divide(Abs(n), u);
    QuotBound(Abs(n), u, 0x8000_0000);
    t := Negated(q, n < 0);
  }

  /** s*s+x in 32-bit arithmetic: it wraps only for s = 2^15, x = 2^30. */
  method SquarePlus(s: int32, x: int32) returns (n: int32)
    requires 0 < s <= 0x8000 && 0 <= x <= 0x4000_0000
    ensures n == if s == 0x8000 && x == 0x4000_0000 then -0x8000_0000 else Square(s) + x
  {
    if s < 0x8000 {
      MulBound(s, s, 0x7FFF, 0x7FFF);
    }
    n := WrapS32(Square(s) + x);
  }

  /** `(s*s+x)/(2*s)`.  It overflows for s = 2^15, x = 2^30; from any guess of at most 2^15
      for a smaller x, it obeys the Newton inequality and stays there. */
  method NewtonIterate(x: int32, s: int32, ghost r: nat) returns (t: int32)
    requires 0 < s <= 0x8000 && 0 <= x <= 0x4000_0000
    requires x < 0x4000_0000 ==> Square(r) <= x <= Square(r) + 2 * r && 0 < r < 0x8000 && r <= s
    ensures x < 0x4000_0000 ==> r <= t <= 0x8000 && 2 * (r + (s - r)) * (t - r) <= Square(s - r) + 2 * r
    ensures x == 0x4000_0000 && s == 0x8000 ==> t == -0x8000
  {
    var n := SquarePlus(s, x);
    t := TruncDivide(n, 2 * s);
    QuotIs(0x8000_0000, 0x1_0000, 0x8000, 0);
    if x < 0x4000_0000 {
      NewtonStep(x, r, s - r, t - r);
      StepNonIncreasing(r, s - r, t - r);
    }
  }

  ghost predicate PowerOfTwo(s: int) {
    s in {1, 2, 4, 8, 0x10, 0x20, 0x40, 0x80, 0x100, 0x200, 0x400, 0x800, 0x1000, 0x2000, 0x4000, 0x8000}
  }

  lemma SquareGrows(a: nat, b: nat)
    requires a < b
    ensures Square(a) < Square(b)
  {
    MulMono(a, b, a);
    MulMono(a, b, b);
  }

  lemma RootAtLeast(s: nat, x: nat)
    ensures Square(s) <= x ==> s <= Root(x)
    ensures x <= Square(s) ==> Root(x) <= s
  {
    RootIsFloor(x);
    var r := Root(x);
    if s > r + 1 {
      SquareGrows(r + 1, s);
    } else if s < r {
      SquareGrows(s, r);
    }
  }

  /** The doubling loop: the least power of two whose square reaches x, at most twice the
      root. */
  method FirstGuess(x: int32) returns (s: int32)
    requires 0 < x <= 0x4000_0000
    ensures Root(x) <= s <= 2 * Root(x) && s <= 0x8000
    ensures x == 0x4000_0000 ==> s == 0x8000
  {
    RootAtLeast(1, x);
    s := 1;
    while Square(s) < x
      invariant PowerOfTwo(s) && s <= 2 * Root(x)
      decreases 0x8000 - s
    {
      RootAtLeast(s, x);
      s := 2 * s;
    }
    RootAtLeast(s, x);
  }

  /** isqrt on every int.  Minus one and minus two make it divide by zero, the only arguments
      that do; for anything less it stops after one step with a negative value. */
  method Isqrt(x: int32) returns (r: Option<int32>)
    ensures r.None? <==> x == -1 || x == -2
    ensures x < -2 ==> r == Some(TruncDiv(x + 1, 2)) && r.value < 0
    ensures 0 <= x < 0x4000_0000 ==> 0 <= 3280 * (r.value - Root(x)) < Root(x) + 3347
    ensures x == 0x4000_0000 ==> r == Some(-0x8000)
    ensures x > 0x4000_0000 ==> r == Some(0x8000)
  {
    if x >= 0 {
      var s := PositiveRoot(x);
      return Some(s);
    }
    var first := TruncDivide(1 + x, 2);
    if x < -2 {
      QuotBound(0 - (1 + x), 2, 1);
    } else {
      QuotBound(Abs(1 + x), 2, 1);
    }
    r := if first >= 0 then None else Some(first);
  }

  /** Below 2^30 the result is the root plus at most 1 + root / 3280; at exactly 2^30 the first
      step overflows and a negative value comes out; above, the fixed guess. */
  method PositiveRoot(x: int32) returns (s: int32)
    requires x >= 0
    ensures x < 0x4000_0000 ==> 0 <= 3280 * (s - Root(x)) < Root(x) + 3347
    ensures x == 0x4000_0000 ==> s == -0x8000
    ensures x > 0x4000_0000 ==> s == 0x8000
  {
    if x > 0x4000_0000 {
      return 0x8000;
    }
    if x == 0 {
      return 0;
    }
    s := FirstGuess(x);
    ghost var r := Root(x);
    if x < 0x4000_0000 {
      RootRange(x);
    }
    ghost var k0 := s - r;
    s := NewtonIterate(x, s, r);
    if s >= 0 {
      FirstStep(r, k0, s - r);
      ghost var k1 := s - r;
      s := NewtonIterate(x, s, r);
      if s >= 0 {
        SecondStep(r, k1, s - r);
        ghost var k2 := s - r;
        s := NewtonIterate(x, s, r);
        ThirdStep(r, k2, s - r);
      }
    }
  }

  lemma RootBelow(s: nat, x: nat)
    requires x < Square(s)
    ensures Root(x) < s
  {
    RootIsFloor(x);
    if s < Root(x) {
      SquareGrows(s, Root(x));
    }
  }

  lemma NextSquare(r: nat)
    ensures Square(r + 1) == Square(r) + 2 * r + 1
  {
  }

  lemma RootRange(x: nat)
    requires 0 < x < 0x4000_0000
    ensures Square(Root(x)) <= x <= Square(Root(x)) + 2 * Root(x) && 0 < Root(x) < 0x8000
  {
    RootIsFloor(x);
    NextSquare(Root(x));
    RootAtLeast(1, x);
    RootBelow(0x8000, x);
  }

  /** On the range the statistics need, the root or one more. */
  lemma NearRootInRange(x: nat, s: int)
    requires x <= 10_000_000 && 0 <= 3280 * (s - Root(x)) < Root(x) + 3347
    ensures NearRoot(x, s)
  {
    RootAtLeast(3163, x);
    RootIsFloor(x);
  }

  // ---------------------------------------------------------------------------------
  // The renderer's counters and property accessors
  // ---------------------------------------------------------------------------------

  /** The number GetStdDev takes the root of: 64-bit subtraction and the cast to LONG wrap. */
  function CastVariance(n: int32, sumSq: int64, tot: int64): int32
    requires n > 1
  {
    WrapS32(TruncDiv(WrapS64(sumSq - MulDiv.ScaledValue(Square(tot), n, false)), n - 1))
  }

  /** Where nothing wraps that is the variance. */
  lemma CastIsExact(n: int32, sumSq: int64, tot: int64)
    requires n > 1 && IsInt64(sumSq - MulDiv.ScaledValue(Square(tot), n, false))
    requires 0 <= Variance(n, sumSq, tot) < 0x8000_0000
    ensures CastVariance(n, sumSq, tot) == Variance(n, sumSq, tot)
  {
    NoWrap64(sumSq - MulDiv.ScaledValue(Square(tot), n, false));
    NoWrap32(Variance(n, sumSq, tot));
  }

  lemma CastEstimates(n: int32, sumSq: int64, tot: int64)
    requires n > 1
    ensures forall v :: Estimates(v, n, sumSq, tot) && v < 0x8000_0000 ==> 0 <= v == CastVariance(n, sumSq, tot)
  {
    forall v | Estimates(v, n, sumSq, tot) && v < 0x8000_0000
      ensures 0 <= v == CastVariance(n, sumSq, tot)
    {
      VarianceEstimates(n, sumSq, tot, v);
      CastIsExact(n, sumSq, tot);
    }
  }

  lemma NoWrap64(x: int)
    requires IsInt64(x)
    ensures WrapS64(x) == x
  {
    assert x / 0x1_0000_0000_0000_0000 == if x >= 0 then 0 else -1;
  }

  lemma NoWrap32(x: int)
    requires 0 <= x < 0x8000_0000
    ensures WrapS32(x) == x
  {
  }

  /** GetStdDev.  It fails only where the cast variance is minus one or minus two; up to ten million
      the result is the root of the cast variance, or one more. */
  method GetStdDev(nSamples: int32, sumSq: int64, tot: int64) returns (result: Option<int32>)
    ensures nSamples <= 1 ==> result == Some(0)
    ensures nSamples > 1 ==>
      var x := CastVariance(nSamples, sumSq, tot);
      && (result.None? <==> x == -1 || x == -2)
      && (0 <= x <= 10_000_000 ==> NearRoot(x, result.value))
      && (x < -2 ==> result.value < 0)
    ensures nSamples > 1 ==> forall v :: Estimates(v, nSamples, sumSq, tot) && v <= 10_000_000 ==>
      result.Some? && NearRoot(v, result.value)
  {
    if nSamples <= 1 {
      return Some(0);
    }
    var t := MulDiv.LlMulDiv(tot, tot, nSamples, 0);
    var x := WrapS32(TruncDiv(WrapS64(sumSq - t), nSamples - 1));
    result := Isqrt(x);
    if 0 <= x <= 10_000_000 {
      NearRootInRange(x, result.value);
    }
    CastEstimates(nSamples, sumSq, tot);
  }

  /** The root, or one more, of the estimated variance of the data. */
  ghost predicate IsDeviation(result: int, n: int, data: seq<int>) {
    if n <= 1 then result == 0
    else exists v :: Estimates(v, n, SumSq(data), Sum(data)) && NearRoot(v, result)
  }

  /** GetStdDev on the sums of recorded data, one observation too many claimed. */
  method DeviationOf(n: int32, sumSq: int, tot: int, ghost data: seq<int>) returns (result: int32)
    requires Bounded(data) && sumSq == SumSq(data) && tot == Sum(data) && |data| < 0x7FFF_FFFF
    requires n <= 1 || n == |data| + 1
    ensures IsDeviation(result, n, data)
  {
    SumsBounded(data);
    if n > 1 {
      VarianceInRange(data, n);
      DataEstimated(data, n);
    }
    var r := GetStdDev(n, sumSq, tot);
    result := r.value;
  }

  class StatsRecorder {
    var framesDrawn: nat
    var totAcc: int
    var sumSqAcc: int
    var sumFrameTime: int
    var sumSqFrameTime: int
    ghost var history: seq<Frame>

    function View(): Sums
      reads this
    {
      Sums(framesDrawn, totAcc, sumSqAcc, sumFrameTime, sumSqFrameTime)
    }

    /** The counters are those of the frames recorded; m_cFramesDrawn is an int, so there are
        fewer than 2^31 of them. */
    ghost predicate Valid()
      reads this
    {
      View() == Replay(history) && |history| <= 0x7FFF_FFFF
    }

    /** ResetStreamingTimes */
    constructor ()
      ensures Valid() && history == []
    {
      framesDrawn, totAcc, sumSqAcc, sumFrameTime, sumSqFrameTime := 0, 0, 0, 0, 0;
      history := [];
    }

    method RecordFrameLateness(trLate: int32, trFrame: int32)
      requires Valid() && |history| < 0x7FFF_FFFF
      modifies this
      ensures Valid() && history == old(history) + [Frame(trLate, trFrame)]
      ensures View() == Record(old(View()), Frame(trLate, trFrame))
    {
      var tLate := TruncDiv(trLate, 10000);
      if tLate > 1000 || tLate < -1000 {
        if framesDrawn <= 1 {
          tLate := 0;
        } else if tLate > 0 {
          tLate := 1000;
        } else {
          tLate := -1000;
        }
      }
      if framesDrawn > 1 {
        totAcc := totAcc + tLate;
        sumSqAcc := sumSqAcc + tLate * tLate;
      }
      if framesDrawn > 2 {
        var tFrame := TruncDiv(trFrame, 10000);
        if tFrame > 1000 || tFrame < 0 {
          tFrame := 1000;
        }
        sumSqFrameTime := sumSqFrameTime + tFrame * tFrame;
        sumFrameTime := sumFrameTime + tFrame;
      }
      framesDrawn := framesDrawn + 1;
      history := history + [Frame(trLate, trFrame)];
      assert history[..|history| - 1] == old(history);
    }

    /** The deviation of the sync offset; without a clock it reads zero. */
    method DevSyncOffset(hasClock: bool) returns (dev: int32)
      requires Valid()
      ensures dev == 0 || hasClock
      ensures hasClock ==> IsDeviation(dev, |history| - 1, LateData(history))
    {
      if !hasClock {
        return 0;
      }
      LateSums(history);
      dev := DeviationOf(framesDrawn - 1, sumSqAcc, totAcc, LateData(history));
    }

    method Jitter(hasClock: bool) returns (jitter: int32)
      requires Valid()
      ensures jitter == 0 || hasClock
      ensures hasClock ==> IsDeviation(jitter, |history| - 2, GapData(history))
    {
      if !hasClock {
        return 0;
      }
      GapSums(history);
      jitter := DeviationOf(framesDrawn - 2, sumSqFrameTime, sumFrameTime, GapData(history));
    }
  }
}
