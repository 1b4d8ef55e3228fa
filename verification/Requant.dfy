/** `_requant_params` of lowering.py in exact arithmetic: a 15-bit multiplier and a shift that stand for a real
    ratio. */
module Requant {
  import opened Bytes

  /** floor(log2 x) for x of at least 1. */
  function FloorLog2(x: real): (k: nat)
    requires x >= 1.0
    ensures Pow2(k) as real <= x < Pow2(k + 1) as real
    decreases x.Floor
  {
    if x < 2.0 then 0 else
      var k := FloorLog2(x / 2.0);
      k + 1
  }

  /** Python's round: to nearest, ties to even. */
  function Round(r: real): (n: int)
    ensures -0.5 <= n as real - r <= 0.5
  {
    var f := r.Floor;
    var d := r - f as real;
    if d < 0.5 then f else if d > 0.5 then f + 1 else if f % 2 == 0 then f else f + 1
  }

  function Clamp(n: int, hi: nat): nat {
    if n < 0 then 0 else if n > hi then hi else n
  }

  function Prod(a: real, b: real): real {
    a * b
  }

  /** The scale at which the ratio fills the multiplier. */
  function Reach(ratio: real): real
    requires ratio > 0.0
  {
    32767.0 / ratio
  }

  /** The multiplier and the shift. A ratio above 32767 has a negative logarithm, clamped to shift 0. */
  function Params(ratio: real): (p: (nat, nat))
    ensures p.0 <= 32767 && p.1 <= 31
  {
    if ratio <= 0.0 then (0, 0)
    else
      var x := Reach(ratio);
      var shift := if x < 1.0 then 0 else Clamp(FloorLog2(x), 31);
      (Clamp(Round(Prod(ratio, Pow2(shift) as real)), 32767), shift)
  }

  /** The ratios a shift of 0 to 31 can serve. */
  predicate InRange(ratio: real) {
    32767.0 / 4294967296.0 < ratio <= 32767.0
  }

  lemma {:induction false} PowMonotone(a: nat, b: nat)
    requires a <= b
    ensures Pow2(a) <= Pow2(b)
    decreases b - a
  {
    if a < b {
      PowMonotone(a, b - 1);
    }
  }

  lemma Pow32()
    ensures Pow2(32) == 4294967296
  {
    assert Pow2(8) == 256;
    assert Pow2(16) == 65536;
    assert Pow2(24) == 16777216;
  }

  lemma ReachTimes(ratio: real)
    requires ratio > 0.0
    ensures Prod(Reach(ratio), ratio) == 32767.0
  {
  }

  lemma ProdMono(a: real, b: real, c: real)
    requires c > 0.0
    ensures (a <= b <==> Prod(a, c) <= Prod(b, c)) && (a < b <==> Prod(a, c) < Prod(b, c))
  {
    if a < b {
      assert (b - a) * c > 0.0;
    } else if b < a {
      assert (a - b) * c > 0.0;
    }
  }

  lemma ProdFacts(a: real, b: real)
    ensures Prod(a, b) == Prod(b, a) && Prod(2.0 * a, b) == 2.0 * Prod(a, b)
    ensures Prod(0.0, b) == 0.0 && Prod(1.0, b) == b
  {
  }

  /** In range the shift is not clamped. */
  lemma ShiftOf(ratio: real)
    requires InRange(ratio)
    ensures ratio > 0.0 && Reach(ratio) >= 1.0
    ensures FloorLog2(Reach(ratio)) <= 31 && Params(ratio).1 == FloorLog2(Reach(ratio))
    ensures Params(ratio).0 == Clamp(Round(Scaled(ratio)), 32767)
  {
    hide FloorLog2, Round, Pow2, Reach, Prod, Clamp;
    Reaches(ratio);
    var k := FloorLog2(Reach(ratio));
    Log2Is(Reach(ratio));
    if k > 31 {
      Pow32();
      PowMonotone(32, k);
    }
    Clamped(k, 31);
  }

  lemma Clamped(n: int, hi: nat)
    ensures 0 <= n <= hi ==> Clamp(n, hi) == n
  {
  }

  lemma Log2Is(x: real)
    requires x >= 1.0
    ensures Pow2(FloorLog2(x)) as real <= x < Pow2(FloorLog2(x) + 1) as real
  {
  }

  lemma Reaches(ratio: real)
    requires InRange(ratio)
    ensures 1.0 <= Reach(ratio) < 4294967296.0
  {
    hide Reach, Prod;
    ReachTimes(ratio);
    ProdFacts(1.0, ratio);
    ProdMono(1.0, Reach(ratio), ratio);
    ProdMono(Reach(ratio), 4294967296.0, ratio);
    Large(ratio);
  }

  lemma Large(ratio: real)
    requires InRange(ratio)
    ensures Prod(4294967296.0, ratio) > 32767.0
  {
  }

  lemma Squeeze(x: real, ratio: real, p: real)
    requires ratio > 0.0 && Prod(x, ratio) == 32767.0 && p <= x < 2.0 * p
    ensures Prod(ratio, p) <= 32767.0 < 2.0 * Prod(ratio, p)
  {
    hide Prod;
    ProdMono(p, x, ratio);
    ProdMono(x, 2.0 * p, ratio);
    ProdFacts(p, ratio);
  }

  lemma RoundClamped(r: real)
    requires 0.0 <= r <= 32767.0
    ensures Clamp(Round(r), 32767) == Round(r) <= 32767
  {
  }

  /** The ratio at the scale of the multiplier. */
  function Scaled(ratio: real): real {
    Prod(ratio, Pow2(Params(ratio).1) as real)
  }

  /** In range nothing is clamped: the scaled ratio lies in the upper half of the multiplier's range. */
  lemma Unclamped(ratio: real)
    requires InRange(ratio)
    ensures Scaled(ratio) <= 32767.0 < 2.0 * Scaled(ratio)
    ensures Params(ratio).0 == Round(Scaled(ratio)) <= 32767
  {
    hide FloorLog2, Round, Pow2, Params, Clamp, Reach, InRange, Prod;
    ShiftOf(ratio);
    ReachTimes(ratio);
    var x := Reach(ratio);
    Log2Is(x);
    NextPow(FloorLog2(x));
    Squeeze(x, ratio, Pow2(FloorLog2(x)) as real);
    RoundClamped(Scaled(ratio));
  }

  lemma NextPow(k: nat)
    ensures Pow2(k + 1) as real == 2.0 * Pow2(k) as real
  {
  }

  /** Absolute error at most half a unit of the shift, relative error below one part in 32767. */
  lemma ParamsAccurate(ratio: real)
    requires InRange(ratio)
    ensures var off := Params(ratio).0 as real - Scaled(ratio);
            -0.5 <= off <= 0.5 && -Scaled(ratio) < 32767.0 * off < Scaled(ratio)
  {
    hide FloorLog2, Round, Pow2, Params, InRange, Scaled;
    Unclamped(ratio);
    RoundNear(Scaled(ratio));
  }

  lemma RoundNear(r: real)
    ensures -0.5 <= Round(r) as real - r <= 0.5
  {
  }

  /** For every integer sum, the shifted product misses the exact scaled sum by the rounding of the multiplier, and
      below by less than one more: all three terms are scaled by the shift's unit. */
  lemma ShiftedProduct(ratio: real, s: int)
    requires InRange(ratio)
    ensures var unit := Pow2(Params(ratio).1);
            var slack := (if s < 0 then -s else s) as real / 2.0;
            var off := (s * Params(ratio).0 / unit) as real * unit as real - s as real * Scaled(ratio);
            -(unit as real) - slack < off <= slack
  {
    hide FloorLog2, Round, Pow2, Params, InRange, Scaled;
    ParamsAccurate(ratio);
    var mult, d := Params(ratio).0, Pow2(Params(ratio).1);
    var q, m := s * mult / d, s * mult % d;
    assert s * mult == q * d + m;
    IntReal(q, d);
    IntReal(s, mult);
    Halved(s as real, mult as real - Scaled(ratio));
    Spread(s as real, mult as real, Scaled(ratio));
  }

  lemma IntReal(a: int, b: int)
    ensures (a * b) as real == a as real * b as real
  {
  }

  lemma Spread(s: real, mult: real, r: real)
    ensures s * mult - s * r == s * (mult - r)
  {
  }

  lemma Halved(s: real, e: real)
    requires -0.5 <= e <= 0.5
    ensures var slack := (if s < 0.0 then -s else s) / 2.0; -slack <= s * e <= slack
  {
    var a := if s < 0.0 then -s else s;
    NonNegative(a, 0.5 - e);
    NonNegative(a, e + 0.5);
    assert a * (0.5 - e) == a / 2.0 - a * e && a * (e + 0.5) == a * e + a / 2.0;
    assert s * e == a * e || s * e == -(a * e);
  }

  lemma NonNegative(a: real, b: real)
    requires a >= 0.0 && b >= 0.0
    ensures a * b >= 0.0
  {
  }

  /** The nearest integer, and of two equally near the even one. */
  lemma RoundIff(r: real, n: int)
    ensures var d := n as real - r;
            Round(r) == n <==> -0.5 < d < 0.5 || ((d == 0.5 || d == -0.5) && n % 2 == 0)
  {
    var f := r.Floor;
    assert f as real <= r < f as real + 1.0;
    if -0.5 <= n as real - r <= 0.5 {
      assert n == f || n == f + 1;
    }
  }

  /** Below the range the shift stays at 31 and only the multiplier follows the ratio: half a unit of absolute error is
      all that is left, and the multiplier is zero exactly for ratios of at most one part in 2^32. */
  lemma Underflows(ratio: real)
    requires 0.0 < ratio && !InRange(ratio) && ratio <= 32767.0
    ensures Params(ratio).1 == 31 && -0.5 <= Params(ratio).0 as real - Prod(ratio, 2147483648.0) <= 0.5
    ensures Params(ratio).0 == 0 <==> Prod(ratio, 4294967296.0) <= 1.0
  {
    hide FloorLog2, Round, Reach, Pow2;
    var x := Reach(ratio);
    BeyondReach(ratio);
    Log2Is(x);
    Pow32();
    if FloorLog2(x) <= 31 {
      PowMonotone(FloorLog2(x) + 1, 32);
    }
    NextPow(31);
    var r := Prod(ratio, 2147483648.0);
    RoundClamped(r);
    RoundNear(r);
    RoundIff(r, 0);
  }

  lemma BeyondReach(ratio: real)
    requires 0.0 < ratio && !InRange(ratio) && ratio <= 32767.0
    ensures Reach(ratio) >= 4294967296.0
  {
    hide Reach;
    ReachTimes(ratio);
    ProdMono(4294967296.0, Reach(ratio), ratio);
  }

  /** Above the range the multiplier saturates, and the error grows without bound. */
  lemma Saturates(ratio: real)
    requires ratio > 32767.0
    ensures Params(ratio) == (32767, 0)
  {
    hide FloorLog2, Reach, Round, Prod;
    ReachTimes(ratio);
    ProdMono(1.0, Reach(ratio), ratio);
    ProdFacts(1.0, ratio);
    ProdFacts(ratio, 1.0);
    assert Pow2(0) == 1;
    RoundAbove(ratio);
  }

  lemma RoundAbove(r: real)
    requires r > 32767.0
    ensures Round(r) >= 32767
  {
  }
}
