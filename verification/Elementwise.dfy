/** elementwise.v: the five-stage elementwise unit, whose 33x16 multiplication is split over two small products. */
module Elementwise {
  import opened Bytes
  import opened Kernels
  import opened Mig
  import VirtualFpga

  /** The n-bit signed integers. */
  predicate Fits(v: int, n: nat)
    requires n > 0
  {
    var h: int := Pow2(n - 1);
    -h <= v < h
  }

  /** The signed value of the low n bits. */
  function Sx(v: int, n: nat): (r: int)
    requires n > 0
  {
    var h: int := Pow2(n - 1);
    (v + h) % (2 * h) - h
  }

  lemma SxFits(v: int, n: nat)
    requires n > 0 && Fits(v, n)
    ensures Sx(v, n) == v
  {
    var h: int := Pow2(n - 1);
    DivModUnique(v + h, 2 * h, 0, v + h);
  }

  /** One cycle's inputs; words are 16 bytes, the first byte lowest. */
  datatype In = In(start: bool, op: nat, dataIn: word, dataB: word, scale: byte, mult: nat)

  predicate InOk(x: In) {
    x.op < 8 && x.mult < 65536
  }

  type four = s: seq<int> | |s| == 4 witness [0, 0, 0, 0]

  /** Registers by stage. */
  datatype Regs = Regs(v1: bool, op1: nat, sc1: byte, m1: int, r1: word, s33: four,
                       v2: bool, op2: nat, sc2: byte, r2: word, ppLo: four, ppHi: four,
                       v3: bool, op3: nat, sc3: byte, r3: word, p49: four,
                       v4: bool, op4: nat, sc4: byte, r4: word, sh49: four,
                       done: bool, dataOut: word)

  function Reset(): Regs {
    var z := [0, 0, 0, 0];
    Regs(false, 0, 0, 0, Zeros(16), z, false, 0, 0, Zeros(16), z, z, false, 0, 0, Zeros(16), z, false, 0, 0,
      Zeros(16), z,
         false, Zeros(16))
  }

  // ----- one clock edge, stage by stage -----

  function Sat16(x: int): byte {
    if x > 127 then 127 else if x < -128 then 0x80 else U8(x)
  }

  /** Byte lane of stage 1. */
  function Lane(x: In, k: nat): byte
    requires k < 16
  {
    var v := S8(x.dataIn[k]);
    match x.op
    case 0 => if v < 0 then 0 else U8(v)
    case 1 => Sat16(Sx(v + x.scale, 16))
    case 2 => Sat16(Sx(v * x.scale, 16))
    case 3 => Sat16(Sx(v + S8(x.dataB[k]), 16))
    case _ => x.dataIn[k]
  }

  function Lanes(x: In): (r: word)
    ensures forall k :: 0 <= k < 16 ==> r[k] == Lane(x, k)
  {
    seq(16, k requires 0 <= k < 16 => Lane(x, k))
  }

  function Sums(x: In): (s: four)
    ensures forall i :: 0 <= i < 4 ==> s[i] == Sx(RdI32(x.dataIn, 4 * i) + RdI32(x.dataB, 4 * i), 33)
  {
    seq(4, i requires 0 <= i < 4 => Sx(RdI32(x.dataIn, 4 * i) + RdI32(x.dataB, 4 * i), 33))
  }

  /** `s[16:0] * m`, 34 bits. */
  function LoPart(s: int, m: int): int {
    Sx(s % 0x2_0000 * m, 34)
  }

  /** `s[32:17] * m`, 32 bits. */
  function HiPart(s: int, m: int): int {
    Sx(s / 0x2_0000 * m, 32)
  }

  /** `(hi << 17) + lo`, 49 bits. */
  function Combine(lo: int, hi: int): int {
    Sx(hi * 0x2_0000 + lo, 49)
  }

  function Shift(p: int, sc: byte): int {
    p / Pow2(sc % 32)
  }

  /** Stage 5: ReLU when the top scale bit is set, then saturation. */
  function Finish(sh: int, sc: byte): byte {
    Sat16(if sc / 128 == 1 && sh < 0 then 0 else sh)
  }

  function Step(r: Regs, x: In): (r': Regs) {
    Regs(x.start, x.op, x.scale, VirtualFpga.Sext16(x.mult), if x.start then Lanes(x) else r.r1, if x.start then Sums(x)
      else r.s33,
         r.v1, r.op1, r.sc1, r.r1,
         seq(4, i requires 0 <= i < 4 => LoPart(r.s33[i], r.m1)),
           seq(4, i requires 0 <= i < 4 => HiPart(r.s33[i], r.m1)),
         r.v2, r.op2, r.sc2, r.r2, seq(4, i requires 0 <= i < 4 => Combine(r.ppLo[i], r.ppHi[i])),
         r.v3, r.op3, r.sc3, r.r3, seq(4, i requires 0 <= i < 4 => Shift(r.p49[i], r.sc3)),
         r.v4,
         if !r.v4 then r.dataOut
         else if r.op4 == 4 then seq(16, k requires 0 <= k < 16 => if k < 4 then Finish(r.sh49[k], r.sc4) else 0)
         else r.r4)
  }

  class Unit {
    var r: Regs

    constructor ()
      ensures r == Reset()
    {
      r := Reset();
    }

    /** One rising edge: every stage reads what the stage before held. */
    method Clock(x: In)
      modifies this
      ensures r == Step(old(r), x)
    {
      hide Lanes, Sums, LoPart, HiPart, Combine, Shift, Finish;
      var was := r;
      // stage 5
      r := r.(done := was.v4);
      if was.v4 {
        if was.op4 == 4 {
          r := r.(dataOut := seq(16, k requires 0 <= k < 16 => if k < 4 then Finish(was.sh49[k], was.sc4) else 0));
        } else {
          r := r.(dataOut := was.r4);
        }
      }
      // stages 4, 3 and 2
      r := r.(v4 := was.v3, op4 := was.op3, sc4 := was.sc3, r4 := was.r3,
              sh49 := seq(4, i requires 0 <= i < 4 => Shift(was.p49[i], was.sc3)));
      r := r.(v3 := was.v2, op3 := was.op2, sc3 := was.sc2, r3 := was.r2,
              p49 := seq(4, i requires 0 <= i < 4 => Combine(was.ppLo[i], was.ppHi[i])));
      r := r.(v2 := was.v1, op2 := was.op1, sc2 := was.sc1, r2 := was.r1,
              ppLo := seq(4, i requires 0 <= i < 4 => LoPart(was.s33[i], was.m1)),
              ppHi := seq(4, i requires 0 <= i < 4 => HiPart(was.s33[i], was.m1)));
      // stage 1
      r := r.(v1 := x.start, op1 := x.op, sc1 := x.scale, m1 := VirtualFpga.Sext16(x.mult));
      if x.start {
        r := r.(r1 := Lanes(x), s33 := Sums(x));
      }
    }
  }

  // ----- the arithmetic -----

  lemma Powers()
    ensures Pow2(15) == 0x8000 && Pow2(16) == 0x1_0000 && Pow2(31) == 0x8000_0000 && Pow2(32) == 0x1_0000_0000
    ensures Pow2(33) == 0x2_0000_0000 && Pow2(48) == 0x1_0000_0000_0000
  {
    assert Pow2(4) == 16;
    assert Pow2(8) == 256;
    assert Pow2(12) == 4096;
    assert Pow2(15) == 0x8000;
    assert Pow2(20) == 0x10_0000;
    assert Pow2(24) == 0x100_0000;
    assert Pow2(28) == 0x1000_0000;
    assert Pow2(31) == 0x8000_0000;
    assert Pow2(36) == 0x10_0000_0000;
    assert Pow2(40) == 0x100_0000_0000;
    assert Pow2(44) == 0x1000_0000_0000;
  }

  /** |m| at most 2^15 scales an interval. */
  lemma Scaled(a: int, b: int, m: int)
    requires -b <= a <= b && -0x8000 <= m <= 0x7FFF
    ensures -0x8000 * b <= a * m <= 0x8000 * b
  {
    var c: int := if a < 0 then -a else a;
    var d: int := if m < 0 then -m else m;
    MulLe(c, b, d);
    MulLe(d, 0x8000, b);
    assert b * d == d * b;
    assert a * m == c * d || a * m == -(c * d);
  }

  /** Neither partial product, nor their sum, wraps: the two halves recombine to the exact 33x16 product in 49 bits. */
  lemma SplitProduct(s: int, m: int)
    requires Fits(s, 33) && Fits(m, 16)
    ensures Fits(s % 0x2_0000 * m, 34) && Fits(s / 0x2_0000 * m, 32) && Fits(s * m, 49)
    ensures Combine(LoPart(s, m), HiPart(s, m)) == s * m
  {
    hide Sx;
    Powers();
    var lo, hi := s % 0x2_0000, s / 0x2_0000;
    assert s == hi * 0x2_0000 + lo;
    Scaled(lo, 0x1_FFFF, m);
    Scaled(hi, 0x8000, m);
    Scaled(s, 0x1_0000_0000, m);
    Recombine(hi, lo, m, s);
    SxFits(lo * m, 34);
    SxFits(hi * m, 32);
    SxFits(s * m, 49);
  }

  lemma Recombine(hi: int, lo: int, m: int, s: int)
    requires s == hi * 0x2_0000 + lo
    ensures hi * m * 0x2_0000 + lo * m == s * m
  {
    assert (hi * 0x2_0000 + lo) * m == hi * 0x2_0000 * m + lo * m;
  }

  /** The sum of two INT32 values fits the 33-bit register. */
  lemma SumFits(x: In, i: nat)
    requires i < 4
    ensures Sums(x)[i] == RdI32(x.dataIn, 4 * i) + RdI32(x.dataB, 4 * i) && Fits(Sums(x)[i], 33)
  {
    hide RdI32, Rd32;
    Powers();
    SxFits(RdI32(x.dataIn, 4 * i) + RdI32(x.dataB, 4 * i), 33);
  }

  /** Stages 2 to 5 on one lane are the requantisation the kernels and the emulator compute. */
  lemma LaneIsEpilogue(acc: int, bias: int, s: int, m: int, sc: byte)
    requires s == acc + bias && Fits(s, 33) && Fits(m, 16)
    ensures Finish(Shift(Combine(LoPart(s, m), HiPart(s, m)), sc), sc) == U8(Epi(acc, bias, m, sc % 32, sc / 128 == 1))
  {
    hide LoPart, HiPart, Combine, Fits;
    SplitProduct(s, m);
  }

  // ----- what an operation computes -----

  /** The emulator's and the kernels' result for one start: four requantised sums, or sixteen byte operations. */
  function Result(x: In): (w: word)
    requires InOk(x)
    ensures x.op != 4 ==> forall k :: 0 <= k < 16 ==>
              w[k] == VirtualFpga.ByteOp(x.op, x.dataIn[k], if x.op == 3 then x.dataB[k] else 0, x.scale)
    ensures x.op == 4 ==> forall k :: 0 <= k < 16 ==>
              w[k] == if k < 4 then U8(Epi(RdI32(x.dataIn, 4 * k), RdI32(x.dataB, 4 * k), VirtualFpga.Sext16(x.mult),
                x.scale % 32, x.scale / 128 == 1)) else 0
  {
    if x.op == 4 then
      seq(16, k requires 0 <= k < 16 =>
        if k < 4 then U8(Epi(RdI32(x.dataIn, 4 * k), RdI32(x.dataB, 4 * k), VirtualFpga.Sext16(x.mult), x.scale % 32,
          x.scale / 128 == 1)) else 0)
    else
      seq(16, k requires 0 <= k < 16 => VirtualFpga.ByteOp(x.op, x.dataIn[k], if x.op == 3 then x.dataB[k] else 0,
        x.scale))
  }

  /** The byte lanes agree with the emulator's; 16-bit intermediates never wrap. */
  lemma LaneIsByteOp(x: In, k: nat)
    requires k < 16 && InOk(x) && x.op != 4
    ensures Lane(x, k) == VirtualFpga.ByteOp(x.op, x.dataIn[k], if x.op == 3 then x.dataB[k] else 0, x.scale)
  {
    hide Sx, Sat16, Sat8, U8, S8, Fits;
    var v, sc: int := S8(x.dataIn[k]), x.scale;
    SmallProduct(v, sc);
    SmallFits(v + sc);
    SmallFits(v * sc);
    SmallFits(v + S8(x.dataB[k]));
    SatSame(v + sc);
    SatSame(v * sc);
    SatSame(v + S8(x.dataB[k]));
    SameByte(x.dataIn[k]);
  }

  lemma SmallFits(v: int)
    requires -0x8000 <= v < 0x8000
    ensures Sx(v, 16) == v
  {
    hide Sx;
    Powers();
    SxFits(v, 16);
  }

  lemma SatSame(v: int)
    ensures Sat16(v) == U8(Sat8(v))
  {
  }

  lemma SameByte(b: byte)
    ensures U8(Sat8(S8(b))) == b && U8(S8(b)) == b && U8(Sat8(0)) == 0
  {
  }

  lemma SmallProduct(v: int, sc: int)
    requires -128 <= v <= 127 && 0 <= sc < 256
    ensures -0x8000 <= v * sc < 0x8000
  {
    MulLe(-128, v, sc);
    MulLe(v, 127, sc);
  }

  // ----- the pipeline -----

  const IDLE := In(false, 0, Zeros(16), Zeros(16), 0, 0)

  /** The input k cycles ago; nothing before reset. */
  function Ago(xs: seq<In>, k: nat): In
    requires k > 0
  {
    if |xs| >= k then xs[|xs| - k] else IDLE
  }

  /** The state after a sequence of cycles from reset. */
  function Run(xs: seq<In>): Regs {
    if xs == [] then Reset() else Step(Run(xs[..|xs| - 1]), xs[|xs| - 1])
  }

  ghost predicate Stage1(r: Regs, x: In) {
    r.v1 == x.start && (x.start ==>
        r.op1 == x.op && r.sc1 == x.scale && r.m1 == VirtualFpga.Sext16(x.mult)
        && r.r1 == Lanes(x) && r.s33 == Sums(x))
  }

  ghost predicate Stage2(r: Regs, x: In) {
    r.v2 == x.start &&
    (x.start ==> r.op2 == x.op && r.sc2 == x.scale && r.r2 == Lanes(x) &&
                 forall i :: 0 <= i < 4 ==>
                   r.ppLo[i] == LoPart(Sums(x)[i], VirtualFpga.Sext16(x.mult))
                     && r.ppHi[i] == HiPart(Sums(x)[i], VirtualFpga.Sext16(x.mult)))
  }

  ghost predicate Stage3(r: Regs, x: In) {
    r.v3 == x.start &&
    (x.start ==> r.op3 == x.op && r.sc3 == x.scale && r.r3 == Lanes(x) &&
                 forall i :: 0 <= i < 4 ==>
                   r.p49[i] == Combine(LoPart(Sums(x)[i], VirtualFpga.Sext16(x.mult)),
                     HiPart(Sums(x)[i], VirtualFpga.Sext16(x.mult))))
  }

  ghost predicate Stage4(r: Regs, x: In) {
    r.v4 == x.start &&
    (x.start ==> r.op4 == x.op && r.sc4 == x.scale && r.r4 == Lanes(x) &&
                 forall i :: 0 <= i < 4 ==>
                   r.sh49[i] == Shift(Combine(LoPart(Sums(x)[i], VirtualFpga.Sext16(x.mult)),
                     HiPart(Sums(x)[i], VirtualFpga.Sext16(x.mult))), x.scale))
  }

  lemma Stages(r: Regs, x: In, x1: In, x2: In, x3: In)
    requires Stage1(r, x1) && Stage2(r, x2) && Stage3(r, x3)
    ensures var r' := Step(r, x); Stage1(r', x) && Stage2(r', x1) && Stage3(r', x2) && Stage4(r', x3)
  {
    hide Lanes, Sums, LoPart, HiPart, Combine, Shift, Finish, VirtualFpga.Sext16;
  }

  /** The last stage turns what stage 4 holds into the operation's result. */
  lemma LastStage(r: Regs, x: In, x4: In)
    requires Stage4(r, x4) && InOk(x4)
    ensures Step(r, x).done == x4.start
    ensures Step(r, x).dataOut == if x4.start then Result(x4) else r.dataOut
  {
    hide Sums, LoPart, HiPart, Combine, Shift, Finish, Epi, RdI32, VirtualFpga.Sext16, VirtualFpga.ByteOp, Lane, U8;
    if x4.start {
      var out := Step(r, x).dataOut;
      forall k | 0 <= k < 16
        ensures out[k] == Result(x4)[k]
      {
        if x4.op != 4 {
          LaneIsByteOp(x4, k);
        } else if k < 4 {
          SumFits(x4, k);
          MultFits(x4.mult);
          LaneIsEpilogue(RdI32(x4.dataIn, 4 * k), RdI32(x4.dataB, 4 * k), Sums(x4)[k], VirtualFpga.Sext16(x4.mult),
            x4.scale);
        }
      }
    }
  }

  lemma MultFits(m: nat)
    ensures Fits(VirtualFpga.Sext16(m), 16)
  {
    Powers();
  }

  lemma {:induction false} Filled(xs: seq<In>)
    ensures var r := Run(xs);
            && Stage1(r, Ago(xs, 1)) && Stage2(r, Ago(xs, 2)) && Stage3(r, Ago(xs, 3))
            && Stage4(r, Ago(xs, 4))
    decreases |xs|
  {
    hide Stage1, Stage2, Stage3, Stage4, Step;
    if xs == [] {
      EmptyStages();
    } else {
      var front, x := xs[..|xs| - 1], xs[|xs| - 1];
      Filled(front);
      Stages(Run(front), x, Ago(front, 1), Ago(front, 2), Ago(front, 3));
    }
  }

  lemma EmptyStages()
    ensures Stage1(Reset(), IDLE) && Stage2(Reset(), IDLE) && Stage3(Reset(), IDLE) && Stage4(Reset(), IDLE)
  {
  }

  /** For every schedule of starts, back to back included: `done` rises exactly five edges after each start and never
      otherwise, with that start's result, equal to the kernels' and the emulator's, on the output, where it stays until
      the next. */
  lemma DoneFiveLater(xs: seq<In>)
    requires forall k :: 0 <= k < |xs| ==> InOk(xs[k])
    ensures Run(xs).done == Ago(xs, 5).start
    ensures InOk(Ago(xs, 5)) && (Ago(xs, 5).start ==> Run(xs).dataOut == Result(Ago(xs, 5)))
    ensures xs != [] && !Ago(xs, 5).start ==> Run(xs).dataOut == Run(xs[..|xs| - 1]).dataOut
  {
    hide Stage1, Stage2, Stage3, Stage4, Step, Result;
    if xs != [] {
      var front, x := xs[..|xs| - 1], xs[|xs| - 1];
      Filled(front);
      LastStage(Run(front), x, Ago(front, 4));
      assert Ago(xs, 5) == Ago(front, 4);
    }
  }
}
