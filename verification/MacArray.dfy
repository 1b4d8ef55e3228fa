/** mac_array_8x8.v: eight independent INT8 dot-product lanes, two pipeline stages deep. */
module MacArray {
  import opened Bytes
  import opened Kernels

  type byte8 = s: seq<byte> | |s| == 8 witness Zeros(8)

  /** Eight rows of eight weights, and the eight activations they meet. */
  type rows8 = s: seq<byte8> | |s| == 8 witness var z: byte8 := Zeros(8); [z, z, z, z, z, z, z, z]

  datatype In = In(start: bool, loadB: bool, rows: rows8, b: byte8)

  type ints8 = s: seq<int> | |s| == 8 witness [0, 0, 0, 0, 0, 0, 0, 0]
  type pairs = s: seq<int> | |s| == 4 witness [0, 0, 0, 0]
  type pairs8 = s: seq<pairs> | |s| == 8 witness NoPairs()

  function NoPairs(): (p: seq<pairs>)
    ensures |p| == 8
  {
    var z: pairs := [0, 0, 0, 0];
    [z, z, z, z, z, z, z, z]
  }

  datatype Regs = Regs(ps: pairs8, v1: bool, acc: ints8, v2: bool, done: bool)

  function Mul(a: byte, b: byte): int {
    S8(a) * S8(b)
  }

  /** One stage-1 register: a pair of products. */
  function Pair(row: byte8, b: byte8, k: nat): int
    requires k < 4
  {
    Mul(row[2 * k], b[2 * k]) + Mul(row[2 * k + 1], b[2 * k + 1])
  }

  function PairRow(row: byte8, b: byte8): (p: pairs)
    ensures forall k :: 0 <= k < 4 ==> p[k] == Pair(row, b, k)
  {
    seq(4, k requires 0 <= k < 4 => Pair(row, b, k))
  }

  function Pairs(rows: rows8, b: byte8): (p: pairs8)
    ensures forall j :: 0 <= j < 8 ==> p[j] == PairRow(rows[j], b)
  {
    seq(8, j requires 0 <= j < 8 => PairRow(rows[j], b))
  }

  function PairSum(p: pairs): int {
    p[0] + p[1] + p[2] + p[3]
  }

  function Clear(): ints8 {
    [0, 0, 0, 0, 0, 0, 0, 0]
  }

  function Accumulated(acc: ints8, ps: pairs8): (r: ints8)
    ensures forall j :: 0 <= j < 8 ==> r[j] == Wrap32(acc[j] + PairSum(ps[j]))
  {
    seq(8, j requires 0 <= j < 8 => Wrap32(acc[j] + PairSum(ps[j])))
  }

  function Step(r: Regs, x: In): Regs {
    Regs(if x.loadB then Pairs(x.rows, x.b) else r.ps, x.loadB,
         if x.start then Clear() else if r.v1 then Accumulated(r.acc, r.ps) else r.acc,
         r.v1, r.v1)
  }

  function Reset(): Regs {
    Regs(NoPairs(), false, Clear(), false, false)
  }

  class Mac {
    var ps: pairs8
    var v1: bool
    var acc: ints8
    var v2: bool
    var done: bool

    function Now(): Regs
      reads this
    {
      Regs(ps, v1, acc, v2, done)
    }

    constructor ()
      ensures Now() == Reset()
    {
      ps, v1, acc, v2, done := NoPairs(), false, Clear(), false, false;
    }

    /** One rising edge of both stages. */
    method Clock(x: In)
      modifies this
      ensures Now() == Step(old(Now()), x)
    {
      hide Pairs, Accumulated;
      // stage 2
      var launched := v1;
      if x.start {
        acc := Clear();
      } else if launched {
        acc := Accumulated(acc, ps);
      }
      v2, done := launched, launched;
      // stage 1
      v1 := x.loadB;
      if x.loadB {
        ps := Pairs(x.rows, x.b);
      }
    }
  }

  // ----- the lanes as dot products -----

  /** One launched step. */
  datatype Load = Load(rows: rows8, b: byte8)

  /** Row j of the weights, and the activations, laid end to end over the steps. */
  function RowBytes(ls: seq<Load>, j: nat): (s: seq<byte>)
    requires j < 8
    ensures |s| == 8 * |ls|
  {
    if ls == [] then [] else RowBytes(ls[..|ls| - 1], j) + ls[|ls| - 1].rows[j]
  }

  function XBytes(ls: seq<Load>): (s: seq<byte>)
    ensures |s| == 8 * |ls|
  {
    if ls == [] then [] else XBytes(ls[..|ls| - 1]) + ls[|ls| - 1].b
  }

  /** The dot product of row j over the steps, in unbounded integers. */
  function Exact(ls: seq<Load>, j: nat): int
    requires j < 8
  {
    DotExact(RowBytes(ls, j), 0, XBytes(ls), 0, 8 * |ls|)
  }

  /** Extending both operands beyond n changes no partial sum. */
  lemma {:induction false} ExactPrefix(a: seq<byte>, c: seq<byte>, x: seq<byte>, y: seq<byte>, n: nat)
    requires n <= |a| && n <= |x|
    ensures DotExact(a + c, 0, x + y, 0, n) == DotExact(a, 0, x, 0, n)
  {
    hide S8;
    if n > 0 {
      ExactPrefix(a, c, x, y, n - 1);
    }
  }

  /** Eight more products add the four pairs. */
  lemma ExactNext(a: seq<byte>, row: byte8, x: seq<byte>, b: byte8)
    requires |a| == |x|
    ensures DotExact(a + row, 0, x + b, 0, |a| + 8) == DotExact(a, 0, x, 0, |a|) + PairSum(PairRow(row, b))
  {
    hide DotExact, Mul;
    var n := |a|;
    ExactPrefix(a, row, x, b, n);
    var s, t := a + row, x + b;
    ExactEight(s, t, n);
    assert forall k :: 0 <= k < 8 ==> s[n + k] == row[k] && t[n + k] == b[k];
  }

  lemma ExactEight(s: seq<byte>, t: seq<byte>, n: nat)
    requires |s| == |t| == n + 8
    ensures DotExact(s, 0, t, 0, n + 8) ==
            DotExact(s, 0, t, 0, n) + Mul(s[n], t[n]) + Mul(s[n + 1], t[n + 1]) + Mul(s[n + 2], t[n + 2]) +
            Mul(s[n + 3], t[n + 3]) + Mul(s[n + 4], t[n + 4]) + Mul(s[n + 5], t[n + 5]) +
            Mul(s[n + 6], t[n + 6]) + Mul(s[n + 7], t[n + 7])
  {
    hide S8;
    assert DotExact(s, 0, t, 0, n + 8) == DotExact(s, 0, t, 0, n + 7) + Mul(s[n + 7], t[n + 7]);
    assert DotExact(s, 0, t, 0, n + 7) == DotExact(s, 0, t, 0, n + 6) + Mul(s[n + 6], t[n + 6]);
    assert DotExact(s, 0, t, 0, n + 6) == DotExact(s, 0, t, 0, n + 5) + Mul(s[n + 5], t[n + 5]);
    assert DotExact(s, 0, t, 0, n + 5) == DotExact(s, 0, t, 0, n + 4) + Mul(s[n + 4], t[n + 4]);
    assert DotExact(s, 0, t, 0, n + 4) == DotExact(s, 0, t, 0, n + 3) + Mul(s[n + 3], t[n + 3]);
    assert DotExact(s, 0, t, 0, n + 3) == DotExact(s, 0, t, 0, n + 2) + Mul(s[n + 2], t[n + 2]);
    assert DotExact(s, 0, t, 0, n + 2) == DotExact(s, 0, t, 0, n + 1) + Mul(s[n + 1], t[n + 1]);
    assert DotExact(s, 0, t, 0, n + 1) == DotExact(s, 0, t, 0, n) + Mul(s[n], t[n]);
  }

  // ----- every run -----

  /** Steps launched since the last start, and whether the newest is still in stage 1. */
  datatype Log = Log(loads: seq<Load>)

  function NextLog(l: Log, x: In): Log {
    var since := if x.start then [] else l.loads;
    Log(if x.loadB then since + [Load(x.rows, x.b)] else since)
  }

  /** Lane j holds the wrapped dot product of every step but the one in flight, which stage 1 holds. */
  ghost predicate Inv(r: Regs, l: Log) {
    var n := |l.loads|;
    && (r.v1 ==> n > 0 && r.ps == Pairs(l.loads[n - 1].rows, l.loads[n - 1].b))
    && forall j :: 0 <= j < 8 ==> r.acc[j] == Wrap32(Exact(if r.v1 then l.loads[..n - 1] else l.loads, j))
  }

  lemma Commit(r: Regs, l: Log, j: nat)
    requires Inv(r, l) && r.v1 && j < 8
    ensures Wrap32(r.acc[j] + PairSum(r.ps[j])) == Wrap32(Exact(l.loads, j))
  {
    hide Wrap32, DotExact, PairSum, PairRow;
    var n := |l.loads|;
    var front, last := l.loads[..n - 1], l.loads[n - 1];
    ExactNext(RowBytes(front, j), last.rows[j], XBytes(front), last.b);
    WrapTwice(Exact(front, j), PairSum(r.ps[j]));
  }

  /** Lane j after one edge: cleared, grown by the step in flight, or kept. */
  lemma LaneNext(r: Regs, l: Log, x: In, j: nat)
    requires Inv(r, l) && j < 8
    ensures Step(r, x).acc[j] == Wrap32(Exact(if x.start then [] else l.loads, j))
  {
    hide Wrap32, DotExact, PairSum, Pairs, Exact;
    NoneYet(j);
    if !x.start && r.v1 {
      Commit(r, l, j);
    }
  }

  lemma StepInv(r: Regs, l: Log, x: In)
    requires Inv(r, l)
    ensures Inv(Step(r, x), NextLog(l, x))
  {
    hide Wrap32, DotExact, PairSum, Pairs, Exact, Accumulated, RowBytes, XBytes;
    var r', l' := Step(r, x), NextLog(l, x);
    var since := if x.start then [] else l.loads;
    assert (if r'.v1 then l'.loads[..|l'.loads| - 1] else l'.loads) == since;
    forall j | 0 <= j < 8
      ensures r'.acc[j] == Wrap32(Exact(since, j))
    {
      LaneNext(r, l, x, j);
    }
  }

  lemma NoneYet(j: nat)
    requires j < 8
    ensures Exact([], j) == 0 && Wrap32(0) == 0
  {
  }

  function Run(xs: seq<In>): (p: (Regs, Log))
    ensures Inv(p.0, p.1)
  {
    if xs == [] then
      NoLoads();
      (Reset(), Log([]))
    else
      var p, x := Run(xs[..|xs| - 1]), xs[|xs| - 1];
      StepInv(p.0, p.1, x);
      (Step(p.0, x), NextLog(p.1, x))
  }

  lemma NoLoads()
    ensures Inv(Reset(), Log([]))
  {
    forall j | 0 <= j < 8
      ensures Reset().acc[j] == Wrap32(Exact([], j))
    {
      NoneYet(j);
    }
  }

  /** Two cycles after the last step, however the steps were spaced and even where the last start overtook one, each
      lane holds its row's whole dot product over the steps since that start as `fc_acc` computes it, and up to 16383
      steps it has not wrapped. */
  lemma LaneIsDot(xs: seq<In>, x1: In, x2: In, j: nat)
    requires j < 8 && !x1.loadB && !x1.start && !x2.loadB && !x2.start
    ensures var ls := Run(xs).1.loads;
            var r := Run(xs + [x1] + [x2]).0;
            && r.acc[j] == DotAt(RowBytes(ls, j), 0, XBytes(ls), 0, 8 * |ls|)
            && (|ls| <= 16383 ==> r.acc[j] == Exact(ls, j))
            && !r.done
    ensures Run(xs + [x1]).0.done == (xs != [] && xs[|xs| - 1].loadB)
  {
    hide Wrap32, DotExact, DotAt, Inv, Exact, Pairs, Accumulated;
    assert (xs + [x1])[..|xs|] == xs && (xs + [x1] + [x2])[..|xs| + 1] == xs + [x1];
    var ls := Run(xs).1.loads;
    var r := Run(xs + [x1] + [x2]).0;
    assert !r.v1 && Run(xs + [x1] + [x2]).1 == Run(xs).1;
    LaneSum(r, Run(xs).1, j);
    DotIsWrapped(RowBytes(ls, j), XBytes(ls), 8 * |ls|);
    ExactIs(ls, j);
    if |ls| <= 16383 {
      DotNoWrap(RowBytes(ls, j), 0, XBytes(ls), 0, 8 * |ls|);
    }
  }

  lemma LaneSum(r: Regs, l: Log, j: nat)
    requires Inv(r, l) && !r.v1 && j < 8
    ensures r.acc[j] == Wrap32(Exact(l.loads, j))
  {
  }

  lemma ExactIs(ls: seq<Load>, j: nat)
    requires j < 8
    ensures Exact(ls, j) == DotExact(RowBytes(ls, j), 0, XBytes(ls), 0, 8 * |ls|)
  {
  }
}
