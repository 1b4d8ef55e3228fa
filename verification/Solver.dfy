/** solver.py: the dynamic program over (placement, host buckets, DDR2 buckets), its backtrack and its summary. */
module Solver {
  import opened CostModel
  import opened Placer
  import opened Capacity

  // ----- the tables -----

  /** Table `dp` after layer i. */
  ghost predicate Filled(q: Problem, i: nat, dp: array3<Cost>)
    requires ProblemOk(q)
    reads dp
  {
    && i < |q.layers| && dp.Length0 == |q.P| && dp.Length1 == H(q) && dp.Length2 == F(q)
    && forall j, h, f :: 0 <= j < |q.P| && 0 <= h < H(q) && 0 <= f < F(q) ==> dp[j, h, f] == Opt(q, i, j, h, f)
  }

  /** The argmin table after layer i: the previous placement at every finite entry of layers 1 to i. */
  ghost predicate Traced(q: Problem, i: nat, back: array4<nat>)
    requires ProblemOk(q)
    reads back
  {
    && i < |q.layers| && back.Length0 == |q.layers| && back.Length1 == |q.P| && back.Length2 == H(q)
    && back.Length3 == F(q)
    && forall k, j, h, f :: 0 < k <= i && 0 <= j < |q.P| && 0 <= h < H(q) && 0 <= f < F(q) && Opt(q, k, j, h, f).Ms? ==>
         back[k, j, h, f] == From(q, k, j, h, f)
  }

  /** `np.full((|P|, H, F), INF)`. */
  method AllInf(q: Problem) returns (dp: array3<Cost>)
    requires ProblemOk(q)
    ensures fresh(dp) && dp.Length0 == |q.P| && dp.Length1 == H(q) && dp.Length2 == F(q)
    ensures forall j, h, f :: 0 <= j < |q.P| && 0 <= h < H(q) && 0 <= f < F(q) ==> dp[j, h, f] == Inf
  {
    dp := new Cost[|q.P|, H(q), F(q)]((j, h, f) => Inf);
  }

  /** Layer 0: no boundary to pay. */
  method FirstLayer(q: Problem, back: array4<nat>) returns (dp: array3<Cost>)
    requires ProblemOk(q) && |q.layers| > 0
    requires back.Length0 == |q.layers| && back.Length1 == |q.P| && back.Length2 == H(q) && back.Length3 == F(q)
    modifies back
    ensures fresh(dp) && Filled(q, 0, dp)
  {
    hide PlaceCost, H, F, Dh, Df, Best;
    dp := AllInf(q);
    var j := 0;
    while j < |q.P|
      invariant j <= |q.P|
      invariant forall j', h, f :: 0 <= j' < |q.P| && 0 <= h < H(q) && 0 <= f < F(q) ==>
                  dp[j', h, f] == if j' < j then Opt(q, 0, j', h, f) else Inf
    {
      if PlaceCost(q, 0, j).Ms? {
        var dh, df := Dh(q, 0, j), Df(q, 0, j);
        if dh < H(q) && df < F(q) {
          dp[j, dh, df] := PlaceCost(q, 0, j);
          back[0, j, dh, df] := j;
        }
      }
      j := j + 1;
    }
  }

  /** One elementwise comparison: candidates from placement jp replace what they undercut. */
  method Improve(dp: array3<Cost>, jp: nat, price: real, best: array2<Cost>, from: array2<nat>)
    requires jp < dp.Length0 && best.Length0 == from.Length0 <= dp.Length1 && best.Length1 == from.Length1 <= dp.Length2
    modifies best, from
    ensures forall h, f :: 0 <= h < best.Length0 && 0 <= f < best.Length1 ==>
              var c := Plus(dp[jp, h, f], price);
              && best[h, f] == (if Less(c, old(best[h, f])) then c else old(best[h, f]))
              && from[h, f] == (if Less(c, old(best[h, f])) then jp else old(from[h, f]))
  {
    forall h, f | 0 <= h < best.Length0 && 0 <= f < best.Length1 {
      from[h, f] := if Less(Plus(dp[jp, h, f], price), best[h, f]) then jp else from[h, f];
    }
    forall h, f | 0 <= h < best.Length0 && 0 <= f < best.Length1 {
      best[h, f] := if Less(Plus(dp[jp, h, f], price), best[h, f]) then Plus(dp[jp, h, f], price) else best[h, f];
    }
  }

  /** The best candidate at every usage for layer i on placement j, the first placement winning ties. */
  method BestFrom(q: Problem, i: nat, j: nat, dp: array3<Cost>) returns (best: array2<Cost>, from: array2<nat>)
    requires ProblemOk(q) && 0 < i < |q.layers| && j < |q.P| && Filled(q, i - 1, dp)
    requires PlaceCost(q, i, j).Ms? && Dh(q, i, j) < H(q) && Df(q, i, j) < F(q)
    ensures fresh(best) && fresh(from)
    ensures best.Length0 == from.Length0 == H(q) - Dh(q, i, j) && best.Length1 == from.Length1 == F(q) - Df(q, i, j)
    ensures forall h, f :: 0 <= h < best.Length0 && 0 <= f < best.Length1 ==>
              best[h, f] == Best(q, i, j, h, f, |q.P|).0 && from[h, f] == Best(q, i, j, h, f, |q.P|).1
  {
    hide PlaceCost, H, F, Dh, Df, Opt, Cross, Less;
    var hs, fs := H(q) - Dh(q, i, j), F(q) - Df(q, i, j);
    best := new Cost[hs, fs]((h, f) => Inf);
    from := new nat[hs, fs]((h, f) => 0);
    var jp := 0;
    while jp < |q.P|
      invariant jp <= |q.P|
      invariant forall h, f :: 0 <= h < hs && 0 <= f < fs ==>
                  best[h, f] == Best(q, i, j, h, f, jp).0 && from[h, f] == Best(q, i, j, h, f, jp).1
    {
      Improve(dp, jp, PlaceCost(q, i, j).v + Cross(q, i, jp, j), best, from);
      jp := jp + 1;
    }
  }

  /** The part of layer i's tables that belongs to placement j. */
  ghost predicate Row(q: Problem, i: nat, j: nat, next: array3<Cost>, back: array4<nat>)
    requires ProblemOk(q)
    reads next, back
  {
    && 0 < i < |q.layers| && j < |q.P|
    && next.Length0 == |q.P| && next.Length1 == H(q) && next.Length2 == F(q)
    && back.Length0 == |q.layers| && back.Length1 == |q.P| && back.Length2 == H(q) && back.Length3 == F(q)
    && forall h, f :: 0 <= h < H(q) && 0 <= f < F(q) ==>
         next[j, h, f] == Opt(q, i, j, h, f) && (Opt(q, i, j, h, f).Ms? ==> back[i, j, h, f] == From(q, i, j, h, f))
  }

  /** Placement j of layer i: skipped when infeasible or too large, else written at its shifted usage. */
  method FillRow(q: Problem, i: nat, j: nat, dp: array3<Cost>, next: array3<Cost>, back: array4<nat>)
    requires ProblemOk(q) && 0 < i < |q.layers| && j < |q.P| && Filled(q, i - 1, dp) && dp != next
    requires next.Length0 == |q.P| && next.Length1 == H(q) && next.Length2 == F(q)
    requires back.Length0 == |q.layers| && back.Length1 == |q.P| && back.Length2 == H(q) && back.Length3 == F(q)
    requires forall h, f :: 0 <= h < H(q) && 0 <= f < F(q) ==> next[j, h, f] == Inf
    modifies next, back
    ensures Row(q, i, j, next, back)
    ensures forall j', h, f :: 0 <= j' < |q.P| && 0 <= h < H(q) && 0 <= f < F(q) && j' != j ==>
              next[j', h, f] == old(next[j', h, f])
    ensures forall k, j', h, f :: 0 <= k < |q.layers| && 0 <= j' < |q.P| && 0 <= h < H(q) && 0 <= f < F(q)
                                   && (k != i || j' != j) ==>
              back[k, j', h, f] == old(back[k, j', h, f])
  {
    hide PlaceCost, H, F, Dh, Df, Best;
    if PlaceCost(q, i, j).Inf? {
      return;
    }
    var dh, df := Dh(q, i, j), Df(q, i, j);
    if dh >= H(q) || df >= F(q) {
      return;
    }
    var best, from := BestFrom(q, i, j, dp);
    forall h, f | dh <= h < H(q) && df <= f < F(q) {
      next[j, h, f] := best[h - dh, f - df];
    }
    forall h, f | dh <= h < H(q) && df <= f < F(q) {
      back[i, j, h, f] := from[h - dh, f - df];
    }
  }

  /** Layer i from layer i - 1. */
  method NextLayer(q: Problem, i: nat, dp: array3<Cost>, back: array4<nat>) returns (next: array3<Cost>)
    requires ProblemOk(q) && 0 < i < |q.layers| && Filled(q, i - 1, dp) && Traced(q, i - 1, back)
    modifies back
    ensures fresh(next) && Filled(q, i, next) && Traced(q, i, back)
  {
    hide PlaceCost, H, F, Opt, From;
    next := AllInf(q);
    var j := 0;
    while j < |q.P|
      invariant j <= |q.P| && fresh(next) && Traced(q, i - 1, back)
      invariant forall j' :: 0 <= j' < j ==> Row(q, i, j', next, back)
      invariant forall j', h, f :: j <= j' < |q.P| && 0 <= h < H(q) && 0 <= f < F(q) ==> next[j', h, f] == Inf
    {
      label before:
      FillRow(q, i, j, dp, next, back);
      forall j' | 0 <= j' < j
        ensures Row(q, i, j', next, back)
      {
        assert old@before(Row(q, i, j', next, back));
      }
      j := j + 1;
    }
    forall j, h, f | 0 <= j < |q.P| && 0 <= h < H(q) && 0 <= f < F(q)
      ensures next[j, h, f] == Opt(q, i, j, h, f)
      ensures Opt(q, i, j, h, f).Ms? ==> back[i, j, h, f] == From(q, i, j, h, f)
    {
      assert Row(q, i, j, next, back);
    }
  }

  /** In the table's order, an entry comes before another. */
  predicate Before(j: nat, h: nat, f: nat, j': nat, h': nat, f': nat) {
    j < j' || (j == j' && (h < h' || (h == h' && f < f')))
  }

  /** Every entry before it is greater. */
  ghost predicate FirstLeast(dp: array3<Cost>, j: nat, h: nat, f: nat)
    reads dp
  {
    && j < dp.Length0 && h < dp.Length1 && f < dp.Length2
    && forall j', h', f' :: 0 <= j' < dp.Length0 && 0 <= h' < dp.Length1 && 0 <= f' < dp.Length2 ==>
         Before(j', h', f', j, h, f) ==> Less(dp[j, h, f], dp[j', h', f'])
  }

  /** `np.argmin` over the last table: the first of the least entries. */
  method ArgMin(q: Problem, dp: array3<Cost>) returns (j: nat, h: nat, f: nat)
    requires ProblemOk(q) && |q.layers| > 0 && |q.P| > 0 && Filled(q, |q.layers| - 1, dp)
    ensures j < |q.P| && h < H(q) && f < F(q)
    ensures forall j', h', f' :: 0 <= j' < |q.P| && 0 <= h' < H(q) && 0 <= f' < F(q)
              ==> !Less(dp[j', h', f'], dp[j, h, f])
    ensures FirstLeast(dp, j, h, f)
  {
    hide H, F, Filled;
    FilledSize(q, |q.layers| - 1, dp);
    j, h, f := 0, 0, 0;
    for a := 0 to |q.P|
      invariant j < |q.P| && h < H(q) && f < F(q)
      invariant forall j', h', f' :: 0 <= j' < a && 0 <= h' < H(q) && 0 <= f' < F(q)
                  ==> !Less(dp[j', h', f'], dp[j, h, f])
      invariant FirstLeast(dp, j, h, f)
    {
      ghost var least := dp[j, h, f];
      for b := 0 to H(q)
        invariant j < |q.P| && h < H(q) && f < F(q) && !Less(least, dp[j, h, f])
        invariant forall h', f' :: 0 <= h' < b && 0 <= f' < F(q) ==> !Less(dp[a, h', f'], dp[j, h, f])
        invariant FirstLeast(dp, j, h, f)
      {
        for c := 0 to F(q)
          invariant j < |q.P| && h < H(q) && f < F(q) && !Less(least, dp[j, h, f])
          invariant forall h', f' :: 0 <= h' < b && 0 <= f' < F(q) ==> !Less(dp[a, h', f'], dp[j, h, f])
          invariant forall f' :: 0 <= f' < c ==> !Less(dp[a, b, f'], dp[j, h, f])
          invariant FirstLeast(dp, j, h, f)
        {
          if Less(dp[a, b, c], dp[j, h, f]) {
            j, h, f := a, b, c;
          }
        }
      }
    }
  }

  lemma FilledSize(q: Problem, i: nat, dp: array3<Cost>)
    requires ProblemOk(q) && Filled(q, i, dp)
    ensures dp.Length0 == |q.P| && dp.Length1 == H(q) && dp.Length2 == F(q)
  {
  }

  /** The backtrack: usage falls by each layer's own shift and never goes below zero. */
  method Backtrack(q: Problem, back: array4<nat>, jEnd: nat, hEnd: nat, fEnd: nat) returns (a: Plan)
    requires ProblemOk(q) && |q.layers| > 0 && Traced(q, |q.layers| - 1, back)
    requires jEnd < |q.P| && hEnd < H(q) && fEnd < F(q) && Opt(q, |q.layers| - 1, jEnd, hEnd, fEnd).Ms?
    ensures a == Path(q, |q.layers| - 1, jEnd, hEnd, fEnd)
  {
    hide PlaceCost, H, F, Best, Opt, Path, Dh, Df, From;
    var i := |q.layers| - 1;
    var j: nat, h: nat, f: nat := jEnd, hEnd, fEnd;
    a := [j];
    while i > 0
      invariant 0 <= i < |q.layers| && j < |q.P| && h < H(q) && f < F(q) && Opt(q, i, j, h, f).Ms? && a != []
                && a[0] == j
      invariant Path(q, i, j, h, f) + a[1..] == Path(q, |q.layers| - 1, jEnd, hEnd, fEnd)
      decreases i
    {
      var jp := back[i, j, h, f];
      var dh, df := Dh(q, i, j), Df(q, i, j);
      PathStep(q, i, j, h, f);
      assert (Path(q, i - 1, jp, h - dh, f - df) + [j]) + a[1..] == Path(q, i - 1, jp, h - dh, f - df) + a;
      i, h, f, j := i - 1, h - dh, f - df, jp;
      a := [j] + a;
    }
    PathStart(q, j, h, f);
  }

  lemma PathStep(q: Problem, i: nat, j: nat, h: nat, f: nat)
    requires ProblemOk(q) && 0 < i < |q.layers| && j < |q.P| && Opt(q, i, j, h, f).Ms?
    ensures var dh, df, jp := Dh(q, i, j), Df(q, i, j), From(q, i, j, h, f);
            && dh <= h && df <= f && Opt(q, i - 1, jp, h - dh, f - df).Ms?
            && Path(q, i, j, h, f) == Path(q, i - 1, jp, h - dh, f - df) + [j]
  {
    hide PlaceCost, Best, Dh, Df;
    BestIs(q, i, j, h - Dh(q, i, j), f - Df(q, i, j), |q.P|);
  }

  lemma PathStart(q: Problem, j: nat, h: nat, f: nat)
    requires ProblemOk(q) && |q.layers| > 0 && j < |q.P| && Opt(q, 0, j, h, f).Ms?
    ensures Path(q, 0, j, h, f) == [j]
  {
  }

  // ----- the summary -----

  datatype Breakdown = Breakdown(gpuCompute: real, fpgaCompute: real, poolFault: real, weightStream: real,
    dispatch: real,
                                 activationXfer: real)

  function Total(b: Breakdown): real {
    b.gpuCompute + b.fpgaCompute + b.poolFault + b.weightStream + b.dispatch + b.activationXfer
  }

  datatype Decision = Decision(placement: Placement, costMs: real, boundaryMs: real)

  datatype Result = Result(assignments: seq<Placement>, totalMs: real, hostBytes: nat, ddrBytes: nat, transfers: nat,
                           fpgaTraffic: nat, poolFaultBytes: nat, activationBytes: nat, decisions: seq<Decision>,
                           breakdown: Breakdown)

  datatype Counts = Counts(host: nat, poolFault: nat, fpgaTraffic: nat, transfers: nat, activation: nat)

  datatype Outcome = Solved(plan: Plan, result: Result) | NoFeasiblePlacement | BadInput

  function DecisionCost(ds: seq<Decision>): real {
    if ds == [] then 0.0 else DecisionCost(ds[..|ds| - 1]) + ds[|ds| - 1].costMs + ds[|ds| - 1].boundaryMs
  }

  /** Weight bytes of the layers of a plan placed on p. */
  function BytesOn(q: Problem, a: Plan, p: Placement): nat
    requires ProblemOk(q) && Legal(q, a)
  {
    if a == [] then 0 else BytesOn(q, a[..|a| - 1], p) + (if q.P[a[|a| - 1]] == p then q.layers[|a| - 1].weightBytes
      else 0)
  }

  predicate CrossesAt(q: Problem, a: Plan, i: nat)
    requires ProblemOk(q) && Legal(q, a) && i < |a|
  {
    i > 0 && (q.P[a[i - 1]] == Fpga) != (q.P[a[i]] == Fpga)
  }

  /** The layers of a plan before which computing moves to the FPGA or away from it. */
  function Crossings(q: Problem, a: Plan): (s: set<nat>)
    requires ProblemOk(q) && Legal(q, a)
  {
    set i: nat | i < |a| && CrossesAt(q, a, i)
  }

  lemma CrossingsNext(q: Problem, a: Plan)
    requires ProblemOk(q) && Legal(q, a) && a != []
    ensures |Crossings(q, a)| == |Crossings(q, a[..|a| - 1])| + if CrossesAt(q, a, |a| - 1) then 1 else 0
  {
    hide Legal;
    var front, i := a[..|a| - 1], |a| - 1;
    LegalPrefix(q, a, i);
    LegalAt(q, a, i);
    forall k: nat | k < i
      ensures CrossesAt(q, a, k) == CrossesAt(q, front, k)
    {
      CrossesSame(q, a, i, k);
    }
    var grown := if CrossesAt(q, a, i) then Crossings(q, front) + {i} else Crossings(q, front);
    assert Crossings(q, a) == grown;
  }

  lemma CrossesSame(q: Problem, a: Plan, i: nat, k: nat)
    requires ProblemOk(q) && Legal(q, a) && k < i <= |a|
    ensures Legal(q, a[..i]) && CrossesAt(q, a, k) == CrossesAt(q, a[..i], k)
  {
    hide PlaceCost;
  }

  lemma LegalPrefix(q: Problem, a: Plan, i: nat)
    requires ProblemOk(q) && Legal(q, a) && i <= |a|
    ensures Legal(q, a[..i])
  {
  }

  lemma LegalAt(q: Problem, a: Plan, i: nat)
    requires ProblemOk(q) && Legal(q, a) && i < |a|
    ensures |a| <= |q.layers| && a[i] < |q.P| && PlaceCost(q, i, a[i]).Ms?
  {
  }

  /** Activation bytes that cross the link. */
  function ActivationBytes(q: Problem, a: Plan): nat
    requires ProblemOk(q) && Legal(q, a)
  {
    if a == [] then 0
    else ActivationBytes(q, a[..|a| - 1]) +
         (if CrossesAt(q, a, |a| - 1) then q.layers[|a| - 2].outputTensorBytes else 0)
  }

  /** The largest layer a plan keeps in DDR2, 0 if none: the peak when weights are streamed. */
  function Peak(q: Problem, a: Plan): (m: nat)
    requires ProblemOk(q) && Legal(q, a)
    ensures forall i :: 0 <= i < |a| && q.P[a[i]] != Gpu ==> q.layers[i].weightBytes <= m
    ensures m == 0 || exists i :: 0 <= i < |a| && q.P[a[i]] != Gpu && q.layers[i].weightBytes == m
  {
    if a == [] then 0
    else
      var m, w := Peak(q, a[..|a| - 1]), q.layers[|a| - 1].weightBytes;
      if q.P[a[|a| - 1]] != Gpu && w > m then w else m
  }

  /** Weight bytes of all the layers a plan places. */
  function PlanBytes(q: Problem, a: Plan): nat
    requires |a| <= |q.layers|
  {
    if a == [] then 0 else PlanBytes(q, a[..|a| - 1]) + q.layers[|a| - 1].weightBytes
  }

  /** Every weight byte is counted once: on the host, behind the pool, or with the FPGA; the last two share DDR2. */
  lemma {:induction false} BytesConserved(q: Problem, a: Plan)
    requires ProblemOk(q) && Legal(q, a)
    ensures HostBytes(q, a) == BytesOn(q, a, Gpu) && DdrBytes(q, a) == BytesOn(q, a, Pool) + BytesOn(q, a, Fpga)
    ensures |a| <= |q.layers| && HostBytes(q, a) + DdrBytes(q, a) == PlanBytes(q, a)
    decreases |a|
  {
    hide PlaceCost;
    if a != [] {
      BytesConserved(q, a[..|a| - 1]);
    }
  }

  function Sum(s: seq<nat>): nat {
    if s == [] then 0 else Sum(s[..|s| - 1]) + s[|s| - 1]
  }

  function Max(s: seq<nat>): nat {
    if s == [] then 0
    else
      var m := Max(s[..|s| - 1]);
      if s[|s| - 1] > m then s[|s| - 1] else m
  }

  /** The plan by placement instead of index. */
  function Named(q: Problem, a: Plan): (ps: seq<Placement>)
    requires ProblemOk(q) && Legal(q, a)
    ensures |ps| == |a| && forall i :: 0 <= i < |a| ==> ps[i] == q.P[a[i]] && Feasible(q.hw, q.layers[i], ps[i])
  {
    assert forall i :: 0 <= i < |a| ==> PlaceCost(q, i, a[i]).Ms?;
    seq(|a|, i requires 0 <= i < |a| => q.P[a[i]])
  }

  /** What layer i of a plan spends, by kind of work: where it runs decides which unit computes, what its weights cost,
      and whether the layer before sends its output over the link. */
  function LayerShares(q: Problem, a: Plan, i: nat): Breakdown
    requires ProblemOk(q) && Legal(q, a) && i < |a|
  {
    var layer, p := q.layers[i], q.P[a[i]];
    Breakdown(if p == Fpga then 0.0 else GpuComputeMs(q.hw, layer),
              if p == Fpga then FpgaComputeMs(q.hw, layer) else 0.0,
              if p == Pool then PoolWeightFaultMs(q.hw, layer) else 0.0,
              if p == Fpga then NmcWeightStreamMs(q.hw, layer) else 0.0,
              if p == Fpga then NmcDispatchMs(q.hw) else 0.0,
              if CrossesAt(q, a, i) then ActivationTransferMs(q.hw, q.layers[i - 1].outputTensorBytes) else 0.0)
  }

  function AddShares(b: Breakdown, c: Breakdown): Breakdown {
    Breakdown(b.gpuCompute + c.gpuCompute, b.fpgaCompute + c.fpgaCompute, b.poolFault + c.poolFault,
              b.weightStream + c.weightStream, b.dispatch + c.dispatch, b.activationXfer + c.activationXfer)
  }

  const NO_SHARES := Breakdown(0.0, 0.0, 0.0, 0.0, 0.0, 0.0)

  function Shares(q: Problem, a: Plan): Breakdown
    requires ProblemOk(q) && Legal(q, a)
  {
    if a == [] then NO_SHARES else AddShares(Shares(q, a[..|a| - 1]), LayerShares(q, a, |a| - 1))
  }

  /** What is recorded for layer i. */
  function DecisionOf(q: Problem, a: Plan, i: nat): Decision
    requires ProblemOk(q) && Legal(q, a) && i < |a|
  {
    var b := LayerShares(q, a, i);
    Decision(q.P[a[i]], b.gpuCompute + b.fpgaCompute + b.poolFault + b.weightStream + b.dispatch, b.activationXfer)
  }

  predicate Decided(q: Problem, a: Plan, ds: seq<Decision>)
    requires ProblemOk(q) && Legal(q, a)
  {
    |ds| == |a| && forall i :: 0 <= i < |a| ==> ds[i] == DecisionOf(q, a, i)
  }

  /** Everything a result reports is what its plan says it is. */
  ghost predicate Reports(q: Problem, a: Plan, r: Result)
    requires ProblemOk(q) && Legal(q, a)
  {
    && r.assignments == Named(q, a)
    && r.totalMs == Total(r.breakdown) == DecisionCost(r.decisions) == PlanCost(q, a)
    && r.breakdown == Shares(q, a) && Decided(q, a, r.decisions)
    && r.hostBytes == HostBytes(q, a) && r.poolFaultBytes == BytesOn(q, a, Pool)
    && r.fpgaTraffic == (if q.hw.fpgaWeightsResident then 0 else BytesOn(q, a, Fpga))
    && r.ddrBytes == (if q.hw.fpgaWeightsResident then DdrBytes(q, a) else Peak(q, a))
    && r.transfers == |Crossings(q, a)| && r.activationBytes == ActivationBytes(q, a)
  }

  /** The costs the loop of `_summarise` has accumulated over a plan's first layers. */
  ghost predicate CostsSummed(q: Problem, a: Plan, b: Breakdown, ds: seq<Decision>)
    requires ProblemOk(q) && Legal(q, a)
  {
    Total(b) == DecisionCost(ds) == PlanCost(q, a) && b == Shares(q, a) && Decided(q, a, ds)
  }

  /** The bytes and counts it has accumulated. */
  ghost predicate BytesSummed(q: Problem, a: Plan, r: Counts, ddr: seq<nat>)
    requires ProblemOk(q) && Legal(q, a)
  {
    && r.host == HostBytes(q, a) && r.poolFault == BytesOn(q, a, Pool)
    && r.fpgaTraffic == (if q.hw.fpgaWeightsResident then 0 else BytesOn(q, a, Fpga))
    && Sum(ddr) == DdrBytes(q, a) && Max(ddr) == Peak(q, a)
    && r.transfers == |Crossings(q, a)| && r.activation == ActivationBytes(q, a)
  }

  lemma Prefixes(q: Problem, a: Plan, i: nat)
    requires ProblemOk(q) && Legal(q, a) && i < |a|
    ensures |a| <= |q.layers| && a[i] < |q.P| && PlaceCost(q, i, a[i]).Ms? && (i > 0 ==> a[i - 1] < |q.P|)
    ensures Legal(q, a[..i]) && Legal(q, a[..i + 1])
    ensures |a[..i + 1]| == i + 1 && a[..i + 1][..i] == a[..i] && a[..i + 1][i] == a[i]
            && (i > 0 ==> a[..i + 1][i - 1] == a[i - 1])
  {
  }

  /** One layer more costs its placement and its boundary. */
  lemma CostNext(q: Problem, a: Plan, i: nat)
    requires ProblemOk(q) && Legal(q, a) && i < |a| <= |q.layers| && a[i] < |q.P| && (i > 0 ==> a[i - 1] < |q.P|)
    requires PlaceCost(q, i, a[i]).Ms? && Legal(q, a[..i]) && Legal(q, a[..i + 1])
    ensures PlanCost(q, a[..i + 1]) ==
            PlanCost(q, a[..i]) + PlaceCost(q, i, a[i]).v + if i > 0 then Cross(q, i, a[i - 1], a[i]) else 0.0
  {
    hide Legal, PlaceCost, Cross;
    Prefixes(q, a, i);
  }

  /** One layer more in the shares and the decisions. */
  lemma SharesNext(q: Problem, a: Plan, i: nat)
    requires ProblemOk(q) && Legal(q, a) && i < |a| && Legal(q, a[..i]) && Legal(q, a[..i + 1])
    ensures Shares(q, a[..i + 1]) == AddShares(Shares(q, a[..i]), LayerShares(q, a, i))
    ensures forall k :: 0 <= k <= i ==> DecisionOf(q, a[..i + 1], k) == DecisionOf(q, a, k)
    ensures forall k :: 0 <= k < i ==> DecisionOf(q, a[..i], k) == DecisionOf(q, a, k)
  {
    hide Legal, PlaceCost, AddShares;
    assert a[..i + 1][..i] == a[..i];
    LayerSharesSame(q, a, i + 1, i);
    forall k | 0 <= k <= i
      ensures DecisionOf(q, a[..i + 1], k) == DecisionOf(q, a, k)
    {
      LayerSharesSame(q, a, i + 1, k);
    }
    forall k | 0 <= k < i
      ensures DecisionOf(q, a[..i], k) == DecisionOf(q, a, k)
    {
      LayerSharesSame(q, a, i, k);
    }
  }

  lemma LayerSharesSame(q: Problem, a: Plan, n: nat, k: nat)
    requires ProblemOk(q) && Legal(q, a) && k < n <= |a|
    ensures Legal(q, a[..n]) && LayerShares(q, a[..n], k) == LayerShares(q, a, k) && a[..n][k] == a[k]
  {
    hide PlaceCost, GpuComputeMs, FpgaComputeMs, PoolWeightFaultMs, NmcWeightStreamMs, NmcDispatchMs,
         ActivationTransferMs;
  }

  /** The cost of a layer's placement is the sum of its shares, and its boundary the activation's. */
  lemma SharesCost(q: Problem, a: Plan, i: nat)
    requires ProblemOk(q) && Legal(q, a) && i < |a| <= |q.layers| && a[i] < |q.P| && PlaceCost(q, i, a[i]).Ms?
    requires i > 0 ==> a[i - 1] < |q.P|
    ensures var d := DecisionOf(q, a, i);
            && PlaceCost(q, i, a[i]).v == d.costMs
            && (if i > 0 then Cross(q, i, a[i - 1], a[i]) else 0.0) == d.boundaryMs
  {
    hide Legal, Feasible, GpuComputeMs, FpgaComputeMs, PoolWeightFaultMs, NmcWeightStreamMs, NmcDispatchMs,
         ActivationTransferMs;
  }

  lemma DecisionNext(ds: seq<Decision>, d: Decision)
    ensures DecisionCost(ds + [d]) == DecisionCost(ds) + d.costMs + d.boundaryMs
  {
    assert (ds + [d])[..|ds|] == ds;
  }

  /** One layer more in every byte total. */
  lemma BytesNext(q: Problem, a: Plan, i: nat)
    requires ProblemOk(q) && Legal(q, a) && i < |a| <= |q.layers| && a[i] < |q.P|
    requires Legal(q, a[..i]) && Legal(q, a[..i + 1])
    ensures var w, p, b, c := q.layers[i].weightBytes, q.P[a[i]], a[..i], a[..i + 1];
            && HostBytes(q, c) == HostBytes(q, b) + (if p == Gpu then w else 0)
            && DdrBytes(q, c) == DdrBytes(q, b) + (if p != Gpu then w else 0)
            && BytesOn(q, c, Pool) == BytesOn(q, b, Pool) + (if p == Pool then w else 0)
            && BytesOn(q, c, Fpga) == BytesOn(q, b, Fpga) + (if p == Fpga then w else 0)
            && Peak(q, c) == (if p != Gpu && w > Peak(q, b) then w else Peak(q, b))
  {
    hide Legal, PlaceCost;
    assert a[..i + 1][..i] == a[..i];
  }

  lemma SumNext(s: seq<nat>, w: nat)
    ensures Sum(s + [w]) == Sum(s) + w && Max(s + [w]) == if w > Max(s) then w else Max(s)
  {
    assert (s + [w])[..|s|] == s;
  }

  /** One layer more in the crossing counts. */
  lemma TransfersNext(q: Problem, a: Plan, i: nat)
    requires ProblemOk(q) && Legal(q, a) && i < |a| <= |q.layers| && a[i] < |q.P| && (i > 0 ==> a[i - 1] < |q.P|)
    requires Legal(q, a[..i]) && Legal(q, a[..i + 1])
    ensures var crosses := i > 0 && (q.P[a[i - 1]] == Fpga) != (q.P[a[i]] == Fpga);
            && |Crossings(q, a[..i + 1])| == |Crossings(q, a[..i])| + (if crosses then 1 else 0)
            && ActivationBytes(q, a[..i + 1]) == ActivationBytes(q, a[..i]) + (if crosses
                then q.layers[i - 1].outputTensorBytes else 0)
  {
    hide Legal, Crossings;
    CrossingsNext(q, a[..i + 1]);
    Prefixes(q, a, i);
  }

  /** The costs of one layer added to the breakdown. */
  method AddCosts(q: Problem, a: Plan, i: nat, b0: Breakdown, ds0: seq<Decision>) returns (b: Breakdown,
          ds: seq<Decision>)
    requires ProblemOk(q) && Legal(q, a) && i < |a| && Legal(q, a[..i]) && CostsSummed(q, a[..i], b0, ds0)
    ensures Legal(q, a[..i + 1]) && CostsSummed(q, a[..i + 1], b, ds)
  {
    hide Feasible, Legal, GpuComputeMs, FpgaComputeMs, PoolWeightFaultMs, NmcWeightStreamMs, NmcDispatchMs, Cross,
         PlanCost, DecisionCost, Shares, ActivationTransferMs, PlaceCost;
    Prefixes(q, a, i);
    CostNext(q, a, i);
    SharesNext(q, a, i);
    SharesCost(q, a, i);
    var layer, p := q.layers[i], q.P[a[i]];
    var boundary := if i > 0 then Cross(q, i, a[i - 1], a[i]) else 0.0;
    b := b0.(activationXfer := b0.activationXfer + boundary);
    match p {
      case Gpu =>
        b := b.(gpuCompute := b.gpuCompute + GpuComputeMs(q.hw, layer));
      case Pool =>
        b := b.(poolFault := b.poolFault + PoolWeightFaultMs(q.hw, layer),
          gpuCompute := b.gpuCompute + GpuComputeMs(q.hw, layer));
      case Fpga =>
        b := b.(weightStream := b.weightStream + NmcWeightStreamMs(q.hw, layer),
          dispatch := b.dispatch + NmcDispatchMs(q.hw),
                fpgaCompute := b.fpgaCompute + FpgaComputeMs(q.hw, layer));
    }
    var d := Decision(p, PlaceCost(q, i, a[i]).v, boundary);
    DecisionNext(ds0, d);
    ds := ds0 + [d];
    assert d == DecisionOf(q, a, i) && b == AddShares(b0, LayerShares(q, a, i));
  }

  /** The bytes of one layer added to the totals. */
  method AddBytes(q: Problem, a: Plan, i: nat, r0: Counts, ddr0: seq<nat>) returns (r: Counts, ddr: seq<nat>)
    requires ProblemOk(q) && Legal(q, a) && i < |a| && Legal(q, a[..i]) && BytesSummed(q, a[..i], r0, ddr0)
    ensures Legal(q, a[..i + 1]) && BytesSummed(q, a[..i + 1], r, ddr)
  {
    hide Legal, PlaceCost, Crossings, HostBytes, DdrBytes, BytesOn, Peak, Sum, Max, ActivationBytes;
    Prefixes(q, a, i);
    BytesNext(q, a, i);
    TransfersNext(q, a, i);
    SumNext(ddr0, q.layers[i].weightBytes);
    r, ddr := r0, ddr0;
    var w, p := q.layers[i].weightBytes, q.P[a[i]];
    if i > 0 && LocationOf(q.P[a[i - 1]]) != LocationOf(p) {
      r := r.(transfers := r.transfers + 1, activation := r.activation + q.layers[i - 1].outputTensorBytes);
    }
    match p {
      case Gpu =>
        r := r.(host := r.host + w);
      case Pool =>
        r := r.(poolFault := r.poolFault + w);
        ddr := ddr + [w];
      case Fpga =>
        r := r.(fpgaTraffic := if q.hw.fpgaWeightsResident then r.fpgaTraffic else r.fpgaTraffic + w);
        ddr := ddr + [w];
    }
  }

  /** `_summarise`. */
  method Summarise(q: Problem, a: Plan, total: real) returns (r: Result)
    requires ProblemOk(q) && Legal(q, a) && total == PlanCost(q, a)
    ensures Reports(q, a, r)
    ensures |a| <= |q.layers| && r.hostBytes + r.poolFaultBytes + BytesOn(q, a, Fpga) == PlanBytes(q, a)
    ensures q.hw.fpgaWeightsResident ==> r.hostBytes + r.ddrBytes == PlanBytes(q, a)
    ensures !q.hw.fpgaWeightsResident ==> r.hostBytes + r.poolFaultBytes + r.fpgaTraffic == PlanBytes(q, a)
  {
    hide Legal, Crossings, PlanCost, DecisionCost, HostBytes, DdrBytes, BytesOn, Peak, Sum, Max, ActivationBytes,
         PlanBytes;
    BytesConserved(q, a);
    var b, ds := NO_SHARES, [];
    var c := Counts(0, 0, 0, 0, 0);
    var ddr: seq<nat> := [];
    var i := 0;
    SummedNone(q);
    assert a[..0] == [];
    while i < |a|
      invariant i <= |a| && Legal(q, a[..i]) && CostsSummed(q, a[..i], b, ds) && BytesSummed(q, a[..i], c, ddr)
    {
      b, ds := AddCosts(q, a, i, b, ds);
      c, ddr := AddBytes(q, a, i, c, ddr);
      i := i + 1;
    }
    assert a[..i] == a;
    r := Result(Named(q, a), total, c.host, if q.hw.fpgaWeightsResident then Sum(ddr) else Max(ddr), c.transfers,
                c.fpgaTraffic, c.poolFault, c.activation, ds, b);
  }

  lemma SummedNone(q: Problem)
    requires ProblemOk(q)
    ensures Legal(q, []) && BytesSummed(q, [], Counts(0, 0, 0, 0, 0), [])
    ensures CostsSummed(q, [], NO_SHARES, [])
  {
    assert Crossings(q, []) == {};
  }

  // ----- the solver -----

  /** Plan a is the one followed back from entry (j, h, f) of the last table, and every entry before that one is
      greater. */
  ghost predicate FromEntry(q: Problem, a: Plan, j: nat, h: nat, f: nat)
    requires ProblemOk(q)
  {
    && |q.layers| > 0 && j < |q.P| && h < H(q) && f < F(q) && Opt(q, |q.layers| - 1, j, h, f).Ms?
    && a == Path(q, |q.layers| - 1, j, h, f)
    && forall j', h', f' :: 0 <= j' < |q.P| && 0 <= h' < H(q) && 0 <= f' < F(q) && Before(j', h', f', j, h, f) ==>
         Less(Opt(q, |q.layers| - 1, j, h, f), Opt(q, |q.layers| - 1, j', h', f'))
  }

  /** Which of several optimal plans is returned: the one of the first least entry, and on the way back the first
      predecessor of each (`BestIs`). */
  ghost predicate First(q: Problem, a: Plan)
    requires ProblemOk(q)
  {
    exists j, h, f :: FromEntry(q, a, j, h, f)
  }

  lemma FirstIs(q: Problem, dp: array3<Cost>, j: nat, h: nat, f: nat)
    requires ProblemOk(q) && |q.layers| > 0 && Filled(q, |q.layers| - 1, dp) && FirstLeast(dp, j, h, f)
    requires dp[j, h, f].Ms?
    ensures j < |q.P| && h < H(q) && f < F(q) && Opt(q, |q.layers| - 1, j, h, f).Ms?
    ensures First(q, Path(q, |q.layers| - 1, j, h, f))
  {
    hide Opt, Path, H, F, Less, Before;
    assert FromEntry(q, Path(q, |q.layers| - 1, j, h, f), j, h, f);
  }

  /** `_solve` on one placement problem. */
  method Solve(q: Problem) returns (o: Outcome)
    requires ProblemOk(q)
    ensures o.BadInput? <==> q.layers == [] || q.P == []
    ensures o.Solved? ==> Optimal(q, o.plan) && First(q, o.plan) && Reports(q, o.plan, o.result)
    ensures o.NoFeasiblePlacement? ==> forall b :: !Admissible(q, b)
  {
    hide H, F, Opt, Path, Less, Optimal, Reports, Legal, Traced, First, FirstLeast;
    if q.layers == [] || q.P == [] {
      return BadInput;
    }
    var n := |q.layers|;
    var back := new nat[n, |q.P|, H(q), F(q)]((i, j, h, f) => 0);
    var dp := FirstLayer(q, back);
    TracedNone(q, back);
    for i := 1 to n
      invariant Filled(q, i - 1, dp) && Traced(q, i - 1, back) && fresh(back)
    {
      dp := NextLayer(q, i, dp, back);
    }
    var j, h, f := ArgMin(q, dp);
    Least(q, dp, j, h, f);
    if dp[j, h, f].Inf? {
      return NoFeasiblePlacement;
    }
    var a := Backtrack(q, back, j, h, f);
    FirstIs(q, dp, j, h, f);
    OptimalLegal(q, a);
    var r := Summarise(q, a, dp[j, h, f].v);
    o := Solved(a, r);
  }

  lemma TracedNone(q: Problem, back: array4<nat>)
    requires ProblemOk(q) && |q.layers| > 0
    requires back.Length0 == |q.layers| && back.Length1 == |q.P| && back.Length2 == H(q) && back.Length3 == F(q)
    ensures Traced(q, 0, back)
  {
  }

  lemma OptimalLegal(q: Problem, a: Plan)
    requires ProblemOk(q) && Optimal(q, a)
    ensures Legal(q, a)
  {
  }

  lemma Least(q: Problem, dp: array3<Cost>, j: nat, h: nat, f: nat)
    requires ProblemOk(q) && |q.layers| > 0 && Filled(q, |q.layers| - 1, dp) && j < |q.P| && h < H(q) && f < F(q)
    requires forall j', h', f' :: 0 <= j' < |q.P| && 0 <= h' < H(q) && 0 <= f' < F(q)
               ==> !Less(dp[j', h', f'], dp[j, h, f])
    ensures dp[j, h, f] == Opt(q, |q.layers| - 1, j, h, f)
    ensures if dp[j, h, f].Ms?
            then Optimal(q, Path(q, |q.layers| - 1, j, h, f))
              && PlanCost(q, Path(q, |q.layers| - 1, j, h, f)) == dp[j, h, f].v
            else forall b :: !Admissible(q, b)
  {
    hide H, F, Opt, Path, Less, Optimal, PlanCost, Admissible;
    forall j', h', f' | 0 <= j' < |q.P| && 0 <= h' < H(q) && 0 <= f' < F(q)
      ensures NotBelow(q, j', h', f', dp[j, h, f])
    {
      assert dp[j', h', f'] == Opt(q, |q.layers| - 1, j', h', f');
    }
    LeastEntry(q, j, h, f, dp[j, h, f]);
  }

  /** The place of a placement in the solver's order: the host first, the FPGA last. */
  function Turn(p: Placement): nat {
    match p
    case Gpu => 0
    case Pool => 1
    case Fpga => 2
  }

  predicate InTurn(ps: seq<Placement>) {
    forall i, j :: 0 <= i < j < |ps| ==> Turn(ps[i]) < Turn(ps[j])
  }

  /** The placements that are allowed, in solver order. */
  function Allowed(ps: seq<Placement>, allowed: set<Placement>): (r: seq<Placement>)
    ensures forall p :: p in r <==> p in ps && p in allowed
    ensures InTurn(ps) ==> InTurn(r)
  {
    if ps == [] then []
    else
      var rest := Allowed(ps[1..], allowed);
      assert InTurn(ps) ==> InTurn(ps[1..]) && forall k :: 0 <= k < |rest| ==> Turn(ps[0]) < Turn(rest[k]) by {
        assert forall k :: 0 <= k < |rest| ==> rest[k] in rest;
      }
      (if ps[0] in allowed then [ps[0]] else []) + rest
  }

  lemma EveryPlacement()
    ensures InTurn(PLACEMENTS) && forall p: Placement :: p in PLACEMENTS
  {
    forall p: Placement
      ensures p in PLACEMENTS
    {
      match p
      case Gpu => assert PLACEMENTS[0] == Gpu;
      case Pool => assert PLACEMENTS[1] == Pool;
      case Fpga => assert PLACEMENTS[2] == Fpga;
    }
  }

  /** The problem `_solve` sets up. */
  function Setup(layers: seq<LayerInfo>, hw: Hw, allowed: set<Placement>, bucket: Option<nat>,
          maxStates: nat): (q: Problem)
    requires HwOk(hw) && maxStates > 0 && bucket != Some(0)
    ensures ProblemOk(q) && q.layers == layers && q.hw == hw
    ensures InTurn(q.P) && forall p :: p in q.P <==> p in allowed
  {
    assert InTurn(PLACEMENTS) && forall p: Placement :: p in PLACEMENTS by { EveryPlacement(); }
    var c := ChooseBuckets(hw.hostWeightBudget, hw.fpgaDdr2Capacity, hw.fpgaWeightsResident, bucket, maxStates);
    Problem(layers, hw, Allowed(PLACEMENTS, allowed), c.0, c.1)
  }

  /** The cost model object, whose parameters `partition_model` borrows. */
  class Partitioner {
    var hw: Hw

    constructor (hw: Hw)
      ensures this.hw == hw
    {
      this.hw := hw;
    }

    /** `partition_model`: solves under the requested residency and leaves the parameters as they were. */
    method PartitionModel(layers: seq<LayerInfo>, streaming: Option<bool>, allowed: set<Placement>, bucket: Option<nat>,
            maxStates: nat)
      returns (o: Outcome)
      requires HwOk(hw) && maxStates > 0 && bucket != Some(0)
      modifies this
      ensures hw == old(hw)
      ensures var resident := if streaming.None? then hw.fpgaWeightsResident else !streaming.value;
              var q := Setup(layers, hw.(fpgaWeightsResident := resident), allowed, bucket, maxStates);
              && (o.BadInput? <==> layers == [] || q.P == [])
              && (o.Solved? ==> Optimal(q, o.plan) && First(q, o.plan) && Reports(q, o.plan, o.result))
              && (o.NoFeasiblePlacement? ==> forall b :: !Admissible(q, b))
    {
      hide Optimal, Reports, Admissible, ChooseBuckets, First;
      var saved := hw.fpgaWeightsResident;
      hw := hw.(fpgaWeightsResident := if streaming.None? then hw.fpgaWeightsResident else !streaming.value);
      o := Solve(Setup(layers, hw, allowed, bucket, maxStates));
      hw := hw.(fpgaWeightsResident := saved);
    }
  }

  /** What a user of the solver relies on: with buckets that divide every weight and both capacities, the result is
      the cheapest of all placements whose bytes fit, and there is a result whenever such a placement exists. */
  lemma SolverIsExact(q: Problem, o: Outcome)
    requires ProblemOk(q) && Multiples(q) && q.hw.hostWeightBudget % q.hb == 0 && q.hw.fpgaDdr2Capacity % q.fb == 0
    requires o.Solved? ==> Optimal(q, o.plan) && Reports(q, o.plan, o.result)
    requires o.NoFeasiblePlacement? ==> forall b :: !Admissible(q, b)
    ensures o.Solved? ==>
              ByteOptimal(q, o.plan) && o.result.totalMs == PlanCost(q, o.plan)
              && o.result.hostBytes <= q.hw.hostWeightBudget
    ensures o.Solved? && q.hw.fpgaWeightsResident ==> o.result.ddrBytes <= q.hw.fpgaDdr2Capacity
    ensures o.NoFeasiblePlacement? ==> forall b :: !(Legal(q, b) && |b| == |q.layers| && BytesFit(q, b))
  {
    hide Legal, PlanCost, Multiples, HostBytes, DdrBytes, HostUse, DdrUse, Buckets;
    if o.Solved? {
      OptimalIsByteOptimal(q, o.plan);
    }
    forall b | Legal(q, b) && |b| == |q.layers| && BytesFit(q, b)
      ensures Admissible(q, b)
    {
      ByteExact(q, b);
    }
  }
}
