/** The placement problem of solver.py, what its table entries mean, and why the table finds the cheapest plan. */
module Placer {
  import opened Bytes
  import opened CostModel

  /** A cost in milliseconds, or the INF of an impossible choice. */
  datatype Cost = Inf | Ms(v: real)

  predicate Less(a: Cost, b: Cost) {
    a.Ms? && (b.Inf? || a.v < b.v)
  }

  function Plus(a: Cost, x: real): Cost {
    if a.Inf? then Inf else Ms(a.v + x)
  }

  /** `_buckets`. */
  function Buckets(nbytes: nat, bucket: nat): (r: nat)
    requires bucket > 0
    ensures nbytes <= r * bucket < nbytes + bucket
  {
    var r := CeilDiv(nbytes, bucket);
    assert nbytes + bucket - 1 == r * bucket + (nbytes + bucket - 1) % bucket;
    r
  }

  /** The layers to place, the allowed placements in order, and the bucket size of each capacity. */
  datatype Problem = Problem(layers: seq<LayerInfo>, hw: Hw, P: seq<Placement>, hb: nat, fb: nat)

  predicate ProblemOk(q: Problem) {
    HwOk(q.hw) && q.hb > 0 && q.fb > 0
  }

  /** Table sizes: usage runs from 0 to the rounded-up capacity. */
  function H(q: Problem): (r: nat)
    requires ProblemOk(q)
    ensures r > 0
  {
    Buckets(q.hw.hostWeightBudget, q.hb) + 1
  }

  function F(q: Problem): (r: nat)
    requires ProblemOk(q)
    ensures r > 0
  {
    if q.hw.fpgaWeightsResident then Buckets(q.hw.fpgaDdr2Capacity, q.fb) + 1 else 1
  }

  function PlaceCost(q: Problem, i: nat, j: nat): Cost
    requires ProblemOk(q) && i < |q.layers| && j < |q.P|
  {
    if Feasible(q.hw, q.layers[i], q.P[j]) then Ms(PlacementCostMs(q.hw, q.layers[i], q.P[j])) else Inf
  }

  function Cross(q: Problem, i: nat, jp: nat, j: nat): real
    requires ProblemOk(q) && 0 < i < |q.layers| && jp < |q.P| && j < |q.P|
  {
    BoundaryCostMs(q.hw, q.layers[i - 1], q.P[jp], q.P[j])
  }

  /** `usage_shift`: the host buckets and DDR2 buckets a layer takes. */
  function Dh(q: Problem, i: nat, j: nat): nat
    requires ProblemOk(q) && i < |q.layers| && j < |q.P|
  {
    if q.P[j] == Gpu then Buckets(q.layers[i].weightBytes, q.hb) else 0
  }

  function Df(q: Problem, i: nat, j: nat): nat
    requires ProblemOk(q) && i < |q.layers| && j < |q.P|
  {
    if q.P[j] != Gpu && q.hw.fpgaWeightsResident then Buckets(q.layers[i].weightBytes, q.fb) else 0
  }

  // ----- plans -----

  /** Placements, by index into P, of the first layers. */
  type Plan = seq<nat>

  predicate Legal(q: Problem, a: Plan)
    requires ProblemOk(q)
  {
    |a| <= |q.layers| && forall k :: 0 <= k < |a| ==> a[k] < |q.P| && PlaceCost(q, k, a[k]).Ms?
  }

  function HostUse(q: Problem, a: Plan): nat
    requires ProblemOk(q) && Legal(q, a)
  {
    if a == [] then 0 else HostUse(q, a[..|a| - 1]) + Dh(q, |a| - 1, a[|a| - 1])
  }

  function DdrUse(q: Problem, a: Plan): nat
    requires ProblemOk(q) && Legal(q, a)
  {
    if a == [] then 0 else DdrUse(q, a[..|a| - 1]) + Df(q, |a| - 1, a[|a| - 1])
  }

  /** The boundary paid before the last layer of a plan. */
  function LastCross(q: Problem, a: Plan): real
    requires ProblemOk(q) && Legal(q, a) && a != []
  {
    if |a| > 1 then Cross(q, |a| - 1, a[|a| - 2], a[|a| - 1]) else 0.0
  }

  function PlanCost(q: Problem, a: Plan): real
    requires ProblemOk(q) && Legal(q, a)
  {
    if a == [] then 0.0
    else PlanCost(q, a[..|a| - 1]) + PlaceCost(q, |a| - 1, a[|a| - 1]).v + LastCross(q, a)
  }

  /** A complete plan the bucketed capacities admit. */
  predicate Admissible(q: Problem, a: Plan)
    requires ProblemOk(q)
  {
    Legal(q, a) && |a| == |q.layers| && HostUse(q, a) < H(q) && DdrUse(q, a) < F(q)
  }

  // ----- the table -----

  /** Entry (j, h, f) after layer i: the cost of the cheapest plan that ends in j and uses h and f exactly. */
  function Opt(q: Problem, i: nat, j: nat, h: nat, f: nat): Cost
    requires ProblemOk(q) && i < |q.layers| && j < |q.P|
    decreases i, |q.P| + 1
  {
    if PlaceCost(q, i, j).Inf? || h < Dh(q, i, j) || f < Df(q, i, j) then Inf
    else if i == 0 then (if h == Dh(q, i, j) && f == Df(q, i, j) then PlaceCost(q, i, j) else Inf)
    else Best(q, i, j, h - Dh(q, i, j), f - Df(q, i, j), |q.P|).0
  }

  /** The candidate that comes from placement jp, at usage before layer i. */
  function Cand(q: Problem, i: nat, j: nat, jp: nat, h: nat, f: nat): Cost
    requires ProblemOk(q) && 0 < i < |q.layers| && j < |q.P| && jp < |q.P| && PlaceCost(q, i, j).Ms?
    decreases i, 0
  {
    Plus(Opt(q, i - 1, jp, h, f), PlaceCost(q, i, j).v + Cross(q, i, jp, j))
  }

  /** The cheapest of the first m candidates and the first placement that attains it. */
  function Best(q: Problem, i: nat, j: nat, h: nat, f: nat, m: nat): (r: (Cost, nat))
    requires ProblemOk(q) && 0 < i < |q.layers| && j < |q.P| && m <= |q.P| && PlaceCost(q, i, j).Ms?
    ensures r.0.Ms? ==> r.1 < m
    decreases i, m
  {
    if m == 0 then (Inf, 0)
    else
      var r := Best(q, i, j, h, f, m - 1);
      var c := Cand(q, i, j, m - 1, h, f);
      if Less(c, r.0) then (c, m - 1) else r
  }

  /** No candidate undercuts it, and those before it are dearer: the first placement wins ties. */
  lemma {:induction false} BestIs(q: Problem, i: nat, j: nat, h: nat, f: nat, m: nat)
    requires ProblemOk(q) && 0 < i < |q.layers| && j < |q.P| && m <= |q.P| && PlaceCost(q, i, j).Ms?
    ensures var r := Best(q, i, j, h, f, m);
            && (r.0.Ms? ==> Cand(q, i, j, r.1, h, f) == r.0)
            && (forall jp :: 0 <= jp < m ==> !Less(Cand(q, i, j, jp, h, f), r.0))
            && (forall jp :: 0 <= jp < m && jp < r.1 ==> Less(r.0, Cand(q, i, j, jp, h, f)))
    decreases m
  {
    hide Cand, PlaceCost, Opt, ProblemOk;
    if m > 0 {
      BestIs(q, i, j, h, f, m - 1);
    }
  }

  /** No legal plan undercuts the table entry for its usage. */
  lemma {:induction false} OptLower(q: Problem, a: Plan)
    requires ProblemOk(q) && Legal(q, a) && a != []
    ensures var c := Opt(q, |a| - 1, a[|a| - 1], HostUse(q, a), DdrUse(q, a)); c.Ms? && c.v <= PlanCost(q, a)
    decreases |a|
  {
    hide PlaceCost, Best, Dh, Df, Cross;
    var i, j := |a| - 1, a[|a| - 1];
    if i > 0 {
      var front := a[..i];
      OptLower(q, front);
      var h, f := HostUse(q, front), DdrUse(q, front);
      BestIs(q, i, j, h, f, |q.P|);
      assert !Less(Cand(q, i, j, a[i - 1], h, f), Best(q, i, j, h, f, |q.P|).0);
    }
  }

  /** The plan a finite entry stands for, followed back through the argmins. */
  function Path(q: Problem, i: nat, j: nat, h: nat, f: nat): (a: Plan)
    requires ProblemOk(q) && i < |q.layers| && j < |q.P| && Opt(q, i, j, h, f).Ms?
    ensures |a| == i + 1 && a[i] == j
    decreases i
  {
    if i == 0 then [j]
    else
      BestIs(q, i, j, h - Dh(q, i, j), f - Df(q, i, j), |q.P|);
      Path(q, i - 1, From(q, i, j, h, f), h - Dh(q, i, j), f - Df(q, i, j)) + [j]
  }

  /** What the argmin table holds at a finite entry of a later layer. */
  function From(q: Problem, i: nat, j: nat, h: nat, f: nat): (jp: nat)
    requires ProblemOk(q) && 0 < i < |q.layers| && j < |q.P| && Opt(q, i, j, h, f).Ms?
    ensures jp < |q.P|
  {
    Best(q, i, j, h - Dh(q, i, j), f - Df(q, i, j), |q.P|).1
  }

  /** Every finite entry is attained: its path is legal, uses exactly the entry's buckets and costs exactly the
      entry. */
  lemma {:induction false} PathAttains(q: Problem, i: nat, j: nat, h: nat, f: nat)
    requires ProblemOk(q) && i < |q.layers| && j < |q.P| && Opt(q, i, j, h, f).Ms?
    ensures var a := Path(q, i, j, h, f);
            Legal(q, a) && HostUse(q, a) == h && DdrUse(q, a) == f && PlanCost(q, a) == Opt(q, i, j, h, f).v
    decreases i
  {
    hide PlaceCost, Best, Dh, Df, Cross;
    var a := Path(q, i, j, h, f);
    if i == 0 {
      assert a[..0] == [];
    } else {
      var dh, df := Dh(q, i, j), Df(q, i, j);
      BestIs(q, i, j, h - dh, f - df, |q.P|);
      var jp := From(q, i, j, h, f);
      PathAttains(q, i - 1, jp, h - dh, f - df);
      assert a[..i] == Path(q, i - 1, jp, h - dh, f - df);
    }
  }

  // ----- the optimum -----

  /** Plan a is admissible and no admissible plan is cheaper. */
  ghost predicate Optimal(q: Problem, a: Plan)
    requires ProblemOk(q)
  {
    Admissible(q, a) && forall b :: Admissible(q, b) ==> PlanCost(q, a) <= PlanCost(q, b)
  }

  predicate NotBelow(q: Problem, j: nat, h: nat, f: nat, c: Cost)
    requires ProblemOk(q) && |q.layers| > 0 && j < |q.P|
  {
    !Less(Opt(q, |q.layers| - 1, j, h, f), c)
  }

  /** The least entry of the last table, if finite, yields an optimal plan; if none is finite no plan is admissible. */
  lemma LeastEntry(q: Problem, j: nat, h: nat, f: nat, c: Cost)
    requires ProblemOk(q) && |q.layers| > 0 && j < |q.P| && h < H(q) && f < F(q) && c == Opt(q, |q.layers| - 1, j, h, f)
    requires forall j', h', f' :: 0 <= j' < |q.P| && 0 <= h' < H(q) && 0 <= f' < F(q) ==> NotBelow(q, j', h', f', c)
    ensures if c.Ms? then Optimal(q, Path(q, |q.layers| - 1, j, h, f))
            && PlanCost(q, Path(q, |q.layers| - 1, j, h, f)) == c.v
            else forall b :: !Admissible(q, b)
  {
    hide Opt, PlaceCost, H, F, HostUse, DdrUse, PlanCost;
    var n := |q.layers|;
    if c.Ms? {
      PathAttains(q, n - 1, j, h, f);
    }
    forall b | Admissible(q, b)
      ensures c.Ms? && c.v <= PlanCost(q, b)
    {
      OptLower(q, b);
      assert NotBelow(q, b[n - 1], HostUse(q, b), DdrUse(q, b), c);
    }
  }
}
