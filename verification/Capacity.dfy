/** What the bucketed capacities of the placer mean in bytes. */
module Capacity {
  import opened Bytes
  import opened CostModel
  import opened Placer

  /** Weight bytes a plan keeps in host memory. */
  function HostBytes(q: Problem, a: Plan): nat
    requires ProblemOk(q) && Legal(q, a)
  {
    if a == [] then 0
    else HostBytes(q, a[..|a| - 1]) + (if q.P[a[|a| - 1]] == Gpu then q.layers[|a| - 1].weightBytes else 0)
  }

  /** Weight bytes a plan keeps in DDR2. */
  function DdrBytes(q: Problem, a: Plan): nat
    requires ProblemOk(q) && Legal(q, a)
  {
    if a == [] then 0
    else DdrBytes(q, a[..|a| - 1]) + (if q.P[a[|a| - 1]] != Gpu then q.layers[|a| - 1].weightBytes else 0)
  }

  /** The capacities as a byte-exact search would check them. */
  predicate BytesFit(q: Problem, a: Plan)
    requires ProblemOk(q) && Legal(q, a)
  {
    HostBytes(q, a) <= q.hw.hostWeightBudget && (q.hw.fpgaWeightsResident ==> DdrBytes(q, a) <= q.hw.fpgaDdr2Capacity)
  }

  predicate Multiples(q: Problem)
    requires ProblemOk(q)
  {
    forall i :: 0 <= i < |q.layers| ==> q.layers[i].weightBytes % q.hb == 0 && q.layers[i].weightBytes % q.fb == 0
  }

  lemma BucketsOfMultiple(n: nat, b: nat)
    requires b > 0 && n % b == 0
    ensures Buckets(n, b) * b == n
  {
    var k, r := n / b, Buckets(n, b);
    DivModUnique(r * b, b, k, r * b - n);
    DivModUnique(r * b, b, r, 0);
  }

  /** Bucket counts never understate the bytes, and are exact when every weight is a multiple of the bucket. */
  lemma {:induction false} UseCovers(q: Problem, a: Plan)
    requires ProblemOk(q) && Legal(q, a)
    ensures HostBytes(q, a) <= HostUse(q, a) * q.hb
    ensures q.hw.fpgaWeightsResident ==> DdrBytes(q, a) <= DdrUse(q, a) * q.fb
    ensures Multiples(q) ==> HostBytes(q, a) == HostUse(q, a) * q.hb
    ensures Multiples(q) && q.hw.fpgaWeightsResident ==> DdrBytes(q, a) == DdrUse(q, a) * q.fb
    decreases |a|
  {
    hide PlaceCost;
    if a != [] {
      var front, i := a[..|a| - 1], |a| - 1;
      UseCovers(q, front);
      var w := q.layers[i].weightBytes;
      Distribute(HostUse(q, front), Dh(q, i, a[i]), q.hb);
      Distribute(DdrUse(q, front), Df(q, i, a[i]), q.fb);
      if Multiples(q) {
        BucketsOfMultiple(w, q.hb);
        BucketsOfMultiple(w, q.fb);
      }
    }
  }

  lemma Distribute(a: int, b: int, c: int)
    ensures (a + b) * c == a * c + b * c
  {
  }

  /** A plan the solver admits exceeds a capacity by less than one bucket. */
  lemma Overshoot(q: Problem, a: Plan)
    requires ProblemOk(q) && Admissible(q, a)
    ensures HostBytes(q, a) <= Buckets(q.hw.hostWeightBudget, q.hb) * q.hb < q.hw.hostWeightBudget + q.hb
    ensures q.hw.fpgaWeightsResident ==>
              DdrBytes(q, a) <= Buckets(q.hw.fpgaDdr2Capacity, q.fb) * q.fb < q.hw.fpgaDdr2Capacity + q.fb
  {
    hide HostBytes, DdrBytes, HostUse, DdrUse, Buckets, Legal;
    UseCovers(q, a);
    MulLe(HostUse(q, a), Buckets(q.hw.hostWeightBudget, q.hb), q.hb);
    if q.hw.fpgaWeightsResident {
      MulLe(DdrUse(q, a), Buckets(q.hw.fpgaDdr2Capacity, q.fb), q.fb);
    }
  }

  /** When the buckets divide every weight and both capacities, the table searches exactly the plans whose bytes fit. */
  lemma ByteExact(q: Problem, a: Plan)
    requires ProblemOk(q) && Multiples(q) && Legal(q, a) && |a| == |q.layers|
    requires q.hw.hostWeightBudget % q.hb == 0 && q.hw.fpgaDdr2Capacity % q.fb == 0
    ensures Admissible(q, a) <==> BytesFit(q, a)
  {
    hide HostBytes, DdrBytes, HostUse, DdrUse, Buckets, Legal, Multiples;
    UseCovers(q, a);
    BucketsOfMultiple(q.hw.hostWeightBudget, q.hb);
    BucketsOfMultiple(q.hw.fpgaDdr2Capacity, q.fb);
    MulLeIff(HostUse(q, a), Buckets(q.hw.hostWeightBudget, q.hb), q.hb);
    MulLeIff(DdrUse(q, a), Buckets(q.hw.fpgaDdr2Capacity, q.fb), q.fb);
    if !q.hw.fpgaWeightsResident {
      NoDdrUse(q, a);
    }
  }

  lemma MulLeIff(a: int, b: int, c: int)
    requires c > 0
    ensures a * c <= b * c <==> a <= b
  {
    if a <= b {
      MulLe(a, b, c);
    } else {
      MulLe(b + 1, a, c);
      Distribute(b, 1, c);
    }
  }

  /** Streamed weights take no DDR2 buckets. */
  lemma {:induction false} NoDdrUse(q: Problem, a: Plan)
    requires ProblemOk(q) && Legal(q, a) && !q.hw.fpgaWeightsResident
    ensures DdrUse(q, a) == 0
    decreases |a|
  {
    hide PlaceCost;
    if a != [] {
      NoDdrUse(q, a[..|a| - 1]);
    }
  }

  /** The cheapest plan byte-exact search finds: any feasible plan whose bytes fit costs at least as much. */
  ghost predicate ByteOptimal(q: Problem, a: Plan)
    requires ProblemOk(q)
  {
    && Legal(q, a) && |a| == |q.layers| && BytesFit(q, a)
    && forall b :: Legal(q, b) && |b| == |q.layers| && BytesFit(q, b) ==> PlanCost(q, a) <= PlanCost(q, b)
  }

  lemma OptimalIsByteOptimal(q: Problem, a: Plan)
    requires ProblemOk(q) && Multiples(q) && q.hw.hostWeightBudget % q.hb == 0 && q.hw.fpgaDdr2Capacity % q.fb == 0
    ensures Optimal(q, a) <==> ByteOptimal(q, a)
  {
    hide Admissible, BytesFit, Multiples, Legal, PlanCost;
    forall b | Legal(q, b) && |b| == |q.layers|
      ensures Admissible(q, b) <==> BytesFit(q, b)
    {
      ByteExact(q, b);
    }
    forall b | Admissible(q, b)
      ensures Legal(q, b) && |b| == |q.layers|
    {
      AdmissibleIs(q, b);
    }
  }

  lemma AdmissibleIs(q: Problem, b: Plan)
    requires ProblemOk(q) && Admissible(q, b)
    ensures Legal(q, b) && |b| == |q.layers|
  {
  }

  // ----- when every accepted plan fits -----

  const SAMPLE_HW := Hw(1.0, 1.0, 1.0, 1.0, 0.0, 0, 0, 4096, 4096, 1, true, 33)

  function Weighted(w: nat): LayerInfo {
    LayerInfo("layer", "Relu", w, 0, 0, [], [])
  }

  /** The same placement for every layer. */
  function Uniform(n: nat): (a: Plan)
    ensures |a| == n && forall k :: 0 <= k < n ==> a[k] == 0
  {
    seq(n, k => 0)
  }

  /** n equal layers with one allowed placement. */
  function Only(p: Placement, n: nat, w: nat, host: nat, ddr: nat, b: nat): (q: Problem)
    requires b > 0
    ensures ProblemOk(q)
  {
    Problem(seq(n, k => Weighted(w)), SAMPLE_HW.(hostWeightBudget := host, fpgaDdr2Capacity := ddr), [p], b, b)
  }

  /** Its totals. */
  lemma {:induction false} UniformUse(p: Placement, n: nat, w: nat, host: nat, ddr: nat, b: nat, k: nat)
    requires b > 0 && k <= n && (p != Gpu ==> w <= ddr)
    ensures var q := Only(p, n, w, host, ddr, b);
            && Legal(q, Uniform(k))
            && HostUse(q, Uniform(k)) == (if p == Gpu then k * Buckets(w, b) else 0)
            && DdrUse(q, Uniform(k)) == (if p != Gpu then k * Buckets(w, b) else 0)
            && HostBytes(q, Uniform(k)) == (if p == Gpu then k * w else 0)
            && DdrBytes(q, Uniform(k)) == (if p != Gpu then k * w else 0)
    decreases k
  {
    hide Buckets;
    var q := Only(p, n, w, host, ddr, b);
    if k > 0 {
      UniformUse(p, n, w, host, ddr, b, k - 1);
      assert Uniform(k)[..k - 1] == Uniform(k - 1);
      Distribute(k - 1, 1, w);
      Distribute(k - 1, 1, Buckets(w, b));
    }
  }

  lemma OnlyPlan(p: Placement, n: nat, w: nat, host: nat, ddr: nat, b: nat)
    requires b > 0
    ensures var q := Only(p, n, w, host, ddr, b);
            Admissible(q, Uniform(n)) ==> Optimal(q, Uniform(n))
  {
    hide PlanCost, HostUse, DdrUse, PlaceCost;
    var q := Only(p, n, w, host, ddr, b);
    forall c | Admissible(q, c)
      ensures c == Uniform(n)
    {
      assert forall k :: 0 <= k < n ==> c[k] == 0;
    }
  }

  /** Every plan the solver can return respects the host budget exactly when the bucket divides the budget. */
  lemma HostAlwaysFitsIff(cap: nat, b: nat)
    requires b > 0
    ensures cap % b == 0 <==>
            forall q, a :: ProblemOk(q) && q.hw.hostWeightBudget == cap && q.hb == b && Optimal(q, a)
              ==> HostBytes(q, a) <= cap
  {
    hide HostBytes, Buckets, Only;
    if cap % b == 0 {
      forall q, a | ProblemOk(q) && q.hw.hostWeightBudget == cap && q.hb == b && Optimal(q, a)
        ensures HostBytes(q, a) <= cap
      {
        OptimalIs(q, a);
        Overshoot(q, a);
        BucketsOfMultiple(cap, b);
      }
    } else {
      var q := HostCounterexample(cap, b);
      assert HostBytes(q, Uniform(1)) > cap;
    }
  }

  lemma OptimalIs(q: Problem, a: Plan)
    requires ProblemOk(q) && Optimal(q, a)
    ensures Admissible(q, a)
  {
  }

  /** One layer that fills the rounded-up budget. */
  lemma HostCounterexample(cap: nat, b: nat) returns (q: Problem)
    requires b > 0 && cap % b != 0
    ensures ProblemOk(q) && q.hw.hostWeightBudget == cap && q.hb == b
    ensures Optimal(q, Uniform(1)) && Legal(q, Uniform(1)) && HostBytes(q, Uniform(1)) > cap
  {
    var r := Buckets(cap, b);
    NotMultiple(cap, b);
    q := Only(Gpu, 1, r * b, cap, 0, b);
    UniformUse(Gpu, 1, r * b, cap, 0, b, 1);
    BucketsOfProduct(r, b);
    OnlyPlan(Gpu, 1, r * b, cap, 0, b);
  }

  lemma NotMultiple(cap: nat, b: nat)
    requires b > 0 && cap % b != 0
    ensures Buckets(cap, b) * b > cap
  {
    var r := Buckets(cap, b);
    if r * b == cap {
      DivModUnique(cap, b, r, 0);
    }
  }

  lemma BucketsOfProduct(r: nat, b: nat)
    requires b > 0
    ensures Buckets(r * b, b) == r
  {
    DivModUnique(r * b, b, r, 0);
    BucketsOfMultiple(r * b, b);
    MulLeIff(r, Buckets(r * b, b), b);
    MulLeIff(Buckets(r * b, b), r, b);
  }

  /** With resident weights the DDR2 capacity is respected by every plan exactly when the bucket divides it or
      exceeds it: no single layer may be larger than the DDR2, so an overshoot takes at least two buckets. */
  lemma DdrAlwaysFitsIff(cap: nat, b: nat)
    requires b > 0
    ensures (cap % b == 0 || cap < b) <==>
            forall q, a :: ProblemOk(q) && q.hw.fpgaWeightsResident && q.hw.fpgaDdr2Capacity == cap && q.fb == b
                            && Optimal(q, a) ==>
              DdrBytes(q, a) <= cap
  {
    hide DdrBytes, Buckets, Only;
    if cap % b == 0 || cap < b {
      forall q, a | ProblemOk(q) && q.hw.fpgaWeightsResident && q.hw.fpgaDdr2Capacity == cap && q.fb == b
        && Optimal(q, a)
        ensures DdrBytes(q, a) <= cap
      {
        OptimalIs(q, a);
        if cap % b == 0 {
          Overshoot(q, a);
          BucketsOfMultiple(cap, b);
        } else {
          OneBucket(cap, b);
          AdmissibleDdr(q, a);
          SmallDdr(q, a);
        }
      }
    } else {
      var q, n := DdrCounterexample(cap, b);
      assert DdrBytes(q, Uniform(n)) > cap;
    }
  }

  lemma OneBucket(cap: nat, b: nat)
    requires b > 0 && cap < b
    ensures Buckets(cap, b) <= 1
  {
    if Buckets(cap, b) > 1 {
      MulLe(2, Buckets(cap, b), b);
    }
  }

  lemma AdmissibleDdr(q: Problem, a: Plan)
    requires ProblemOk(q) && Admissible(q, a) && q.hw.fpgaWeightsResident
    ensures DdrUse(q, a) <= Buckets(q.hw.fpgaDdr2Capacity, q.fb)
  {
  }

  /** At most one bucket in use means at most one layer with weights, and one layer always fits. */
  lemma {:induction false} SmallDdr(q: Problem, a: Plan)
    requires ProblemOk(q) && Legal(q, a) && q.hw.fpgaWeightsResident && DdrUse(q, a) <= 1
    ensures DdrBytes(q, a) <= q.hw.fpgaDdr2Capacity && (DdrUse(q, a) == 0 ==> DdrBytes(q, a) == 0)
    decreases |a|
  {
    hide Buckets;
    if a != [] {
      SmallDdr(q, a[..|a| - 1]);
      assert PlaceCost(q, |a| - 1, a[|a| - 1]).Ms?;
    }
  }

  lemma DdrCounterexample(cap: nat, b: nat) returns (q: Problem, n: nat)
    requires b > 0 && cap % b != 0 && cap >= b
    ensures ProblemOk(q) && q.hw.fpgaWeightsResident && q.hw.fpgaDdr2Capacity == cap && q.fb == b
    ensures Optimal(q, Uniform(n)) && Legal(q, Uniform(n)) && DdrBytes(q, Uniform(n)) > cap
  {
    n := Buckets(cap, b);
    NotMultiple(cap, b);
    q := Only(Pool, n, b, 0, cap, b);
    UniformUse(Pool, n, b, 0, cap, b, n);
    BucketsOfProduct(1, b);
    OnlyPlan(Pool, n, b, 0, cap, b);
  }

  // ----- more memory -----

  lemma {:induction false} PlanWithMore(q: Problem, q': Problem, a: Plan)
    requires ProblemOk(q) && Legal(q, a) && Grown(q, q')
    ensures ProblemOk(q') && Legal(q', a) && PlanCost(q', a) == PlanCost(q, a)
    ensures HostUse(q', a) == HostUse(q, a) && DdrUse(q', a) == DdrUse(q, a)
    decreases |a|
  {
    hide PlacementCostMs, Feasible, Buckets, BoundaryCostMs;
    forall k | 0 <= k < |a|
      ensures a[k] < |q'.P| && PlaceCost(q', k, a[k]) == PlaceCost(q, k, a[k])
    {
      assert PlaceCost(q, k, a[k]).Ms?;
      MoreMemory(q.hw, q'.hw, q.layers[k], q.P[a[k]]);
    }
    if a != [] {
      PlanWithMore(q, q', a[..|a| - 1]);
      if |a| > 1 {
        SameCross(q, q', |a| - 1, a[|a| - 2], a[|a| - 1]);
      }
    }
  }

  lemma SameCross(q: Problem, q': Problem, i: nat, jp: nat, j: nat)
    requires ProblemOk(q) && Grown(q, q') && 0 < i < |q.layers| && jp < |q.P| && j < |q.P|
    ensures ProblemOk(q') && Cross(q', i, jp, j) == Cross(q, i, jp, j)
  {
  }

  /** The same problem with larger capacities and the same buckets. */
  predicate Grown(q: Problem, q': Problem) {
    && q'.hw.hostWeightBudget >= q.hw.hostWeightBudget && q'.hw.fpgaDdr2Capacity >= q.hw.fpgaDdr2Capacity
    && q'.hw == q.hw.(fpgaDdr2Capacity := q'.hw.fpgaDdr2Capacity, hostWeightBudget := q'.hw.hostWeightBudget)
    && q' == q.(hw := q'.hw)
  }

  /** At fixed bucket sizes more memory never makes the optimum dearer, nor a solvable problem unsolvable. */
  lemma MoreMemoryNotDearer(q: Problem, q': Problem, a: Plan)
    requires ProblemOk(q) && Grown(q, q') && Admissible(q, a)
    ensures ProblemOk(q') && Admissible(q', a)
    ensures forall a' :: Optimal(q', a') ==> PlanCost(q', a') <= PlanCost(q, a)
  {
    hide PlanCost, HostUse, DdrUse, Legal, Buckets;
    PlanWithMore(q, q', a);
    BucketsGrow(q.hw.hostWeightBudget, q'.hw.hostWeightBudget, q.hb);
    BucketsGrow(q.hw.fpgaDdr2Capacity, q'.hw.fpgaDdr2Capacity, q.fb);
  }

  lemma BucketsGrow(m: nat, n: nat, b: nat)
    requires b > 0 && m <= n
    ensures Buckets(m, b) <= Buckets(n, b)
  {
    DivLe(m + b - 1, n + b - 1, b);
  }

  // ----- choosing the bucket sizes -----

  datatype Option<T> = None | Some(value: T)

  /** `int(math.sqrt(n))`. */
  function Isqrt(n: nat): (r: nat)
    ensures r * r <= n < (r + 1) * (r + 1)
  {
    if n == 0 then 0
    else
      var r := Isqrt(n - 1);
      if (r + 1) * (r + 1) <= n then r + 1 else r
  }

  function AtLeastPage(n: nat): nat {
    if n > 4096 then n else 4096
  }

  /** `_choose_buckets`. */
  function ChooseBuckets(hostCap: nat, ddrCap: nat, resident: bool, bucket: Option<nat>,
          maxStates: nat): (r: (nat, nat))
    requires maxStates > 0
    ensures bucket != Some(0) ==> r.0 > 0 && r.1 > 0
  {
    if bucket.Some? then (bucket.value, bucket.value)
    else if !resident || ddrCap == 0 then (AtLeastPage(CeilDiv(hostCap, maxStates)), 4096)
    else if hostCap == 0 then (4096, AtLeastPage(CeilDiv(ddrCap, maxStates)))
    else
      var side := Isqrt(maxStates);
      assert side > 0;
      (AtLeastPage(CeilDiv(hostCap, side)), AtLeastPage(CeilDiv(ddrCap, side)))
  }

  lemma BucketCount(cap: nat, s: nat)
    requires s > 0
    ensures Buckets(cap, AtLeastPage(CeilDiv(cap, s))) <= s
  {
    var b := AtLeastPage(CeilDiv(cap, s));
    assert cap + s - 1 == CeilDiv(cap, s) * s + (cap + s - 1) % s;
    MulLe(CeilDiv(cap, s), b, s);
    var r := Buckets(cap, b);
    if r > s {
      MulLe(s + 1, r, b);
      Distribute(s, 1, b);
    }
  }

  /** The chosen buckets number at most max_states. */
  lemma ChosenBuckets(hostCap: nat, ddrCap: nat, resident: bool, maxStates: nat)
    requires maxStates > 0
    ensures var c := ChooseBuckets(hostCap, ddrCap, resident, None, maxStates);
            && (!resident || ddrCap == 0 ==> Buckets(hostCap, c.0) <= maxStates)
            && (resident && ddrCap > 0 && hostCap == 0 ==> Buckets(ddrCap, c.1) <= maxStates)
            && (resident && ddrCap > 0 && hostCap > 0 ==> Buckets(hostCap, c.0) * Buckets(ddrCap, c.1) <= maxStates)
  {
    hide Isqrt, Buckets, AtLeastPage, CeilDiv;
    BucketCount(hostCap, maxStates);
    BucketCount(ddrCap, maxStates);
    var side := Isqrt(maxStates);
    if side > 0 {
      BucketCount(hostCap, side);
      BucketCount(ddrCap, side);
      var x, y := Buckets(hostCap, AtLeastPage(CeilDiv(hostCap, side))),
        Buckets(ddrCap, AtLeastPage(CeilDiv(ddrCap, side)));
      MulLe(x, side, y);
      MulLe(y, side, side);
    }
  }

  /** No bucket of at least a page that keeps the count within s is finer. */
  lemma Finest(cap: nat, s: nat, b: nat)
    requires s > 0 && b >= 4096 && Buckets(cap, b) <= s
    ensures AtLeastPage(CeilDiv(cap, s)) <= b
  {
    var r, c := Buckets(cap, b), CeilDiv(cap, s);
    assert cap + s - 1 == c * s + (cap + s - 1) % s;
    MulLe(r, s, b);
    if c > b {
      MulLe(b + 1, c, s);
      Distribute(b, 1, s);
    }
  }

  /** The buckets are chosen as fine as their number and the page allow: for the one capacity that is active, or for
      each of two, none of at least a page is finer and still within max_states, or within its root. */
  lemma FinestBuckets(hostCap: nat, ddrCap: nat, resident: bool, maxStates: nat, b: nat)
    requires maxStates > 0 && b >= 4096
    ensures var c := ChooseBuckets(hostCap, ddrCap, resident, None, maxStates);
            && (!resident || ddrCap == 0 ==> c.1 == 4096 && (Buckets(hostCap, b) <= maxStates ==> c.0 <= b))
            && (resident && ddrCap > 0 && hostCap == 0 ==>
                  c.0 == 4096 && (Buckets(ddrCap, b) <= maxStates ==> c.1 <= b))
            && (resident && ddrCap > 0 && hostCap > 0 ==>
                  && (Buckets(hostCap, b) * Buckets(hostCap, b) <= maxStates ==> c.0 <= b)
                  && (Buckets(ddrCap, b) * Buckets(ddrCap, b) <= maxStates ==> c.1 <= b))
  {
    hide Isqrt, Buckets, AtLeastPage, CeilDiv;
    var side := Isqrt(maxStates);
    if Buckets(hostCap, b) <= maxStates {
      Finest(hostCap, maxStates, b);
    }
    if Buckets(ddrCap, b) <= maxStates {
      Finest(ddrCap, maxStates, b);
    }
    WithinRoot(Buckets(hostCap, b), maxStates);
    WithinRoot(Buckets(ddrCap, b), maxStates);
    if side > 0 && Buckets(hostCap, b) <= side {
      Finest(hostCap, side, b);
    }
    if side > 0 && Buckets(ddrCap, b) <= side {
      Finest(ddrCap, side, b);
    }
  }

  lemma WithinRoot(n: nat, m: nat)
    ensures n * n <= m <==> n <= Isqrt(m)
    ensures m > 0 ==> Isqrt(m) > 0
  {
    hide Isqrt;
    var r := Isqrt(m);
    if n <= r {
      MulLe(n, r, n);
      MulLe(n, r, r);
      assert n * r == r * n;
    } else {
      MulLe(r + 1, n, r + 1);
      MulLe(r + 1, n, n);
      assert (r + 1) * n == n * (r + 1);
    }
  }

  /** The problem uses the buckets the solver chooses for its capacities. */
  predicate Chosen(q: Problem, maxStates: nat)
    requires maxStates > 0
  {
    (q.hb, q.fb) == ChooseBuckets(q.hw.hostWeightBudget, q.hw.fpgaDdr2Capacity, q.hw.fpgaWeightsResident, None,
      maxStates)
  }

  /** A capacity split into at most s buckets leaves k of them unused. */
  predicate Leaves(cap: nat, s: nat, k: nat)
    requires s > 0
  {
    cap <= (s - k) * AtLeastPage(CeilDiv(cap, s))
  }

  /** What a caller can check of the capacities: with one of them active, a bucket is left; with both, each leaves
      one, or one of them leaves two, or one leaves one and max_states is side * (side + 1) or more. */
  predicate RoomFor(hostCap: nat, ddrCap: nat, resident: bool, maxStates: nat)
    requires maxStates > 0
  {
    if !resident || ddrCap == 0 then Leaves(hostCap, maxStates, 1)
    else if hostCap == 0 then Leaves(ddrCap, maxStates, 1)
    else
      var side := Isqrt(maxStates);
      assert side > 0;
      || (Leaves(hostCap, side, 1) && Leaves(ddrCap, side, 1))
      || Leaves(hostCap, side, 2) || Leaves(ddrCap, side, 2)
      || ((Leaves(hostCap, side, 1) || Leaves(ddrCap, side, 1)) && side * (side + 1) <= maxStates)
  }

  lemma LeavesIff(cap: nat, s: nat, k: nat)
    requires s > 0
    ensures Leaves(cap, s, k) <==> Buckets(cap, AtLeastPage(CeilDiv(cap, s))) + k <= s
  {
    hide Buckets, AtLeastPage, CeilDiv;
    var b := AtLeastPage(CeilDiv(cap, s));
    PagePositive(CeilDiv(cap, s));
    var r := Buckets(cap, b);
    if r + k <= s {
      MulLe(r, s - k, b);
    } else {
      MulLe(s - k + 1, r, b);
      Distribute(s - k, 1, b);
    }
  }

  lemma PagePositive(n: nat)
    ensures AtLeastPage(n) > 0
  {
  }

  /** Two table sides of at most s + 1, against s * s up to s * s + 2 * s. */
  lemma ProductWithin(h: nat, f: nat, s: nat, m: nat)
    requires 0 < h <= s + 1 && 0 < f <= s + 1 && s * s <= m < (s + 1) * (s + 1)
    ensures h * f <= m <==> (h <= s && f <= s) || h < s || f < s || ((h <= s || f <= s) && s * (s + 1) <= m)
  {
    if h <= s && f <= s {
      MulLe(h, s, f);
      MulLe(f, s, s);
    } else if h < s {
      ShortSide(h, f, s);
    } else if f < s {
      ShortSide(f, h, s);
    } else {
      LongSides(h, f, s);
    }
  }

  lemma ShortSide(h: nat, f: nat, s: nat)
    requires h < s && f <= s + 1
    ensures h * f <= s * s
  {
    MulLe(h, s - 1, f);
    MulLe(f, s + 1, s - 1);
    assert (s - 1) * (s + 1) == s * s - 1;
  }

  lemma LongSides(h: nat, f: nat, s: nat)
    requires s <= h <= s + 1 && s <= f <= s + 1 && (h > s || f > s)
    ensures h * f == if h > s && f > s then (s + 1) * (s + 1) else s * (s + 1)
  {
  }

  /** `_choose_buckets` counts buckets, the table has one level more in each active dimension: it stays within
      max_states exactly when the capacities leave room, and is off by one level at most. */
  lemma TableWithinIff(q: Problem, maxStates: nat)
    requires ProblemOk(q) && maxStates > 0 && Chosen(q, maxStates)
    ensures H(q) * F(q) <= maxStates
            <==> RoomFor(q.hw.hostWeightBudget, q.hw.fpgaDdr2Capacity, q.hw.fpgaWeightsResident, maxStates)
    ensures var side := Isqrt(maxStates);
            H(q) * F(q) <= if BothActive(q) then (side + 1) * (side + 1) else maxStates + 1
  {
    hide Buckets, AtLeastPage, CeilDiv, Isqrt, Leaves;
    var host, ddr := q.hw.hostWeightBudget, q.hw.fpgaDdr2Capacity;
    NoBuckets(q.hb);
    NoBuckets(q.fb);
    if BothActive(q) {
      var side := Isqrt(maxStates);
      BucketCount(host, side);
      BucketCount(ddr, side);
      forall k | 1 <= k <= 2
        ensures Leaves(host, side, k) <==> Buckets(host, q.hb) + k <= side
        ensures Leaves(ddr, side, k) <==> Buckets(ddr, q.fb) + k <= side
      {
        LeavesIff(host, side, k);
        LeavesIff(ddr, side, k);
      }
      ProductWithin(H(q), F(q), side, maxStates);
      MulLe(H(q), side + 1, F(q));
      MulLe(F(q), side + 1, side + 1);
    } else {
      BucketCount(host, maxStates);
      BucketCount(ddr, maxStates);
      LeavesIff(host, maxStates, 1);
      LeavesIff(ddr, maxStates, 1);
    }
  }

  predicate BothActive(q: Problem) {
    q.hw.fpgaWeightsResident && q.hw.hostWeightBudget > 0 && q.hw.fpgaDdr2Capacity > 0
  }

  lemma NoBuckets(b: nat)
    requires b > 0
    ensures Buckets(0, b) == 0
  {
    BucketsOfProduct(0, b);
  }

  /** For every max_states, a host budget of that many pages overruns it, streaming or with no DDR2. */
  lemma HostTableTooLarge(maxStates: nat, resident: bool) returns (q: Problem)
    requires maxStates > 0
    ensures ProblemOk(q) && Chosen(q, maxStates) && q.hw.hostWeightBudget == maxStates * 4096
    ensures q.hw.fpgaWeightsResident == resident && q.hw.fpgaDdr2Capacity == (if resident then 0 else 8192)
    ensures H(q) * F(q) == maxStates + 1
  {
    hide Buckets, Isqrt;
    var hw := SAMPLE_HW.(hostWeightBudget := maxStates * 4096, fpgaDdr2Capacity := if resident then 0 else 8192,
      fpgaWeightsResident := resident);
    q := Problem([], hw, [], 4096, 4096);
    PagesEach(maxStates);
    NoBuckets(4096);
  }

  /** So does a resident DDR2 of that many pages with no host budget. */
  lemma DdrTableTooLarge(maxStates: nat) returns (q: Problem)
    requires maxStates > 0
    ensures ProblemOk(q) && Chosen(q, maxStates) && q.hw.fpgaWeightsResident
    ensures q.hw.hostWeightBudget == 0 && q.hw.fpgaDdr2Capacity == maxStates * 4096
    ensures H(q) * F(q) == maxStates + 1
  {
    hide Buckets, Isqrt;
    q := Problem([], SAMPLE_HW.(hostWeightBudget := 0, fpgaDdr2Capacity := maxStates * 4096,
      fpgaWeightsResident := true), [], 4096, 4096);
    PagesEach(maxStates);
    NoBuckets(4096);
  }

  /** With both active, as many pages each as the square root overrun it by a whole row and column. */
  lemma BothTableTooLarge(maxStates: nat) returns (q: Problem)
    requires maxStates > 0
    ensures ProblemOk(q) && Chosen(q, maxStates) && q.hw.fpgaWeightsResident
    ensures q.hw.hostWeightBudget == q.hw.fpgaDdr2Capacity == Isqrt(maxStates) * 4096
    ensures H(q) * F(q) == (Isqrt(maxStates) + 1) * (Isqrt(maxStates) + 1) > maxStates
  {
    hide Buckets, Isqrt;
    var side := Isqrt(maxStates);
    assert side > 0;
    q := Problem([], SAMPLE_HW.(hostWeightBudget := side * 4096, fpgaDdr2Capacity := side * 4096,
      fpgaWeightsResident := true), [], 4096, 4096);
    PagesEach(side);
  }

  /** Two pages of each memory and four states: nine table entries. */
  lemma NineOfFour() returns (q: Problem)
    ensures ProblemOk(q) && Chosen(q, 4) && q.hw.fpgaWeightsResident
    ensures q.hw.hostWeightBudget == q.hw.fpgaDdr2Capacity == 8192 && H(q) * F(q) == 9
  {
    hide Buckets;
    assert Isqrt(1) == 1;
    assert Isqrt(2) == 1;
    assert Isqrt(3) == 1;
    assert Isqrt(4) == 2;
    q := BothTableTooLarge(4);
  }

  /** s pages in at most s buckets are s buckets. */
  lemma PagesEach(s: nat)
    requires s > 0
    ensures AtLeastPage(CeilDiv(s * 4096, s)) == 4096 && Buckets(s * 4096, 4096) == s
  {
    DivModUnique(s * 4096 + s - 1, s, 4096, s - 1);
    BucketsOfProduct(s, 4096);
  }
}
