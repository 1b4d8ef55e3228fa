/** What a plan costs is what its units compute and what its bytes and messages take on the link. */
module Price {
  import opened Bytes
  import opened CostModel
  import opened Placer
  import opened Solver

  // ----- the units -----

  /** The time of the link: its bytes at its bandwidth and a round trip for each message. */
  lemma LinkTime(hw: Hw, nbytes: nat, messages: nat)
    requires HwOk(hw)
    ensures (LinkMs(hw, nbytes, messages) - messages as real * hw.linkRttMs) * hw.linkBwBytesPerS
            == nbytes as real * 1000.0
  {
    QuotientBack(nbytes as real, hw.linkBwBytesPerS);
  }

  lemma QuotientBack(a: real, b: real)
    requires a >= 0.0 && b > 0.0
    ensures Quotient(a, b) * b == a
    ensures Quotient(a, b) == 0.0 <==> a == 0.0
  {
  }

  /** A matrix layer with its shapes known takes two operations for each weight row of each output. */
  lemma FlopsPerOutput(layer: LayerInfo)
    requires layer.opType in {"MatMul", "Gemm"} && layer.weightShapes != [] && |layer.weightShapes[0]| == 2
    requires layer.outputShape != []
    ensures var k, n, dims := layer.weightShapes[0][0], layer.weightShapes[0][1], layer.outputShape;
            dims[|dims| - 1] == n && |dims| > 1 ==> Flops(layer) == 2.0 * (k * Product(dims)) as real
  {
    var k, n, dims := layer.weightShapes[0][0], layer.weightShapes[0][1], layer.outputShape;
    if dims[|dims| - 1] == n && |dims| > 1 {
      ProductLast(dims);
      FlopsOfRows(layer, k, n, Product(dims[..|dims| - 1]));
    }
  }

  lemma FlopsOfRows(layer: LayerInfo, k: nat, n: nat, rows: nat)
    requires layer.opType in {"MatMul", "Gemm"} && layer.weightShapes != [] && layer.weightShapes[0] == [k, n]
    requires |layer.outputShape| > 1 && rows == Product(layer.outputShape[..|layer.outputShape| - 1])
    ensures Flops(layer) == 2.0 * (k * (rows * n)) as real
  {
    hide Product;
    Exchanged(rows, k, n);
  }

  lemma Exchanged(x: nat, y: nat, z: nat)
    ensures x * y * z == y * (x * z)
  {
  }

  /** Otherwise: of a single vector, two for each weight; without shapes, two for each weight of four bytes; of an
      elementwise layer, one for each output value of four bytes; of any other, none. */
  lemma FlopsElsewhere(layer: LayerInfo)
    ensures var matrix := layer.opType == "MatMul" || layer.opType == "Gemm";
            var shaped := layer.weightShapes != [] && |layer.weightShapes[0]| == 2 && layer.outputShape != [];
            && (matrix && shaped && |layer.outputShape| == 1 ==>
                  Flops(layer) == 2.0 * (layer.weightShapes[0][0] * layer.weightShapes[0][1]) as real)
            && (matrix && !shaped ==> 4.0 * Flops(layer) == 2.0 * layer.weightBytes as real)
            && (layer.opType == "Relu" || layer.opType == "Add" || layer.opType == "Mul" ==>
                  4.0 * Flops(layer) == layer.outputTensorBytes as real)
            && (layer.opType !in {"MatMul", "Gemm", "Relu", "Add", "Mul"} ==> Flops(layer) == 0.0)
  {
  }

  lemma {:induction false} ProductLast(s: seq<nat>)
    requires s != []
    ensures Product(s) == Product(s[..|s| - 1]) * s[|s| - 1]
  {
    if |s| > 1 {
      ProductLast(s[1..]);
      assert s[..|s| - 1][1..] == s[1..][..|s| - 2];
      Regrouped(s[0], Product(s[1..][..|s| - 2]), s[|s| - 1]);
    }
  }

  lemma Regrouped(x: nat, y: nat, z: nat)
    ensures x * (y * z) == (x * y) * z
  {
  }

  /** The GPU's time is its operations at its rate, and the launch of a kernel for a layer without any. */
  lemma GpuTime(hw: Hw, layer: LayerInfo)
    requires HwOk(hw)
    ensures Flops(layer) > 0.0 ==>
              GpuComputeMs(hw, layer) * (hw.gpuGflops * 1000000000.0) == Flops(layer) * 1000.0
    ensures Flops(layer) == 0.0 ==> GpuComputeMs(hw, layer) == 0.005
  {
    hide Flops;
    QuotientBack(Flops(layer), hw.gpuGflops * 1000000000.0);
  }

  /** Bytes the engines move in DDR2 for a layer: a lookup reads each row and writes it behind reading the indices; a
      layer with weights reads them as INT8, and its activations. */
  function DdrTraffic(layer: LayerInfo): real {
    if layer.opType == "Gather"
      then (layer.inputActivationBytes + layer.outputTensorBytes + layer.outputTensorBytes) as real
    else layer.weightBytes as real / 4.0 + layer.inputActivationBytes as real
  }

  /** The FPGA's time is that of the slower of its multipliers and its DDR2, for whichever layer; of DDR2 alone for a
      lookup; and a floor for a layer without operations. */
  lemma FpgaTime(hw: Hw, layer: LayerInfo)
    requires HwOk(hw)
    ensures var t, ddr, mac := FpgaComputeMs(hw, layer), hw.fpgaDdr2BwGbps * 1000000000.0,
                hw.fpgaInt8Gops * 1000000000.0;
            && (layer.opType == "Gather" ==> t * ddr == DdrTraffic(layer) * 1000.0)
            && (layer.opType != "Gather" && Flops(layer) == 0.0 ==> t == 0.001)
            && (layer.opType != "Gather" && Flops(layer) > 0.0 ==>
                  && t * ddr >= DdrTraffic(layer) * 1000.0 && t * mac >= Flops(layer) * 1000.0
                  && (t * ddr == DdrTraffic(layer) * 1000.0 || t * mac == Flops(layer) * 1000.0))
  {
    hide Flops, Quotient;
    var ddr, mac := hw.fpgaDdr2BwGbps * 1000000000.0, hw.fpgaInt8Gops * 1000000000.0;
    QuotientBack(DdrTraffic(layer), ddr);
    QuotientBack(Flops(layer), mac);
    var a, b := Quotient(Flops(layer), mac) * 1000.0, Quotient(DdrTraffic(layer), ddr) * 1000.0;
    Scaled(a, b, ddr);
    Scaled(b, a, mac);
  }

  lemma Scaled(a: real, b: real, c: real)
    requires c > 0.0
    ensures a >= b ==> a * c >= b * c
  {
  }

  // ----- the link -----

  datatype Traffic = Traffic(bytes: nat, messages: nat)

  /** What a layer's weights and its start send: pooled weights are faulted in, streamed ones downloaded, and an engine
      is started by one message. */
  function WeightTraffic(hw: Hw, layer: LayerInfo, p: Placement): Traffic
    requires HwOk(hw)
  {
    var w := layer.weightBytes;
    match p
    case Gpu => Traffic(0, 0)
    case Pool => Traffic(w, FaultMessages(hw, w))
    case Fpga =>
      if hw.fpgaWeightsResident then Traffic(hw.dispatchMsgBytes, 1)
      else Traffic(w + hw.dispatchMsgBytes, ChunkMessages(hw, w) + 1)
  }

  /** What the output of the layer before sends: its bytes, in whole chunks, exactly when one of the two layers runs on
      the FPGA and the other does not. */
  function BoundaryTraffic(hw: Hw, before: LayerInfo, from: Placement, to: Placement): Traffic
    requires HwOk(hw)
  {
    if (from == Fpga) == (to == Fpga) then Traffic(0, 0)
    else Traffic(before.outputTensorBytes, ChunkMessages(hw, before.outputTensorBytes))
  }

  function Both(s: Traffic, t: Traffic): Traffic {
    Traffic(s.bytes + t.bytes, s.messages + t.messages)
  }

  /** Everything a plan sends over the link. */
  function PlanTraffic(q: Problem, a: Plan): Traffic
    requires ProblemOk(q) && Legal(q, a)
  {
    if a == [] then Traffic(0, 0)
    else
      var i := |a| - 1;
      var t := Both(PlanTraffic(q, a[..i]), WeightTraffic(q.hw, q.layers[i], q.P[a[i]]));
      if i == 0 then t else Both(t, BoundaryTraffic(q.hw, q.layers[i - 1], q.P[a[i - 1]], q.P[a[i]]))
  }

  /** Everything a plan computes, on either unit. */
  function UnitTime(q: Problem, a: Plan): real
    requires ProblemOk(q) && Legal(q, a)
  {
    if a == [] then 0.0
    else
      var i := |a| - 1;
      UnitTime(q, a[..i]) + if q.P[a[i]] == Fpga then FpgaComputeMs(q.hw, q.layers[i])
        else GpuComputeMs(q.hw, q.layers[i])
  }

  /** Traffic adds up: the link charges two transfers what it charges one of both. */
  lemma LinkAdds(hw: Hw, s: Traffic, t: Traffic)
    requires HwOk(hw)
    ensures LinkMs(hw, Both(s, t).bytes, Both(s, t).messages)
            == LinkMs(hw, s.bytes, s.messages) + LinkMs(hw, t.bytes, t.messages)
  {
    var b := hw.linkBwBytesPerS;
    assert (s.bytes as real + t.bytes as real) / b == s.bytes as real / b + t.bytes as real / b;
    var x, y, r := s.messages as real, t.messages as real, hw.linkRttMs;
    assert (x + y) * r == x * r + y * r;
  }

  lemma NothingSent(hw: Hw)
    requires HwOk(hw)
    ensures LinkMs(hw, 0, 0) == 0.0 && ChunkMessages(hw, 0) == 0 && FaultMessages(hw, 0) == 0
  {
    NoneCeil(hw.linkChunkBytes);
    NoneCeil(hw.pageBytes);
    NoneCeil(if hw.poolPrefetchPages > 1 then hw.poolPrefetchPages else 1);
    QuotientBack(0.0, hw.linkBwBytesPerS);
  }

  lemma NoneCeil(d: nat)
    requires d > 0
    ensures CeilDiv(0, d) == 0
  {
    DivModUnique(d - 1, d, 0, d - 1);
  }

  lemma PlacementPrice(hw: Hw, layer: LayerInfo, p: Placement)
    requires HwOk(hw)
    ensures var t := WeightTraffic(hw, layer, p);
            PlacementCostMs(hw, layer, p) ==
            (if p == Fpga then FpgaComputeMs(hw, layer) else GpuComputeMs(hw, layer)) + LinkMs(hw, t.bytes, t.messages)
  {
    hide GpuComputeMs, FpgaComputeMs, LinkMs, ChunkMessages, FaultMessages;
    NothingSent(hw);
    var w := layer.weightBytes;
    LinkAdds(hw, Traffic(w, ChunkMessages(hw, w)), Traffic(hw.dispatchMsgBytes, 1));
  }

  lemma BoundaryPrice(hw: Hw, before: LayerInfo, from: Placement, to: Placement)
    requires HwOk(hw)
    ensures var t := BoundaryTraffic(hw, before, from, to);
            BoundaryCostMs(hw, before, from, to) == LinkMs(hw, t.bytes, t.messages)
  {
    hide LinkMs, ChunkMessages;
    NothingSent(hw);
  }

  /** The cost the solver minimises, by placements alone: the time of the units, and the time the link takes for exactly
      the bytes and messages the plan sends. */
  lemma {:induction false} PriceIsTraffic(q: Problem, a: Plan)
    requires ProblemOk(q) && Legal(q, a)
    ensures var t := PlanTraffic(q, a); PlanCost(q, a) == UnitTime(q, a) + LinkMs(q.hw, t.bytes, t.messages)
    decreases |a|
  {
    hide GpuComputeMs, FpgaComputeMs, LinkMs, ChunkMessages, FaultMessages, PlacementCostMs, BoundaryCostMs, Feasible,
         WeightTraffic, BoundaryTraffic;
    NothingSent(q.hw);
    if a != [] {
      var i, front := |a| - 1, a[..|a| - 1];
      PriceIsTraffic(q, front);
      var w := WeightTraffic(q.hw, q.layers[i], q.P[a[i]]);
      PlacementPrice(q.hw, q.layers[i], q.P[a[i]]);
      LinkAdds(q.hw, PlanTraffic(q, front), w);
      if i > 0 {
        var b := BoundaryTraffic(q.hw, q.layers[i - 1], q.P[a[i - 1]], q.P[a[i]]);
        BoundaryPrice(q.hw, q.layers[i - 1], q.P[a[i - 1]], q.P[a[i]]);
        LinkAdds(q.hw, Both(PlanTraffic(q, front), w), b);
      }
    }
  }

  /** A plan that puts no layer on the FPGA, or every layer, sends no activation: it has no transfer and pays none. */
  lemma {:induction false} OneSideNoTransfer(q: Problem, a: Plan)
    requires ProblemOk(q) && Legal(q, a)
    requires forall i, j :: 0 <= i < |a| && 0 <= j < |a| ==> (q.P[a[i]] == Fpga) == (q.P[a[j]] == Fpga)
    ensures Crossings(q, a) == {} && ActivationBytes(q, a) == 0 && Shares(q, a).activationXfer == 0.0
    decreases |a|
  {
    hide PlaceCost, GpuComputeMs, FpgaComputeMs, PoolWeightFaultMs, NmcWeightStreamMs, NmcDispatchMs;
    if a != [] {
      OneSideNoTransfer(q, a[..|a| - 1]);
    }
  }

  /** Which plans the solver may choose: a layer whose weights are not on the host fits the DDR2 alone, and one on the
      FPGA is of a kind its engines have. */
  lemma LegalIff(q: Problem, a: Plan)
    requires ProblemOk(q)
    ensures Legal(q, a) <==>
            && |a| <= |q.layers| && forall k :: 0 <= k < |a| ==>
              && a[k] < |q.P| && (q.P[a[k]] != Gpu ==> q.layers[k].weightBytes <= q.hw.fpgaDdr2Capacity)
              && (q.P[a[k]] == Fpga ==>
                    q.layers[k].opType in {"Gather", "MatMul", "Gemm", "Relu", "Add", "Mul"})
  {
    hide PlacementCostMs;
  }
}
