/** cost_model.py: what each placement of a layer costs, in exact arithmetic. */
module CostModel {
  import opened Bytes

  datatype Placement = Gpu | Pool | Fpga

  /** `PLACEMENTS`, in the order the solver tries them. */
  const PLACEMENTS: seq<Placement> := [Gpu, Pool, Fpga]

  datatype Location = Host | Device

  /** `COMPUTE_LOCATION`: pooled weights are computed on by the GPU. */
  function LocationOf(p: Placement): Location {
    if p == Fpga then Device else Host
  }

  datatype LayerInfo = LayerInfo(name: string, opType: string, weightBytes: nat, outputTensorBytes: nat,
                                 inputActivationBytes: nat, weightShapes: seq<seq<nat>>, outputShape: seq<nat>)

  datatype Hw = Hw(gpuGflops: real, fpgaInt8Gops: real, fpgaDdr2BwGbps: real, linkBwBytesPerS: real, linkRttMs: real,
                   fpgaDdr2Capacity: nat, hostWeightBudget: nat, pageBytes: nat, linkChunkBytes: nat,
                   poolPrefetchPages: nat, fpgaWeightsResident: bool, dispatchMsgBytes: nat)

  predicate HwOk(hw: Hw) {
    && hw.gpuGflops > 0.0 && hw.fpgaInt8Gops > 0.0 && hw.fpgaDdr2BwGbps > 0.0 && hw.linkBwBytesPerS > 0.0
    && hw.linkRttMs >= 0.0 && hw.pageBytes > 0 && hw.linkChunkBytes > 0
  }

  function Product(s: seq<nat>): nat {
    if s == [] then 1 else s[0] * Product(s[1..])
  }

  function Flops(layer: LayerInfo): (r: real)
    ensures r >= 0.0
  {
    if layer.opType in {"MatMul", "Gemm"} then
      if layer.weightShapes != [] && |layer.weightShapes[0]| == 2 && layer.outputShape != [] then
        var rows := if |layer.outputShape| > 1 then Product(layer.outputShape[..|layer.outputShape| - 1]) else 1;
        Dense(rows, layer.weightShapes[0][0], layer.weightShapes[0][1])
      else 2.0 * layer.weightBytes as real / 4.0
    else if layer.opType in {"Relu", "Add", "Mul"} then layer.outputTensorBytes as real / 4.0
    else 0.0
  }

  function Dense(rows: nat, k: nat, n: nat): (r: real)
    ensures r >= 0.0
  {
    var macs: nat := rows * k * n;
    2.0 * macs as real
  }

  function LinkMs(hw: Hw, nbytes: nat, messages: nat): (r: real)
    requires HwOk(hw)
    ensures r >= 0.0
  {
    Quotient(nbytes as real, hw.linkBwBytesPerS) * 1000.0 + Times(messages, hw.linkRttMs)
  }

  function Quotient(a: real, b: real): (r: real)
    requires a >= 0.0 && b > 0.0
    ensures r >= 0.0
  {
    a / b
  }

  function Times(n: nat, x: real): (r: real)
    requires x >= 0.0
    ensures r >= 0.0
  {
    n as real * x
  }

  function GpuComputeMs(hw: Hw, layer: LayerInfo): (r: real)
    requires HwOk(hw)
    ensures r >= 0.0
  {
    var f := Flops(layer);
    if f == 0.0 then 0.005 else Quotient(f, hw.gpuGflops * 1000000000.0) * 1000.0
  }

  function FpgaComputeMs(hw: Hw, layer: LayerInfo): (r: real)
    requires HwOk(hw)
    ensures r >= 0.0
  {
    var ddrBw := hw.fpgaDdr2BwGbps * 1000000000.0;
    if layer.opType == "Gather" then
      Quotient((layer.inputActivationBytes + 2 * layer.outputTensorBytes) as real, ddrBw) * 1000.0
    else
      var f := Flops(layer);
      if f == 0.0 then 0.001
      else
        var macMs := Quotient(f, hw.fpgaInt8Gops * 1000000000.0) * 1000.0;
        var ddrMs := Quotient(layer.weightBytes as real / 4.0 + layer.inputActivationBytes as real, ddrBw) * 1000.0;
        if macMs >= ddrMs then macMs else ddrMs
  }

  /** Backend reads that fault `weightBytes` in, page by page or several pages at a time. */
  function FaultMessages(hw: Hw, weightBytes: nat): nat
    requires HwOk(hw)
  {
    CeilDiv(CeilDiv(weightBytes, hw.pageBytes), if hw.poolPrefetchPages > 1 then hw.poolPrefetchPages else 1)
  }

  function PoolWeightFaultMs(hw: Hw, layer: LayerInfo): (r: real)
    requires HwOk(hw)
    ensures r >= 0.0
  {
    if layer.weightBytes == 0 then 0.0 else LinkMs(hw, layer.weightBytes, FaultMessages(hw, layer.weightBytes))
  }

  /** DATA_WRITE messages that carry nbytes. */
  function ChunkMessages(hw: Hw, nbytes: nat): nat
    requires HwOk(hw)
  {
    CeilDiv(nbytes, hw.linkChunkBytes)
  }

  function NmcWeightStreamMs(hw: Hw, layer: LayerInfo): (r: real)
    requires HwOk(hw)
    ensures r >= 0.0
  {
    if hw.fpgaWeightsResident || layer.weightBytes == 0 then 0.0
    else LinkMs(hw, layer.weightBytes, ChunkMessages(hw, layer.weightBytes))
  }

  function NmcDispatchMs(hw: Hw): (r: real)
    requires HwOk(hw)
    ensures r >= 0.0
  {
    LinkMs(hw, hw.dispatchMsgBytes, 1)
  }

  function ActivationTransferMs(hw: Hw, nbytes: nat): (r: real)
    requires HwOk(hw)
    ensures r >= 0.0
  {
    if nbytes == 0 then 0.0 else LinkMs(hw, nbytes, ChunkMessages(hw, nbytes))
  }

  function PlacementCostMs(hw: Hw, layer: LayerInfo, p: Placement): (r: real)
    requires HwOk(hw)
    ensures r >= 0.0
  {
    match p
    case Gpu => GpuComputeMs(hw, layer)
    case Pool => PoolWeightFaultMs(hw, layer) + GpuComputeMs(hw, layer)
    case Fpga => NmcWeightStreamMs(hw, layer) + NmcDispatchMs(hw) + FpgaComputeMs(hw, layer)
  }

  /** The activation crosses the link only when the compute location changes. */
  function BoundaryCostMs(hw: Hw, prev: LayerInfo, from: Placement, to: Placement): (r: real)
    requires HwOk(hw)
    ensures r >= 0.0 && (LocationOf(from) == LocationOf(to) ==> r == 0.0)
  {
    if LocationOf(from) == LocationOf(to) then 0.0 else ActivationTransferMs(hw, prev.outputTensorBytes)
  }

  predicate FpgaFeasible(hw: Hw, layer: LayerInfo) {
    layer.opType in {"Gather", "MatMul", "Gemm", "Relu", "Add", "Mul"} && layer.weightBytes <= hw.fpgaDdr2Capacity
  }

  predicate PoolFeasible(hw: Hw, layer: LayerInfo) {
    layer.weightBytes <= hw.fpgaDdr2Capacity
  }

  predicate Feasible(hw: Hw, layer: LayerInfo, p: Placement) {
    match p
    case Gpu => true
    case Pool => PoolFeasible(hw, layer)
    case Fpga => FpgaFeasible(hw, layer)
  }

  lemma LinkPositive(hw: Hw, nbytes: nat, messages: nat)
    requires HwOk(hw) && nbytes > 0
    ensures LinkMs(hw, nbytes, messages) > 0.0
  {
    assert Quotient(nbytes as real, hw.linkBwBytesPerS) > 0.0;
  }

  /** Pooled weights are dearer than host weights, and streamed weights dearer than resident ones, by exactly their
      way over the link; each pair costs the same if and only if the layer has no weights. */
  lemma WeightsOverLink(hw: Hw, layer: LayerInfo)
    requires HwOk(hw)
    ensures var n := layer.weightBytes;
            var there, here := hw.(fpgaWeightsResident := true), hw.(fpgaWeightsResident := false);
            && PlacementCostMs(hw, layer, Pool) - PlacementCostMs(hw, layer, Gpu) ==
               (if n == 0 then 0.0 else LinkMs(hw, n, FaultMessages(hw, n)))
            && PlacementCostMs(here, layer, Fpga) - PlacementCostMs(there, layer, Fpga) ==
               (if n == 0 then 0.0 else LinkMs(hw, n, ChunkMessages(hw, n)))
            && (PlacementCostMs(hw, layer, Pool) <= PlacementCostMs(hw, layer, Gpu) <==> n == 0)
            && (PlacementCostMs(here, layer, Fpga) <= PlacementCostMs(there, layer, Fpga) <==> n == 0)
  {
    hide LinkMs, GpuComputeMs, FpgaComputeMs, FaultMessages, ChunkMessages;
    var there, here := hw.(fpgaWeightsResident := true), hw.(fpgaWeightsResident := false);
    SameLink(hw, there, layer);
    SameLink(hw, here, layer);
    if layer.weightBytes > 0 {
      LinkPositive(hw, layer.weightBytes, FaultMessages(hw, layer.weightBytes));
      LinkPositive(hw, layer.weightBytes, ChunkMessages(hw, layer.weightBytes));
    }
  }

  /** Where the weights live changes neither the link nor the units. */
  lemma SameLink(hw: Hw, hw': Hw, layer: LayerInfo)
    requires HwOk(hw) && hw' == hw.(fpgaWeightsResident := hw'.fpgaWeightsResident)
    ensures HwOk(hw') && NmcDispatchMs(hw') == NmcDispatchMs(hw)
            && FpgaComputeMs(hw', layer) == FpgaComputeMs(hw, layer)
    ensures forall n :: ChunkMessages(hw', n) == ChunkMessages(hw, n)
    ensures forall n, m :: LinkMs(hw', n, m) == LinkMs(hw, n, m)
  {
  }

  /** More memory makes more placements feasible and no placement dearer. */
  lemma MoreMemory(hw: Hw, hw': Hw, layer: LayerInfo, p: Placement)
    requires HwOk(hw) && hw'.fpgaDdr2Capacity >= hw.fpgaDdr2Capacity
    requires hw' == hw.(fpgaDdr2Capacity := hw'.fpgaDdr2Capacity, hostWeightBudget := hw'.hostWeightBudget)
    ensures HwOk(hw') && PlacementCostMs(hw', layer, p) == PlacementCostMs(hw, layer, p)
    ensures Feasible(hw, layer, p) ==> Feasible(hw', layer, p)
  {
  }
}
