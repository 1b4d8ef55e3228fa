/** The message counts cost_model.py prices are the counts the runtime sends. */
module Pricing {
  import opened Bytes
  import opened CostModel
  import opened CxlWindow
  import opened Link
  import opened Price

  /** Faulting a layer's weights in page by page, first to last, through a fresh window: as many backend reads as
      the cost model charges round trips for, and every page exactly once. */
  method FaultWeights(hw: Hw, layer: LayerInfo, devBase: nat, dev: array<byte>) returns (win: Window)
    requires HwOk(hw) && devBase + CeilDiv(layer.weightBytes, hw.pageBytes) * hw.pageBytes <= dev.Length
    ensures fresh(win) && win.Valid() && win.dev == dev
    ensures win.fetchCalls == FaultMessages(hw, layer.weightBytes)
    ensures win.pagesFetched == CeilDiv(layer.weightBytes, hw.pageBytes)
    ensures win.Swept(win.npages)
  {
    hide CeilDiv;
    win := new Window(layer.weightBytes, devBase, hw.poolPrefetchPages, false, dev, hw.pageBytes);
    win.Sweep();
  }

  /** Streaming a layer's weights over the link: as many messages as the cost model charges, and as many bytes. */
  method StreamWeights(hw: Hw, layer: LayerInfo, link: Link, addr: nat, weights: seq<byte>) returns (ok: bool)
    requires HwOk(hw) && hw.linkChunkBytes == 4096 && |weights| == layer.weightBytes
    requires link.Quiet() && addr + |weights| <= link.t.ddr2.Length && addr + |weights| <= TWO32
    modifies link, link.t, link.t.ddr2, link.t.rx
    ensures ok && link.Quiet() && link.t.ddr2[..] == Splice(old(link.t.ddr2[..]), addr, weights)
    ensures link.linkMsgs == old(link.linkMsgs) + ChunkMessages(hw, layer.weightBytes)
    ensures link.t.writeBytes == old(link.t.writeBytes) + layer.weightBytes
  {
    hide CeilDiv, Splice;
    ok := link.Write(addr, weights);
  }

  /** Sending a layer's output to the device: as many messages as the cost model charges a boundary, and as many
      bytes. */
  method SendActivation(hw: Hw, before: LayerInfo, link: Link, addr: nat, out: seq<byte>) returns (ok: bool)
    requires HwOk(hw) && hw.linkChunkBytes == 4096 && |out| == before.outputTensorBytes
    requires link.Quiet() && addr + |out| <= link.t.ddr2.Length && addr + |out| <= TWO32
    modifies link, link.t, link.t.ddr2, link.t.rx
    ensures ok && link.Quiet() && link.t.ddr2[..] == Splice(old(link.t.ddr2[..]), addr, out)
    ensures link.linkMsgs == old(link.linkMsgs) + BoundaryTraffic(hw, before, Gpu, Fpga).messages
    ensures link.t.writeBytes == old(link.t.writeBytes) + BoundaryTraffic(hw, before, Gpu, Fpga).bytes
  {
    hide CeilDiv, Splice;
    ok := link.Write(addr, out);
  }

  /** Fetching it back takes one message whatever its length, which is what the cost model charges exactly for outputs
      of at most one chunk. */
  method FetchActivation(hw: Hw, before: LayerInfo, link: Link, addr: nat) returns (ok: bool, out: seq<byte>)
    requires HwOk(hw) && link.Quiet() && addr + before.outputTensorBytes <= link.t.ddr2.Length
             && addr + before.outputTensorBytes < TWO32
    modifies link, link.t, link.t.ddr2, link.t.rx
    ensures ok && link.Quiet() && out == link.t.ddr2[addr..addr + before.outputTensorBytes]
    ensures link.linkMsgs == old(link.linkMsgs) + 1
    ensures link.linkMsgs == old(link.linkMsgs) + BoundaryTraffic(hw, before, Fpga, Gpu).messages <==>
            1 <= before.outputTensorBytes <= hw.linkChunkBytes
  {
    ok, out := link.Read(addr, before.outputTensorBytes);
    OneChunkIff(before.outputTensorBytes, hw.linkChunkBytes);
  }

  lemma OneChunkIff(n: nat, chunk: nat)
    requires chunk > 0
    ensures CeilDiv(n, chunk) == 1 <==> 1 <= n <= chunk
  {
    var q, r := (n + chunk - 1) / chunk, (n + chunk - 1) % chunk;
    assert n + chunk - 1 == q * chunk + r;
    if 1 <= n <= chunk {
      DivModUnique(n + chunk - 1, chunk, 1, n - 1);
    }
  }

  /** Starting an engine: the one message the cost model charges, of its 33 bytes. */
  method Dispatch(hw: Hw, layer: LayerInfo, link: Link, op: byte, tb: nat, rows: nat, cols: nat, ia: nat, il: nat,
          oa: nat) returns (ok: bool)
    requires HwOk(hw) && hw.dispatchMsgBytes == 33 && hw.fpgaWeightsResident && link.Quiet()
    requires tb < TWO32 && rows < TWO32 && cols < TWO32 && ia < TWO32 && il < TWO32 && oa < TWO32
    modifies link, link.t, link.t.ddr2, link.t.rx
    ensures ok && link.Quiet()
    ensures WeightTraffic(hw, layer, Fpga) == Traffic(|ExecMsg(op, tb, rows, cols, ia, il, oa)|, 1)
    ensures link.linkMsgs == old(link.linkMsgs) + WeightTraffic(hw, layer, Fpga).messages
  {
    ok := link.Nmc(op, tb, rows, cols, ia, il, oa);
  }
}
