/** Double buffering: in a streaming program consecutive fc layers keep their constants in different slots, so that the
    next layer's can be downloaded while the current one still reads its own. */
module Slots {
  import opened Bytes
  import opened Program
  import opened Walk
  import opened NodeSteps
  import opened Sharing
  import opened Lowering
  import Requant
  import G = Graph

  /** The fc layers among the first n. */
  function FcBefore(layers: seq<Layer>, n: nat): nat
    requires n <= |layers|
  {
    if n == 0 then 0 else FcBefore(layers, n - 1) + if layers[n - 1].Fc? then 1 else 0
  }

  lemma {:induction false} FcBeforeSame(a: seq<Layer>, b: seq<Layer>, n: nat)
    requires n <= |a| && n <= |b| && a[..n] == b[..n]
    ensures FcBefore(a, n) == FcBefore(b, n)
  {
    if n > 0 {
      assert a[..n - 1] == a[..n][..n - 1] && b[..n - 1] == b[..n][..n - 1];
      assert a[n - 1] == a[..n][n - 1] && b[n - 1] == b[..n][n - 1];
      FcBeforeSame(a, b, n - 1);
    }
  }

  /** Layer n, if it is an fc layer, has its weights at the start of the slot whose turn it is and its biases behind
      them, both inside the slot. */
  ghost predicate InSlot(c: Ctx, layers: seq<Layer>, n: nat)
    requires n < |layers|
  {
    var L := layers[n];
    L.Fc? ==>
      && L.wAddr == SlotOf(c, FcBefore(layers, n)) && L.bAddr == L.wAddr + L.Mpad * L.Kpad
      && L.Mpad * L.Kpad + 4 * L.Mpad <= c.slotBytes
  }

  ghost predicate AllInSlots(c: Ctx, layers: seq<Layer>) {
    forall n :: 0 <= n < |layers| ==> InSlot(c, layers, n)
  }

  /** One layer more. */
  lemma SlotsNext(c: Ctx, layers: seq<Layer>, L: Layer, f: nat)
    requires AllInSlots(c, layers) && FcBefore(layers, |layers|) == f
    requires L.Fc? ==>
               && L.wAddr == SlotOf(c, f) && L.bAddr == L.wAddr + L.Mpad * L.Kpad
               && L.Mpad * L.Kpad + 4 * L.Mpad <= c.slotBytes
    ensures AllInSlots(c, layers + [L])
    ensures FcBefore(layers + [L], |layers| + 1) == f + if L.Fc? then 1 else 0
  {
    hide SlotOf;
    var more := layers + [L];
    forall n: nat | n <= |layers|
      ensures FcBefore(more, n) == FcBefore(layers, n)
    {
      assert more[..n] == layers[..n];
      FcBeforeSame(more, layers, n);
    }
    forall n | 0 <= n < |more|
      ensures InSlot(c, more, n)
    {
      if n < |layers| {
        assert InSlot(c, layers, n);
      }
    }
  }

  lemma EmitSlots(c: Ctx, w: Walk, k: nat)
    requires c.streaming && SlotsOk(c) && Shaped(c, k) && Emit(c, w, k, FcCount(c.g, k)).Ok?
    requires AllInSlots(c, w.p.layers) && FcBefore(w.p.layers, |w.p.layers|) == FcCount(c.g, k)
    ensures var v := Emit(c, w, k, FcCount(c.g, k)).value;
            AllInSlots(c, v.p.layers) && FcBefore(v.p.layers, |v.p.layers|) == FcCount(c.g, k + 1)
  {
    hide AllInSlots, SlotOf, GatherAfter, ConcatAfter, MatMulAfter, G.NodeShaped, G.Fused, SlotsOk, FcBefore;
    var n, f := c.g.nodes[k], FcCount(c.g, k);
    match n
    case GatherNode(_, _, _, _, _) =>
      GatherAdds(c, w, k);
      SlotsNext(c, w.p.layers, GatherAfter(c, w, k).p.layers[|w.p.layers|], f);
    case ConcatNode(_, _, _) =>
      ConcatAdds(c, w, k);
      SlotsNext(c, w.p.layers, ConcatRecord(c, w, k), f);
    case MatMulNode(_, _, _, _, _, _, _, _) =>
      var u := DenseAfter(w, n.x, n.K);
      MatMulAdds(c, w, k, f);
      SlotsNext(c, w.p.layers, FcRecord(c, u, k, f), f);
    case _ =>
  }

  lemma GatherAdds(c: Ctx, w: Walk, k: nat)
    requires Shaped(c, k) && c.g.nodes[k].GatherNode?
    ensures var q := GatherAfter(c, w, k).p.layers;
            |q| == |w.p.layers| + 1 && q == w.p.layers + [q[|w.p.layers|]] && q[|w.p.layers|].Gather?
  {
    hide Next, Stored, TableBytes, G.IsPart, Pad16, GatherAfter;
    GatherIs(c, w, k);
  }

  lemma ConcatAdds(c: Ctx, w: Walk, k: nat)
    requires IsConcat(c, k)
    ensures ConcatAfter(c, w, k).p.layers == w.p.layers + [ConcatRecord(c, w, k)] && ConcatRecord(c, w, k).Concat?
  {
    hide PartsAfter, PartsLen;
  }

  lemma MatMulAdds(c: Ctx, w: Walk, k: nat, f: nat)
    requires c.streaming && SlotsOk(c) && Shaped(c, k) && c.g.nodes[k].MatMulNode?
    ensures var u := DenseAfter(w, c.g.nodes[k].x, c.g.nodes[k].K);
            && c.g.nodes[k].x in u.produced
            && var L := FcRecord(c, u, k, f);
               && MatMulAfter(c, w, k, f).p.layers == w.p.layers + [L]
               && L.Fc? && L.wAddr == SlotOf(c, f) && L.bAddr == L.wAddr + L.Mpad * L.Kpad
               && L.Mpad * L.Kpad + 4 * L.Mpad <= c.slotBytes
  {
    hide Next, FcProgram, FcRecord, Pad16, WeightBytes, G.IsFinal, G.ChainOut, AfterLayer, DenseAfter, SlotOf,
         AfterConsts, G.NodeShaped, AfterWeights, Requant.Params, G.FusedRelu;
    var n := c.g.nodes[k];
    var u := DenseAfter(w, n.x, n.K);
    DenseKeeps(w, n.x, n.K);
    BiasAddress(c, u, k, f);
    FcAfterIs(c, u, k, f);
    AreaIs(n);
  }

  lemma {:induction false} RunSlots(c: Ctx, k: nat)
    requires c.streaming && SlotsOk(c) && AllShaped(c) && k <= |c.g.nodes| && Run(c, Start(c), k).Ok?
    ensures var w := Run(c, Start(c), k).value;
            AllInSlots(c, w.p.layers) && FcBefore(w.p.layers, |w.p.layers|) == FcCount(c.g, k)
  {
    hide SlotsOk, AllInSlots, Emit, Shaped;
    if k == 0 {
      NoneInSlots(c);
    } else {
      RunSlots(c, k - 1);
      ShapedOne(c, k - 1);
      EmitSlots(c, Run(c, Start(c), k - 1).value, k - 1);
    }
  }

  lemma NoneInSlots(c: Ctx)
    ensures AllInSlots(c, [])
  {
  }

  /** Every other fc layer shares a slot; two in a row, with no fc layer between, never overlap. */
  lemma NextLayerApart(c: Ctx, p: Program, i: nat, j: nat)
    requires c.streaming && SlotsOk(c) && AllShaped(c) && Lowered(c, p)
    requires i < j < |p.layers| && p.layers[i].Fc? && p.layers[j].Fc?
    requires forall n :: i < n < j ==> !p.layers[n].Fc?
    ensures var L, M := p.layers[i], p.layers[j];
            Apart(L.wAddr, L.bAddr + 4 * L.Mpad - L.wAddr, M.wAddr, M.bAddr + 4 * M.Mpad - M.wAddr)
  {
    hide Run, AllShaped, AllInSlots, FcBefore;
    RunSlots(c, |c.g.nodes|);
    InSlotAt(c, p.layers, i);
    InSlotAt(c, p.layers, j);
    FcBetween(p.layers, i, j);
  }

  lemma InSlotAt(c: Ctx, layers: seq<Layer>, n: nat)
    requires AllInSlots(c, layers) && n < |layers|
    ensures InSlot(c, layers, n)
  {
  }

  lemma {:induction false} FcBetween(layers: seq<Layer>, i: nat, j: nat)
    requires i < j <= |layers| && layers[i].Fc? && forall n :: i < n < j ==> !layers[n].Fc?
    ensures FcBefore(layers, j) == FcBefore(layers, i) + 1
    decreases j
  {
    if i + 1 < j {
      FcBetween(layers, i, j - 1);
    }
  }
}
