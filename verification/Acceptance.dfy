/** Which graphs `lower` takes and how much memory their programs need, read off the graph: no walk, no allocator. */
module Acceptance {
  import opened Bytes
  import opened Program
  import opened Walk
  import opened WalkLayers
  import opened NodeSteps
  import opened Pins
  import opened Sharing
  import opened Lowering
  import G = Graph

  // ----- what each node needs -----

  /** Node i gives tensor t an address; a MatMul does so for the input it reads and for the end of its chain. */
  predicate Provides(g: G.Graph, i: nat, t: string)
    requires i < |g.nodes|
  {
    match g.nodes[i]
    case GatherNode(_, _, _, _, out) => out == t
    case ConcatNode(_, _, out) => out == t
    case IdentityNode(_, _, out) => out == t
    case MatMulNode(_, x, _, _, _, _, _, _) => x == t || G.ChainOut(g, i) == t
    case _ => false
  }

  predicate Provided(g: G.Graph, k: nat, t: string) {
    exists i :: 0 <= i < k && i < |g.nodes| && Provides(g, i, t)
  }

  /** Node k is of a kind lowering knows, and what it reads is there. */
  predicate Emittable(g: G.Graph, k: nat)
    requires k < |g.nodes|
  {
    match g.nodes[k]
    case GatherNode(_, _, _, _, _) => true
    case ConcatNode(_, ins, _) => forall j :: 0 <= j < |ins| ==> Provided(g, k, ins[j]) || ins[j] in g.inputs
    case MatMulNode(_, x, _, _, _, _, _, _) => Provided(g, k, x) || x in g.inputs
    case AddNode(_, _, _) => G.Fused(g, k)
    case ReluNode(_, _, _) => G.Fused(g, k)
    case IdentityNode(_, input, _) => Provided(g, k, input)
    case OtherNode(_, _, _) => false
  }

  /** Concat q can be laid out without a copy. */
  predicate Layable(g: G.Graph, q: nat)
    requires q < |g.nodes| && g.nodes[q].ConcatNode?
  {
    var ins := g.nodes[q].ins;
    forall i :: 0 <= i < |ins| ==>
      && ins[i] !in g.inits
      && (ins[i] in g.inputs || exists j :: 0 <= j < |g.nodes| && g.nodes[j].GatherNode? && g.nodes[j].out == ins[i])
      && G.SumLens(g.lens, ins[..i]) % 16 == 0
  }

  // ----- bytes -----

  /** What an allocation takes: at least one byte, in whole 16-byte words. */
  function Takes(n: nat): (m: nat)
    ensures m % 16 == 0 && n <= m && 0 < m < n + 17
  {
    Pad16(if n == 0 then 1 else n)
  }

  lemma NextTakes(a: nat, n: nat)
    requires a % 16 == 0
    ensures Next(a, n) == a + Takes(n)
  {
    PadSum(a, if n == 0 then 1 else n);
  }

  lemma PadSum(a: nat, n: nat)
    requires a % 16 == 0
    ensures Pad16(a + n) == a + Pad16(n)
  {
  }

  /** Weights and biases of an fc layer, padded. */
  function ConstBytes(n: G.Node): nat
    requires n.MatMulNode?
  {
    WeightArea(n) + 4 * Pad16(n.N)
  }

  /** What node k adds behind everything before it: a table, its index word and, unless a Concat has room for it, its
      row; an fc layer's input if nobody has placed it, its constants if they are resident, its accumulators, and its
      output unless those are the answer. */
  function NodeBytes(g: G.Graph, streaming: bool, k: nat): nat
    requires k < |g.nodes|
  {
    var n := g.nodes[k];
    match n
    case GatherNode(_, table, dim, _, out) =>
      Takes(|table| * Pad16(dim)) + 16 + (if InConcat(g, out) then 0 else Takes(Pad16(dim)))
    case MatMulNode(_, x, K, N, _, _, _, _) =>
      (if Provided(g, k, x) then 0 else Takes(Pad16(K))) + (if streaming then 0 else ConstBytes(n)) + 4 * Pad16(N)
      + (if G.IsFinal(g, k) then 0 else Pad16(N))
    case _ => 0
  }

  predicate InConcat(g: G.Graph, t: string) {
    exists q :: 0 <= q < |g.nodes| && g.nodes[q].ConcatNode? && (t in g.nodes[q].ins || g.nodes[q].out == t)
  }

  function ConcatBytes(g: G.Graph, k: nat): nat
    requires k <= |g.nodes|
  {
    if k == 0 then 0
    else ConcatBytes(g, k - 1) +
         if g.nodes[k - 1].ConcatNode? then Takes(Pad16(G.SumLens(g.lens, g.nodes[k - 1].ins))) else 0
  }

  function NodesBytes(g: G.Graph, streaming: bool, k: nat): nat
    requires k <= |g.nodes|
  {
    if k == 0 then 0 else NodesBytes(g, streaming, k - 1) + NodeBytes(g, streaming, k - 1)
  }

  /** Two slots of the largest layer's size. */
  function SlotBytes(g: G.Graph, streaming: bool): nat {
    if streaming then 2 * Takes(Pad16(Biggest(g, |g.nodes|))) else 0
  }

  /** The DDR2 a program needs. */
  function Footprint(g: G.Graph, streaming: bool): nat {
    ConcatBytes(g, |g.nodes|) + SlotBytes(g, streaming) + NodesBytes(g, streaming, |g.nodes|)
  }

  // ----- before the walk -----

  lemma {:induction false} PinsEnd(g: G.Graph, k: nat)
    requires k <= |g.nodes|
    ensures PinsAfter(g, k).0 == ConcatBytes(g, k) && ConcatBytes(g, k) % 16 == 0
  {
    hide Next, PartPins, Takes, Pad16;
    if k > 0 {
      PinsEnd(g, k - 1);
      if g.nodes[k - 1].ConcatNode? {
        NextTakes(ConcatBytes(g, k - 1), Pad16(G.SumLens(g.lens, g.nodes[k - 1].ins)));
      }
    }
  }

  lemma ReservedEnd(g: G.Graph, streaming: bool)
    ensures Reserved(g, streaming).walkStart == ConcatBytes(g, |g.nodes|) + SlotBytes(g, streaming)
    ensures Reserved(g, streaming).walkStart % 16 == 0
    ensures Reserved(g, streaming).pins == PinsAfter(g, |g.nodes|).1
  {
    hide PinsAfter, Next, Takes, Pad16, Biggest;
    PinsEnd(g, |g.nodes|);
    var e, slot := ConcatBytes(g, |g.nodes|), Pad16(Biggest(g, |g.nodes|));
    NextTakes(e, slot);
    NextTakes(e + Takes(slot), slot);
  }

  lemma {:induction false} PartKeys(g: G.Graph, pins: map<string, nat>, ins: seq<string>, i: nat, base: nat, t: string)
    requires i <= |ins|
    ensures t in PartPins(g, pins, ins, i, base) <==> t in pins || t in ins[..i]
  {
    if i > 0 {
      PartKeys(g, pins, ins, i - 1, base, t);
      assert ins[..i] == ins[..i - 1] + [ins[i - 1]];
    }
  }

  /** What Concats have room for is what is pinned. */
  lemma {:induction false} PinKeys(g: G.Graph, k: nat, t: string)
    requires k <= |g.nodes|
    ensures t in PinsAfter(g, k).1 <==>
            exists q :: 0 <= q < k && g.nodes[q].ConcatNode? && (t in g.nodes[q].ins || g.nodes[q].out == t)
  {
    hide Next, PartPins, Pad16;
    if k > 0 {
      PinKeys(g, k - 1, t);
      var n := g.nodes[k - 1];
      if n.ConcatNode? {
        var (base, pins) := PinsAfter(g, k - 1);
        PartKeys(g, pins, n.ins, |n.ins|, base, t);
        assert n.ins[..|n.ins|] == n.ins;
      }
    }
  }

  lemma PinnableIff(g: G.Graph, streaming: bool)
    ensures AllPinnable(Reserved(g, streaming)) <==>
            forall q: nat :: q < |g.nodes| && g.nodes[q].ConcatNode? ==> Layable(g, q)
  {
    hide Reserved, G.SumLens;
    var c := Reserved(g, streaming);
    ReservedFor(g, streaming);
    forall q: nat | q < |g.nodes| && g.nodes[q].ConcatNode?
      ensures IsConcat(c, q) && (Pinnable(c, q) <==> Layable(g, q))
    {
    }
  }

  // ----- the walk -----

  /** Where the walk stands: as many bytes on, and the tensors provided so far known. */
  ghost predicate At(c: Ctx, w: Walk, k: nat)
    requires k <= |c.g.nodes|
  {
    && w.p.layoutEnd == c.walkStart + NodesBytes(c.g, c.streaming, k) && w.p.layoutEnd % 16 == 0
    && forall t :: t in w.produced <==> Provided(c.g, k, t)
  }

  lemma ProvidedNext(g: G.Graph, k: nat, t: string)
    requires k < |g.nodes|
    ensures Provided(g, k + 1, t) <==> Provided(g, k, t) || Provides(g, k, t)
  {
    hide Provides;
  }

  /** What node k does if it can be emitted. */
  lemma EmitBytes(c: Ctx, w: Walk, k: nat, f: nat)
    requires Shaped(c, k) && At(c, w, k) && c.pins == PinsAfter(c.g, |c.g.nodes|).1
    ensures Emittable(c.g, k) && (c.g.nodes[k].GatherNode? || c.g.nodes[k].MatMulNode? ==>
                w.p.layoutEnd + NodeBytes(c.g, c.streaming, k) <= DDR2_BYTES)
            <==> Emit(c, w, k, f).Ok?
    ensures Emit(c, w, k, f).Ok? ==> At(c, Emit(c, w, k, f).value, k + 1)
  {
    hide Provided, Provides, G.NodeShaped, GatherAfter, MatMulAfter, PartsAfter, PartsLen, Takes, NodeBytes, InConcat,
         PinsAfter, G.Fused, G.ChainOut;
    forall t
      ensures Provided(c.g, k + 1, t) <==> Provided(c.g, k, t) || Provides(c.g, k, t)
    {
      ProvidedNext(c.g, k, t);
    }
    match c.g.nodes[k]
    case GatherNode(_, _, _, _, _) => GatherBytes(c, w, k);
    case MatMulNode(_, _, _, _, _, _, _, _) => MatMulBytes(c, w, k, f);
    case _ => OtherBytes(c, w, k, f);
  }

  lemma GatherBytes(c: Ctx, w: Walk, k: nat)
    requires Shaped(c, k) && At(c, w, k) && c.g.nodes[k].GatherNode? && c.pins == PinsAfter(c.g, |c.g.nodes|).1
    ensures var v := GatherAfter(c, w, k);
            && v.p.layoutEnd == w.p.layoutEnd + NodeBytes(c.g, c.streaming, k) && v.p.layoutEnd % 16 == 0
            && forall t :: t in v.produced <==> t in w.produced || Provides(c.g, k, t)
  {
    hide Provided, Next, GatherAfter, Takes, Stored, G.IsPart, PinsAfter, Pad16;
    var n := c.g.nodes[k];
    GatherIs(c, w, k);
    PinKeys(c.g, |c.g.nodes|, n.out);
    var d, e := |TableBytes(n)|, w.p.layoutEnd;
    NextTakes(e, d);
    NextTakes(e + Takes(d), 16);
    Sixteen();
    NextTakes(e + Takes(d) + 16, Pad16(n.dim));
  }

  lemma Sixteen()
    ensures Takes(16) == 16
  {
  }

  lemma Whole(n: nat)
    requires n > 0 && n % 16 == 0
    ensures Takes(n) == n
  {
  }

  lemma Areas(n: G.Node)
    requires n.MatMulNode? && n.N > 0 && n.K > 0
    ensures WeightArea(n) > 0 && WeightArea(n) % 16 == 0 && 4 * Pad16(n.N) > 0 && 4 * Pad16(n.N) % 16 == 0
            && Pad16(n.N) > 0
  {
    MulLe(1, Pad16(n.N), Pad16(n.K));
  }

  lemma MatMulBytes(c: Ctx, w: Walk, k: nat, f: nat)
    requires Shaped(c, k) && At(c, w, k) && c.g.nodes[k].MatMulNode?
    ensures var v := MatMulAfter(c, w, k, f);
            && v.p.layoutEnd == w.p.layoutEnd + NodeBytes(c.g, c.streaming, k) && v.p.layoutEnd % 16 == 0
            && forall t :: t in v.produced <==> t in w.produced || Provides(c.g, k, t)
  {
    hide Next, FcProgram, FcRecord, Takes, Pad16, WeightBytes, G.IsFinal, G.ChainOut, WeightArea, AfterConsts,
         AfterLayer, DenseAfter;
    var n := c.g.nodes[k];
    var u := DenseAfter(w, n.x, n.K);
    DenseKeeps(w, n.x, n.K);
    DenseBytes(w, n.x, n.K);
    ConstsBytes(c, u, k);
    LayerBytes(c, u, k);
    MatMulEnds(c, w, k, f);
  }

  lemma DenseBytes(w: Walk, x: string, n: nat)
    requires w.p.layoutEnd % 16 == 0
    ensures var u := DenseAfter(w, x, n);
            && u.p.layoutEnd == w.p.layoutEnd + (if x in w.produced then 0 else Takes(Pad16(n)))
            && u.p.layoutEnd % 16 == 0 && u.produced.Keys == w.produced.Keys + {x}
  {
    hide Takes, Pad16, Next;
    NextTakes(w.p.layoutEnd, Pad16(n));
  }

  lemma ConstsBytes(c: Ctx, u: Walk, k: nat)
    requires Shaped(c, k) && c.g.nodes[k].MatMulNode? && u.p.layoutEnd % 16 == 0
    ensures AfterConsts(c, u, k) == u.p.layoutEnd + (if c.streaming then 0 else ConstBytes(c.g.nodes[k]))
    ensures AfterConsts(c, u, k) % 16 == 0
  {
    hide Takes, Pad16, Next, WeightBytes, WeightArea;
    var n := c.g.nodes[k];
    WeightsSize(n);
    Areas(n);
    Whole(WeightArea(n));
    Whole(4 * Pad16(n.N));
    NextTakes(u.p.layoutEnd, WeightArea(n));
    NextTakes(u.p.layoutEnd + WeightArea(n), 4 * Pad16(n.N));
  }

  lemma LayerBytes(c: Ctx, u: Walk, k: nat)
    requires Shaped(c, k) && c.g.nodes[k].MatMulNode? && AfterConsts(c, u, k) % 16 == 0
    ensures var n := c.g.nodes[k];
            AfterLayer(c, u, k) == AfterConsts(c, u, k) + 4 * Pad16(n.N) + (if G.IsFinal(c.g, k) then 0 else Pad16(n.N))
    ensures AfterLayer(c, u, k) % 16 == 0
  {
    hide Takes, Pad16, Next, WeightArea, AfterConsts, G.IsFinal;
    var n := c.g.nodes[k];
    Areas(n);
    Whole(4 * Pad16(n.N));
    PadWhole(n.N);
    NextTakes(AfterConsts(c, u, k), 4 * Pad16(n.N));
    NextTakes(AfterConsts(c, u, k) + 4 * Pad16(n.N), Pad16(n.N));
  }

  lemma PadWhole(n: nat)
    requires n > 0
    ensures Takes(Pad16(n)) == Pad16(n)
  {
  }

  lemma MatMulEnds(c: Ctx, w: Walk, k: nat, f: nat)
    requires Shaped(c, k) && c.g.nodes[k].MatMulNode?
    ensures var u, v := DenseAfter(w, c.g.nodes[k].x, c.g.nodes[k].K), MatMulAfter(c, w, k, f);
            v.p.layoutEnd == AfterLayer(c, u, k) && v.produced.Keys == u.produced.Keys + {G.ChainOut(c.g, k)}
  {
    hide Next, FcProgram, FcRecord, Pad16, WeightBytes, G.IsFinal, G.ChainOut, AfterLayer, DenseAfter;
    DenseKeeps(w, c.g.nodes[k].x, c.g.nodes[k].K);
  }

  lemma OtherBytes(c: Ctx, w: Walk, k: nat, f: nat)
    requires Shaped(c, k) && At(c, w, k) && !c.g.nodes[k].GatherNode? && !c.g.nodes[k].MatMulNode?
    ensures Emittable(c.g, k) <==> Emit(c, w, k, f).Ok?
    ensures NodeBytes(c.g, c.streaming, k) == 0
    ensures Emit(c, w, k, f).Ok? ==>
              var v := Emit(c, w, k, f).value;
              v.p.layoutEnd == w.p.layoutEnd && forall t :: t in v.produced <==> t in w.produced || Provides(c.g, k, t)
  {
    hide Provided, PartsAfter, PartsLen, G.Fused, G.ChainOut;
  }

  lemma {:induction false} BytesGrow(g: G.Graph, streaming: bool, k: nat, m: nat)
    requires k <= m <= |g.nodes|
    ensures NodesBytes(g, streaming, k) <= NodesBytes(g, streaming, m)
  {
    hide NodeBytes;
    if k < m {
      BytesGrow(g, streaming, k, m - 1);
    }
  }

  /** The first k nodes can be emitted exactly if each can, and what they take fits. */
  lemma {:induction false} RunIff(c: Ctx, k: nat)
    requires AllShaped(c) && k <= |c.g.nodes| && c.pins == PinsAfter(c.g, |c.g.nodes|).1
    requires c.walkStart % 16 == 0 && c.walkStart <= DDR2_BYTES
    ensures Run(c, Start(c), k).Ok? <==>
            && (forall i :: 0 <= i < k ==> Emittable(c.g, i))
            && c.walkStart + NodesBytes(c.g, c.streaming, k) <= DDR2_BYTES
    ensures Run(c, Start(c), k).Ok? ==> At(c, Run(c, Start(c), k).value, k)
  {
    hide Emit, Emittable, NodeBytes, PinsAfter, Provided;
    if k == 0 {
      StartAt(c);
    } else {
      RunIff(c, k - 1);
      ShapedOne(c, k - 1);
      BytesGrow(c.g, c.streaming, k - 1, k);
      if Run(c, Start(c), k - 1).Ok? {
        EmitBytes(c, Run(c, Start(c), k - 1).value, k - 1, FcCount(c.g, k - 1));
        if !c.g.nodes[k - 1].GatherNode? && !c.g.nodes[k - 1].MatMulNode? {
          NoBytes(c.g, c.streaming, k - 1);
        }
      }
    }
  }

  lemma NoBytes(g: G.Graph, streaming: bool, k: nat)
    requires k < |g.nodes| && !g.nodes[k].GatherNode? && !g.nodes[k].MatMulNode?
    ensures NodeBytes(g, streaming, k) == 0
  {
  }

  lemma StartAt(c: Ctx)
    requires c.walkStart % 16 == 0
    ensures At(c, Start(c), 0)
  {
  }

  /** Exactly the graphs `lower` takes, and exactly the memory their programs need: every Concat can be laid out, every
      node is of a known kind and finds what it reads, there is a MatMul, and the footprint fits. */
  lemma AcceptedIff(g: G.Graph, streaming: bool, ddr2Bytes: nat)
    requires G.Named(g)
    ensures Accepted(g, streaming, ddr2Bytes) <==>
            && (forall q: nat :: q < |g.nodes| && g.nodes[q].ConcatNode? ==> Layable(g, q))
            && (forall k :: 0 <= k < |g.nodes| ==> Emittable(g, k))
            && (exists k :: 0 <= k < |g.nodes| && g.nodes[k].MatMulNode?)
            && Footprint(g, streaming) <= 0x800_0000 && Footprint(g, streaming) <= ddr2Bytes
    ensures Accepted(g, streaming, ddr2Bytes) ==>
              var c := Reserved(g, streaming);
              AllShaped(c) && Run(c, Start(c), |g.nodes|).Ok?
                && Run(c, Start(c), |g.nodes|).value.p.layoutEnd == Footprint(g, streaming)
  {
    hide G.Named, AllPinnable, AllShaped, Run, Reserved, Layable, Emittable, NodesBytes, ConcatBytes, SlotBytes,
         PinsAfter, Provided;
    var c := Reserved(g, streaming);
    ReservedFor(g, streaming);
    ReservedEnd(g, streaming);
    PinnableIff(g, streaming);
    ShapedAll(c);
    if c.walkStart <= DDR2_BYTES {
      RunIff(c, |g.nodes|);
    }
  }

  // ----- streaming -----

  function AllConsts(g: G.Graph, k: nat): nat
    requires k <= |g.nodes|
  {
    if k == 0 then 0 else AllConsts(g, k - 1) + if g.nodes[k - 1].MatMulNode? then ConstBytes(g.nodes[k - 1]) else 0
  }

  lemma {:induction false} ConstsApart(g: G.Graph, k: nat)
    requires k <= |g.nodes|
    ensures NodesBytes(g, false, k) == NodesBytes(g, true, k) + AllConsts(g, k)
  {
    hide Takes, Pad16, Provided, InConcat, G.IsFinal, ConstBytes;
    if k > 0 {
      ConstsApart(g, k - 1);
    }
  }

  lemma {:induction false} BiggestIs(g: G.Graph, k: nat)
    requires k <= |g.nodes|
    ensures Biggest(g, k) == 0
            || exists j :: 0 <= j < k && g.nodes[j].MatMulNode? && ConstBytes(g.nodes[j]) == Biggest(g, k)
    ensures Biggest(g, k) % 16 == 0
  {
    hide WeightArea, Pad16;
    if k > 0 {
      BiggestIs(g, k - 1);
    }
  }

  /** Streaming trades the constants of all fc layers for twice those of the largest one, and nothing else: the
      footprint no longer grows with the number of layers' weights. */
  lemma StreamingFootprint(g: G.Graph)
    requires G.Named(g) && exists k :: 0 <= k < |g.nodes| && g.nodes[k].MatMulNode?
    ensures Footprint(g, true) + AllConsts(g, |g.nodes|) == Footprint(g, false) + 2 * Biggest(g, |g.nodes|)
    ensures forall j :: 0 <= j < |g.nodes| && g.nodes[j].MatMulNode? ==> ConstBytes(g.nodes[j]) <= Biggest(g, |g.nodes|)
    ensures exists j :: 0 <= j < |g.nodes| && g.nodes[j].MatMulNode? && ConstBytes(g.nodes[j]) == Biggest(g, |g.nodes|)
  {
    hide NodesBytes, ConcatBytes, Takes, Pad16, WeightArea, G.Named, Biggest;
    ConstsApart(g, |g.nodes|);
    BiggestIs(g, |g.nodes|);
    var k :| 0 <= k < |g.nodes| && g.nodes[k].MatMulNode?;
    NamedAreas(g, k);
    var b := Biggest(g, |g.nodes|);
    assert b >= ConstBytes(g.nodes[k]) > 0;
    Whole(b);
    PadSame16(b);
  }

  lemma NamedAreas(g: G.Graph, k: nat)
    requires G.Named(g) && k < |g.nodes| && g.nodes[k].MatMulNode?
    ensures ConstBytes(g.nodes[k]) > 0
  {
    Areas(g.nodes[k]);
  }

  lemma PadSame16(n: nat)
    requires n % 16 == 0
    ensures Pad16(n) == n
  {
  }
}
