/** The walk's layer steps: what a gather, a concat or an fc layer does to the invariant. */
module WalkLayers {
  import opened Bytes
  import opened Program
  import opened Layout
  import opened Walk
  import opened WalkSteps
  import G = Graph

  /** The shapes after one more layer. */
  lemma ShapesNext(p: Program, L: Layer, end: nat)
    ensures var q := WithLayer(p, L, end); var m := Shapes(p, |p.layers|);
            Shapes(q, |q.layers|) ==
            match L
            case Gather(_, _, _, dim, _, _, outAddr, _) => m[outAddr := dim]
            case Concat(_, _, outAddr, len) => m[outAddr := len]
            case Fc(_, _, _, _, N, _, _, _, _, outAddr, _, _, _, final, _) => if final then m else m[outAddr := N]
  {
    var q := WithLayer(p, L, end);
    assert q.layers[..|p.layers|] == p.layers[..|p.layers|];
    ShapesSame(p, q, |p.layers|);
    assert q.layers[|q.layers| - 1] == L;
  }

  /** What the layer writes a vector to, if it writes one. */
  function VecAddr(L: Layer): nat {
    L.outAddr
  }

  predicate WritesVec(L: Layer) {
    L.Fc? ==> !L.final
  }

  lemma HoldsNext(p: Program, L: Layer, end: nat, a: nat, n: nat)
    requires Holds(p, a, n) && (WritesVec(L) ==> a != VecAddr(L))
    ensures Holds(WithLayer(p, L, end), a, n)
  {
    hide Shapes;
    ShapesNext(p, L, end);
  }

  /** A vector another layer leaves alone is there for the next node too. */
  lemma ThereNext(c: Ctx, p: Program, L: Layer, end: nat, k: nat, a: nat, t: string)
    requires k < |c.g.nodes| && There(c, p, k, a, t) && (WritesVec(L) ==> a != VecAddr(L))
    ensures There(c, WithLayer(p, L, end), k + 1, a, t)
  {
    hide Shapes, G.Stale;
    G.StaleGrows(c.g, k);
    ShapesNext(p, L, end);
  }

  lemma ThereLater(c: Ctx, p: Program, k: nat, a: nat, t: string)
    requires k < |c.g.nodes| && There(c, p, k, a, t)
    ensures There(c, p, k + 1, a, t)
  {
    hide Holds, Covers, G.Stale;
    G.StaleGrows(c.g, k);
  }

  lemma HeldThere(c: Ctx, p: Program, k: nat, a: nat, t: string)
    requires k <= |c.g.nodes| && Holds(p, a, Len(c, t))
    ensures There(c, p, k, a, t)
  {
    hide Shapes, G.Stale;
  }

  lemma ConcatFacts(c: Ctx, q: nat)
    requires CtxOk(c) && IsConcat(c, q)
    ensures var n := c.g.nodes[q];
            && Pin(c, n.out) % 16 == 0 && Pin(c, n.out) < c.slotStart
            && Pin(c, n.out) + Pad16(Len(c, n.out)) <= c.slotStart <= c.walkStart
            && n.out in c.g.lens && Len(c, n.out) == G.SumLens(c.g.lens, n.ins)
  {
    hide Apart, Pad16, Sourced;
    assert ConcatPinned(c, q);
    G.NodeAt(c.g, q);
  }

  /** A node's output is a part only if the node is a Gather. */
  lemma NotPart(c: Ctx, i: nat)
    requires CtxOk(c) && i < |c.g.nodes| && !c.g.nodes[i].GatherNode?
    ensures !G.IsPart(c.g, c.g.nodes[i].out)
  {
    hide PinsOk, SlotsOk, G.IsPart, G.GraphOk;
    G.NodeAt(c.g, i);
    forall j: nat | j < |c.g.nodes| && c.g.nodes[j].GatherNode?
      ensures c.g.nodes[j].out != c.g.nodes[i].out
    {
      SameOut(c, i, j);
    }
    if G.IsPart(c.g, c.g.nodes[i].out) {
      PartFacts(c, c.g.nodes[i].out);
    }
  }

  lemma SameOut(c: Ctx, i: nat, j: nat)
    requires CtxOk(c) && i < |c.g.nodes| && j < |c.g.nodes|
    ensures c.g.nodes[i].out == c.g.nodes[j].out ==> i == j
  {
    hide PinsOk, SlotsOk, G.PartsUnshared, G.NodeShaped, G.IsFinal;
  }

  lemma SameName(c: Ctx, i: nat, j: nat)
    requires CtxOk(c) && i < |c.g.nodes| && j < |c.g.nodes| && c.g.nodes[i].name == c.g.nodes[j].name
    ensures i == j
  {
    hide PinsOk, SlotsOk, G.PartsUnshared, G.NodeShaped, G.IsFinal;
  }

  /** A layer's vector at o overwrites none of these tensors, and no part that waits for a later Concat. */
  ghost predicate Spares(c: Ctx, w: Walk, k: nat, kept: set<string>, o: nat) {
    && (forall t :: t in kept && t in w.produced ==> w.produced[t].0 != o)
    && (forall t, q: nat :: Gathered(c, w.produced, t) && k < q && G.PartOf(c.g, t, q) ==> Pin(c, t) != o)
  }

  lemma HeadsLater(c: Ctx, k: nat, q: nat, t: string)
    requires k < |c.g.nodes| && IsConcat(c, q) && Heads(c, k, q, t)
    ensures Heads(c, k + 1, q, t)
  {
    hide G.Aliases;
    G.AliasesGrow(c.g, k, c.g.nodes[q].ins[0]);
  }

  /** A live tensor the node leaves alone stays live. */
  lemma LiveLater(c: Ctx, w: Walk, k: nat, v: Walk, t: string)
    requires k < |c.g.nodes| && LiveTensor(c, w, k, t) && t in v.produced && v.produced[t] == w.produced[t]
    requires w.p.layoutEnd <= v.p.layoutEnd && w.done <= v.done && There(c, v.p, k + 1, w.produced[t].0, t)
    ensures LiveTensor(c, v, k + 1, t)
  {
    hide There, G.IsPart, Heads;
    forall q: nat | k + 1 <= q && IsConcat(c, q) && v.produced[t].0 == Pin(c, c.g.nodes[q].out)
      ensures Heads(c, k + 1, q, t)
    {
      HeadsLater(c, k, q, t);
    }
  }

  /** Tensors other than the layer's own keep their meaning. */
  lemma OthersNext(c: Ctx, w: Walk, k: nat, b: nat, L: Layer, end: nat, v: Walk, kept: set<string>)
    requires Inv(c, w, k, b) && k < |c.g.nodes| && w.p.layoutEnd <= end && v.p == WithLayer(w.p, L, end)
             && w.done <= v.done && kept <= w.live
    requires WritesVec(L) ==> Spares(c, w, k, kept, VecAddr(L))
    ensures forall t :: t in kept && t in v.produced && v.produced[t] == w.produced[t] ==> LiveTensor(c, v, k + 1, t)
    ensures forall t :: Gathered(c, w.produced, t) && t in v.produced && v.produced[t] == w.produced[t]
              ==> WaitingPart(c, v, k + 1, t)
  {
    hide CtxOk, Partial, Aligned, Placed, DoneOk, ReadsOk, TailOk, KeptOk, DeadEnd, Holds, There, G.IsPart, G.PartOf,
         IsConcat, Heads;
    forall t | t in kept && t in v.produced && v.produced[t] == w.produced[t]
      ensures LiveTensor(c, v, k + 1, t)
    {
      assert LiveTensor(c, w, k, t);
      ThereNext(c, w.p, L, end, k, w.produced[t].0, t);
      LiveLater(c, w, k, v, t);
    }
    forall t | Gathered(c, w.produced, t) && t in v.produced && v.produced[t] == w.produced[t]
      ensures WaitingPart(c, v, k + 1, t)
    {
      assert WaitingPart(c, w, k, t);
      forall q: nat | k + 1 <= q && G.PartOf(c.g, t, q)
        ensures Holds(v.p, Pin(c, t), Len(c, t))
      {
        HoldsNext(w.p, L, end, Pin(c, t), Len(c, t));
      }
    }
  }

  /** An address at or behind the end of the layout is nobody's. */
  lemma FreshSpares(c: Ctx, w: Walk, k: nat, b: nat, o: nat)
    requires Inv(c, w, k, b) && o >= w.p.layoutEnd
    ensures Spares(c, w, k, w.live, o)
  {
    hide CtxOk, Partial, Aligned, Placed, DoneOk, ReadsOk, TailOk, KeptOk, DeadEnd, Holds, There, G.IsPart, Pad16;
    forall t | t in w.live && t in w.produced
      ensures w.produced[t].0 != o
    {
      assert LiveTensor(c, w, k, t);
    }
    forall t, q: nat | Gathered(c, w.produced, t) && k < q && G.PartOf(c.g, t, q)
      ensures Pin(c, t) != o
    {
      PartIs(c, t, q);
      PartFacts(c, t);
      PadAbove(Len(c, t));
    }
  }

  lemma PadAbove(n: nat)
    ensures Pad16(n) >= n
  {
  }

  lemma PartIs(c: Ctx, t: string, q: nat)
    requires G.PartOf(c.g, t, q)
    ensures G.IsPart(c.g, t)
  {
  }

  /** A vector at a fresh, aligned address makes its tensor live. */
  lemma FreshLive(c: Ctx, v: Walk, k: nat, t: string, o: nat)
    requires CtxOk(c) && o >= c.walkStart && o % 16 == 0 && t in c.g.lens && k <= |c.g.nodes|
    requires t in v.produced && v.produced[t] == (o, Len(c, t)) && o < v.p.layoutEnd
             && o + Pad16(Len(c, t)) <= v.p.layoutEnd
    requires Holds(v.p, o, Len(c, t))
    ensures LiveTensor(c, v, k, t)
  {
    hide CtxOk, Holds, There, Pad16, G.IsPart;
    HeldThere(c, v.p, k, o, t);
    forall u | G.IsPart(c.g, u) && u !in v.done
      ensures o != Pin(c, u)
    {
      PartFacts(c, u);
      PadAbove(Len(c, u));
    }
    forall q: nat | k <= q && IsConcat(c, q)
      ensures o != Pin(c, c.g.nodes[q].out)
    {
      ConcatFacts(c, q);
    }
  }

  /** All writes of a fresh layer lie behind everything emitted before. */
  ghost predicate FreshWrites(L: Layer, start: nat) {
    match L
    case Gather(_, _, _, _, _, _, outAddr, _) => outAddr >= start
    case Concat(_, _, _, _) => true
    case Fc(_, _, _, _, _, _, _, _, accAddr, outAddr, _, _, _, final, _) =>
        accAddr >= start
        && (final || outAddr >= start)
  }

  lemma FreshLayerFits(p: Program, L: Layer, end: nat)
    requires Partial(p) && p.layoutEnd <= end && WritesBelow(L, end) && FreshWrites(L, p.layoutEnd)
    requires LayerOk(WithLayer(p, L, end), |p.layers|)
    ensures LayerFits(p, L, end)
  {
    hide LayerOk, Pad16, Clear, ClearOf, OutputOk;
    forall j | 0 <= j < |p.inputs|
      ensures Clear(L, p.inputs[j].addr, Pad16(p.inputs[j].Size()))
    {
      ClearBelow(L, p.layoutEnd, p.inputs[j].addr, Pad16(p.inputs[j].Size()));
    }
    forall k | 0 <= k < |p.segments|
      ensures Clear(L, p.segments[k].addr, p.segments[k].length)
    {
      ClearBelow(L, p.layoutEnd, p.segments[k].addr, p.segments[k].length);
    }
    forall n | 0 <= n < |p.layers|
      ensures ClearOf(L, p.layers[n])
    {
      ClearOfBelow(L, p.layers[n], p.layoutEnd);
    }
  }

  lemma ClearBelow(L: Layer, start: nat, a: nat, n: nat)
    requires FreshWrites(L, start) && a + n <= start
    ensures Clear(L, a, n)
  {
  }

  lemma ClearOfBelow(L: Layer, M: Layer, start: nat)
    requires FreshWrites(L, start) && WritesBelow(M, start)
    ensures ClearOf(L, M)
  {
    hide Clear;
    match M
    case Gather(_, _, _, _, dimBytes, _, outAddr, _) => ClearBelow(L, start, outAddr, dimBytes);
    case Concat(_, _, _, _) =>
    case Fc(_, _, _, _, _, Mpad, _, _, accAddr, outAddr, _, _, _, final, _) =>
      ClearBelow(L, start, accAddr, 4 * Mpad);
      if !final {
        ClearBelow(L, start, outAddr, Mpad);
      }
  }

  /** A gather into the slice of an unclaimed part. */
  lemma PinnedGatherFits(c: Ctx, w: Walk, k: nat, b: nat, t: string, L: Layer)
    requires Inv(c, w, k, b) && G.IsPart(c.g, t) && t !in w.done
    requires L.Gather? && L.outAddr == Pin(c, t) && L.dimBytes == Pad16(Len(c, t))
             && LayerOk(WithLayer(w.p, L, w.p.layoutEnd), |w.p.layers|)
    ensures LayerFits(w.p, L, w.p.layoutEnd)
  {
    hide LayerOk, Clear, ClearOf, Pad16, CtxOk, Aligned, DoneOk, TensorsOk, KeptOk, TailOk, ReadsOk, Partial, Apart,
         Claimed, G.IsPart, Sourced;
    PartFacts(c, t);
    forall j | 0 <= j < |w.p.inputs|
      ensures Clear(L, w.p.inputs[j].addr, Pad16(w.p.inputs[j].Size()))
    {
      assert InputPlaced(c, w.done, w.p.inputs[j]);
      ClaimApart(c, w, k, b, t, w.p.inputs[j].addr, Pad16(w.p.inputs[j].Size()));
      GatherClear(L, w.p.inputs[j].addr, Pad16(w.p.inputs[j].Size()));
    }
    forall s | 0 <= s < |w.p.segments|
      ensures Clear(L, w.p.segments[s].addr, w.p.segments[s].length)
    {
      assert SegPlaced(c, w.p.segments[s]);
      SegAboveParts(c, w.p.segments[s], t);
      GatherClear(L, w.p.segments[s].addr, w.p.segments[s].length);
    }
    forall n | 0 <= n < |w.p.layers|
      ensures ClearOf(L, w.p.layers[n])
    {
      assert LayerPlaced(c, w.done, w.p.layers[n]);
      LayerClearOfPart(c, w, k, b, w.p.layers[n], t);
      GatherClearOf(L, w.p.layers[n]);
    }
  }

  lemma GatherClear(L: Layer, a: nat, n: nat)
    requires L.Gather? && Apart(L.outAddr, L.dimBytes, a, n)
    ensures Clear(L, a, n)
  {
  }

  lemma GatherClearOf(L: Layer, M: Layer)
    requires L.Gather? && Clear(M, L.outAddr, L.dimBytes)
    ensures ClearOf(L, M)
  {
  }

  // ----- one node each -----

  lemma Held(p: Program, L: Layer, end: nat)
    requires WritesVec(L)
    ensures Holds(WithLayer(p, L, end), VecAddr(L), match L
              case Gather(_, _, _, dim, _, _, _, _) => dim
              case Concat(_, _, _, len) => len
              case Fc(_, _, _, _, N, _, _, _, _, _, _, _, _, _, _) => N)
  {
    hide Shapes;
    ShapesNext(p, L, end);
  }

  lemma PlacedNext(c: Ctx, w: Walk, b: nat, L: Layer, end: nat, v: Walk)
    requires Placed(c, w, b) && w.done <= v.done && v.p == WithLayer(w.p, L, end) && LayerPlaced(c, v.done, L)
             && NamedBefore(c.g, b, L.name)
    ensures Placed(c, v, b)
  {
    hide NamedBefore, SegPlaced, Pad16;
    forall j | 0 <= j < |w.p.inputs|
      ensures InputPlaced(c, v.done, w.p.inputs[j])
    {
      assert InputPlaced(c, w.done, w.p.inputs[j]);
    }
    forall n | 0 <= n < |v.p.layers|
      ensures LayerPlaced(c, v.done, v.p.layers[n])
    {
      if n < |w.p.layers| {
        assert LayerPlaced(c, w.done, w.p.layers[n]);
      }
    }
  }

  lemma ReadsNext(c: Ctx, w: Walk, L: Layer, end: nat, v: Walk)
    requires ReadsOk(c, w) && w.done <= v.done && v.p == WithLayer(w.p, L, end) && w.p.layoutEnd <= end
    requires forall a: nat :: ReadsAt(L, a) ==> a < end
    requires forall t :: G.IsPart(c.g, t) && t !in v.done ==> !ReadsAt(L, Pin(c, t))
    ensures ReadsOk(c, v)
  {
    hide ReadsAt, G.IsPart;
  }

  /** A layer that is not fc comes behind the last fc layer under another name. */
  lemma TailNext(c: Ctx, w: Walk, k: nat, L: Layer, end: nat, v: Walk)
    requires CtxOk(c) && TailOk(c, w, k) && k < |c.g.nodes| && !c.g.nodes[k].MatMulNode? && !L.Fc?
             && L.name == c.g.nodes[k].name
    requires v.p == WithLayer(w.p, L, end) && v.lastFc == w.lastFc && v.lastMat == w.lastMat
    ensures TailOk(c, v, k + 1)
  {
    hide PinsOk, SlotsOk, G.PartsUnshared, G.Named, G.IsFinal, TailOk;
    NamedTail(c, w, k, L, end, v);
  }

  lemma NamedTail(c: Ctx, w: Walk, k: nat, L: Layer, end: nat, v: Walk)
    requires G.Named(c.g) && TailOk(c, w, k) && k < |c.g.nodes| && !c.g.nodes[k].MatMulNode? && !L.Fc?
             && L.name == c.g.nodes[k].name
    requires v.p == WithLayer(w.p, L, end) && v.lastFc == w.lastFc && v.lastMat == w.lastMat
    ensures TailOk(c, v, k + 1)
  {
    hide G.IsFinal, G.NodeShaped;
  }

  lemma TensorsNext(c: Ctx, w: Walk, k: nat, b: nat, L: Layer, end: nat, v: Walk, t: string, kept: set<string>)
    requires Inv(c, w, k, b) && k < |c.g.nodes| && w.p.layoutEnd <= end && v.p == WithLayer(w.p, L, end)
             && w.done <= v.done && kept <= w.live
    requires WritesVec(L) ==> Spares(c, w, k, kept, VecAddr(L))
    requires t in v.produced && v.produced == w.produced[t := v.produced[t]]
    requires forall x :: x in v.live && (x == t || x !in kept) ==> LiveTensor(c, v, k + 1, x)
    requires Gathered(c, v.produced, t) ==> WaitingPart(c, v, k + 1, t)
    ensures TensorsOk(c, v, k + 1)
  {
    hide CtxOk, Partial, Aligned, Placed, DoneOk, ReadsOk, TailOk, KeptOk, DeadEnd, LiveTensor, WaitingPart, G.IsPart,
         Spares;
    OthersNext(c, w, k, b, L, end, v, kept);
    LiveProduced(c, w, k, b);
  }

  /** One tensor more. */
  lemma KeptNext(c: Ctx, w: Walk, v: Walk, b: nat, t: string)
    requires b <= |c.g.nodes| && KeptOk(c, w.produced, w.live, b) && t in v.produced
             && v.produced == w.produced[t := v.produced[t]] && t !in c.g.inputs
    requires forall x :: x in w.live && x !in v.live ==> x == t
    requires t in v.live || DeadEnd(c, t)
    ensures KeptOk(c, v.produced, v.live, b)
  {
    hide DeadEnd;
    forall x | x in v.produced && x in c.g.inputs
      ensures OwnRegion(c, v.produced, b, x)
    {
      assert OwnRegion(c, w.produced, b, x);
    }
  }

  /** No node gives a graph input its name. */
  lemma OutNotInput(c: Ctx, k: nat)
    requires CtxOk(c) && k < |c.g.nodes|
    ensures c.g.nodes[k].out !in c.g.inputs
    ensures c.g.nodes[k].MatMulNode? ==> G.ChainOut(c.g, k) !in c.g.inputs
  {
    hide PinsOk, SlotsOk, G.Sole, G.NodeShaped;
    G.NodeAt(c.g, k);
    if c.g.nodes[k].MatMulNode? {
      if G.FusedAdd(c.g, k) >= 0 {
        G.NodeAt(c.g, G.FusedAdd(c.g, k));
      }
      if G.FusedRelu(c.g, k) >= 0 {
        G.NodeAt(c.g, G.FusedRelu(c.g, k));
      }
    }
  }

  lemma AllLive(c: Ctx, w: Walk, k: nat, b: nat)
    requires Inv(c, w, k, b)
    ensures forall t :: t in w.live ==> LiveTensor(c, w, k, t)
  {
    hide CtxOk, Partial, Aligned, Placed, DoneOk, ReadsOk, TailOk, KeptOk, LiveTensor;
  }

  lemma LiveProduced(c: Ctx, w: Walk, k: nat, b: nat)
    requires Inv(c, w, k, b)
    ensures forall t :: t in w.live ==> t in w.produced
  {
    hide CtxOk, Partial, Aligned, Placed, DoneOk, ReadsOk, TailOk, KeptOk, DeadEnd, Holds, There, G.IsPart;
    forall t | t in w.live
      ensures t in w.produced
    {
      assert LiveTensor(c, w, k, t);
    }
  }

  function GatherWalk(c: Ctx, w: Walk, k: nat, L: Layer, end: nat): Walk
    requires k < |c.g.nodes| && L.Gather?
  {
    var t := c.g.nodes[k].out;
    var part := G.IsPart(c.g, t);
    Walk(WithLayer(w.p, L, end), w.produced[t := (L.outAddr, L.dim)], if part then w.done + {t} else w.done,
         w.live + {t}, w.lastFc, w.lastMat)
  }

  /** A gather whose output has its own region. */
  lemma FreshGatherStep(c: Ctx, w: Walk, k: nat, L: Layer, end: nat)
    requires Inv(c, w, k, k + 1) && c.g.nodes[k].GatherNode? && !G.IsPart(c.g, c.g.nodes[k].out)
    requires L.Gather? && L.name == c.g.nodes[k].name && L.dim == c.g.nodes[k].dim && L.dimBytes == Pad16(L.dim)
    requires L.outAddr >= w.p.layoutEnd && L.outAddr + L.dimBytes <= end && end % 16 == 0 && LayerAligned(L)
    requires LayerOk(WithLayer(w.p, L, end), |w.p.layers|)
    ensures Inv(c, GatherWalk(c, w, k, L, end), k + 1, k + 1)
  {
    hide CtxOk, Partial, ReadsOk, TensorsOk, KeptOk, Placed, DoneOk, Pad16, G.IsPart, LayerOk, LayerAligned, TailOk,
         Spares, Holds, LiveTensor, WaitingPart, DeadEnd;
    var v, t := GatherWalk(c, w, k, L, end), c.g.nodes[k].out;
    GatherNodeFacts(c, k);
    PadAbove(L.dim);
    FreshLayerFits(w.p, L, end);
    AddLayer(w.p, L, end);
    PlacedNext(c, w, k + 1, L, end, v);
    DoneSame(c, w, v, k + 1);
    ReadsNext(c, w, L, end, v);
    TailNext(c, w, k, L, end, v);
    FreshSpares(c, w, k, k + 1, L.outAddr);
    Held(w.p, L, end);
    OutAligned(L);
    FreshLive(c, v, k + 1, t, L.outAddr);
    TensorsNext(c, w, k, k + 1, L, end, v, t, w.live);
    OutNotInput(c, k);
    KeptNext(c, w, v, k + 1, t);
  }

  lemma OutAligned(L: Layer)
    requires LayerAligned(L)
    ensures L.outAddr % 16 == 0
  {
  }

  lemma GatherNodeFacts(c: Ctx, k: nat)
    requires CtxOk(c) && k < |c.g.nodes| && c.g.nodes[k].GatherNode?
    ensures c.g.nodes[k].out in c.g.lens && Len(c, c.g.nodes[k].out) == c.g.nodes[k].dim > 0
    ensures NamedBefore(c.g, k + 1, c.g.nodes[k].name)
  {
    hide PinsOk, SlotsOk;
    G.NodeAt(c.g, k);
  }

  /** A gather straight into its Concat's buffer. */
  lemma PinnedGatherStep(c: Ctx, w: Walk, k: nat, L: Layer)
    requires Inv(c, w, k, k + 1) && c.g.nodes[k].GatherNode? && G.IsPart(c.g, c.g.nodes[k].out)
             && c.g.nodes[k].out !in w.done
    requires L.Gather? && L.name == c.g.nodes[k].name && L.dim == c.g.nodes[k].dim && L.dimBytes == Pad16(L.dim)
    requires L.outAddr == Pin(c, c.g.nodes[k].out) && LayerAligned(L)
    requires LayerOk(WithLayer(w.p, L, w.p.layoutEnd), |w.p.layers|)
    ensures Inv(c, GatherWalk(c, w, k, L, w.p.layoutEnd), k + 1, k + 1)
  {
    hide CtxOk, Partial, ReadsOk, TensorsOk, KeptOk, Placed, DoneOk, Pad16, G.IsPart, LayerOk, LayerAligned, TailOk,
         Spares, Holds, LiveTensor, WaitingPart, DeadEnd, Emitted;
    var v, t := GatherWalk(c, w, k, L, w.p.layoutEnd), c.g.nodes[k].out;
    GatherNodeFacts(c, k);
    PinnedGatherFits(c, w, k, k + 1, t, L);
    AddLayer(w.p, L, w.p.layoutEnd);
    assert Claimed(c, v.done, L.outAddr, L.dimBytes);
    PlacedNext(c, w, k + 1, L, w.p.layoutEnd, v);
    DoneMore(c, w, v, k + 1, t);
    ReadsNext(c, w, L, w.p.layoutEnd, v);
    TailNext(c, w, k, L, w.p.layoutEnd, v);
    PinnedSpares(c, w, k, k + 1, t);
    Held(w.p, L, w.p.layoutEnd);
    WaitingNow(c, v, k + 1, t);
    OutNotInput(c, k);
    PinnedLive(c, v, k + 1, t);
    TensorsNext(c, w, k, k + 1, L, w.p.layoutEnd, v, t, w.live);
    KeptNext(c, w, v, k + 1, t);
  }

  lemma DoneMore(c: Ctx, w: Walk, v: Walk, b: nat, t: string)
    requires DoneOk(c, w, b) && v.done == w.done + {t} && G.IsPart(c.g, t)
    requires exists i :: 0 <= i < |c.g.nodes| && i < b && c.g.nodes[i].GatherNode? && c.g.nodes[i].out == t
    ensures DoneOk(c, v, b)
  {
    hide G.IsPart, G.PartOf;
    forall u | u in v.done
      ensures Emitted(c, b, u)
    {
      if u in w.done {
        assert Emitted(c, b, u);
      }
    }
  }

  /** A part can be read where it is pinned, by its own Concat and by others. */
  lemma PinnedLive(c: Ctx, v: Walk, k: nat, t: string)
    requires CtxOk(c) && k <= |c.g.nodes| && G.IsPart(c.g, t) && t !in c.g.inputs && t in v.done
    requires t in v.produced && v.produced[t] == (Pin(c, t), Len(c, t)) && c.walkStart <= v.p.layoutEnd
             && Holds(v.p, Pin(c, t), Len(c, t))
    ensures LiveTensor(c, v, k, t)
  {
    hide CtxOk, Holds, There, Pad16, G.IsPart, G.Aliases;
    PartFacts(c, t);
    HeldThere(c, v.p, k, Pin(c, t), t);
    PadAbove(Len(c, t));
    forall u | G.IsPart(c.g, u) && u !in v.done
      ensures Pin(c, t) != Pin(c, u)
    {
      PartsApart(c, t, u);
    }
    forall q: nat | k <= q && IsConcat(c, q) && Pin(c, t) == Pin(c, c.g.nodes[q].out)
      ensures Heads(c, k, q, t)
    {
      FirstPart(c, q, t);
    }
  }

  /** The part at the start of a Concat's buffer is its first. */
  lemma FirstPart(c: Ctx, q: nat, t: string)
    requires CtxOk(c) && IsConcat(c, q) && G.IsPart(c.g, t) && Pin(c, t) == Pin(c, c.g.nodes[q].out)
    ensures |c.g.nodes[q].ins| > 0 && c.g.nodes[q].ins[0] == t
  {
    hide SlotsOk, PartPinned, G.GraphOk, G.IsPart, Pad16;
    var ins := c.g.nodes[q].ins;
    var i :| 0 <= i < |ins| && ins[i] == t;
    assert ConcatPinned(c, q);
    if i > 0 {
      FirstLength(c, q);
      assert ins[..i][0] == ins[0];
      Sums(c, ins[..i]);
    }
  }

  lemma FirstLength(c: Ctx, q: nat)
    requires CtxOk(c) && IsConcat(c, q)
    ensures forall i :: 0 <= i < |c.g.nodes[q].ins| ==> Len(c, c.g.nodes[q].ins[i]) > 0
  {
    hide PinsOk, SlotsOk;
    G.NodeAt(c.g, q);
  }

  lemma {:induction false} Sums(c: Ctx, ins: seq<string>)
    requires |ins| > 0 && Len(c, ins[0]) > 0
    ensures G.SumLens(c.g.lens, ins) >= Len(c, ins[0])
    decreases |ins|
  {
    if |ins| > 1 {
      Sums(c, ins[..|ins| - 1]);
    } else {
      assert ins[..0] == [];
    }
  }

  lemma WaitingNow(c: Ctx, v: Walk, k: nat, t: string)
    requires t in v.done && t in v.produced && v.produced[t] == (Pin(c, t), Len(c, t))
             && Holds(v.p, Pin(c, t), Len(c, t))
    ensures WaitingPart(c, v, k, t)
  {
  }

  /** The slice of an unclaimed part is nobody's. */
  lemma PinnedSpares(c: Ctx, w: Walk, k: nat, b: nat, t: string)
    requires Inv(c, w, k, b) && G.IsPart(c.g, t) && t !in w.done
    ensures Spares(c, w, k, w.live, Pin(c, t))
  {
    hide CtxOk, Partial, Aligned, Placed, DoneOk, ReadsOk, TailOk, KeptOk, DeadEnd, Holds, There, G.IsPart, Pad16;
    forall x | x in w.live && x in w.produced
      ensures w.produced[x].0 != Pin(c, t)
    {
      assert LiveTensor(c, w, k, x);
    }
    forall x, q: nat | Gathered(c, w.produced, x) && k < q && G.PartOf(c.g, x, q)
      ensures Pin(c, x) != Pin(c, t)
    {
      PartIs(c, x, q);
      assert WaitingPart(c, w, k, x);
      PartsApart(c, x, t);
    }
  }

  /** Live tensors that lie elsewhere than Concat k's buffer starts. */
  function Elsewhere(c: Ctx, w: Walk, k: nat): (s: set<string>)
    requires IsConcat(c, k)
    ensures s <= w.live
  {
    set x | x in w.live && !(x in w.produced && w.produced[x].0 == Pin(c, c.g.nodes[k].out))
  }

  /** The whole vector replaces the first part's, which it begins with. */
  function ConcatWalk(c: Ctx, w: Walk, k: nat, L: Layer): Walk
    requires IsConcat(c, k) && L.Concat?
  {
    var n := c.g.nodes[k];
    Walk(WithLayer(w.p, L, w.p.layoutEnd), w.produced[n.out := (L.outAddr, L.len)], w.done,
         w.live + {n.out}, w.lastFc, w.lastMat)
  }

  /** A concat over parts that are all in place. */
  lemma ConcatStep(c: Ctx, w: Walk, k: nat, L: Layer)
    requires Inv(c, w, k, k + 1) && IsConcat(c, k)
             && forall i :: 0 <= i < |c.g.nodes[k].ins| ==> c.g.nodes[k].ins[i] in w.done
    requires L.Concat? && L.name == c.g.nodes[k].name && L.outAddr == Pin(c, c.g.nodes[k].out)
             && L.len == Len(c, c.g.nodes[k].out)
    requires |L.parts| == |c.g.nodes[k].ins|
             && forall i :: 0 <= i < |L.parts| ==> L.parts[i].addr == Pin(c, c.g.nodes[k].ins[i])
    requires LayerOk(WithLayer(w.p, L, w.p.layoutEnd), |w.p.layers|)
    ensures Inv(c, ConcatWalk(c, w, k, L), k + 1, k + 1)
  {
    hide CtxOk, Partial, ReadsOk, TensorsOk, KeptOk, Placed, DoneOk, Pad16, G.IsPart, LayerOk, TailOk, Spares, Holds,
         LiveTensor, WaitingPart, DeadEnd, Emitted;
    var v, t, end := ConcatWalk(c, w, k, L), c.g.nodes[k].out, w.p.layoutEnd;
    ConcatFacts(c, k);
    PadAbove(L.len);
    assert NamedBefore(c.g, k + 1, L.name);
    FreshLayerFits(w.p, L, end);
    AddLayer(w.p, L, end);
    PlacedNext(c, w, k + 1, L, end, v);
    DoneSame(c, w, v, k + 1);
    ConcatReads(c, w, k, L);
    ReadsNext(c, w, L, end, v);
    TailNext(c, w, k, L, end, v);
    ConcatSpares(c, w, k);
    Held(w.p, L, end);
    NotPart(c, k);
    ConcatLive(c, v, k, L);
    AllLive(c, w, k, k + 1);
    forall x | x in v.live && x != t && x !in Elsewhere(c, w, k)
      ensures LiveTensor(c, v, k + 1, x)
    {
      HeadLive(c, w, k, v, x);
    }
    TensorsNext(c, w, k, k + 1, L, end, v, t, Elsewhere(c, w, k));
    OutNotInput(c, k);
    KeptNext(c, w, v, k + 1, t);
  }

  /** What lies at the start of the buffer begins the whole vector, and of a single part is the whole vector. */
  lemma HeadLive(c: Ctx, w: Walk, k: nat, v: Walk, x: string)
    requires CtxOk(c) && IsConcat(c, k) && LiveTensor(c, w, k, x) && w.produced[x].0 == Pin(c, c.g.nodes[k].out)
    requires x in v.produced && v.produced[x] == w.produced[x] && w.p.layoutEnd <= v.p.layoutEnd && w.done <= v.done
    requires Holds(v.p, Pin(c, c.g.nodes[k].out), Len(c, c.g.nodes[k].out))
    ensures LiveTensor(c, v, k + 1, x)
  {
    hide CtxOk, There, Holds, G.IsPart, G.Aliases, Pad16;
    var ins := c.g.nodes[k].ins;
    assert Heads(c, k, k, x);
    ConcatFacts(c, k);
    assert ins[..0] == [];
    AliasLength(c, k, ins[0], x);
    FirstLength(c, k);
    Sums(c, ins);
    HeadThere(c, k, v.p, x);
    LiveLater(c, w, k, v, x);
  }

  lemma HeadThere(c: Ctx, k: nat, p: Program, x: string)
    requires IsConcat(c, k) && Heads(c, k, k, x) && Holds(p, Pin(c, c.g.nodes[k].out), Len(c, c.g.nodes[k].out))
    requires Len(c, x) <= Len(c, c.g.nodes[k].out)
    requires |c.g.nodes[k].ins| == 1 ==> Len(c, x) == Len(c, c.g.nodes[k].out)
    ensures There(c, p, k + 1, Pin(c, c.g.nodes[k].out), x)
  {
    hide Shapes, G.Aliases;
  }

  lemma {:induction false} AliasLength(c: Ctx, k: nat, t: string, x: string)
    requires CtxOk(c) && k <= |c.g.nodes| && x in G.Aliases(c.g, k, t)
    ensures Len(c, x) == Len(c, t)
  {
    hide CtxOk;
    if k > 0 {
      if x in G.Aliases(c.g, k - 1, t) {
        AliasLength(c, k - 1, t, x);
      } else {
        AliasLength(c, k - 1, t, c.g.nodes[k - 1].input);
        SameLens(c, k - 1);
      }
    }
  }

  lemma ConcatReads(c: Ctx, w: Walk, k: nat, L: Layer)
    requires CtxOk(c) && IsConcat(c, k) && L.Concat? && |L.parts| == |c.g.nodes[k].ins| && c.walkStart <= w.p.layoutEnd
    requires forall i :: 0 <= i < |L.parts| ==>
               L.parts[i].addr == Pin(c, c.g.nodes[k].ins[i])
               && c.g.nodes[k].ins[i] in w.done
    ensures forall a: nat :: ReadsAt(L, a) ==> a < w.p.layoutEnd
    ensures forall t :: G.IsPart(c.g, t) && t !in w.done ==> !ReadsAt(L, Pin(c, t))
  {
    hide CtxOk, Pad16;
    forall i | 0 <= i < |L.parts|
      ensures G.IsPart(c.g, c.g.nodes[k].ins[i]) && L.parts[i].addr < w.p.layoutEnd
    {
      assert G.PartOf(c.g, c.g.nodes[k].ins[i], k);
      PartFacts(c, c.g.nodes[k].ins[i]);
      PadAbove(Len(c, c.g.nodes[k].ins[i]));
    }
    forall t | G.IsPart(c.g, t) && t !in w.done
      ensures !ReadsAt(L, Pin(c, t))
    {
      forall i | 0 <= i < |L.parts|
        ensures L.parts[i].addr != Pin(c, t)
      {
        PartsApart(c, c.g.nodes[k].ins[i], t);
      }
    }
  }

  /** Parts of other Concats start elsewhere than this Concat's buffer. */
  lemma OtherParts(c: Ctx, k: nat, t: string, q: nat)
    requires CtxOk(c) && IsConcat(c, k) && G.PartOf(c.g, t, q) && q != k
    ensures Pin(c, t) != Pin(c, c.g.nodes[k].out)
  {
    hide SlotsOk, PartPinned, ConcatPinned, G.GraphOk;
    PartIs(c, t, q);
    var j :| 0 <= j < |c.g.nodes[q].ins| && c.g.nodes[q].ins[j] == t;
    forall i | 0 <= i < |c.g.nodes[k].ins|
      ensures c.g.nodes[k].ins[i] != t
    {
      G.Unshared(c.g, k, i, q, j);
    }
  }

  lemma ConcatSpares(c: Ctx, w: Walk, k: nat)
    requires Inv(c, w, k, k + 1) && IsConcat(c, k)
    ensures Spares(c, w, k, Elsewhere(c, w, k), Pin(c, c.g.nodes[k].out))
  {
    hide CtxOk, Partial, Aligned, Placed, DoneOk, ReadsOk, TailOk, KeptOk, DeadEnd, Holds, There, G.IsPart, Pad16,
         G.PartOf;
    forall x, q: nat | Gathered(c, w.produced, x) && k < q && G.PartOf(c.g, x, q)
      ensures Pin(c, x) != Pin(c, c.g.nodes[k].out)
    {
      OtherParts(c, k, x, q);
    }
  }

  /** The concatenated vector becomes readable at its buffer. */
  lemma ConcatLive(c: Ctx, v: Walk, k: nat, L: Layer)
    requires CtxOk(c) && IsConcat(c, k) && forall i :: 0 <= i < |c.g.nodes[k].ins| ==> c.g.nodes[k].ins[i] in v.done
    requires L.Concat? && L.outAddr == Pin(c, c.g.nodes[k].out) && L.len == Len(c, c.g.nodes[k].out)
             && c.walkStart <= v.p.layoutEnd
    requires c.g.nodes[k].out in v.produced && v.produced[c.g.nodes[k].out] == (L.outAddr, L.len)
             && Holds(v.p, L.outAddr, L.len)
    ensures LiveTensor(c, v, k + 1, c.g.nodes[k].out)
  {
    hide CtxOk, Pad16, Holds, There, G.IsPart;
    ConcatFacts(c, k);
    NotPart(c, k);
    var t := c.g.nodes[k].out;
    HeldThere(c, v.p, k + 1, Pin(c, t), t);
    forall u | G.IsPart(c.g, u) && u !in v.done
      ensures Pin(c, t) != Pin(c, u)
    {
      OutsideParts(c, k, u);
    }
    forall q: nat | k + 1 <= q && IsConcat(c, q)
      ensures Pin(c, t) != Pin(c, c.g.nodes[q].out)
    {
      BuffersApart(c, k, q);
    }
  }

  lemma OutsideParts(c: Ctx, k: nat, u: string)
    requires CtxOk(c) && IsConcat(c, k) && G.IsPart(c.g, u) && u !in c.g.nodes[k].ins
    ensures Pin(c, u) != Pin(c, c.g.nodes[k].out)
  {
    hide SlotsOk, PartPinned, ConcatPinned, G.GraphOk;
  }

  lemma BuffersApart(c: Ctx, k: nat, q: nat)
    requires CtxOk(c) && IsConcat(c, k) && IsConcat(c, q) && k != q
    ensures Pin(c, c.g.nodes[k].out) != Pin(c, c.g.nodes[q].out)
  {
    hide SlotsOk, PartPinned, ConcatPinned, G.GraphOk;
  }

  // ----- fc, identity and fused nodes -----

  function FcWalk(c: Ctx, w: Walk, k: nat, L: Layer, end: nat): Walk
    requires k < |c.g.nodes| && L.Fc?
  {
    var t := G.ChainOut(c.g, k);
    Walk(WithLayer(w.p, L, end), w.produced[t := (L.outAddr, L.N)], w.done, if L.final then w.live - {t}
      else w.live + {t}, |w.p.layers|, k)
  }

  lemma ChainNotPart(c: Ctx, k: nat)
    requires CtxOk(c) && k < |c.g.nodes| && c.g.nodes[k].MatMulNode?
    ensures !G.IsPart(c.g, G.ChainOut(c.g, k))
  {
    hide CtxOk, G.IsPart, G.Sole;
    NotPart(c, k);
    if G.FusedAdd(c.g, k) >= 0 {
      NotPart(c, G.FusedAdd(c.g, k));
    }
    if G.FusedRelu(c.g, k) >= 0 {
      NotPart(c, G.FusedRelu(c.g, k));
    }
  }

  /** An fc layer on a readable tensor, writing behind everything before it. */
  lemma FcStep(c: Ctx, w: Walk, k: nat, L: Layer, end: nat)
    requires Inv(c, w, k, k + 1) && c.g.nodes[k].MatMulNode? && c.g.nodes[k].x in w.live && c.g.nodes[k].x in w.produced
    requires L.Fc? && L.name == c.g.nodes[k].name && L.inAddr == w.produced[c.g.nodes[k].x].0
    requires L.N == c.g.nodes[k].N && L.Mpad == Pad16(L.N) && L.final == G.IsFinal(c.g, k)
    requires w.p.layoutEnd <= end && FreshWrites(L, w.p.layoutEnd) && WritesBelow(L, end) && end % 16 == 0
             && LayerAligned(L)
    requires LayerOk(WithLayer(w.p, L, end), |w.p.layers|)
    ensures Inv(c, FcWalk(c, w, k, L, end), k + 1, k + 1)
  {
    hide CtxOk, Partial, ReadsOk, TensorsOk, KeptOk, Placed, DoneOk, Pad16, G.IsPart, LayerOk, LayerAligned, TailOk,
         Spares, Holds, LiveTensor, WaitingPart, DeadEnd, Emitted, G.ChainOut, G.IsFinal;
    var v, t := FcWalk(c, w, k, L, end), G.ChainOut(c.g, k);
    MatMulFacts(c, k);
    PadAbove(L.N);
    FreshLayerFits(w.p, L, end);
    AddLayer(w.p, L, end);
    PlacedNext(c, w, k + 1, L, end, v);
    DoneSame(c, w, v, k + 1);
    FcReads(c, w, k, k + 1, L);
    ReadsNext(c, w, L, end, v);
    FcTail(c, w, k, L, end);
    ChainNotPart(c, k);
    if L.final {
      FinalDead(c, k);
    } else {
      FreshSpares(c, w, k, k + 1, L.outAddr);
      Held(w.p, L, end);
      OutAligned(L);
      FreshLive(c, v, k + 1, t, L.outAddr);
    }
    TensorsNext(c, w, k, k + 1, L, end, v, t, w.live);
    OutNotInput(c, k);
    KeptNext(c, w, v, k + 1, t);
  }

  lemma MatMulFacts(c: Ctx, k: nat)
    requires CtxOk(c) && k < |c.g.nodes| && c.g.nodes[k].MatMulNode?
    ensures var t := G.ChainOut(c.g, k); t in c.g.lens && Len(c, t) == c.g.nodes[k].N > 0
    ensures NamedBefore(c.g, k + 1, c.g.nodes[k].name)
  {
    hide PinsOk, SlotsOk, G.ChainOut;
    G.NodeAt(c.g, k);
    G.ChainLen(c.g, k);
  }

  lemma FcReads(c: Ctx, w: Walk, k: nat, b: nat, L: Layer)
    requires Inv(c, w, k, b) && L.Fc? && k < |c.g.nodes| && c.g.nodes[k].MatMulNode? && c.g.nodes[k].x in w.live
    requires c.g.nodes[k].x in w.produced && L.inAddr == w.produced[c.g.nodes[k].x].0
    ensures forall a: nat :: ReadsAt(L, a) ==> a < w.p.layoutEnd
    ensures forall t :: G.IsPart(c.g, t) && t !in w.done ==> !ReadsAt(L, Pin(c, t))
  {
    hide CtxOk, Partial, Aligned, Placed, DoneOk, ReadsOk, TailOk, KeptOk, DeadEnd, Holds, There, G.IsPart;
    assert LiveTensor(c, w, k, c.g.nodes[k].x);
  }

  lemma FcTail(c: Ctx, w: Walk, k: nat, L: Layer, end: nat)
    requires TailOk(c, w, k) && k < |c.g.nodes| && c.g.nodes[k].MatMulNode? && L.Fc? && L.name == c.g.nodes[k].name
             && L.final == G.IsFinal(c.g, k)
    ensures TailOk(c, FcWalk(c, w, k, L, end), k + 1)
  {
    hide G.IsFinal, G.ChainOut;
  }

  lemma FinalDead(c: Ctx, k: nat)
    requires CtxOk(c) && k < |c.g.nodes| && c.g.nodes[k].MatMulNode? && G.IsFinal(c.g, k)
    ensures DeadEnd(c, G.ChainOut(c.g, k))
  {
    hide PinsOk, SlotsOk, G.GraphOk, G.ChainOut, G.IsFinal;
    var t := G.ChainOut(c.g, k);
    forall i | 0 <= i < |c.g.nodes| && t in G.Reads(c.g.nodes[i])
      ensures c.g.nodes[i].IdentityNode? && c.g.nodes[i].out == c.g.output
    {
      G.FinalUnread(c.g, k, i);
    }
  }

  function IdentityWalk(c: Ctx, w: Walk, k: nat): Walk
    requires k < |c.g.nodes| && c.g.nodes[k].IdentityNode? && c.g.nodes[k].input in w.produced
  {
    var n := c.g.nodes[k];
    w.(produced := w.produced[n.out := w.produced[n.input]], live := if n.input in w.live then w.live + {n.out}
      else w.live - {n.out})
  }

  lemma IdentityStep(c: Ctx, w: Walk, k: nat)
    requires Inv(c, w, k, k) && k < |c.g.nodes| && c.g.nodes[k].IdentityNode? && c.g.nodes[k].input in w.produced
    ensures Inv(c, IdentityWalk(c, w, k), k + 1, k + 1)
  {
    hide CtxOk, Partial, Aligned, ReadsOk, Placed, DoneOk, G.IsPart, TailOk, Holds, There, DeadEnd, Pad16, LiveTensor,
         G.Stale;
    var v, n := IdentityWalk(c, w, k), c.g.nodes[k];
    Later(c, w, k, v);
    NotPart(c, k);
    OutNotInput(c, k);
    forall t | t in v.live
      ensures LiveTensor(c, v, k + 1, t)
    {
      if t == n.out {
        AliasLive(c, w, k, v);
      } else {
        LiveThere(c, w, k, t);
        ThereLater(c, w.p, k, w.produced[t].0, t);
        LiveLater(c, w, k, v, t);
      }
    }
    forall t | Gathered(c, v.produced, t)
      ensures WaitingPart(c, v, k + 1, t)
    {
      assert WaitingPart(c, w, k, t);
    }
    KeptLater(c, w.produced, w.live, k);
    if n.input !in w.live {
      OutputDead(c, k);
    }
    KeptNext(c, w, v, k + 1, n.out);
  }

  lemma LiveThere(c: Ctx, w: Walk, k: nat, t: string)
    requires k <= |c.g.nodes| && LiveTensor(c, w, k, t)
    ensures t in w.produced && There(c, w.p, k, w.produced[t].0, t)
  {
    hide There;
  }

  /** An Identity makes its output as readable as its input. */
  lemma AliasLive(c: Ctx, w: Walk, k: nat, v: Walk)
    requires CtxOk(c) && k < |c.g.nodes| && c.g.nodes[k].IdentityNode? && LiveTensor(c, w, k, c.g.nodes[k].input)
    requires v.p == w.p && v.done == w.done
             && v.produced == w.produced[c.g.nodes[k].out := w.produced[c.g.nodes[k].input]]
    ensures LiveTensor(c, v, k + 1, c.g.nodes[k].out)
  {
    hide CtxOk, Holds, There, G.IsPart, Pad16;
    var n := c.g.nodes[k];
    SameLens(c, k);
    AliasThere(c, k, w.p, w.produced[n.input].0);
    forall q: nat | k + 1 <= q && IsConcat(c, q) && w.produced[n.input].0 == Pin(c, c.g.nodes[q].out)
      ensures Heads(c, k + 1, q, n.out)
    {
      assert Heads(c, k, q, n.input);
    }
  }

  lemma AliasThere(c: Ctx, k: nat, p: Program, a: nat)
    requires k < |c.g.nodes| && c.g.nodes[k].IdentityNode? && There(c, p, k, a, c.g.nodes[k].input)
    requires Len(c, c.g.nodes[k].out) == Len(c, c.g.nodes[k].input)
    ensures There(c, p, k + 1, a, c.g.nodes[k].out)
  {
    hide Shapes;
  }

  /** What has gone and what has come is so later too. */
  lemma KeptLater(c: Ctx, produced: map<string, (nat, nat)>, live: set<string>, k: nat)
    requires k < |c.g.nodes| && KeptOk(c, produced, live, k)
    ensures KeptOk(c, produced, live, k + 1)
  {
    hide DeadEnd;
    forall t | t in produced && t in c.g.inputs
      ensures OwnRegion(c, produced, k + 1, t)
    {
      assert OwnRegion(c, produced, k, t);
    }
  }

  lemma SameLens(c: Ctx, k: nat)
    requires CtxOk(c) && k < |c.g.nodes| && c.g.nodes[k].IdentityNode?
    ensures var n := c.g.nodes[k]; n.out in c.g.lens && Len(c, n.out) == Len(c, n.input)
  {
    hide PinsOk, SlotsOk;
    G.NodeAt(c.g, k);
  }

  lemma OutputDead(c: Ctx, k: nat)
    requires CtxOk(c) && k < |c.g.nodes| && c.g.nodes[k].IdentityNode?
    ensures DeadEnd(c, c.g.nodes[k].input) ==> DeadEnd(c, c.g.nodes[k].out)
  {
    hide PinsOk, SlotsOk, G.NodeShaped, G.PartsUnshared, G.IsFinal;
    var n := c.g.nodes[k];
    if DeadEnd(c, n.input) {
      assert G.Reads(n)[0] == n.input;
    }
  }

  /** What does not depend on the node just walked carries over, with bounds moved past it. */
  lemma Later(c: Ctx, w: Walk, k: nat, v: Walk)
    requires Inv(c, w, k, k) && k < |c.g.nodes| && !c.g.nodes[k].MatMulNode?
    requires v.p == w.p && v.done == w.done && v.lastFc == w.lastFc && v.lastMat == w.lastMat
    ensures Placed(c, v, k + 1) && DoneOk(c, v, k + 1) && ReadsOk(c, v) && TailOk(c, v, k + 1)
  {
    hide CtxOk, Partial, Aligned, TensorsOk, KeptOk, ReadsAt, SegPlaced, InputPlaced, LayerPlaced, G.IsPart, G.IsFinal;
    Named(c, w, k);
    forall t | t in v.done
      ensures Emitted(c, k + 1, t)
    {
      assert Emitted(c, k, t);
    }
  }

  lemma Named(c: Ctx, w: Walk, k: nat)
    requires Placed(c, w, k)
    ensures Placed(c, w, k + 1)
  {
    hide SegPlaced, InputPlaced, LayerPlaced;
    forall s | 0 <= s < |w.p.segments|
      ensures NamedBefore(c.g, k + 1, w.p.segments[s].layer)
    {
      assert NamedBefore(c.g, k, w.p.segments[s].layer);
    }
    forall n | 0 <= n < |w.p.layers|
      ensures NamedBefore(c.g, k + 1, w.p.layers[n].name)
    {
      assert NamedBefore(c.g, k, w.p.layers[n].name);
    }
  }

  /** Starting on node k: its own name and claims are still unused. */
  lemma Begin(c: Ctx, w: Walk, k: nat)
    requires Inv(c, w, k, k) && k < |c.g.nodes|
    ensures Inv(c, w, k, k + 1)
    ensures forall s :: 0 <= s < |w.p.segments| ==> w.p.segments[s].layer != c.g.nodes[k].name
    ensures forall n :: 0 <= n < |w.p.layers| ==> w.p.layers[n].name != c.g.nodes[k].name
  {
    hide CtxOk, Partial, Aligned, ReadsOk, TensorsOk, KeptOk, TailOk, SegPlaced, InputPlaced, LayerPlaced, Emitted;
    Named(c, w, k);
    KeptLater(c, w.produced, w.live, k);
    forall t | t in w.done
      ensures Emitted(c, k + 1, t)
    {
      assert Emitted(c, k, t);
      EmittedLater(c, k, t);
    }
    forall s | 0 <= s < |w.p.segments|
      ensures w.p.segments[s].layer != c.g.nodes[k].name
    {
      assert NamedBefore(c.g, k, w.p.segments[s].layer);
      NotNamed(c, k, w.p.segments[s].layer);
    }
    forall n | 0 <= n < |w.p.layers|
      ensures w.p.layers[n].name != c.g.nodes[k].name
    {
      assert NamedBefore(c.g, k, w.p.layers[n].name);
      NotNamed(c, k, w.p.layers[n].name);
    }
  }

  lemma EmittedLater(c: Ctx, k: nat, t: string)
    requires Emitted(c, k, t)
    ensures Emitted(c, k + 1, t)
  {
    hide G.IsPart;
  }

  lemma NotNamed(c: Ctx, k: nat, name: string)
    requires CtxOk(c) && k < |c.g.nodes| && NamedBefore(c.g, k, name)
    ensures name != c.g.nodes[k].name
  {
    hide CtxOk;
    var i :| 0 <= i < |c.g.nodes| && i < k && c.g.nodes[i].name == name;
    if name == c.g.nodes[k].name {
      SameName(c, i, k);
    }
  }

  /** A fused Add or Relu emits nothing. */
  lemma SkipStep(c: Ctx, w: Walk, k: nat)
    requires Inv(c, w, k, k) && k < |c.g.nodes| && !c.g.nodes[k].MatMulNode?
    ensures Inv(c, w, k + 1, k + 1)
  {
    hide CtxOk, Partial, Aligned, ReadsOk, Placed, DoneOk, TailOk, KeptOk, G.IsPart, Holds, There, DeadEnd, Pad16,
         LiveTensor;
    Later(c, w, k, w);
    KeptLater(c, w.produced, w.live, k);
    forall t | t in w.live
      ensures LiveTensor(c, w, k + 1, t)
    {
      LiveThere(c, w, k, t);
      ThereLater(c, w.p, k, w.produced[t].0, t);
      LiveLater(c, w, k, w, t);
    }
    forall t | Gathered(c, w.produced, t)
      ensures WaitingPart(c, w, k + 1, t)
    {
      assert WaitingPart(c, w, k, t);
    }
  }
}
