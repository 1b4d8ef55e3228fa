/** What lowering.py emits for one node is a layer the program accepts: its constants are where the record says, its
    padding is zero, its input is a vector of the right length. */
module Emission {
  import opened Bytes
  import opened Program
  import opened Layout
  import opened Walk
  import opened WalkSteps
  import opened WalkLayers
  import G = Graph

  /** No segment carries that name yet. */
  ghost predicate Unplaced(p: Program, name: string) {
    forall k :: 0 <= k < |p.segments| ==> p.segments[k].layer != name
  }

  /** A first segment of its layer and kind is found at the end. */
  lemma PlacedLast(p: Program, s: Segment, data: seq<byte>, end: nat)
    requires s.offset + s.length <= |p.image| + |data|
    requires forall k :: 0 <= k < |p.segments| ==> !(p.segments[k].layer == s.layer && p.segments[k].kind == s.kind)
    ensures var q := WithSegment(p, s, data, end);
            SegIs(q, s.layer, s.kind, s.addr, s.length) && FindSeg(q.segments, s.layer, s.kind) == |p.segments|
  {
    FindSegNone(p.segments, s.layer, s.kind);
    FindSegMore(p.segments, s, s.layer, s.kind);
  }

  // ----- gather -----

  lemma GatherOk(p: Program, s: Segment, data: seq<byte>, e1: nat, i: InputSpec, e2: nat, L: Layer, e3: nat)
    requires L.Gather? && 0 < L.dim && L.dimBytes == Pad16(L.dim) && 0 < L.rows && Unplaced(p, L.name)
    requires s == Segment(L.tableAddr, |p.image|, L.rows * L.dimBytes, L.name, TableSeg) && |data| >= s.length
    requires i == IndexInput(L.indexInput, L.idxAddr, L.rows)
    ensures LayerOk(WithLayer(WithInput(WithSegment(p, s, data, e1), i, e2), L, e3), |p.layers|)
  {
    hide Pad16, FindSeg;
    PlacedLast(p, s, data, e1);
    var q := WithLayer(WithInput(WithSegment(p, s, data, e1), i, e2), L, e3);
    assert q.inputs[|p.inputs|] == i;
  }

  // ----- concat -----

  /** Parts laid end to end from base, each of them a vector or an input. */
  lemma {:induction false} TiledAll(p: Program, n: nat, c: Ctx, ins: seq<string>, parts: seq<Part>, base: nat)
    requires n <= |p.layers| && |parts| == |ins|
    requires forall i :: 0 <= i < |ins| ==> ins[i] in c.g.lens && parts[i].len == Len(c, ins[i])
    requires forall i :: 0 <= i < |ins| ==>
               parts[i].addr == base + G.SumLens(c.g.lens, ins[..i])
               && PartOk(p, n, parts[i])
    ensures Tiled(p, n, parts, base) && PartsLen(parts) == G.SumLens(c.g.lens, ins)
  {
    hide PartOk;
    if parts != [] {
      var last := |parts| - 1;
      forall i | 0 <= i < last
        ensures parts[..last][i].addr == base + G.SumLens(c.g.lens, ins[..last][..i])
      {
        assert ins[..last][..i] == ins[..i];
      }
      TiledAll(p, n, c, ins[..last], parts[..last], base);
    }
  }

  lemma ConcatOk(p: Program, c: Ctx, ins: seq<string>, L: Layer, end: nat)
    requires L.Concat? && |L.parts| == |ins| && Unplaced(p, L.name) && L.len == G.SumLens(c.g.lens, ins)
    requires forall i :: 0 <= i < |ins| ==> ins[i] in c.g.lens && L.parts[i].len == Len(c, ins[i])
    requires forall i :: 0 <= i < |ins| ==>
               L.parts[i].addr == L.outAddr + G.SumLens(c.g.lens, ins[..i])
               && PartOk(p, |p.layers|, L.parts[i])
    ensures LayerOk(WithLayer(p, L, end), |p.layers|)
  {
    hide PartOk, Tiled, PartsLen, Shapes;
    var q := WithLayer(p, L, end);
    TiledAll(p, |p.layers|, c, ins, L.parts, L.outAddr);
    assert q.layers[..|p.layers|] == p.layers[..|p.layers|];
    ShapesSame(p, q, |p.layers|);
    TiledSame(p, q, |p.layers|, L.parts, L.outAddr);
  }

  // ----- fc -----

  /** Rows of a padded matrix in the image end in zeros. */
  lemma RowsPadded(image: seq<byte>, off: nat, rows: seq<seq<byte>>, K: nat, Kpad: nat, n: nat, m: nat)
    requires (forall r :: 0 <= r < |rows| ==> |rows[r]| == K) && K <= Kpad && m < n
             && At(image, off, G.PadRows(rows, Kpad, n))
    ensures RowPadded(image, off, m, K, Kpad)
  {
    hide G.PadRows;
    RowBound(m, n, Kpad);
    forall i | off + m * Kpad + K <= i < off + m * Kpad + Kpad
      ensures image[i] == 0
    {
      G.PadRowsAt(rows, Kpad, n, m, i - off - m * Kpad);
    }
  }

  function FcConsts(p: Program, L: Layer, dw: seq<byte>, e1: nat, db: seq<byte>, e2: nat): Program
    requires L.Fc?
  {
    var q := WithSegment(p, Segment(L.wAddr, |p.image|, L.Mpad * L.Kpad, L.name, WeightSeg), dw, e1);
    WithSegment(q, Segment(L.bAddr, |q.image|, 4 * L.Mpad, L.name, BiasSeg), db, e2)
  }

  /** Where the two segments of an fc layer are found. */
  lemma FcSegments(p: Program, L: Layer, dw: seq<byte>, e1: nat, db: seq<byte>, e2: nat)
    requires L.Fc? && Unplaced(p, L.name) && |dw| >= L.Mpad * L.Kpad && |db| >= 4 * L.Mpad
    ensures var q := FcConsts(p, L, dw, e1, db, e2);
            && SegIs(q, L.name, WeightSeg, L.wAddr, L.Mpad * L.Kpad) && SegIs(q, L.name, BiasSeg, L.bAddr, 4 * L.Mpad)
            && FindSeg(q.segments, L.name, WeightSeg) == |p.segments|
            && FindSeg(q.segments, L.name, BiasSeg) == |p.segments| + 1
            && WeightOff(q, L) == |p.image|
  {
    hide FindSeg;
    var s := Segment(L.wAddr, |p.image|, L.Mpad * L.Kpad, L.name, WeightSeg);
    var q := WithSegment(p, s, dw, e1);
    var b := Segment(L.bAddr, |q.image|, 4 * L.Mpad, L.name, BiasSeg);
    PlacedLast(p, s, dw, e1);
    PlacedLast(q, b, db, e2);
    SegIsMore(q, b, db, e2, L.name, WeightSeg, L.wAddr, L.Mpad * L.Kpad);
  }

  lemma FcOk(p: Program, L: Layer, rows: seq<seq<byte>>, dw: seq<byte>, e1: nat, db: seq<byte>, e2: nat, e3: nat)
    requires L.Fc? && 0 < L.K && L.Kpad == Pad16(L.K) && 0 < L.N && L.Mpad == Pad16(L.N) && 0 <= L.mult <= 32767
             && L.shift <= 31 && L.stream == p.streaming
    requires Unplaced(p, L.name) && (forall r :: 0 <= r < |rows| ==> |rows[r]| == L.K)
    requires |dw| >= L.Mpad * L.Kpad && |db| >= 4 * L.Mpad && dw[..L.Mpad * L.Kpad] == G.PadRows(rows, L.Kpad, L.Mpad)
    requires Covers(p, L.inAddr, L.K) && L.inAddr + L.Kpad <= p.layoutEnd <= e3 && FreshWrites(L, p.layoutEnd)
    ensures LayerOk(WithLayer(FcConsts(p, L, dw, e1, db, e2), L, e3), |p.layers|)
  {
    hide Pad16, FindSeg, Shapes, SegIs, RowPadded, G.PadRows, Clear;
    var q := FcConsts(p, L, dw, e1, db, e2);
    var r := WithLayer(q, L, e3);
    FcSegments(p, L, dw, e1, db, e2);
    SegIsSame(q, r, L);
    assert r.layers[..|p.layers|] == p.layers[..|p.layers|];
    ShapesSame(p, r, |p.layers|);
    ClearBelow(L, p.layoutEnd, L.inAddr, L.Kpad);
    WeightsAt(p, L, rows, dw, e1, db, e2);
    forall m: nat | m < L.Mpad
      ensures RowPadded(r.image, WeightOff(r, L), m, L.K, L.Kpad)
    {
      PadAbove(L.K);
      RowsPadded(r.image, |p.image|, rows, L.K, L.Kpad, L.Mpad, m);
    }
  }

  lemma WeightsAt(p: Program, L: Layer, rows: seq<seq<byte>>, dw: seq<byte>, e1: nat, db: seq<byte>, e2: nat)
    requires L.Fc? && (forall r :: 0 <= r < |rows| ==> |rows[r]| <= L.Kpad)
    requires |dw| >= L.Mpad * L.Kpad && dw[..L.Mpad * L.Kpad] == G.PadRows(rows, L.Kpad, L.Mpad)
    ensures At(FcConsts(p, L, dw, e1, db, e2).image, |p.image|, G.PadRows(rows, L.Kpad, L.Mpad))
  {
    hide G.PadRows;
    var v := G.PadRows(rows, L.Kpad, L.Mpad);
    var image := FcConsts(p, L, dw, e1, db, e2).image;
    assert image == p.image + dw + db;
    forall i | |p.image| <= i < |p.image| + |v|
      ensures image[i] == v[i - |p.image|]
    {
      assert image[i] == dw[i - |p.image|];
      assert dw[i - |p.image|] == dw[..L.Mpad * L.Kpad][i - |p.image|];
    }
  }

  // ----- a dense input of its own -----

  /** Nothing wrote to an address at the end of the layout. */
  lemma {:induction false} InputHolds(c: Ctx, w: Walk, k: nat, b: nat, i: InputSpec, end: nat, n: nat)
    requires Inv(c, w, k, b) && i.DenseInput? && i.addr == w.p.layoutEnd && n <= |w.p.layers|
    ensures var q := WithInput(w.p, i, end); i.addr in Shapes(q, n) && Shapes(q, n)[i.addr] == i.count
  {
    hide Inv, DenseShapes;
    var q := WithInput(w.p, i, end);
    if n == 0 {
      LastDense(w.p.inputs, i);
    } else {
      InputHolds(c, w, k, b, i, end, n - 1);
      VecBelow(c, w, k, b, n - 1);
    }
  }

  lemma LastDense(ins: seq<InputSpec>, i: InputSpec)
    requires i.DenseInput?
    ensures i.addr in DenseShapes(ins + [i]) && DenseShapes(ins + [i])[i.addr] == i.count
  {
    assert (ins + [i])[..|ins|] == ins;
  }

  lemma VecBelow(c: Ctx, w: Walk, k: nat, b: nat, n: nat)
    requires Inv(c, w, k, b) && n < |w.p.layers|
    ensures WritesVec(w.p.layers[n]) ==> VecAddr(w.p.layers[n]) < w.p.layoutEnd
  {
    hide CtxOk, Aligned, DoneOk, ReadsOk, TensorsOk, KeptOk, TailOk, Shapes, SegIs, Tiled, RowPadded, Clear, ClearOf,
         SegmentsOk, InputsOk, Claimed;
    var L := w.p.layers[n];
    assert LayerOk(w.p, n) && LayerPlaced(c, w.done, L);
    SlotsBelow(c, w, k, b);
    if L.Gather? {
      PadAbove(L.dim);
    } else if L.Fc? {
      PadAbove(L.N);
    }
  }

  lemma SlotsBelow(c: Ctx, w: Walk, k: nat, b: nat)
    requires Inv(c, w, k, b)
    ensures c.slotStart <= c.walkStart <= w.p.layoutEnd
  {
  }

  function DenseWalk(w: Walk, x: string, n: nat, end: nat): Walk {
    var i := DenseInput(x, w.p.layoutEnd, n);
    Walk(WithInput(w.p, i, end), w.produced[x := (i.addr, n)], w.done, w.live + {x}, w.lastFc, w.lastMat)
  }

  /** A graph input read by MatMul k gets its own region and becomes readable there. */
  lemma DenseStep(c: Ctx, w: Walk, k: nat, b: nat, x: string, end: nat)
    requires Inv(c, w, k, b) && x !in w.produced && x in c.g.lens && Len(c, x) > 0 && x in c.g.inputs
    requires k < b && c.g.nodes[k].MatMulNode? && c.g.nodes[k].x == x
    requires w.p.layoutEnd + Pad16(Len(c, x)) <= end && end % 16 == 0
    ensures Inv(c, DenseWalk(w, x, Len(c, x), end), k, b)
  {
    hide CtxOk, Partial, Placed, DoneOk, ReadsOk, TailOk, KeptOk, Pad16, G.IsPart, Holds, LiveTensor, WaitingPart,
         DeadEnd;
    var i := DenseInput(x, w.p.layoutEnd, Len(c, x));
    var u, v := w.(p := WithInput(w.p, i, end)), DenseWalk(w, x, Len(c, x), end);
    FreshInputStep(c, w, k, b, i, end);
    InputHolds(c, w, k, b, i, end, |w.p.layers|);
    HoldsHere(v.p, i.addr, i.count);
    PadAbove(Len(c, x));
    FreshLive(c, v, k, x, i.addr);
    SameParts(c, u, v, k, b);
    assert TensorsOk(c, u, k);
    LiveProduced(c, w, k, b);
    forall t | t in v.live
      ensures LiveTensor(c, v, k, t)
    {
      if t != x {
        LiveSame(c, u, v, k, t);
      }
    }
    forall t | Gathered(c, v.produced, t)
      ensures WaitingPart(c, v, k, t)
    {
      WaitingSame(c, u, v, k, t);
    }
    KeptDense(c, w, v, k, b, x);
  }

  lemma KeptDense(c: Ctx, w: Walk, v: Walk, k: nat, b: nat, x: string)
    requires k < b <= |c.g.nodes| && KeptOk(c, w.produced, w.live, b) && c.g.nodes[k].MatMulNode? && c.g.nodes[k].x == x
    requires x in v.produced && v.produced == w.produced[x := v.produced[x]] && v.live == w.live + {x}
             && v.produced[x].0 >= c.walkStart
    ensures KeptOk(c, v.produced, v.live, b)
  {
    hide DeadEnd;
    forall t | t in v.produced && t in c.g.inputs
      ensures OwnRegion(c, v.produced, b, t)
    {
      if t != x {
        assert OwnRegion(c, w.produced, b, t);
      }
    }
  }

  lemma HoldsHere(p: Program, a: nat, n: nat)
    requires a in Shapes(p, |p.layers|) && Shapes(p, |p.layers|)[a] == n
    ensures Holds(p, a, n)
  {
  }

  lemma LiveSame(c: Ctx, u: Walk, v: Walk, k: nat, t: string)
    requires k <= |c.g.nodes| && LiveTensor(c, u, k, t) && v.p == u.p && v.done == u.done && t in v.produced
             && v.produced[t] == u.produced[t]
    ensures LiveTensor(c, v, k, t)
  {
    hide Holds, G.IsPart;
  }

  lemma WaitingSame(c: Ctx, u: Walk, v: Walk, k: nat, t: string)
    requires WaitingPart(c, u, k, t) && v.p == u.p && v.done == u.done && t in v.produced
             && v.produced[t] == u.produced[t]
    ensures WaitingPart(c, v, k, t)
  {
    hide Holds;
  }

  lemma SameParts(c: Ctx, u: Walk, v: Walk, k: nat, b: nat)
    requires Inv(c, u, k, b) && v.p == u.p && v.done == u.done && v.lastFc == u.lastFc && v.lastMat == u.lastMat
    ensures Placed(c, v, b) && DoneOk(c, v, b) && ReadsOk(c, v) && TailOk(c, v, k)
  {
    hide CtxOk, Partial, Aligned, TensorsOk, KeptOk, SegPlaced, InputPlaced, LayerPlaced, NamedBefore, Emitted, ReadsAt,
         G.IsPart, G.IsFinal;
  }

  // ----- what the walk knows of a node's tensors -----

  /** A MatMul's input that has been produced can be read. */
  lemma ReadableInput(c: Ctx, w: Walk, k: nat, b: nat)
    requires Inv(c, w, k, b) && k < |c.g.nodes| && c.g.nodes[k].MatMulNode? && c.g.nodes[k].x in w.produced
    ensures c.g.nodes[k].x in w.live && LiveTensor(c, w, k, c.g.nodes[k].x)
  {
    hide CtxOk, Partial, Aligned, Placed, DoneOk, ReadsOk, TailOk, G.IsPart, LiveTensor, WaitingPart;
    assert G.Reads(c.g.nodes[k])[0] == c.g.nodes[k].x;
  }

  /** A Gather's part is still unclaimed when its node comes up. */
  lemma GatherUnclaimed(c: Ctx, w: Walk, k: nat)
    requires Inv(c, w, k, k) && k < |c.g.nodes| && c.g.nodes[k].GatherNode?
    ensures c.g.nodes[k].out !in w.done
  {
    hide CtxOk, Partial, Aligned, Placed, ReadsOk, TensorsOk, KeptOk, TailOk, G.IsPart;
    var t := c.g.nodes[k].out;
    OutputFacts(c, k);
    assert t in w.done ==> Emitted(c, k, t);
  }

  lemma OutputFacts(c: Ctx, k: nat)
    requires CtxOk(c) && k < |c.g.nodes|
    ensures c.g.nodes[k].out !in c.g.inputs
    ensures forall i :: 0 <= i < |c.g.nodes| && i != k ==> c.g.nodes[i].out != c.g.nodes[k].out
  {
    hide PinsOk, SlotsOk, G.PartsUnshared, G.NodeShaped, G.IsFinal;
  }

  /** A pinned gather output is a part. */
  lemma GatherPinned(c: Ctx, k: nat)
    requires CtxOk(c) && k < |c.g.nodes| && c.g.nodes[k].GatherNode?
    ensures c.g.nodes[k].out in c.pins <==> G.IsPart(c.g, c.g.nodes[k].out)
  {
    hide SlotsOk, G.GraphOk, G.IsPart, PartPinned, ConcatPinned;
    var t := c.g.nodes[k].out;
    OutputFacts(c, k);
    if G.IsPart(c.g, t) {
      PartFacts(c, t);
    }
  }

  /** A dense part of Concat k is unclaimed until its turn comes. */
  lemma DenseUnclaimed(c: Ctx, w: Walk, k: nat, i: nat)
    requires Inv(c, w, k, k) && IsConcat(c, k) && i < |c.g.nodes[k].ins| && c.g.nodes[k].ins[i] in c.g.inputs
    ensures c.g.nodes[k].ins[i] !in w.done
  {
    hide CtxOk, Partial, Aligned, Placed, ReadsOk, TensorsOk, KeptOk, TailOk, G.IsPart, G.PartOf;
    var t := c.g.nodes[k].ins[i];
    assert t in w.done ==> Emitted(c, k, t);
    InputNotOut(c, t);
    forall q: nat | q < k
      ensures !G.PartOf(c.g, t, q)
    {
      OnlyHere(c, k, i, q);
    }
  }

  lemma InputNotOut(c: Ctx, t: string)
    requires CtxOk(c) && t in c.g.inputs
    ensures forall j :: 0 <= j < |c.g.nodes| ==> c.g.nodes[j].out != t
  {
    hide PinsOk, SlotsOk, G.PartsUnshared, G.NodeShaped, G.IsFinal;
  }

  lemma OnlyHere(c: Ctx, k: nat, i: nat, q: nat)
    requires CtxOk(c) && IsConcat(c, k) && i < |c.g.nodes[k].ins| && q != k
    ensures !G.PartOf(c.g, c.g.nodes[k].ins[i], q)
  {
    hide PinsOk, SlotsOk, G.GraphOk;
    if q < |c.g.nodes| && c.g.nodes[q].ConcatNode? {
      forall j | 0 <= j < |c.g.nodes[q].ins|
        ensures c.g.nodes[k].ins[i] != c.g.nodes[q].ins[j]
      {
        G.Unshared(c.g, k, i, q, j);
      }
    }
  }

  lemma PartsDiffer(c: Ctx, k: nat, i: nat, j: nat)
    requires CtxOk(c) && IsConcat(c, k) && i < |c.g.nodes[k].ins| && j < |c.g.nodes[k].ins| && i != j
    ensures c.g.nodes[k].ins[i] != c.g.nodes[k].ins[j]
  {
    hide PinsOk, SlotsOk, G.GraphOk;
    G.Unshared(c.g, k, i, k, j);
  }

  /** A produced part is no graph input: no MatMul before has taken it. */
  lemma PartGathered(c: Ctx, w: Walk, k: nat, b: nat, i: nat)
    requires Inv(c, w, k, b) && b <= k + 1 && IsConcat(c, k) && i < |c.g.nodes[k].ins| && G.SafeAt(c.g, k)
    ensures c.g.nodes[k].ins[i] in w.produced ==> Gathered(c, w.produced, c.g.nodes[k].ins[i])
  {
    hide CtxOk, Partial, Aligned, Placed, DoneOk, ReadsOk, TensorsOk, TailOk, DeadEnd, G.Stale;
    var t := c.g.nodes[k].ins[i];
    assert G.PartOf(c.g, t, k);
    assert t in w.produced && t in c.g.inputs ==> OwnRegion(c, w.produced, b, t);
  }

  /** A produced part waits at its pinned address. */
  lemma PartWaits(c: Ctx, w: Walk, k: nat, i: nat)
    requires Inv(c, w, k, k + 1) && IsConcat(c, k) && i < |c.g.nodes[k].ins| && c.g.nodes[k].ins[i] in w.produced
             && G.SafeAt(c.g, k)
    ensures var t := c.g.nodes[k].ins[i];
            && t in w.done && w.produced[t] == (Pin(c, t), Len(c, t))
            && PartOk(w.p, |w.p.layers|, LayerPart(Pin(c, t), Len(c, t)))
  {
    hide CtxOk, Partial, Aligned, Placed, DoneOk, ReadsOk, TailOk, KeptOk, DeadEnd, LiveTensor, Shapes;
    var t := c.g.nodes[k].ins[i];
    assert G.PartOf(c.g, t, k);
    PartGathered(c, w, k, k + 1, i);
    assert WaitingPart(c, w, k, t);
  }

  /** Where Concat k's parts and buffer are pinned. */
  lemma ConcatPlaces(c: Ctx, k: nat)
    requires CtxOk(c) && IsConcat(c, k)
    ensures var n := c.g.nodes[k];
            n.out in c.pins && forall i :: 0 <= i < |n.ins| ==>
              && G.IsPart(c.g, n.ins[i]) && n.ins[i] in c.pins && n.ins[i] in c.g.lens
              && Pin(c, n.ins[i]) == Pin(c, n.out) + G.SumLens(c.g.lens, n.ins[..i])
  {
    hide G.GraphOk, SlotsOk, PartPinned, Pad16, G.IsPart;
    assert ConcatPinned(c, k);
    forall i | 0 <= i < |c.g.nodes[k].ins|
      ensures G.IsPart(c.g, c.g.nodes[k].ins[i]) && c.g.nodes[k].ins[i] in c.pins && c.g.nodes[k].ins[i] in c.g.lens
    {
      PartAt(c, k, i);
      PartFacts(c, c.g.nodes[k].ins[i]);
    }
  }

  lemma PartAt(c: Ctx, k: nat, i: nat)
    requires IsConcat(c, k) && i < |c.g.nodes[k].ins|
    ensures G.PartOf(c.g, c.g.nodes[k].ins[i], k) && G.IsPart(c.g, c.g.nodes[k].ins[i])
  {
    assert G.PartOf(c.g, c.g.nodes[k].ins[i], k);
  }

  // ----- the end of the walk -----

  lemma {:induction false} LastNamedIs(layers: seq<Layer>, name: string, f: nat)
    requires f < |layers| && layers[f].name == name && forall n :: f < n < |layers| ==> layers[n].name != name
    ensures LastNamed(layers, name) == f
    decreases |layers|
  {
    if f < |layers| - 1 {
      LastNamedIs(layers[..|layers| - 1], name, f);
    }
  }

  function WithOutput(p: Program, name: string): Program {
    p.(outputLayer := name)
  }

  lemma LayerOkOutput(p: Program, name: string, n: nat)
    requires n < |p.layers| && LayerOk(p, n)
    ensures LayerOk(WithOutput(p, name), n)
  {
    hide SegIs, Clear, Pad16, Tiled, FindSeg, RowPadded, Shapes;
    var q := WithOutput(p, name);
    SegIsSame(p, q, p.layers[n]);
    ShapesSame(p, q, n);
    if p.layers[n].Concat? {
      TiledSame(p, q, n, p.layers[n].parts, p.layers[n].outAddr);
    }
  }

  /** Naming the output changes nothing else. */
  lemma PartialOutput(p: Program, name: string)
    requires Partial(p)
    ensures Partial(WithOutput(p, name))
  {
    hide LayerOk, Clear, ClearOf, Apart, Pad16, WritesBelow;
    var q := WithOutput(p, name);
    forall n | 0 <= n < |q.layers|
      ensures LayerOk(q, n)
    {
      LayerOkOutput(p, name, n);
    }
    SegmentsEnd(p, q);
  }

  /** A finished walk with an fc layer is a well-formed program. */
  lemma Finished(c: Ctx, w: Walk)
    requires Inv(c, w, |c.g.nodes|, |c.g.nodes|) && w.lastMat >= 0 && w.p.layoutEnd <= DDR2_BYTES
    ensures 0 <= w.lastFc < |w.p.layers|
    ensures var q := WithOutput(w.p, w.p.layers[w.lastFc].name); WellFormed(q) && Aligned(q)
  {
    hide CtxOk, Partial, LayerOk, Placed, DoneOk, ReadsOk, TensorsOk, KeptOk, G.IsFinal, LayerAligned, SegmentsOk,
         InputsOk, WritesOk;
    var q := WithOutput(w.p, w.p.layers[w.lastFc].name);
    PartialOutput(w.p, w.p.layers[w.lastFc].name);
    PartialParts(q);
    LastNamedIs(q.layers, q.outputLayer, w.lastFc);
    LastChain(c, w.lastMat);
  }

  lemma PartialParts(p: Program)
    requires Partial(p)
    ensures SegmentsOk(p) && InputsOk(p) && WritesOk(p) && forall n :: 0 <= n < |p.layers| ==> LayerOk(p, n)
  {
  }

  lemma LastChain(c: Ctx, k: nat)
    requires CtxOk(c) && k < |c.g.nodes| && c.g.nodes[k].MatMulNode?
             && forall i :: 0 <= i < |c.g.nodes| && c.g.nodes[i].MatMulNode? ==> i <= k
    ensures G.IsFinal(c.g, k)
  {
    hide PinsOk, SlotsOk, G.PartsUnshared, G.NodeShaped, G.IsFinal;
  }
}
