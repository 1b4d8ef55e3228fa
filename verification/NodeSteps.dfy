/** The state lowering.py's loop reaches from each kind of node, and that it keeps the walk's invariant. */
module NodeSteps {
  import opened Bytes
  import opened Program
  import opened Layout
  import opened Walk
  import opened WalkSteps
  import opened WalkLayers
  import opened Emission
  import Requant
  import G = Graph

  /** The allocator's next address after n bytes at a. */
  function Next(a: nat, n: nat): (e: nat)
    ensures e % 16 == 0 && a + n <= e && a < e
  {
    Pad16(a + if n == 0 then 1 else n)
  }

  /** What `_place` appends to the image: the constant and padding up to the next multiple of sixteen. */
  function Stored(image: seq<byte>, d: seq<byte>): (s: seq<byte>)
    ensures |s| >= |d| && s[..|d|] == d && (|image| + |s|) % 16 == 0
  {
    d + Zeros(Pad16(|image| + |d|) - |image| - |d|)
  }

  predicate Shaped(c: Ctx, k: nat) {
    k < |c.g.nodes| && G.NodeShaped(c.g, c.g.nodes[k])
  }

  // ----- gather -----

  /** The quantised table, rows padded. */
  function TableBytes(n: G.Node): seq<byte>
    requires n.GatherNode? && forall r :: 0 <= r < |n.table| ==> |n.table[r]| == n.dim
  {
    PadAbove(n.dim);
    G.PadRows(n.table, Pad16(n.dim), |n.table|)
  }

  /** The program with the node's table placed and its index input added. */
  function GatherProgram(p: Program, n: G.Node): Program
    requires n.GatherNode? && forall r :: 0 <= r < |n.table| ==> |n.table[r]| == n.dim
  {
    var d := TableBytes(n);
    var e := Next(p.layoutEnd, |d|);
    WithInput(WithSegment(p, Segment(p.layoutEnd, |p.image|, |d|, n.name, TableSeg), Stored(p.image, d), e),
      IndexInput(n.index, e, |n.table|), Next(e, 16))
  }

  function GatherRecord(c: Ctx, p: Program, n: G.Node): Layer
    requires n.GatherNode? && forall r :: 0 <= r < |n.table| ==> |n.table[r]| == n.dim
  {
    var e := Next(p.layoutEnd, |TableBytes(n)|);
    Gather(n.name, p.layoutEnd, |n.table|, n.dim, Pad16(n.dim), e, if n.out in c.pins then Pin(c, n.out)
      else Next(e, 16), n.index)
  }

  function GatherAfter(c: Ctx, w: Walk, k: nat): Walk
    requires Shaped(c, k) && c.g.nodes[k].GatherNode?
  {
    var n := c.g.nodes[k];
    var q := GatherProgram(w.p, n);
    GatherWalk(c, w.(p := q), k, GatherRecord(c, w.p, n), if n.out in c.pins then q.layoutEnd
      else Next(q.layoutEnd, Pad16(n.dim)))
  }

  /** Table and index input are in place. */
  lemma GatherReady(c: Ctx, w: Walk, k: nat)
    requires Inv(c, w, k, k + 1) && Shaped(c, k) && c.g.nodes[k].GatherNode? && Unplaced(w.p, c.g.nodes[k].name)
    requires forall n :: 0 <= n < |w.p.layers| ==> w.p.layers[n].name != c.g.nodes[k].name
    ensures Inv(c, w.(p := GatherProgram(w.p, c.g.nodes[k])), k, k + 1)
  {
    hide Inv, Next, Stored, TableBytes, SegmentFits;
    var n := c.g.nodes[k];
    var d := TableBytes(n);
    var s := Segment(w.p.layoutEnd, |w.p.image|, |d|, n.name, TableSeg);
    var e := Next(w.p.layoutEnd, |d|);
    var u := w.(p := WithSegment(w.p, s, Stored(w.p.image, d), e));
    SegmentReady(c, w, k, s, d, e);
    var i := IndexInput(n.index, e, |n.table|);
    IndexSize(i);
    FreshInputStep(c, u, k, k + 1, i, Next(e, 16));
  }

  lemma IndexSize(i: InputSpec)
    requires i.IndexInput?
    ensures i.Size() == 4 && Pad16(i.Size()) == 16
  {
  }

  /** A constant of node k placed behind everything. */
  lemma SegmentReady(c: Ctx, w: Walk, k: nat, s: Segment, d: seq<byte>, e: nat)
    requires Inv(c, w, k, k + 1) && k < |c.g.nodes| && s.layer == c.g.nodes[k].name
    requires s.addr == w.p.layoutEnd && s.offset == |w.p.image| && s.length == |d| && e == Next(w.p.layoutEnd, |d|)
    requires forall n :: 0 <= n < |w.p.layers| ==> w.p.layers[n].name != c.g.nodes[k].name
    ensures Inv(c, w.(p := WithSegment(w.p, s, Stored(w.p.image, d), e)), k, k + 1)
  {
    hide CtxOk, Partial, Placed, DoneOk, ReadsOk, TensorsOk, KeptOk, TailOk, Next, Stored, SegmentFits, LayerAligned;
    FreshSegmentFits(w.p, s, Stored(w.p.image, d), e);
    StoredAligned(w.p.image, d);
    assert NamedBefore(c.g, k + 1, s.layer);
    SegmentStep(c, w, k, k + 1, s, Stored(w.p.image, d), e);
  }

  lemma StoredAligned(image: seq<byte>, d: seq<byte>)
    requires |image| % 16 == 0
    ensures |Stored(image, d)| % 16 == 0
  {
  }

  lemma GatherAligned(c: Ctx, w: Walk, k: nat, b: nat)
    requires Inv(c, w, k, b) && k < |c.g.nodes| && Shaped(c, k) && c.g.nodes[k].GatherNode?
    ensures LayerAligned(GatherRecord(c, w.p, c.g.nodes[k]))
  {
    hide CtxOk, Partial, Placed, DoneOk, ReadsOk, TensorsOk, KeptOk, TailOk, Next, TableBytes;
    var t := c.g.nodes[k].out;
    GatherPinned(c, k);
    if t in c.pins {
      PartFacts(c, t);
    }
  }

  lemma GatherRecordOk(c: Ctx, w: Walk, k: nat, e: nat)
    requires Shaped(c, k) && c.g.nodes[k].GatherNode? && Unplaced(w.p, c.g.nodes[k].name)
    ensures LayerOk(WithLayer(GatherProgram(w.p, c.g.nodes[k]), GatherRecord(c, w.p, c.g.nodes[k]), e), |w.p.layers|)
  {
    hide Next, Stored, Pad16, LayerOk, Unplaced;
    var n, L := c.g.nodes[k], GatherRecord(c, w.p, c.g.nodes[k]);
    var d := TableBytes(n);
    assert |d| == L.rows * L.dimBytes;
    var e1 := Next(w.p.layoutEnd, |d|);
    GatherOk(w.p, Segment(w.p.layoutEnd, |w.p.image|, |d|, n.name, TableSeg), Stored(w.p.image, d), e1,
      IndexInput(n.index, e1, |n.table|), Next(e1, 16), L, e);
  }

  lemma GatherAfterOk(c: Ctx, w: Walk, k: nat)
    requires Inv(c, w, k, k) && Shaped(c, k) && c.g.nodes[k].GatherNode?
    ensures Inv(c, GatherAfter(c, w, k), k + 1, k + 1)
  {
    hide Inv, Next, TableBytes, LayerOk, LayerAligned, G.IsPart, GatherProgram;
    var n := c.g.nodes[k];
    var q, L := GatherProgram(w.p, n), GatherRecord(c, w.p, n);
    Begin(c, w, k);
    GatherReady(c, w, k);
    GatherLayers(w.p, n);
    GatherAligned(c, w, k, k);
    InvCtx(c, w, k, k);
    GatherPinned(c, k);
    if n.out in c.pins {
      GatherRecordOk(c, w, k, q.layoutEnd);
      GatherUnclaimed(c, w, k);
      PinnedGatherStep(c, w.(p := q), k, L);
    } else {
      var e := Next(q.layoutEnd, Pad16(n.dim));
      GatherRecordOk(c, w, k, e);
      FreshGatherStep(c, w.(p := q), k, L, e);
    }
  }

  lemma InvCtx(c: Ctx, w: Walk, k: nat, b: nat)
    requires Inv(c, w, k, b)
    ensures CtxOk(c)
  {
  }

  lemma GatherLayers(p: Program, n: G.Node)
    requires n.GatherNode? && forall r :: 0 <= r < |n.table| ==> |n.table[r]| == n.dim
    ensures GatherProgram(p, n).layers == p.layers
    ensures GatherProgram(p, n).layoutEnd == Next(Next(p.layoutEnd, |TableBytes(n)|), 16)
  {
  }

  // ----- concat -----

  /** Parts already produced are referred to; the others become dense inputs at their pinned addresses. */
  function PartsAfter(c: Ctx, w: Walk, ins: seq<string>): (r: (Walk, seq<Part>))
    ensures r.0.produced == w.produced && r.0.live == w.live && r.0.lastFc == w.lastFc && r.0.lastMat == w.lastMat
    ensures r.0.p.layers == w.p.layers && r.0.p.segments == w.p.segments && r.0.p.image == w.p.image
            && r.0.p.layoutEnd == w.p.layoutEnd
    ensures r.0.p.streaming == w.p.streaming && r.0.p.outputLayer == w.p.outputLayer
    ensures |r.1| == |ins|
  {
    if ins == [] then (w, [])
    else
      var (v, parts) := PartsAfter(c, w, ins[..|ins| - 1]);
      var t := ins[|ins| - 1];
      if t in w.produced then (v, parts + [LayerPart(w.produced[t].0, w.produced[t].1)])
      else (v.(p := WithInput(v.p, DenseInput(t, Pin(c, t), Len(c, t)), v.p.layoutEnd), done := v.done + {t}),
        parts + [InputPart(t, Pin(c, t), Len(c, t))])
  }

  function ConcatRecord(c: Ctx, w: Walk, k: nat): Layer
    requires IsConcat(c, k)
  {
    var n := c.g.nodes[k];
    var parts := PartsAfter(c, w, n.ins).1;
    Concat(n.name, parts, Pin(c, n.out), PartsLen(parts))
  }

  function ConcatAfter(c: Ctx, w: Walk, k: nat): Walk
    requires IsConcat(c, k)
  {
    ConcatWalk(c, PartsAfter(c, w, c.g.nodes[k].ins).0, k, ConcatRecord(c, w, k))
  }

  /** Part j of Concat k is in place: claimed, at its pin, a vector or an input. */
  ghost predicate InPlace(c: Ctx, w: Walk, v: Walk, k: nat, part: Part, j: nat)
    requires IsConcat(c, k) && j < |c.g.nodes[k].ins|
  {
    var t := c.g.nodes[k].ins[j];
    && t in v.done && part.addr == Pin(c, t) && part.len == Len(c, t)
    && part == (if t in w.produced then LayerPart(Pin(c, t), Len(c, t)) else InputPart(t, Pin(c, t), Len(c, t)))
    && (t !in w.produced ==> DenseInput(t, Pin(c, t), Len(c, t)) in v.p.inputs)
  }

  /** The first i parts of Concat k have been dealt with. */
  ghost predicate PartsReady(c: Ctx, w: Walk, k: nat, i: nat)
    requires IsConcat(c, k) && i <= |c.g.nodes[k].ins|
  {
    var r := PartsAfter(c, w, c.g.nodes[k].ins[..i]);
    && Inv(c, r.0, k, k + 1)
    && (forall t :: t in r.0.done ==> t in w.done || t in c.g.nodes[k].ins[..i])
    && forall j :: 0 <= j < i ==> InPlace(c, w, r.0, k, r.1[j], j)
  }

  lemma {:induction false} PartsAfterOk(c: Ctx, w: Walk, k: nat, i: nat)
    requires Inv(c, w, k, k) && IsConcat(c, k) && G.SafeAt(c.g, k) && i <= |c.g.nodes[k].ins|
    requires forall j :: 0 <= j < i && c.g.nodes[k].ins[j] !in w.produced ==> c.g.nodes[k].ins[j] in c.g.inputs
    ensures PartsReady(c, w, k, i)
  {
    hide Inv, InPlace, PartsAfter, Len, Pin, PartsReady;
    if i == 0 {
      NoParts(c, w, k);
    } else {
      PartsAfterOk(c, w, k, i - 1);
      OneMorePart(c, w, k, i - 1);
    }
  }

  lemma NoParts(c: Ctx, w: Walk, k: nat)
    requires Inv(c, w, k, k) && IsConcat(c, k)
    ensures PartsReady(c, w, k, 0)
  {
    hide Inv;
    Begin(c, w, k);
  }

  lemma OneMorePart(c: Ctx, w: Walk, k: nat, i: nat)
    requires Inv(c, w, k, k) && IsConcat(c, k) && G.SafeAt(c.g, k) && i < |c.g.nodes[k].ins|
    requires c.g.nodes[k].ins[i] !in w.produced ==> c.g.nodes[k].ins[i] in c.g.inputs
    requires PartsReady(c, w, k, i)
    ensures PartsReady(c, w, k, i + 1)
  {
    hide Inv, Len, Pin, PartsAfter, InPlace;
    var ins := c.g.nodes[k].ins;
    var r, r' := PartsAfter(c, w, ins[..i]), PartsAfter(c, w, ins[..i + 1]);
    PartsGrow(c, w, ins, i);
    NextPart(c, w, k, i);
    forall j | 0 <= j < i
      ensures InPlace(c, w, r'.0, k, r'.1[j], j)
    {
      InPlaceStill(c, w, r.0, r'.0, k, r.1[j], j);
    }
  }

  lemma PartsGrow(c: Ctx, w: Walk, ins: seq<string>, i: nat)
    requires i < |ins|
    ensures var r, r' := PartsAfter(c, w, ins[..i]), PartsAfter(c, w, ins[..i + 1]);
            && r'.1[..i] == r.1 && r.0.done <= r'.0.done && (forall x :: x in r.0.p.inputs ==> x in r'.0.p.inputs)
            && (forall x :: x in r'.0.done ==> x in r.0.done || x in ins[..i + 1])
  {
    hide PartsAfter, Len, Pin;
    PartsNext(c, w, ins, i);
    assert ins[i] == ins[..i + 1][i];
  }

  lemma NextPart(c: Ctx, w: Walk, k: nat, i: nat)
    requires Inv(c, w, k, k) && IsConcat(c, k) && G.SafeAt(c.g, k) && i < |c.g.nodes[k].ins|
    requires c.g.nodes[k].ins[i] !in w.produced ==> c.g.nodes[k].ins[i] in c.g.inputs
    requires PartsReady(c, w, k, i)
    ensures var r := PartsAfter(c, w, c.g.nodes[k].ins[..i + 1]);
    Inv(c, r.0, k, k + 1) && InPlace(c, w, r.0, k, r.1[i], i)
  {
    hide Inv, Len, Pin, PartOk, Emitted, G.IsPart, PartsAfter, InPlace;
    var ins := c.g.nodes[k].ins;
    var t, r, r' := ins[i], PartsAfter(c, w, ins[..i]), PartsAfter(c, w, ins[..i + 1]);
    PartsNext(c, w, ins, i);
    InvCtx(c, w, k, k);
    PartAt(c, k, i);
    if t in w.produced {
      PartWaits(c, r.0, k, i);
    } else {
      DenseUnclaimed(c, w, k, i);
      NotYet(c, k, i);
      NowEmitted(c, k, t);
      PinnedInputStep(c, r.0, k, k + 1, t);
    }
    InPlaceNow(c, w, r'.0, k, r'.1[i], i);
  }

  lemma InPlaceNow(c: Ctx, w: Walk, v: Walk, k: nat, part: Part, j: nat)
    requires IsConcat(c, k) && j < |c.g.nodes[k].ins|
    requires var t := c.g.nodes[k].ins[j];
             && t in v.done && part == (if t in w.produced then LayerPart(Pin(c, t), Len(c, t))
                 else InputPart(t, Pin(c, t), Len(c, t)))
             && (t !in w.produced ==> DenseInput(t, Pin(c, t), Len(c, t)) in v.p.inputs)
    ensures InPlace(c, w, v, k, part, j)
  {
  }

  lemma InPlaceStill(c: Ctx, w: Walk, v: Walk, v': Walk, k: nat, part: Part, j: nat)
    requires IsConcat(c, k) && j < |c.g.nodes[k].ins| && InPlace(c, w, v, k, part, j)
    requires v.done <= v'.done && forall i :: i in v.p.inputs ==> i in v'.p.inputs
    ensures InPlace(c, w, v', k, part, j)
  {
  }

  lemma PartsNext(c: Ctx, w: Walk, ins: seq<string>, i: nat)
    requires i < |ins|
    ensures var r, r' := PartsAfter(c, w, ins[..i]), PartsAfter(c, w, ins[..i + 1]);
            var t := ins[i];
            && r'.1 == r.1 + [if t in w.produced then LayerPart(w.produced[t].0, w.produced[t].1)
                else InputPart(t, Pin(c, t), Len(c, t))]
            && r'.0 == (if t in w.produced then r.0
                        else r.0.(p := WithInput(r.0.p, DenseInput(t, Pin(c, t), Len(c, t)), r.0.p.layoutEnd),
                          done := r.0.done + {t}))
            && r.0.done <= r'.0.done && (forall x :: x in r.0.p.inputs ==> x in r'.0.p.inputs)
            && (t !in w.produced ==> t in r'.0.done && DenseInput(t, Pin(c, t), Len(c, t)) in r'.0.p.inputs)
            && (forall x :: x in r'.0.done ==> x in r.0.done || x == t)
  {
    assert ins[..i + 1][..i] == ins[..i];
    assert ins[..i + 1][i] == ins[i];
    var r, r' := PartsAfter(c, w, ins[..i]), PartsAfter(c, w, ins[..i + 1]);
    if ins[i] !in w.produced {
      assert r'.0.p.inputs[|r.0.p.inputs|] == DenseInput(ins[i], Pin(c, ins[i]), Len(c, ins[i]));
    }
  }

  lemma NotYet(c: Ctx, k: nat, i: nat)
    requires CtxOk(c) && IsConcat(c, k) && i < |c.g.nodes[k].ins|
    ensures c.g.nodes[k].ins[i] !in c.g.nodes[k].ins[..i]
  {
    hide CtxOk;
    forall j | 0 <= j < i
      ensures c.g.nodes[k].ins[j] != c.g.nodes[k].ins[i]
    {
      PartsDiffer(c, k, i, j);
    }
  }

  lemma NowEmitted(c: Ctx, k: nat, t: string)
    requires IsConcat(c, k) && t in c.g.nodes[k].ins && t in c.g.inputs
    ensures Emitted(c, k + 1, t)
  {
    assert G.PartOf(c.g, t, k);
  }

  lemma ConcatAfterOk(c: Ctx, w: Walk, k: nat)
    requires Inv(c, w, k, k) && IsConcat(c, k) && G.SafeAt(c.g, k)
    requires forall j :: 0 <= j < |c.g.nodes[k].ins| && c.g.nodes[k].ins[j] !in w.produced
               ==> c.g.nodes[k].ins[j] in c.g.inputs
    ensures Inv(c, ConcatAfter(c, w, k), k + 1, k + 1)
    ensures var n := c.g.nodes[k]; n.out in c.pins && forall j :: 0 <= j < |n.ins| ==> n.ins[j] in c.pins
  {
    hide Inv, PartsAfter, Pin, Len, PartOk, LayerOk, PartsLen, InPlace, Unplaced, ConcatWalk;
    var n, L := c.g.nodes[k], ConcatRecord(c, w, k);
    var r := PartsAfter(c, w, n.ins);
    assert n.ins[..|n.ins|] == n.ins;
    PartsAfterOk(c, w, k, |n.ins|);
    InvCtx(c, w, k, k);
    ConcatPlaces(c, k);
    ConcatFacts(c, k);
    Begin(c, w, k);
    assert Unplaced(r.0.p, n.name) by {
      NewName(r.0.p, n.name);
    }
    ConcatRecordOk(c, w, k);
    AllInPlace(c, w, r.0, k, r.1);
    ConcatStep(c, r.0, k, L);
  }

  lemma AllInPlace(c: Ctx, w: Walk, v: Walk, k: nat, parts: seq<Part>)
    requires IsConcat(c, k) && |parts| == |c.g.nodes[k].ins|
             && forall j :: 0 <= j < |parts| ==> InPlace(c, w, v, k, parts[j], j)
    ensures forall j :: 0 <= j < |parts| ==>
              c.g.nodes[k].ins[j] in v.done
              && parts[j].addr == Pin(c, c.g.nodes[k].ins[j])
  {
    forall j | 0 <= j < |parts|
      ensures c.g.nodes[k].ins[j] in v.done && parts[j].addr == Pin(c, c.g.nodes[k].ins[j])
    {
      assert InPlace(c, w, v, k, parts[j], j);
    }
  }

  lemma NewName(p: Program, name: string)
    requires forall s :: 0 <= s < |p.segments| ==> p.segments[s].layer != name
    ensures Unplaced(p, name)
  {
  }

  lemma ConcatRecordOk(c: Ctx, w: Walk, k: nat)
    requires CtxOk(c) && IsConcat(c, k) && G.SafeAt(c.g, k)
    requires var r := PartsAfter(c, w, c.g.nodes[k].ins);
             Inv(c, r.0, k, k + 1) && Unplaced(r.0.p, c.g.nodes[k].name)
             && forall j :: 0 <= j < |r.1| ==> InPlace(c, w, r.0, k, r.1[j], j)
    ensures var r := PartsAfter(c, w, c.g.nodes[k].ins);
            LayerOk(WithLayer(r.0.p, ConcatRecord(c, w, k), r.0.p.layoutEnd), |r.0.p.layers|)
              && ConcatRecord(c, w, k).len == Len(c, c.g.nodes[k].out)
  {
    hide Inv, PartsAfter, PartOk, LayerOk, PartsLen, Unplaced, InPlace, Tiled, Pin, Len, CtxOk;
    var n, L := c.g.nodes[k], ConcatRecord(c, w, k);
    var r := PartsAfter(c, w, n.ins);
    ConcatPlaces(c, k);
    ConcatFacts(c, k);
    forall j | 0 <= j < |n.ins|
      ensures PartOk(r.0.p, |r.0.p.layers|, r.1[j]) && r.1[j].addr == Pin(c, n.ins[j]) && r.1[j].len == Len(c, n.ins[j])
    {
      PartIsOk(c, w, r.0, k, r.1[j], j);
    }
    TiledAll(r.0.p, |r.0.p.layers|, c, n.ins, r.1, Pin(c, n.out));
    ConcatOk(r.0.p, c, n.ins, L, r.0.p.layoutEnd);
  }

  lemma PartIsOk(c: Ctx, w: Walk, v: Walk, k: nat, part: Part, j: nat)
    requires Inv(c, v, k, k + 1) && v.produced == w.produced && IsConcat(c, k) && G.SafeAt(c.g, k)
             && j < |c.g.nodes[k].ins|
             && InPlace(c, w, v, k, part, j)
    ensures PartOk(v.p, |v.p.layers|, part) && part.addr == Pin(c, c.g.nodes[k].ins[j])
            && part.len == Len(c, c.g.nodes[k].ins[j])
  {
    hide Inv, Pin, Len, Shapes;
    if c.g.nodes[k].ins[j] in w.produced {
      PartWaits(c, v, k, j);
    }
  }

  // ----- matmul -----

  /** The weight matrix by output rows, padded both ways. */
  function WeightBytes(n: G.Node): seq<byte>
    requires n.MatMulNode? && |n.weights| == n.N && forall r :: 0 <= r < |n.weights| ==> |n.weights[r]| == n.K
  {
    PadAbove(n.K);
    G.PadRows(n.weights, Pad16(n.K), Pad16(n.N))
  }

  /** The biases of the fused Add, or none. */
  function Biases(g: G.Graph, k: nat): seq<int>
    requires k < |g.nodes| && g.nodes[k].MatMulNode?
  {
    if G.FusedAdd(g, k) >= 0 then g.nodes[k].biases else []
  }

  function DenseAfter(w: Walk, x: string, n: nat): Walk {
    if x in w.produced then w else DenseWalk(w, x, n, Next(w.p.layoutEnd, Pad16(n)))
  }

  /** Slots alternate with the fc layers. */
  function SlotOf(c: Ctx, f: nat): nat {
    if f % 2 < |c.slots| then c.slots[f % 2] else 0
  }

  /** Where weights, biases, accumulators and outputs of node k go, and the addresses the allocator stands at after
      each. */
  function FcRecord(c: Ctx, w: Walk, k: nat, f: nat): (L: Layer)
    requires Shaped(c, k) && c.g.nodes[k].MatMulNode? && c.g.nodes[k].x in w.produced
    ensures L.Fc?
  {
    var n := c.g.nodes[k];
    var Mpad, Kpad := Pad16(n.N), Pad16(n.K);
    var final := G.IsFinal(c.g, k);
    var acc := AfterConsts(c, w, k);
    var scale := if final then (0, 0) else Requant.Params(n.ratio);
    Fc(n.name, w.produced[n.x].0, n.K, Kpad, n.N, Mpad,
       if c.streaming then SlotOf(c, f) else w.p.layoutEnd,
       if c.streaming then SlotOf(c, f) + Pad16(|WeightBytes(n)|) else AfterWeights(c, w, k),
       acc, if final then acc else Next(acc, 4 * Mpad), scale.0, scale.1, G.FusedRelu(c.g, k) >= 0, final, c.streaming)
  }

  function AfterWeights(c: Ctx, w: Walk, k: nat): nat
    requires Shaped(c, k) && c.g.nodes[k].MatMulNode?
  {
    if c.streaming then w.p.layoutEnd else Next(w.p.layoutEnd, |WeightBytes(c.g.nodes[k])|)
  }

  function AfterConsts(c: Ctx, w: Walk, k: nat): nat
    requires Shaped(c, k) && c.g.nodes[k].MatMulNode?
  {
    if c.streaming then w.p.layoutEnd else Next(AfterWeights(c, w, k), 4 * Pad16(c.g.nodes[k].N))
  }

  function AfterLayer(c: Ctx, w: Walk, k: nat): nat
    requires Shaped(c, k) && c.g.nodes[k].MatMulNode?
  {
    var e := Next(AfterConsts(c, w, k), 4 * Pad16(c.g.nodes[k].N));
    if G.IsFinal(c.g, k) then e else Next(e, Pad16(c.g.nodes[k].N))
  }

  function WeightSegment(p: Program, L: Layer): Segment
    requires L.Fc?
  {
    Segment(L.wAddr, |p.image|, L.Mpad * L.Kpad, L.name, WeightSeg)
  }

  /** The program with the node's weights placed. */
  function WeightsProgram(c: Ctx, w: Walk, k: nat, f: nat): Program
    requires Shaped(c, k) && c.g.nodes[k].MatMulNode? && c.g.nodes[k].x in w.produced
  {
    WithSegment(w.p, WeightSegment(w.p, FcRecord(c, w, k, f)), Stored(w.p.image, WeightBytes(c.g.nodes[k])),
      AfterWeights(c, w, k))
  }

  /** The program with the node's weights and biases placed. */
  function FcProgram(c: Ctx, w: Walk, k: nat, f: nat): Program
    requires Shaped(c, k) && c.g.nodes[k].MatMulNode? && c.g.nodes[k].x in w.produced
  {
    var n := c.g.nodes[k];
    var dw := Stored(w.p.image, WeightBytes(n));
    FcConsts(w.p, FcRecord(c, w, k, f), dw, AfterWeights(c, w, k),
      Stored(w.p.image + dw, G.BiasBytes(Biases(c.g, k), Pad16(n.N))), AfterConsts(c, w, k))
  }

  function FcAfter(c: Ctx, w: Walk, k: nat, f: nat): Walk
    requires Shaped(c, k) && c.g.nodes[k].MatMulNode? && c.g.nodes[k].x in w.produced
  {
    FcWalk(c, w.(p := FcProgram(c, w, k, f)), k, FcRecord(c, w, k, f), AfterLayer(c, w, k))
  }

  function MatMulAfter(c: Ctx, w: Walk, k: nat, f: nat): Walk
    requires Shaped(c, k) && c.g.nodes[k].MatMulNode?
  {
    FcAfter(c, DenseAfter(w, c.g.nodes[k].x, c.g.nodes[k].K), k, f)
  }

  lemma DenseAfterOk(c: Ctx, w: Walk, k: nat, b: nat)
    requires Inv(c, w, k, b) && Shaped(c, k) && c.g.nodes[k].MatMulNode? && k < b
             && (c.g.nodes[k].x in w.produced || c.g.nodes[k].x in c.g.inputs)
    ensures Inv(c, DenseAfter(w, c.g.nodes[k].x, c.g.nodes[k].K), k, b)
  {
    hide Inv, Next, G.IsPart;
    var n := c.g.nodes[k];
    if n.x !in w.produced {
      DenseStep(c, w, k, b, n.x, Next(w.p.layoutEnd, Pad16(n.K)));
    }
  }

  lemma PadTimes(a: nat, b: nat)
    requires b % 16 == 0
    ensures 0 <= a * b && (a * b) % 16 == 0 && Pad16(a * b) == a * b
  {
    assert a * b == 16 * (a * (b / 16));
  }

  /** Weights in their place: behind everything, or at the start of a slot. */
  lemma WeightsReady(c: Ctx, w: Walk, k: nat, f: nat)
    requires Inv(c, w, k, k + 1) && Shaped(c, k) && c.g.nodes[k].MatMulNode? && c.g.nodes[k].x in w.produced
             && Unplaced(w.p, c.g.nodes[k].name)
    requires forall n :: 0 <= n < |w.p.layers| ==> w.p.layers[n].name != c.g.nodes[k].name
    ensures Inv(c, w.(p := WeightsProgram(c, w, k, f)), k, k + 1)
  {
    hide Inv, Next, Stored, WeightBytes, SegmentFits, G.IsFinal, Requant.Params, G.FusedRelu, SlotOf, Pad16, Unplaced,
         AfterConsts;
    var n, L, d := c.g.nodes[k], FcRecord(c, w, k, f), WeightBytes(c.g.nodes[k]);
    var s := WeightSegment(w.p, L);
    WeightsSize(n);
    if c.streaming {
      SlotBounds(c, w, k, k + 1, f);
      UnplacedSlot(w.p, n.name, s.addr, s.length);
      SlotReady(c, w, k, s, d);
    } else {
      SegmentReady(c, w, k, s, d, AfterWeights(c, w, k));
    }
  }

  function WeightArea(n: G.Node): (a: nat)
    requires n.MatMulNode?
    ensures a % 16 == 0 && Pad16(a) == a
  {
    PadTimes(Pad16(n.N), Pad16(n.K));
    Pad16(n.N) * Pad16(n.K)
  }

  lemma WeightsSize(n: G.Node)
    requires n.MatMulNode? && |n.weights| == n.N && forall r :: 0 <= r < |n.weights| ==> |n.weights[r]| == n.K
    ensures |WeightBytes(n)| == Pad16(n.N) * Pad16(n.K) == WeightArea(n)
  {
  }

  lemma UnplacedSlot(p: Program, name: string, a: nat, n: nat)
    requires Unplaced(p, name)
    ensures forall j :: 0 <= j < |p.segments| && p.segments[j].layer == name
              ==> Apart(p.segments[j].addr, p.segments[j].length, a, n)
  {
  }

  /** Weights and biases of every MatMul fit a slot. */
  lemma SlotBounds(c: Ctx, w: Walk, k: nat, b: nat, f: nat)
    requires Inv(c, w, k, b) && c.streaming && k < |c.g.nodes| && c.g.nodes[k].MatMulNode?
    ensures SlotOf(c, f) % 16 == 0 && c.slotStart <= SlotOf(c, f)
    ensures var n := c.g.nodes[k]; SlotOf(c, f) + WeightArea(n) + 4 * Pad16(n.N) <= c.walkStart
  {
    hide PinsOk, G.GraphOk, Partial, Aligned, Placed, DoneOk, ReadsOk, TensorsOk, KeptOk, TailOk, Pad16;
  }

  lemma SlotReady(c: Ctx, w: Walk, k: nat, s: Segment, d: seq<byte>)
    requires Inv(c, w, k, k + 1) && k < |c.g.nodes| && s.layer == c.g.nodes[k].name && c.streaming && s.kind != TableSeg
    requires c.slotStart <= s.addr && s.addr + s.length <= c.walkStart && s.addr % 16 == 0 && s.offset == |w.p.image|
             && s.length == |d|
    requires forall n :: 0 <= n < |w.p.layers| ==> w.p.layers[n].name != s.layer
    requires forall j :: 0 <= j < |w.p.segments| && w.p.segments[j].layer == s.layer ==>
               Apart(w.p.segments[j].addr, w.p.segments[j].length, s.addr, s.length)
    ensures Inv(c, w.(p := WithSegment(w.p, s, Stored(w.p.image, d), w.p.layoutEnd)), k, k + 1)
  {
    hide CtxOk, Partial, Placed, DoneOk, ReadsOk, TensorsOk, KeptOk, TailOk, Stored, SegmentFits, LayerAligned, Apart;
    SlotSegmentFits(c, w, k, k + 1, s, Stored(w.p.image, d));
    StoredAligned(w.p.image, d);
    assert NamedBefore(c.g, k + 1, s.layer);
    SegmentStep(c, w, k, k + 1, s, Stored(w.p.image, d), w.p.layoutEnd);
  }

  /** Biases in their place: behind the weights. */
  lemma BiasesReady(c: Ctx, w: Walk, k: nat, f: nat)
    requires Inv(c, w, k, k + 1) && Shaped(c, k) && c.g.nodes[k].MatMulNode? && c.g.nodes[k].x in w.produced
             && Unplaced(w.p, c.g.nodes[k].name)
    requires forall n :: 0 <= n < |w.p.layers| ==> w.p.layers[n].name != c.g.nodes[k].name
    ensures Inv(c, w.(p := FcProgram(c, w, k, f)), k, k + 1)
  {
    hide Inv, Next, Stored, WeightBytes, SegmentFits, FcRecord, G.BiasBytes, Biases, AfterWeights, AfterConsts,
         Unplaced, Pad16, WithSegment, Apart, WeightArea;
    var n, L := c.g.nodes[k], FcRecord(c, w, k, f);
    var u := w.(p := WeightsProgram(c, w, k, f));
    WeightsReady(c, w, k, f);
    WeightsPlaced(c, w, k, f);
    BiasAddress(c, w, k, f);
    var d := G.BiasBytes(Biases(c.g, k), Pad16(n.N));
    var b := Segment(L.bAddr, |u.p.image|, 4 * Pad16(n.N), n.name, BiasSeg);
    assert FcProgram(c, w, k, f) == WithSegment(u.p, b, Stored(u.p.image, d), AfterConsts(c, w, k));
    if c.streaming {
      StreamingEnds(c, w, k);
      BiasInSlot(c, w, k, k + 1, f);
      OnlyLast(w.p, u.p, WeightSegment(w.p, L), n.name, b.addr, b.length);
      SlotReady(c, u, k, b, d);
    } else {
      ResidentEnds(c, w, k);
      SegmentReady(c, u, k, b, d, AfterConsts(c, w, k));
    }
  }

  lemma WeightsPlaced(c: Ctx, w: Walk, k: nat, f: nat)
    requires Shaped(c, k) && c.g.nodes[k].MatMulNode? && c.g.nodes[k].x in w.produced
    ensures var q := WeightsProgram(c, w, k, f);
            && q.image == w.p.image + Stored(w.p.image, WeightBytes(c.g.nodes[k])) && q.layers == w.p.layers
            && q.layoutEnd == AfterWeights(c, w, k)
            && q.segments == w.p.segments + [WeightSegment(w.p, FcRecord(c, w, k, f))]
  {
    hide Stored, WeightBytes, FcRecord, AfterWeights;
  }

  /** Biases follow the weights. */
  lemma BiasAddress(c: Ctx, w: Walk, k: nat, f: nat)
    requires Shaped(c, k) && c.g.nodes[k].MatMulNode? && c.g.nodes[k].x in w.produced
    ensures var n, L := c.g.nodes[k], FcRecord(c, w, k, f);
            && L.Mpad == Pad16(n.N) && L.Kpad == Pad16(n.K) && L.name == n.name && L.inAddr == w.produced[n.x].0
            && L.wAddr == (if c.streaming then SlotOf(c, f) else w.p.layoutEnd)
            && WeightSegment(w.p, L).addr == L.wAddr && WeightSegment(w.p, L).length == WeightArea(n)
            && L.bAddr == if c.streaming then L.wAddr + WeightArea(n) else AfterWeights(c, w, k)
  {
    hide Next, WeightBytes, G.IsFinal, Requant.Params, G.FusedRelu, SlotOf, AfterConsts, AfterWeights, Pad16;
    WeightsSize(c.g.nodes[k]);
  }

  lemma BiasInSlot(c: Ctx, w: Walk, k: nat, b: nat, f: nat)
    requires Inv(c, w, k, b) && c.streaming && Shaped(c, k) && c.g.nodes[k].MatMulNode? && c.g.nodes[k].x in w.produced
    ensures var n, L := c.g.nodes[k], FcRecord(c, w, k, f);
            c.slotStart <= L.wAddr && L.bAddr % 16 == 0 && L.wAddr + WeightArea(n) <= L.bAddr
              && L.bAddr + 4 * Pad16(n.N) <= c.walkStart
  {
    hide Inv, FcRecord, SlotOf, Pad16, WeightSegment, WeightArea;
    BiasAddress(c, w, k, f);
    SlotBounds(c, w, k, b, f);
  }

  lemma StreamingEnds(c: Ctx, w: Walk, k: nat)
    requires c.streaming && Shaped(c, k) && c.g.nodes[k].MatMulNode?
    ensures AfterWeights(c, w, k) == AfterConsts(c, w, k) == w.p.layoutEnd
  {
  }

  lemma ResidentEnds(c: Ctx, w: Walk, k: nat)
    requires !c.streaming && Shaped(c, k) && c.g.nodes[k].MatMulNode?
    ensures AfterConsts(c, w, k) == Next(AfterWeights(c, w, k), 4 * Pad16(c.g.nodes[k].N))
  {
  }

  lemma OnlyLast(p: Program, q: Program, s: Segment, name: string, a: nat, n: nat)
    requires Unplaced(p, name) && q.segments == p.segments + [s] && s.addr + s.length <= a
    ensures forall j :: 0 <= j < |q.segments| && q.segments[j].layer == name
              ==> Apart(q.segments[j].addr, q.segments[j].length, a, n)
  {
  }

  /** The accumulators and outputs lie behind everything before them, apart and aligned. */
  lemma FcRegions(c: Ctx, w: Walk, k: nat, f: nat)
    requires Shaped(c, k) && c.g.nodes[k].MatMulNode? && c.g.nodes[k].x in w.produced && w.p.layoutEnd % 16 == 0
    ensures var L, e := FcRecord(c, w, k, f), AfterLayer(c, w, k);
            w.p.layoutEnd <= AfterConsts(c, w, k) <= e && FreshWrites(L, AfterConsts(c, w, k)) && WritesBelow(L, e)
              && e % 16 == 0
            && L.accAddr % 16 == 0 && L.outAddr % 16 == 0
  {
    hide Next, WeightBytes, Pad16, G.IsFinal, Requant.Params, G.FusedRelu, SlotOf;
  }

  lemma FcProgramEnds(c: Ctx, w: Walk, k: nat, f: nat)
    requires Shaped(c, k) && c.g.nodes[k].MatMulNode? && c.g.nodes[k].x in w.produced
    ensures FcProgram(c, w, k, f).layoutEnd == AfterConsts(c, w, k) && FcProgram(c, w, k, f).layers == w.p.layers
  {
    hide Next, WeightBytes, AfterConsts, AfterWeights, Stored, G.BiasBytes, Biases, FcRecord;
  }

  lemma FcAligned(c: Ctx, w: Walk, k: nat, b: nat, f: nat)
    requires Inv(c, w, k, b) && Shaped(c, k) && c.g.nodes[k].MatMulNode? && b <= k + 1
             && c.g.nodes[k].x in w.produced
    ensures LayerAligned(FcRecord(c, w, k, f))
  {
    hide Inv, Next, WeightBytes, Pad16, SlotOf, LiveTensor, AfterConsts, AfterLayer, FreshWrites, WritesBelow, FcRecord,
         Holds, WeightSegment, WeightArea;
    InvAligned(c, w, k, b);
    ReadableInput(c, w, k, b);
    LiveAligned(c, w, k, c.g.nodes[k].x);
    BiasAddress(c, w, k, f);
    FcRegions(c, w, k, f);
    if c.streaming {
      SlotBounds(c, w, k, b, f);
    }
  }

  lemma InvAligned(c: Ctx, w: Walk, k: nat, b: nat)
    requires Inv(c, w, k, b)
    ensures w.p.layoutEnd % 16 == 0 && |w.p.image| % 16 == 0 && w.p.streaming == c.streaming
  {
  }

  lemma LiveAligned(c: Ctx, w: Walk, k: nat, t: string)
    requires k <= |c.g.nodes| && LiveTensor(c, w, k, t)
    ensures t in w.produced && w.produced[t].0 % 16 == 0 && w.produced[t].0 + Pad16(Len(c, t)) <= w.p.layoutEnd
            && Covers(w.p, w.produced[t].0, Len(c, t))
  {
    hide Covers, Holds;
  }

  lemma FcRecordOk(c: Ctx, w: Walk, k: nat, b: nat, f: nat)
    requires Inv(c, w, k, b) && Shaped(c, k) && c.g.nodes[k].MatMulNode? && b <= k + 1
             && c.g.nodes[k].x in w.produced
             && Unplaced(w.p, c.g.nodes[k].name)
    ensures LayerOk(WithLayer(FcProgram(c, w, k, f), FcRecord(c, w, k, f), AfterLayer(c, w, k)), |w.p.layers|)
  {
    hide Inv, Next, Stored, Pad16, G.IsFinal, Requant.Params, G.FusedRelu, SlotOf, G.BiasBytes, Biases, LayerOk,
         Unplaced, Holds, AfterWeights, AfterConsts, AfterLayer, FcConsts;
    var n, L := c.g.nodes[k], FcRecord(c, w, k, f);
    ReadableInput(c, w, k, b);
    LiveAligned(c, w, k, n.x);
    InvAligned(c, w, k, b);
    WeightsSize(n);
    FcEnds(c, w, k, b, f);
    var dw := Stored(w.p.image, WeightBytes(n));
    FcOk(w.p, L, n.weights, dw, AfterWeights(c, w, k), Stored(w.p.image + dw, G.BiasBytes(Biases(c.g, k), L.Mpad)),
      AfterConsts(c, w, k), AfterLayer(c, w, k));
  }

  lemma FcEnds(c: Ctx, w: Walk, k: nat, b: nat, f: nat)
    requires Inv(c, w, k, b) && Shaped(c, k) && c.g.nodes[k].MatMulNode? && c.g.nodes[k].x in w.produced
    ensures w.p.layoutEnd <= AfterLayer(c, w, k) && FreshWrites(FcRecord(c, w, k, f), w.p.layoutEnd)
  {
    hide Inv, FcRecord, FcProgram, AfterConsts, AfterLayer;
    InvAligned(c, w, k, b);
    FcRegions(c, w, k, f);
    FreshBelow(FcRecord(c, w, k, f), w.p.layoutEnd, AfterConsts(c, w, k));
  }

  lemma FreshBelow(L: Layer, a: nat, b: nat)
    requires FreshWrites(L, b) && a <= b
    ensures FreshWrites(L, a)
  {
  }

  lemma FcAfterOk(c: Ctx, w: Walk, k: nat, f: nat)
    requires Inv(c, w, k, k + 1) && Shaped(c, k) && c.g.nodes[k].MatMulNode?
             && c.g.nodes[k].x in w.produced
             && Unplaced(w.p, c.g.nodes[k].name)
    requires forall n :: 0 <= n < |w.p.layers| ==> w.p.layers[n].name != c.g.nodes[k].name
    ensures Inv(c, FcAfter(c, w, k, f), k + 1, k + 1)
  {
    hide Inv, FcProgram, AfterConsts, AfterLayer, AfterWeights, LayerOk, LayerAligned, FreshWrites, WritesBelow,
         Unplaced, LiveTensor, G.NodeShaped, Pad16, Next, G.IsFinal, Requant.Params, G.FusedRelu, SlotOf, FcWalk;
    BiasesReady(c, w, k, f);
    InvAligned(c, w, k, k + 1);
    FcRegions(c, w, k, f);
    FcAligned(c, w, k, k + 1, f);
    FcProgramEnds(c, w, k, f);
    FcRecordOk(c, w, k, k + 1, f);
    var u := w.(p := FcProgram(c, w, k, f));
    ReadableInput(c, u, k, k + 1);
    FcStep(c, u, k, FcRecord(c, w, k, f), AfterLayer(c, w, k));
  }

  lemma MatMulAfterOk(c: Ctx, w: Walk, k: nat, f: nat)
    requires Inv(c, w, k, k) && Shaped(c, k) && c.g.nodes[k].MatMulNode?
             && (c.g.nodes[k].x in w.produced || c.g.nodes[k].x in c.g.inputs)
    ensures Inv(c, MatMulAfter(c, w, k, f), k + 1, k + 1)
  {
    hide Inv, FcAfter, G.NodeShaped, DenseWalk, Next, Pad16, Unplaced;
    var n := c.g.nodes[k];
    Begin(c, w, k);
    DenseAfterOk(c, w, k, k + 1);
    DenseKeeps(w, n.x, n.K);
    NewName(w.p, n.name);
    UnplacedSame(w.p, DenseAfter(w, n.x, n.K).p, n.name);
    FcAfterOk(c, DenseAfter(w, n.x, n.K), k, f);
  }

  lemma UnplacedSame(p: Program, q: Program, name: string)
    requires Unplaced(p, name) && q.segments == p.segments
    ensures Unplaced(q, name)
  {
  }

  lemma DenseKeeps(w: Walk, x: string, n: nat)
    ensures var v := DenseAfter(w, x, n); v.p.segments == w.p.segments && v.p.layers == w.p.layers && x in v.produced
  {
  }
}
