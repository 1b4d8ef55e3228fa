/** Node by node, and then for the whole of `lower`: the program computes what the graph means. */
module Preservation {
  import opened Bytes
  import opened Kernels
  import opened Program
  import opened Layout
  import opened Walk
  import opened WalkLayers
  import opened Emission
  import opened NodeSteps
  import opened Meaning
  import opened Faithful
  import opened Constants
  import opened Lowering
  import Requant
  import G = Graph

  // ----- support -----

  /** Layers that are not fc leave the output chain's result alone. */
  lemma OutputStays(c: Ctx, w: Walk, v: Walk, k: nat, b: nat, L: Layer, end: nat)
    requires Inv(c, w, k, b) && Partial(v.p) && v.p == WithLayer(w.p, L, end) && Means(c, w, k)
    requires v.lastFc == w.lastFc && v.lastMat == w.lastMat
    ensures forall feed: Feed :: FeedOk(v.p, feed) ==> OutputMeans(c, v, feed)
  {
    hide Partial, Grown, FeedOk, LiveMeans, PartsMean, Outputs, SumsAt, G.IsFinal, CtxOk, Aligned, Placed, DoneOk,
         ReadsOk, TensorsOk, KeptOk;
    GrownLayer(w.p, L, end);
    forall feed: Feed | FeedOk(v.p, feed)
      ensures OutputMeans(c, v, feed)
    {
      SameFeed(w.p, v.p, feed);
      if w.lastMat >= 0 {
        OutputsGrown(w.p, v.p, feed, -1, w.lastFc);
      }
    }
  }

  /** The new layer's vector. */
  lemma NewVector(p: Program, L: Layer, end: nat, feed: Feed)
    requires Partial(p) && Partial(WithLayer(p, L, end)) && FeedOk(p, feed)
    ensures var q := WithLayer(p, L, end);
            && FeedOk(q, feed) && LayerOk(q, |p.layers|) && q.layers[|p.layers|] == L && |q.layers| == |p.layers| + 1
            && Vecs(q, feed, |q.layers|) == RefStep(q, feed, |p.layers|, Vecs(q, feed, |p.layers|))
            && forall a :: a in Vecs(p, feed, |p.layers|) ==>
                a in Vecs(q, feed, |p.layers|)
                && Vecs(q, feed, |p.layers|)[a] == Vecs(p, feed, |p.layers|)[a]
  {
    hide RefStep, SegmentsOk, InputsOk, WritesOk, LayerOk, Shapes, Grown, FeedOk;
    var q := WithLayer(p, L, end);
    GrownLayer(p, L, end);
    SameFeed(p, q, feed);
    assert LayerOk(q, |p.layers|);
    forall a | a in Vecs(p, feed, |p.layers|)
      ensures a in Vecs(q, feed, |p.layers|) && Vecs(q, feed, |p.layers|)[a] == Vecs(p, feed, |p.layers|)[a]
    {
      VecsGrown(p, q, feed, -1, |p.layers|, a);
    }
  }

  lemma MeansAt(c: Ctx, w: Walk, k: nat, feed: Feed)
    requires Partial(w.p) && k <= |c.g.nodes| && Means(c, w, k) && FeedOk(w.p, feed)
    ensures LiveMeans(c, w, k, feed) && PartsMean(c, w, k, feed) && OutputMeans(c, w, feed)
  {
    hide Partial, FeedOk, LiveMeans, PartsMean, OutputMeans;
  }

  /** A vector that is the whole value. */
  lemma CarriesWhole(c: Ctx, p: Program, feed: Feed, k: nat, a: nat, t: string)
    requires Partial(p) && FeedOk(p, feed) && k <= |c.g.nodes| && a in Vecs(p, feed, |p.layers|)
    requires Vecs(p, feed, |p.layers|)[a] == Value(EnvAt(c.g, feed, k), feed, t)
    requires |Vecs(p, feed, |p.layers|)[a]| == Len(c, t)
    ensures Carries(c, p, feed, k, a, t)
  {
    hide Partial, FeedOk, Vecs, EnvAt, Value, Len;
    var v := Vecs(p, feed, |p.layers|)[a];
    assert v[..Len(c, t)] == v;
  }

  /** The vector at an address that holds t exactly is t's value. */
  lemma CarriesExact(c: Ctx, p: Program, feed: Feed, k: nat, a: nat, t: string)
    requires Partial(p) && FeedOk(p, feed) && k <= |c.g.nodes| && Carries(c, p, feed, k, a, t) && Holds(p, a, Len(c, t))
    ensures Vecs(p, feed, |p.layers|)[a] == Value(EnvAt(c.g, feed, k), feed, t)
  {
    hide Partial, FeedOk, Vecs, EnvAt, Value, Len, Shapes;
    var v := Vecs(p, feed, |p.layers|)[a];
    assert v[..|v|] == v;
  }

  lemma TensorLength(c: Ctx, k: nat)
    requires Shaped(c, k)
    ensures var n := c.g.nodes[k];
            && (n.GatherNode? ==> Len(c, n.out) == n.dim)
            && (n.MatMulNode? ==> Len(c, n.x) == n.K)
  {
  }

  // ----- gather -----

  lemma GatherStart(c: Ctx, w: Walk, k: nat)
    requires Inv(c, w, k, k + 1) && Shaped(c, k) && c.g.nodes[k].GatherNode? && Unplaced(w.p, c.g.nodes[k].name)
             && Means(c, w, k)
    requires forall n :: 0 <= n < |w.p.layers| ==> w.p.layers[n].name != c.g.nodes[k].name
    ensures Inv(c, w.(p := GatherProgram(w.p, c.g.nodes[k])), k, k + 1)
            && Means(c, w.(p := GatherProgram(w.p, c.g.nodes[k])), k)
  {
    hide Inv, Next, Stored, TableBytes, Means, SegmentFits;
    var n := c.g.nodes[k];
    var d := TableBytes(n);
    var s := Segment(w.p.layoutEnd, |w.p.image|, |d|, n.name, TableSeg);
    var e := Next(w.p.layoutEnd, |d|);
    var u := w.(p := WithSegment(w.p, s, Stored(w.p.image, d), e));
    SegmentReady(c, w, k, s, d, e);
    MeansSegment(c, w, k, k + 1, s, Stored(w.p.image, d), e);
    GatherReady(c, w, k);
    PartialOf(c, w.(p := GatherProgram(w.p, n)), k, k + 1);
    MeansInput(c, u, w.(p := GatherProgram(w.p, n)), k, k + 1, IndexInput(n.index, e, |n.table|), Next(e, 16));
  }

  lemma GatherCarries(c: Ctx, w: Walk, k: nat, feed: Feed)
    requires Shaped(c, k) && c.g.nodes[k].GatherNode? && Unplaced(w.p, c.g.nodes[k].name)
    requires Partial(GatherProgram(w.p, c.g.nodes[k])) && Partial(GatherAfter(c, w, k).p)
             && FeedOk(GatherAfter(c, w, k).p, feed)
    ensures var v := GatherAfter(c, w, k); var t := c.g.nodes[k].out;
    t in v.produced && Carries(c, v.p, feed, k + 1, v.produced[t].0, t)
  {
    hide Partial, FeedOk, LayerOk, GatherProgram, TableRow, G.NodeShaped, Unplaced;
    TableShape(c, k);
    var n, u, v := c.g.nodes[k], GatherProgram(w.p, c.g.nodes[k]), GatherAfter(c, w, k);
    var L := GatherRecord(c, w.p, n);
    GatherLayers(w.p, n);
    SameFeed(u, v.p, feed);
    NewVector(u, L, v.p.layoutEnd, feed);
    GatherValue(c, w, k, v.p, feed);
    TensorLength(c, k);
    CarriesWhole(c, v.p, feed, k + 1, L.outAddr, n.out);
  }

  lemma GatherMeans(c: Ctx, w: Walk, k: nat)
    requires Inv(c, w, k, k) && Shaped(c, k) && c.g.nodes[k].GatherNode? && Means(c, w, k)
    ensures Partial(GatherAfter(c, w, k).p) && Means(c, GatherAfter(c, w, k), k + 1)
  {
    hide Inv, Next, TableBytes, Means, G.IsPart, GatherProgram, Partial, Carries, OutputMeans, FeedOk, Spares,
         GatherRecord, G.NodeShaped;
    var n := c.g.nodes[k];
    TableShape(c, k);
    GatherAfterOk(c, w, k);
    Begin(c, w, k);
    NewName(w.p, n.name);
    GatherStart(c, w, k);
    var u, v, L := w.(p := GatherProgram(w.p, n)), GatherAfter(c, w, k), GatherRecord(c, w.p, n);
    PartialOf(c, v, k + 1, k + 1);
    PartialOf(c, u, k, k + 1);
    forall feed: Feed | FeedOk(v.p, feed)
      ensures Carries(c, v.p, feed, k + 1, v.produced[n.out].0, n.out)
    {
      GatherCarries(c, w, k, feed);
    }
    OutputStays(c, u, v, k, k + 1, L, v.p.layoutEnd);
    GatherSpares(c, w, k);
    MeansLayer(c, u, v, k, k + 1, L, v.p.layoutEnd, n.out, u.live);
  }

  lemma GatherSpares(c: Ctx, w: Walk, k: nat)
    requires Inv(c, w, k, k) && Shaped(c, k) && c.g.nodes[k].GatherNode?
             && Inv(c, w.(p := GatherProgram(w.p, c.g.nodes[k])), k, k + 1)
    ensures var L := GatherRecord(c, w.p, c.g.nodes[k]);
            L.Gather? && Spares(c, w.(p := GatherProgram(w.p, c.g.nodes[k])), k, w.live, L.outAddr)
              && (G.IsPart(c.g, c.g.nodes[k].out) ==> L.outAddr == Pin(c, c.g.nodes[k].out))
  {
    hide Inv, Next, TableBytes, G.IsPart, GatherProgram, Spares;
    var n := c.g.nodes[k];
    var u := w.(p := GatherProgram(w.p, n));
    InvCtx(c, w, k, k);
    GatherPinned(c, k);
    GatherLayers(w.p, n);
    if n.out in c.pins {
      GatherUnclaimed(c, w, k);
      PinnedSpares(c, u, k, k + 1, n.out);
    } else {
      FreshSpares(c, u, k, k + 1, GatherRecord(c, w.p, n).outAddr);
    }
  }

  // ----- concat -----

  lemma {:induction false} PartsMeans(c: Ctx, w: Walk, k: nat, i: nat)
    requires Inv(c, w, k, k) && IsConcat(c, k) && G.SafeAt(c.g, k) && i <= |c.g.nodes[k].ins| && Means(c, w, k)
    requires forall j :: 0 <= j < |c.g.nodes[k].ins| && c.g.nodes[k].ins[j] !in w.produced
               ==> c.g.nodes[k].ins[j] in c.g.inputs
    ensures var v := PartsAfter(c, w, c.g.nodes[k].ins[..i]).0; Inv(c, v, k, k + 1) && Partial(v.p) && Means(c, v, k)
  {
    hide Inv, InPlace, PartsAfter, Means, Partial;
    PartsAfterOk(c, w, k, i);
    PartialOf(c, PartsAfter(c, w, c.g.nodes[k].ins[..i]).0, k, k + 1);
    if i == 0 {
      PartsNone(c, w, c.g.nodes[k].ins);
    } else {
      PartsMeans(c, w, k, i - 1);
      PartsAfterOk(c, w, k, i - 1);
      PartMeans(c, w, k, i - 1);
    }
  }

  lemma PartMeans(c: Ctx, w: Walk, k: nat, i: nat)
    requires Inv(c, w, k, k) && IsConcat(c, k) && G.SafeAt(c.g, k) && i < |c.g.nodes[k].ins| && PartsReady(c, w, k, i)
             && Partial(PartsAfter(c, w, c.g.nodes[k].ins[..i + 1]).0.p)
    requires c.g.nodes[k].ins[i] !in w.produced ==> c.g.nodes[k].ins[i] in c.g.inputs
    requires var u := PartsAfter(c, w, c.g.nodes[k].ins[..i]).0; Partial(u.p) && k <= |c.g.nodes| && Means(c, u, k)
    ensures Means(c, PartsAfter(c, w, c.g.nodes[k].ins[..i + 1]).0, k)
  {
    hide Inv, InPlace, PartsAfter, Len, Pin, Means, Partial, G.IsPart;
    var ins := c.g.nodes[k].ins;
    var u, v, t := PartsAfter(c, w, ins[..i]).0, PartsAfter(c, w, ins[..i + 1]).0, ins[i];
    PartsNext(c, w, ins, i);
    if t !in w.produced {
      InvCtx(c, w, k, k);
      PartAt(c, k, i);
      DenseUnclaimed(c, w, k, i);
      NotYet(c, k, i);
      MeansInput(c, u, v, k, k + 1, DenseInput(t, Pin(c, t), Len(c, t)), u.p.layoutEnd);
    }
  }

  /** The part stands for tensor t's value. */
  ghost predicate PartValue(c: Ctx, k: nat, feed: Feed, vecs: map<nat, seq<byte>>, part: Part, t: string)
    requires k <= |c.g.nodes|
  {
    match part
    case LayerPart(a, _) => a in vecs && vecs[a] == Value(EnvAt(c.g, feed, k), feed, t)
    case InputPart(u, _, _) => u == t && t in feed && feed[t] == Value(EnvAt(c.g, feed, k), feed, t)
  }

  /** The parts' vectors, end to end, are the parts' values, end to end. */
  lemma {:induction false} PartsJoin(c: Ctx, w: Walk, k: nat, feed: Feed, q: Program, n: nat, parts: seq<Part>,
          base: nat, vecs: map<nat, seq<byte>>, i: nat)
    requires IsConcat(c, k) && i <= |c.g.nodes[k].ins| == |parts| && n <= |q.layers| && FeedOk(q, feed)
             && Typed(vecs, Shapes(q, n))
    requires Tiled(q, n, parts[..i], base)
    requires forall j :: 0 <= j < |parts| ==> PartValue(c, k, feed, vecs, parts[j], c.g.nodes[k].ins[j])
    ensures ConcatParts(q, n, parts[..i], base, vecs, feed) == Joined(EnvAt(c.g, feed, k), feed, c.g.nodes[k].ins[..i])
  {
    hide Shapes, EnvAt, Value, FeedOk, PartOk, Typed, Joined, ConcatParts;
    var ins := c.g.nodes[k].ins;
    PartsPrefix(q, n, feed, parts, base, vecs, i);
    JoinedPrefix(EnvAt(c.g, feed, k), feed, ins, i);
    if i > 0 {
      PartsJoin(c, w, k, feed, q, n, parts, base, vecs, i - 1);
      assert PartValue(c, k, feed, vecs, parts[i - 1], ins[i - 1]);
    }
  }

  lemma JoinedPrefix(env: Env, feed: Feed, ins: seq<string>, i: nat)
    requires i <= |ins|
    ensures Joined(env, feed, ins[..i]) == if i == 0 then [] else Joined(env, feed, ins[..i - 1]) + Value(env, feed,
            ins[i - 1])
  {
    hide Value;
    if i > 0 {
      assert ins[..i][..i - 1] == ins[..i - 1] && ins[..i][i - 1] == ins[i - 1];
    }
  }

  function PartBytes(part: Part, vecs: map<nat, seq<byte>>, feed: Feed): seq<byte> {
    if part.LayerPart? then (if part.addr in vecs then vecs[part.addr] else [])
    else if part.tensor in feed then feed[part.tensor]
    else []
  }

  lemma PartsPrefix(q: Program, n: nat, feed: Feed, parts: seq<Part>, base: nat, vecs: map<nat, seq<byte>>, i: nat)
    requires i <= |parts| && n <= |q.layers| && FeedOk(q, feed) && Typed(vecs, Shapes(q, n))
             && Tiled(q, n, parts[..i], base)
    ensures i > 0 ==> Tiled(q, n, parts[..i - 1], base)
    ensures ConcatParts(q, n, parts[..i], base, vecs, feed) ==
            if i == 0 then []
            else ConcatParts(q, n, parts[..i - 1], base, vecs, feed) + PartBytes(parts[i - 1], vecs, feed)
  {
    hide Shapes, FeedOk;
    if i > 0 {
      assert parts[..i][..i - 1] == parts[..i - 1] && parts[..i][i - 1] == parts[i - 1];
      PartThere(q, n, feed, parts[i - 1], vecs);
    }
  }

  lemma PartThere(q: Program, n: nat, feed: Feed, part: Part, vecs: map<nat, seq<byte>>)
    requires n <= |q.layers| && FeedOk(q, feed) && Typed(vecs, Shapes(q, n)) && PartOk(q, n, part)
    ensures part.LayerPart? ==> part.addr in vecs
    ensures part.InputPart? ==> part.tensor in feed
  {
    hide Shapes;
    if part.InputPart? {
      var j :| 0 <= j < |q.inputs| && q.inputs[j] == DenseInput(part.tensor, part.addr, part.len);
      assert InputFed(q.inputs[j], feed);
    }
  }

  /** Part j's vector or feed is its tensor's value. */
  lemma PartCarries(c: Ctx, w: Walk, v: Walk, k: nat, feed: Feed, part: Part, j: nat)
    requires Inv(c, v, k, k + 1) && v.produced == w.produced && IsConcat(c, k) && G.SafeAt(c.g, k)
             && j < |c.g.nodes[k].ins|
             && InPlace(c, w, v, k, part, j)
    requires Partial(v.p) && Means(c, v, k) && FeedOk(v.p, feed)
    requires c.g.nodes[k].ins[j] !in w.produced ==> c.g.nodes[k].ins[j] in c.g.inputs
    ensures PartValue(c, k, feed, Vecs(v.p, feed, |v.p.layers|), part, c.g.nodes[k].ins[j])
  {
    hide Inv, Partial, Vecs, EnvAt, Value, LiveMeans, OutputMeans, G.IsPart, Pin, Len;
    var t := c.g.nodes[k].ins[j];
    PartAt(c, k, j);
    PartGathered(c, v, k, k + 1, j);
    MeansAt(c, v, k, feed);
    if t in w.produced {
      assert Carries(c, v.p, feed, k, Pin(c, t), t);
      PartHolds(c, v, k, j);
      CarriesExact(c, v.p, feed, k, Pin(c, t), t);
    } else {
      assert InputFed(DenseInput(t, Pin(c, t), Len(c, t)), feed);
      InvCtx(c, v, k, k + 1);
      GraphOf(c);
      InputValue(c.g, feed, k, t);
    }
  }

  lemma PartHolds(c: Ctx, v: Walk, k: nat, j: nat)
    requires Inv(c, v, k, k + 1) && IsConcat(c, k) && G.SafeAt(c.g, k) && j < |c.g.nodes[k].ins|
             && c.g.nodes[k].ins[j] in v.produced
    ensures Holds(v.p, Pin(c, c.g.nodes[k].ins[j]), Len(c, c.g.nodes[k].ins[j]))
  {
    hide CtxOk, Partial, Aligned, Placed, DoneOk, ReadsOk, KeptOk, TailOk, Holds, G.IsPart, LiveTensor, Pin, Len;
    PartGathered(c, v, k, k + 1, j);
    assert WaitingPart(c, v, k, c.g.nodes[k].ins[j]);
    assert G.PartOf(c.g, c.g.nodes[k].ins[j], k);
  }

  lemma AllCarry(c: Ctx, w: Walk, k: nat, feed: Feed, vecs: map<nat, seq<byte>>)
    requires Inv(c, w, k, k) && IsConcat(c, k) && G.SafeAt(c.g, k)
    requires forall j :: 0 <= j < |c.g.nodes[k].ins| && c.g.nodes[k].ins[j] !in w.produced
               ==> c.g.nodes[k].ins[j] in c.g.inputs
    requires var u := PartsAfter(c, w, c.g.nodes[k].ins).0;
             && Inv(c, u, k, k + 1) && Partial(u.p) && Means(c, u, k)
             && FeedOk(u.p, feed)
    requires var u := PartsAfter(c, w, c.g.nodes[k].ins).0;
             forall a :: a in Vecs(u.p, feed, |u.p.layers|) ==> a in vecs && vecs[a] == Vecs(u.p, feed, |u.p.layers|)[a]
    ensures var r := PartsAfter(c, w, c.g.nodes[k].ins);
    forall j :: 0 <= j < |r.1| ==> PartValue(c, k, feed, vecs, r.1[j], c.g.nodes[k].ins[j])
  {
    hide Inv, Partial, FeedOk, PartsAfter, InPlace, Means, Value, EnvAt, Vecs, Pin, Len;
    var n := c.g.nodes[k];
    var r := PartsAfter(c, w, n.ins);
    assert n.ins[..|n.ins|] == n.ins;
    PartsAfterOk(c, w, k, |n.ins|);
    forall j | 0 <= j < |r.1|
      ensures PartValue(c, k, feed, vecs, r.1[j], n.ins[j])
    {
      PartCarries(c, w, r.0, k, feed, r.1[j], j);
    }
  }

  lemma GraphOf(c: Ctx)
    requires CtxOk(c)
    ensures G.GraphOk(c.g)
  {
    hide PinsOk, SlotsOk, G.GraphOk;
  }

  lemma ConcatCarries(c: Ctx, w: Walk, k: nat, feed: Feed)
    requires Inv(c, w, k, k) && IsConcat(c, k) && G.SafeAt(c.g, k)
    requires forall j :: 0 <= j < |c.g.nodes[k].ins| && c.g.nodes[k].ins[j] !in w.produced
               ==> c.g.nodes[k].ins[j] in c.g.inputs
    requires var u := PartsAfter(c, w, c.g.nodes[k].ins).0;
             && Inv(c, u, k, k + 1) && Partial(u.p) && Means(c, u, k)
             && FeedOk(u.p, feed)
    requires Partial(ConcatAfter(c, w, k).p)
    ensures FeedOk(ConcatAfter(c, w, k).p, feed)
    ensures var v := ConcatAfter(c, w, k); var t := c.g.nodes[k].out;
    t in v.produced && Carries(c, v.p, feed, k + 1, v.produced[t].0, t)
  {
    hide Inv, Partial, FeedOk, PartsAfter, Means, Value, EnvAt, Shapes, Pin, Len, PartsLen, PartValue;
    var n, L := c.g.nodes[k], ConcatRecord(c, w, k);
    var r, v := PartsAfter(c, w, n.ins), ConcatAfter(c, w, k);
    assert n.ins[..|n.ins|] == n.ins && r.1[..|n.ins|] == r.1;
    NewVector(r.0.p, L, r.0.p.layoutEnd, feed);
    AllCarry(c, w, k, feed, Vecs(v.p, feed, |r.0.p.layers|));
    PartsJoin(c, w, k, feed, v.p, |r.0.p.layers|, r.1, L.outAddr, Vecs(v.p, feed, |r.0.p.layers|), |n.ins|);
    JoinedValue(c, feed, k);
    RecordLength(c, w, k);
    CarriesWhole(c, v.p, feed, k + 1, L.outAddr, n.out);
  }

  lemma RecordLength(c: Ctx, w: Walk, k: nat)
    requires Inv(c, w, k, k) && IsConcat(c, k) && G.SafeAt(c.g, k)
    requires forall j :: 0 <= j < |c.g.nodes[k].ins| && c.g.nodes[k].ins[j] !in w.produced
               ==> c.g.nodes[k].ins[j] in c.g.inputs
    ensures ConcatRecord(c, w, k).len == Len(c, c.g.nodes[k].out)
  {
    hide Inv, PartsAfter, Pin, Len, PartOk, LayerOk, PartsLen, InPlace, Unplaced;
    var n := c.g.nodes[k];
    var r := PartsAfter(c, w, n.ins);
    assert n.ins[..|n.ins|] == n.ins;
    PartsAfterOk(c, w, k, |n.ins|);
    InvCtx(c, w, k, k);
    Begin(c, w, k);
    NewName(w.p, n.name);
    PartsUnplaced(c, w, n.ins, n.name);
    ConcatRecordOk(c, w, k);
  }

  lemma {:induction false} PartsUnplaced(c: Ctx, w: Walk, ins: seq<string>, name: string)
    requires Unplaced(w.p, name)
    ensures Unplaced(PartsAfter(c, w, ins).0.p, name)
  {
    if ins != [] {
      PartsUnplaced(c, w, ins[..|ins| - 1], name);
    }
  }

  lemma JoinedValue(c: Ctx, feed: Feed, k: nat)
    requires IsConcat(c, k)
    ensures Value(EnvAt(c.g, feed, k + 1), feed, c.g.nodes[k].out) == Joined(EnvAt(c.g, feed, k), feed,
            c.g.nodes[k].ins)
  {
    hide Joined;
  }

  /** What ConcatAfter changes. */
  lemma ConcatShape(c: Ctx, w: Walk, k: nat)
    requires IsConcat(c, k)
    ensures var n, u, v, L := c.g.nodes[k], PartsAfter(c, w, c.g.nodes[k].ins).0, ConcatAfter(c, w, k),
            ConcatRecord(c, w, k);
            && L.Concat? && L.outAddr == Pin(c, n.out) && v.p == WithLayer(u.p, L, u.p.layoutEnd)
            && u.produced == w.produced && n.out in v.produced && v.produced == u.produced[n.out := v.produced[n.out]]
            && v.produced[n.out].0 == Pin(c, n.out) && v.lastFc == u.lastFc && v.lastMat == u.lastMat
            && v.live == u.live + {n.out}
  {
    hide PartsAfter, PartsLen;
  }

  /** What lies at the start of the buffer begins with the first part's value, as the whole vector does. */
  lemma BufferCarries(c: Ctx, w: Walk, k: nat, feed: Feed, x: string)
    requires Inv(c, w, k, k) && IsConcat(c, k) && G.SafeAt(c.g, k)
    requires forall j :: 0 <= j < |c.g.nodes[k].ins| && c.g.nodes[k].ins[j] !in w.produced
               ==> c.g.nodes[k].ins[j] in c.g.inputs
    requires var u := PartsAfter(c, w, c.g.nodes[k].ins).0; Inv(c, u, k, k + 1) && Partial(u.p) && Means(c, u, k)
    requires Partial(ConcatAfter(c, w, k).p) && FeedOk(ConcatAfter(c, w, k).p, feed)
    requires var u, v := PartsAfter(c, w, c.g.nodes[k].ins).0, ConcatAfter(c, w, k);
             x in v.live && x in v.produced && (x == c.g.nodes[k].out || x !in Elsewhere(c, u, k))
    ensures var v := ConcatAfter(c, w, k); Carries(c, v.p, feed, k + 1, v.produced[x].0, x)
  {
    hide G.SafeAt, Inv, Means, G.IsPart, Partial, Carries, OutputMeans, FeedOk, PartsAfter, PartsLen, Pin, ConcatAfter,
         ConcatRecord;
    var u, v := PartsAfter(c, w, c.g.nodes[k].ins).0, ConcatAfter(c, w, k);
    ConcatShape(c, w, k);
    SameFeed(u.p, v.p, feed);
    ConcatCarries(c, w, k, feed);
    if x != c.g.nodes[k].out {
      HeadCarries(c, u, v, k, feed, x);
    }
  }

  lemma ConcatMeans(c: Ctx, w: Walk, k: nat)
    requires Inv(c, w, k, k) && IsConcat(c, k) && G.SafeAt(c.g, k) && Means(c, w, k)
    requires forall j :: 0 <= j < |c.g.nodes[k].ins| && c.g.nodes[k].ins[j] !in w.produced
               ==> c.g.nodes[k].ins[j] in c.g.inputs
    ensures Partial(ConcatAfter(c, w, k).p) && Means(c, ConcatAfter(c, w, k), k + 1)
  {
    hide G.SafeAt, Inv, Means, G.IsPart, Partial, Carries, OutputMeans, FeedOk, Spares, PartsAfter, PartsLen, Pin,
         ConcatAfter, ConcatRecord, Elsewhere;
    var n := c.g.nodes[k];
    var u, v, L := PartsAfter(c, w, n.ins).0, ConcatAfter(c, w, k), ConcatRecord(c, w, k);
    ConcatAfterOk(c, w, k);
    PartialOf(c, v, k + 1, k + 1);
    ConcatShape(c, w, k);
    assert n.ins[..|n.ins|] == n.ins;
    PartsMeans(c, w, k, |n.ins|);
    InvCtx(c, w, k, k);
    NotPart(c, k);
    forall feed: Feed, x | FeedOk(v.p, feed) && x in v.live && x in v.produced
      && (x == n.out || x !in Elsewhere(c, u, k))
      ensures Carries(c, v.p, feed, k + 1, v.produced[x].0, x)
    {
      BufferCarries(c, w, k, feed, x);
    }
    OutputStays(c, u, v, k, k + 1, L, u.p.layoutEnd);
    ConcatSpares(c, u, k);
    MeansLayer(c, u, v, k, k + 1, L, u.p.layoutEnd, n.out, Elsewhere(c, u, k));
  }

  lemma HeadCarries(c: Ctx, u: Walk, v: Walk, k: nat, feed: Feed, x: string)
    requires Inv(c, u, k, k + 1) && IsConcat(c, k) && G.SafeAt(c.g, k) && x in u.live && x in u.produced
             && u.produced[x].0 == Pin(c, c.g.nodes[k].out) && x != c.g.nodes[k].out
    requires forall j :: 0 <= j < |c.g.nodes[k].ins| && c.g.nodes[k].ins[j] !in u.produced
               ==> c.g.nodes[k].ins[j] in c.g.inputs
    requires Partial(u.p) && Means(c, u, k) && FeedOk(u.p, feed) && Partial(v.p) && FeedOk(v.p, feed)
    requires Carries(c, v.p, feed, k + 1, Pin(c, c.g.nodes[k].out), c.g.nodes[k].out)
    ensures Carries(c, v.p, feed, k + 1, Pin(c, c.g.nodes[k].out), x)
  {
    hide Inv, Partial, Means, FeedOk, Vecs, EnvAt, Value, Joined, G.IsPart, Pin, Len, OutputMeans, LiveTensor, Carries;
    var n := c.g.nodes[k];
    MeansAt(c, u, k, feed);
    AllLive(c, u, k, k + 1);
    InvCtx(c, u, k, k + 1);
    AtStart(c, u, k, x);
    PartAt(c, k, 0);
    assert Gathered(c, u.produced, n.ins[0]);
    assert Carries(c, u.p, feed, k, Pin(c, n.ins[0]), n.ins[0]);
    assert Carries(c, u.p, feed, k, u.produced[x].0, x);
    PartHolds(c, u, k, 0);
    CarriesExact(c, u.p, feed, k, Pin(c, n.ins[0]), n.ins[0]);
    JoinedValue(c, feed, k);
    JoinedFirst(EnvAt(c.g, feed, k), feed, n.ins);
    OthersKept(c, k);
    assert ValueKept(c, feed, k, x);
    PrefixCarries(c, u.p, v.p, feed, k, Pin(c, n.out), n.ins[0], n.out, x);
  }

  /** t's vector begins o's value, so what begins t's vector begins o's too. */
  lemma PrefixCarries(c: Ctx, p: Program, q: Program, feed: Feed, k: nat, a: nat, t: string, o: string, x: string)
    requires Partial(p) && FeedOk(p, feed) && Partial(q) && FeedOk(q, feed) && k < |c.g.nodes|
    requires Carries(c, p, feed, k, a, x) && ValueKept(c, feed, k, x) && Carries(c, q, feed, k + 1, a, o)
    requires Vecs(p, feed, |p.layers|)[a] == Value(EnvAt(c.g, feed, k), feed, t)
    requires Value(EnvAt(c.g, feed, k), feed, t) <= Value(EnvAt(c.g, feed, k + 1), feed, o)
    ensures Carries(c, q, feed, k + 1, a, x)
  {
    hide Partial, FeedOk, Vecs, EnvAt, Value, Len;
    var u, v := Vecs(p, feed, |p.layers|)[a], Vecs(q, feed, |q.layers|)[a];
    assert u <= v[..Len(c, o)];
    assert v[..Len(c, x)] == u[..Len(c, x)];
  }

  lemma AtStart(c: Ctx, u: Walk, k: nat, x: string)
    requires CtxOk(c) && IsConcat(c, k) && LiveTensor(c, u, k, x) && u.produced[x].0 == Pin(c, c.g.nodes[k].out)
    ensures var n := c.g.nodes[k]; |n.ins| > 0 && n.ins[0] !in c.g.inputs && Pin(c, n.ins[0]) == Pin(c, n.out)
  {
    hide CtxOk, Holds, G.IsPart, G.Aliases, Pad16;
    assert Heads(c, k, k, x);
    ConcatPlaces(c, k);
    assert c.g.nodes[k].ins[..0] == [];
  }

  lemma {:induction false} JoinedFirst(env: Env, feed: Feed, ins: seq<string>)
    requires |ins| > 0
    ensures Value(env, feed, ins[0]) <= Joined(env, feed, ins)
    decreases |ins|
  {
    hide Value;
    if |ins| > 1 {
      JoinedFirst(env, feed, ins[..|ins| - 1]);
    } else {
      assert ins[..0] == [] && Joined(env, feed, []) == [];
    }
  }

  // ----- matmul -----

  /** A new dense input's vector is the feed. */
  lemma {:induction false} DenseVector(c: Ctx, w: Walk, k: nat, b: nat, i: InputSpec, end: nat, feed: Feed, n: nat)
    requires Inv(c, w, k, b) && i.DenseInput? && i.addr == w.p.layoutEnd && n <= |w.p.layers|
             && Partial(WithInput(w.p, i, end))
    requires FeedOk(WithInput(w.p, i, end), feed)
    ensures var v := Vecs(WithInput(w.p, i, end), feed, n); i.name in feed && i.addr in v && v[i.addr] == feed[i.name]
  {
    hide Inv, Partial, DenseVecs, RefStep, Shapes, LayerOk, FeedOk;
    var q := WithInput(w.p, i, end);
    LastFed(w.p.inputs, i, q, feed);
    if n > 0 {
      DenseVector(c, w, k, b, i, end, feed, n - 1);
      VecBelow(c, w, k, b, n - 1);
      StepFrame(q, feed, n - 1, i.addr);
    }
  }

  lemma LastFed(ins: seq<InputSpec>, i: InputSpec, q: Program, feed: Feed)
    requires i.DenseInput? && q.inputs == ins + [i] && FeedOk(q, feed)
    ensures i.name in feed && i.addr in DenseVecs(q.inputs, feed) && DenseVecs(q.inputs, feed)[i.addr] == feed[i.name]
  {
    assert InputFed(q.inputs[|ins|], feed);
  }

  lemma LastSize(ins: seq<InputSpec>, i: InputSpec, q: Program, feed: Feed)
    requires q.inputs == ins + [i] && FeedOk(q, feed)
    ensures i.name in feed && |feed[i.name]| == i.Size()
  {
    assert InputFed(q.inputs[|ins|], feed);
  }

  lemma DenseMeans(c: Ctx, w: Walk, k: nat, x: string)
    requires Inv(c, w, k, k + 1) && Shaped(c, k) && c.g.nodes[k].MatMulNode? && x == c.g.nodes[k].x && Means(c, w, k)
             && (x in w.produced || x in c.g.inputs)
    ensures var v := DenseAfter(w, x, c.g.nodes[k].K); Inv(c, v, k, k + 1) && Partial(v.p) && Means(c, v, k)
  {
    hide Inv, Partial, Means, Next, G.NodeShaped, Pad16, DenseWalk;
    DenseAfterOk(c, w, k, k + 1);
    PartialOf(c, DenseAfter(w, x, c.g.nodes[k].K), k, k + 1);
    if x !in w.produced {
      TensorLength(c, k);
      NewDense(c, w, k, x, c.g.nodes[k].K, Next(w.p.layoutEnd, Pad16(c.g.nodes[k].K)));
    }
  }

  lemma NewDense(c: Ctx, w: Walk, k: nat, x: string, K: nat, end: nat)
    requires Inv(c, w, k, k + 1) && k < |c.g.nodes| && c.g.nodes[k].MatMulNode? && x == c.g.nodes[k].x && Means(c, w, k)
             && x !in w.produced && x in c.g.inputs && K == Len(c, x)
    requires Partial(DenseWalk(w, x, K, end).p)
    ensures Means(c, DenseWalk(w, x, K, end), k)
  {
    hide Inv, Partial, Means, G.IsPart;
    var i := DenseInput(x, w.p.layoutEnd, K);
    var u := w.(p := WithInput(w.p, i, end));
    MeansInput(c, w, u, k, k + 1, i, end);
    InvCtx(c, w, k, k + 1);
    GraphOf(c);
    DenseMore(c, w, u, DenseWalk(w, x, K, end), k, i, end);
  }

  lemma DenseMore(c: Ctx, w: Walk, u: Walk, v: Walk, k: nat, i: InputSpec, end: nat)
    requires Inv(c, w, k, k + 1) && G.GraphOk(c.g) && i.DenseInput? && i.addr == w.p.layoutEnd && i.name in c.g.inputs
             && i.name !in w.produced && i.count == Len(c, i.name)
    requires u == w.(p := WithInput(w.p, i, end)) && v.p == u.p && v.produced == w.produced[i.name := (i.addr, i.count)]
             && v.live == w.live + {i.name}
    requires v.lastFc == u.lastFc && v.lastMat == u.lastMat && Partial(u.p) && k <= |c.g.nodes| && Means(c, u, k)
    ensures Means(c, v, k)
  {
    hide Inv, Partial, FeedOk, Vecs, EnvAt, Value, G.GraphOk, G.PartOf, G.IsPart, Outputs, SumsAt, Pin;
    LiveProduced(c, w, k, k + 1);
    forall feed: Feed | FeedOk(v.p, feed)
      ensures LiveMeans(c, v, k, feed) && PartsMean(c, v, k, feed) && OutputMeans(c, v, feed)
    {
      MeansAt(c, u, k, feed);
      DenseVector(c, w, k, k + 1, i, end, feed, |w.p.layers|);
      InputValue(c.g, feed, k, i.name);
      LastSize(w.p.inputs, i, v.p, feed);
      CarriesWhole(c, v.p, feed, k, i.addr, i.name);
      forall t, q: nat | Gathered(c, v.produced, t) && k <= q && G.PartOf(c.g, t, q)
        ensures Carries(c, v.p, feed, k, Pin(c, t), t)
      {
        assert Gathered(c, u.produced, t);
      }
    }
  }

  /** Both constants in place, nothing else changed. */
  lemma ConstsMean(c: Ctx, w: Walk, k: nat, f: nat)
    requires Inv(c, w, k, k + 1) && Shaped(c, k) && c.g.nodes[k].MatMulNode? && c.g.nodes[k].x in w.produced
             && Unplaced(w.p, c.g.nodes[k].name) && Means(c, w, k)
    requires forall n :: 0 <= n < |w.p.layers| ==> w.p.layers[n].name != c.g.nodes[k].name
    ensures var u := w.(p := FcProgram(c, w, k, f)); Inv(c, u, k, k + 1) && Partial(u.p) && Means(c, u, k)
  {
    hide Inv, Partial, Means, Next, Stored, WeightBytes, FcRecord, G.BiasBytes, Biases, AfterWeights, AfterConsts,
         Unplaced, WithSegment;
    var L, n := FcRecord(c, w, k, f), c.g.nodes[k];
    BiasAddress(c, w, k, f);
    WeightsReady(c, w, k, f);
    BiasesReady(c, w, k, f);
    WeightsPlaced(c, w, k, f);
    var u := w.(p := WeightsProgram(c, w, k, f));
    MeansSegment(c, w, k, k + 1, WeightSegment(w.p, L), Stored(w.p.image, WeightBytes(n)), AfterWeights(c, w, k));
    var d := Stored(u.p.image, G.BiasBytes(Biases(c.g, k), Pad16(n.N)));
    var b := Segment(L.bAddr, |u.p.image|, 4 * Pad16(n.N), n.name, BiasSeg);
    assert FcProgram(c, w, k, f) == WithSegment(u.p, b, d, AfterConsts(c, w, k));
    assert u.(p := FcProgram(c, w, k, f)) == w.(p := FcProgram(c, w, k, f));
    MeansSegment(c, u, k, k + 1, b, d, AfterConsts(c, w, k));
    PartialOf(c, w.(p := FcProgram(c, w, k, f)), k, k + 1);
  }

  /** The vector the layer reads is the value of the MatMul's input. */
  lemma FcReadsValue(c: Ctx, u: Walk, k: nat, feed: Feed)
    requires Inv(c, u, k, k + 1) && k < |c.g.nodes| && c.g.nodes[k].MatMulNode?
             && c.g.nodes[k].x in u.produced
    requires Partial(u.p) && Means(c, u, k) && FeedOk(u.p, feed) && Len(c, c.g.nodes[k].x) == c.g.nodes[k].K
    ensures var a, K := u.produced[c.g.nodes[k].x].0, c.g.nodes[k].K;
            a in Vecs(u.p, feed, |u.p.layers|) && K <= |Vecs(u.p, feed, |u.p.layers|)[a]|
            && Vecs(u.p, feed, |u.p.layers|)[a][..K] == Value(EnvAt(c.g, feed, k), feed, c.g.nodes[k].x)
  {
    hide Inv, Partial, FeedOk, Vecs, EnvAt, Value, LiveTensor, PartsMean, OutputMeans;
    ReadableInput(c, u, k, k + 1);
    MeansAt(c, u, k, feed);
  }

  /** The new layer reads the MatMul's input. */
  lemma FcOperand(c: Ctx, w: Walk, k: nat, f: nat, feed: Feed)
    requires Shaped(c, k) && c.g.nodes[k].MatMulNode? && c.g.nodes[k].x in w.produced
    requires var u := w.(p := FcProgram(c, w, k, f)); Inv(c, u, k, k + 1) && Partial(u.p) && Means(c, u, k)
    requires Partial(FcAfter(c, w, k, f).p) && FeedOk(FcAfter(c, w, k, f).p, feed)
    ensures var v, n, L := FcAfter(c, w, k, f), |w.p.layers|, FcRecord(c, w, k, f);
            && v.p == WithLayer(FcProgram(c, w, k, f), L, v.p.layoutEnd) && |v.p.layers| == n + 1 && v.p.layers[n] == L
            && LayerOk(v.p, n) && L.K == c.g.nodes[k].K && L.inAddr in Vecs(v.p, feed, n)
            && L.K <= |Vecs(v.p, feed, n)[L.inAddr]|
            && Vecs(v.p, feed, n)[L.inAddr][..L.K] == Value(EnvAt(c.g, feed, k), feed, c.g.nodes[k].x)
            && Vecs(v.p, feed, n + 1) == RefStep(v.p, feed, n, Vecs(v.p, feed, n))
  {
    hide Inv, Partial, FeedOk, Means, FcProgram, FcRecord, LayerOk, G.NodeShaped, Value, Vecs, Shapes, RefStep,
         AfterLayer, AfterConsts, G.ChainOut, G.IsFinal, EnvAt, Len;
    var L, u, v := FcRecord(c, w, k, f), w.(p := FcProgram(c, w, k, f)), FcAfter(c, w, k, f);
    SameFeed(u.p, v.p, feed);
    FcProgramEnds(c, w, k, f);
    RecordFields(c, w, k, f);
    NewVector(u.p, L, v.p.layoutEnd, feed);
    TensorLength(c, k);
    FcReadsValue(c, u, k, feed);
  }

  /** A hidden layer yields the chain's tensor. */
  lemma HiddenCarries(c: Ctx, w: Walk, k: nat, f: nat, feed: Feed)
    requires Shaped(c, k) && c.g.nodes[k].MatMulNode? && c.g.nodes[k].x in w.produced
             && Unplaced(w.p, c.g.nodes[k].name) && CtxOk(c) && !G.IsFinal(c.g, k)
    requires var u := w.(p := FcProgram(c, w, k, f)); Inv(c, u, k, k + 1) && Partial(u.p) && Means(c, u, k)
    requires Partial(FcAfter(c, w, k, f).p) && FeedOk(FcAfter(c, w, k, f).p, feed)
    ensures var v := FcAfter(c, w, k, f); var t := G.ChainOut(c.g, k);
            t in v.produced && Carries(c, v.p, feed, k + 1, v.produced[t].0, t)
  {
    hide Inv, Partial, FeedOk, Means, FcProgram, FcRecord, LayerOk, Unplaced, G.NodeShaped, Value, Vecs, Shapes, FcVec,
         Hidden, AfterLayer, AfterConsts, G.ChainOut, G.IsFinal, EnvAt, Len, FcAfter, CtxOk;
    var n, L, v, t := |w.p.layers|, FcRecord(c, w, k, f), FcAfter(c, w, k, f), G.ChainOut(c.g, k);
    RecordFields(c, w, k, f);
    FcShape(c, w, k, f);
    FcOperand(c, w, k, f, feed);
    var x := Vecs(v.p, feed, n)[L.inAddr][..L.K];
    HiddenIs(c, w, k, f, v.p, x);
    ChainValue(c, feed, k);
    MatMulFacts(c, k);
    CarriesWhole(c, v.p, feed, k + 1, L.outAddr, t);
  }

  /** The final layer yields the graph's output. */
  lemma FinalMeans(c: Ctx, w: Walk, k: nat, f: nat, feed: Feed)
    requires Shaped(c, k) && c.g.nodes[k].MatMulNode? && c.g.nodes[k].x in w.produced
             && Unplaced(w.p, c.g.nodes[k].name)
    requires var u := w.(p := FcProgram(c, w, k, f)); Inv(c, u, k, k + 1) && Partial(u.p) && Means(c, u, k)
    requires Partial(FcAfter(c, w, k, f).p) && FeedOk(FcAfter(c, w, k, f).p, feed)
    ensures OutputMeans(c, FcAfter(c, w, k, f), feed)
  {
    hide Inv, Partial, FeedOk, Means, FcProgram, FcRecord, LayerOk, Unplaced, G.NodeShaped, Value, Vecs, Shapes,
         Outputs, ChainSums, AfterLayer, AfterConsts, G.ChainOut, G.IsFinal, EnvAt, RefStep;
    var n, L, v := |w.p.layers|, FcRecord(c, w, k, f), FcAfter(c, w, k, f);
    FcProgramEnds(c, w, k, f);
    RecordFields(c, w, k, f);
    FcOperand(c, w, k, f, feed);
    FinalIs(c, w, k, f, v.p, Vecs(v.p, feed, n)[L.inAddr][..L.K], feed);
  }

  lemma RecordFields(c: Ctx, w: Walk, k: nat, f: nat)
    requires Shaped(c, k) && c.g.nodes[k].MatMulNode? && c.g.nodes[k].x in w.produced
    ensures var L, n := FcRecord(c, w, k, f), c.g.nodes[k];
            && L.inAddr == w.produced[n.x].0 && L.final == G.IsFinal(c.g, k) && L.K == n.K && L.N == n.N
            && L.N <= L.Mpad
            && L.relu == (G.FusedRelu(c.g, k) >= 0) && (!L.final ==> (L.mult, L.shift) == Requant.Params(n.ratio))
  {
    hide Next, WeightBytes, SlotOf, G.IsFinal, G.FusedRelu, Requant.Params, AfterConsts, AfterWeights;
    PadAbove(c.g.nodes[k].N);
  }

  lemma InputLength(p: Program, n: nat, feed: Feed)
    requires Partial(p) && FeedOk(p, feed) && n < |p.layers| && p.layers[n].Fc?
    ensures LayerOk(p, n) && p.layers[n].inAddr in Vecs(p, feed, n)
            && p.layers[n].K <= |Vecs(p, feed, n)[p.layers[n].inAddr]|
  {
    hide SegmentsOk, InputsOk, WritesOk, FeedOk, Vecs, Shapes, SegIs, RowPadded, Clear;
    assert LayerOk(p, n);
  }

  /** The requantised outputs are the chain's. */
  lemma HiddenIs(c: Ctx, w: Walk, k: nat, f: nat, q: Program, x: seq<byte>)
    requires Shaped(c, k) && c.g.nodes[k].MatMulNode? && c.g.nodes[k].x in w.produced
             && Unplaced(w.p, c.g.nodes[k].name)
    requires q.segments == FcProgram(c, w, k, f).segments && q.image == FcProgram(c, w, k, f).image
    requires |w.p.layers| < |q.layers| && q.layers[|w.p.layers|] == FcRecord(c, w, k, f) && LayerOk(q, |w.p.layers|)
    requires |x| == c.g.nodes[k].K && !FcRecord(c, w, k, f).final
    ensures |x| == FcRecord(c, w, k, f).K && FcVec(q, |w.p.layers|, x) == Hidden(c.g, k, x)
  {
    hide FcProgram, FcRecord, LayerOk, Unplaced, G.NodeShaped, AccOf, BiasOf, Acc, Bias, Epi, Requant.Params,
         G.FusedRelu;
    RecordFields(c, w, k, f);
    var n, m0 := c.g.nodes[k], |w.p.layers|;
    forall m | 0 <= m < n.N
      ensures FcVec(q, m0, x)[m] == Hidden(c.g, k, x)[m]
    {
      FcValues(c, w, k, f, q, x, m);
    }
  }

  lemma FinalIs(c: Ctx, w: Walk, k: nat, f: nat, q: Program, x: seq<byte>, feed: Feed)
    requires Shaped(c, k) && c.g.nodes[k].MatMulNode? && c.g.nodes[k].x in w.produced
             && Unplaced(w.p, c.g.nodes[k].name)
    requires q.segments == FcProgram(c, w, k, f).segments && q.image == FcProgram(c, w, k, f).image
    requires |w.p.layers| < |q.layers| && q.layers[|w.p.layers|] == FcRecord(c, w, k, f) && Partial(q)
             && FeedOk(q, feed)
    requires var L := FcRecord(c, w, k, f);
             && L.inAddr in Vecs(q, feed, |w.p.layers|) && L.K <= |Vecs(q, feed, |w.p.layers|)[L.inAddr]|
             && x == Vecs(q, feed, |w.p.layers|)[L.inAddr][..L.K]
    ensures Outputs(q, feed, |w.p.layers|) == ChainSums(c.g, k, x)
  {
    hide FcProgram, FcRecord, LayerOk, Unplaced, G.NodeShaped, AccOf, BiasOf, Acc, Bias, Vecs, SegmentsOk, InputsOk,
         WritesOk, FeedOk, Wrap32, Shapes;
    RecordFields(c, w, k, f);
    var n, m0 := c.g.nodes[k], |w.p.layers|;
    assert LayerOk(q, m0);
    PadCovers(q, m0);
    forall m | 0 <= m < n.N
      ensures Outputs(q, feed, m0)[m] == ChainSums(c.g, k, x)[m]
    {
      FcValues(c, w, k, f, q, x, m);
    }
  }

  lemma ChainValue(c: Ctx, feed: Feed, k: nat)
    requires k < |c.g.nodes| && c.g.nodes[k].MatMulNode? && !G.IsFinal(c.g, k)
    ensures Value(EnvAt(c.g, feed, k + 1), feed, G.ChainOut(c.g, k)) == Hidden(c.g, k,
            Value(EnvAt(c.g, feed, k), feed, c.g.nodes[k].x))
  {
    hide G.IsFinal, G.ChainOut, Hidden;
  }

  /** For every feed. */
  lemma FcCarriesAll(c: Ctx, w: Walk, k: nat, f: nat)
    requires Shaped(c, k) && c.g.nodes[k].MatMulNode? && c.g.nodes[k].x in w.produced
             && Unplaced(w.p, c.g.nodes[k].name)
    requires var u := w.(p := FcProgram(c, w, k, f)); Inv(c, u, k, k + 1) && Partial(u.p) && Means(c, u, k)
    requires Partial(FcAfter(c, w, k, f).p)
    ensures var v := FcAfter(c, w, k, f); var t := G.ChainOut(c.g, k);
            t in v.produced && forall feed: Feed | FeedOk(v.p, feed) ::
              OutputMeans(c, v, feed)
              && (!G.IsFinal(c.g, k) ==> Carries(c, v.p, feed, k + 1, v.produced[t].0, t))
  {
    hide G.SafeAt, Inv, Partial, Means, FeedOk, FcProgram, FcRecord, FcAfter, Unplaced, G.NodeShaped, Carries,
         OutputMeans, G.ChainOut, G.IsFinal;
    var v, t := FcAfter(c, w, k, f), G.ChainOut(c.g, k);
    FcShape(c, w, k, f);
    forall feed: Feed | FeedOk(v.p, feed)
      ensures OutputMeans(c, v, feed) && (!G.IsFinal(c.g, k) ==> Carries(c, v.p, feed, k + 1, v.produced[t].0, t))
    {
      FinalMeans(c, w, k, f, feed);
      if !G.IsFinal(c.g, k) {
        InvCtx(c, w.(p := FcProgram(c, w, k, f)), k, k + 1);
        HiddenCarries(c, w, k, f, feed);
      }
    }
  }

  lemma FcMeans(c: Ctx, w: Walk, k: nat, f: nat)
    requires Inv(c, w, k, k + 1) && Shaped(c, k) && c.g.nodes[k].MatMulNode?
             && c.g.nodes[k].x in w.produced && Unplaced(w.p, c.g.nodes[k].name) && Means(c, w, k)
    requires forall n :: 0 <= n < |w.p.layers| ==> w.p.layers[n].name != c.g.nodes[k].name
    ensures Partial(FcAfter(c, w, k, f).p) && Means(c, FcAfter(c, w, k, f), k + 1)
  {
    hide G.SafeAt, Inv, Partial, Means, FeedOk, FcProgram, FcRecord, FcAfter, Unplaced, G.NodeShaped, Carries,
         OutputMeans, Spares, AfterLayer, AfterConsts, G.ChainOut, G.IsFinal, G.IsPart, CtxOk;
    var L, u, v, t := FcRecord(c, w, k, f), w.(p := FcProgram(c, w, k, f)), FcAfter(c, w, k, f), G.ChainOut(c.g, k);
    FcAfterOk(c, w, k, f);
    PartialOf(c, v, k + 1, k + 1);
    ConstsMean(c, w, k, f);
    FcShape(c, w, k, f);
    FcCarriesAll(c, w, k, f);
    InvCtx(c, w, k, k + 1);
    ChainNotPart(c, k);
    if !L.final {
      OutAbove(c, w, k, f);
      FreshSpares(c, u, k, k + 1, L.outAddr);
    }
    MeansLayer(c, u, v, k, k + 1, L, v.p.layoutEnd, t, u.live);
  }

  /** What FcAfter changes. */
  lemma FcShape(c: Ctx, w: Walk, k: nat, f: nat)
    requires Shaped(c, k) && c.g.nodes[k].MatMulNode? && c.g.nodes[k].x in w.produced
    ensures var L, u, v, t := FcRecord(c, w, k, f), w.(p := FcProgram(c, w, k, f)), FcAfter(c, w, k, f),
            G.ChainOut(c.g, k);
            && L.final == G.IsFinal(c.g, k) && u.p.layoutEnd == AfterConsts(c, w, k)
            && v.p == WithLayer(u.p, L, v.p.layoutEnd)
            && v.produced == u.produced[t := (L.outAddr, L.N)]
            && v.live == (if L.final then u.live - {t} else u.live + {t})
  {
    hide FcProgram, FcRecord, G.NodeShaped, AfterLayer, AfterConsts, G.ChainOut, G.IsFinal;
    FcProgramEnds(c, w, k, f);
    RecordFields(c, w, k, f);
  }

  lemma OutAbove(c: Ctx, w: Walk, k: nat, f: nat)
    requires Shaped(c, k) && c.g.nodes[k].MatMulNode? && c.g.nodes[k].x in w.produced
    ensures FcRecord(c, w, k, f).outAddr >= AfterConsts(c, w, k)
  {
    hide WeightBytes, SlotOf, G.IsFinal, G.FusedRelu, Requant.Params, AfterConsts, AfterWeights, Pad16;
  }

  lemma MatMulMeans(c: Ctx, w: Walk, k: nat, f: nat)
    requires Inv(c, w, k, k) && Shaped(c, k) && c.g.nodes[k].MatMulNode?
             && (c.g.nodes[k].x in w.produced || c.g.nodes[k].x in c.g.inputs) && Means(c, w, k)
    ensures Partial(MatMulAfter(c, w, k, f).p) && Means(c, MatMulAfter(c, w, k, f), k + 1)
  {
    hide Inv, Partial, Means, FcAfter, DenseAfter, Unplaced, G.NodeShaped;
    var n := c.g.nodes[k];
    Begin(c, w, k);
    PartialOf(c, w, k, k);
    DenseMeans(c, w, k, n.x);
    DenseKeeps(w, n.x, n.K);
    NewName(w.p, n.name);
    UnplacedSame(w.p, DenseAfter(w, n.x, n.K).p, n.name);
    FcMeans(c, DenseAfter(w, n.x, n.K), k, f);
  }

  // ----- identity and fused nodes -----

  lemma IdentityMeans(c: Ctx, w: Walk, k: nat)
    requires Inv(c, w, k, k) && k < |c.g.nodes| && c.g.nodes[k].IdentityNode? && c.g.nodes[k].input in w.produced
             && Means(c, w, k)
    ensures Means(c, IdentityWalk(c, w, k), k + 1)
  {
    hide Inv, Partial, FeedOk, Vecs, Outputs, SumsAt, G.PartOf, G.IsPart, G.IsFinal, Pin, ValueKept;
    var n, v := c.g.nodes[k], IdentityWalk(c, w, k);
    PartialOf(c, w, k, k);
    InvCtx(c, w, k, k);
    NotPart(c, k);
    OthersKept(c, k);
    LiveProduced(c, w, k, k);
    forall feed: Feed | FeedOk(v.p, feed)
      ensures LiveMeans(c, v, k + 1, feed) && PartsMean(c, v, k + 1, feed) && OutputMeans(c, v, feed)
    {
      MeansAt(c, w, k, feed);
      IdentityValue(c, feed, k);
      forall t | t in v.live && t in v.produced
        ensures Carries(c, v.p, feed, k + 1, v.produced[t].0, t)
      {
        if t == n.out {
          assert Carries(c, w.p, feed, k, w.produced[n.input].0, n.input);
        } else {
          assert Carries(c, w.p, feed, k, w.produced[t].0, t);
          KeptCarries(c, w.p, feed, k, w.produced[t].0, t);
        }
      }
      forall t, q: nat | Gathered(c, v.produced, t) && k + 1 <= q && G.PartOf(c.g, t, q)
        ensures Carries(c, v.p, feed, k + 1, Pin(c, t), t)
      {
        KeptCarries(c, w.p, feed, k, Pin(c, t), t);
      }
    }
  }

  lemma IdentityValue(c: Ctx, feed: Feed, k: nat)
    requires k < |c.g.nodes| && c.g.nodes[k].IdentityNode?
    ensures Value(EnvAt(c.g, feed, k + 1), feed, c.g.nodes[k].out) == Value(EnvAt(c.g, feed, k), feed,
            c.g.nodes[k].input)
  {
  }

  lemma KeptCarries(c: Ctx, p: Program, feed: Feed, k: nat, a: nat, t: string)
    requires Partial(p) && FeedOk(p, feed) && k < |c.g.nodes| && Carries(c, p, feed, k, a, t)
             && ValueKept(c, feed, k, t)
    ensures Carries(c, p, feed, k + 1, a, t)
  {
    hide Partial, FeedOk, Vecs, EnvAt, Value;
  }

  lemma SkipMeans(c: Ctx, w: Walk, k: nat)
    requires Inv(c, w, k, k) && k < |c.g.nodes| && (c.g.nodes[k].AddNode? || c.g.nodes[k].ReluNode?) && Means(c, w, k)
    ensures Means(c, w, k + 1)
  {
    hide Inv, Partial, FeedOk, Vecs, Outputs, SumsAt, G.PartOf, G.IsPart, G.IsFinal, Pin, Value;
    PartialOf(c, w, k, k);
    assert forall feed: Feed :: EnvAt(c.g, feed, k + 1) == EnvAt(c.g, feed, k);
    forall feed: Feed | FeedOk(w.p, feed)
      ensures LiveMeans(c, w, k + 1, feed) && PartsMean(c, w, k + 1, feed) && OutputMeans(c, w, feed)
    {
      MeansAt(c, w, k, feed);
      assert EnvAt(c.g, feed, k + 1) == EnvAt(c.g, feed, k);
      forall t, q: nat | Gathered(c, w.produced, t) && k + 1 <= q && G.PartOf(c.g, t, q)
        ensures Carries(c, w.p, feed, k + 1, Pin(c, t), t)
      {
        assert Carries(c, w.p, feed, k, Pin(c, t), t);
      }
    }
  }

  // ----- the whole walk -----

  lemma EmitMeans(c: Ctx, w: Walk, k: nat, f: nat)
    requires Inv(c, w, k, k) && Shaped(c, k) && Emit(c, w, k, f).Ok? && G.SafeAt(c.g, k) && Means(c, w, k)
    ensures Partial(Emit(c, w, k, f).value.p) && Means(c, Emit(c, w, k, f).value, k + 1)
  {
    hide Inv, Partial, Means, GatherAfter, ConcatAfter, MatMulAfter, IdentityWalk, G.NodeShaped, G.Fused, G.SafeAt;
    EmitOk(c, w, k, f);
    PartialOf(c, Emit(c, w, k, f).value, k + 1, k + 1);
    match c.g.nodes[k]
    case GatherNode(_, _, _, _, _) => GatherMeans(c, w, k);
    case ConcatNode(_, _, _) => ConcatMeans(c, w, k);
    case MatMulNode(_, _, _, _, _, _, _, _) => MatMulMeans(c, w, k, f);
    case AddNode(_, _, _) => SkipMeans(c, w, k);
    case ReluNode(_, _, _) => SkipMeans(c, w, k);
    case IdentityNode(_, _, _) => IdentityMeans(c, w, k);
  }

  lemma {:induction false} RunMeans(c: Ctx, k: nat)
    requires CtxOk(c) && AllShaped(c) && k <= |c.g.nodes| && Run(c, Start(c), k).Ok? && G.SafeBefore(c.g, k)
    ensures var w := Run(c, Start(c), k).value; Inv(c, w, k, k) && Partial(w.p) && Means(c, w, k)
  {
    hide Inv, Partial, Means, Emit, CtxOk, Start, G.SafeAt;
    RunOk(c, k);
    PartialOf(c, Run(c, Start(c), k).value, k, k);
    if k == 0 {
      StartMeans(c);
    } else {
      RunMeans(c, k - 1);
      EmitMeans(c, Run(c, Start(c), k - 1).value, k - 1, FcCount(c.g, k - 1));
    }
  }

  lemma StartMeans(c: Ctx)
    requires Partial(Start(c).p)
    ensures Means(c, Start(c), 0)
  {
    hide Partial;
  }

  lemma {:induction false} LastMatMulIs(g: G.Graph, k: nat, m: nat)
    requires m < k <= |g.nodes| && g.nodes[m].MatMulNode? && forall i :: m < i < k ==> !g.nodes[i].MatMulNode?
    ensures LastMatMul(g, k) == m
  {
    if m < k - 1 {
      LastMatMulIs(g, k - 1, m);
    }
  }

  /** Compiler correctness: on every feed the lowered program accepts, the reference run of the program returns what
      the graph means, up to a Relu that ends the output chain. The code drops that Relu, so the two are equal exactly
      if there is none or it has nothing to do. */
  lemma LoweringIsFaithful(c: Ctx, p: Program, feed: Feed)
    requires CtxOk(c) && AllShaped(c) && Lowered(c, p) && WellFormed(p) && FeedOk(p, feed) && G.PartsSafe(c.g)
    ensures var m := LastMatMul(c.g, |c.g.nodes|); m >= 0 && RefOutput(p, feed) == SumsAt(c.g, feed, m)
    ensures Activated(c.g, RefOutput(p, feed)) == GraphOutput(c.g, feed)
    ensures RefOutput(p, feed) == GraphOutput(c.g, feed) <==>
            !RectifiedOutput(c.g) || forall m :: 0 <= m < |RefOutput(p, feed)| ==> RefOutput(p, feed)[m] >= 0
  {
    hide Inv, Means, Partial, WellFormed, FeedOk, RefOutput, SumsAt, CtxOk, Run, AllShaped, LastMatMul, Outputs;
    var w := Run(c, Start(c), |c.g.nodes|).value;
    RunMeans(c, |c.g.nodes|);
    SameFeed(w.p, p, feed);
    MeansAt(c, w, |c.g.nodes|, feed);
    OutputLayer(c, w, p);
    LastMatMulIs(c.g, |c.g.nodes|, w.lastMat);
    OutputsAreRef(w.p, p, feed, w.lastFc);
  }

  lemma OutputLayer(c: Ctx, w: Walk, p: Program)
    requires Inv(c, w, |c.g.nodes|, |c.g.nodes|) && 0 <= w.lastFc < |w.p.layers|
             && p == WithOutput(w.p, w.p.layers[w.lastFc].name) && WellFormed(p)
    ensures 0 <= w.lastMat < |c.g.nodes| && c.g.nodes[w.lastMat].MatMulNode? && G.IsFinal(c.g, w.lastMat)
    ensures forall i :: w.lastMat < i < |c.g.nodes| ==> !c.g.nodes[i].MatMulNode?
    ensures w.p.layers[w.lastFc].Fc? && OutputIndex(p) == w.lastFc
  {
    hide CtxOk, Partial, Aligned, Placed, DoneOk, ReadsOk, TensorsOk, KeptOk, G.IsFinal, SegmentsOk, InputsOk, WritesOk,
         LayerOk;
    LastFcIs(c, w, |c.g.nodes|);
    LastNamedIs(p.layers, p.outputLayer, w.lastFc);
    LastChain(c, w.lastMat);
  }

  lemma OutputsAreRef(p: Program, q: Program, feed: Feed, f: nat)
    requires Partial(p) && WellFormed(q) && q == WithOutput(p, q.outputLayer) && FeedOk(p, feed) && FeedOk(q, feed)
    requires f < |p.layers| && p.layers[f].Fc? && OutputIndex(q) == f
    ensures RefOutput(q, feed) == Outputs(p, feed, f)
  {
    hide Partial, WellFormed, FeedOk, LayerOk, AccOf, BiasOf, Vecs, RefVecs, Shapes, Wrap32;
    PartialOutput(p, q.outputLayer);
    NamedGrown(p, q);
    OutputsGrown(p, q, feed, -1, f);
    VecsAreRef(q, feed, f);
    InputLength(q, f, feed);
    PadCovers(q, f);
  }

  lemma NamedGrown(p: Program, q: Program)
    requires q == WithOutput(p, q.outputLayer)
    ensures Grown(p, q, -1)
  {
    hide ReadsAt;
  }
}
