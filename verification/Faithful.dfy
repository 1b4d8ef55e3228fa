/** Lowering preserves meaning: through every step of the walk, the vector at a tensor's address is the tensor's
    value. */
module Faithful {
  import opened Bytes
  import opened Program
  import opened Layout
  import opened Walk
  import opened WalkSteps
  import opened WalkLayers
  import opened Meaning
  import G = Graph

  /** The vector at address a starts with tensor t's value after the first k nodes. */
  ghost predicate Carries(c: Ctx, p: Program, feed: Feed, k: nat, a: nat, t: string)
    requires Partial(p) && FeedOk(p, feed) && k <= |c.g.nodes|
  {
    && a in Vecs(p, feed, |p.layers|) && Len(c, t) <= |Vecs(p, feed, |p.layers|)[a]|
    && Vecs(p, feed, |p.layers|)[a][..Len(c, t)] == Value(EnvAt(c.g, feed, k), feed, t)
  }

  /** The INT32 outputs of layer f. */
  function Outputs(p: Program, feed: Feed, f: nat): (out: seq<int>)
    requires Partial(p) && FeedOk(p, feed) && f < |p.layers| && p.layers[f].Fc?
  {
    assert LayerOk(p, f);
    var x := Vecs(p, feed, f)[p.layers[f].inAddr][..p.layers[f].K];
    PadCovers(p, f);
    seq(p.layers[f].N, m requires 0 <= m < p.layers[f].N => Wrap32(AccOf(p, f, x, m) + BiasOf(p, f, m)))
  }

  ghost predicate LiveMeans(c: Ctx, w: Walk, k: nat, feed: Feed)
    requires Partial(w.p) && FeedOk(w.p, feed) && k <= |c.g.nodes|
  {
    forall t :: t in w.live && t in w.produced ==> Carries(c, w.p, feed, k, w.produced[t].0, t)
  }

  ghost predicate PartsMean(c: Ctx, w: Walk, k: nat, feed: Feed)
    requires Partial(w.p) && FeedOk(w.p, feed) && k <= |c.g.nodes|
  {
    forall t, q: nat :: Gathered(c, w.produced, t) && k <= q && G.PartOf(c.g, t, q) ==>
      Carries(c, w.p, feed, k, Pin(c, t), t)
  }

  ghost predicate OutputMeans(c: Ctx, w: Walk, feed: Feed)
    requires Partial(w.p) && FeedOk(w.p, feed)
  {
    0 <= w.lastMat < |c.g.nodes| && c.g.nodes[w.lastMat].MatMulNode? && G.IsFinal(c.g, w.lastMat)
    && 0 <= w.lastFc < |w.p.layers| && w.p.layers[w.lastFc].Fc? ==>
      Outputs(w.p, feed, w.lastFc) == SumsAt(c.g, feed, w.lastMat)
  }

  /** For every feed the program accepts, tensors have their values and the output chain its result. */
  ghost predicate Means(c: Ctx, w: Walk, k: nat)
    requires Partial(w.p) && k <= |c.g.nodes|
  {
    forall feed: Feed :: FeedOk(w.p, feed) ==>
        LiveMeans(c, w, k, feed) && PartsMean(c, w, k, feed)
        && OutputMeans(c, w, feed)
  }

  // ----- growing the program -----

  lemma CarriesGrown(c: Ctx, p: Program, q: Program, feed: Feed, k: nat, skip: int, a: nat, t: string)
    requires Partial(p) && Partial(q) && Grown(p, q, skip) && FeedOk(p, feed) && FeedOk(q, feed) && k <= |c.g.nodes|
             && a != skip
    requires |q.layers| == |p.layers| && Carries(c, p, feed, k, a, t)
    ensures Carries(c, q, feed, k, a, t)
  {
    hide Partial, Grown, FeedOk, Vecs, EnvAt, Value;
    VecsGrown(p, q, feed, skip, |p.layers|, a);
  }

  lemma OutputsGrown(p: Program, q: Program, feed: Feed, skip: int, f: nat)
    requires Partial(p) && Partial(q) && Grown(p, q, skip) && FeedOk(p, feed) && FeedOk(q, feed)
    requires f < |p.layers| && p.layers[f].Fc?
    ensures f < |q.layers| && q.layers[f] == p.layers[f] && Outputs(q, feed, f) == Outputs(p, feed, f)
  {
    hide Grown, FeedOk, Vecs, LayerOk, SegmentsOk, InputsOk, WritesOk, AccOf, BiasOf, ReadsAt, ConstsKept, Shapes;
    GrownAt(p, q, skip, f);
    assert LayerOk(p, f) && LayerOk(q, f);
    InputOf(p, f);
    var a := p.layers[f].inAddr;
    VecsGrown(p, q, feed, skip, f, a);
    PadCovers(p, f);
    forall m | 0 <= m < p.layers[f].N
      ensures Outputs(q, feed, f)[m] == Outputs(p, feed, f)[m]
    {
      AccAgree(p, q, f, Vecs(p, feed, f)[a][..p.layers[f].K], m);
    }
  }

  lemma InputOf(p: Program, f: nat)
    requires f < |p.layers| && p.layers[f].Fc? && LayerOk(p, f)
    ensures p.layers[f].inAddr in Shapes(p, f) && p.layers[f].K <= Shapes(p, f)[p.layers[f].inAddr]
            && ReadsAt(p.layers[f], p.layers[f].inAddr)
  {
    hide Shapes, SegIs, RowPadded, Clear, FindSeg;
  }

  /** Constants and inputs leave every tensor's value in place. */
  lemma MeansGrown(c: Ctx, w: Walk, v: Walk, k: nat, skip: int)
    requires k <= |c.g.nodes| && Partial(w.p) && Partial(v.p) && Grown(w.p, v.p, skip) && |v.p.layers| == |w.p.layers|
             && Means(c, w, k)
    requires v.produced == w.produced && v.live == w.live && v.lastFc == w.lastFc && v.lastMat == w.lastMat
    requires forall t :: t in w.live && t in w.produced ==> w.produced[t].0 != skip
    requires forall t, q: nat :: Gathered(c, w.produced, t) && k <= q && G.PartOf(c.g, t, q) ==> Pin(c, t) != skip
    ensures Means(c, v, k)
  {
    hide Partial, Grown, FeedOk, Vecs, EnvAt, Value, Carries, G.IsFinal, G.PartOf, Outputs, SumsAt, Pin;
    forall feed: Feed | FeedOk(v.p, feed)
      ensures LiveMeans(c, v, k, feed) && PartsMean(c, v, k, feed) && OutputMeans(c, v, feed)
    {
      FeedLess(w.p, v.p, skip, feed);
      forall t | t in v.live && t in v.produced
        ensures Carries(c, v.p, feed, k, v.produced[t].0, t)
      {
        CarriesGrown(c, w.p, v.p, feed, k, skip, w.produced[t].0, t);
      }
      forall t, q: nat | Gathered(c, v.produced, t) && k <= q && G.PartOf(c.g, t, q)
        ensures Carries(c, v.p, feed, k, Pin(c, t), t)
      {
        CarriesGrown(c, w.p, v.p, feed, k, skip, Pin(c, t), t);
      }
      if 0 <= w.lastFc < |w.p.layers| && w.p.layers[w.lastFc].Fc? {
        OutputsGrown(w.p, v.p, feed, skip, w.lastFc);
      }
      LayersKept(w.p, v.p, skip);
    }
  }

  lemma LayersKept(p: Program, q: Program, skip: int)
    requires Grown(p, q, skip)
    ensures |p.layers| <= |q.layers| && forall n :: 0 <= n < |p.layers| ==> q.layers[n] == p.layers[n]
  {
    hide ConstsKept, ReadsAt;
    forall n | 0 <= n < |p.layers|
      ensures q.layers[n] == p.layers[n]
    {
      GrownAt(p, q, skip, n);
    }
  }

  lemma PartialOf(c: Ctx, w: Walk, k: nat, b: nat)
    requires Inv(c, w, k, b)
    ensures Partial(w.p) && k <= |c.g.nodes|
  {
  }

  lemma MeansSegment(c: Ctx, w: Walk, k: nat, b: nat, s: Segment, data: seq<byte>, end: nat)
    requires Inv(c, w, k, b) && Inv(c, w.(p := WithSegment(w.p, s, data, end)), k, b) && Means(c, w, k)
    requires forall n :: 0 <= n < |w.p.layers| ==> w.p.layers[n].name != s.layer
    ensures Means(c, w.(p := WithSegment(w.p, s, data, end)), k)
  {
    hide Inv, Partial, Grown, Means;
    var v := w.(p := WithSegment(w.p, s, data, end));
    PartialOf(c, w, k, b);
    PartialOf(c, v, k, b);
    GrownSegment(w.p, s, data, end);
    MeansGrown(c, w, v, k, -1);
  }

  /** An input whose address no layer reads and no tensor uses. */
  lemma MeansInput(c: Ctx, w: Walk, v: Walk, k: nat, b: nat, i: InputSpec, end: nat)
    requires Inv(c, w, k, b) && Partial(v.p) && v.p == WithInput(w.p, i, end) && Means(c, w, k)
    requires v.produced == w.produced && v.live == w.live && v.lastFc == w.lastFc && v.lastMat == w.lastMat
    requires i.DenseInput? ==>
               i.addr == w.p.layoutEnd || exists t :: G.IsPart(c.g, t) && t !in w.done && i.addr == Pin(c, t)
    ensures Means(c, v, k)
  {
    hide Inv, Partial, Grown, Means, ReadsAt, G.IsPart, G.PartOf, Pin;
    PartialOf(c, w, k, b);
    var skip := if i.DenseInput? then i.addr else -1;
    if i.DenseInput? {
      Unused(c, w, k, b, i.addr);
    }
    GrownInput(w.p, i, end);
    MeansGrown(c, w, v, k, skip);
  }

  /** Nobody reads or uses an address at the end of the layout or the pin of an unclaimed part. */
  lemma Unused(c: Ctx, w: Walk, k: nat, b: nat, a: nat)
    requires Inv(c, w, k, b) && (a == w.p.layoutEnd || exists t :: G.IsPart(c.g, t) && t !in w.done && a == Pin(c, t))
    ensures forall n :: 0 <= n < |w.p.layers| ==> !ReadsAt(w.p.layers[n], a)
    ensures forall t :: t in w.live && t in w.produced ==> w.produced[t].0 != a
    ensures forall t, q: nat :: Gathered(c, w.produced, t) && k <= q && G.PartOf(c.g, t, q) ==> Pin(c, t) != a
  {
    hide Inv, ReadsAt, G.IsPart, G.PartOf, Pin;
    InvReads(c, w, k, b);
    forall t | t in w.live && t in w.produced
      ensures w.produced[t].0 != a
    {
      LiveElsewhere(c, w, k, b, t);
    }
    forall t, q: nat | Gathered(c, w.produced, t) && k <= q && G.PartOf(c.g, t, q)
      ensures Pin(c, t) != a
    {
      PartElsewhere(c, w, k, b, t, q);
    }
  }

  lemma InvReads(c: Ctx, w: Walk, k: nat, b: nat)
    requires Inv(c, w, k, b)
    ensures ReadsOk(c, w) && CtxOk(c) && c.walkStart <= w.p.layoutEnd
  {
  }

  lemma LiveElsewhere(c: Ctx, w: Walk, k: nat, b: nat, t: string)
    requires Inv(c, w, k, b) && t in w.live && t in w.produced
    ensures w.produced[t].0 < w.p.layoutEnd
            && forall u :: G.IsPart(c.g, u) && u !in w.done ==> w.produced[t].0 != Pin(c, u)
  {
    hide CtxOk, Partial, Aligned, Placed, DoneOk, ReadsOk, TailOk, KeptOk, DeadEnd, Holds, G.IsPart, Pad16, Pin;
    assert LiveTensor(c, w, k, t);
  }

  lemma PartElsewhere(c: Ctx, w: Walk, k: nat, b: nat, t: string, q: nat)
    requires Inv(c, w, k, b) && Gathered(c, w.produced, t) && G.PartOf(c.g, t, q)
    ensures Pin(c, t) < w.p.layoutEnd && forall u :: G.IsPart(c.g, u) && u !in w.done ==> Pin(c, t) != Pin(c, u)
  {
    hide CtxOk, Partial, Aligned, Placed, DoneOk, ReadsOk, TailOk, KeptOk, DeadEnd, Holds, G.IsPart, Pad16, Pin,
         G.PartOf;
    PartIs(c, t, q);
    assert WaitingPart(c, w, k, t);
    PartFacts(c, t);
    PadAbove(Len(c, t));
    forall u | G.IsPart(c.g, u) && u !in w.done
      ensures Pin(c, t) != Pin(c, u)
    {
      PartsApart(c, t, u);
    }
  }

  // ----- one more layer -----

  /** The tensor node k gives a value to. */
  function OutOf(g: G.Graph, k: nat): string
    requires k < |g.nodes|
  {
    if g.nodes[k].MatMulNode? then G.ChainOut(g, k) else g.nodes[k].out
  }

  ghost predicate ValueKept(c: Ctx, feed: Feed, k: nat, t: string)
    requires k < |c.g.nodes|
  {
    Value(EnvAt(c.g, feed, k + 1), feed, t) == Value(EnvAt(c.g, feed, k), feed, t)
  }

  /** The values of tensors other than node k's own are the same after it. */
  lemma OthersKept(c: Ctx, k: nat)
    requires k < |c.g.nodes|
    ensures forall t, feed: Feed :: t != OutOf(c.g, k) ==> ValueKept(c, feed, k, t)
  {
    hide G.IsFinal, Hidden, Joined, Row, G.ChainOut;
  }

  /** The vectors after one more layer. */
  lemma VecsNext(p: Program, L: Layer, end: nat, feed: Feed, a: nat)
    requires Partial(p) && Partial(WithLayer(p, L, end)) && FeedOk(p, feed)
    ensures var q := WithLayer(p, L, end);
            FeedOk(q, feed) && (a in Vecs(p, feed, |p.layers|) && (WritesVec(L) ==> a != VecAddr(L)) ==>
              a in Vecs(q, feed, |q.layers|) && Vecs(q, feed, |q.layers|)[a] == Vecs(p, feed, |p.layers|)[a])
  {
    hide Partial, Grown, LayerOk, TableRow, ConcatParts, FcVec, Shapes;
    var q := WithLayer(p, L, end);
    GrownLayer(p, L, end);
    assert q.inputs == p.inputs;
    assert FeedOk(q, feed);
    VecsGrown(p, q, feed, -1, |p.layers|, a);
    StepFrame(q, feed, |p.layers|, a);
  }

  lemma StepFrame(q: Program, feed: Feed, n: nat, a: nat)
    requires Partial(q) && FeedOk(q, feed) && n < |q.layers|
    ensures a in Vecs(q, feed, n) && (WritesVec(q.layers[n]) ==> a != VecAddr(q.layers[n])) ==>
              a in Vecs(q, feed, n + 1) && Vecs(q, feed, n + 1)[a] == Vecs(q, feed, n)[a]
  {
    hide SegmentsOk, InputsOk, WritesOk, LayerOk, TableRow, ConcatParts, FcVec, Shapes;
    assert LayerOk(q, n);
  }

  /** A layer that spares the other tensors keeps their values; its own tensor's value, those it rewrites with the same
      vector, and the output are shown apart. */
  lemma MeansLayer(c: Ctx, w: Walk, v: Walk, k: nat, b: nat, L: Layer, end: nat, t: string, kept: set<string>)
    requires Inv(c, w, k, b) && k < |c.g.nodes| && Partial(v.p) && v.p == WithLayer(w.p, L, end) && Means(c, w, k)
    requires kept <= w.live && (WritesVec(L) ==> Spares(c, w, k, kept, VecAddr(L))) && t == OutOf(c.g, k)
    requires t in v.produced && v.produced == w.produced[t := v.produced[t]]
    requires forall x :: x in v.live && x in v.produced && (x == t || x !in kept) ==>
               forall feed: Feed :: FeedOk(v.p, feed) ==> Carries(c, v.p, feed, k + 1, v.produced[x].0, x)
    requires Gathered(c, v.produced, t) ==> t in v.live && v.produced[t].0 == Pin(c, t)
    requires forall feed: Feed :: FeedOk(v.p, feed) ==> OutputMeans(c, v, feed)
    ensures Means(c, v, k + 1)
  {
    hide Inv, Partial, FeedOk, Vecs, ValueKept, Carries, G.PartOf, G.IsPart, OutputMeans, Pin, Spares, WritesVec, OutOf;
    PartialOf(c, w, k, b);
    OthersKept(c, k);
    forall feed: Feed | FeedOk(v.p, feed)
      ensures LiveMeans(c, v, k + 1, feed) && PartsMean(c, v, k + 1, feed) && OutputMeans(c, v, feed)
    {
      SameFeed(w.p, v.p, feed);
      forall x | x in v.live && x in v.produced
        ensures Carries(c, v.p, feed, k + 1, v.produced[x].0, x)
      {
        if x != t && x in kept {
          SparedLive(c, w, k, kept, VecAddr(L), x);
          CarriesNext(c, w.p, L, end, feed, k, w.produced[x].0, x);
        }
      }
      forall x, q: nat | Gathered(c, v.produced, x) && k + 1 <= q && G.PartOf(c.g, x, q)
        ensures Carries(c, v.p, feed, k + 1, Pin(c, x), x)
      {
        if x != t {
          SparedPart(c, w, k, kept, VecAddr(L), x, q);
          CarriesNext(c, w.p, L, end, feed, k, Pin(c, x), x);
        }
      }
    }
  }

  lemma SameFeed(p: Program, q: Program, feed: Feed)
    requires q.inputs == p.inputs
    ensures FeedOk(q, feed) == FeedOk(p, feed)
  {
  }

  lemma SparedLive(c: Ctx, w: Walk, k: nat, kept: set<string>, o: nat, t: string)
    ensures Spares(c, w, k, kept, o) && t in kept && t in w.produced ==> w.produced[t].0 != o
  {
  }

  lemma SparedPart(c: Ctx, w: Walk, k: nat, kept: set<string>, o: nat, t: string, q: nat)
    ensures Spares(c, w, k, kept, o) && Gathered(c, w.produced, t) && k < q && G.PartOf(c.g, t, q) ==> Pin(c, t) != o
  {
  }

  lemma CarriesNext(c: Ctx, p: Program, L: Layer, end: nat, feed: Feed, k: nat, a: nat, t: string)
    requires Partial(p) && Partial(WithLayer(p, L, end)) && FeedOk(p, feed) && k < |c.g.nodes|
             && Carries(c, p, feed, k, a, t)
    requires WritesVec(L) ==> a != VecAddr(L)
    requires ValueKept(c, feed, k, t)
    ensures FeedOk(WithLayer(p, L, end), feed) && Carries(c, WithLayer(p, L, end), feed, k + 1, a, t)
  {
    hide Partial, FeedOk, Vecs, EnvAt, Value, WritesVec;
    VecsNext(p, L, end, feed, a);
  }
}
