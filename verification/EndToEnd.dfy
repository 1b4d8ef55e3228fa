/** From a graph to an answer: lowering followed by any of the three execution modes computes what the graph means. */
module EndToEnd {
  import opened Bytes
  import opened Program
  import opened Walk
  import opened NodeSteps
  import opened Lowering
  import opened Meaning
  import opened Preservation
  import opened Fusion
  import opened Steps
  import ThreeModes
  import Constants
  import HostMode
  import NmcMode
  import PoolMode
  import G = Graph

  // ----- the constants in the image -----

  /** Some segment of that layer and kind has exactly these bytes at its image offset. */
  ghost predicate ImageHas(p: Program, name: string, kind: SegKind, d: seq<byte>) {
    exists s :: 0 <= s < |p.segments| && p.segments[s].layer == name && p.segments[s].kind == kind
      && p.segments[s].length == |d| && At(p.image, p.segments[s].offset, d)
  }

  /** The constants of node k are in the image. */
  ghost predicate NodeStored(c: Ctx, p: Program, k: nat)
    requires Shaped(c, k)
  {
    var n := c.g.nodes[k];
    && (n.GatherNode? ==> ImageHas(p, n.name, TableSeg, TableBytes(n)))
    && (n.MatMulNode? ==>
        ImageHas(p, n.name, WeightSeg, WeightBytes(n))
        && ImageHas(p, n.name, BiasSeg, G.BiasBytes(Biases(c.g, k), Pad16(n.N))))
  }

  /** q has p's segments and image bytes, and possibly more. */
  ghost predicate Extends(p: Program, q: Program) {
    && |p.segments| <= |q.segments| && q.segments[..|p.segments|] == p.segments
    && |p.image| <= |q.image| && q.image[..|p.image|] == p.image
  }

  lemma StoredMore(p: Program, q: Program, name: string, kind: SegKind, d: seq<byte>)
    requires Extends(p, q) && ImageHas(p, name, kind, d)
    ensures ImageHas(q, name, kind, d)
  {
    var s :| 0 <= s < |p.segments| && p.segments[s].layer == name && p.segments[s].kind == kind
      && p.segments[s].length == |d| && At(p.image, p.segments[s].offset, d);
    assert q.segments[s] == q.segments[..|p.segments|][s];
    forall i | p.segments[s].offset <= i < p.segments[s].offset + |d|
      ensures q.image[i] == d[i - p.segments[s].offset]
    {
      assert q.image[i] == q.image[..|p.image|][i];
    }
  }

  lemma StoredHere(p: Program, s: nat, d: seq<byte>)
    requires s < |p.segments| && p.segments[s].length == |d| && At(p.image, p.segments[s].offset, d)
    ensures ImageHas(p, p.segments[s].layer, p.segments[s].kind, d)
  {
  }

  lemma GatherStored(c: Ctx, w: Walk, k: nat)
    requires Shaped(c, k) && c.g.nodes[k].GatherNode?
    ensures Extends(w.p, GatherAfter(c, w, k).p) && NodeStored(c, GatherAfter(c, w, k).p, k)
  {
    hide TableBytes, Next, Stored, ImageHas;
    TableShape(c, k);
    var d, q := TableBytes(c.g.nodes[k]), GatherAfter(c, w, k).p;
    Constants.StoredAt(w.p.image, d, []);
    assert w.p.image + Stored(w.p.image, d) + [] == q.image;
    StoredHere(q, |w.p.segments|, d);
  }

  lemma MatMulStored(c: Ctx, w: Walk, k: nat, f: nat)
    requires Shaped(c, k) && c.g.nodes[k].MatMulNode?
    ensures Extends(w.p, MatMulAfter(c, w, k, f).p) && NodeStored(c, MatMulAfter(c, w, k, f).p, k)
  {
    hide WeightBytes, Next, Stored, ImageHas, FcRecord, G.BiasBytes, Biases, AfterConsts, Pad16, FcProgram, DenseAfter,
         AfterLayer;
    var n := c.g.nodes[k];
    var v := DenseAfter(w, n.x, n.K);
    DenseSame(w, n.x, n.K);
    DenseKeeps(w, n.x, n.K);
    WeightShape(c, k);
    FcProgramIs(c, v, k, f);
    var q := MatMulAfter(c, w, k, f).p;
    var dw, db := WeightBytes(n), G.BiasBytes(Biases(c.g, k), Pad16(n.N));
    var image := w.p.image + Stored(w.p.image, dw);
    Constants.StoredAt(w.p.image, dw, Stored(image, db));
    Constants.StoredAt(image, db, []);
    assert q.image == image + Stored(image, db) == image + Stored(image, db) + [];
    StoredHere(q, |w.p.segments|, dw);
    StoredHere(q, |w.p.segments| + 1, db);
  }

  lemma DenseSame(w: Walk, x: string, n: nat)
    ensures var v := DenseAfter(w, x, n); v.p.segments == w.p.segments && v.p.image == w.p.image
  {
  }

  lemma EmitStored(c: Ctx, w: Walk, k: nat, f: nat)
    requires Shaped(c, k) && Emit(c, w, k, f).Ok?
    ensures var v := Emit(c, w, k, f).value; Extends(w.p, v.p) && NodeStored(c, v.p, k)
  {
    hide GatherAfter, MatMulAfter, PartsAfter, G.Fused, ImageHas, G.NodeShaped;
    if c.g.nodes[k].GatherNode? {
      GatherStored(c, w, k);
    } else if c.g.nodes[k].MatMulNode? {
      MatMulStored(c, w, k, f);
    }
  }

  lemma NodeStoredMore(c: Ctx, p: Program, q: Program, k: nat)
    requires Shaped(c, k) && NodeStored(c, p, k) && Extends(p, q)
    ensures NodeStored(c, q, k)
  {
    hide ImageHas, Extends, TableBytes, WeightBytes, G.BiasBytes, Biases, Pad16;
    var n := c.g.nodes[k];
    if n.GatherNode? {
      TableShape(c, k);
      StoredMore(p, q, n.name, TableSeg, TableBytes(n));
    } else if n.MatMulNode? {
      WeightShape(c, k);
      StoredMore(p, q, n.name, WeightSeg, WeightBytes(n));
      StoredMore(p, q, n.name, BiasSeg, G.BiasBytes(Biases(c.g, k), Pad16(n.N)));
    }
  }

  /** Image offsets recover every constant: each table, weight matrix and bias block of a walked node. */
  lemma {:induction false} ImageHolds(c: Ctx, k: nat, i: nat)
    requires AllShaped(c) && i < k <= |c.g.nodes| && Run(c, Start(c), k).Ok?
    ensures Shaped(c, i) && NodeStored(c, Run(c, Start(c), k).value.p, i)
  {
    hide NodeStored, Emit, Shaped, Extends, Start;
    ShapedOne(c, i);
    ShapedOne(c, k - 1);
    var u := Run(c, Start(c), k - 1).value;
    EmitStored(c, u, k - 1, FcCount(c.g, k - 1));
    if i < k - 1 {
      ImageHolds(c, k - 1, i);
      NodeStoredMore(c, u.p, Run(c, Start(c), k).value.p, i);
    }
  }

  // ----- the inputs a lowered program asks for -----

  /** One INT32 index in range for every table, and a vector of the right length for every graph input. */
  ghost predicate FeedShaped(g: G.Graph, feed: Feed) {
    && (forall k :: 0 <= k < |g.nodes| && g.nodes[k].GatherNode? && g.nodes[k].index in feed ==>
          |feed[g.nodes[k].index]| == 4 && 0 <= RdI32(feed[g.nodes[k].index], 0) < |g.nodes[k].table|)
    && (forall t :: t in g.inputs && t in g.lens && t in feed && DenseUse(g, t) ==> |feed[t]| == g.lens[t])
  }

  /** A Concat or a MatMul reads t. */
  predicate DenseUse(g: G.Graph, t: string) {
    exists k :: 0 <= k < |g.nodes| && (g.nodes[k].ConcatNode? || g.nodes[k].MatMulNode?) && t in G.Reads(g.nodes[k])
  }

  /** An input that comes from the graph. */
  ghost predicate InputKnown(g: G.Graph, i: InputSpec) {
    match i
    case IndexInput(name, _, rows) => exists k :: 0 <= k < |g.nodes| && g.nodes[k].GatherNode?
                                        && g.nodes[k].index == name && |g.nodes[k].table| == rows
    case DenseInput(name, _, count) => name in g.inputs && name in g.lens && g.lens[name] == count && DenseUse(g, name)
  }

  ghost predicate InputsKnown(g: G.Graph, ins: seq<InputSpec>) {
    forall j :: 0 <= j < |ins| ==> InputKnown(g, ins[j])
  }

  lemma {:induction false} PartsKnown(c: Ctx, w: Walk, k: nat, i: nat)
    requires G.GraphOk(c.g) && IsConcat(c, k) && i <= |c.g.nodes[k].ins| && InputsKnown(c.g, w.p.inputs)
    requires forall j :: 0 <= j < |c.g.nodes[k].ins| && c.g.nodes[k].ins[j] !in w.produced
               ==> c.g.nodes[k].ins[j] in c.g.inputs
    ensures InputsKnown(c.g, PartsAfter(c, w, c.g.nodes[k].ins[..i]).0.p.inputs)
  {
    hide PartsAfter, InputKnown, G.GraphOk;
    if i == 0 {
      PartsNone(c, w, c.g.nodes[k].ins);
    } else {
      PartsKnown(c, w, k, i - 1);
      PartsNext(c, w, c.g.nodes[k].ins, i - 1);
      if c.g.nodes[k].ins[i - 1] !in w.produced {
        DenseKnown(c, k, c.g.nodes[k].ins[i - 1], Pin(c, c.g.nodes[k].ins[i - 1]), Len(c, c.g.nodes[k].ins[i - 1]));
      }
    }
  }

  lemma DenseKnown(c: Ctx, k: nat, t: string, a: nat, n: nat)
    requires G.GraphOk(c.g) && k < |c.g.nodes| && (c.g.nodes[k].ConcatNode? || c.g.nodes[k].MatMulNode?)
             && t in G.Reads(c.g.nodes[k]) && t in c.g.inputs && n == Len(c, t)
    ensures InputKnown(c.g, DenseInput(t, a, n))
  {
    hide G.NodeShaped, G.PartsUnshared, G.IsFinal;
  }

  lemma EmitKnown(c: Ctx, w: Walk, k: nat, f: nat)
    requires G.GraphOk(c.g) && Shaped(c, k) && Emit(c, w, k, f).Ok? && InputsKnown(c.g, w.p.inputs)
    ensures InputsKnown(c.g, Emit(c, w, k, f).value.p.inputs)
  {
    hide G.GraphOk, G.Fused, G.IsFinal, FcRecord, TableBytes, WeightBytes, Next, Stored, PartsAfter, InputKnown,
         AfterConsts, AfterWeights, AfterLayer, Pad16, G.ChainOut, G.IsPart;
    var n := c.g.nodes[k];
    if n.GatherNode? {
      IndexKnown(c.g, k, Next(w.p.layoutEnd, |TableBytes(n)|));
    } else if n.ConcatNode? {
      assert n.ins[..|n.ins|] == n.ins;
      PartsKnown(c, w, k, |n.ins|);
    } else if n.MatMulNode? && n.x !in w.produced {
      assert G.Reads(n)[0] == n.x;
      DenseKnown(c, k, n.x, w.p.layoutEnd, n.K);
    }
  }

  lemma IndexKnown(g: G.Graph, k: nat, a: nat)
    requires k < |g.nodes| && g.nodes[k].GatherNode?
    ensures InputKnown(g, IndexInput(g.nodes[k].index, a, |g.nodes[k].table|))
  {
  }

  lemma {:induction false} RunKnown(c: Ctx, k: nat)
    requires G.GraphOk(c.g) && AllShaped(c) && k <= |c.g.nodes| && Run(c, Start(c), k).Ok?
    ensures InputsKnown(c.g, Run(c, Start(c), k).value.p.inputs)
  {
    hide G.GraphOk, Emit, Shaped, InputKnown;
    if k > 0 {
      RunKnown(c, k - 1);
      ShapedOne(c, k - 1);
      EmitKnown(c, Run(c, Start(c), k - 1).value, k - 1, FcCount(c.g, k - 1));
    }
  }

  /** A feed shaped for the graph is acceptable to the program. */
  lemma ShapedIsOffered(c: Ctx, p: Program, feed: Feed)
    requires G.GraphOk(c.g) && AllShaped(c) && Lowered(c, p) && FeedShaped(c.g, feed)
    ensures Offered(p, feed)
  {
    hide G.GraphOk, Run, AllShaped, FeedShaped;
    RunKnown(c, |c.g.nodes|);
    forall j | 0 <= j < |p.inputs| && p.inputs[j].name in feed
      ensures InputFed(p.inputs[j], feed)
    {
      assert InputKnown(c.g, p.inputs[j]);
      KnownIsFed(c.g, p.inputs[j], feed);
    }
  }

  lemma KnownIsFed(g: G.Graph, i: InputSpec, feed: Feed)
    requires InputKnown(g, i) && FeedShaped(g, feed) && i.name in feed
    ensures InputFed(i, feed)
  {
    hide RdI32;
    if i.IndexInput? {
      var k :| 0 <= k < |g.nodes| && g.nodes[k].GatherNode? && g.nodes[k].index == i.name
        && |g.nodes[k].table| == i.rows;
      assert g.nodes[k].index in feed;
    }
  }

  // ----- deployment -----

  /** What every mode reports when every input is there: the graph's output, short of a Relu that ends the output
      chain. */
  ghost predicate Answered(g: G.Graph, p: Program, feeds: seq<Feed>, outs: seq<(bool, seq<int>)>) {
    && |outs| == |feeds|
    && forall k :: 0 <= k < |feeds| ==>
         if AllThere(p, feeds[k]) then outs[k].0 && Activated(g, outs[k].1) == GraphOutput(g, feeds[k])
         else outs[k] == (false, [])
  }

  lemma AnswersMean(c: Ctx, p: Program, feeds: seq<Feed>, outs: seq<(bool, seq<int>)>)
    requires CtxOk(c) && AllShaped(c) && Lowered(c, p) && WellFormed(p) && G.PartsSafe(c.g)
    requires (forall k :: 0 <= k < |feeds| ==> Offered(p, feeds[k])) && ThreeModes.Answers(p, feeds, outs)
    ensures Answered(c.g, p, feeds, outs)
  {
    hide CtxOk, AllShaped, Lowered, WellFormed, Offered, AllThere, RefOutput, GraphOutput, FeedOk, Activated;
    forall k | 0 <= k < |feeds|
      ensures if AllThere(p, feeds[k]) then outs[k].0 && Activated(c.g, outs[k].1) == GraphOutput(c.g, feeds[k])
              else outs[k] == (false, [])
    {
      assert outs[k] == ThreeModes.Answer(p, feeds[k]);
      if AllThere(p, feeds[k]) {
        ThreeModes.AllFed(p, feeds[k]);
        LoweringIsFaithful(c, p, feeds[k]);
      }
    }
  }

  /** Without that Relu, exactly the graph's output. */
  ghost predicate AnsweredExactly(g: G.Graph, p: Program, feeds: seq<Feed>, outs: seq<(bool, seq<int>)>)
    requires |outs| == |feeds|
  {
    forall k :: 0 <= k < |feeds| && AllThere(p, feeds[k]) ==> outs[k] == (true, GraphOutput(g, feeds[k]))
  }

  lemma ExactAnswers(g: G.Graph, p: Program, feeds: seq<Feed>, outs: seq<(bool, seq<int>)>)
    requires Answered(g, p, feeds, outs) && !RectifiedOutput(g)
    ensures AnsweredExactly(g, p, feeds, outs)
  {
    hide AllThere, GraphOutput, RectifiedOutput;
  }

  /** `lower` accepts a graph only if every Add and Relu is fused. */
  lemma AcceptedFused(g: G.Graph, streaming: bool, ddr2Bytes: nat)
    requires Accepted(g, streaming, ddr2Bytes)
    ensures AllFused(g) && LastMatMul(g, |g.nodes|) >= 0
  {
    hide AllPinnable, G.Fused, GatherAfter, ConcatAfter, MatMulAfter, Reserved, G.NodeShaped;
    var c := Reserved(g, streaming);
    ReservedFor(g, streaming);
    forall i | 0 <= i < |g.nodes|
      ensures !g.nodes[i].OtherNode? && (g.nodes[i].AddNode? || g.nodes[i].ReluNode? ==> G.Fused(g, i))
    {
      if Run(c, Start(c), i).Err? {
        RunStops(c, Start(c), i, |g.nodes|);
      } else if Run(c, Start(c), i + 1).Err? {
        RunStops(c, Start(c), i + 1, |g.nodes|);
      }
      ShapedOne(c, i);
    }
    NoneLater(g, |g.nodes|);
  }

  /** Node by node, too. */
  lemma NodesMean(g: G.Graph, streaming: bool, ddr2Bytes: nat)
    requires G.GraphOk(g) && Onnx(g) && Accepted(g, streaming, ddr2Bytes)
    ensures forall feed: Feed :: NodeOutput(g, feed) == GraphOutput(g, feed)
  {
    hide G.GraphOk, Onnx, Accepted, NodeOutput, GraphOutput, AllFused, LastMatMul;
    AcceptedFused(g, streaming, ddr2Bytes);
    forall feed: Feed
      ensures NodeOutput(g, feed) == GraphOutput(g, feed)
    {
      FusionIsFaithful(g, feed);
    }
  }

  lemma PagesFit(a: nat, b: nat, page: nat)
    requires page > 0 && a <= b
    ensures CeilDiv(a, page) * page <= CeilDiv(b, page) * page
  {
    DivLe(a + page - 1, b + page - 1, page);
    MulLe(CeilDiv(a, page), CeilDiv(b, page), page);
  }

  /** Lower a graph and run any sequence of inputs on all three executors: whatever lowering accepts, every mode
      answers every complete input with the graph's own integer output, short of a Relu at its end; and that output is
      what the graph's nodes compute one by one. */
  method Deploy(g: G.Graph, streaming: bool, ddr2Bytes: nat, feeds: seq<Feed>,
                host: HostMode.HostExecutor, nmc: NmcMode.NmcExecutor, pool: PoolMode.PoolExecutor)
    returns (r: Result<Program>, hostOut: seq<(bool, seq<int>)>, nmcOut: seq<(bool, seq<int>)>, resident: bool,
      poolOut: seq<(bool, seq<int>)>)
    requires G.GraphOk(g) && G.PartsSafe(g) && forall k :: 0 <= k < |feeds| ==> FeedShaped(g, feeds[k])
    requires nmc.link.Quiet() && DDR2_BYTES <= nmc.link.t.ddr2.Length
    requires pool.link.Quiet() && pool.page > 0 && CeilDiv(DDR2_BYTES, pool.page) * pool.page <= pool.link.t.ddr2.Length
    requires nmc.link != pool.link && nmc.link.t != pool.link.t
    requires {nmc.link.t.ddr2, nmc.link.t.rx} !! {pool.link.t.ddr2, pool.link.t.rx}
    modifies host, nmc, nmc.link, nmc.link.t, nmc.link.t.ddr2, nmc.link.t.rx
    modifies pool, pool.link, pool.link.t, pool.link.t.ddr2, pool.link.t.rx
    ensures r.Ok? <==> Accepted(g, streaming, ddr2Bytes)
    ensures r.Ok? ==> Answered(g, r.value, feeds, hostOut) && nmcOut == hostOut
    ensures r.Ok? && !RectifiedOutput(g) ==> AnsweredExactly(g, r.value, feeds, hostOut)
    ensures r.Ok? && Onnx(g) ==> forall feed: Feed :: NodeOutput(g, feed) == GraphOutput(g, feed)
    ensures r.Ok? ==> resident == !streaming && (resident ==> poolOut == hostOut)
  {
    hide G.GraphOk, G.Named, CtxOk, AllShaped, Lowered, WellFormed, Offered, Answered, FeedShaped, CeilDiv,
         ThreeModes.Answers, Aligned, Accepted, Reserved, AnsweredExactly, RectifiedOutput, Onnx, NodeOutput,
         GraphOutput;
    hostOut, nmcOut, resident, poolOut := [], [], false, [];
    G.OkIsNamed(g);
    var lowering := new Lowering(g, streaming, ddr2Bytes);
    r := lowering.Lower();
    if r.Err? {
      return;
    }
    ghost var c := Reserved(g, streaming);
    ReservedFor(g, streaming);
    var p := r.value;
    FitsDevice(p);
    PagesFit(p.layoutEnd, DDR2_BYTES, pool.page);
    StreamingKept(c, p);
    forall k | 0 <= k < |feeds|
      ensures Offered(p, feeds[k])
    {
      ShapedIsOffered(c, p, feeds[k]);
    }
    hostOut, nmcOut, resident, poolOut := ThreeModes.RunAll(p, feeds, host, nmc, pool);
    AnswersMean(c, p, feeds, hostOut);
    if !RectifiedOutput(g) {
      ExactAnswers(g, p, feeds, hostOut);
    }
    if Onnx(g) {
      NodesMean(g, streaming, ddr2Bytes);
    }
  }

  lemma FitsDevice(p: Program)
    requires WellFormed(p)
    ensures p.layoutEnd <= DDR2_BYTES
  {
  }

  lemma StreamingKept(c: Ctx, p: Program)
    requires CtxOk(c) && AllShaped(c) && Lowered(c, p) && G.PartsSafe(c.g)
    ensures p.streaming == c.streaming
  {
    hide CtxOk, AllShaped, Run, Inv;
    RunOk(c, |c.g.nodes|);
    StreamingOf(c, Run(c, Start(c), |c.g.nodes|).value, |c.g.nodes|);
  }

  lemma StreamingOf(c: Ctx, w: Walk, k: nat)
    requires Inv(c, w, k, k)
    ensures w.p.streaming == c.streaming
  {
  }
}
