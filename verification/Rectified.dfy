/** A graph that ends in a Relu: lowering accepts it, and the program leaves the Relu out. */
module Rectified {
  import opened Bytes
  import opened Kernels
  import opened Program
  import opened Walk
  import opened NodeSteps
  import opened Sharing
  import opened Lowering
  import opened Meaning
  import opened Preservation
  import opened Fusion
  import G = Graph

  const FC := G.MatMulNode("fc", "x", 1, 1, [[255]], [0], 1.0, "m")
  const ACT := G.ReluNode("act", "m", "y")
  const POSITIVE := G.Graph([FC, ACT], {"x"}, map["x" := 1, "m" := 1, "y" := 1], {}, "y")

  lemma Names()
    ensures "fc" != "act" && "x" != "m" && "x" != "y" && "m" != "y"
    ensures G.Reads(FC) == ["x"] && G.Reads(ACT) == ["m"]
  {
    assert |"fc"| != |"act"| && "x"[0] != "m"[0] && "x"[0] != "y"[0] && "m"[0] != "y"[0];
  }

  /** The Relu is fused into the output chain. */
  lemma ReluIsFused()
    ensures G.FusedAdd(POSITIVE, 0) == -1 && G.FusedRelu(POSITIVE, 0) == 1 && G.ChainOut(POSITIVE, 0) == "y"
    ensures G.IsFinal(POSITIVE, 0) && LastMatMul(POSITIVE, 2) == 0 && RectifiedOutput(POSITIVE)
  {
    hide G.Sole;
    Names();
    assert G.Count(["m"][..0], "m") == 0 && G.Count(["m"], "m") == 1;
    assert G.OnlyReader(POSITIVE, "m", 1);
    G.SoleIff(POSITIVE, "m", 1);
    assert LastMatMul(POSITIVE, 1) == 0;
  }

  lemma PositiveIsOk()
    ensures G.GraphOk(POSITIVE) && G.PartsSafe(POSITIVE) && Onnx(POSITIVE)
  {
    hide G.IsFinal;
    Names();
    ReluIsFused();
    assert Fusion.Before(POSITIVE, 1, "m");
  }

  lemma PositivePins()
    ensures PinsAfter(POSITIVE, 2) == (0, map[]) && Biggest(POSITIVE, 2) <= 320
  {
    assert PinsAfter(POSITIVE, 0) == (0, map[]) && PinsAfter(POSITIVE, 1) == (0, map[]);
    assert Pad16(1) == 16 && WeightArea(FC) == 256;
    assert Biggest(POSITIVE, 0) == 0 && Biggest(POSITIVE, 1) == 320;
  }

  /** `lower` accepts it, resident or streaming. */
  lemma PositiveIsAccepted(streaming: bool)
    ensures Accepted(POSITIVE, streaming, DDR2_BYTES)
  {
    hide AllShaped, Run, PinsAfter, Biggest, G.GraphOk, G.Named;
    PositiveIsOk();
    PositivePins();
    var c := Reserved(POSITIVE, streaming);
    G.OkIsNamed(c.g);
    ShapedAll(c);
    PositiveRun(c);
    assert POSITIVE.nodes[0].MatMulNode?;
  }

  lemma PositiveRun(c: Ctx)
    requires c.g == POSITIVE && AllShaped(c) && c.walkStart <= 2000
    ensures Run(c, Start(c), 2).Ok? && Run(c, Start(c), 2).value.p.layoutEnd <= DDR2_BYTES
  {
    hide MatMulAfter, AllShaped, G.FusedAdd, G.FusedRelu;
    ShapedOne(c, 0);
    ShapedOne(c, 1);
    FcEnd(c, Start(c), FcCount(c.g, 0));
    assert Run(c, Start(c), 1) == Ok(MatMulAfter(c, Start(c), 0, FcCount(c.g, 0)));
    ReluIsFused();
    assert G.Fused(c.g, 1);
  }

  lemma FcEnd(c: Ctx, w: Walk, f: nat)
    requires c.g == POSITIVE && Shaped(c, 0)
    ensures MatMulAfter(c, w, 0, f).p.layoutEnd <= w.p.layoutEnd + 2500
  {
    hide FcProgram, FcRecord, G.IsFinal, MatMulAfter, DenseAfter, WeightBytes;
    EndsGrow(c, w, 0, f);
    WeightsSize(FC);
    assert Pad16(1) == 16;
    assert |WeightBytes(FC)| == 256;
  }

  /** One times minus one. */
  lemma PositiveSum(feed: Feed)
    requires "x" in feed && feed["x"] == [1]
    ensures SumsAt(POSITIVE, feed, 0) == [-1]
  {
    hide G.FusedAdd;
    ReluIsFused();
    assert DotExact([255], 0, [1], 0, 0) == 0 && DotExact([255], 0, [1], 0, 1) == -1;
    assert Acc(FC, [1], 0) == -1;
  }

  /** The graph yields 0, node by node and by chains; the program yields -1, and so does every executor. */
  lemma ReluIsDropped(streaming: bool, p: Program, feed: Feed)
    requires CtxOk(Reserved(POSITIVE, streaming)) && AllShaped(Reserved(POSITIVE, streaming))
    requires Lowered(Reserved(POSITIVE, streaming), p) && WellFormed(p) && FeedOk(p, feed)
    requires "x" in feed && feed["x"] == [1]
    ensures RefOutput(p, feed) == [-1] && GraphOutput(POSITIVE, feed) == [0] == NodeOutput(POSITIVE, feed)
  {
    hide CtxOk, AllShaped, Lowered, WellFormed, FeedOk, RefOutput, Reserved, SumsAt, NodeOutput, G.FusedAdd,
         G.FusedRelu, G.GraphOk, Onnx;
    ReluIsFused();
    PositiveIsOk();
    PositiveSum(feed);
    ReservedFor(POSITIVE, streaming);
    LoweringIsFaithful(Reserved(POSITIVE, streaming), p, feed);
    PositiveFused();
    FusionIsFaithful(POSITIVE, feed);
    assert Rectified([-1]) == [0];
  }

  lemma PositiveFused()
    ensures AllFused(POSITIVE)
  {
    hide G.FusedAdd, G.FusedRelu;
    ReluIsFused();
  }
}
