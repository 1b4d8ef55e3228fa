/** A small recommender (one embedding, one dense input, one Concat, one fc layer), and a second fc layer that reads
    one of the parts before or after the Concat: graphs that meet every condition the theorems place on them, one that
    `run_reference` cannot run, and one that lowering takes and lays out wrongly. */
module Example {
  import opened Bytes
  import opened Program
  import opened Walk
  import opened NodeSteps
  import opened Sharing
  import opened Lowering
  import opened PartReads
  import G = Graph

  const ROW: seq<byte> := [1, 1, 1, 1, 1, 1, 1, 1, 2, 2, 2, 2, 2, 2, 2, 2]
  const LINE: seq<byte> := ROW + ROW
  const EMBED := G.GatherNode("embed", [ROW, ROW], 16, "index", "e")
  const JOIN := G.ConcatNode("join", ["e", "d"], "c")
  const SCORE := G.MatMulNode("score", "c", 32, 1, [LINE], [3], 1.0, "y")
  const LENS := map["index" := 1, "d" := 16, "e" := 16, "c" := 32, "y" := 1, "z" := 1]

  /** The layer that reads a part. */
  function Probe(x: string): G.Node {
    G.MatMulNode("probe", x, 16, 1, [ROW], [3], 1.0, "z")
  }

  function Net(x: string, early: bool): (g: G.Graph)
    ensures |g.nodes| == 4 && g.nodes[0] == EMBED && g.nodes[3] == SCORE && g.inputs == {"index", "d"}
    ensures g.lens == LENS && g.inits == {} && g.output == "y"
    ensures g.nodes[1] == (if early then Probe(x) else JOIN) && g.nodes[2] == (if early then JOIN else Probe(x))
  {
    G.Graph([EMBED] + (if early then [Probe(x), JOIN] else [JOIN, Probe(x)]) + [SCORE], {"index", "d"}, LENS, {}, "y")
  }

  /** The parts. */
  predicate Read(x: string) {
    x == "e" || x == "d"
  }

  lemma Names()
    ensures "embed" != "join" && "embed" != "score" && "join" != "score" && "probe" != "embed" && "probe" != "join"
            && "probe" != "score"
    ensures "e" != "c" && "e" != "y" && "c" != "y" && "d" != "e" && "d" != "c" && "d" != "y"
    ensures "z" != "e" && "z" != "c" && "z" != "y" && "z" != "d"
    ensures "index" != "e" && "index" != "c" && "index" != "y" && "index" != "d" && "index" != "z"
  {
    assert |"embed"| != |"join"| && |"join"| != |"score"| && "embed"[0] != "score"[0];
    assert |"probe"| != |"join"| && "probe"[0] != "embed"[0] && "probe"[0] != "score"[0];
    assert "e"[0] != "c"[0] && "e"[0] != "y"[0] && "c"[0] != "y"[0] && "d"[0] != "e"[0] && "d"[0] != "c"[0]
           && "d"[0] != "y"[0];
    assert "z"[0] != "e"[0] && "z"[0] != "c"[0] && "z"[0] != "y"[0] && "z"[0] != "d"[0];
    assert |"index"| > 1;
  }

  lemma Readers(x: string)
    ensures G.Reads(EMBED) == ["index"] && G.Reads(JOIN) == ["e", "d"] && G.Reads(SCORE) == ["c"]
            && G.Reads(Probe(x)) == [x]
  {
  }

  lemma OutputUnread(x: string, early: bool)
    requires Read(x)
    ensures forall i :: 0 <= i < 4 ==> "y" !in G.Reads(Net(x, early).nodes[i])
  {
    Names();
    Readers(x);
  }

  lemma Parts()
    ensures G.SumLens(LENS, ["e", "d"][..0]) == 0 && G.SumLens(LENS, ["e", "d"][..1]) == 16
            && G.SumLens(LENS, ["e", "d"]) == 32
  {
    assert ["e", "d"][..1] == ["e"] && ["e"][..0] == [] && ["e", "d"][..0] == [];
    assert G.SumLens(LENS, ["e"]) == 16;
  }

  /** Nobody reads the score, so it is the final chain. */
  lemma ScoreIsFinal(x: string, early: bool)
    requires Read(x)
    ensures var g := Net(x, early); G.FusedAdd(g, 3) == -1 && G.FusedRelu(g, 3) == -1 && G.IsFinal(g, 3)
  {
    OutputUnread(x, early);
    assert G.Sole(Net(x, early), "y") < 0;
  }

  lemma NetShaped(x: string, early: bool, i: nat)
    requires Read(x) && i < 4
    ensures var g := Net(x, early); G.NodeShaped(g, g.nodes[i]) && g.nodes[i].out !in g.inputs
  {
    Names();
    Parts();
  }

  lemma NetUnshared(x: string, early: bool)
    ensures G.PartsUnshared(Net(x, early))
  {
    Names();
  }

  /** The graph conditions hold of all of them. */
  lemma NetIsOk(x: string, early: bool)
    requires Read(x)
    ensures G.GraphOk(Net(x, early))
  {
    hide G.NodeShaped, G.IsFinal, G.PartsUnshared;
    Names();
    NetUnshared(x, early);
    OutputUnread(x, early);
    ScoreIsFinal(x, early);
    var g := Net(x, early);
    forall i | 0 <= i < 4
      ensures G.NodeShaped(g, g.nodes[i]) && g.nodes[i].out !in g.inputs
    {
      NetShaped(x, early, i);
    }
    assert LENS["index"] == 1 && LENS["d"] == 16;
  }

  /** A Gather's part must be read before its Concat for the reference, a graph input after it for everyone. */
  lemma NetSafeIff(x: string, early: bool)
    requires Read(x)
    ensures G.PartsSafe(Net(x, early)) <==> !(x == "d" && early)
    ensures G.ReadsTimely(Net(x, early)) <==> !(x == "e" && !early)
  {
    Names();
    var g := Net(x, early);
    assert G.Stale(g, 0) == {} && G.Stale(g, 1) == {};
    assert G.Stale(g, 2) == if early then {} else G.Aliases(g, 1, "e");
    assert G.Stale(g, 3) == if early then G.Aliases(g, 2, "e") else G.Stale(g, 2);
    assert G.Aliases(g, 0, "e") == {"e"} && G.Aliases(g, 1, "e") == {"e"} && G.Aliases(g, 2, "e") == {"e"};
    assert JOIN.ins[1] == "d";
    assert G.SafeAt(g, 0) && G.SafeAt(g, 3) && G.TimelyAt(g, 0) && G.TimelyAt(g, 3);
    if early {
      assert G.SafeAt(g, 1) && G.TimelyAt(g, 1) && G.TimelyAt(g, 2);
      assert G.SafeAt(g, 2) <==> x == "e";
    } else {
      assert G.SafeAt(g, 1) && G.TimelyAt(g, 1) && G.SafeAt(g, 2);
      assert G.TimelyAt(g, 2) <==> x == "d";
    }
  }

  lemma NetPins(x: string, early: bool)
    ensures var (e, pins) := PinsAfter(Net(x, early), 4); e == 32 && "c" in pins && "e" in pins && "d" in pins
  {
    Parts();
    Names();
    var g := Net(x, early);
    assert PinsAfter(g, 0) == (0, map[]);
    assert PinsAfter(g, 1) == (0, map[]);
    assert PartPins(g, map[], ["e", "d"], 1, 0) == map["e" := 0];
    assert PinsAfter(g, 2).0 == if early then 0 else 32;
    assert PinsAfter(g, 3).0 == 32;
    assert PinsAfter(g, 4) == PinsAfter(g, 3);
  }

  lemma NetPinnable(x: string, early: bool, c: Ctx)
    requires c.g == Net(x, early)
    ensures AllPinnable(c)
  {
    Parts();
    assert c.g.nodes[0].GatherNode? && c.g.nodes[0].out == "e";
    forall q: nat | IsConcat(c, q)
      ensures Pinnable(c, q)
    {
      assert c.g.nodes[q] == JOIN;
      assert Sourced(c, "e") && Sourced(c, "d");
    }
  }

  lemma SlotSize(x: string, early: bool)
    ensures Biggest(Net(x, early), 4) <= 576
  {
    assert Pad16(1) == 16 && Pad16(32) == 32 && Pad16(16) == 16;
    var g := Net(x, early);
    assert WeightArea(SCORE) == 512 && WeightArea(Probe(x)) == 256;
    assert Biggest(g, 0) == 0 && Biggest(g, 1) == 0 && Biggest(g, 2) <= 576 && Biggest(g, 3) <= 576;
  }

  /** Lowering accepts them all, resident or streaming. */
  lemma NetIsAccepted(x: string, early: bool, streaming: bool)
    requires Read(x)
    ensures Accepted(Net(x, early), streaming, DDR2_BYTES)
  {
    hide AllPinnable, AllShaped, Run, PinsAfter, Biggest, G.GraphOk, G.Named;
    NetIsOk(x, early);
    var c := Reserved(Net(x, early), streaming);
    NetPins(x, early);
    NetPinnable(x, early, c);
    G.OkIsNamed(c.g);
    ShapedAll(c);
    SlotSize(x, early);
    NetRun(x, early, c);
    assert c.g.nodes[3].MatMulNode?;
  }

  /** Before each node: known tensors, and how far the layout may have grown. */
  predicate Going(w: Walk, known: set<string>, end: nat) {
    (forall t :: t in known ==> t in w.produced) && w.p.layoutEnd <= end
  }

  lemma NetRun(x: string, early: bool, c: Ctx)
    requires Read(x) && c.g == Net(x, early) && AllShaped(c) && c.walkStart <= 2000 && "e" in c.pins
    ensures Run(c, Start(c), 4).Ok? && Run(c, Start(c), 4).value.p.layoutEnd <= DDR2_BYTES
  {
    hide GatherAfter, ConcatAfter, MatMulAfter, AllShaped, Net, Emit;
    var w0 := Start(c);
    RunStep(x, early, c, 0, w0, {}, 2000);
    var w1 := Run(c, w0, 1).value;
    RunStep(x, early, c, 1, w1, {"e"}, 5000);
    var w2 := Run(c, w0, 2).value;
    RunStep(x, early, c, 2, w2, if early then {"e"} else {"e", "c"}, 8000);
    var w3 := Run(c, w0, 3).value;
    RunStep(x, early, c, 3, w3, {"c"}, 11000);
  }

  /** One node emitted. */
  lemma RunStep(x: string, early: bool, c: Ctx, k: nat, w: Walk, known: set<string>, end: nat)
    requires Read(x) && c.g == Net(x, early) && AllShaped(c) && "e" in c.pins && k < 4 && end <= 20000
    requires Going(w, known, end) && Run(c, Start(c), k) == Ok(w)
    requires k == 3 ==> "c" in known
    requires k > 0 && k < 3 ==> "e" in known
    ensures Run(c, Start(c), k + 1).Ok?
    ensures Going(Run(c, Start(c), k + 1).value, known + (if k == 0 then {"e"} else if c.g.nodes[k] == JOIN then {"c"}
      else {}), end + 3000)
  {
    hide GatherAfter, ConcatAfter, MatMulAfter, AllShaped, Net, Run;
    ShapedOne(c, k);
    if k == 0 {
      GatherEnd(c, w);
    } else if c.g.nodes[k] == JOIN {
      assert JOIN.ins[0] == "e" && JOIN.ins[1] == "d";
      ConcatEnd(c, w, k);
    } else {
      MatMulEnd(c, w, k, FcCount(c.g, k));
      MatMulKnows(c, w, k, FcCount(c.g, k));
    }
    assert Run(c, Start(c), k + 1) == Emit(c, w, k, FcCount(c.g, k)) by { RunIs(c, k); }
  }

  lemma RunIs(c: Ctx, k: nat)
    requires AllShaped(c) && k < |c.g.nodes| && Run(c, Start(c), k).Ok?
    ensures Shaped(c, k) && Run(c, Start(c), k + 1) == Emit(c, Run(c, Start(c), k).value, k, FcCount(c.g, k))
  {
    hide Emit;
    ShapedOne(c, k);
  }

  lemma GatherEnd(c: Ctx, w: Walk)
    requires |c.g.nodes| > 0 && c.g.nodes[0] == EMBED && Shaped(c, 0)
    ensures var v := GatherAfter(c, w, 0);
            v.p.layoutEnd <= w.p.layoutEnd + 200 && "e" in v.produced && forall t :: t in w.produced ==> t in v.produced
  {
    hide G.IsPart, Stored, G.PadRows;
    GatherIs(c, w, 0);
    assert |TableBytes(EMBED)| == 32;
  }

  lemma ConcatEnd(c: Ctx, w: Walk, k: nat)
    requires k < |c.g.nodes| && c.g.nodes[k] == JOIN && Shaped(c, k)
    ensures var v := ConcatAfter(c, w, k);
            v.p.layoutEnd == w.p.layoutEnd && "c" in v.produced && forall t :: t in w.produced ==> t in v.produced
  {
    hide PartsAfter;
  }

  lemma MatMulEnd(c: Ctx, w: Walk, k: nat, f: nat)
    requires k < |c.g.nodes| && Shaped(c, k) && c.g.nodes[k].MatMulNode? && c.g.nodes[k].N == 1 && c.g.nodes[k].K <= 32
    ensures MatMulAfter(c, w, k, f).p.layoutEnd <= w.p.layoutEnd + 2500
  {
    hide FcProgram, FcRecord, G.IsFinal, MatMulAfter, DenseAfter, WeightBytes;
    EndsGrow(c, w, k, f);
    var n := c.g.nodes[k];
    WeightsSize(n);
    assert Pad16(1) == 16 && Pad16(n.K) <= 32;
    assert |WeightBytes(n)| <= 512;
  }

  lemma MatMulKnows(c: Ctx, w: Walk, k: nat, f: nat)
    requires k < |c.g.nodes| && Shaped(c, k) && c.g.nodes[k].MatMulNode?
    ensures forall t :: t in w.produced ==> t in MatMulAfter(c, w, k, f).produced
  {
    hide FcProgram, FcRecord, G.IsFinal, G.ChainOut;
  }

  /** What lowering makes of the four graphs: three well-formed programs, two of which the reference can run. */
  lemma NetWellFormedIff(x: string, early: bool, streaming: bool, p: Program)
    requires Read(x) && CtxOk(Reserved(Net(x, early), streaming)) && AllShaped(Reserved(Net(x, early), streaming))
    requires Lowered(Reserved(Net(x, early), streaming), p) && p.layoutEnd <= DDR2_BYTES
    ensures WellFormed(p) <==> !(x == "d" && early)
    ensures WellFormed(p) && ReferenceRuns(p) <==> (x == "e" <==> early)
  {
    hide AllPinnable, AllShaped, CtxOk, Lowered, WellFormed, ReferenceRuns, Reserved, G.PartsSafe, G.ReadsTimely;
    NetSafeIff(x, early);
    var c := Reserved(Net(x, early), streaming);
    ReservedFor(Net(x, early), streaming);
    WellFormedIff(c, p);
    if G.PartsSafe(c.g) {
      ReferenceRunsIff(c, p);
    }
  }
}
