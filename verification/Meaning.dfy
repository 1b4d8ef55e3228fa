/** What a quantised graph computes, by tensor names alone, and how vectors by address follow it while a program
    grows. */
module Meaning {
  import opened Bytes
  import opened Kernels
  import opened Program
  import opened Layout
  import Requant
  import G = Graph

  // ----- the graph's own semantics -----

  type Env = map<string, seq<byte>>

  /** A computed tensor, else what the caller feeds. */
  function Value(env: Env, feed: Feed, t: string): seq<byte> {
    if t in env then env[t] else if t in feed then feed[t] else []
  }

  /** The bias of output m, if an Add is fused. */
  function Bias(g: G.Graph, k: nat, m: nat): int
    requires k < |g.nodes| && g.nodes[k].MatMulNode?
  {
    if G.FusedAdd(g, k) >= 0 && m < |g.nodes[k].biases| then Wrap32(g.nodes[k].biases[m]) else 0
  }

  /** The accumulator of output m: the product sum of weight row m and the vector. */
  function Acc(n: G.Node, x: seq<byte>, m: nat): int
    requires n.MatMulNode?
  {
    if m < |n.weights| && |n.weights[m]| == |x| then Wrap32(DotExact(n.weights[m], 0, x, 0, |x|)) else 0
  }

  /** MatMul with its fused Add and Relu, requantised. */
  function Hidden(g: G.Graph, k: nat, x: seq<byte>): seq<byte>
    requires k < |g.nodes| && g.nodes[k].MatMulNode?
  {
    var n := g.nodes[k];
    var scale := Requant.Params(n.ratio);
    seq(n.N, m requires 0 <= m < n.N => U8(Epi(Acc(n, x, m), Bias(g, k, m), scale.0, scale.1, G.FusedRelu(g, k) >= 0)))
  }

  /** MatMul with its fused Add, as INT32. */
  function ChainSums(g: G.Graph, k: nat, x: seq<byte>): (out: seq<int>)
    requires k < |g.nodes| && g.nodes[k].MatMulNode?
    ensures |out| == g.nodes[k].N
  {
    var n := g.nodes[k];
    seq(n.N, m requires 0 <= m < n.N => Wrap32(Acc(n, x, m) + Bias(g, k, m)))
  }

  function Rectified(s: seq<int>): (r: seq<int>)
    ensures |r| == |s| && forall m :: 0 <= m < |s| ==> r[m] == if s[m] < 0 then 0 else s[m]
  {
    seq(|s|, m requires 0 <= m < |s| => if s[m] < 0 then 0 else s[m])
  }

  function Joined(env: Env, feed: Feed, ins: seq<string>): seq<byte> {
    if ins == [] then [] else Joined(env, feed, ins[..|ins| - 1]) + Value(env, feed, ins[|ins| - 1])
  }

  function Row(n: G.Node, feed: Feed): seq<byte>
    requires n.GatherNode?
  {
    if n.index in feed && |feed[n.index]| >= 4 && 0 <= RdI32(feed[n.index], 0) < |n.table|
      then n.table[RdI32(feed[n.index], 0)] else []
  }

  /** The INT8 tensors after the first k nodes; a fused chain yields its last tensor at its MatMul. */
  function EnvAt(g: G.Graph, feed: Feed, k: nat): Env
    requires k <= |g.nodes|
  {
    if k == 0 then map[]
    else
      var env := EnvAt(g, feed, k - 1);
      match g.nodes[k - 1]
      case GatherNode(_, _, _, _, out) => env[out := Row(g.nodes[k - 1], feed)]
      case ConcatNode(_, ins, out) => env[out := Joined(env, feed, ins)]
      case MatMulNode(_, x, _, _, _, _, _, _) =>
        if G.IsFinal(g, k - 1) then env else env[G.ChainOut(g, k - 1) := Hidden(g, k - 1, Value(env, feed, x))]
      case IdentityNode(_, input, out) => env[out := Value(env, feed, input)]
      case AddNode(_, _, _) => env
      case ReluNode(_, _, _) => env
      case OtherNode(_, _, _) => env
  }

  /** The sums of MatMul k. */
  function SumsAt(g: G.Graph, feed: Feed, k: nat): (out: seq<int>)
    requires k < |g.nodes| && g.nodes[k].MatMulNode?
    ensures |out| == g.nodes[k].N
  {
    ChainSums(g, k, Value(EnvAt(g, feed, k), feed, g.nodes[k].x))
  }

  /** The MatMul whose chain yields the graph's output, or -1. */
  function LastMatMul(g: G.Graph, k: nat): (m: int)
    requires k <= |g.nodes|
    ensures -1 <= m < k && (m >= 0 ==> g.nodes[m].MatMulNode?)
  {
    if k == 0 then -1 else if g.nodes[k - 1].MatMulNode? then k - 1 else LastMatMul(g, k - 1)
  }

  /** A Relu ends the output chain. */
  predicate RectifiedOutput(g: G.Graph) {
    var m := LastMatMul(g, |g.nodes|);
    m >= 0 && G.FusedRelu(g, m) >= 0
  }

  /** What is left to do to the output chain's sums: its Relu, if it has one. */
  function Activated(g: G.Graph, sums: seq<int>): seq<int> {
    if RectifiedOutput(g) then Rectified(sums) else sums
  }

  /** What the graph computes from a feed: MatMul, Add and Relu of its output chain. */
  function GraphOutput(g: G.Graph, feed: Feed): seq<int> {
    var m := LastMatMul(g, |g.nodes|);
    if m >= 0 then Activated(g, SumsAt(g, feed, m)) else []
  }

  /** Only node outputs are ever computed, so a graph input always has the fed value. */
  lemma {:induction false} EnvKeys(g: G.Graph, feed: Feed, k: nat, t: string)
    requires k <= |g.nodes| && t in EnvAt(g, feed, k)
    ensures exists i :: 0 <= i < |g.nodes| && g.nodes[i].out == t
  {
    hide G.FusedAdd, G.FusedRelu, G.IsFinal, Hidden, Joined, Row, Value;
    if k > 0 {
      if t in EnvAt(g, feed, k - 1) {
        EnvKeys(g, feed, k - 1, t);
      } else {
        assert g.nodes[k - 1].out == g.nodes[k - 1].out;
      }
    }
  }

  lemma InputValue(g: G.Graph, feed: Feed, k: nat, t: string)
    requires G.GraphOk(g) && k <= |g.nodes| && t in g.inputs && t in feed
    ensures Value(EnvAt(g, feed, k), feed, t) == feed[t]
  {
    hide EnvAt, G.NodeShaped, G.PartsUnshared, G.IsFinal;
    if t in EnvAt(g, feed, k) {
      EnvKeys(g, feed, k, t);
    }
  }

  // ----- vectors of a growing program -----

  /** `run_reference`'s vectors by address, for a program without an output layer yet. */
  function Vecs(p: Program, feed: Feed, n: nat): (v: map<nat, seq<byte>>)
    requires Partial(p) && FeedOk(p, feed) && n <= |p.layers|
    ensures Typed(v, Shapes(p, n))
  {
    if n == 0 then DenseVecs(p.inputs, feed)
    else
      assert LayerOk(p, n - 1);
      RefStep(p, feed, n - 1, Vecs(p, feed, n - 1))
  }

  lemma {:induction false} VecsAreRef(p: Program, feed: Feed, n: nat)
    requires Partial(p) && WellFormed(p) && FeedOk(p, feed) && n <= |p.layers|
    ensures Vecs(p, feed, n) == RefVecs(p, feed, n)
  {
    hide RefStep, DenseVecs, LayerOk, Shapes, SegmentsOk, InputsOk, WritesOk, OutputOk;
    if n > 0 {
      VecsAreRef(p, feed, n - 1);
      assert LayerOk(p, n - 1);
    }
  }

  /** Layer L finds the same constants in both programs. */
  ghost predicate ConstsKept(p: Program, q: Program, L: Layer) {
    && |p.image| <= |q.image| && (forall i :: 0 <= i < |p.image| ==> q.image[i] == p.image[i])
    && (L.Gather? ==> TableOff(q, L) == TableOff(p, L))
    && (L.Fc? ==> WeightOff(q, L) == WeightOff(p, L) && BiasOff(q, L) == BiasOff(p, L))
  }

  /** q extends p by layers, by constants of other layers, or by an input at an address no layer reads. */
  ghost predicate Grown(p: Program, q: Program, skip: int) {
    && |p.layers| <= |q.layers| && q.layers[..|p.layers|] == p.layers
    && (q.inputs == p.inputs || (|q.inputs| == |p.inputs| + 1 && q.inputs[..|p.inputs|] == p.inputs
        && (q.inputs[|p.inputs|].DenseInput? ==> q.inputs[|p.inputs|].addr == skip)))
    && forall n :: 0 <= n < |p.layers| ==>
         ConstsKept(p, q, p.layers[n]) && forall a: nat :: ReadsAt(p.layers[n], a) ==> a != skip
  }

  /** Vectors that agree wherever layer L reads. */
  ghost predicate SameReads(L: Layer, v: map<nat, seq<byte>>, v': map<nat, seq<byte>>) {
    forall a: nat :: ReadsAt(L, a) && a in v ==> a in v' && v'[a] == v[a]
  }

  lemma {:induction false} PartsAgree(p: Program, q: Program, n: nat, feed: Feed, parts: seq<Part>, base: nat,
          v: map<nat, seq<byte>>, v': map<nat, seq<byte>>)
    requires n <= |p.layers| && n <= |q.layers| && FeedOk(p, feed) && FeedOk(q, feed) && Tiled(p, n, parts, base)
             && Tiled(q, n, parts, base)
    requires Typed(v, Shapes(p, n)) && Typed(v', Shapes(q, n))
    requires forall j :: 0 <= j < |parts| && parts[j].addr in v ==>
               parts[j].addr in v'
               && v'[parts[j].addr] == v[parts[j].addr]
    ensures ConcatParts(q, n, parts, base, v', feed) == ConcatParts(p, n, parts, base, v, feed)
  {
    hide Shapes;
    if parts != [] {
      var front := parts[..|parts| - 1];
      assert forall j :: 0 <= j < |front| ==> front[j] == parts[j];
      PartsAgree(p, q, n, feed, front, base, v, v');
    }
  }

  lemma RowAgree(p: Program, q: Program, n: nat, feed: Feed)
    requires n < |p.layers| && n < |q.layers| && p.layers[n] == q.layers[n] && p.layers[n].Gather? && LayerOk(p, n)
             && LayerOk(q, n)
    requires FeedOk(p, feed) && FeedOk(q, feed) && ConstsKept(p, q, p.layers[n])
    ensures TableRow(q, n, feed) == TableRow(p, n, feed)
  {
    hide FindSeg, Pad16, RdI32;
    var L := p.layers[n];
    var idx := RowIndex(L, feed);
    assert InputFed(IndexInput(L.indexInput, L.idxAddr, L.rows), feed);
    RowBound(idx, L.rows, L.dimBytes);
  }

  lemma AccAgree(p: Program, q: Program, n: nat, x: seq<byte>, m: nat)
    requires n < |p.layers| && n < |q.layers| && p.layers[n] == q.layers[n] && p.layers[n].Fc? && LayerOk(p, n)
             && LayerOk(q, n)
    requires ConstsKept(p, q, p.layers[n]) && |x| == p.layers[n].K && m < p.layers[n].Mpad
    ensures AccOf(q, n, x, m) == AccOf(p, n, x, m) && BiasOf(q, n, m) == BiasOf(p, n, m)
  {
    hide Pad16, RdI32, DotAt, Shapes, Clear, SegIs, TableOff, WeightOff, BiasOff;
    var L := p.layers[n];
    BiasThere(p, n, m);
    RowBound(m, L.Mpad, L.Kpad);
    assert RowPadded(p.image, WeightOff(p, L), m, L.K, L.Kpad) && RowPadded(q.image, WeightOff(q, L), m, L.K, L.Kpad);
    var at := WeightOff(p, L) + m * L.Kpad;
    var y := x + Zeros(L.Kpad - L.K);
    DotAgree(p.image, at, y, 0, q.image, at, y, 0, L.Kpad, L.Kpad);
    RdFrame(q.image, BiasOff(q, L) + 4 * m, p.image, BiasOff(p, L) + 4 * m);
  }

  lemma BiasThere(p: Program, n: nat, m: nat)
    requires n < |p.layers| && p.layers[n].Fc? && LayerOk(p, n) && m < p.layers[n].Mpad
    ensures BiasOff(p, p.layers[n]) + 4 * m + 4 <= |p.image|
  {
    hide Pad16, Shapes, Clear, RowPadded, FindSeg;
  }

  lemma FcAgree(p: Program, q: Program, n: nat, x: seq<byte>)
    requires n < |p.layers| && n < |q.layers| && p.layers[n] == q.layers[n] && p.layers[n].Fc? && LayerOk(p, n)
             && LayerOk(q, n)
    requires ConstsKept(p, q, p.layers[n]) && |x| == p.layers[n].K
    ensures FcVec(q, n, x) == FcVec(p, n, x)
  {
    hide LayerOk, ConstsKept, AccOf, BiasOf, Epi;
    var L := p.layers[n];
    PadCovers(p, n);
    forall m | 0 <= m < L.N
      ensures FcVec(q, n, x)[m] == FcVec(p, n, x)[m]
    {
      AccAgree(p, q, n, x, m);
    }
  }

  lemma PadCovers(p: Program, n: nat)
    requires n < |p.layers| && LayerOk(p, n) && p.layers[n].Fc?
    ensures p.layers[n].N <= p.layers[n].Mpad
  {
    hide FindSeg, Shapes, RowPadded, Clear;
  }

  /** A layer of both programs computes the same vector from vectors that agree where it reads. */
  lemma StepAgree(p: Program, q: Program, n: nat, feed: Feed, v: map<nat, seq<byte>>, v': map<nat, seq<byte>>)
    requires n < |p.layers| && n < |q.layers| && p.layers[n] == q.layers[n] && LayerOk(p, n) && LayerOk(q, n)
    requires FeedOk(p, feed) && FeedOk(q, feed) && Typed(v, Shapes(p, n)) && Typed(v', Shapes(q, n))
    requires ConstsKept(p, q, p.layers[n]) && SameReads(p.layers[n], v, v')
    ensures forall a :: a in RefStep(p, feed, n, v) && (a in v ==> a in v' && v'[a] == v[a]) ==>
              a in RefStep(q, feed, n, v') && RefStep(q, feed, n, v')[a] == RefStep(p, feed, n, v)[a]
  {
    hide ConstsKept, TableRow, FcVec, SegIs, RowPadded, Clear, Shapes, Pad16, FindSeg;
    match p.layers[n]
    case Gather(_, _, _, _, _, _, _, _) => RowAgree(p, q, n, feed);
    case Concat(_, parts, outAddr, _) =>
      forall j | 0 <= j < |parts| && parts[j].addr in v
        ensures parts[j].addr in v' && v'[parts[j].addr] == v[parts[j].addr]
      {
        assert ReadsAt(p.layers[n], parts[j].addr);
      }
      PartsAgree(p, q, n, feed, parts, outAddr, v, v');
    case Fc(_, inAddr, _, _, _, _, _, _, _, _, _, _, _, _, _) =>
      assert ReadsAt(p.layers[n], inAddr);
      FcAgree(p, q, n, v[inAddr][..p.layers[n].K]);
  }

  lemma DenseGrown(p: Program, q: Program, feed: Feed, skip: int, a: nat)
    requires Grown(p, q, skip) && FeedOk(p, feed) && FeedOk(q, feed) && a != skip
    ensures a in DenseVecs(p.inputs, feed) ==>
              a in DenseVecs(q.inputs, feed)
              && DenseVecs(q.inputs, feed)[a] == DenseVecs(p.inputs, feed)[a]
  {
    hide ConstsKept, ReadsAt;
  }

  /** What p computes at an address, q computes too, except at the new input's. */
  lemma {:induction false} VecsGrown(p: Program, q: Program, feed: Feed, skip: int, n: nat, a: nat)
    requires Partial(p) && Partial(q) && Grown(p, q, skip) && FeedOk(p, feed) && FeedOk(q, feed) && n <= |p.layers|
             && a != skip
    ensures a in Vecs(p, feed, n) ==> a in Vecs(q, feed, n) && Vecs(q, feed, n)[a] == Vecs(p, feed, n)[a]
  {
    hide RefStep, DenseVecs, LayerOk, Shapes, SegmentsOk, InputsOk, WritesOk, ConstsKept, ReadsAt, FeedOk, Grown;
    if n == 0 {
      DenseGrown(p, q, feed, skip, a);
    } else {
      GrownAt(p, q, skip, n - 1);
      assert LayerOk(p, n - 1) && LayerOk(q, n - 1);
      VecsGrown(p, q, feed, skip, n - 1, a);
      var L, v, v' := p.layers[n - 1], Vecs(p, feed, n - 1), Vecs(q, feed, n - 1);
      forall b: nat | ReadsAt(L, b) && b in v
        ensures b in v' && v'[b] == v[b]
      {
        VecsGrown(p, q, feed, skip, n - 1, b);
      }
      StepAgree(p, q, n - 1, feed, v, v');
    }
  }

  lemma GrownAt(p: Program, q: Program, skip: int, n: nat)
    requires Grown(p, q, skip) && n < |p.layers|
    ensures |p.layers| <= |q.layers| && p.layers[n] == q.layers[n] && ConstsKept(p, q, p.layers[n])
            && forall a: nat :: ReadsAt(p.layers[n], a) ==> a != skip
  {
    hide ConstsKept, ReadsAt;
    assert q.layers[n] == q.layers[..|p.layers|][n];
  }

  // ----- the three ways to grow -----

  lemma GrownSegment(p: Program, s: Segment, data: seq<byte>, end: nat)
    requires Partial(p) && Partial(WithSegment(p, s, data, end))
             && forall n :: 0 <= n < |p.layers| ==> p.layers[n].name != s.layer
    ensures Grown(p, WithSegment(p, s, data, end), -1)
  {
    hide SegmentsOk, InputsOk, WritesOk, LayerOk, ReadsAt;
    forall n | 0 <= n < |p.layers|
      ensures ConstsKept(p, WithSegment(p, s, data, end), p.layers[n])
    {
      assert LayerOk(p, n);
      ConstsMoreSegment(p, s, data, end, n);
    }
  }

  lemma ConstsMoreSegment(p: Program, s: Segment, data: seq<byte>, end: nat, n: nat)
    requires n < |p.layers| && LayerOk(p, n) && p.layers[n].name != s.layer
    ensures ConstsKept(p, WithSegment(p, s, data, end), p.layers[n])
  {
    hide RowPadded, Clear, Shapes, Pad16, FindSeg, Tiled;
    var L := p.layers[n];
    if L.Gather? {
      SegIsMore(p, s, data, end, L.name, TableSeg, L.tableAddr, L.rows * L.dimBytes);
    } else if L.Fc? {
      SegIsMore(p, s, data, end, L.name, WeightSeg, L.wAddr, L.Mpad * L.Kpad);
      SegIsMore(p, s, data, end, L.name, BiasSeg, L.bAddr, 4 * L.Mpad);
    }
  }

  lemma GrownInput(p: Program, i: InputSpec, end: nat)
    requires forall n :: 0 <= n < |p.layers| ==> (i.DenseInput? ==> !ReadsAt(p.layers[n], i.addr))
    ensures Grown(p, WithInput(p, i, end), if i.DenseInput? then i.addr else -1)
  {
    hide ReadsAt;
  }

  lemma GrownLayer(p: Program, L: Layer, end: nat)
    ensures Grown(p, WithLayer(p, L, end), -1)
  {
    hide ReadsAt;
  }

  /** A feed for the grown program feeds the smaller one. */
  lemma FeedLess(p: Program, q: Program, skip: int, feed: Feed)
    requires Grown(p, q, skip) && FeedOk(q, feed)
    ensures FeedOk(p, feed)
  {
    hide ConstsKept, ReadsAt, InputFed;
    forall j | 0 <= j < |p.inputs|
      ensures InputFed(p.inputs[j], feed)
    {
      assert q.inputs[j] == p.inputs[j];
    }
  }
}
