/** The graph read node by node, without chains: fusing MatMul, Add and Relu changes nothing. */
module Fusion {
  import opened Bytes
  import opened Kernels
  import opened Program
  import opened Meaning
  import Requant
  import G = Graph

  /** A tensor is INT8, or the INT32 sums of a MatMul with what is needed to go on: the bias an Add would bring in, the
      ratio to INT8, and whether it has been rectified. */
  datatype Tensor =
    | Int8(v: seq<byte>)
    | Int32(sums: seq<int>, biases: seq<int>, ratio: real, relu: bool)
  {
    /** As a MatMul or a Concat reads it. */
    function Narrow(): seq<byte> {
      match this
      case Int8(v) => v
      case Int32(sums, _, ratio, relu) =>
        var scale := Requant.Params(ratio);
        seq(|sums|, m requires 0 <= m < |sums| => U8(Epi(sums[m], 0, scale.0, scale.1, relu)))
    }

    /** As the graph returns it. */
    function Wide(): seq<int> {
      match this
      case Int8(_) => []
      case Int32(sums, _, _, relu) =>
        if relu then Rectified(Wrapped(sums)) else Wrapped(sums)
    }

    function PlusBias(): Tensor {
      match this
      case Int8(_) => this
      case Int32(sums, biases, _, _) =>
        this.(sums := seq(|sums|, m requires 0 <= m < |sums| =>
          sums[m] + if m < |biases| then Wrap32(biases[m]) else 0))
    }

    function WithRelu(): Tensor {
      if Int8? then this else this.(relu := true)
    }
  }

  function Wrapped(s: seq<int>): (r: seq<int>)
    ensures |r| == |s| && forall m :: 0 <= m < |s| ==> r[m] == Wrap32(s[m])
  {
    seq(|s|, m requires 0 <= m < |s| => Wrap32(s[m]))
  }

  type Tensors = map<string, Tensor>

  function Read(e: Tensors, feed: Feed, t: string): Tensor {
    if t in e then e[t] else if t in feed then Int8(feed[t]) else Int8([])
  }

  function Concatenated(e: Tensors, feed: Feed, ins: seq<string>): seq<byte> {
    if ins == [] then []
    else Concatenated(e, feed, ins[..|ins| - 1]) + Read(e, feed, ins[|ins| - 1]).Narrow()
  }

  /** The operand of an Add that is no initialiser. */
  function Operand(g: G.Graph, ins: seq<string>): string {
    if ins == [] then "" else if ins[0] !in g.inits then ins[0] else Operand(g, ins[1..])
  }

  function Products(n: G.Node, v: seq<byte>): (r: seq<int>)
    requires n.MatMulNode?
    ensures |r| == n.N && forall m :: 0 <= m < n.N ==> r[m] == Acc(n, v, m)
  {
    seq(n.N, m requires 0 <= m < n.N => Acc(n, v, m))
  }

  /** What node k yields. */
  function Yield(g: G.Graph, feed: Feed, k: nat, e: Tensors): Tensor
    requires k < |g.nodes|
  {
    var n := g.nodes[k];
    match n
    case GatherNode(_, _, _, _, _) => Int8(Row(n, feed))
    case ConcatNode(_, ins, _) => Int8(Concatenated(e, feed, ins))
    case MatMulNode(_, x, _, _, _, biases, ratio, _) =>
      var v := Read(e, feed, x).Narrow();
      Int32(Products(n, v), biases, ratio, false)
    case AddNode(_, ins, _) => Read(e, feed, Operand(g, ins)).PlusBias()
    case ReluNode(_, input, _) => Read(e, feed, input).WithRelu()
    case IdentityNode(_, input, _) => Read(e, feed, input)
    case OtherNode(_, _, _) => Int8([])
  }

  /** All tensors after the first k nodes. */
  function TensorsAt(g: G.Graph, feed: Feed, k: nat): Tensors
    requires k <= |g.nodes|
  {
    if k == 0 then map[]
    else
      var e := TensorsAt(g, feed, k - 1);
      e[g.nodes[k - 1].out := Yield(g, feed, k - 1, e)]
  }

  /** The graph's output, node by node. */
  function NodeOutput(g: G.Graph, feed: Feed): seq<int> {
    Read(TensorsAt(g, feed, |g.nodes|), feed, g.output).Wide()
  }

  // ----- which graphs -----

  predicate Before(g: G.Graph, k: nat, t: string) {
    exists i :: 0 <= i < k && i < |g.nodes| && g.nodes[i].out == t
  }

  /** Nodes come in topological order. */
  ghost predicate Sorted(g: G.Graph) {
    forall k, t :: 0 <= k < |g.nodes| && t in G.Reads(g.nodes[k]) ==> t in g.inputs || t in g.inits || Before(g, k, t)
  }

  /** An Add has two operands, and only an Add has a constant among its operands. */
  ghost predicate OperandsOk(g: G.Graph) {
    && (forall i :: 0 <= i < |g.nodes| && g.nodes[i].AddNode? ==> |g.nodes[i].ins| == 2)
    && (forall k, t :: 0 <= k < |g.nodes| && t in G.Reads(g.nodes[k]) && t in g.inits ==> g.nodes[k].AddNode?)
  }

  /** What the ONNX format asks of a graph anyway. */
  ghost predicate Onnx(g: G.Graph) {
    Sorted(g) && OperandsOk(g)
  }

  /** Every Add and Relu is fused. */
  ghost predicate AllFused(g: G.Graph) {
    forall i :: 0 <= i < |g.nodes| ==>
        !g.nodes[i].OtherNode? && (g.nodes[i].AddNode? || g.nodes[i].ReluNode? ==> G.Fused(g, i))
  }

  ghost predicate GraphFit(g: G.Graph) {
    G.GraphOk(g) && Onnx(g) && AllFused(g)
  }

  // ----- chains -----

  /** What MatMul j reads. */
  function X(g: G.Graph, feed: Feed, j: nat): seq<byte>
    requires j < |g.nodes| && g.nodes[j].MatMulNode?
  {
    Value(EnvAt(g, feed, j), feed, g.nodes[j].x)
  }

  function Product(g: G.Graph, feed: Feed, j: nat): Tensor
    requires j < |g.nodes| && g.nodes[j].MatMulNode?
  {
    var n := g.nodes[j];
    Int32(Products(n, X(g, feed, j)), n.biases, n.ratio, false)
  }

  /** Behind the fused Add, if there is one. */
  function Sum(g: G.Graph, feed: Feed, j: nat): Tensor
    requires j < |g.nodes| && g.nodes[j].MatMulNode?
  {
    if G.FusedAdd(g, j) >= 0 then Product(g, feed, j).PlusBias() else Product(g, feed, j)
  }

  /** Behind the fused Relu, if there is one. */
  function Chain(g: G.Graph, feed: Feed, j: nat): Tensor
    requires j < |g.nodes| && g.nodes[j].MatMulNode?
  {
    if G.FusedRelu(g, j) >= 0 then Sum(g, feed, j).WithRelu() else Sum(g, feed, j)
  }

  /** The chain's INT8 tensor is what the fused chain computes. */
  lemma ChainNarrow(g: G.Graph, feed: Feed, j: nat)
    requires j < |g.nodes| && g.nodes[j].MatMulNode?
    ensures Chain(g, feed, j).Narrow() == Hidden(g, j, X(g, feed, j))
  {
    hide Acc, X, G.FusedAdd, G.FusedRelu, Requant.Params, U8, Wrap32;
    var n := g.nodes[j];
    forall m | 0 <= m < n.N
      ensures Chain(g, feed, j).Narrow()[m] == Hidden(g, j, X(g, feed, j))[m]
    {
    }
  }

  lemma SumWraps(g: G.Graph, feed: Feed, j: nat)
    requires j < |g.nodes| && g.nodes[j].MatMulNode?
    ensures Sum(g, feed, j).Int32? && Wrapped(Sum(g, feed, j).sums) == SumsAt(g, feed, j)
  {
    hide Acc, EnvAt, Value, G.FusedAdd, Wrap32;
    var s := Sum(g, feed, j).sums;
    forall m | 0 <= m < g.nodes[j].N
      ensures Wrapped(s)[m] == SumsAt(g, feed, j)[m]
    {
      assert s[m] == Acc(g.nodes[j], X(g, feed, j), m) + Bias(g, j, m);
    }
  }

  /** Its INT32 tensor is the graph's output. */
  lemma ChainWide(g: G.Graph, feed: Feed, j: nat)
    requires j < |g.nodes| && g.nodes[j].MatMulNode?
    ensures Chain(g, feed, j).Wide() ==
            if G.FusedRelu(g, j) >= 0 then Rectified(SumsAt(g, feed, j)) else SumsAt(g, feed, j)
  {
    hide Sum, SumsAt, Wrapped, Rectified, G.FusedRelu;
    SumWraps(g, feed, j);
    NotRectified(g, feed, j);
  }

  lemma NotRectified(g: G.Graph, feed: Feed, j: nat)
    requires j < |g.nodes| && g.nodes[j].MatMulNode?
    ensures Sum(g, feed, j).Int32? && !Sum(g, feed, j).relu
  {
    hide Acc, X, G.FusedAdd;
  }

  // ----- names -----

  lemma SameOut(g: G.Graph, i: nat, j: nat)
    requires G.GraphOk(g) && i < |g.nodes| && j < |g.nodes|
    ensures g.nodes[i].out == g.nodes[j].out ==> i == j
    ensures g.nodes[i].out !in g.inputs && g.nodes[i].out !in g.inits && g.output !in G.Reads(g.nodes[i])
  {
    hide G.NodeShaped, G.PartsUnshared, G.IsFinal;
  }

  /** An operand that is a node's output comes from an earlier node. */
  lemma Earlier(g: G.Graph, k: nat, i: nat)
    requires GraphFit(g) && k < |g.nodes| && i < |g.nodes| && g.nodes[i].out in G.Reads(g.nodes[k])
    ensures i < k
  {
    hide G.GraphOk, AllFused, OperandsOk;
    SameOut(g, i, i);
    var j :| 0 <= j < k && j < |g.nodes| && g.nodes[j].out == g.nodes[i].out;
    SameOut(g, i, j);
  }

  /** The fused Add reads the product and a constant. */
  lemma AddReads(g: G.Graph, j: nat)
    requires GraphFit(g) && j < |g.nodes| && g.nodes[j].MatMulNode? && G.FusedAdd(g, j) >= 0
    ensures var a := G.FusedAdd(g, j); j < a && Operand(g, g.nodes[a].ins) == g.nodes[j].out
  {
    hide G.GraphOk, Sorted, AllFused, G.FusedAdd, G.OnlyReader;
    var a := G.FusedAdd(g, j);
    G.FusedAddIff(g, j, a);
    ReaderReads(g, g.nodes[j].out, a);
    Earlier(g, a, j);
    SameOut(g, j, j);
    var ins := g.nodes[a].ins;
    assert |ins| == 2;
    assert ins[1..][0] == ins[1];
  }

  lemma ReaderReads(g: G.Graph, t: string, i: nat)
    requires i < |g.nodes| && G.OnlyReader(g, t, i)
    ensures t in G.Reads(g.nodes[i])
    ensures forall j :: 0 <= j < |g.nodes| && t in G.Reads(g.nodes[j]) ==> j == i
  {
    G.CountPositive(G.Reads(g.nodes[i]), t);
  }

  /** The node whose output a chain's sum is. */
  function SumNode(g: G.Graph, j: nat): (a: nat)
    requires j < |g.nodes|
    ensures a < |g.nodes| && G.SumOut(g, j) == g.nodes[a].out
  {
    if G.FusedAdd(g, j) >= 0 then G.FusedAdd(g, j) else j
  }

  /** The last node of a chain. */
  function Last(g: G.Graph, j: nat): (r: nat)
    requires j < |g.nodes|
    ensures r < |g.nodes| && G.ChainOut(g, j) == g.nodes[r].out
  {
    if G.FusedRelu(g, j) >= 0 then G.FusedRelu(g, j) else SumNode(g, j)
  }

  /** The fused Relu reads the sum. */
  lemma ReluReads(g: G.Graph, j: nat)
    requires GraphFit(g) && j < |g.nodes| && g.nodes[j].MatMulNode? && G.FusedRelu(g, j) >= 0
    ensures var r := G.FusedRelu(g, j); j <= SumNode(g, j) < r && g.nodes[r].input == g.nodes[SumNode(g, j)].out
  {
    hide GraphFit, G.FusedAdd, G.FusedRelu, G.OnlyReader;
    var r := G.FusedRelu(g, j);
    G.FusedReluIff(g, j, r);
    ReaderReads(g, G.SumOut(g, j), r);
    Earlier(g, r, SumNode(g, j));
    if G.FusedAdd(g, j) >= 0 {
      AddReads(g, j);
    }
  }

  lemma LastLater(g: G.Graph, j: nat)
    requires GraphFit(g) && j < |g.nodes| && g.nodes[j].MatMulNode?
    ensures j <= SumNode(g, j) <= Last(g, j)
    ensures Last(g, j) == j || g.nodes[Last(g, j)].AddNode? || g.nodes[Last(g, j)].ReluNode?
  {
    hide GraphFit, G.FusedAdd, G.FusedRelu;
    if G.FusedRelu(g, j) >= 0 {
      ReluReads(g, j);
    } else if G.FusedAdd(g, j) >= 0 {
      AddReads(g, j);
    }
  }

  lemma SumOwner(g: G.Graph, i: nat, j: nat)
    requires GraphFit(g) && i < |g.nodes| && g.nodes[i].MatMulNode? && j < |g.nodes| && g.nodes[j].MatMulNode?
    ensures SumNode(g, i) == SumNode(g, j) ==> i == j
  {
    hide G.GraphOk, Onnx, AllFused, G.FusedAdd;
    if G.FusedAdd(g, i) >= 0 {
      AddReads(g, i);
    }
    if G.FusedAdd(g, j) >= 0 {
      AddReads(g, j);
    }
    SameOut(g, i, j);
  }

  /** Chains end apart. */
  lemma LastOwner(g: G.Graph, i: nat, j: nat)
    requires GraphFit(g) && i < |g.nodes| && g.nodes[i].MatMulNode? && j < |g.nodes| && g.nodes[j].MatMulNode?
    ensures Last(g, i) == Last(g, j) ==> i == j
  {
    hide G.GraphOk, Onnx, AllFused, G.FusedAdd, G.FusedRelu, SumNode;
    if Last(g, i) == Last(g, j) {
      NotRelu(g, i);
      NotRelu(g, j);
      if G.FusedRelu(g, i) >= 0 {
        ReluReads(g, i);
        ReluReads(g, j);
        SameOut(g, SumNode(g, i), SumNode(g, j));
      }
      SumOwner(g, i, j);
    }
  }

  lemma NotRelu(g: G.Graph, j: nat)
    requires j < |g.nodes| && g.nodes[j].MatMulNode?
    ensures !g.nodes[SumNode(g, j)].ReluNode?
  {
    hide G.Sole;
  }

  // ----- what may be read -----

  ghost predicate Ends(g: G.Graph, j: nat, i: nat) {
    j < |g.nodes| && g.nodes[j].MatMulNode? && Last(g, j) == i && !G.IsFinal(g, j)
  }

  /** Node i's output is no chain's intermediate and not the graph's. */
  ghost predicate Open(g: G.Graph, i: nat)
    requires i < |g.nodes|
  {
    match g.nodes[i]
    case GatherNode(_, _, _, _, _) => true
    case ConcatNode(_, _, _) => true
    case IdentityNode(_, _, out) => out != g.output
    case OtherNode(_, _, _) => false
    case _ => exists j: nat :: Ends(g, j, i)
  }

  /** A node that is not fused. */
  predicate Reader(g: G.Graph, k: nat) {
    k < |g.nodes| && !g.nodes[k].AddNode? && !g.nodes[k].ReluNode? && !(g.nodes[k].IdentityNode?
        && g.nodes[k].out == g.output)
  }

  /** The chain node i belongs to. */
  lemma Owner(g: G.Graph, i: nat) returns (j: nat)
    requires GraphFit(g) && i < |g.nodes|
    requires g.nodes[i].MatMulNode? || g.nodes[i].AddNode? || g.nodes[i].ReluNode?
    ensures j < |g.nodes| && g.nodes[j].MatMulNode?
    ensures g.nodes[i].MatMulNode? ==> j == i
    ensures g.nodes[i].AddNode? ==> G.FusedAdd(g, j) == i
    ensures g.nodes[i].ReluNode? ==> G.FusedRelu(g, j) == i
  {
    hide G.GraphOk, Onnx, G.Sole;
    if g.nodes[i].MatMulNode? {
      j := i;
    } else {
      assert G.Fused(g, i);
      j :| 0 <= j < |g.nodes| && g.nodes[j].MatMulNode? && (G.FusedAdd(g, j) == i || G.FusedRelu(g, j) == i);
    }
  }

  /** Whatever such a node reads is open. */
  lemma ReadIsOpen(g: G.Graph, k: nat, i: nat)
    requires GraphFit(g) && Reader(g, k) && i < |g.nodes| && g.nodes[i].out in G.Reads(g.nodes[k])
    ensures Open(g, i)
  {
    hide G.GraphOk, Onnx, G.FusedAdd, G.FusedRelu, G.IsFinal, G.ChainOut;
    SameOut(g, k, k);
    if g.nodes[i].MatMulNode? || g.nodes[i].AddNode? || g.nodes[i].ReluNode? {
      var j := Owner(g, i);
      ReadIsLast(g, k, i, j);
      if G.IsFinal(g, j) {
        G.FinalUnread(g, j, k);
      }
      assert Ends(g, j, i);
    } else {
      assert AllFused(g);
    }
  }

  lemma ReadIsLast(g: G.Graph, k: nat, i: nat, j: nat)
    requires GraphFit(g) && Reader(g, k) && i < |g.nodes| && g.nodes[i].out in G.Reads(g.nodes[k])
    requires j < |g.nodes| && g.nodes[j].MatMulNode?
    requires (g.nodes[i].MatMulNode? && j == i) || (g.nodes[i].AddNode? && G.FusedAdd(g, j) == i)
             || (g.nodes[i].ReluNode? && G.FusedRelu(g, j) == i)
    ensures Last(g, j) == i
  {
    hide GraphFit, G.FusedAdd, G.FusedRelu, G.OnlyReader, Reader;
    Apart(g, k);
    if G.FusedAdd(g, j) >= 0 {
      G.FusedAddIff(g, j, G.FusedAdd(g, j));
      ReaderReads(g, g.nodes[j].out, G.FusedAdd(g, j));
    }
    if G.FusedRelu(g, j) >= 0 {
      G.FusedReluIff(g, j, G.FusedRelu(g, j));
      ReaderReads(g, G.SumOut(g, j), G.FusedRelu(g, j));
    }
  }

  lemma Apart(g: G.Graph, k: nat)
    requires Reader(g, k)
    ensures k < |g.nodes| && !g.nodes[k].AddNode? && !g.nodes[k].ReluNode?
  {
  }

  // ----- the walk -----

  /** Read as INT8, t is what the fused reading says. */
  ghost predicate Agrees(g: G.Graph, feed: Feed, k: nat, t: string)
    requires k <= |g.nodes|
  {
    Read(TensorsAt(g, feed, k), feed, t).Narrow() == Value(EnvAt(g, feed, k), feed, t)
  }

  /** Node i's tensor, if it belongs to a chain, is the chain's. */
  ghost predicate Right(g: G.Graph, feed: Feed, k: nat, i: nat)
    requires i < k <= |g.nodes|
  {
    var e, t := TensorsAt(g, feed, k), g.nodes[i].out;
    && t in e
    && (g.nodes[i].MatMulNode? ==> e[t] == Product(g, feed, i))
    && (forall j :: 0 <= j < |g.nodes| && g.nodes[j].MatMulNode? ==>
          && (g.nodes[i].AddNode? && G.FusedAdd(g, j) == i ==> e[t] == Sum(g, feed, j))
          && (g.nodes[i].ReluNode? && G.FusedRelu(g, j) == i ==> e[t] == Chain(g, feed, j))
          && (g.nodes[i].IdentityNode? && g.nodes[i].input == G.ChainOut(g, j) ==> e[t] == Chain(g, feed, j)))
  }

  ghost predicate Done(g: G.Graph, feed: Feed, k: nat, i: nat)
    requires i < k <= |g.nodes|
  {
    && Right(g, feed, k, i)
    && (Open(g, i) ==> Agrees(g, feed, k, g.nodes[i].out))
    && (g.nodes[i].MatMulNode? && !G.IsFinal(g, i) ==>
          G.ChainOut(g, i) in EnvAt(g, feed, k) && EnvAt(g, feed, k)[G.ChainOut(g, i)] == Hidden(g, i, X(g, feed, i)))
  }

  ghost predicate AllDone(g: G.Graph, feed: Feed, k: nat)
    requires k <= |g.nodes|
  {
    forall i: nat :: i < k ==> Done(g, feed, k, i)
  }

  lemma {:induction false} TensorKeys(g: G.Graph, feed: Feed, k: nat, t: string)
    requires k <= |g.nodes| && t in TensorsAt(g, feed, k)
    ensures Before(g, k, t)
  {
    hide Yield;
    if t in TensorsAt(g, feed, k - 1) {
      TensorKeys(g, feed, k - 1, t);
      var i :| 0 <= i < k - 1 && i < |g.nodes| && g.nodes[i].out == t;
    } else {
      assert g.nodes[k - 1].out == t;
    }
  }

  /** What an unfused node reads agrees. */
  lemma ReadAgrees(g: G.Graph, feed: Feed, k: nat, t: string)
    requires GraphFit(g) && Reader(g, k) && t in G.Reads(g.nodes[k]) && AllDone(g, feed, k)
    ensures Agrees(g, feed, k, t)
  {
    hide G.GraphOk, AllFused, TensorsAt, EnvAt, Right, Open, G.IsFinal, Reader;
    Apart(g, k);
    if i: nat :| i < k && g.nodes[i].out == t {
      ReadIsOpen(g, k, i);
      assert Done(g, feed, k, i);
    } else {
      assert t in g.inputs;
      if t in TensorsAt(g, feed, k) {
        TensorKeys(g, feed, k, t);
      }
      if t in EnvAt(g, feed, k) {
        EnvKeys(g, feed, k, t);
        var i :| 0 <= i < |g.nodes| && g.nodes[i].out == t;
        SameOut(g, i, i);
      }
    }
  }

  lemma {:induction false} JoinedAgrees(g: G.Graph, feed: Feed, k: nat, ins: seq<string>)
    requires k <= |g.nodes| && forall t :: t in ins ==> Agrees(g, feed, k, t)
    ensures Concatenated(TensorsAt(g, feed, k), feed, ins) == Joined(EnvAt(g, feed, k), feed, ins)
  {
    hide TensorsAt, EnvAt, Read, Value;
    if ins != [] {
      JoinedAgrees(g, feed, k, ins[..|ins| - 1]);
      assert ins[|ins| - 1] in ins;
    }
  }

  /** A chain whose last node has been read is complete. */
  lemma ChainThere(g: G.Graph, feed: Feed, k: nat, j: nat)
    requires GraphFit(g) && k <= |g.nodes| && AllDone(g, feed, k) && j < |g.nodes| && g.nodes[j].MatMulNode?
             && Last(g, j) < k
    ensures G.ChainOut(g, j) in TensorsAt(g, feed, k) && TensorsAt(g, feed, k)[G.ChainOut(g, j)] == Chain(g, feed, j)
  {
    hide GraphFit, TensorsAt, EnvAt, Open, G.FusedAdd, G.FusedRelu, G.IsFinal, Product, Agrees;
    assert Done(g, feed, k, Last(g, j));
    FusedKinds(g, j);
  }

  lemma FusedKinds(g: G.Graph, j: nat)
    requires j < |g.nodes|
    ensures G.FusedAdd(g, j) >= 0 ==> g.nodes[G.FusedAdd(g, j)].AddNode?
    ensures G.FusedRelu(g, j) >= 0 ==> g.nodes[G.FusedRelu(g, j)].ReluNode?
  {
    hide G.Sole;
  }

  /** The sum of a chain is complete before its Relu. */
  lemma SumThere(g: G.Graph, feed: Feed, k: nat, j: nat)
    requires GraphFit(g) && k <= |g.nodes| && AllDone(g, feed, k) && j < |g.nodes| && g.nodes[j].MatMulNode?
             && SumNode(g, j) < k
    ensures G.SumOut(g, j) in TensorsAt(g, feed, k) && TensorsAt(g, feed, k)[G.SumOut(g, j)] == Sum(g, feed, j)
  {
    hide GraphFit, TensorsAt, EnvAt, Open, G.FusedAdd, G.FusedRelu, G.IsFinal, Product, Agrees;
    assert Done(g, feed, k, SumNode(g, j));
    FusedKinds(g, j);
  }

  /** Node k's own tensor. */
  lemma NewRight(g: G.Graph, feed: Feed, k: nat)
    requires GraphFit(g) && k < |g.nodes| && AllDone(g, feed, k)
    ensures Right(g, feed, k + 1, k)
  {
    hide GraphFit, AllDone, EnvAt, G.FusedAdd, G.FusedRelu, G.ChainOut, Sum, Chain, Product, Operand, Acc, Value, Read;
    var n, e := g.nodes[k], TensorsAt(g, feed, k);
    if n.MatMulNode? {
      assert G.Reads(n)[0] == n.x;
      ReadAgrees(g, feed, k, n.x);
      ProductIs(g, feed, k, e);
    }
    forall j: nat | j < |g.nodes| && g.nodes[j].MatMulNode?
      ensures n.AddNode? && G.FusedAdd(g, j) == k ==> Yield(g, feed, k, e) == Sum(g, feed, j)
      ensures n.ReluNode? && G.FusedRelu(g, j) == k ==> Yield(g, feed, k, e) == Chain(g, feed, j)
      ensures n.IdentityNode? && n.input == G.ChainOut(g, j) ==> Yield(g, feed, k, e) == Chain(g, feed, j)
    {
      if n.AddNode? && G.FusedAdd(g, j) == k {
        NewSum(g, feed, k, j);
      }
      if n.ReluNode? && G.FusedRelu(g, j) == k {
        NewChain(g, feed, k, j);
      }
      if n.IdentityNode? && n.input == G.ChainOut(g, j) {
        assert G.Reads(n)[0] == n.input;
        Earlier(g, k, Last(g, j));
        ChainThere(g, feed, k, j);
        ReadThere(e, feed, n.input);
      }
    }
  }

  lemma ReadThere(e: Tensors, feed: Feed, t: string)
    requires t in e
    ensures Read(e, feed, t) == e[t]
  {
  }

  lemma ProductIs(g: G.Graph, feed: Feed, k: nat, e: Tensors)
    requires k < |g.nodes| && g.nodes[k].MatMulNode?
    requires Read(e, feed, g.nodes[k].x).Narrow() == Value(EnvAt(g, feed, k), feed, g.nodes[k].x)
    ensures Yield(g, feed, k, e) == Product(g, feed, k)
  {
    hide EnvAt, Value, Read, Products;
  }

  lemma NewSum(g: G.Graph, feed: Feed, k: nat, j: nat)
    requires GraphFit(g) && k < |g.nodes| && AllDone(g, feed, k) && j < |g.nodes| && g.nodes[j].MatMulNode?
    requires g.nodes[k].AddNode? && G.FusedAdd(g, j) == k
    ensures Yield(g, feed, k, TensorsAt(g, feed, k)) == Sum(g, feed, j)
  {
    hide GraphFit, TensorsAt, EnvAt, Open, G.FusedAdd, G.FusedRelu, G.IsFinal, Product, Agrees, Operand;
    AddReads(g, j);
    assert Done(g, feed, k, j);
  }

  lemma NewChain(g: G.Graph, feed: Feed, k: nat, j: nat)
    requires GraphFit(g) && k < |g.nodes| && AllDone(g, feed, k) && j < |g.nodes| && g.nodes[j].MatMulNode?
    requires g.nodes[k].ReluNode? && G.FusedRelu(g, j) == k
    ensures Yield(g, feed, k, TensorsAt(g, feed, k)) == Chain(g, feed, j)
  {
    hide GraphFit, TensorsAt, EnvAt, AllDone, G.FusedAdd, G.FusedRelu, G.IsFinal, Sum;
    ReluReads(g, j);
    SumThere(g, feed, k, j);
  }

  /** The tensor node k gives an INT8 value to is its own or its chain's, never one given before. */
  lemma EnvOthers(g: G.Graph, feed: Feed, k: nat, t: string)
    requires k < |g.nodes| && t != g.nodes[k].out && (g.nodes[k].MatMulNode? ==> t != G.ChainOut(g, k))
    ensures t in EnvAt(g, feed, k + 1) <==> t in EnvAt(g, feed, k)
    ensures t in EnvAt(g, feed, k) ==> EnvAt(g, feed, k + 1)[t] == EnvAt(g, feed, k)[t]
  {
    hide G.ChainOut, G.IsFinal, Hidden, Joined, Row;
  }

  /** Earlier nodes are still done. */
  lemma StillDone(g: G.Graph, feed: Feed, k: nat, i: nat)
    requires GraphFit(g) && i < k < |g.nodes| && Done(g, feed, k, i)
    ensures Done(g, feed, k + 1, i)
  {
    hide G.GraphOk, Onnx, AllFused, EnvAt, Yield, G.FusedAdd, G.FusedRelu, G.ChainOut, G.IsFinal, Open, Hidden, X, Sum,
         Chain, Product, Last;
    SameOut(g, i, k);
    assert g.nodes[i].out != g.nodes[k].out;
    if g.nodes[k].MatMulNode? {
      LastLater(g, k);
      SameOut(g, i, Last(g, k));
    }
    EnvOthers(g, feed, k, g.nodes[i].out);
    if g.nodes[i].MatMulNode? && !G.IsFinal(g, i) {
      ChainStays(g, feed, k, i);
    }
  }

  lemma ChainStays(g: G.Graph, feed: Feed, k: nat, i: nat)
    requires GraphFit(g) && i < k < |g.nodes| && g.nodes[i].MatMulNode? && G.ChainOut(g, i) in EnvAt(g, feed, k)
    ensures G.ChainOut(g, i) in EnvAt(g, feed, k + 1)
    ensures EnvAt(g, feed, k + 1)[G.ChainOut(g, i)] == EnvAt(g, feed, k)[G.ChainOut(g, i)]
  {
    hide GraphFit, EnvAt, G.ChainOut, Last;
    LastLater(g, i);
    assert GraphFit(g) ==> G.GraphOk(g) by { FitOk(g); }
    SameOut(g, k, Last(g, i));
    if g.nodes[k].AddNode? || g.nodes[k].ReluNode? {
      NoChange(g, feed, k);
    } else {
      if g.nodes[k].MatMulNode? {
        LastOwner(g, i, k);
        SameOut(g, Last(g, i), Last(g, k));
      }
      EnvOthers(g, feed, k, G.ChainOut(g, i));
    }
  }

  lemma FitOk(g: G.Graph)
    ensures GraphFit(g) ==> G.GraphOk(g)
  {
    hide G.GraphOk, Onnx, AllFused;
  }

  lemma NoChange(g: G.Graph, feed: Feed, k: nat)
    requires k < |g.nodes| && (g.nodes[k].AddNode? || g.nodes[k].ReluNode?)
    ensures EnvAt(g, feed, k + 1) == EnvAt(g, feed, k)
  {
  }

  lemma EnvNew(g: G.Graph, feed: Feed, k: nat)
    requires k < |g.nodes|
    ensures var n, env, env' := g.nodes[k], EnvAt(g, feed, k), EnvAt(g, feed, k + 1);
            && (n.GatherNode? ==> n.out in env' && env'[n.out] == Row(n, feed))
            && (n.ConcatNode? ==> n.out in env' && env'[n.out] == Joined(env, feed, n.ins))
            && (n.IdentityNode? ==> n.out in env' && env'[n.out] == Value(env, feed, n.input))
            && (n.MatMulNode? && !G.IsFinal(g, k) ==>
                G.ChainOut(g, k) in env' && env'[G.ChainOut(g, k)] == Hidden(g, k, X(g, feed, k)))
  {
    hide Hidden, Row, Joined, Value, G.IsFinal, G.ChainOut;
  }

  /** The chain whose last node has just been walked. */
  lemma NewChainAgrees(g: G.Graph, feed: Feed, k: nat, j: nat)
    requires GraphFit(g) && k < |g.nodes| && AllDone(g, feed, k) && Right(g, feed, k + 1, k) && Ends(g, j, k)
    ensures Agrees(g, feed, k + 1, g.nodes[k].out)
  {
    hide GraphFit, TensorsAt, EnvAt, G.FusedAdd, G.FusedRelu, G.IsFinal, Hidden, X, Product, Chain, Sum, Open;
    LastLater(g, j);
    FusedKinds(g, j);
    ChainNarrow(g, feed, j);
    SumIs(g, feed, j);
    if j == k {
      EnvNew(g, feed, k);
    } else {
      assert Done(g, feed, k, j);
      NoChange(g, feed, k);
    }
    assert TensorsAt(g, feed, k + 1)[g.nodes[k].out] == Chain(g, feed, j);
    ReadThere(TensorsAt(g, feed, k + 1), feed, g.nodes[k].out);
    assert EnvAt(g, feed, k + 1)[g.nodes[k].out] == Hidden(g, j, X(g, feed, j));
    AgreesNow(g, feed, k + 1, g.nodes[k].out);
  }

  lemma AgreesNow(g: G.Graph, feed: Feed, k: nat, t: string)
    requires k <= |g.nodes| && t in TensorsAt(g, feed, k) && t in EnvAt(g, feed, k)
    requires TensorsAt(g, feed, k)[t].Narrow() == EnvAt(g, feed, k)[t]
    ensures Agrees(g, feed, k, t)
  {
    hide TensorsAt, EnvAt;
  }

  lemma SumIs(g: G.Graph, feed: Feed, j: nat)
    requires j < |g.nodes| && g.nodes[j].MatMulNode?
    ensures G.FusedRelu(g, j) < 0 ==> Chain(g, feed, j) == Sum(g, feed, j)
    ensures G.FusedAdd(g, j) < 0 ==> Sum(g, feed, j) == Product(g, feed, j)
  {
    hide G.FusedAdd, G.FusedRelu, Product;
  }

  /** A node outside the chains yields what the fused reading says. */
  lemma YieldNarrow(g: G.Graph, feed: Feed, k: nat)
    requires GraphFit(g) && Reader(g, k) && AllDone(g, feed, k)
    requires g.nodes[k].GatherNode? || g.nodes[k].ConcatNode? || g.nodes[k].IdentityNode?
    ensures g.nodes[k].out in EnvAt(g, feed, k + 1)
    ensures Yield(g, feed, k, TensorsAt(g, feed, k)).Narrow() == EnvAt(g, feed, k + 1)[g.nodes[k].out]
  {
    hide GraphFit, AllDone, EnvAt, TensorsAt, Value, Joined, Concatenated, Row, Read;
    var n := g.nodes[k];
    EnvNew(g, feed, k);
    forall t | t in G.Reads(n)
      ensures Agrees(g, feed, k, t)
    {
      ReadAgrees(g, feed, k, t);
    }
    if n.ConcatNode? {
      JoinedAgrees(g, feed, k, n.ins);
    } else if n.IdentityNode? {
      assert G.Reads(n)[0] == n.input;
      assert Agrees(g, feed, k, n.input);
    }
  }

  lemma NewAgrees(g: G.Graph, feed: Feed, k: nat)
    requires GraphFit(g) && k < |g.nodes| && AllDone(g, feed, k) && Right(g, feed, k + 1, k) && Open(g, k)
    ensures Agrees(g, feed, k + 1, g.nodes[k].out)
  {
    hide GraphFit, AllDone, Right, Yield, EnvAt, Agrees, Ends, Read;
    var n := g.nodes[k];
    if n.MatMulNode? || n.AddNode? || n.ReluNode? {
      var j: nat :| Ends(g, j, k);
      NewChainAgrees(g, feed, k, j);
    } else {
      YieldNarrow(g, feed, k);
      AgreesNow(g, feed, k + 1, n.out);
    }
  }

  lemma {:induction false} RunDone(g: G.Graph, feed: Feed, k: nat)
    requires GraphFit(g) && k <= |g.nodes|
    ensures AllDone(g, feed, k)
  {
    hide GraphFit, Right, Agrees, Open, EnvAt, G.ChainOut, G.IsFinal, Hidden, X, Done;
    if k > 0 {
      RunDone(g, feed, k - 1);
      forall i: nat | i < k
        ensures Done(g, feed, k, i)
      {
        if i < k - 1 {
          assert Done(g, feed, k - 1, i);
          StillDone(g, feed, k - 1, i);
        } else {
          NewDone(g, feed, i);
        }
      }
    }
  }

  lemma NewDone(g: G.Graph, feed: Feed, k: nat)
    requires GraphFit(g) && k < |g.nodes| && AllDone(g, feed, k)
    ensures Done(g, feed, k + 1, k)
  {
    hide GraphFit, AllDone, Right, Agrees, Open, EnvAt, G.ChainOut, G.IsFinal, Hidden, X;
    NewRight(g, feed, k);
    if Open(g, k) {
      NewAgrees(g, feed, k);
    }
    EnvNew(g, feed, k);
  }

  /** The chains `lower` fuses compute what their nodes compute one by one: the output of the graph read as chains is
      the output of the graph read node by node. */
  lemma FusionIsFaithful(g: G.Graph, feed: Feed)
    requires GraphFit(g) && LastMatMul(g, |g.nodes|) >= 0
    ensures NodeOutput(g, feed) == GraphOutput(g, feed)
  {
    hide GraphFit, TensorsAt, EnvAt, AllDone, G.FusedAdd, G.FusedRelu, SumsAt, Chain, Open, Agrees;
    var m := LastMatMul(g, |g.nodes|);
    RunDone(g, feed, |g.nodes|);
    LastIsFinal(g, m);
    ChainThere(g, feed, |g.nodes|, m);
    ChainWide(g, feed, m);
    var t := G.ChainOut(g, m);
    if t != g.output {
      var i := G.Sole(g, t);
      assert g.nodes[i].input == t;
      IdentityDone(g, feed, i, m);
    }
  }

  lemma IdentityDone(g: G.Graph, feed: Feed, i: nat, j: nat)
    requires AllDone(g, feed, |g.nodes|) && i < |g.nodes| && g.nodes[i].IdentityNode? && j < |g.nodes|
             && g.nodes[j].MatMulNode? && g.nodes[i].input == G.ChainOut(g, j)
    ensures g.nodes[i].out in TensorsAt(g, feed, |g.nodes|)
            && TensorsAt(g, feed, |g.nodes|)[g.nodes[i].out] == Chain(g, feed, j)
  {
    hide TensorsAt, EnvAt, G.ChainOut, G.FusedAdd, G.FusedRelu, G.IsFinal, Chain, Sum, Product, Open, Agrees, Hidden;
    assert Done(g, feed, |g.nodes|, i);
  }

  lemma LastIsFinal(g: G.Graph, m: nat)
    requires GraphFit(g) && m == LastMatMul(g, |g.nodes|)
    ensures G.IsFinal(g, m)
  {
    hide G.NodeShaped, G.PartsUnshared, Onnx, AllFused, G.IsFinal;
    NoneLater(g, |g.nodes|);
  }

  lemma {:induction false} NoneLater(g: G.Graph, k: nat)
    requires k <= |g.nodes|
    ensures forall j :: LastMatMul(g, k) < j < k ==> !g.nodes[j].MatMulNode?
  {
    if k > 0 && !g.nodes[k - 1].MatMulNode? {
      NoneLater(g, k - 1);
    }
  }
}
