/** The quantised graph lowering.py starts from, and the fusion of MatMul, Add and Relu it finds in it. */
module Graph {
  import opened Bytes

  /** A node with its INT8 constants: an embedding table by rows, a weight matrix by output rows with its INT32 biases
      and the real ratio its accumulators are rescaled by. */
  datatype Node =
    | GatherNode(name: string, table: seq<seq<byte>>, dim: nat, index: string, out: string)
    | ConcatNode(name: string, ins: seq<string>, out: string)
    | MatMulNode(name: string, x: string, K: nat, N: nat, weights: seq<seq<byte>>, biases: seq<int>, ratio: real,
      out: string)
    | AddNode(name: string, ins: seq<string>, out: string)
    | ReluNode(name: string, input: string, out: string)
    | IdentityNode(name: string, input: string, out: string)
    | OtherNode(name: string, ins: seq<string>, out: string)

  /** `inputs` are the graph inputs, `lens` the inferred length of every tensor, `inits` the initialisers. */
  datatype Graph = Graph(nodes: seq<Node>, inputs: set<string>, lens: map<string, nat>, inits: set<string>,
    output: string)

  /** The activation tensors a node reads. */
  function Reads(n: Node): seq<string> {
    match n
    case GatherNode(_, _, _, index, _) => [index]
    case ConcatNode(_, ins, _) => ins
    case MatMulNode(_, x, _, _, _, _, _, _) => [x]
    case AddNode(_, ins, _) => ins
    case ReluNode(_, input, _) => [input]
    case IdentityNode(_, input, _) => [input]
    case OtherNode(_, ins, _) => ins
  }

  /** How often t occurs in a list. */
  function Count(s: seq<string>, t: string): nat {
    if s == [] then 0 else Count(s[..|s| - 1], t) + if s[|s| - 1] == t then 1 else 0
  }

  /** `consumers[t]`: the reading nodes, one entry per occurrence. */
  function Consumers(nodes: seq<Node>, t: string): (c: seq<nat>)
    ensures forall i :: 0 <= i < |c| ==> c[i] < |nodes| && t in Reads(nodes[c[i]])
  {
    if nodes == [] then []
    else
      var front, last := nodes[..|nodes| - 1], nodes[|nodes| - 1];
      CountPositive(Reads(last), t);
      Consumers(front, t) + seq(Count(Reads(last), t), i => |nodes| - 1)
  }

  lemma {:induction false} CountPositive(s: seq<string>, t: string)
    ensures Count(s, t) > 0 <==> t in s
  {
    if s != [] {
      CountPositive(s[..|s| - 1], t);
      assert s == s[..|s| - 1] + [s[|s| - 1]];
    }
  }

  /** A reader of t is among its consumers. */
  lemma {:induction false} ReaderConsumes(nodes: seq<Node>, t: string, i: nat)
    requires i < |nodes| && t in Reads(nodes[i])
    ensures i in Consumers(nodes, t)
  {
    var front, last := nodes[..|nodes| - 1], nodes[|nodes| - 1];
    CountPositive(Reads(last), t);
    if i < |nodes| - 1 {
      ReaderConsumes(front, t, i);
    } else {
      var tail := seq(Count(Reads(last), t), i => |nodes| - 1);
      assert tail[0] == i;
    }
  }

  /** The one consumer of t, if it has exactly one. */
  function Sole(g: Graph, t: string): (r: int)
    ensures -1 <= r < |g.nodes|
    ensures r >= 0 ==> t in Reads(g.nodes[r]) && forall i :: 0 <= i < |g.nodes| && t in Reads(g.nodes[i]) ==> i == r
  {
    var c := Consumers(g.nodes, t);
    if |c| == 1 then
      assert forall i :: 0 <= i < |g.nodes| && t in Reads(g.nodes[i]) ==> i == c[0] by {
        forall i | 0 <= i < |g.nodes| && t in Reads(g.nodes[i])
          ensures i == c[0]
        {
          ReaderConsumes(g.nodes, t, i);
        }
      }
      c[0]
    else -1
  }

  /** The Add fused behind a MatMul: its only consumer, adding an initialiser. */
  function FusedAdd(g: Graph, k: nat): (r: int)
    requires k < |g.nodes|
    ensures -1 <= r < |g.nodes| && (r >= 0 ==> g.nodes[r].AddNode?)
  {
    var c := Sole(g, g.nodes[k].out);
    if c >= 0 && g.nodes[c].AddNode? && exists i :: 0 <= i < |g.nodes[c].ins| && g.nodes[c].ins[i] in g.inits then c
      else -1
  }

  /** Node i reads t once and no other node reads it. */
  predicate OnlyReader(g: Graph, t: string, i: nat)
    requires i < |g.nodes|
  {
    Count(Reads(g.nodes[i]), t) == 1 && forall j :: 0 <= j < |g.nodes| && t in Reads(g.nodes[j]) ==> j == i
  }

  lemma {:induction false} NoReaders(nodes: seq<Node>, t: string)
    requires forall j :: 0 <= j < |nodes| ==> t !in Reads(nodes[j])
    ensures Consumers(nodes, t) == []
  {
    hide Reads, Count;
    if nodes != [] {
      NoReaders(nodes[..|nodes| - 1], t);
      CountPositive(Reads(nodes[|nodes| - 1]), t);
    }
  }

  /** A single entry among the consumers is a single reading. */
  lemma {:induction false} OneConsumer(nodes: seq<Node>, t: string, i: nat)
    requires i < |nodes| && forall j :: 0 <= j < |nodes| && t in Reads(nodes[j]) ==> j == i
    ensures |Consumers(nodes, t)| == Count(Reads(nodes[i]), t)
  {
    hide Reads, Count;
    var front := nodes[..|nodes| - 1];
    assert forall j :: 0 <= j < |front| ==> front[j] == nodes[j];
    CountPositive(Reads(nodes[|nodes| - 1]), t);
    if i < |nodes| - 1 {
      OneConsumer(front, t, i);
    } else {
      NoReaders(front, t);
    }
  }

  lemma SoleIff(g: Graph, t: string, i: nat)
    requires i < |g.nodes|
    ensures Sole(g, t) == i <==> OnlyReader(g, t, i)
  {
    if OnlyReader(g, t, i) {
      OneConsumer(g.nodes, t, i);
      CountPositive(Reads(g.nodes[i]), t);
    } else if Sole(g, t) == i {
      OneConsumer(g.nodes, t, i);
    }
  }

  /** Exactly which Add is fused behind a MatMul: the one node that reads its output, reading it once, with an
      initialiser to add. */
  lemma FusedAddIff(g: Graph, k: nat, i: nat)
    requires k < |g.nodes| && i < |g.nodes|
    ensures FusedAdd(g, k) == i <==>
            && g.nodes[i].AddNode? && OnlyReader(g, g.nodes[k].out, i)
            && exists j :: 0 <= j < |g.nodes[i].ins| && g.nodes[i].ins[j] in g.inits
  {
    hide Sole, OnlyReader;
    SoleIff(g, g.nodes[k].out, i);
  }

  /** The tensor behind the fused Add. */
  function SumOut(g: Graph, k: nat): string
    requires k < |g.nodes|
  {
    if FusedAdd(g, k) >= 0 then g.nodes[FusedAdd(g, k)].out else g.nodes[k].out
  }

  /** The Relu fused behind that. */
  function FusedRelu(g: Graph, k: nat): (r: int)
    requires k < |g.nodes|
    ensures -1 <= r < |g.nodes| && (r >= 0 ==> g.nodes[r].ReluNode?)
  {
    var c := Sole(g, SumOut(g, k));
    if c >= 0 && g.nodes[c].ReluNode? then c else -1
  }

  /** Exactly which Relu is fused: the one node that reads the MatMul's output or, behind a fused Add, the sum. */
  lemma FusedReluIff(g: Graph, k: nat, i: nat)
    requires k < |g.nodes| && i < |g.nodes|
    ensures FusedRelu(g, k) == i <==> g.nodes[i].ReluNode? && OnlyReader(g, SumOut(g, k), i)
  {
    hide Sole, OnlyReader, FusedAdd;
    SoleIff(g, SumOut(g, k), i);
  }

  /** The tensor a fused chain produces. */
  function ChainOut(g: Graph, k: nat): string
    requires k < |g.nodes|
  {
    if FusedRelu(g, k) >= 0 then g.nodes[FusedRelu(g, k)].out else SumOut(g, k)
  }

  /** Node i belongs to some MatMul's chain. */
  predicate Fused(g: Graph, i: nat)
    requires i < |g.nodes|
  {
    exists k :: 0 <= k < |g.nodes| && g.nodes[k].MatMulNode? && (FusedAdd(g, k) == i || FusedRelu(g, k) == i)
  }

  /** The chain yields the graph output, directly or through an Identity that is its only consumer. */
  predicate IsFinal(g: Graph, k: nat)
    requires k < |g.nodes|
  {
    var t := ChainOut(g, k);
    t == g.output || (Sole(g, t) >= 0 && g.nodes[Sole(g, t)].IdentityNode? && g.nodes[Sole(g, t)].out == g.output)
  }

  /** t is a part of the concatenation at node c. */
  predicate PartOf(g: Graph, t: string, c: nat) {
    c < |g.nodes| && g.nodes[c].ConcatNode? && t in g.nodes[c].ins
  }

  predicate IsPart(g: Graph, t: string) {
    exists c :: 0 <= c < |g.nodes| && PartOf(g, t, c)
  }

  function SumLens(lens: map<string, nat>, ts: seq<string>): nat {
    if ts == [] then 0
    else SumLens(lens, ts[..|ts| - 1]) + if ts[|ts| - 1] in lens then lens[ts[|ts| - 1]] else 0
  }

  /** Constants have their stated shapes, and the inferred tensor lengths agree with every node. */
  predicate NodeShaped(g: Graph, n: Node) {
    && n.out in g.lens
    && match n
       case GatherNode(_, table, dim, _, out) =>
         table != [] && dim > 0 && g.lens[out] == dim && forall r :: 0 <= r < |table| ==> |table[r]| == dim
       case ConcatNode(_, ins, out) =>
         (forall i :: 0 <= i < |ins| ==> ins[i] in g.lens && g.lens[ins[i]] > 0) && g.lens[out] == SumLens(g.lens, ins)
       case MatMulNode(_, x, K, N, weights, biases, _, out) =>
         && K > 0 && N > 0 && x in g.lens && g.lens[x] == K && g.lens[out] == N && |weights| == N && |biases| == N
         && forall r :: 0 <= r < N ==> |weights[r]| == K
       case AddNode(_, ins, out) => forall i :: 0 <= i < |ins| && ins[i] !in g.inits ==>
           ins[i] in g.lens
           && g.lens[ins[i]] == g.lens[out]
       case ReluNode(_, input, out) => input in g.lens && g.lens[input] == g.lens[out]
       case IdentityNode(_, input, out) => input in g.lens && g.lens[input] == g.lens[out]
       case OtherNode(_, _, _) => true
  }

  /** A part feeds one place of one Concat. */
  predicate PartsUnshared(g: Graph) {
    forall c, i, j, q | 0 <= c < |g.nodes| && g.nodes[c].ConcatNode? && 0 <= i < |g.nodes[c].ins|
      && 0 <= j < |g.nodes| && g.nodes[j].ConcatNode? && 0 <= q < |g.nodes[j].ins| ::
      g.nodes[j].ins[q] == g.nodes[c].ins[i] ==> j == c && q == i
  }

  /** What every valid graph with constants of the right shapes is: names and outputs unique, every tensor produced
      once, shapes consistent. */
  ghost predicate Named(g: Graph) {
    && (forall i, j :: 0 <= i < j < |g.nodes| ==>
        g.nodes[i].name != g.nodes[j].name
        && g.nodes[i].out != g.nodes[j].out)
    && (forall i :: 0 <= i < |g.nodes| ==>
        g.nodes[i].out !in g.inputs && g.nodes[i].out !in g.inits
        && NodeShaped(g, g.nodes[i]))
    && (forall t :: t in g.inputs ==> t in g.lens && g.lens[t] > 0 && t !in g.inits)
  }

  /** The graphs lowering is described for: parts unshared, the output read by nobody, and the last MatMul chain
      yielding it. */
  ghost predicate GraphOk(g: Graph) {
    && Named(g) && PartsUnshared(g)
    && (forall i :: 0 <= i < |g.nodes| ==> g.output !in Reads(g.nodes[i]))
    && (forall k ::
          && 0 <= k < |g.nodes| && g.nodes[k].MatMulNode?
          && (forall j :: k < j < |g.nodes| ==> !g.nodes[j].MatMulNode?)
          ==> IsFinal(g, k))
  }

  lemma OkIsNamed(g: Graph)
    requires GraphOk(g)
    ensures Named(g)
  {
    hide Named, PartsUnshared, IsFinal;
  }

  lemma NodeAt(g: Graph, i: nat)
    requires GraphOk(g) && i < |g.nodes|
    ensures NodeShaped(g, g.nodes[i]) && g.nodes[i].out !in g.inputs && g.nodes[i].out !in g.inits
  {
  }

  /** No other place of a Concat is part i of Concat q. */
  lemma Unshared(g: Graph, q: nat, i: nat, j: nat, p: nat)
    requires GraphOk(g) && q < |g.nodes| && g.nodes[q].ConcatNode? && i < |g.nodes[q].ins| && j < |g.nodes|
             && g.nodes[j].ConcatNode? && p < |g.nodes[j].ins|
    requires j != q || p != i
    ensures g.nodes[q].ins[i] != g.nodes[j].ins[p]
  {
    hide NodeShaped, IsFinal;
    assert Reads(g.nodes[j])[p] == g.nodes[j].ins[p];
  }

  // ----- parts that are read elsewhere too -----

  /** t and what Identity nodes before node k make of it. */
  function Aliases(g: Graph, k: nat, t: string): (a: set<string>)
    requires k <= |g.nodes|
    ensures t in a
  {
    if k == 0 then {t}
    else
      var a, n := Aliases(g, k - 1, t), g.nodes[k - 1];
      if n.IdentityNode? && n.input in a then a + {n.out} else a
  }

  /** The first part of a longer Concat shares its buffer's address: once the Concat is done, what is read there is the
      whole vector. Those parts and their aliases, before node k. */
  function Stale(g: Graph, k: nat): set<string>
    requires k <= |g.nodes|
  {
    if k == 0 then {}
    else
      var s, n := Stale(g, k - 1), g.nodes[k - 1];
      if n.ConcatNode? && |n.ins| > 1 && n.ins[0] !in g.inputs then s + Aliases(g, k - 1, n.ins[0])
      else if n.IdentityNode? && n.input in s then s + {n.out}
      else s
  }

  lemma AliasesGrow(g: Graph, k: nat, t: string)
    requires k < |g.nodes|
    ensures Aliases(g, k, t) <= Aliases(g, k + 1, t)
  {
  }

  lemma StaleGrows(g: Graph, k: nat)
    requires k < |g.nodes|
    ensures Stale(g, k) <= Stale(g, k + 1)
    ensures g.nodes[k].MatMulNode? ==> Stale(g, k + 1) == Stale(g, k)
  {
    hide Aliases;
  }

  /** A Concat takes no graph input that an earlier MatMul has taken: that one lies in the MatMul's region. */
  predicate SafeAt(g: Graph, k: nat)
    requires k < |g.nodes|
  {
    g.nodes[k].ConcatNode? ==>
      forall i, j :: 0 <= i < |g.nodes[k].ins| && g.nodes[k].ins[i] in g.inputs && 0 <= j < k && g.nodes[j].MatMulNode?
        ==> g.nodes[j].x != g.nodes[k].ins[i]
  }

  predicate SafeBefore(g: Graph, k: nat) {
    forall j :: 0 <= j < k && j < |g.nodes| ==> SafeAt(g, j)
  }

  /** Every Concat finds its parts where it needs them. */
  predicate PartsSafe(g: Graph) {
    SafeBefore(g, |g.nodes|)
  }

  /** A MatMul reads no tensor whose address has become that of a longer vector. */
  predicate TimelyAt(g: Graph, k: nat)
    requires k < |g.nodes|
  {
    g.nodes[k].MatMulNode? ==> g.nodes[k].x !in Stale(g, k)
  }

  predicate TimelyBefore(g: Graph, k: nat) {
    forall j :: 0 <= j < k && j < |g.nodes| ==> TimelyAt(g, j)
  }

  /** Every part is read by MatMuls before its Concat only. */
  predicate ReadsTimely(g: Graph) {
    TimelyBefore(g, |g.nodes|)
  }

  /** The chain's output is as long as the weight matrix is high. */
  lemma ChainLen(g: Graph, k: nat)
    requires GraphOk(g) && k < |g.nodes| && g.nodes[k].MatMulNode?
    ensures ChainOut(g, k) in g.lens && g.lens[ChainOut(g, k)] == g.nodes[k].N
  {
    hide GraphOk, Sole;
    NodeAt(g, k);
    var a := FusedAdd(g, k);
    if a >= 0 {
      NodeAt(g, a);
      var i :| 0 <= i < |g.nodes[a].ins| && g.nodes[a].ins[i] == g.nodes[k].out;
    }
    var r := FusedRelu(g, k);
    if r >= 0 {
      NodeAt(g, r);
    }
  }

  /** A final chain's output is read by no MatMul and no Concat, and what an Identity makes of it by nobody. */
  lemma FinalUnread(g: Graph, k: nat, j: nat)
    requires GraphOk(g) && k < |g.nodes| && g.nodes[k].MatMulNode? && IsFinal(g, k) && j < |g.nodes|
             && ChainOut(g, k) in Reads(g.nodes[j])
    ensures g.nodes[j].IdentityNode? && g.nodes[j].out == g.output
  {
    hide ChainOut;
  }

  // ----- padded constants -----

  /** A row padded with zeros to its stored width. */
  function PadRow(row: seq<byte>, width: nat): (r: seq<byte>)
    requires |row| <= width
    ensures |r| == width && (forall i :: 0 <= i < |row| ==> r[i] == row[i])
            && forall i :: |row| <= i < width ==> r[i] == 0
  {
    row + Zeros(width - |row|)
  }

  /** The first n rows of a matrix, each padded, with zero rows below the last. */
  function PadRows(rows: seq<seq<byte>>, width: nat, n: nat): (s: seq<byte>)
    requires forall r :: 0 <= r < |rows| ==> |rows[r]| <= width
    ensures |s| == n * width
  {
    if n == 0 then []
    else
      assert (n - 1) * width + width == n * width;
      PadRows(rows, width, n - 1) + (if n - 1 < |rows| then PadRow(rows[n - 1], width) else Zeros(width))
  }

  /** Row r as stored. */
  function StoredRow(rows: seq<seq<byte>>, width: nat, r: nat): (s: seq<byte>)
    requires forall r :: 0 <= r < |rows| ==> |rows[r]| <= width
    ensures |s| == width
    ensures forall i :: 0 <= i < width ==> s[i] == if r < |rows| && i < |rows[r]| then rows[r][i] else 0
  {
    if r < |rows| then PadRow(rows[r], width) else Zeros(width)
  }

  lemma PadRowsNext(rows: seq<seq<byte>>, width: nat, n: nat)
    requires (forall r :: 0 <= r < |rows| ==> |rows[r]| <= width) && n > 0
    ensures PadRows(rows, width, n) == PadRows(rows, width, n - 1) + StoredRow(rows, width, n - 1)
    ensures |PadRows(rows, width, n - 1)| == (n - 1) * width
  {
    hide PadRow, Zeros;
  }

  /** Byte i of row m of the padded matrix. */
  lemma {:induction false} PadRowsAt(rows: seq<seq<byte>>, width: nat, n: nat, m: nat, i: nat)
    requires (forall r :: 0 <= r < |rows| ==> |rows[r]| <= width) && m < n && i < width
    ensures 0 <= m * width + i < |PadRows(rows, width, n)|
    ensures PadRows(rows, width, n)[m * width + i] == if m < |rows| && i < |rows[m]| then rows[m][i] else 0
  {
    hide PadRows, StoredRow;
    RowBound(m, n, width);
    PadRowsNext(rows, width, n);
    if m < n - 1 {
      RowBound(m, n - 1, width);
      PadRowsAt(rows, width, n - 1, m, i);
    }
  }

  /** Biases as little-endian words, zero beyond the last. */
  function BiasBytes(b: seq<int>, n: nat): (s: seq<byte>)
    ensures |s| == 4 * n
  {
    if n == 0 then [] else BiasBytes(b, n - 1) + Le32(if n - 1 < |b| then b[n - 1] else 0)
  }
}
