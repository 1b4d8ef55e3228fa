/** The invariant of lowering.py's walk over the graph: where everything emitted so far lies, and what every tensor
    address still means. */
module Walk {
  import opened Bytes
  import opened Program
  import opened Layout
  import G = Graph

  /** What is fixed before the walk: pinned addresses of Concat parts and outputs, and the weight slots of a streaming
      layout; parts lie below slotStart, slots in [slotStart, walkStart), everything else from walkStart on. */
  datatype Ctx = Ctx(g: G.Graph, streaming: bool, pins: map<string, nat>, slots: seq<nat>, slotBytes: nat,
    slotStart: nat, walkStart: nat)

  /** The walk's state: the program so far, tensor addresses and lengths, parts already claimed, tensors whose vector
      can be read, the last fc layer and its node. */
  datatype Walk = Walk(p: Program, produced: map<string, (nat, nat)>, done: set<string>, live: set<string>, lastFc: int,
    lastMat: int)

  function Len(c: Ctx, t: string): nat {
    if t in c.g.lens then c.g.lens[t] else 0
  }

  function Pin(c: Ctx, t: string): nat {
    if t in c.pins then c.pins[t] else 0
  }

  // ----- the fixed part -----

  predicate IsConcat(c: Ctx, q: nat) {
    q < |c.g.nodes| && c.g.nodes[q].ConcatNode?
  }

  /** A part comes from a Gather or from outside. */
  predicate Sourced(c: Ctx, t: string) {
    t in c.g.inputs || exists i :: 0 <= i < |c.g.nodes| && c.g.nodes[i].GatherNode? && c.g.nodes[i].out == t
  }

  ghost predicate PartPinned(c: Ctx, t: string) {
    t in c.pins && Pin(c, t) % 16 == 0 && Pin(c, t) + Pad16(Len(c, t)) <= c.slotStart && Sourced(c, t)
  }

  ghost predicate ConcatPinned(c: Ctx, q: nat)
    requires IsConcat(c, q)
  {
    var n := c.g.nodes[q];
    && n.out in c.pins && Pin(c, n.out) % 16 == 0 && Pin(c, n.out) < c.slotStart
    && Pin(c, n.out) + Pad16(Len(c, n.out)) <= c.slotStart
    && forall i :: 0 <= i < |n.ins| ==> Pin(c, n.ins[i]) == Pin(c, n.out) + G.SumLens(c.g.lens, n.ins[..i])
  }

  ghost predicate PinsOk(c: Ctx) {
    && (forall t :: G.IsPart(c.g, t) ==> PartPinned(c, t))
    && (forall t, u :: G.IsPart(c.g, t) && G.IsPart(c.g, u) && t != u
          ==> Apart(Pin(c, t), Pad16(Len(c, t)), Pin(c, u), Pad16(Len(c, u))))
    && (forall q: nat :: IsConcat(c, q) ==> ConcatPinned(c, q))
    && (forall q: nat, t :: IsConcat(c, q) && G.IsPart(c.g, t) && t !in c.g.nodes[q].ins
          ==> Pin(c, t) != Pin(c, c.g.nodes[q].out))
    && (forall q: nat, r: nat :: IsConcat(c, q) && IsConcat(c, r) && q != r
          ==> Pin(c, c.g.nodes[q].out) != Pin(c, c.g.nodes[r].out))
    && (forall t :: t in c.pins ==>
          G.IsPart(c.g, t) || exists q :: 0 <= q < |c.g.nodes| && IsConcat(c, q) && c.g.nodes[q].out == t)
  }

  predicate SlotsOk(c: Ctx) {
    && c.slotStart <= c.walkStart && c.slotStart % 16 == 0 && c.walkStart % 16 == 0
    && (c.streaming ==>
          && |c.slots| == 2 && c.slots[0] >= c.slotStart && c.slots[0] + c.slotBytes <= c.slots[1]
          && c.slots[1] + c.slotBytes <= c.walkStart
          && c.slots[0] % 16 == 0 && c.slots[1] % 16 == 0
          && forall i :: 0 <= i < |c.g.nodes| && c.g.nodes[i].MatMulNode? ==>
               Pad16(c.g.nodes[i].N) * Pad16(c.g.nodes[i].K) + 4 * Pad16(c.g.nodes[i].N) <= c.slotBytes)
  }

  ghost predicate CtxOk(c: Ctx) {
    G.GraphOk(c.g) && PinsOk(c) && SlotsOk(c)
  }

  // ----- where things lie -----

  /** One of the first b nodes has that name. */
  predicate NamedBefore(g: G.Graph, b: nat, name: string) {
    exists i :: 0 <= i < |g.nodes| && i < b && g.nodes[i].name == name
  }

  /** A region that is the slice of a claimed part. */
  ghost predicate Claimed(c: Ctx, done: set<string>, addr: nat, size: nat) {
    exists t :: t in done && addr == Pin(c, t) && size == Pad16(Len(c, t))
  }

  ghost predicate SegPlaced(c: Ctx, s: Segment) {
    s.addr >= c.walkStart || (c.streaming && s.kind != TableSeg && c.slotStart <= s.addr
      && s.addr + s.length <= c.walkStart)
  }

  ghost predicate InputPlaced(c: Ctx, done: set<string>, i: InputSpec) {
    i.addr >= c.walkStart || Claimed(c, done, i.addr, Pad16(i.Size()))
  }

  ghost predicate LayerPlaced(c: Ctx, done: set<string>, L: Layer) {
    match L
    case Gather(_, _, _, _, dimBytes, _, outAddr, _) => outAddr >= c.walkStart || Claimed(c, done, outAddr, dimBytes)
    case Concat(_, _, outAddr, _) => outAddr < c.slotStart
    case Fc(_, _, _, _, _, _, _, _, accAddr, outAddr, _, _, _, final, _) =>
        accAddr >= c.walkStart
        && (final || outAddr >= c.walkStart)
  }

  ghost predicate Placed(c: Ctx, w: Walk, b: nat) {
    && (forall s :: 0 <= s < |w.p.segments| ==>
        SegPlaced(c, w.p.segments[s])
        && NamedBefore(c.g, b, w.p.segments[s].layer))
    && (forall j :: 0 <= j < |w.p.inputs| ==> InputPlaced(c, w.done, w.p.inputs[j]))
    && (forall n :: 0 <= n < |w.p.layers| ==>
        LayerPlaced(c, w.done, w.p.layers[n])
        && NamedBefore(c.g, b, w.p.layers[n].name))
  }

  /** A claimed part has been emitted: by its Gather, or as a dense input by its Concat. */
  ghost predicate Emitted(c: Ctx, b: nat, t: string) {
    && G.IsPart(c.g, t)
    && ((t in c.g.inputs && exists q :: 0 <= q < b && G.PartOf(c.g, t, q)) ||
        exists i :: 0 <= i < |c.g.nodes| && i < b && c.g.nodes[i].GatherNode? && c.g.nodes[i].out == t)
  }

  ghost predicate DoneOk(c: Ctx, w: Walk, b: nat) {
    forall t :: t in w.done ==> Emitted(c, b, t)
  }

  /** Layers read below the end of the layout, and never from a part that is still to come. */
  ghost predicate ReadsOk(c: Ctx, w: Walk) {
    && (forall n, a: nat :: 0 <= n < |w.p.layers| && ReadsAt(w.p.layers[n], a) ==> a < w.p.layoutEnd)
    && (forall n, t :: 0 <= n < |w.p.layers| && G.IsPart(c.g, t) && t !in w.done ==> !ReadsAt(w.p.layers[n], Pin(c, t)))
  }

  // ----- what tensor addresses mean -----

  /** Address a holds a vector of n values after the layers so far. */
  ghost predicate Holds(p: Program, a: nat, n: nat) {
    a in Shapes(p, |p.layers|) && Shapes(p, |p.layers|)[a] == n
  }

  /** Address a holds a vector that begins with n values. */
  ghost predicate Covers(p: Program, a: nat, n: nat) {
    a in Shapes(p, |p.layers|) && n <= Shapes(p, |p.layers|)[a]
  }

  /** Address a holds t's vector, or one that begins with it if t has gone stale. */
  ghost predicate There(c: Ctx, p: Program, k: nat, a: nat, t: string)
    requires k <= |c.g.nodes|
  {
    Covers(p, a, Len(c, t)) && (t !in G.Stale(c.g, k) ==> Holds(p, a, Len(c, t)))
  }

  /** t is the first part of Concat q, or an alias of it: its address is that of the buffer. */
  ghost predicate Heads(c: Ctx, k: nat, q: nat, t: string)
    requires k <= |c.g.nodes| && IsConcat(c, q)
  {
    var ins := c.g.nodes[q].ins;
    |ins| > 0 && ins[0] !in c.g.inputs && t in G.Aliases(c.g, k, ins[0])
  }

  /** Its address holds it, no part still to come is written there, and no Concat still to come but its own. */
  ghost predicate LiveTensor(c: Ctx, w: Walk, k: nat, t: string)
    requires k <= |c.g.nodes|
  {
    && t in w.produced && w.produced[t].1 == Len(c, t) && t in c.g.lens
    && var a := w.produced[t].0;
       && a % 16 == 0 && a < w.p.layoutEnd && a + Pad16(Len(c, t)) <= w.p.layoutEnd && There(c, w.p, k, a, t)
       && (forall u :: G.IsPart(c.g, u) && u !in w.done ==> a != Pin(c, u))
       && (forall q: nat :: k <= q && IsConcat(c, q) && a == Pin(c, c.g.nodes[q].out) ==> Heads(c, k, q, t))
  }

  /** A part a Gather has produced waits at its pinned address for its Concat. */
  ghost predicate WaitingPart(c: Ctx, w: Walk, k: nat, t: string) {
    && t in w.done && t in w.produced && w.produced[t] == (Pin(c, t), Len(c, t))
    && forall q: nat :: k <= q && G.PartOf(c.g, t, q) ==> Holds(w.p, Pin(c, t), Len(c, t))
  }

  /** Only an Identity to the graph output may read it. */
  ghost predicate DeadEnd(c: Ctx, t: string) {
    forall i :: 0 <= i < |c.g.nodes| && t in G.Reads(c.g.nodes[i]) ==>
        c.g.nodes[i].IdentityNode?
        && c.g.nodes[i].out == c.g.output
  }

  /** A part some Gather has produced. */
  predicate Gathered(c: Ctx, produced: map<string, (nat, nat)>, t: string) {
    t in produced && G.IsPart(c.g, t) && t !in c.g.inputs
  }

  ghost predicate TensorsOk(c: Ctx, w: Walk, k: nat)
    requires k <= |c.g.nodes|
  {
    && (forall t :: t in w.live ==> LiveTensor(c, w, k, t))
    && (forall t :: Gathered(c, w.produced, t) ==> WaitingPart(c, w, k, t))
  }

  /** A graph input has a region of its own only because a MatMul reads it. */
  ghost predicate OwnRegion(c: Ctx, produced: map<string, (nat, nat)>, b: nat, t: string) {
    t in produced && produced[t].0 >= c.walkStart
    && exists j :: 0 <= j < |c.g.nodes| && j < b && c.g.nodes[j].MatMulNode? && c.g.nodes[j].x == t
  }

  /** Which tensors can be read no more, and which graph inputs have come, before node b. */
  ghost predicate KeptOk(c: Ctx, produced: map<string, (nat, nat)>, live: set<string>, b: nat)
    requires b <= |c.g.nodes|
  {
    && (forall t :: t in produced && t !in live ==> DeadEnd(c, t))
    && (forall t :: t in produced && t in c.g.inputs ==> OwnRegion(c, produced, b, t))
  }

  /** The last fc layer comes from the last MatMul walked. */
  ghost predicate TailOk(c: Ctx, w: Walk, k: nat) {
    && (forall i :: 0 <= i < |c.g.nodes| && i < k && c.g.nodes[i].MatMulNode? ==> i <= w.lastMat)
    && (w.lastMat >= 0 ==>
          && w.lastMat < |c.g.nodes| && w.lastMat < k && c.g.nodes[w.lastMat].MatMulNode?
          && 0 <= w.lastFc < |w.p.layers| && w.p.layers[w.lastFc].Fc?
          && w.p.layers[w.lastFc].name == c.g.nodes[w.lastMat].name
          && w.p.layers[w.lastFc].final == G.IsFinal(c.g, w.lastMat)
          && forall n :: w.lastFc < n < |w.p.layers| ==>
              !w.p.layers[n].Fc?
              && w.p.layers[n].name != c.g.nodes[w.lastMat].name)
    && (w.lastMat < 0 ==> w.lastFc < 0 && forall n :: 0 <= n < |w.p.layers| ==> !w.p.layers[n].Fc?)
  }

  // ----- alignment -----

  predicate LayerAligned(L: Layer) {
    match L
    case Gather(_, tableAddr, _, _, _, idxAddr, outAddr, _) => tableAddr % 16 == 0 && idxAddr % 16 == 0
      && outAddr % 16 == 0
    case Concat(_, _, outAddr, _) => outAddr % 16 == 0
    case Fc(_, inAddr, _, _, _, _, wAddr, bAddr, accAddr, outAddr, _, _, _, _, _) =>
      inAddr % 16 == 0 && wAddr % 16 == 0 && bAddr % 16 == 0 && accAddr % 16 == 0 && outAddr % 16 == 0
  }

  /** Every region address is a multiple of sixteen, and so is every image offset. */
  ghost predicate Aligned(p: Program) {
    && p.layoutEnd % 16 == 0 && |p.image| % 16 == 0
    && (forall k :: 0 <= k < |p.segments| ==> p.segments[k].addr % 16 == 0 && p.segments[k].offset % 16 == 0)
    && (forall j :: 0 <= j < |p.inputs| ==> p.inputs[j].addr % 16 == 0)
    && (forall n :: 0 <= n < |p.layers| ==> LayerAligned(p.layers[n]))
  }

  /** Before node k; names and claims up to node b. */
  ghost predicate Inv(c: Ctx, w: Walk, k: nat, b: nat) {
    && CtxOk(c) && k <= b <= |c.g.nodes| && w.p.streaming == c.streaming && c.walkStart <= w.p.layoutEnd
    && Partial(w.p) && Aligned(w.p) && Placed(c, w, b) && DoneOk(c, w, b) && ReadsOk(c, w) && TensorsOk(c, w, k)
    && KeptOk(c, w.produced, w.live, b) && TailOk(c, w, k)
  }
}
