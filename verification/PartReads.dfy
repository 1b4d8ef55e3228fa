/** When a part may be read outside its Concat: `lower` does not look. What it returns is well formed exactly if every
    Concat finds its parts, and then the reference can run it exactly if no MatMul comes late. */
module PartReads {
  import opened Bytes
  import opened Program
  import opened Layout
  import opened Walk
  import opened WalkSteps
  import opened WalkLayers
  import opened Emission
  import opened NodeSteps
  import opened Lowering
  import opened Faithful
  import opened Preservation
  import G = Graph

  // ----- what later nodes leave alone -----

  /** q has p's layers first, and p's inputs first, and no further vector at address a. */
  ghost predicate GrowsOff(p: Program, q: Program, a: int) {
    && |p.layers| <= |q.layers| && q.layers[..|p.layers|] == p.layers
    && |p.inputs| <= |q.inputs| && q.inputs[..|p.inputs|] == p.inputs
    && forall i :: |p.inputs| <= i < |q.inputs| && q.inputs[i].DenseInput? ==> q.inputs[i].addr != a
  }

  lemma GrowsOn(p: Program, q: Program, r: Program, a: int)
    requires GrowsOff(p, q, a) && GrowsOff(q, r, a)
    ensures GrowsOff(p, r, a)
  {
    assert r.layers[..|p.layers|] == r.layers[..|q.layers|][..|p.layers|];
    assert r.inputs[..|p.inputs|] == r.inputs[..|q.inputs|][..|p.inputs|];
    forall i | |p.inputs| <= i < |r.inputs| && r.inputs[i].DenseInput?
      ensures r.inputs[i].addr != a
    {
      if i < |q.inputs| {
        assert r.inputs[i] == r.inputs[..|q.inputs|][i];
      }
    }
  }

  lemma {:induction false} DenseOff(ins: seq<InputSpec>, more: seq<InputSpec>, a: nat)
    requires |ins| <= |more| && more[..|ins|] == ins
    requires forall i :: |ins| <= i < |more| && more[i].DenseInput? ==> more[i].addr != a
    ensures a in DenseShapes(ins) <==> a in DenseShapes(more)
    ensures a in DenseShapes(ins) ==> DenseShapes(more)[a] == DenseShapes(ins)[a]
    decreases |more|
  {
    if |ins| < |more| {
      assert more[..|more| - 1][..|ins|] == ins;
      DenseOff(ins, more[..|more| - 1], a);
    } else {
      assert more == ins;
    }
  }

  /** The same vector lies there. */
  lemma {:induction false} ShapesOff(p: Program, q: Program, a: nat, n: nat)
    requires GrowsOff(p, q, a) && n <= |p.layers|
    ensures a in Shapes(p, n) <==> a in Shapes(q, n)
    ensures a in Shapes(p, n) ==> Shapes(q, n)[a] == Shapes(p, n)[a]
  {
    hide DenseShapes;
    if n == 0 {
      DenseOff(p.inputs, q.inputs, a);
    } else {
      ShapesOff(p, q, a, n - 1);
      assert q.layers[n - 1] == q.layers[..|p.layers|][n - 1];
    }
  }

  /** No vector will be put at address a that is not there already. */
  ghost predicate Settled(c: Ctx, w: Walk, a: int) {
    a < w.p.layoutEnd && forall t :: G.IsPart(c.g, t) && t !in w.done ==> Pin(c, t) != a
  }

  lemma InputOff(p: Program, i: InputSpec, end: nat, a: int)
    requires i.addr != a
    ensures GrowsOff(p, WithInput(p, i, end), a)
  {
  }

  lemma {:induction false} PartsOff(c: Ctx, w: Walk, k: nat, i: nat, a: int)
    requires Inv(c, w, k, k) && IsConcat(c, k) && i <= |c.g.nodes[k].ins| && Settled(c, w, a)
    requires forall j :: 0 <= j < |c.g.nodes[k].ins| && c.g.nodes[k].ins[j] !in w.produced
               ==> c.g.nodes[k].ins[j] in c.g.inputs
    ensures GrowsOff(w.p, PartsAfter(c, w, c.g.nodes[k].ins[..i]).0.p, a)
  {
    hide Inv, PartsAfter, G.IsPart, Pin, Len, GrowsOff, WithInput;
    var ins := c.g.nodes[k].ins;
    if i == 0 {
      PartsNone(c, w, ins);
      SameOff(w.p, a);
    } else {
      var t, r := ins[i - 1], PartsAfter(c, w, ins[..i - 1]);
      PartsOff(c, w, k, i - 1, a);
      PartsNext(c, w, ins, i - 1);
      if t !in w.produced {
        InvCtx(c, w, k, k);
        PartAt(c, k, i - 1);
        DenseUnclaimed(c, w, k, i - 1);
        InputOff(r.0.p, DenseInput(t, Pin(c, t), Len(c, t)), r.0.p.layoutEnd, a);
        GrowsOn(w.p, r.0.p, PartsAfter(c, w, ins[..i]).0.p, a);
      }
    }
  }

  lemma SameOff(p: Program, a: int)
    ensures GrowsOff(p, p, a)
  {
  }

  lemma EmitOff(c: Ctx, w: Walk, k: nat, f: nat, a: int)
    requires Inv(c, w, k, k) && Shaped(c, k) && Emit(c, w, k, f).Ok? && Settled(c, w, a)
    ensures GrowsOff(w.p, Emit(c, w, k, f).value.p, a)
  {
    hide Inv, Next, PartsAfter, PartsLen, TableBytes, FcProgram, FcRecord, AfterLayer, G.NodeShaped, G.Fused, G.IsPart,
         Pin;
    var n := c.g.nodes[k];
    if n.GatherNode? {
      TableShape(c, k);
      GatherIs(c, w, k);
    } else if n.ConcatNode? {
      assert n.ins[..|n.ins|] == n.ins;
      PartsOff(c, w, k, |n.ins|, a);
    } else if n.MatMulNode? {
      MatMulOff(c, w, k, f, a);
    }
  }

  lemma MatMulOff(c: Ctx, w: Walk, k: nat, f: nat, a: int)
    requires Shaped(c, k) && c.g.nodes[k].MatMulNode? && a < w.p.layoutEnd
    ensures GrowsOff(w.p, MatMulAfter(c, w, k, f).p, a)
  {
    hide Next, FcProgram, FcRecord, AfterLayer, AfterConsts, G.NodeShaped, Pad16, G.ChainOut, G.IsFinal;
    var n := c.g.nodes[k];
    var u := DenseAfter(w, n.x, n.K);
    DenseKeeps(w, n.x, n.K);
    FcProgramEnds(c, u, k, f);
    FcProgramInputs(c, u, k, f);
  }

  lemma FcProgramInputs(c: Ctx, w: Walk, k: nat, f: nat)
    requires Shaped(c, k) && c.g.nodes[k].MatMulNode? && c.g.nodes[k].x in w.produced
    ensures FcProgram(c, w, k, f).inputs == w.p.inputs
  {
    hide Next, WeightBytes, Stored, G.BiasBytes, Biases, FcRecord, AfterWeights, AfterConsts;
  }

  // ----- what any later node leaves alone -----

  /** Layers are only ever added. */
  lemma EmitExtends(c: Ctx, w: Walk, k: nat, f: nat)
    requires Shaped(c, k) && Emit(c, w, k, f).Ok?
    ensures w.p.layers <= Emit(c, w, k, f).value.p.layers
  {
    hide Next, PartsAfter, PartsLen, TableBytes, FcProgram, FcRecord, AfterLayer, AfterConsts, G.NodeShaped, G.Fused,
         G.IsPart, G.ChainOut, G.IsFinal, Pin;
    var n := c.g.nodes[k];
    if n.GatherNode? {
      TableShape(c, k);
      GatherIs(c, w, k);
    } else if n.MatMulNode? {
      DenseKeeps(w, n.x, n.K);
      FcProgramEnds(c, DenseAfter(w, n.x, n.K), k, f);
    }
  }

  /** From node k to the end. */
  lemma {:induction false} RunExtends(c: Ctx, k: nat, m: nat)
    requires AllShaped(c) && k <= m <= |c.g.nodes| && Run(c, Start(c), k).Ok? && Run(c, Start(c), m).Ok?
    ensures Run(c, Start(c), k).value.p.layers <= Run(c, Start(c), m).value.p.layers
  {
    hide Emit, Start, Shaped;
    if k < m {
      RunExtends(c, k, m - 1);
      ShapedOne(c, m - 1);
      EmitExtends(c, Run(c, Start(c), m - 1).value, m - 1, FcCount(c.g, m - 1));
    }
  }

  // ----- where aliases and stale parts lie -----

  /** A part that comes from a Gather. */
  predicate GatherPart(c: Ctx, u: string) {
    G.IsPart(c.g, u) && u !in c.g.inputs
  }

  ghost predicate AliasAt(c: Ctx, w: Walk, u: string, t: string) {
    (t in w.produced ==> w.produced[t].0 == Pin(c, u)) && (t != u ==> t in w.produced)
  }

  /** Aliases of a part lie at its pin. */
  ghost predicate AliasesAt(c: Ctx, w: Walk, k: nat)
    requires k <= |c.g.nodes|
  {
    forall u, t :: GatherPart(c, u) && t in G.Aliases(c.g, k, u) ==> AliasAt(c, w, u, t)
  }

  /** The Concat that has overwritten t. */
  ghost predicate StaleBy(c: Ctx, w: Walk, t: string, q: nat) {
    && IsConcat(c, q) && |c.g.nodes[q].ins| > 1 && GatherPart(c, c.g.nodes[q].ins[0]) && t in w.produced
    && w.produced[t].0 == Pin(c, c.g.nodes[q].out) && Len(c, t) < Len(c, c.g.nodes[q].out) && Len(c, t) % 16 == 0
  }

  ghost predicate StaleFound(c: Ctx, w: Walk, k: nat, t: string) {
    exists q: nat :: q < k && StaleBy(c, w, t, q)
  }

  ghost predicate StaleAtBase(c: Ctx, w: Walk, k: nat)
    requires k <= |c.g.nodes|
  {
    forall t :: t in G.Stale(c.g, k) ==> StaleFound(c, w, k, t)
  }

  /** A concatenated vector stays readable at its buffer. */
  ghost predicate BufferLive(c: Ctx, w: Walk, q: nat) {
    IsConcat(c, q) && c.g.nodes[q].out in w.live && c.g.nodes[q].out in w.produced
    && w.produced[c.g.nodes[q].out].0 == Pin(c, c.g.nodes[q].out)
  }

  ghost predicate BuffersLive(c: Ctx, w: Walk, k: nat) {
    forall q: nat :: q < k && IsConcat(c, q) ==> BufferLive(c, w, q)
  }

  /** MatMuls have made their graph inputs known. */
  ghost predicate InputsRead(c: Ctx, w: Walk, k: nat) {
    forall j :: 0 <= j < k && j < |c.g.nodes| && c.g.nodes[j].MatMulNode? ==> c.g.nodes[j].x in w.produced
  }

  ghost predicate Traced(c: Ctx, w: Walk, k: nat)
    requires k <= |c.g.nodes|
  {
    AliasesAt(c, w, k) && StaleAtBase(c, w, k) && BuffersLive(c, w, k) && InputsRead(c, w, k)
  }

  /** What node k changes: the tensor it yields, and the graph input a MatMul reads. */
  ghost predicate Changes(c: Ctx, w: Walk, v: Walk, k: nat)
    requires k < |c.g.nodes|
  {
    var n := c.g.nodes[k];
    && (forall t :: t in w.produced ==> t in v.produced)
    && (forall t :: t in v.produced && t != OutOf(c.g, k) && !(n.MatMulNode? && t == n.x && t in c.g.inputs) ==>
          t in w.produced && v.produced[t] == w.produced[t])
    && (forall t :: t in w.live && t in w.produced && t != OutOf(c.g, k) ==>
          t in v.live || (n.ConcatNode? && w.produced[t].0 == Pin(c, n.out)))
    && (n.GatherNode? && GatherPart(c, n.out) && n.out in v.produced ==> v.produced[n.out].0 == Pin(c, n.out))
    && (n.ConcatNode? ==> n.out in v.live && n.out in v.produced && v.produced[n.out].0 == Pin(c, n.out))
    && (n.MatMulNode? ==> n.x in v.produced)
    && (n.IdentityNode? ==> n.input in w.produced && v.produced == w.produced[n.out := w.produced[n.input]])
  }

  lemma EmitChanges(c: Ctx, w: Walk, k: nat, f: nat)
    requires CtxOk(c) && Shaped(c, k) && Emit(c, w, k, f).Ok?
    ensures Changes(c, w, Emit(c, w, k, f).value, k)
  {
    hide CtxOk, Next, PartsAfter, PartsLen, TableBytes, FcProgram, FcRecord, AfterLayer, G.NodeShaped, G.Fused,
         G.IsPart, G.ChainOut, G.IsFinal;
    var n := c.g.nodes[k];
    if n.GatherNode? {
      TableShape(c, k);
      GatherIs(c, w, k);
      GatherPinned(c, k);
    } else if n.MatMulNode? {
      var u := DenseAfter(w, n.x, n.K);
      DenseKeeps(w, n.x, n.K);
      FcAfterIs(c, u, k, f);
    }
  }

  // ----- names -----

  /** Aliases are the tensor itself and outputs of Identity nodes before. */
  lemma {:induction false} AliasNames(c: Ctx, k: nat, u: string, t: string)
    requires k <= |c.g.nodes| && t in G.Aliases(c.g, k, u)
    ensures t == u || exists i :: 0 <= i < k && c.g.nodes[i].IdentityNode? && c.g.nodes[i].out == t
  {
    if k > 0 {
      if t in G.Aliases(c.g, k - 1, u) {
        AliasNames(c, k - 1, u, t);
      } else {
        assert c.g.nodes[k - 1].IdentityNode? && c.g.nodes[k - 1].out == t;
      }
    }
  }

  /** Stale tensors are parts, or outputs of Identity nodes before; none is a graph input. */
  lemma {:induction false} StaleNames(c: Ctx, k: nat, t: string)
    requires CtxOk(c) && k <= |c.g.nodes| && t in G.Stale(c.g, k)
    ensures GatherPart(c, t) || exists i :: 0 <= i < k && c.g.nodes[i].IdentityNode? && c.g.nodes[i].out == t
    ensures t !in c.g.inputs
  {
    hide CtxOk, G.Aliases;
    if t in G.Stale(c.g, k - 1) {
      StaleNames(c, k - 1, t);
    } else if c.g.nodes[k - 1].IdentityNode? {
      OutNotInput(c, k - 1);
      assert c.g.nodes[k - 1].out == t;
    } else {
      var u := c.g.nodes[k - 1].ins[0];
      AliasNames(c, k - 1, u, t);
      PartAt(c, k - 1, 0);
      if t != u {
        var i :| 0 <= i < k - 1 && c.g.nodes[i].IdentityNode? && c.g.nodes[i].out == t;
        OutNotInput(c, i);
      }
    }
  }

  /** No other Identity or Concat yields what node k does. */
  lemma FreshName(c: Ctx, k: nat, i: nat)
    requires CtxOk(c) && k < |c.g.nodes| && i < |c.g.nodes| && i != k
             && (c.g.nodes[i].IdentityNode? || c.g.nodes[i].ConcatNode?)
    ensures c.g.nodes[i].out != OutOf(c.g, k)
  {
    hide CtxOk, G.Sole;
    SameOut(c, i, k);
    if c.g.nodes[k].MatMulNode? {
      if G.FusedAdd(c.g, k) >= 0 {
        SameOut(c, i, G.FusedAdd(c.g, k));
      }
      if G.FusedRelu(c.g, k) >= 0 {
        SameOut(c, i, G.FusedRelu(c.g, k));
      }
    }
  }

  /** What node k yields is no alias and not stale yet, unless it is a Gather's own part. */
  lemma YieldIsNew(c: Ctx, k: nat, u: string)
    requires CtxOk(c) && k < |c.g.nodes| && GatherPart(c, u)
    ensures OutOf(c.g, k) in G.Aliases(c.g, k, u) ==> c.g.nodes[k].GatherNode? && OutOf(c.g, k) == u
    ensures OutOf(c.g, k) in G.Stale(c.g, k) ==> c.g.nodes[k].GatherNode?
  {
    hide CtxOk, G.IsPart, G.Aliases, G.Stale, G.ChainOut;
    var t := OutOf(c.g, k);
    OutIsPart(c, k);
    forall i: nat | i < k && c.g.nodes[i].IdentityNode?
      ensures c.g.nodes[i].out != t
    {
      FreshName(c, k, i);
    }
    if t in G.Aliases(c.g, k, u) {
      AliasNames(c, k, u, t);
    }
    if t in G.Stale(c.g, k) {
      StaleNames(c, k, t);
    }
  }

  lemma OutIsPart(c: Ctx, k: nat)
    requires CtxOk(c) && k < |c.g.nodes|
    ensures G.IsPart(c.g, OutOf(c.g, k)) ==> c.g.nodes[k].GatherNode?
  {
    hide CtxOk, G.IsPart, G.ChainOut;
    if c.g.nodes[k].MatMulNode? {
      ChainNotPart(c, k);
    } else if !c.g.nodes[k].GatherNode? {
      NotPart(c, k);
    }
  }

  // ----- one node -----

  lemma AliasNotInput(c: Ctx, k: nat, u: string, t: string)
    requires CtxOk(c) && k <= |c.g.nodes| && GatherPart(c, u) && t in G.Aliases(c.g, k, u)
    ensures t !in c.g.inputs
  {
    hide CtxOk, G.Aliases, G.IsPart;
    AliasNames(c, k, u, t);
    if t != u {
      var i :| 0 <= i < k && c.g.nodes[i].IdentityNode? && c.g.nodes[i].out == t;
      OutNotInput(c, i);
    }
  }

  lemma AliasesNext(c: Ctx, w: Walk, v: Walk, k: nat)
    requires CtxOk(c) && k < |c.g.nodes| && Changes(c, w, v, k) && AliasesAt(c, w, k)
    ensures AliasesAt(c, v, k + 1)
  {
    hide CtxOk, G.IsPart, G.ChainOut;
    forall u, t | GatherPart(c, u) && t in G.Aliases(c.g, k + 1, u)
      ensures AliasAt(c, v, u, t)
    {
      YieldIsNew(c, k, u);
      if t in G.Aliases(c.g, k, u) {
        AliasNotInput(c, k, u, t);
        assert AliasAt(c, w, u, t);
      } else {
        assert AliasAt(c, w, u, c.g.nodes[k].input);
      }
    }
  }

  lemma BuffersNext(c: Ctx, w: Walk, v: Walk, k: nat)
    requires CtxOk(c) && k < |c.g.nodes| && Changes(c, w, v, k) && BuffersLive(c, w, k)
    ensures BuffersLive(c, v, k + 1)
  {
    hide CtxOk, G.IsPart, G.ChainOut, OutOf;
    forall q: nat | q < k + 1 && IsConcat(c, q)
      ensures BufferLive(c, v, q)
    {
      if q < k {
        assert BufferLive(c, w, q);
        FreshName(c, k, q);
        OutNotInput(c, q);
        if c.g.nodes[k].ConcatNode? {
          BuffersApart(c, q, k);
        }
      }
    }
  }

  /** A stale tensor stays where it was. */
  lemma StaleKept(c: Ctx, w: Walk, v: Walk, k: nat, t: string, q: nat)
    requires Inv(c, w, k, k) && k < |c.g.nodes| && Changes(c, w, v, k) && StaleBy(c, w, t, q) && t in G.Stale(c.g, k)
    ensures StaleBy(c, v, t, q)
  {
    hide Inv, G.IsPart, G.ChainOut, G.Stale, G.Aliases;
    InvCtx(c, w, k, k);
    StaleNames(c, k, t);
    YieldIsNew(c, k, c.g.nodes[q].ins[0]);
    if t == OutOf(c.g, k) {
      GatherUnclaimed(c, w, k);
      forall i: nat | i < k && c.g.nodes[i].IdentityNode?
        ensures c.g.nodes[i].out != t
      {
        FreshName(c, k, i);
      }
      Waits(c, w, k, t);
    }
  }

  lemma Waits(c: Ctx, w: Walk, k: nat, t: string)
    requires Inv(c, w, k, k)
    ensures GatherPart(c, t) && t in w.produced ==> t in w.done
  {
    hide CtxOk, Partial, Aligned, Placed, DoneOk, ReadsOk, KeptOk, TailOk, G.IsPart, LiveTensor;
    assert Gathered(c, w.produced, t) ==> WaitingPart(c, w, k, t);
  }

  /** An Identity's copy of a stale tensor is stale. */
  lemma StaleCopy(c: Ctx, w: Walk, v: Walk, k: nat)
    requires CtxOk(c) && k < |c.g.nodes| && c.g.nodes[k].IdentityNode? && Changes(c, w, v, k)
    requires StaleFound(c, w, k, c.g.nodes[k].input)
    ensures StaleFound(c, v, k + 1, c.g.nodes[k].out)
  {
    hide CtxOk, G.IsPart, Changes;
    var q: nat :| q < k && StaleBy(c, w, c.g.nodes[k].input, q);
    SameLens(c, k);
    IdentityChanges(c, w, v, k);
    assert StaleBy(c, v, c.g.nodes[k].out, q);
  }

  lemma StaleNext(c: Ctx, w: Walk, v: Walk, k: nat)
    requires Inv(c, w, k, k) && k < |c.g.nodes| && Changes(c, w, v, k) && AliasesAt(c, w, k) && StaleAtBase(c, w, k)
    requires IsConcat(c, k) ==> forall j :: 0 <= j < |c.g.nodes[k].ins| && c.g.nodes[k].ins[j] !in w.produced
                                  ==> c.g.nodes[k].ins[j] in c.g.inputs
    ensures StaleAtBase(c, v, k + 1)
  {
    hide Inv, G.IsPart, G.ChainOut, G.Aliases, OutOf, Changes, AliasesAt, StaleBy;
    InvCtx(c, w, k, k);
    var m := k + 1;
    forall t | t in G.Stale(c.g, m)
      ensures StaleFound(c, v, m, t)
    {
      if t in G.Stale(c.g, k) {
        assert StaleFound(c, w, k, t);
        var q: nat :| q < k && StaleBy(c, w, t, q);
        StaleKept(c, w, v, k, t, q);
      } else if c.g.nodes[k].IdentityNode? {
        StaleCopy(c, w, v, k);
      } else {
        NewlyStale(c, w, v, k, t);
      }
    }
  }

  lemma IdentityChanges(c: Ctx, w: Walk, v: Walk, k: nat)
    requires k < |c.g.nodes| && Changes(c, w, v, k) && c.g.nodes[k].IdentityNode?
    ensures c.g.nodes[k].input in w.produced
            && v.produced == w.produced[c.g.nodes[k].out := w.produced[c.g.nodes[k].input]]
  {
  }

  /** A longer Concat overwrites its first part and what aliases it. */
  lemma NewlyStale(c: Ctx, w: Walk, v: Walk, k: nat, t: string)
    requires CtxOk(c) && IsConcat(c, k) && Changes(c, w, v, k) && AliasesAt(c, w, k)
    requires forall j :: 0 <= j < |c.g.nodes[k].ins| && c.g.nodes[k].ins[j] !in w.produced
               ==> c.g.nodes[k].ins[j] in c.g.inputs
    requires var ins := c.g.nodes[k].ins; |ins| > 1 && ins[0] !in c.g.inputs && t in G.Aliases(c.g, k, ins[0])
    ensures StaleBy(c, v, t, k)
  {
    hide CtxOk, G.IsPart, G.Aliases;
    var ins := c.g.nodes[k].ins;
    PartAt(c, k, 0);
    assert AliasAt(c, w, ins[0], t);
    YieldIsNew(c, k, ins[0]);
    ConcatPlaces(c, k);
    assert ins[..0] == [];
    AliasLength(c, k, ins[0], t);
    LongerThanFirst(c, k);
    FirstAligned(c, k);
  }

  /** The second part starts at a multiple of sixteen. */
  lemma FirstAligned(c: Ctx, k: nat)
    requires CtxOk(c) && IsConcat(c, k) && |c.g.nodes[k].ins| > 1
    ensures Len(c, c.g.nodes[k].ins[0]) % 16 == 0
  {
    hide CtxOk, G.IsPart, Pad16;
    var ins := c.g.nodes[k].ins;
    ConcatFacts(c, k);
    ConcatPlaces(c, k);
    PartFacts(c, ins[1]);
    PartFacts(c, ins[0]);
    assert ins[..1] == [ins[0]] && ins[..1][..0] == [] && G.SumLens(c.g.lens, []) == 0;
  }

  lemma LongerThanFirst(c: Ctx, k: nat)
    requires CtxOk(c) && IsConcat(c, k) && |c.g.nodes[k].ins| > 1
    ensures Len(c, c.g.nodes[k].ins[0]) < Len(c, c.g.nodes[k].out)
  {
    hide CtxOk;
    var ins := c.g.nodes[k].ins;
    ConcatFacts(c, k);
    FirstLength(c, k);
    var front := ins[..|ins| - 1];
    assert front[0] == ins[0];
    Sums(c, front);
    LastAdds(c, ins);
  }

  lemma LastAdds(c: Ctx, ins: seq<string>)
    requires |ins| > 0
    ensures G.SumLens(c.g.lens, ins) == G.SumLens(c.g.lens, ins[..|ins| - 1]) + Len(c, ins[|ins| - 1])
  {
  }

  lemma InputsNext(c: Ctx, w: Walk, v: Walk, k: nat)
    requires k < |c.g.nodes| && Changes(c, w, v, k) && InputsRead(c, w, k)
    ensures InputsRead(c, v, k + 1)
  {
    hide OutOf;
  }

  lemma TracedNext(c: Ctx, w: Walk, k: nat, f: nat)
    requires Inv(c, w, k, k) && Shaped(c, k) && Emit(c, w, k, f).Ok? && Traced(c, w, k)
    ensures Traced(c, Emit(c, w, k, f).value, k + 1)
  {
    hide Inv, AliasesAt, StaleAtBase, BuffersLive, InputsRead, Changes, GatherAfter, ConcatAfter, MatMulAfter,
         IdentityWalk, G.Fused, G.NodeShaped;
    var v := Emit(c, w, k, f).value;
    InvCtx(c, w, k, k);
    EmitChanges(c, w, k, f);
    AliasesNext(c, w, v, k);
    StaleNext(c, w, v, k);
    BuffersNext(c, w, v, k);
    InputsNext(c, w, v, k);
  }

  lemma {:induction false} RunTraced(c: Ctx, k: nat)
    requires CtxOk(c) && AllShaped(c) && k <= |c.g.nodes| && Run(c, Start(c), k).Ok? && G.SafeBefore(c.g, k)
    ensures var w := Run(c, Start(c), k).value; Inv(c, w, k, k) && Traced(c, w, k)
  {
    hide Inv, Emit, CtxOk, G.SafeAt, Traced;
    RunOk(c, k);
    if k == 0 {
      StartTraced(c);
    } else {
      RunTraced(c, k - 1);
      ShapedOne(c, k - 1);
      TracedNext(c, Run(c, Start(c), k - 1).value, k - 1, FcCount(c.g, k - 1));
    }
  }

  lemma StartTraced(c: Ctx)
    ensures Traced(c, Start(c), 0)
  {
  }

  // ----- a MatMul that comes late -----

  lemma LayersAt(p: seq<Layer>, q: seq<Layer>, n: nat)
    requires p <= q && n < |p|
    ensures n < |q| && q[n] == p[n]
  {
  }

  /** What the layers so far read stays as long as it is. */
  lemma FitsStill(c: Ctx, w: Walk, k: nat, f: nat, n: nat)
    requires Inv(c, w, k, k) && Shaped(c, k) && Emit(c, w, k, f).Ok? && n < |w.p.layers| && w.p.layers[n].Fc?
    ensures var q := Emit(c, w, k, f).value.p;
            n < |q.layers| && q.layers[n] == w.p.layers[n] && (VectorFits(q, n) <==> VectorFits(w.p, n))
  {
    hide Inv, Emit, Shapes, G.IsPart, Pin;
    var a, v := w.p.layers[n].inAddr, Emit(c, w, k, f).value;
    ReadSettled(c, w, k, n);
    EmitOff(c, w, k, f, a);
    ShapesOff(w.p, v.p, a, n);
    assert v.p.layers[n] == v.p.layers[..|w.p.layers|][n];
  }

  lemma ReadSettled(c: Ctx, w: Walk, k: nat, n: nat)
    requires Inv(c, w, k, k) && n < |w.p.layers| && w.p.layers[n].Fc?
    ensures Settled(c, w, w.p.layers[n].inAddr)
  {
    hide CtxOk, Partial, Aligned, Placed, DoneOk, TensorsOk, KeptOk, TailOk, G.IsPart;
    assert ReadsAt(w.p.layers[n], w.p.layers[n].inAddr);
  }

  /** What the MatMul just walked finds at its input's address. */
  lemma FcFinds(c: Ctx, w: Walk, k: nat, f: nat)
    requires Inv(c, w, k, k) && Shaped(c, k) && c.g.nodes[k].MatMulNode? && Emit(c, w, k, f).Ok?
    ensures var q, u := Emit(c, w, k, f).value.p, DenseAfter(w, c.g.nodes[k].x, c.g.nodes[k].K);
            && |q.layers| == |w.p.layers| + 1 && c.g.nodes[k].x in u.produced && |u.p.layers| == |w.p.layers|
            && var L := q.layers[|w.p.layers|];
               && L.Fc? && L.inAddr == u.produced[c.g.nodes[k].x].0 && L.Kpad == Pad16(Len(c, c.g.nodes[k].x))
               && Shapes(q, |w.p.layers|) == Shapes(u.p, |w.p.layers|)
  {
    hide Inv, FcProgram, FcRecord, AfterLayer, AfterConsts, G.NodeShaped, Pad16, G.ChainOut, G.IsFinal, Shapes, Next;
    var n := c.g.nodes[k];
    var u, q := DenseAfter(w, n.x, n.K), Emit(c, w, k, f).value.p;
    DenseKeeps(w, n.x, n.K);
    FcProgramEnds(c, u, k, f);
    FcProgramInputs(c, u, k, f);
    BiasAddress(c, u, k, f);
    RecordFields(c, u, k, f);
    TensorLength(c, k);
    assert q.layers[..|w.p.layers|] == u.p.layers;
    ShapesSame(u.p, q, |w.p.layers|);
  }

  /** A MatMul that comes in time finds a vector of its input's length. */
  lemma TimelyFits(c: Ctx, w: Walk, k: nat, f: nat)
    requires Inv(c, w, k, k) && Shaped(c, k) && c.g.nodes[k].MatMulNode? && Emit(c, w, k, f).Ok?
    requires G.TimelyAt(c.g, k)
    ensures var q := Emit(c, w, k, f).value.p;
            |q.layers| == |w.p.layers| + 1 && q.layers[|w.p.layers|].Fc? && VectorFits(q, |w.p.layers|)
  {
    hide Inv, Emit, Shapes, LiveTensor, Pad16, DenseAfter, G.Stale, G.NodeShaped, Len;
    var x, u := c.g.nodes[k].x, DenseAfter(w, c.g.nodes[k].x, c.g.nodes[k].K);
    FcFinds(c, w, k, f);
    Begin(c, w, k);
    EmitKnows(c, w, k, f);
    DenseAfterOk(c, w, k, k + 1);
    ReadableInput(c, u, k, k + 1);
    LiveThere(c, u, k, x);
    PadAbove(Len(c, x));
  }

  lemma EmitKnows(c: Ctx, w: Walk, k: nat, f: nat)
    requires Shaped(c, k) && c.g.nodes[k].MatMulNode? && Emit(c, w, k, f).Ok?
    ensures c.g.nodes[k].x in w.produced || c.g.nodes[k].x in c.g.inputs
  {
    hide MatMulAfter;
  }

  /** A MatMul that reads a stale part finds a vector too long for `run_reference` to copy. */
  lemma StaleReadFails(c: Ctx, w: Walk, k: nat, f: nat)
    requires Inv(c, w, k, k) && Shaped(c, k) && c.g.nodes[k].MatMulNode? && Emit(c, w, k, f).Ok? && Traced(c, w, k)
    requires !G.TimelyAt(c.g, k)
    ensures var q := Emit(c, w, k, f).value.p;
            |q.layers| == |w.p.layers| + 1 && q.layers[|w.p.layers|].Fc? && !VectorFits(q, |w.p.layers|)
  {
    hide Inv, Emit, Shapes, LiveTensor, Pad16, G.Stale, G.NodeShaped, Len, G.IsPart, Pin;
    var x := c.g.nodes[k].x;
    FcFinds(c, w, k, f);
    assert StaleFound(c, w, k, x);
    var q: nat :| q < k && StaleBy(c, w, x, q);
    assert BufferLive(c, w, q);
    AllLive(c, w, k, k);
    LiveThere(c, w, k, c.g.nodes[q].out);
    PadSame(Len(c, x));
  }

  lemma PadSame(n: nat)
    requires n % 16 == 0
    ensures Pad16(n) == n
  {
  }

  /** One node: the reference can run the program so far if and only if it could before and the node is in time. */
  lemma FitsNext(c: Ctx, w: Walk, k: nat, f: nat)
    requires Inv(c, w, k, k) && Shaped(c, k) && Emit(c, w, k, f).Ok? && Traced(c, w, k)
    ensures ReferenceRuns(Emit(c, w, k, f).value.p) <==> ReferenceRuns(w.p) && G.TimelyAt(c.g, k)
  {
    hide Inv, Emit, VectorFits, Traced, G.TimelyAt;
    var q := Emit(c, w, k, f).value.p;
    EmitExtends(c, w, k, f);
    forall n | 0 <= n < |w.p.layers| && w.p.layers[n].Fc?
      ensures q.layers[n].Fc? && (VectorFits(q, n) <==> VectorFits(w.p, n))
    {
      FitsStill(c, w, k, f, n);
    }
    forall n | 0 <= n < |w.p.layers|
      ensures q.layers[n] == w.p.layers[n]
    {
      LayersAt(w.p.layers, q.layers, n);
    }
    if !c.g.nodes[k].MatMulNode? {
      NoFc(c, w, k, f);
    } else if G.TimelyAt(c.g, k) {
      TimelyFits(c, w, k, f);
    } else {
      StaleReadFails(c, w, k, f);
    }
  }

  lemma NoFc(c: Ctx, w: Walk, k: nat, f: nat)
    requires Shaped(c, k) && !c.g.nodes[k].MatMulNode? && Emit(c, w, k, f).Ok?
    ensures G.TimelyAt(c.g, k)
    ensures var q := Emit(c, w, k, f).value.p;
            forall n :: |w.p.layers| <= n < |q.layers| ==> !q.layers[n].Fc?
  {
    hide Next, PartsAfter, PartsLen, TableBytes, G.NodeShaped, G.Fused, G.IsPart, Pin;
    var n := c.g.nodes[k];
    if n.GatherNode? {
      TableShape(c, k);
      GatherIs(c, w, k);
    }
  }

  lemma {:induction false} RunFits(c: Ctx, k: nat)
    requires CtxOk(c) && AllShaped(c) && k <= |c.g.nodes| && Run(c, Start(c), k).Ok? && G.SafeBefore(c.g, k)
    ensures ReferenceRuns(Run(c, Start(c), k).value.p) <==> G.TimelyBefore(c.g, k)
  {
    hide Inv, Emit, CtxOk, G.SafeAt, Traced, VectorFits, G.TimelyAt;
    if k > 0 {
      RunFits(c, k - 1);
      RunTraced(c, k - 1);
      ShapedOne(c, k - 1);
      FitsNext(c, Run(c, Start(c), k - 1).value, k - 1, FcCount(c.g, k - 1));
    }
  }

  /** Of the well-formed programs `lower` returns, `run_reference` can run exactly those of graphs in which no MatMul
      reads a part, or an Identity's copy of it, that a longer Concat has overwritten. */
  lemma ReferenceRunsIff(c: Ctx, p: Program)
    requires CtxOk(c) && AllShaped(c) && Lowered(c, p) && G.PartsSafe(c.g)
    ensures ReferenceRuns(p) <==> G.ReadsTimely(c.g)
  {
    hide CtxOk, AllShaped, Run, G.SafeBefore, G.TimelyBefore, VectorFits;
    var w := Run(c, Start(c), |c.g.nodes|).value;
    RunFits(c, |c.g.nodes|);
    SameFits(w.p, p);
  }

  lemma SameFits(p: Program, q: Program)
    requires q.inputs == p.inputs && q.layers == p.layers
    ensures ReferenceRuns(q) <==> ReferenceRuns(p)
  {
    hide Shapes;
    forall n | 0 <= n < |p.layers|
      ensures Shapes(q, n) == Shapes(p, n)
    {
      ShapesSame(p, q, n);
    }
  }

  // ----- a graph input that has been taken -----

  /** Each part's record. */
  lemma {:induction false} PartRecord(c: Ctx, w: Walk, ins: seq<string>, n: nat, i: nat)
    requires i < n <= |ins|
    ensures PartsAfter(c, w, ins[..n]).1[i] == if ins[i] in w.produced
            then LayerPart(w.produced[ins[i]].0, w.produced[ins[i]].1)
              else InputPart(ins[i], Pin(c, ins[i]), Len(c, ins[i]))
  {
    hide PartsAfter, Pin, Len;
    PartsNext(c, w, ins, n - 1);
    if i < n - 1 {
      PartRecord(c, w, ins, n - 1, i);
    }
  }

  lemma {:induction false} TiledAt(p: Program, n: nat, parts: seq<Part>, base: nat, i: nat)
    requires n <= |p.layers| && Tiled(p, n, parts, base) && i < |parts|
    ensures parts[i].addr == base + PartsLen(parts[..i])
    decreases |parts|
  {
    hide PartOk, PartsLen;
    if i < |parts| - 1 {
      TiledAt(p, n, parts[..|parts| - 1], base, i);
      assert parts[..|parts| - 1][..i] == parts[..i];
    }
  }

  lemma {:induction false} LensSum(c: Ctx, ins: seq<string>, parts: seq<Part>, i: nat)
    requires i <= |ins| == |parts| && forall j :: 0 <= j < |ins| ==> parts[j].len == Len(c, ins[j])
    ensures PartsLen(parts[..i]) == G.SumLens(c.g.lens, ins[..i])
  {
    if i > 0 {
      LensSum(c, ins, parts, i - 1);
      assert parts[..i][..i - 1] == parts[..i - 1] && ins[..i][..i - 1] == ins[..i - 1];
    }
  }

  /** What has been produced has its own length. */
  lemma ProducedLength(c: Ctx, w: Walk, k: nat, t: string)
    requires Inv(c, w, k, k) && G.IsPart(c.g, t) && t in w.produced
    ensures w.produced[t].1 == Len(c, t)
  {
    hide CtxOk, Partial, Aligned, Placed, DoneOk, ReadsOk, TailOk, G.IsPart, There, Pad16, Holds;
    if t in c.g.inputs {
      PartIsRead(c, t);
      assert LiveTensor(c, w, k, t);
    } else {
      assert WaitingPart(c, w, k, t);
    }
  }

  lemma PartIsRead(c: Ctx, t: string)
    requires G.IsPart(c.g, t)
    ensures !DeadEnd(c, t)
  {
    var q :| 0 <= q < |c.g.nodes| && G.PartOf(c.g, t, q);
    assert t in G.Reads(c.g.nodes[q]);
  }

  /** Each part's record has the part's length. */
  lemma PartLengths(c: Ctx, w: Walk, k: nat)
    requires Inv(c, w, k, k) && IsConcat(c, k)
    ensures var ins := c.g.nodes[k].ins;
            forall m :: 0 <= m < |ins| ==> PartsAfter(c, w, ins).1[m].len == Len(c, ins[m])
  {
    hide Inv, PartsAfter, G.IsPart, Pin, Len;
    var ins := c.g.nodes[k].ins;
    assert ins[..|ins|] == ins;
    InvCtx(c, w, k, k);
    forall m | 0 <= m < |ins|
      ensures PartsAfter(c, w, ins).1[m].len == Len(c, ins[m])
    {
      PartRecord(c, w, ins, |ins|, m);
      PartAt(c, k, m);
      if ins[m] in w.produced {
        ProducedLength(c, w, k, ins[m]);
      }
    }
  }

  /** A graph input with a region of its own is not where its Concat needs it. */
  lemma TakenPartFails(c: Ctx, w: Walk, k: nat, f: nat, p: Program)
    requires Inv(c, w, k, k) && IsConcat(c, k) && Shaped(c, k) && Emit(c, w, k, f).Ok? && InputsRead(c, w, k)
    requires !G.SafeAt(c.g, k) && Emit(c, w, k, f).value.p.layers <= p.layers
    ensures |w.p.layers| < |p.layers| && !LayerOk(p, |w.p.layers|)
  {
    hide Inv, Emit, PartsAfter, G.IsPart, G.NodeShaped, Pin, Len, PartsLen, Tiled, G.SafeAt;
    var n := |w.p.layers|;
    ConcatLast(c, w, k, f);
    LayersAt(Emit(c, w, k, f).value.p.layers, p.layers, n);
    if LayerOk(p, n) {
      var i := TakenMisplaced(c, w, k);
      TiledAt(p, n, PartsAfter(c, w, c.g.nodes[k].ins).1, Pin(c, c.g.nodes[k].out), i);
    }
  }

  /** The taken part's record names the input's own region, not its place behind the parts before it. */
  lemma TakenMisplaced(c: Ctx, w: Walk, k: nat) returns (i: nat)
    requires Inv(c, w, k, k) && IsConcat(c, k) && InputsRead(c, w, k) && !G.SafeAt(c.g, k)
    ensures var parts := PartsAfter(c, w, c.g.nodes[k].ins).1;
            i < |parts| && parts[i].addr != Pin(c, c.g.nodes[k].out) + PartsLen(parts[..i])
  {
    hide Inv, CtxOk, PartsAfter, G.IsPart, Pin, Len, PartsLen, G.SafeAt;
    var j: nat;
    i, j := TakenIn(c.g, k);
    InvCtx(c, w, k, k);
    TakenRecord(c, w, k, i, j);
    PartPlace(c, w, k, i);
  }

  lemma TakenRecord(c: Ctx, w: Walk, k: nat, i: nat, j: nat)
    requires Inv(c, w, k, k) && IsConcat(c, k) && InputsRead(c, w, k) && i < |c.g.nodes[k].ins|
    requires j < k && c.g.nodes[j].MatMulNode? && c.g.nodes[j].x == c.g.nodes[k].ins[i]
    requires c.g.nodes[k].ins[i] in c.g.inputs
    ensures PartsAfter(c, w, c.g.nodes[k].ins).1[i].addr >= c.walkStart
  {
    hide Inv, CtxOk, PartsAfter, G.IsPart, Pin, Len;
    var ins := c.g.nodes[k].ins;
    assert ins[..|ins|] == ins;
    PartRecord(c, w, ins, |ins|, i);
    Owned(c, w, k, ins[i]);
  }

  /** The place behind the parts before it is the part's pinned address. */
  lemma PartPlace(c: Ctx, w: Walk, k: nat, i: nat)
    requires Inv(c, w, k, k) && IsConcat(c, k) && CtxOk(c) && i < |c.g.nodes[k].ins|
    ensures Pin(c, c.g.nodes[k].out) + PartsLen(PartsAfter(c, w, c.g.nodes[k].ins).1[..i]) < c.walkStart
  {
    hide Inv, CtxOk, PartsAfter, G.IsPart, Pin, Len, PartsLen;
    var ins := c.g.nodes[k].ins;
    PartLengths(c, w, k);
    LensSum(c, ins, PartsAfter(c, w, ins).1, i);
    ConcatPlaces(c, k);
    PartBelow(c, ins[i]);
  }

  lemma TakenIn(g: G.Graph, k: nat) returns (i: nat, j: nat)
    requires k < |g.nodes| && g.nodes[k].ConcatNode? && !G.SafeAt(g, k)
    ensures i < |g.nodes[k].ins| && g.nodes[k].ins[i] in g.inputs
    ensures j < k && g.nodes[j].MatMulNode? && g.nodes[j].x == g.nodes[k].ins[i]
  {
    i, j :| 0 <= i < |g.nodes[k].ins| && g.nodes[k].ins[i] in g.inputs && 0 <= j < k && g.nodes[j].MatMulNode?
      && g.nodes[j].x == g.nodes[k].ins[i];
  }

  lemma ConcatLast(c: Ctx, w: Walk, k: nat, f: nat)
    requires IsConcat(c, k) && Shaped(c, k) && Emit(c, w, k, f).Ok?
    ensures var q := Emit(c, w, k, f).value.p;
            |q.layers| == |w.p.layers| + 1 && q.layers[|w.p.layers|] == ConcatRecord(c, w, k)
  {
    hide PartsAfter, PartsLen, Pin, G.NodeShaped;
  }

  lemma Owned(c: Ctx, w: Walk, k: nat, t: string)
    requires Inv(c, w, k, k) && t in w.produced && t in c.g.inputs
    ensures w.produced[t].0 >= c.walkStart
  {
    hide CtxOk, Partial, Aligned, Placed, DoneOk, ReadsOk, TensorsOk, TailOk, G.Stale, DeadEnd;
    assert OwnRegion(c, w.produced, k, t);
  }

  lemma PartBelow(c: Ctx, t: string)
    requires CtxOk(c) && G.IsPart(c.g, t)
    ensures Pin(c, t) < c.walkStart
  {
    hide CtxOk, Pad16, G.IsPart;
    PartFacts(c, t);
    PadAbove(Len(c, t));
  }

  /** The earliest node that is not safe. */
  lemma {:induction false} FirstUnsafe(g: G.Graph, m: nat) returns (k: nat)
    requires m <= |g.nodes| && !G.SafeBefore(g, m)
    ensures k < m && !G.SafeAt(g, k) && G.SafeBefore(g, k)
  {
    hide G.SafeAt;
    if G.SafeBefore(g, m - 1) {
      k := m - 1;
    } else {
      k := FirstUnsafe(g, m - 1);
    }
  }

  lemma {:induction false} RunBefore(c: Ctx, k: nat, m: nat)
    requires AllShaped(c) && k <= m <= |c.g.nodes| && Run(c, Start(c), m).Ok?
    ensures Run(c, Start(c), k).Ok?
  {
    hide Emit, AllShaped;
    if k < m {
      RunBefore(c, k, m - 1);
    }
  }

  /** `lower` does not look at who reads a part when. What it returns is well formed if and only if no Concat takes a
      graph input that a MatMul has taken before. */
  lemma WellFormedIff(c: Ctx, p: Program)
    requires CtxOk(c) && AllShaped(c) && Lowered(c, p) && p.layoutEnd <= DDR2_BYTES
    ensures WellFormed(p) <==> G.PartsSafe(c.g)
  {
    hide Inv, CtxOk, AllShaped, WellFormed, Run, TailOk, G.SafeBefore, LayerOk, G.Named;
    var m := |c.g.nodes|;
    var w := Run(c, Start(c), m).value;
    if G.PartsSafe(c.g) {
      RunOk(c, m);
      CtxNamed(c);
      RunTail(c, m);
      TailLast(c, w, m);
      LoweredOk(c, w, p);
    } else {
      var n := UnsafeFails(c, p);
      if WellFormed(p) {
        LayerOkAt(p, n);
      }
    }
  }

  lemma CtxNamed(c: Ctx)
    requires CtxOk(c)
    ensures G.Named(c.g)
  {
    hide PinsOk, SlotsOk, G.Named, G.PartsUnshared, G.IsFinal;
  }

  lemma TailLast(c: Ctx, w: Walk, k: nat)
    requires TailOk(c, w, k) && w.lastFc >= 0
    ensures w.lastMat >= 0
  {
    hide G.IsFinal;
  }

  lemma UnsafeFails(c: Ctx, p: Program) returns (n: nat)
    requires CtxOk(c) && AllShaped(c) && Lowered(c, p) && !G.PartsSafe(c.g)
    ensures n < |p.layers| && !LayerOk(p, n)
  {
    hide Inv, CtxOk, Run, G.SafeBefore, LayerOk, Emit, AliasesAt, StaleAtBase, BuffersLive, InputsRead, Shaped,
         G.SafeAt;
    var m := |c.g.nodes|;
    var k := FirstUnsafe(c.g, m);
    RunBefore(c, k, m);
    RunBefore(c, k + 1, m);
    RunTraced(c, k);
    RunNext(c, k);
    RunExtends(c, k + 1, m);
    var w := Run(c, Start(c), k).value;
    n := |w.p.layers|;
    UnsafeIsConcat(c, k);
    TakenPartFails(c, w, k, FcCount(c.g, k), p);
  }

  lemma RunNext(c: Ctx, k: nat)
    requires AllShaped(c) && k < |c.g.nodes| && Run(c, Start(c), k + 1).Ok?
    ensures Run(c, Start(c), k).Ok? && Shaped(c, k)
            && Run(c, Start(c), k + 1) == Emit(c, Run(c, Start(c), k).value, k, FcCount(c.g, k))
  {
    hide Emit;
    ShapedOne(c, k);
  }

  lemma UnsafeIsConcat(c: Ctx, k: nat)
    requires k < |c.g.nodes| && !G.SafeAt(c.g, k)
    ensures IsConcat(c, k)
  {
  }
}
