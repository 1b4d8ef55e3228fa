/** What becomes of a graph input that a MatMul takes before its Concat does: nothing is ever written to its place in
    the Concat's buffer, in any mode and for any feed. */
module TakenParts {
  import opened Bytes
  import opened Program
  import opened Agreement
  import opened Layout
  import opened Walk
  import opened WalkSteps
  import opened WalkLayers
  import opened Emission
  import opened NodeSteps
  import opened Lowering
  import opened PartReads
  import opened Faithful
  import Requant
  import G = Graph

  /** Nothing in [b, b + m) belongs to part t's slice of its buffer. */
  predicate Off(c: Ctx, t: string, b: nat, m: nat) {
    Apart(b, m, Pin(c, t), Pad16(Len(c, t)))
  }

  /** No layer, no input and no constant is placed in part t's slice. */
  ghost predicate SlotFree(c: Ctx, p: Program, t: string) {
    && (forall n :: 0 <= n < |p.layers| ==> Clear(p.layers[n], Pin(c, t), Pad16(Len(c, t))))
    && (forall j :: 0 <= j < |p.inputs| ==> Off(c, t, p.inputs[j].addr, Pad16(p.inputs[j].Size())))
    && (forall s :: 0 <= s < |p.segments| ==> Off(c, t, p.segments[s].addr, p.segments[s].length))
  }

  /** Concat k has graph input t as a part, and MatMul j took it before. */
  predicate Taken(c: Ctx, j: nat, k: nat, t: string) {
    j < k && IsConcat(c, k) && t in c.g.nodes[k].ins && t in c.g.inputs && c.g.nodes[j].MatMulNode?
    && c.g.nodes[j].x == t
  }

  /** Slots and everything placed fresh lie behind all parts. */
  lemma BehindOff(c: Ctx, t: string, b: nat, m: nat)
    requires CtxOk(c) && G.IsPart(c.g, t) && b >= c.slotStart
    ensures Off(c, t, b, m)
  {
    hide CtxOk, G.IsPart, Pad16;
    PartFacts(c, t);
  }

  lemma OtherOff(c: Ctx, t: string, u: string)
    requires CtxOk(c) && G.IsPart(c.g, t) && G.IsPart(c.g, u) && u != t
    ensures Off(c, t, Pin(c, u), Pad16(Len(c, u)))
  {
    hide CtxOk, G.IsPart, Pad16;
    PartsApart(c, u, t);
  }

  /** A graph is unsafe exactly if some part has been taken. */
  lemma UnsafeIffTaken(c: Ctx)
    ensures !G.PartsSafe(c.g) <==> exists j: nat, k: nat, t :: Taken(c, j, k, t)
  {
    if j: nat, k: nat, t :| Taken(c, j, k, t) {
      var i :| 0 <= i < |c.g.nodes[k].ins| && c.g.nodes[k].ins[i] == t;
      assert !G.SafeAt(c.g, k);
    } else if !G.PartsSafe(c.g) {
      var k :| 0 <= k < |c.g.nodes| && !G.SafeAt(c.g, k);
      var i, j :| 0 <= i < |c.g.nodes[k].ins| && c.g.nodes[k].ins[i] in c.g.inputs && 0 <= j < k
        && c.g.nodes[j].MatMulNode? && c.g.nodes[j].x == c.g.nodes[k].ins[i];
      assert Taken(c, j, k, c.g.nodes[k].ins[i]);
    }
  }

  // ----- one node -----

  lemma GatherFree(c: Ctx, w: Walk, k: nat, t: string)
    requires CtxOk(c) && Shaped(c, k) && c.g.nodes[k].GatherNode? && G.IsPart(c.g, t) && t in c.g.inputs
    requires SlotFree(c, w.p, t) && c.slotStart <= w.p.layoutEnd
    ensures SlotFree(c, GatherAfter(c, w, k).p, t)
  {
    hide CtxOk, Off, TableBytes, GatherAfter, G.IsPart, G.NodeShaped, Pad16, Stored, Apart;
    var n, v := c.g.nodes[k], GatherAfter(c, w, k);
    TableShape(c, k);
    GatherIs(c, w, k);
    GatherPinned(c, k);
    OutNotInput(c, k);
    var d, L := |TableBytes(n)|, v.p.layers[|w.p.layers|];
    BehindOff(c, t, w.p.layoutEnd, d);
    BehindOff(c, t, Next(w.p.layoutEnd, d), Pad16(4));
    TensorLengths(c, k);
    if n.out in c.pins {
      OtherOff(c, t, n.out);
    } else {
      BehindOff(c, t, L.outAddr, L.dimBytes);
    }
    ClearOff(c, t, L);
  }

  lemma TensorLengths(c: Ctx, k: nat)
    requires Shaped(c, k) && c.g.nodes[k].GatherNode?
    ensures Len(c, c.g.nodes[k].out) == c.g.nodes[k].dim
  {
  }

  lemma ClearOff(c: Ctx, t: string, L: Layer)
    requires L.Gather? && Off(c, t, L.outAddr, L.dimBytes)
    ensures Clear(L, Pin(c, t), Pad16(Len(c, t)))
  {
    hide Pad16, Pin, Len;
  }

  lemma {:induction false} PartsFree(c: Ctx, w: Walk, k: nat, i: nat, t: string)
    requires CtxOk(c) && IsConcat(c, k) && i <= |c.g.nodes[k].ins| && G.IsPart(c.g, t) && SlotFree(c, w.p, t)
    requires t in c.g.nodes[k].ins ==> t in w.produced
    ensures SlotFree(c, PartsAfter(c, w, c.g.nodes[k].ins[..i]).0.p, t)
  {
    hide CtxOk, PartsAfter, G.IsPart, Off, Clear, Pad16, Pin, Len;
    var ins := c.g.nodes[k].ins;
    if i == 0 {
      PartsNone(c, w, ins);
    } else {
      PartsFree(c, w, k, i - 1, t);
      PartsNext(c, w, ins, i - 1);
      if ins[i - 1] !in w.produced {
        PartAt(c, k, i - 1);
        OtherOff(c, t, ins[i - 1]);
      }
    }
  }

  lemma DenseFree(c: Ctx, w: Walk, x: string, n: nat, t: string)
    requires CtxOk(c) && G.IsPart(c.g, t) && SlotFree(c, w.p, t) && c.slotStart <= w.p.layoutEnd
    ensures SlotFree(c, DenseAfter(w, x, n).p, t)
  {
    hide CtxOk, G.IsPart, Off, Clear, Pad16, Next;
    BehindOff(c, t, w.p.layoutEnd, Pad16(n));
  }

  lemma MatMulFree(c: Ctx, w: Walk, k: nat, f: nat, t: string)
    requires CtxOk(c) && Shaped(c, k) && c.g.nodes[k].MatMulNode? && G.IsPart(c.g, t)
    requires SlotFree(c, w.p, t) && c.slotStart <= w.p.layoutEnd
    ensures SlotFree(c, MatMulAfter(c, w, k, f).p, t) && c.slotStart <= MatMulAfter(c, w, k, f).p.layoutEnd
  {
    hide CtxOk, G.IsPart, Off, Clear, Pad16, Next, Apart, WeightBytes, FcProgram, FcRecord, AfterConsts, AfterLayer,
         SlotOf, G.NodeShaped, Stored, G.BiasBytes, Biases, G.ChainOut, G.IsFinal, DenseAfter, Requant.Params,
         G.FusedRelu;
    var n := c.g.nodes[k];
    var u := DenseAfter(w, n.x, n.K);
    DenseFree(c, w, n.x, n.K, t);
    DenseKeeps(w, n.x, n.K);
    EndsGrow(c, w, k, f);
    WeightShape(c, k);
    FcProgramIs(c, u, k, f);
    FcAfterIs(c, u, k, f);
    NextAbove(u.p.layoutEnd, |WeightBytes(n)|);
    SlotAbove(c, f);
    var L := FcRecord(c, u, k, f);
    BehindOff(c, t, L.wAddr, |WeightBytes(n)|);
    BehindOff(c, t, L.bAddr, |G.BiasBytes(Biases(c.g, k), Pad16(n.N))|);
    NextAbove(AfterConsts(c, u, k), 4 * Pad16(n.N));
    FcClear(c, t, L);
  }

  lemma NextAbove(a: nat, n: nat)
    ensures a <= Next(a, n)
  {
  }

  lemma SlotAbove(c: Ctx, f: nat)
    requires CtxOk(c)
    ensures c.streaming ==> c.slotStart <= SlotOf(c, f)
  {
    hide PinsOk, G.GraphOk, Pad16;
  }

  lemma FcClear(c: Ctx, t: string, L: Layer)
    requires CtxOk(c) && G.IsPart(c.g, t) && L.Fc? && L.accAddr >= c.slotStart && (L.final || L.outAddr >= c.slotStart)
    ensures Clear(L, Pin(c, t), Pad16(Len(c, t)))
  {
    hide CtxOk, G.IsPart, Pad16;
    BehindOff(c, t, L.accAddr, 4 * L.Mpad);
    if !L.final {
      BehindOff(c, t, L.outAddr, L.Mpad);
    }
  }

  lemma EmitFree(c: Ctx, w: Walk, k: nat, f: nat, t: string)
    requires CtxOk(c) && Shaped(c, k) && Emit(c, w, k, f).Ok? && G.IsPart(c.g, t) && t in c.g.inputs
    requires SlotFree(c, w.p, t) && c.slotStart <= w.p.layoutEnd
    requires IsConcat(c, k) && t in c.g.nodes[k].ins ==> t in w.produced
    ensures var v := Emit(c, w, k, f).value; SlotFree(c, v.p, t) && c.slotStart <= v.p.layoutEnd
  {
    hide CtxOk, G.IsPart, Off, Pad16, Pin, Len, SlotFree, GatherAfter, MatMulAfter, PartsAfter, PartsLen, G.Fused,
         G.NodeShaped;
    var n := c.g.nodes[k];
    if n.GatherNode? {
      GatherFree(c, w, k, t);
      GatherEnd(c, w, k);
    } else if n.ConcatNode? {
      assert n.ins[..|n.ins|] == n.ins;
      PartsFree(c, w, k, |n.ins|, t);
      ConcatFree(c, PartsAfter(c, w, n.ins).0.p, ConcatRecord(c, w, k), t);
    } else if n.MatMulNode? {
      MatMulFree(c, w, k, f, t);
    }
  }

  lemma GatherEnd(c: Ctx, w: Walk, k: nat)
    requires Shaped(c, k) && c.g.nodes[k].GatherNode?
    ensures w.p.layoutEnd <= GatherAfter(c, w, k).p.layoutEnd
  {
    hide GatherAfter, TableBytes, G.IsPart, G.NodeShaped, Pad16, Stored, Next;
    TableShape(c, k);
    GatherIs(c, w, k);
    var e := Next(w.p.layoutEnd, |TableBytes(c.g.nodes[k])|);
    NextAbove(w.p.layoutEnd, |TableBytes(c.g.nodes[k])|);
    NextAbove(e, 16);
    NextAbove(Next(e, 16), Pad16(c.g.nodes[k].dim));
  }

  lemma ConcatFree(c: Ctx, p: Program, L: Layer, t: string)
    requires L.Concat? && SlotFree(c, p, t)
    ensures SlotFree(c, WithLayer(p, L, p.layoutEnd), t)
  {
    hide Off, Pad16, Pin, Len;
  }

  // ----- whole runs of lowering -----

  /** From the MatMul on, t is known; its slice stays free throughout. */
  lemma {:induction false} RunFree(c: Ctx, j: nat, k: nat, t: string, m: nat)
    requires CtxOk(c) && AllShaped(c) && Taken(c, j, k, t) && m <= |c.g.nodes| && Run(c, Start(c), m).Ok?
    ensures var w := Run(c, Start(c), m).value;
            SlotFree(c, w.p, t) && c.slotStart <= w.p.layoutEnd && (m > j ==> t in w.produced)
  {
    hide CtxOk, Emit, SlotFree, Changes, G.IsPart;
    var i :| 0 <= i < |c.g.nodes[k].ins| && c.g.nodes[k].ins[i] == t;
    PartAt(c, k, i);
    if m == 0 {
      StartFree(c, t);
    } else {
      RunFree(c, j, k, t, m - 1);
      ShapedOne(c, m - 1);
      var w, f := Run(c, Start(c), m - 1).value, FcCount(c.g, m - 1);
      if IsConcat(c, m - 1) && t in c.g.nodes[m - 1].ins {
        OnlyConcat(c, k, m - 1, t);
      }
      EmitFree(c, w, m - 1, f, t);
      EmitChanges(c, w, m - 1, f);
      ChangesKnow(c, w, Emit(c, w, m - 1, f).value, m - 1);
    }
  }

  lemma StartFree(c: Ctx, t: string)
    requires CtxOk(c)
    ensures SlotFree(c, Start(c).p, t) && c.slotStart <= Start(c).p.layoutEnd
  {
    hide PinsOk, G.GraphOk;
  }

  lemma ChangesKnow(c: Ctx, w: Walk, v: Walk, k: nat)
    requires k < |c.g.nodes| && Changes(c, w, v, k)
    ensures forall t :: t in w.produced ==> t in v.produced
    ensures c.g.nodes[k].MatMulNode? ==> c.g.nodes[k].x in v.produced
  {
    hide G.IsPart, OutOf;
  }

  /** A part belongs to one Concat. */
  lemma OnlyConcat(c: Ctx, k: nat, q: nat, t: string)
    requires CtxOk(c) && IsConcat(c, k) && IsConcat(c, q) && t in c.g.nodes[k].ins && t in c.g.nodes[q].ins
    ensures k == q
  {
    hide PinsOk, SlotsOk, G.NodeShaped, G.IsFinal;
    var i :| 0 <= i < |c.g.nodes[k].ins| && c.g.nodes[k].ins[i] == t;
    var j :| 0 <= j < |c.g.nodes[q].ins| && c.g.nodes[q].ins[j] == t;
  }

  // ----- whole runs of the device -----

  ghost predicate InSegment(p: Program, i: int) {
    exists s :: 0 <= s < |p.segments| && p.segments[s].addr <= i < p.segments[s].addr + p.segments[s].length
  }

  ghost predicate InPadded(p: Program, i: int) {
    exists j :: 0 <= j < |p.inputs| && p.inputs[j].addr <= i < p.inputs[j].addr + Pad16(p.inputs[j].Size())
  }

  /** Activation memory through one run, whatever the mode: what it held before, the inputs put in, and then each layer,
      which may be preceded by a download of constants. */
  ghost predicate DeviceRun(p: Program, mems: seq<seq<byte>>) {
    && |mems| == |p.layers| + 2 && |mems[1]| == |mems[0]|
    && (forall i :: 0 <= i < |mems[0]| && !InPadded(p, i) && !InSegment(p, i) ==> mems[1][i] == mems[0][i])
    && forall n :: 0 <= n < |p.layers| ==> LayerRun(p, n, mems)
  }

  /** A download of constants, and then layer n, which writes its own regions only. */
  ghost predicate LayerRun(p: Program, n: nat, mems: seq<seq<byte>>)
    requires n < |p.layers| && |mems| == |p.layers| + 2
  {
    exists loaded: seq<byte> :: Frame(p.layers[n], loaded, mems[n + 2]) && |loaded| == |mems[n + 1]|
      && forall i :: 0 <= i < |loaded| && !InSegment(p, i) ==> loaded[i] == mems[n + 1][i]
  }

  lemma FreeBytes(c: Ctx, p: Program, t: string, i: int)
    requires SlotFree(c, p, t) && Pin(c, t) <= i < Pin(c, t) + Len(c, t)
    ensures !InPadded(p, i) && !InSegment(p, i) && forall n :: 0 <= n < |p.layers| ==> !InFoot(p.layers[n], i)
  {
    hide Pin, Len, Clear, InFoot;
    forall n | 0 <= n < |p.layers|
      ensures !InFoot(p.layers[n], i)
    {
      ClearByte(p.layers[n], Pin(c, t), Pad16(Len(c, t)), i);
    }
  }

  lemma ClearByte(L: Layer, a: nat, n: nat, i: int)
    requires Clear(L, a, n) && a <= i < a + n
    ensures !InFoot(L, i)
  {
  }

  lemma {:induction false} BytesStay(p: Program, mems: seq<seq<byte>>, i: int, m: nat)
    requires DeviceRun(p, mems) && m < |mems| && 0 <= i < |mems[0]|
    requires !InPadded(p, i) && !InSegment(p, i) && forall n :: 0 <= n < |p.layers| ==> !InFoot(p.layers[n], i)
    ensures |mems[m]| == |mems[0]| && mems[m][i] == mems[0][i]
  {
    hide InPadded, InSegment, InFoot;
    if m > 1 {
      BytesStay(p, mems, i, m - 1);
      assert LayerRun(p, m - 2, mems);
    }
  }

  /** In every run on every feed, where the Concat's readers look for t lies what lay there before the run: the vector
      in memory has t's value only if it happened to be there. */
  lemma TakenPartUnwritten(c: Ctx, p: Program, j: nat, k: nat, t: string, mems: seq<seq<byte>>, m: nat, feed: Feed)
    requires CtxOk(c) && AllShaped(c) && Lowered(c, p) && Taken(c, j, k, t) && DeviceRun(p, mems) && m < |mems|
    requires Pin(c, t) + Len(c, t) <= |mems[0]| && t in feed && |feed[t]| == Len(c, t)
    ensures |mems[m]| == |mems[0]|
    ensures At(mems[m], Pin(c, t), feed[t]) <==> At(mems[0], Pin(c, t), feed[t])
  {
    hide CtxOk, AllShaped, Run, SlotFree, DeviceRun, InPadded, InSegment, InFoot, Pin, Len;
    var w := Run(c, Start(c), |c.g.nodes|).value;
    RunFree(c, j, k, t, |c.g.nodes|);
    SameFree(c, w.p, p, t);
    RunSizes(p, mems, m);
    forall i | Pin(c, t) <= i < Pin(c, t) + Len(c, t)
      ensures mems[m][i] == mems[0][i]
    {
      FreeBytes(c, p, t, i);
      BytesStay(p, mems, i, m);
    }
  }

  /** So for whatever lies there, t has a value with which no run of any mode presents t to those readers. */
  lemma TakenPartMissed(c: Ctx, p: Program, j: nat, k: nat, t: string, before: seq<byte>) returns (v: seq<byte>)
    requires CtxOk(c) && AllShaped(c) && Lowered(c, p) && Taken(c, j, k, t) && Pin(c, t) + Len(c, t) <= |before|
    ensures |v| == Len(c, t)
    ensures forall mems, m: nat :: DeviceRun(p, mems) && m < |mems| && mems[0] == before ==>
              |mems[m]| == |before| && !At(mems[m], Pin(c, t), v)
  {
    hide CtxOk, AllShaped, Lowered, DeviceRun, Pin, Len;
    TakenLength(c, j, k, t);
    var first := before[Pin(c, t)];
    v := seq(Len(c, t), _ => if first == 0 then 1 else 0);
    forall mems, m: nat | DeviceRun(p, mems) && m < |mems| && mems[0] == before
      ensures |mems[m]| == |before| && !At(mems[m], Pin(c, t), v)
    {
      TakenPartUnwritten(c, p, j, k, t, mems, m, map[t := v]);
    }
  }

  lemma TakenLength(c: Ctx, j: nat, k: nat, t: string)
    requires CtxOk(c) && Taken(c, j, k, t)
    ensures Len(c, t) > 0
  {
    hide CtxOk, Pin, Len;
    var i :| 0 <= i < |c.g.nodes[k].ins| && c.g.nodes[k].ins[i] == t;
    PartAt(c, k, i);
    PartFacts(c, t);
  }

  lemma {:induction false} RunSizes(p: Program, mems: seq<seq<byte>>, m: nat)
    requires DeviceRun(p, mems) && m < |mems|
    ensures |mems[m]| == |mems[0]|
  {
    if m > 1 {
      RunSizes(p, mems, m - 1);
      assert LayerRun(p, m - 2, mems);
    }
  }

  lemma SameFree(c: Ctx, p: Program, q: Program, t: string)
    requires SlotFree(c, p, t) && q.layers == p.layers && q.inputs == p.inputs && q.segments == p.segments
    ensures SlotFree(c, q, t)
  {
    hide Off, Clear, Pad16, Pin, Len;
  }
}
