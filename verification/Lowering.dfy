/** lowering.py: the allocator, the image, the pinning of Concat parts, the streaming slots, and the loop over the
    nodes. */
module Lowering {
  import opened Bytes
  import opened Program
  import opened Layout
  import opened Walk
  import opened WalkLayers
  import opened Pins
  import opened Emission
  import opened NodeSteps
  import opened Sharing
  import Requant
  import G = Graph

  /** The exceptions `lower` raises. */
  datatype Error = OutOfMemory | Unsupported | Unaligned | Missing

  datatype Result<T> = Ok(value: T) | Err(error: Error)

  // ----- one node -----

  function Fits(w: Walk): Result<Walk> {
    if w.p.layoutEnd > DDR2_BYTES then Err(OutOfMemory) else Ok(w)
  }

  /** What the loop does with node k when f fc layers have been emitted. */
  function Emit(c: Ctx, w: Walk, k: nat, f: nat): Result<Walk>
    requires Shaped(c, k)
  {
    match c.g.nodes[k]
    case GatherNode(_, _, _, _, _) => Fits(GatherAfter(c, w, k))
    case ConcatNode(_, ins, _) =>
      if exists j :: 0 <= j < |ins| && ins[j] !in w.produced && ins[j] !in c.g.inputs then Err(Missing)
        else Ok(ConcatAfter(c, w, k))
    case MatMulNode(_, x, _, _, _, _, _, _) =>
      if x !in w.produced && x !in c.g.inputs then Err(Missing) else Fits(MatMulAfter(c, w, k, f))
    case AddNode(_, _, _) => if G.Fused(c.g, k) then Ok(w) else Err(Unsupported)
    case ReluNode(_, _, _) => if G.Fused(c.g, k) then Ok(w) else Err(Unsupported)
    case IdentityNode(_, input, _) => if input in w.produced then Ok(IdentityWalk(c, w, k)) else Err(Missing)
    case OtherNode(_, _, _) => Err(Unsupported)
  }

  function FcCount(g: G.Graph, k: nat): nat
    requires k <= |g.nodes|
  {
    if k == 0 then 0 else FcCount(g, k - 1) + if g.nodes[k - 1].MatMulNode? then 1 else 0
  }

  ghost predicate AllShaped(c: Ctx) {
    forall k :: 0 <= k < |c.g.nodes| ==> Shaped(c, k)
  }

  lemma ShapedAll(c: Ctx)
    requires G.Named(c.g)
    ensures AllShaped(c)
  {
    hide G.NodeShaped;
  }

  /** The walk over the first k nodes. */
  function Run(c: Ctx, w: Walk, k: nat): Result<Walk>
    requires k <= |c.g.nodes| && AllShaped(c)
  {
    if k == 0 then Ok(w)
    else match Run(c, w, k - 1)
      case Err(e) => Err(e)
      case Ok(v) => Emit(c, v, k - 1, FcCount(c.g, k - 1))
  }

  /** Nothing emitted yet. */
  function Start(c: Ctx): Walk {
    Walk(Program(c.streaming, [], [], [], "", c.walkStart, []), map[], {}, {}, -1, -1)
  }

  lemma StartOk(c: Ctx)
    requires CtxOk(c)
    ensures Inv(c, Start(c), 0, 0)
  {
    hide PinsOk, G.GraphOk;
  }

  lemma EmitOk(c: Ctx, w: Walk, k: nat, f: nat)
    requires Inv(c, w, k, k) && Shaped(c, k) && Emit(c, w, k, f).Ok? && G.SafeAt(c.g, k)
    ensures Inv(c, Emit(c, w, k, f).value, k + 1, k + 1)
  {
    hide Inv, GatherAfter, ConcatAfter, MatMulAfter, IdentityWalk, G.NodeShaped, G.Fused, G.SafeAt;
    match c.g.nodes[k]
    case GatherNode(_, _, _, _, _) => GatherAfterOk(c, w, k);
    case ConcatNode(_, _, _) => ConcatAfterOk(c, w, k);
    case MatMulNode(_, _, _, _, _, _, _, _) => MatMulAfterOk(c, w, k, f);
    case AddNode(_, _, _) => SkipStep(c, w, k);
    case ReluNode(_, _, _) => SkipStep(c, w, k);
    case IdentityNode(_, _, _) => IdentityStep(c, w, k);
  }

  /** Every prefix of the walk keeps the invariant, as long as every reader of a part has come at the right time. */
  lemma {:induction false} RunOk(c: Ctx, k: nat)
    requires CtxOk(c) && AllShaped(c) && k <= |c.g.nodes| && Run(c, Start(c), k).Ok? && G.SafeBefore(c.g, k)
    ensures Inv(c, Run(c, Start(c), k).value, k, k)
  {
    hide Inv, Emit, CtxOk, Start, G.SafeAt;
    if k == 0 {
      StartOk(c);
    } else {
      RunOk(c, k - 1);
      EmitOk(c, Run(c, Start(c), k - 1).value, k - 1, FcCount(c.g, k - 1));
    }
  }

  // ----- the last fc layer, whatever else the walk does -----

  lemma TailSame(c: Ctx, w: Walk, v: Walk, k: nat)
    requires TailOk(c, w, k) && v.p.layers == w.p.layers && v.lastFc == w.lastFc && v.lastMat == w.lastMat
    ensures TailOk(c, v, k)
    ensures k < |c.g.nodes| && !c.g.nodes[k].MatMulNode? ==> TailOk(c, v, k + 1)
  {
    hide G.IsFinal;
  }

  lemma EmitTail(c: Ctx, w: Walk, k: nat, f: nat)
    requires G.Named(c.g) && Shaped(c, k) && TailOk(c, w, k) && Emit(c, w, k, f).Ok?
    ensures TailOk(c, Emit(c, w, k, f).value, k + 1)
  {
    hide G.Named, TailOk, GatherProgram, GatherRecord, PartsAfter, PartsLen, FcProgram, FcRecord, DenseWalk, AfterLayer,
         G.NodeShaped, G.Fused, G.IsFinal, G.ChainOut, G.IsPart, Next;
    var n := c.g.nodes[k];
    if n.GatherNode? {
      TableShape(c, k);
      var u := w.(p := GatherProgram(w.p, n));
      GatherLayers(w.p, n);
      TailSame(c, w, u, k);
      RecordName(c, w, k);
      NamedTail(c, u, k, GatherRecord(c, w.p, n), Emit(c, w, k, f).value.p.layoutEnd, Emit(c, w, k, f).value);
    } else if n.ConcatNode? {
      var u := PartsAfter(c, w, n.ins).0;
      TailSame(c, w, u, k);
      NamedTail(c, u, k, ConcatRecord(c, w, k), u.p.layoutEnd, Emit(c, w, k, f).value);
    } else if n.MatMulNode? {
      var v := DenseAfter(w, n.x, n.K);
      DenseKeeps(w, n.x, n.K);
      DenseTail(w, n.x, n.K);
      TailSame(c, w, v, k);
      FcProgramEnds(c, v, k, f);
      TailSame(c, v, v.(p := FcProgram(c, v, k, f)), k);
      FcName(c, v, k, f);
      FcTail(c, v.(p := FcProgram(c, v, k, f)), k, FcRecord(c, v, k, f), AfterLayer(c, v, k));
    } else {
      TailSame(c, w, Emit(c, w, k, f).value, k);
    }
  }

  lemma RecordName(c: Ctx, w: Walk, k: nat)
    requires Shaped(c, k) && c.g.nodes[k].GatherNode?
    ensures var L := GatherRecord(c, w.p, c.g.nodes[k]); L.Gather? && L.name == c.g.nodes[k].name
  {
    hide Next, TableBytes;
  }

  lemma FcName(c: Ctx, w: Walk, k: nat, f: nat)
    requires Shaped(c, k) && c.g.nodes[k].MatMulNode? && c.g.nodes[k].x in w.produced
    ensures var L := FcRecord(c, w, k, f); L.name == c.g.nodes[k].name && L.final == G.IsFinal(c.g, k)
  {
    hide Next, WeightBytes, SlotOf, G.IsFinal, G.FusedRelu, Requant.Params, AfterConsts, AfterWeights, Pad16;
  }

  lemma DenseTail(w: Walk, x: string, n: nat)
    ensures var v := DenseAfter(w, x, n); v.lastFc == w.lastFc && v.lastMat == w.lastMat
  {
  }

  lemma {:induction false} RunTail(c: Ctx, k: nat)
    requires G.Named(c.g) && AllShaped(c) && k <= |c.g.nodes| && Run(c, Start(c), k).Ok?
    ensures TailOk(c, Run(c, Start(c), k).value, k)
  {
    hide TailOk, Emit, G.Named;
    if k == 0 {
      StartTail(c);
    } else {
      RunTail(c, k - 1);
      ShapedOne(c, k - 1);
      EmitTail(c, Run(c, Start(c), k - 1).value, k - 1, FcCount(c.g, k - 1));
    }
  }

  lemma StartTail(c: Ctx)
    ensures TailOk(c, Start(c), 0)
  {
  }

  // ----- what is reserved before the walk -----

  /** The largest fc layer's weights and biases among the first k nodes. */
  function Biggest(g: G.Graph, k: nat): (b: nat)
    requires k <= |g.nodes|
    ensures forall j :: 0 <= j < k && g.nodes[j].MatMulNode? ==> WeightArea(g.nodes[j]) + 4 * Pad16(g.nodes[j].N) <= b
  {
    if k == 0 then 0
    else
      var b, n := Biggest(g, k - 1), g.nodes[k - 1];
      if n.MatMulNode? && WeightArea(n) + 4 * Pad16(n.N) > b then WeightArea(n) + 4 * Pad16(n.N) else b
  }

  /** Concat buffers, then two slots when streaming. */
  function Reserved(g: G.Graph, streaming: bool): Ctx {
    var (e, pins) := PinsAfter(g, |g.nodes|);
    var slot := Pad16(Biggest(g, |g.nodes|));
    if streaming then Ctx(g, true, pins, [e, Next(e, slot)], slot, e, Next(Next(e, slot), slot))
      else Ctx(g, false, pins, [], 0, e, e)
  }

  /** Concat q's parts are gathers' outputs or graph inputs, none an initialiser, each at an aligned offset. */
  ghost predicate Pinnable(c: Ctx, q: nat)
    requires IsConcat(c, q)
  {
    var ins := c.g.nodes[q].ins;
    forall i :: 0 <= i < |ins| ==> ins[i] !in c.g.inits && Sourced(c, ins[i]) && Offset(c, ins, i) % 16 == 0
  }

  ghost predicate AllPinnable(c: Ctx) {
    forall q: nat :: IsConcat(c, q) ==> Pinnable(c, q)
  }

  /** Exactly the graphs `lower` takes: Concats can be laid out, every node can be emitted, there is an fc layer, and it
      all fits. */
  ghost predicate Accepted(g: G.Graph, streaming: bool, ddr2Bytes: nat) {
    var c := Reserved(g, streaming);
    && AllPinnable(c) && c.walkStart <= DDR2_BYTES && AllShaped(c) && Run(c, Start(c), |g.nodes|).Ok?
    && (exists k :: 0 <= k < |g.nodes| && g.nodes[k].MatMulNode?)
    && Run(c, Start(c), |g.nodes|).value.p.layoutEnd <= ddr2Bytes
  }

  // ----- the object -----

  class Lowering {
    const g: G.Graph
    const streaming: bool
    const ddr2Bytes: nat
    var next: nat
    var image: seq<byte>
    var segments: seq<Segment>
    var layers: seq<Layer>
    var inputs: seq<InputSpec>
    var slotAddr: seq<nat>
    var slotBytes: nat
    var pinned: map<string, nat>
    var produced: map<string, (nat, nat)>
    var fcIndex: nat
    ghost var done: set<string>
    ghost var live: set<string>
    ghost var lastFc: int
    ghost var lastMat: int
    ghost var slotStart: nat
    ghost var walkStart: nat

    constructor (g: G.Graph, streaming: bool, ddr2Bytes: nat)
      ensures this.g == g && this.streaming == streaming && this.ddr2Bytes == ddr2Bytes
      ensures next == 0 && image == [] && segments == [] && layers == [] && inputs == [] && pinned == map[]
              && produced == map[] && fcIndex == 0
      ensures slotAddr == [] && slotBytes == 0 && done == {} && live == {} && lastFc == -1 && lastMat == -1
    {
      this.g, this.streaming, this.ddr2Bytes := g, streaming, ddr2Bytes;
      next, image, segments, layers, inputs := 0, [], [], [], [];
      slotAddr, slotBytes, pinned, produced, fcIndex := [], 0, map[], map[], 0;
      done, live, lastFc, lastMat := {}, {}, -1, -1;
    }

    /** The fields hold the walk's state. */
    ghost predicate Is(w: Walk)
      reads this`segments, this`inputs, this`layers, this`next, this`image, this`produced, this`done, this`live,
        this`lastFc, this`lastMat
    {
      && w.p.streaming == streaming && w.p.segments == segments && w.p.inputs == inputs && w.p.layers == layers
      && w.p.outputLayer == "" && w.p.layoutEnd == next && w.p.image == image
      && w.produced == produced && w.done == done && w.live == live && w.lastFc == lastFc && w.lastMat == lastMat
    }

    ghost function Context(): Ctx
      reads this`pinned, this`slotAddr, this`slotBytes, this`slotStart, this`walkStart
    {
      Ctx(g, streaming, pinned, slotAddr, slotBytes, slotStart, walkStart)
    }

    method Alloc(nbytes: nat) returns (a: nat, ok: bool)
      modifies this`next
      ensures a == old(next) && next == Next(old(next), nbytes) && ok == (next <= DDR2_BYTES)
    {
      a := next;
      next := Pad16(a + if nbytes > 1 then nbytes else 1);
      ok := next <= DDR2_BYTES;
    }

    /** Appends a constant to the image, padded, at a fresh address. */
    method Place(data: seq<byte>, layer: string, kind: SegKind) returns (addr: nat, ok: bool)
      modifies this`next, this`image, this`segments
      ensures addr == old(next) && next == Next(old(next), |data|) && ok == (next <= DDR2_BYTES)
      ensures ok ==>
                segments == old(segments) + [Segment(addr, |old(image)|, |data|, layer, kind)]
                && image == old(image) + Stored(old(image), data)
    {
      addr, ok := Alloc(|data|);
      if ok {
        PlaceAt(data, layer, kind, addr);
      }
    }

    /** The same at a given address. */
    method PlaceAt(data: seq<byte>, layer: string, kind: SegKind, addr: nat)
      modifies this`image, this`segments
      ensures segments == old(segments) + [Segment(addr, |old(image)|, |data|, layer, kind)]
              && image == old(image) + Stored(old(image), data)
    {
      var off := |image|;
      image := image + data;
      var pad := Pad16(|image|) - |image|;
      image := image + Zeros(pad);
      segments := segments + [Segment(addr, off, |data|, layer, kind)];
    }

    // ----- phases before the walk -----

    /** The length of a Concat part: its table's row length if a Gather produces it, else that of the graph input. */
    method PartLength(t: string) returns (r: Result<nat>)
      requires G.Named(g)
      ensures r.Ok? ==> Sourced(Context(), t) && t in g.lens && r.value == g.lens[t]
      ensures r.Ok? <==> t !in g.inits && Sourced(Context(), t)
      ensures r.Err? ==> r.error == if t in g.inits then Unsupported else Missing
    {
      hide G.NodeShaped;
      if t in g.inits {
        SourcedNotInit(g, t);
        return Err(Unsupported);
      }
      var i := 0;
      while i < |g.nodes| && g.nodes[i].out != t
        invariant 0 <= i <= |g.nodes| && forall j :: 0 <= j < i ==> g.nodes[j].out != t
      {
        i := i + 1;
      }
      if i < |g.nodes| && g.nodes[i].GatherNode? {
        GatherShape(g, i);
        r := Ok(g.nodes[i].dim);
      } else if t in g.inputs {
        r := Ok(g.lens[t]);
      } else {
        if i < |g.nodes| {
          ProducedOnce(g, i);
        }
        r := Err(Missing);
      }
    }

    /** The lengths of one Concat's parts. */
    method PartLengths(k: nat) returns (err: Result<()>, lens: seq<nat>, total: nat)
      requires G.Named(g) && k < |g.nodes| && g.nodes[k].ConcatNode?
      ensures err.Ok? <==> forall i :: 0 <= i < |g.nodes[k].ins| ==>
                g.nodes[k].ins[i] !in g.inits
                && Sourced(Context(), g.nodes[k].ins[i])
      ensures err.Ok? ==> |lens| == |g.nodes[k].ins| && total == Total(Context(), k)
      ensures err.Ok? ==> forall i :: 0 <= i < |lens| ==>
                Sourced(Context(), g.nodes[k].ins[i]) && g.nodes[k].ins[i] in g.lens
                  && lens[i] == g.lens[g.nodes[k].ins[i]]
    {
      hide G.Named, Sourced;
      var n := g.nodes[k];
      lens, total := [], 0;
      while |lens| < |n.ins|
        invariant |lens| <= |n.ins| && total == Offset(Context(), n.ins, |lens|)
        invariant forall i :: 0 <= i < |lens| ==>
                    n.ins[i] !in g.inits && Sourced(Context(), n.ins[i])
                    && n.ins[i] in g.lens && lens[i] == g.lens[n.ins[i]]
      {
        var r := PartLength(n.ins[|lens|]);
        if r.Err? {
          return Err(r.error), [], 0;
        }
        OffsetNext(Context(), n.ins, |lens|);
        lens := lens + [r.value];
        total := total + r.value;
      }
      WholeOffset(Context(), k);
      err := Ok(());
    }

    /** Pins one Concat's parts behind base, and its output at base. */
    method PinParts(k: nat, base: nat, lens: seq<nat>) returns (err: Result<()>)
      requires k < |g.nodes| && g.nodes[k].ConcatNode? && base % 16 == 0 && |lens| == |g.nodes[k].ins|
      requires forall i :: 0 <= i < |lens| ==>
                 Sourced(Context(), g.nodes[k].ins[i]) && g.nodes[k].ins[i] in g.lens
                 && lens[i] == g.lens[g.nodes[k].ins[i]]
      modifies this`pinned
      ensures err.Ok? <==> forall i :: 0 <= i < |lens| ==> Offset(old(Context()), g.nodes[k].ins, i) % 16 == 0
      ensures err.Ok? && G.GraphOk(g) ==> Added(old(Context()), k, base, pinned)
      ensures err.Ok? ==> pinned == PartPins(g, old(pinned), g.nodes[k].ins, |lens|, base)[g.nodes[k].out := base]
    {
      hide G.GraphOk, Sourced, Added, Offset, PinnedPrefix, Before;
      var n := g.nodes[k];
      ghost var c := Context();
      var off, i := 0, 0;
      PrefixNone(c, base, n.ins);
      while i < |n.ins|
        invariant 0 <= i <= |n.ins| && off == Offset(c, n.ins, i)
        invariant G.GraphOk(g) ==> PinnedPrefix(c, base, n.ins, i, pinned)
        invariant pinned == PartPins(g, c.pins, n.ins, i, base)
        invariant forall j :: 0 <= j < i ==> Offset(c, n.ins, j) % 16 == 0
      {
        if off % 16 != 0 {
          return Err(Unaligned);
        }
        OffsetIsBefore(c, n.ins, i);
        if G.GraphOk(g) {
          PrefixStep(c, k, base, i, pinned);
        }
        OffsetNext(c, n.ins, i);
        pinned := pinned[n.ins[i] := base + off];
        off := off + lens[i];
        i := i + 1;
      }
      if G.GraphOk(g) {
        PrefixDone(c, k, base, pinned);
      }
      pinned := pinned[n.out := base];
      err := Ok(());
    }

    /** One Concat's buffer: its parts' lengths, the allocation, the pins. */
    method PinConcat(k: nat) returns (err: Result<()>)
      requires G.Named(g) && k < |g.nodes| && g.nodes[k].ConcatNode? && next % 16 == 0
      requires G.GraphOk(g) ==> PinnedUpTo(Context(), k, next)
      modifies this`next, this`pinned
      ensures err.Ok? ==> next % 16 == 0 && next <= DDR2_BYTES && (G.GraphOk(g) ==> PinnedUpTo(Context(), k + 1, next))
      ensures err.Ok? <==>
                Pinnable(old(Context()), k)
                && Next(old(next), Pad16(G.SumLens(g.lens, g.nodes[k].ins))) <= DDR2_BYTES
      ensures err.Ok? ==> next == Next(old(next), Pad16(G.SumLens(g.lens, g.nodes[k].ins)))
      ensures err.Ok? ==> pinned == PartPins(g, old(pinned), g.nodes[k].ins, |g.nodes[k].ins|,
              old(next))[g.nodes[k].out := old(next)]
    {
      hide G.GraphOk, G.Named, PinnedUpTo, Sourced, Added, Room, Next, PartPins;
      ghost var c := Context();
      var r, lens, total := PartLengths(k);
      if r.Err? {
        return r;
      }
      var base, ok := Alloc(Pad16(total));
      if !ok {
        return Err(OutOfMemory);
      }
      RoomNext(base, total);
      err := PinParts(k, base, lens);
      if err.Ok? && G.GraphOk(g) {
        PinStep(c, k, base, pinned);
        assert Context() == c.(pins := pinned);
      }
    }

    method PinConcats() returns (err: Result<()>)
      requires G.Named(g) && next == 0 && pinned == map[]
      modifies this`next, this`pinned
      ensures err.Ok? <==> AllPinnable(old(Context())) && PinsAfter(g, |g.nodes|).0 <= DDR2_BYTES
      ensures err.Ok? ==> next % 16 == 0 && next <= DDR2_BYTES
      ensures err.Ok? && G.GraphOk(g) ==> PinnedUpTo(Context(), |g.nodes|, next)
      ensures err.Ok? ==> (next, pinned) == PinsAfter(g, |g.nodes|)
    {
      hide G.GraphOk, G.Named, Buffer, Room, PinnedBy, PartPins, Next, Pinnable;
      ghost var c := Context();
      var k := 0;
      while k < |g.nodes|
        invariant 0 <= k <= |g.nodes| && next % 16 == 0 && next <= DDR2_BYTES
        invariant G.GraphOk(g) ==> PinnedUpTo(Context(), k, next)
        invariant (next, pinned) == PinsAfter(g, k) && forall q: nat :: q < k && IsConcat(c, q) ==> Pinnable(c, q)
      {
        if g.nodes[k].ConcatNode? {
          PinnableSame(c, Context(), k);
          err := PinConcat(k);
          if err.Err? {
            BaseGrows(g, k + 1, |g.nodes|);
            return;
          }
        } else {
          if G.GraphOk(g) {
            PinSkip(Context(), k, next);
          }
        }
        k := k + 1;
      }
      return Ok(());
    }

    /** Two slots, each as large as the largest fc layer's weights and biases. */
    method ReserveSlots() returns (err: Result<()>)
      requires (next, pinned) == PinsAfter(g, |g.nodes|) && slotStart == next && next % 16 == 0 && next <= DDR2_BYTES
               && slotAddr == [] && slotBytes == 0
      modifies this`next, this`slotAddr, this`slotBytes, this`walkStart
      ensures err.Ok? <==> Reserved(g, streaming).walkStart <= DDR2_BYTES
      ensures err.Ok? ==> next == walkStart <= DDR2_BYTES && Context() == Reserved(g, streaming)
    {
      hide PinsAfter, Next, Pad16, WeightArea;
      if streaming {
        var biggest: nat, i := 0, 0;
        while i < |g.nodes|
          invariant 0 <= i <= |g.nodes| && biggest == Biggest(g, i)
          modifies {}
        {
          if g.nodes[i].MatMulNode? {
            AreaIs(g.nodes[i]);
            var need := Pad16(g.nodes[i].N) * Pad16(g.nodes[i].K) + Pad16(g.nodes[i].N) * 4;
            biggest := if need > biggest then need else biggest;
          }
          i := i + 1;
        }
        slotBytes := Pad16(biggest);
        var a, ok := Alloc(slotBytes);
        if !ok {
          return Err(OutOfMemory);
        }
        var b, ok' := Alloc(slotBytes);
        if !ok' {
          return Err(OutOfMemory);
        }
        slotAddr := [a, b];
      }
      walkStart := next;
      return Ok(());
    }

    // ----- the walk -----

    method EmitGather(k: nat, ghost c: Ctx, ghost w: Walk) returns (ok: bool)
      requires c.g == g && c.pins == pinned && Is(w) && Shaped(c, k) && g.nodes[k].GatherNode?
      modifies this`next, this`image, this`segments, this`inputs, this`layers, this`produced, this`done, this`live
      ensures ok == (GatherAfter(c, w, k).p.layoutEnd <= DDR2_BYTES)
      ensures ok ==> Is(GatherAfter(c, w, k))
    {
      hide Next, Stored, G.PadRows, Pad16, G.IsPart, GatherAfter, TableBytes, G.NodeShaped;
      var n := g.nodes[k];
      TableShape(c, k);
      GatherIs(c, w, k);
      var tableAddr: nat, idxAddr: nat, outAddr: nat;
      tableAddr, idxAddr, outAddr, ok := PlaceTable(TableBytes(n), n.name, n.out, Pad16(n.dim));
      if ok {
        inputs := inputs + [IndexInput(n.index, idxAddr, |n.table|)];
        Append(Gather(n.name, tableAddr, |n.table|, n.dim, Pad16(n.dim), idxAddr, outAddr, n.index), n.out, n.dim);
        Claim(n.out);
      }
    }

    /** The table, the index word and the output region. */
    method PlaceTable(table: seq<byte>, name: string, t: string, dimBytes: nat) returns (tableAddr: nat, idxAddr: nat,
            outAddr: nat, ok: bool)
      modifies this`next, this`image, this`segments
      ensures var e := Next(Next(old(next), |table|), 16);
              ok == ((if t in pinned then e else Next(e, dimBytes)) <= DDR2_BYTES)
      ensures ok ==>
                && tableAddr == old(next) && idxAddr == Next(old(next), |table|)
                && outAddr == (if t in pinned then pinned[t] else Next(idxAddr, 16))
                && next == (if t in pinned then Next(idxAddr, 16) else Next(outAddr, dimBytes))
                && segments == old(segments) + [Segment(tableAddr, |old(image)|, |table|, name, TableSeg)]
                && image == old(image) + Stored(old(image), table)
    {
      hide Next, Stored;
      idxAddr, outAddr := 0, 0;
      tableAddr, ok := Place(table, name, TableSeg);
      if !ok {
        return;
      }
      idxAddr, ok := Alloc(16);
      if !ok {
        return;
      }
      if t in pinned {
        outAddr := pinned[t];
      } else {
        outAddr, ok := Alloc(dimBytes);
      }
    }

    /** A tensor becomes readable, and claims its part's slice if it is one. */
    ghost method Claim(t: string)
      modifies this`done, this`live
      ensures done == (if G.IsPart(g, t) then old(done) + {t} else old(done)) && live == old(live) + {t}
    {
      if G.IsPart(g, t) {
        done := done + {t};
      }
      live := live + {t};
    }

    /** A layer and where its output tensor lies. */
    method Append(L: Layer, t: string, len: nat)
      modifies this`layers, this`produced
      ensures layers == old(layers) + [L] && produced == old(produced)[t := (L.outAddr, len)]
    {
      layers := layers + [L];
      produced := produced[t := (L.outAddr, len)];
    }

    /** The parts of a Concat: produced ones are referred to, graph inputs become dense inputs at their pins. */
    method EmitParts(k: nat, ghost c: Ctx, ghost w: Walk) returns (ok: bool, parts: seq<Part>, total: nat)
      requires Context() == c && Is(w) && IsConcat(c, k)
               && forall j :: 0 <= j < |g.nodes[k].ins| ==> g.nodes[k].ins[j] in pinned && g.nodes[k].ins[j] in g.lens
      modifies this`inputs, this`done
      ensures ok == !(exists j :: 0 <= j < |g.nodes[k].ins| && g.nodes[k].ins[j] !in produced
                        && g.nodes[k].ins[j] !in g.inputs)
      ensures ok ==> var r := PartsAfter(c, w, g.nodes[k].ins); Is(r.0) && parts == r.1 && total == PartsLen(parts)
    {
      hide PartsAfter, PartsLen;
      var n := g.nodes[k];
      var i := 0;
      parts, total := [], 0;
      PartsNone(c, w, n.ins);
      while i < |n.ins|
        invariant 0 <= i <= |n.ins| && Is(PartsAfter(c, w, n.ins[..i]).0) && parts == PartsAfter(c, w, n.ins[..i]).1
                  && total == PartsLen(parts)
        invariant forall j :: 0 <= j < i ==> n.ins[j] in produced || n.ins[j] in g.inputs
      {
        var t := n.ins[i];
        PartsNext(c, w, n.ins, i);
        var part: Part;
        if t in produced {
          part := LayerPart(produced[t].0, produced[t].1);
        } else if t in g.inputs {
          part := InputPart(t, pinned[t], g.lens[t]);
          inputs := inputs + [DenseInput(t, pinned[t], g.lens[t])];
          done := done + {t};
        } else {
          return false, [], 0;
        }
        PartsLenNext(parts, part);
        parts := parts + [part];
        total := total + part.len;
        i := i + 1;
      }
      assert n.ins[..|n.ins|] == n.ins;
      ok := true;
    }

    method EmitConcat(k: nat, ghost c: Ctx, ghost w: Walk) returns (ok: bool)
      requires Context() == c && Is(w) && IsConcat(c, k) && g.nodes[k].out in pinned
      requires forall j :: 0 <= j < |g.nodes[k].ins| ==> g.nodes[k].ins[j] in pinned && g.nodes[k].ins[j] in g.lens
      modifies this`inputs, this`layers, this`produced, this`done, this`live
      ensures ok == !(exists j :: 0 <= j < |g.nodes[k].ins| && g.nodes[k].ins[j] !in w.produced
                        && g.nodes[k].ins[j] !in g.inputs)
      ensures ok ==> Is(ConcatAfter(c, w, k))
    {
      hide PartsAfter, PartsLen;
      var n := g.nodes[k];
      var parts: seq<Part>, total: nat;
      ok, parts, total := EmitParts(k, c, w);
      if ok {
        live := live + {n.out};
        Append(Concat(n.name, parts, pinned[n.out], total), n.out, total);
      }
    }

    /** A graph input an fc layer reads first gets a region of its own. */
    method EnsureInput(x: string, K: nat, ghost w: Walk) returns (ok: bool)
      requires Is(w)
      modifies this`next, this`inputs, this`produced, this`live
      ensures ok ==> Is(DenseAfter(w, x, K))
      ensures ok == (x in w.produced || Next(w.p.layoutEnd, Pad16(K)) <= DDR2_BYTES)
    {
      hide Next, Pad16;
      if x in produced {
        return true;
      }
      var addr, fits := Alloc(Pad16(K));
      if fits {
        inputs := inputs + [DenseInput(x, addr, K)];
        produced := produced[x := (addr, K)];
        live := live + {x};
      }
      return fits;
    }

    /** Weights and biases: in the next slot when streaming, else behind everything. */
    method PlaceConsts(k: nat, ghost c: Ctx, ghost w: Walk) returns (wAddr: nat, bAddr: nat, ok: bool)
      requires Context() == c && Is(w) && Shaped(c, k) && g.nodes[k].MatMulNode? && g.nodes[k].x in w.produced
      requires (streaming ==> |slotAddr| == 2) && next <= DDR2_BYTES
      modifies this`next, this`image, this`segments, this`fcIndex
      ensures ok == (AfterConsts(c, w, k) <= DDR2_BYTES)
      ensures ok ==> fcIndex == old(fcIndex) + 1 && Is(w.(p := FcProgram(c, w, k, old(fcIndex))))
      ensures ok ==> var L := FcRecord(c, w, k, old(fcIndex)); wAddr == L.wAddr && bAddr == L.bAddr
    {
      hide Next, Stored, WeightBytes, G.BiasBytes, Pad16, G.NodeShaped, FcProgram, FcRecord, AfterConsts, Biases;
      var n := g.nodes[k];
      WeightShape(c, k);
      FcProgramIs(c, w, k, fcIndex);
      var weights := WeightBytes(n);
      var biases := G.BiasBytes(Biases(g, k), Pad16(n.N));
      ok := true;
      if streaming {
        var slot := slotAddr[fcIndex % 2];
        wAddr, bAddr := slot, slot + Pad16(|weights|);
        PlaceAt(weights, n.name, WeightSeg, wAddr);
        PlaceAt(biases, n.name, BiasSeg, bAddr);
      } else {
        bAddr := 0;
        wAddr, ok := Place(weights, n.name, WeightSeg);
        if !ok {
          return;
        }
        bAddr, ok := Place(biases, n.name, BiasSeg);
        if !ok {
          return;
        }
      }
      fcIndex := fcIndex + 1;
    }

    /** The accumulators, the outputs unless they are the accumulators, and the record. */
    method EmitFc(k: nat, wAddr: nat, bAddr: nat, ghost c: Ctx, ghost w: Walk, ghost f: nat) returns (ok: bool)
      requires Context() == c && Shaped(c, k) && g.nodes[k].MatMulNode? && g.nodes[k].x in w.produced
      requires Is(w.(p := FcProgram(c, w, k, f))) && wAddr == FcRecord(c, w, k, f).wAddr
               && bAddr == FcRecord(c, w, k, f).bAddr
      modifies this`next, this`layers, this`produced, this`live, this`lastFc, this`lastMat
      ensures ok == (FcAfter(c, w, k, f).p.layoutEnd <= DDR2_BYTES)
      ensures ok ==> Is(FcAfter(c, w, k, f))
    {
      hide Next, Pad16, G.IsFinal, Requant.Params, G.FusedRelu, G.ChainOut, FcProgram, FcRecord, FcAfter, G.NodeShaped,
           AfterConsts;
      var n := g.nodes[k];
      FcAfterIs(c, w, k, f);
      var accAddr: nat, outAddr: nat;
      accAddr, ok := Alloc(4 * Pad16(n.N));
      if !ok {
        return;
      }
      var final := G.IsFinal(g, k);
      var scale := (0, 0);
      if final {
        outAddr := accAddr;
      } else {
        outAddr, ok := Alloc(Pad16(n.N));
        if !ok {
          return;
        }
        scale := Requant.Params(n.ratio);
      }
      lastFc, lastMat := |layers|, k;
      var out := G.ChainOut(g, k);
      Append(Fc(n.name, produced[n.x].0, n.K, Pad16(n.K), n.N, Pad16(n.N), wAddr, bAddr, accAddr, outAddr, scale.0,
        scale.1,
                G.FusedRelu(g, k) >= 0, final, streaming), out, n.N);
      live := if final then live - {out} else live + {out};
    }

    method EmitMatMul(k: nat, ghost c: Ctx, ghost w: Walk) returns (ok: bool)
      requires Context() == c && Is(w) && Shaped(c, k) && g.nodes[k].MatMulNode? && (streaming ==> |slotAddr| == 2)
               && next <= DDR2_BYTES
      modifies this`next, this`image, this`segments, this`inputs, this`layers, this`produced, this`live, this`lastFc,
        this`lastMat, this`fcIndex
      ensures ok == (MatMulAfter(c, w, k, old(fcIndex)).p.layoutEnd <= DDR2_BYTES)
      ensures ok ==> fcIndex == old(fcIndex) + 1 && Is(MatMulAfter(c, w, k, old(fcIndex)))
    {
      hide Next, Pad16, FcProgram, FcRecord, FcAfter, DenseAfter, AfterConsts, AfterLayer, G.NodeShaped;
      var n := g.nodes[k];
      ghost var v, f := DenseAfter(w, n.x, n.K), fcIndex;
      EndsGrow(c, w, k, f);
      DenseKeeps(w, n.x, n.K);
      ok := EnsureInput(n.x, n.K, w);
      if !ok {
        return;
      }
      var wAddr, bAddr: nat;
      wAddr, bAddr, ok := PlaceConsts(k, c, v);
      if !ok {
        return;
      }
      ok := EmitFc(k, wAddr, bAddr, c, v, f);
    }

    method EmitIdentity(k: nat, ghost c: Ctx, ghost w: Walk) returns (ok: bool)
      requires Context() == c && Is(w) && k < |g.nodes| && g.nodes[k].IdentityNode?
      modifies this`produced, this`live
      ensures ok == (g.nodes[k].input in w.produced)
      ensures ok ==> Is(IdentityWalk(c, w, k))
    {
      var n := g.nodes[k];
      if n.input !in produced {
        return false;
      }
      produced := produced[n.out := produced[n.input]];
      live := if n.input in live then live + {n.out} else live - {n.out};
      return true;
    }

    /** One node of the loop. */
    method EmitNode(k: nat, ghost c: Ctx, ghost w: Walk) returns (err: Result<()>)
      requires Context() == c && Is(w) && Covered(g, pinned, |g.nodes|) && SlotsOk(c) && k < |g.nodes| && Shaped(c, k)
               && fcIndex == FcCount(g, k) && next <= DDR2_BYTES
      modifies this`next, this`image, this`segments, this`inputs, this`layers, this`produced, this`done, this`live,
        this`lastFc, this`lastMat, this`fcIndex
      ensures match Emit(c, w, k, FcCount(g, k))
              case Ok(v) => err.Ok? && Is(v) && fcIndex == FcCount(g, k + 1) && next <= DDR2_BYTES
              case Err(e) => err == Err(e)
    {
      hide GatherAfter, ConcatAfter, MatMulAfter, IdentityWalk, G.NodeShaped, G.Fused, SlotsOk, Covered, Shaped, Pin;
      match g.nodes[k]
      case GatherNode(_, _, _, _, _) =>
        var ok := EmitGather(k, c, w);
        err := if ok then Ok(()) else Err(OutOfMemory);
      case ConcatNode(_, ins, _) =>
        ConcatCovered(c, k);
        var ok := EmitConcat(k, c, w);
        ConcatKeepsEnd(c, w, k);
        err := if ok then Ok(()) else Err(Missing);
      case MatMulNode(_, x, _, _, _, _, _, _) =>
        if x !in produced && x !in g.inputs {
          return Err(Missing);
        }
        TwoSlots(c);
        var ok := EmitMatMul(k, c, w);
        err := if ok then Ok(()) else Err(OutOfMemory);
      case AddNode(_, _, _) => err := if G.Fused(g, k) then Ok(()) else Err(Unsupported);
      case ReluNode(_, _, _) => err := if G.Fused(g, k) then Ok(()) else Err(Unsupported);
      case IdentityNode(_, input, out) =>
        var ok := EmitIdentity(k, c, w);
        err := if ok then Ok(()) else Err(Missing);
      case OtherNode(_, _, _) => err := Err(Unsupported);
    }

    /** The name of the last fc layer. */
    method LastFcName() returns (r: Result<string>)
      ensures r.Err? <==> forall n :: 0 <= n < |layers| ==> !layers[n].Fc?
      ensures r.Ok? ==> exists f :: 0 <= f < |layers| && layers[f].Fc? && layers[f].name == r.value
                          && forall n :: f < n < |layers| ==> !layers[n].Fc?
    {
      var f := |layers|;
      while f > 0
        invariant 0 <= f <= |layers| && forall n :: f <= n < |layers| ==> !layers[n].Fc?
      {
        f := f - 1;
        if layers[f].Fc? {
          return Ok(layers[f].name);
        }
      }
      return Err(Missing);
    }

    /** Concat buffers and slots, before the loop. */
    method Reserve() returns (err: Result<()>)
      requires G.Named(g) && next == 0 && pinned == map[] && slotAddr == [] && slotBytes == 0
      modifies this`next, this`pinned, this`slotAddr, this`slotBytes, this`slotStart, this`walkStart
      ensures err.Ok? <==> AllPinnable(Reserved(g, streaming)) && Reserved(g, streaming).walkStart <= DDR2_BYTES
      ensures err.Ok? ==> walkStart == next <= DDR2_BYTES && Context() == Reserved(g, streaming)
      ensures err.Ok? ==> Covered(g, pinned, |g.nodes|) && SlotsOk(Context()) && (G.GraphOk(g) ==> CtxOk(Context()))
    {
      hide G.GraphOk, G.Named, CtxOk, PinnedUpTo, SlotsOk, AllPinnable, Reserved, PinsAfter, Covered;
      ReservedAbove(g, streaming);
      AllPinnableSame(Context(), Reserved(g, streaming));
      err := PinConcats();
      if err.Err? {
        return;
      }
      ghost var before := Context();
      slotStart := next;
      PinsCover(g, |g.nodes|);
      err := ReserveSlots();
      if err.Ok? {
        SlotsReserved(g, streaming);
        if G.GraphOk(g) {
          PinnedSame(before, Context(), |g.nodes|, slotStart);
          PinsDone(Context());
          CtxIs(Context());
        }
      }
    }

    /** The loop over the nodes. */
    method EmitNodes(ghost c: Ctx) returns (err: Result<()>, ghost w: Walk)
      requires Context() == c && Covered(g, pinned, |g.nodes|) && SlotsOk(c) && AllShaped(c) && Is(Start(c))
               && fcIndex == 0 && next <= DDR2_BYTES
      modifies this`next, this`image, this`segments, this`inputs, this`layers, this`produced, this`done, this`live,
        this`lastFc, this`lastMat, this`fcIndex
      ensures match Run(c, Start(c), |g.nodes|)
              case Ok(v) => err.Ok? && w == v && Is(w) && next <= DDR2_BYTES
              case Err(e) => err == Err(e)
    {
      hide SlotsOk, Covered, Emit, AllShaped, Shaped, Start;
      w := Start(c);
      var k := 0;
      while k < |g.nodes|
        invariant 0 <= k <= |g.nodes| && Context() == c && Run(c, Start(c), k) == Ok(w) && Is(w)
                  && fcIndex == FcCount(g, k) && next <= DDR2_BYTES
      {
        ShapedOne(c, k);
        err := EmitNode(k, c, w);
        if err.Err? {
          RunStops(c, Start(c), k + 1, |g.nodes|);
          return;
        }
        w := Emit(c, w, k, FcCount(g, k)).value;
        k := k + 1;
      }
      err := Ok(());
    }

    /** The whole of `lower`: it takes exactly the acceptable graphs, what it returns fits the DDR2, and it is a
        well-formed, aligned program if the graph is of the right kind and every Concat finds its parts. */
    method Lower() returns (r: Result<Program>)
      requires G.Named(g) && next == 0 && image == [] && segments == [] && layers == [] && inputs == []
               && pinned == map[] && produced == map[] && fcIndex == 0
      requires slotAddr == [] && slotBytes == 0 && done == {} && live == {} && lastFc == -1 && lastMat == -1
      modifies this
      ensures r.Ok? <==> Accepted(g, streaming, ddr2Bytes)
      ensures r.Ok? ==>
                AllShaped(Reserved(g, streaming)) && Lowered(Reserved(g, streaming), r.value)
                && (G.GraphOk(g) ==> CtxOk(Reserved(g, streaming)))
      ensures r.Ok? ==> r.value.layoutEnd <= ddr2Bytes && r.value.layoutEnd <= DDR2_BYTES
      ensures r.Ok? && G.GraphOk(g) && G.PartsSafe(g) ==> WellFormed(r.value) && Aligned(r.value)
    {
      hide G.GraphOk, G.Named, CtxOk, Inv, AllShaped, WellFormed, Aligned, Lowered, Run, AllPinnable, Reserved,
           G.SafeBefore, TailOk, Covered, SlotsOk;
      ghost var c := Reserved(g, streaming);
      ReservedFor(g, streaming);
      ShapedAll(c);
      var err := Reserve();
      if err.Err? {
        return Err(err.error);
      }
      ghost var w: Walk;
      err, w := EmitNodes(c);
      if err.Err? {
        return Err(err.error);
      }
      RunTail(c, |g.nodes|);
      FcIffMatMul(c, w, |g.nodes|);
      var last := LastFcName();
      if last.Err? {
        return Err(Missing);
      }
      if next > ddr2Bytes {
        return Err(OutOfMemory);
      }
      r := Ok(Program(streaming, segments, inputs, layers, last.value, next, image));
      LoweredIs(c, w, r.value);
      if G.GraphOk(g) && G.PartsSafe(g) {
        RunOk(c, |g.nodes|);
        LoweredOk(c, w, r.value);
      }
    }
  }

  /** The program of a finished walk, with its last fc layer as output. */
  ghost predicate Lowered(c: Ctx, p: Program)
    requires AllShaped(c)
  {
    var r := Run(c, Start(c), |c.g.nodes|);
    r.Ok? && 0 <= r.value.lastFc < |r.value.p.layers|
      && p == WithOutput(r.value.p, r.value.p.layers[r.value.lastFc].name)
  }

  /** A failed node stops the walk. */
  lemma {:induction false} RunStops(c: Ctx, w: Walk, k: nat, n: nat)
    requires AllShaped(c) && k <= n <= |c.g.nodes| && Run(c, w, k).Err?
    ensures Run(c, w, n) == Run(c, w, k)
  {
    hide Emit, AllShaped;
    if k < n {
      RunStops(c, w, k, n - 1);
    }
  }

  lemma LoweredIs(c: Ctx, w: Walk, p: Program)
    requires AllShaped(c) && Run(c, Start(c), |c.g.nodes|) == Ok(w) && TailOk(c, w, |c.g.nodes|)
    requires p == WithOutput(w.p, p.outputLayer)
    requires exists f :: 0 <= f < |p.layers| && p.layers[f].Fc? && p.layers[f].name == p.outputLayer
               && forall n :: f < n < |p.layers| ==> !p.layers[n].Fc?
    ensures Lowered(c, p) && w.lastMat >= 0 && 0 <= w.lastFc < |w.p.layers|
            && p == WithOutput(w.p, w.p.layers[w.lastFc].name)
  {
    hide Run, AllShaped, TailOk;
    LastFcIs(c, w, |c.g.nodes|);
  }

  lemma LoweredOk(c: Ctx, w: Walk, p: Program)
    requires Inv(c, w, |c.g.nodes|, |c.g.nodes|) && w.p.layoutEnd <= DDR2_BYTES && w.lastMat >= 0
    requires 0 <= w.lastFc < |w.p.layers| && p == WithOutput(w.p, w.p.layers[w.lastFc].name)
    ensures WellFormed(p) && Aligned(p)
  {
    hide WellFormed, Aligned, Inv;
    Finished(c, w);
  }

  /** The walk's last fc layer is the last one there is. */
  lemma LastFcIs(c: Ctx, w: Walk, k: nat)
    requires TailOk(c, w, k) && exists f :: 0 <= f < |w.p.layers| && w.p.layers[f].Fc?
    ensures w.lastMat >= 0 && 0 <= w.lastFc < |w.p.layers| && w.p.layers[w.lastFc].Fc?
            && forall n :: w.lastFc < n < |w.p.layers| ==> !w.p.layers[n].Fc?
  {
    hide G.IsFinal;
  }

  /** Pinning does not depend on the slots. */
  lemma PinnedSame(c: Ctx, d: Ctx, k: nat, end: nat)
    requires PinnedUpTo(c, k, end) && d.g == c.g && d.pins == c.pins
    ensures PinnedUpTo(d, k, end)
  {
    hide Buffer, Room;
    forall q: nat | q < k && IsConcat(d, q)
      ensures Buffer(d, q, end)
    {
      assert IsConcat(c, q);
      BufferSame(c, d, q, end);
    }
    forall q: nat, r: nat | q < r < k && IsConcat(d, q) && IsConcat(d, r)
      ensures Base(d, q) + Room(Total(d, q)) <= Base(d, r)
    {
      assert IsConcat(c, q) && IsConcat(c, r);
      assert Base(c, q) + Room(Total(c, q)) <= Base(c, r);
      assert Base(c, q) == Base(d, q) && Base(c, r) == Base(d, r) && Total(c, q) == Total(d, q);
    }
    forall t | t in d.pins
      ensures exists q: nat :: q < k && PinnedBy(d, t, q)
    {
      var q: nat :| q < k && PinnedBy(c, t, q);
      assert PinnedBy(d, t, q);
    }
  }

  lemma PinnableSame(c: Ctx, d: Ctx, q: nat)
    requires IsConcat(c, q) && d.g == c.g
    ensures Pinnable(d, q) == Pinnable(c, q)
  {
    forall i: nat | i <= |c.g.nodes[q].ins|
      ensures Offset(d, c.g.nodes[q].ins, i) == Offset(c, c.g.nodes[q].ins, i)
    {
    }
  }

  lemma AllPinnableSame(c: Ctx, d: Ctx)
    requires d.g == c.g
    ensures AllPinnable(d) == AllPinnable(c)
  {
    hide Pinnable;
    forall q: nat | IsConcat(c, q) || IsConcat(d, q)
      ensures IsConcat(c, q) && IsConcat(d, q) && Pinnable(d, q) == Pinnable(c, q)
    {
      PinnableSame(c, d, q);
    }
  }

  lemma ReservedFor(g: G.Graph, streaming: bool)
    ensures Reserved(g, streaming).g == g && Reserved(g, streaming).streaming == streaming
  {
    hide PinsAfter, Next, Biggest;
  }

  lemma ReservedAbove(g: G.Graph, streaming: bool)
    ensures Reserved(g, streaming).g == g && PinsAfter(g, |g.nodes|).0 <= Reserved(g, streaming).walkStart
  {
    hide PinsAfter, Next, Biggest;
  }

  lemma AreaIs(n: G.Node)
    requires n.MatMulNode?
    ensures WeightArea(n) == Pad16(n.N) * Pad16(n.K)
  {
  }

  /** Every fc layer fits each of the two slots. */
  lemma SlotsReserved(g: G.Graph, streaming: bool)
    requires PinsAfter(g, |g.nodes|).0 % 16 == 0
    ensures SlotsOk(Reserved(g, streaming))
  {
    hide PinsAfter, Next, Pad16, WeightArea;
    var b := Biggest(g, |g.nodes|);
    forall i | 0 <= i < |g.nodes| && g.nodes[i].MatMulNode?
      ensures Pad16(g.nodes[i].N) * Pad16(g.nodes[i].K) + 4 * Pad16(g.nodes[i].N) <= Pad16(b)
    {
      AreaIs(g.nodes[i]);
    }
  }

  /** A finished walk has emitted an fc layer exactly if the graph has a MatMul. */
  lemma FcIffMatMul(c: Ctx, w: Walk, k: nat)
    requires TailOk(c, w, k) && k == |c.g.nodes|
    ensures (exists n :: 0 <= n < |w.p.layers| && w.p.layers[n].Fc?)
            <==> exists i :: 0 <= i < |c.g.nodes| && c.g.nodes[i].MatMulNode?
  {
    hide G.IsFinal;
    if w.lastMat >= 0 {
      assert w.p.layers[w.lastFc].Fc? && c.g.nodes[w.lastMat].MatMulNode?;
    }
  }

  lemma BufferSame(c: Ctx, d: Ctx, q: nat, end: nat)
    requires IsConcat(c, q) && Buffer(c, q, end) && d.g == c.g && d.pins == c.pins
    ensures Buffer(d, q, end)
  {
    hide Room, Sourced;
    var n := c.g.nodes[q];
    forall i | 0 <= i < |n.ins|
      ensures Slice(d, Base(d, q), n.ins, i)
    {
      assert Slice(c, Base(c, q), n.ins, i);
      assert Offset(c, n.ins, i) == Offset(d, n.ins, i) && Pin(c, n.ins[i]) == Pin(d, n.ins[i]);
      SourcedBoth(c, d, n.ins[i]);
    }
    assert Base(c, q) == Base(d, q) && Total(c, q) == Total(d, q);
  }

  lemma SourcedBoth(c: Ctx, d: Ctx, t: string)
    requires d.g == c.g
    ensures Sourced(c, t) == Sourced(d, t)
  {
  }

  lemma CtxIs(c: Ctx)
    requires G.GraphOk(c.g) && PinsOk(c) && SlotsOk(c)
    ensures CtxOk(c)
  {
  }

  lemma ShapedOne(c: Ctx, k: nat)
    requires AllShaped(c) && k < |c.g.nodes|
    ensures Shaped(c, k)
  {
  }

  lemma TwoSlots(c: Ctx)
    requires SlotsOk(c)
    ensures c.streaming ==> |c.slots| == 2
  {
  }

  lemma ConcatKeepsEnd(c: Ctx, w: Walk, k: nat)
    requires IsConcat(c, k)
    ensures ConcatAfter(c, w, k).p.layoutEnd == w.p.layoutEnd
  {
    hide PartsAfter;
  }

  lemma TableShape(c: Ctx, k: nat)
    requires Shaped(c, k) && c.g.nodes[k].GatherNode?
    ensures forall r :: 0 <= r < |c.g.nodes[k].table| ==> |c.g.nodes[k].table[r]| == c.g.nodes[k].dim
  {
  }

  lemma WeightShape(c: Ctx, k: nat)
    requires Shaped(c, k) && c.g.nodes[k].MatMulNode?
    ensures |c.g.nodes[k].weights| == c.g.nodes[k].N
            && forall r :: 0 <= r < c.g.nodes[k].N ==> |c.g.nodes[k].weights[r]| == c.g.nodes[k].K
  {
  }

  /** GatherAfter, field by field. */
  lemma GatherIs(c: Ctx, w: Walk, k: nat)
    requires Shaped(c, k) && c.g.nodes[k].GatherNode?
    ensures var n := c.g.nodes[k]; var d, e := TableBytes(n), Next(w.p.layoutEnd, |TableBytes(n)|);
            var out := if n.out in c.pins then Pin(c, n.out) else Next(e, 16);
            var end := if n.out in c.pins then Next(e, 16) else Next(Next(e, 16), Pad16(n.dim));
            GatherAfter(c, w, k) ==
            Walk(Program(w.p.streaming, w.p.segments + [Segment(w.p.layoutEnd, |w.p.image|, |d|, n.name, TableSeg)],
                         w.p.inputs + [IndexInput(n.index, e, |n.table|)],
                         w.p.layers + [Gather(n.name, w.p.layoutEnd, |n.table|, n.dim, Pad16(n.dim), e, out, n.index)],
                         w.p.outputLayer, end, w.p.image + Stored(w.p.image, d)),
                 w.produced[n.out := (out, n.dim)], if G.IsPart(c.g, n.out) then w.done + {n.out} else w.done,
                 w.live + {n.out}, w.lastFc, w.lastMat)
  {
    hide Next, Stored, TableBytes, G.IsPart, Pad16;
  }

  lemma PartsNone(c: Ctx, w: Walk, ins: seq<string>)
    ensures PartsAfter(c, w, ins[..0]) == (w, []) && PartsLen([]) == 0
  {
  }

  lemma PartsLenNext(parts: seq<Part>, part: Part)
    ensures PartsLen(parts + [part]) == PartsLen(parts) + part.len && PartsLen([]) == 0
  {
    assert (parts + [part])[..|parts|] == parts;
  }

  /** FcProgram, field by field. */
  lemma FcProgramIs(c: Ctx, w: Walk, k: nat, f: nat)
    requires Shaped(c, k) && c.g.nodes[k].MatMulNode? && c.g.nodes[k].x in w.produced
    ensures var n, q, L := c.g.nodes[k], FcProgram(c, w, k, f), FcRecord(c, w, k, f);
            var dw, db := WeightBytes(n), G.BiasBytes(Biases(c.g, k), Pad16(n.N));
            var e := Next(w.p.layoutEnd, |dw|);
            var image := w.p.image + Stored(w.p.image, dw);
            && L.wAddr == (if c.streaming then SlotOf(c, f) else w.p.layoutEnd)
            && L.bAddr == (if c.streaming then SlotOf(c, f) + Pad16(|dw|) else e)
            && AfterConsts(c, w, k) == (if c.streaming then w.p.layoutEnd else Next(e, |db|))
            && q == Program(w.p.streaming, w.p.segments + [Segment(L.wAddr, |w.p.image|, |dw|, n.name, WeightSeg),
                Segment(L.bAddr, |image|, |db|, n.name, BiasSeg)],
                            w.p.inputs, w.p.layers, w.p.outputLayer, AfterConsts(c, w, k), image + Stored(image, db))
  {
    hide Next, Stored, WeightBytes, Pad16, G.IsFinal, Requant.Params, G.FusedRelu, SlotOf, G.BiasBytes, Biases;
    WeightsSize(c.g.nodes[k]);
  }

  /** FcAfter, field by field. */
  lemma FcAfterIs(c: Ctx, w: Walk, k: nat, f: nat)
    requires Shaped(c, k) && c.g.nodes[k].MatMulNode? && c.g.nodes[k].x in w.produced
    ensures var n, q, L, t := c.g.nodes[k], FcProgram(c, w, k, f), FcRecord(c, w, k, f), G.ChainOut(c.g, k);
            var final := G.IsFinal(c.g, k);
            var e := Next(q.layoutEnd, 4 * Pad16(n.N));
            var end := if final then e else Next(e, Pad16(n.N));
            var scale := if final then (0, 0) else Requant.Params(n.ratio);
            && L == Fc(n.name, w.produced[n.x].0, n.K, Pad16(n.K), n.N, Pad16(n.N), L.wAddr, L.bAddr, q.layoutEnd,
                if final then q.layoutEnd else e,
                       scale.0, scale.1, G.FusedRelu(c.g, k) >= 0, final, c.streaming)
            && FcAfter(c, w, k, f) ==
               Walk(q.(layers := w.p.layers + [L], layoutEnd := end), w.produced[t := (L.outAddr, n.N)], w.done,
                    if final then w.live - {t} else w.live + {t}, |w.p.layers|, k)
            && q.layers == w.p.layers
  {
    hide Next, WeightBytes, Pad16, G.IsFinal, Requant.Params, G.FusedRelu, SlotOf, AfterConsts, AfterWeights, FcProgram,
         G.ChainOut;
    FcProgramEnds(c, w, k, f);
  }

  /** Every allocation of a MatMul lies below the next one. */
  lemma EndsGrow(c: Ctx, w: Walk, k: nat, f: nat)
    requires Shaped(c, k) && c.g.nodes[k].MatMulNode?
    ensures var n := c.g.nodes[k];
            var v := DenseAfter(w, n.x, n.K);
            && w.p.layoutEnd <= v.p.layoutEnd <= AfterConsts(c, v, k) <= AfterLayer(c, v, k) == MatMulAfter(c, w, k,
                f).p.layoutEnd
            && v.p.layoutEnd == (if n.x in w.produced then w.p.layoutEnd else Next(w.p.layoutEnd, Pad16(n.K)))
            && Next(AfterConsts(c, v, k), 4 * Pad16(n.N)) <= AfterLayer(c, v, k)
  {
    hide Next, Pad16, G.IsFinal, FcProgram, FcRecord, WeightBytes;
  }

  lemma SourcedNotInit(g: G.Graph, t: string)
    requires G.Named(g) && t in g.inits
    ensures t !in g.inputs && forall i :: 0 <= i < |g.nodes| ==> g.nodes[i].out != t
  {
    hide G.NodeShaped;
  }

  lemma ProducedOnce(g: G.Graph, i: nat)
    requires G.Named(g) && i < |g.nodes|
    ensures forall j :: 0 <= j < |g.nodes| && j != i ==> g.nodes[j].out != g.nodes[i].out
  {
    hide G.NodeShaped;
  }

  lemma GatherShape(g: G.Graph, i: nat)
    requires G.Named(g) && i < |g.nodes| && g.nodes[i].GatherNode?
    ensures g.nodes[i].out in g.lens && g.lens[g.nodes[i].out] == g.nodes[i].dim
  {
    assert G.NodeShaped(g, g.nodes[i]);
  }

  /** Every Concat and every part of one has an address. */
  ghost predicate Covered(g: G.Graph, pins: map<string, nat>, k: nat)
    requires k <= |g.nodes|
  {
    forall q: nat :: q < k && g.nodes[q].ConcatNode? ==> g.nodes[q].out in pins && forall t :: t in g.nodes[q].ins ==>
      t in pins
  }

  lemma {:induction false} PinsCover(g: G.Graph, k: nat)
    requires k <= |g.nodes|
    ensures Covered(g, PinsAfter(g, k).1, k)
  {
    hide Next, PartPins, G.SumLens;
    if k > 0 {
      PinsCover(g, k - 1);
      var (base, pins) := PinsAfter(g, k - 1);
      var n := g.nodes[k - 1];
      if n.ConcatNode? {
        PartsCover(g, pins, n.ins, |n.ins|, base);
        assert n.ins[..|n.ins|] == n.ins;
      }
    }
  }

  lemma {:induction false} PartsCover(g: G.Graph, pins: map<string, nat>, ins: seq<string>, i: nat, base: nat)
    requires i <= |ins|
    ensures forall t :: t in pins || t in ins[..i] ==> t in PartPins(g, pins, ins, i, base)
  {
    if i > 0 {
      PartsCover(g, pins, ins, i - 1, base);
      assert ins[..i] == ins[..i - 1] + [ins[i - 1]];
    }
  }

  /** A Concat's parts have addresses and lengths. */
  lemma ConcatCovered(c: Ctx, k: nat)
    requires Covered(c.g, c.pins, |c.g.nodes|) && Shaped(c, k) && IsConcat(c, k)
    ensures c.g.nodes[k].out in c.pins
    ensures forall t :: t in c.g.nodes[k].ins ==> t in c.pins && t in c.g.lens
  {
  }

  lemma RoomNext(base: nat, total: nat)
    requires base % 16 == 0
    ensures Next(base, Pad16(total)) == base + Room(total)
  {
  }

  /** The first i parts are pinned behind base, and nothing else has changed. */
  ghost predicate PinnedPrefix(c: Ctx, base: nat, ins: seq<string>, i: nat, pins: map<string, nat>) {
    && i <= |ins|
    && (forall j :: 0 <= j < i ==>
        ins[j] in pins && pins[ins[j]] == base + Offset(c, ins, j)
        && Offset(c, ins, j) % 16 == 0)
    && (forall t :: t in pins ==> t in ins || (t in c.pins && pins[t] == c.pins[t]))
    && (forall t :: t in c.pins ==> t in pins)
  }

  lemma OffsetIsBefore(c: Ctx, ins: seq<string>, i: nat)
    requires i <= |ins|
    ensures Offset(c, ins, i) == Before(c.g, ins, i)
  {
  }

  lemma PrefixNone(c: Ctx, base: nat, ins: seq<string>)
    ensures PinnedPrefix(c, base, ins, 0, c.pins) && Offset(c, ins, 0) == 0
  {
  }

  lemma PrefixStep(c: Ctx, k: nat, base: nat, i: nat, pins: map<string, nat>)
    requires G.GraphOk(c.g) && IsConcat(c, k) && i < |c.g.nodes[k].ins|
             && PinnedPrefix(c, base, c.g.nodes[k].ins, i, pins)
    requires Offset(c, c.g.nodes[k].ins, i) % 16 == 0
    ensures PinnedPrefix(c, base, c.g.nodes[k].ins, i + 1,
            pins[c.g.nodes[k].ins[i] := base + Offset(c, c.g.nodes[k].ins, i)])
  {
    hide G.GraphOk, Offset;
    forall j | 0 <= j < i
      ensures c.g.nodes[k].ins[j] != c.g.nodes[k].ins[i]
    {
      InputsApart(c, k, j, k, i);
    }
  }

  lemma PrefixDone(c: Ctx, k: nat, base: nat, pins: map<string, nat>)
    requires G.GraphOk(c.g) && IsConcat(c, k) && base % 16 == 0
             && PinnedPrefix(c, base, c.g.nodes[k].ins, |c.g.nodes[k].ins|, pins)
    requires forall i :: 0 <= i < |c.g.nodes[k].ins| ==> Sourced(c, c.g.nodes[k].ins[i])
    ensures Added(c, k, base, pins[c.g.nodes[k].out := base])
  {
    hide G.GraphOk, Sourced, Offset, Added;
    OutsideOwnParts(c, k);
    AddedIs(c, k, base, pins[c.g.nodes[k].out := base]);
  }

  lemma OutsideOwnParts(c: Ctx, k: nat)
    requires G.GraphOk(c.g) && IsConcat(c, k)
             && forall i :: 0 <= i < |c.g.nodes[k].ins| ==> Sourced(c, c.g.nodes[k].ins[i])
    ensures c.g.nodes[k].out !in c.g.nodes[k].ins
  {
    hide G.GraphOk, Sourced;
    forall i | 0 <= i < |c.g.nodes[k].ins|
      ensures c.g.nodes[k].ins[i] != c.g.nodes[k].out
    {
      SourceNotConcat(c, c.g.nodes[k].ins[i], k);
    }
  }

  lemma AddedIs(c: Ctx, k: nat, base: nat, pins: map<string, nat>)
    requires IsConcat(c, k) && base % 16 == 0
    requires var n := c.g.nodes[k];
             && n.out in pins && pins[n.out] == base
             && (forall j :: 0 <= j < |n.ins| ==>
                 n.ins[j] in pins && pins[n.ins[j]] == base + Offset(c, n.ins, j)
                 && Offset(c, n.ins, j) % 16 == 0 && Sourced(c, n.ins[j]))
             && (forall t :: t in pins ==> t == n.out || t in n.ins || (t in c.pins && pins[t] == c.pins[t]))
             && (forall t :: t in c.pins ==> t in pins)
    ensures Added(c, k, base, pins)
  {
    hide Sourced, Offset;
    var n := c.g.nodes[k];
    OffsetSame(c, pins, n.ins);
    forall i | 0 <= i < |n.ins|
      ensures Slice(c.(pins := pins), base, n.ins, i)
    {
      SourcedSame(c, pins, n.ins[i]);
    }
  }

  lemma OffsetSame(c: Ctx, pins: map<string, nat>, ins: seq<string>)
    ensures forall i: nat :: i <= |ins| ==> Offset(c.(pins := pins), ins, i) == Offset(c, ins, i)
  {
  }
}
