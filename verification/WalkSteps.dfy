/** The walk's primitive steps: placing constants, adding an input, adding a layer. */
module WalkSteps {
  import opened Bytes
  import opened Program
  import opened Layout
  import opened Walk
  import G = Graph

  // ----- parts -----

  /** A part's slice lies below the slots, and slices of different parts are disjoint and start apart. */
  lemma PartFacts(c: Ctx, t: string)
    requires CtxOk(c) && G.IsPart(c.g, t)
    ensures t in c.pins && t in c.g.lens && Len(c, t) > 0 && Pin(c, t) % 16 == 0
            && Pin(c, t) + Pad16(Len(c, t)) <= c.slotStart <= c.walkStart
    ensures Sourced(c, t)
  {
    hide Apart, Pad16;
    assert PartPinned(c, t);
    var q :| 0 <= q < |c.g.nodes| && G.PartOf(c.g, t, q);
    G.NodeAt(c.g, q);
  }

  lemma PartsApart(c: Ctx, t: string, u: string)
    requires CtxOk(c) && G.IsPart(c.g, t) && G.IsPart(c.g, u) && t != u
    ensures Apart(Pin(c, t), Pad16(Len(c, t)), Pin(c, u), Pad16(Len(c, u))) && Pin(c, t) != Pin(c, u)
  {
    hide G.GraphOk;
    PartFacts(c, t);
    PartFacts(c, u);
  }

  /** Regions of the three kinds stay clear of an unclaimed part's slice. */
  lemma ClaimApart(c: Ctx, w: Walk, k: nat, b: nat, t: string, addr: nat, size: nat)
    requires Inv(c, w, k, b) && G.IsPart(c.g, t) && t !in w.done
    requires addr >= c.walkStart || Claimed(c, w.done, addr, size)
    ensures Apart(Pin(c, t), Pad16(Len(c, t)), addr, size)
  {
    hide CtxOk, Partial, Aligned, Placed, ReadsOk, TensorsOk, KeptOk, TailOk;
    PartFacts(c, t);
    if addr < c.walkStart {
      var u :| u in w.done && addr == Pin(c, u) && size == Pad16(Len(c, u));
      assert Emitted(c, b, u);
      PartsApart(c, t, u);
    }
  }

  // ----- steps that leave layers and inputs alone -----

  /** Growing the layout, the image and the segments keeps what tensors mean. */
  lemma CarryOver(c: Ctx, w: Walk, q: Program, k: nat)
    requires q.inputs == w.p.inputs && q.layers == w.p.layers && w.p.layoutEnd <= q.layoutEnd && k <= |c.g.nodes|
    ensures ReadsOk(c, w) ==> ReadsOk(c, w.(p := q))
    ensures TensorsOk(c, w, k) ==> TensorsOk(c, w.(p := q), k)
    ensures TailOk(c, w, k) ==> TailOk(c, w.(p := q), k)
  {
    hide ReadsAt, Shapes, G.IsPart, G.IsFinal, DeadEnd, Heads;
    ShapesSame(w.p, q, |w.p.layers|);
    if TensorsOk(c, w, k) {
      forall t | t in w.live
        ensures LiveTensor(c, w.(p := q), k, t)
      {
        assert LiveTensor(c, w, k, t);
      }
      forall t | Gathered(c, w.produced, t)
        ensures WaitingPart(c, w.(p := q), k, t)
      {
        assert WaitingPart(c, w, k, t);
      }
    }
  }

  lemma FreshClear(L: Layer, end: nat, a: nat, n: nat)
    requires WritesBelow(L, end) && a >= end
    ensures Clear(L, a, n)
  {
  }

  /** Constants placed behind everything else. */
  lemma FreshSegmentFits(p: Program, s: Segment, data: seq<byte>, end: nat)
    requires Partial(p) && p.layoutEnd <= s.addr && s.addr + s.length <= end
             && s.offset + s.length <= |p.image| + |data|
    requires forall n :: 0 <= n < |p.layers| ==> p.layers[n].name != s.layer
    ensures Layout.SegmentFits(p, s, data, end)
  {
    hide LayerOk, Clear, ClearOf, Pad16, WritesBelow;
    forall n | 0 <= n < |p.layers|
      ensures Clear(p.layers[n], s.addr, s.length)
    {
      FreshClear(p.layers[n], p.layoutEnd, s.addr, s.length);
    }
  }

  /** Weights placed in a slot: clear of parts, of resident tables and of the layer's own other segment. */
  lemma SlotSegmentFits(c: Ctx, w: Walk, k: nat, b: nat, s: Segment, data: seq<byte>)
    requires Inv(c, w, k, b) && c.streaming && s.kind != TableSeg && c.slotStart <= s.addr
             && s.addr + s.length <= c.walkStart
    requires s.offset + s.length <= |w.p.image| + |data|
    requires forall n :: 0 <= n < |w.p.layers| ==> w.p.layers[n].name != s.layer
    requires forall j :: 0 <= j < |w.p.segments| && w.p.segments[j].layer == s.layer ==>
               Apart(w.p.segments[j].addr, w.p.segments[j].length, s.addr, s.length)
    ensures Layout.SegmentFits(w.p, s, data, w.p.layoutEnd)
  {
    hide LayerOk, Clear, ClearOf, Pad16, WritesBelow, CtxOk, Aligned, ReadsOk, TensorsOk, KeptOk, TailOk, Partial;
    forall j | 0 <= j < |w.p.segments| && w.p.segments[j].kind == TableSeg
      ensures Apart(w.p.segments[j].addr, w.p.segments[j].length, s.addr, s.length)
    {
      assert SegPlaced(c, w.p.segments[j]);
    }
    forall j | 0 <= j < |w.p.inputs|
      ensures Apart(w.p.inputs[j].addr, Pad16(w.p.inputs[j].Size()), s.addr, s.length)
    {
      assert InputPlaced(c, w.done, w.p.inputs[j]);
      BelowSlots(c, w, b, w.p.inputs[j].addr, Pad16(w.p.inputs[j].Size()));
    }
    forall n | 0 <= n < |w.p.layers|
      ensures Clear(w.p.layers[n], s.addr, s.length)
    {
      assert LayerPlaced(c, w.done, w.p.layers[n]);
      LayerClearOfSlots(c, w, b, w.p.layers[n], s.addr, s.length);
    }
  }

  lemma BelowSlots(c: Ctx, w: Walk, b: nat, addr: nat, size: nat)
    requires CtxOk(c) && DoneOk(c, w, b) && (addr >= c.walkStart || Claimed(c, w.done, addr, size))
    ensures addr >= c.walkStart || addr + size <= c.slotStart
  {
    hide CtxOk;
    if addr < c.walkStart {
      var u :| u in w.done && addr == Pin(c, u) && size == Pad16(Len(c, u));
      assert Emitted(c, b, u);
      PartFacts(c, u);
    }
  }

  lemma LayerClearOfSlots(c: Ctx, w: Walk, b: nat, L: Layer, a: nat, n: nat)
    requires CtxOk(c) && DoneOk(c, w, b) && LayerPlaced(c, w.done, L) && c.slotStart <= a && a + n <= c.walkStart
    ensures Clear(L, a, n)
  {
    hide CtxOk, DoneOk, Claimed;
    if L.Gather? {
      BelowSlots(c, w, b, L.outAddr, L.dimBytes);
    }
  }

  /** One more segment, fresh or in a slot. */
  lemma SegmentStep(c: Ctx, w: Walk, k: nat, b: nat, s: Segment, data: seq<byte>, end: nat)
    requires Inv(c, w, k, b) && Layout.SegmentFits(w.p, s, data, end) && SegPlaced(c, s) && NamedBefore(c.g, b, s.layer)
    requires end % 16 == 0 && s.addr % 16 == 0 && s.offset % 16 == 0 && |data| % 16 == 0
    ensures Inv(c, w.(p := WithSegment(w.p, s, data, end)), k, b)
  {
    hide CtxOk, Partial, ReadsOk, TensorsOk, KeptOk, TailOk, SegPlaced, InputPlaced, LayerPlaced, NamedBefore,
         LayerAligned, Emitted;
    var q := WithSegment(w.p, s, data, end);
    SegmentEnd(w.p, s, data, end);
    AddSegment(w.p, s, data, end);
    CarryOver(c, w, q, k);
  }

  lemma SegmentEnd(p: Program, s: Segment, data: seq<byte>, end: nat)
    requires Layout.SegmentFits(p, s, data, end)
    ensures p.layoutEnd <= end
  {
    hide Clear, Apart, Pad16;
  }

  // ----- inputs -----

  lemma FreshInputFits(c: Ctx, w: Walk, k: nat, b: nat, i: InputSpec, end: nat)
    requires Inv(c, w, k, b) && i.addr == w.p.layoutEnd && i.Size() > 0 && i.addr + Pad16(i.Size()) <= end
    ensures Layout.InputFits(w.p, i, end)
  {
    hide LayerOk, Clear, ClearOf, Pad16, WritesBelow, CtxOk, Aligned, Placed, DoneOk, TensorsOk, KeptOk, TailOk,
         ReadsAt;
    forall n | 0 <= n < |w.p.layers|
      ensures Clear(w.p.layers[n], i.addr, Pad16(i.Size()))
    {
      FreshClear(w.p.layers[n], w.p.layoutEnd, i.addr, Pad16(i.Size()));
    }
  }

  /** A dense input written straight into the slice of an unclaimed part. */
  lemma PinnedInputFits(c: Ctx, w: Walk, k: nat, b: nat, t: string)
    requires Inv(c, w, k, b) && G.IsPart(c.g, t) && t !in w.done
    ensures Layout.InputFits(w.p, DenseInput(t, Pin(c, t), Len(c, t)), w.p.layoutEnd)
  {
    hide LayerOk, Clear, ClearOf, Pad16, WritesBelow, CtxOk, Aligned, Partial, DoneOk, TensorsOk, KeptOk, TailOk,
         ReadsAt, Apart, Claimed, G.IsPart, Sourced;
    PartFacts(c, t);
    forall j | 0 <= j < |w.p.inputs|
      ensures Apart(w.p.inputs[j].addr, Pad16(w.p.inputs[j].Size()), Pin(c, t), Pad16(Len(c, t)))
    {
      assert InputPlaced(c, w.done, w.p.inputs[j]);
      ClaimApart(c, w, k, b, t, w.p.inputs[j].addr, Pad16(w.p.inputs[j].Size()));
      ApartSym(Pin(c, t), Pad16(Len(c, t)), w.p.inputs[j].addr, Pad16(w.p.inputs[j].Size()));
    }
    forall s | 0 <= s < |w.p.segments|
      ensures Apart(Pin(c, t), Pad16(Len(c, t)), w.p.segments[s].addr, w.p.segments[s].length)
    {
      assert SegPlaced(c, w.p.segments[s]);
      SegAboveParts(c, w.p.segments[s], t);
    }
    forall n | 0 <= n < |w.p.layers|
      ensures Clear(w.p.layers[n], Pin(c, t), Pad16(Len(c, t))) && !ReadsAt(w.p.layers[n], Pin(c, t))
    {
      assert LayerPlaced(c, w.done, w.p.layers[n]);
      LayerClearOfPart(c, w, k, b, w.p.layers[n], t);
    }
  }

  lemma ApartSym(a: int, n: int, b: int, m: int)
    requires Apart(a, n, b, m)
    ensures Apart(b, m, a, n)
  {
  }

  lemma SegAboveParts(c: Ctx, s: Segment, t: string)
    requires CtxOk(c) && G.IsPart(c.g, t) && SegPlaced(c, s)
    ensures Apart(Pin(c, t), Pad16(Len(c, t)), s.addr, s.length)
  {
    hide CtxOk;
    PartFacts(c, t);
  }

  lemma LayerClearOfPart(c: Ctx, w: Walk, k: nat, b: nat, L: Layer, t: string)
    requires Inv(c, w, k, b) && G.IsPart(c.g, t) && t !in w.done && LayerPlaced(c, w.done, L)
    ensures Clear(L, Pin(c, t), Pad16(Len(c, t)))
  {
    hide Inv, Claimed, Apart;
    InvParts(c, w, k, b);
    PartFacts(c, t);
    match L
    case Gather(_, _, _, _, dimBytes, _, outAddr, _) =>
      ClaimApart(c, w, k, b, t, outAddr, dimBytes);
      ApartSym(Pin(c, t), Pad16(Len(c, t)), outAddr, dimBytes);
    case Concat(_, _, _, _) =>
    case Fc(_, _, _, _, _, Mpad, _, _, accAddr, outAddr, _, _, _, final, _) =>
      AboveApart(accAddr, 4 * Mpad, Pin(c, t), Pad16(Len(c, t)));
      if !final {
        AboveApart(outAddr, Mpad, Pin(c, t), Pad16(Len(c, t)));
      }
  }

  lemma AboveApart(a: nat, n: nat, b: nat, m: nat)
    requires b + m <= a
    ensures Apart(a, n, b, m)
  {
  }

  lemma InvParts(c: Ctx, w: Walk, k: nat, b: nat)
    requires Inv(c, w, k, b)
    ensures CtxOk(c) && Partial(w.p) && c.walkStart <= w.p.layoutEnd
  {
  }

  /** What tensors mean survives an input at an address none of them uses. */
  lemma TensorsKeepInput(c: Ctx, w: Walk, k: nat, b: nat, i: InputSpec, end: nat, done': set<string>)
    requires Inv(c, w, k, b) && w.p.layoutEnd <= end && w.done <= done'
    requires i.DenseInput? ==>
               i.addr == w.p.layoutEnd || exists t :: G.IsPart(c.g, t) && t !in w.done && i.addr == Pin(c, t)
    ensures TensorsOk(c, w.(p := WithInput(w.p, i, end), done := done'), k)
  {
    hide CtxOk, Partial, Aligned, Placed, DoneOk, ReadsOk, TailOk, KeptOk, DeadEnd, Shapes, G.IsPart, Heads;
    var v := w.(p := WithInput(w.p, i, end), done := done');
    forall t | t in w.live
      ensures LiveTensor(c, v, k, t)
    {
      assert LiveTensor(c, w, k, t);
      ShapesMoreInput(w.p, i, |w.p.layers|, w.produced[t].0);
      ShapesSame(w.p.(inputs := w.p.inputs + [i]), v.p, |w.p.layers|);
    }
    forall t | Gathered(c, w.produced, t)
      ensures WaitingPart(c, v, k, t)
    {
      assert WaitingPart(c, w, k, t);
      PartFacts(c, t);
      if u :| i.DenseInput? && G.IsPart(c.g, u) && u !in w.done && i.addr == Pin(c, u) {
        PartsApart(c, t, u);
      } else {
        Pad16Positive(Len(c, t));
      }
      ShapesMoreInput(w.p, i, |w.p.layers|, Pin(c, t));
      ShapesSame(w.p.(inputs := w.p.inputs + [i]), v.p, |w.p.layers|);
    }
  }

  lemma Pad16Positive(n: nat)
    requires n > 0
    ensures Pad16(n) > 0
  {
  }

  /** Layers' reads survive it too. */
  lemma ReadsKeepInput(c: Ctx, w: Walk, i: InputSpec, end: nat, done': set<string>)
    requires ReadsOk(c, w) && w.p.layoutEnd <= end && w.done <= done'
    ensures ReadsOk(c, w.(p := WithInput(w.p, i, end), done := done'))
  {
    hide ReadsAt, G.IsPart;
  }

  lemma PlacedKeepInput(c: Ctx, w: Walk, b: nat, i: InputSpec, end: nat, done': set<string>)
    requires Placed(c, w, b) && w.done <= done' && InputPlaced(c, done', i)
    ensures Placed(c, w.(p := WithInput(w.p, i, end), done := done'), b)
  {
    hide NamedBefore, SegPlaced, Pad16;
    var v := w.(p := WithInput(w.p, i, end), done := done');
    forall j | 0 <= j < |v.p.inputs|
      ensures InputPlaced(c, done', v.p.inputs[j])
    {
      if j < |w.p.inputs| {
        assert InputPlaced(c, w.done, w.p.inputs[j]);
      }
    }
    forall n | 0 <= n < |w.p.layers|
      ensures LayerPlaced(c, done', w.p.layers[n])
    {
      assert LayerPlaced(c, w.done, w.p.layers[n]);
    }
  }

  /** A fresh input. */
  lemma FreshInputStep(c: Ctx, w: Walk, k: nat, b: nat, i: InputSpec, end: nat)
    requires Inv(c, w, k, b) && i.addr == w.p.layoutEnd && i.Size() > 0 && i.addr + Pad16(i.Size()) <= end
             && end % 16 == 0
    ensures Inv(c, w.(p := WithInput(w.p, i, end)), k, b)
  {
    hide CtxOk, Partial, ReadsOk, TensorsOk, KeptOk, Placed, DoneOk, LayerAligned, Pad16, ReadsAt, G.IsPart;
    FreshInputFits(c, w, k, b, i, end);
    AddInput(w.p, i, end);
    TensorsKeepInput(c, w, k, b, i, end, w.done);
    ReadsKeepInput(c, w, i, end, w.done);
    PlacedKeepInput(c, w, b, i, end, w.done);
    assert w.(p := WithInput(w.p, i, end), done := w.done) == w.(p := WithInput(w.p, i, end));
    DoneSame(c, w, w.(p := WithInput(w.p, i, end)), b);
  }

  lemma DoneSame(c: Ctx, w: Walk, v: Walk, b: nat)
    requires DoneOk(c, w, b) && v.done == w.done
    ensures DoneOk(c, v, b)
  {
  }

  /** A dense part emitted by its Concat, node b - 1. */
  lemma PinnedInputStep(c: Ctx, w: Walk, k: nat, b: nat, t: string)
    requires Inv(c, w, k, b) && G.IsPart(c.g, t) && t !in w.done && Emitted(c, b, t)
    ensures Inv(c, w.(p := WithInput(w.p, DenseInput(t, Pin(c, t), Len(c, t)), w.p.layoutEnd),
            done := w.done + {t}), k, b)
  {
    hide CtxOk, Partial, ReadsOk, TensorsOk, KeptOk, Placed, LayerAligned, Pad16, ReadsAt, G.IsPart, Emitted;
    var i := DenseInput(t, Pin(c, t), Len(c, t));
    PartFacts(c, t);
    PinnedInputFits(c, w, k, b, t);
    AddInput(w.p, i, w.p.layoutEnd);
    TensorsKeepInput(c, w, k, b, i, w.p.layoutEnd, w.done + {t});
    ReadsKeepInput(c, w, i, w.p.layoutEnd, w.done + {t});
    assert Claimed(c, w.done + {t}, i.addr, Pad16(i.Size()));
    PlacedKeepInput(c, w, b, i, w.p.layoutEnd, w.done + {t});
  }
}
