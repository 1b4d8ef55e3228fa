/** Growing a program piece by piece: what has to hold of a new segment, input or layer for the program so far to
    stay well formed. */
module Layout {
  import opened Bytes
  import opened Program

  /** Everything a well-formed program needs except its output layer. */
  ghost predicate Partial(p: Program) {
    SegmentsOk(p) && InputsOk(p) && WritesOk(p) && forall n :: 0 <= n < |p.layers| ==> LayerOk(p, n)
  }

  // ----- shapes -----

  lemma {:induction false} ShapesSame(p: Program, q: Program, n: nat)
    requires q.inputs == p.inputs && n <= |p.layers| && n <= |q.layers| && q.layers[..n] == p.layers[..n]
    ensures Shapes(q, n) == Shapes(p, n)
  {
    hide DenseShapes;
    if n > 0 {
      assert q.layers[..n - 1] == q.layers[..n][..n - 1] && p.layers[..n - 1] == p.layers[..n][..n - 1];
      ShapesSame(p, q, n - 1);
      assert q.layers[n - 1] == q.layers[..n][n - 1] && p.layers[n - 1] == p.layers[..n][n - 1];
    }
  }

  /** A new input changes the shape at its own address only. */
  lemma {:induction false} ShapesMoreInput(p: Program, i: InputSpec, n: nat, a: nat)
    requires n <= |p.layers| && (i.IndexInput? || a != i.addr)
    ensures var q := p.(inputs := p.inputs + [i]);
            (a in Shapes(q, n) <==> a in Shapes(p, n)) && (a in Shapes(p, n) ==> Shapes(q, n)[a] == Shapes(p, n)[a])
  {
    var q := p.(inputs := p.inputs + [i]);
    if n == 0 {
      assert q.inputs[..|q.inputs| - 1] == p.inputs;
    } else {
      ShapesMoreInput(p, i, n - 1, a);
    }
  }

  // ----- segments -----

  lemma {:induction false} FindSegMore(segs: seq<Segment>, s: Segment, layer: string, kind: SegKind)
    ensures FindSeg(segs, layer, kind) < |segs| ==> FindSeg(segs + [s], layer, kind) == FindSeg(segs, layer, kind)
    ensures FindSeg(segs, layer, kind) == |segs| && s.layer == layer && s.kind == kind
            ==> FindSeg(segs + [s], layer, kind) == |segs|
    ensures FindSeg(segs, layer, kind) == |segs| && !(s.layer == layer && s.kind == kind)
            ==> FindSeg(segs + [s], layer, kind) == |segs| + 1
    decreases |segs|
  {
    if segs != [] {
      FindSegMore(segs[1..], s, layer, kind);
      assert (segs + [s])[1..] == segs[1..] + [s];
    }
  }

  /** No segment of a layer is found before one is placed. */
  lemma {:induction false} FindSegNone(segs: seq<Segment>, layer: string, kind: SegKind)
    requires forall k :: 0 <= k < |segs| ==> !(segs[k].layer == layer && segs[k].kind == kind)
    ensures FindSeg(segs, layer, kind) == |segs|
    decreases |segs|
  {
    if segs != [] {
      FindSegNone(segs[1..], layer, kind);
    }
  }

  function WithSegment(p: Program, s: Segment, data: seq<byte>, end: nat): Program {
    p.(segments := p.segments + [s], image := p.image + data, layoutEnd := end)
  }

  lemma SegIsMore(p: Program, s: Segment, data: seq<byte>, end: nat, layer: string, kind: SegKind, addr: nat,
          length: nat)
    requires SegIs(p, layer, kind, addr, length)
    ensures SegIs(WithSegment(p, s, data, end), layer, kind, addr, length)
    ensures FindSeg(WithSegment(p, s, data, end).segments, layer, kind) == FindSeg(p.segments, layer,
            kind) < |p.segments|
    ensures WithSegment(p, s, data, end).segments[FindSeg(p.segments, layer, kind)]
            == p.segments[FindSeg(p.segments, layer, kind)]
  {
    FindSegMore(p.segments, s, layer, kind);
  }

  lemma LayerOkMoreSegment(p: Program, s: Segment, data: seq<byte>, end: nat, n: nat)
    requires n < |p.layers| && LayerOk(p, n) && s.layer != p.layers[n].name && p.layoutEnd <= end
    ensures LayerOk(WithSegment(p, s, data, end), n)
  {
    hide SegIs, Clear, Pad16, Tiled, FindSeg, RowPadded;
    var q, L := WithSegment(p, s, data, end), p.layers[n];
    ShapesSame(p, q, n);
    match L
    case Gather(_, _, _, _, _, _, _, _) => SegIsMore(p, s, data, end, L.name, TableSeg, L.tableAddr,
      L.rows * L.dimBytes);
    case Concat(_, parts, outAddr, _) => TiledSame(p, q, n, parts, outAddr);
    case Fc(_, _, _, _, _, _, _, _, _, _, _, _, _, _, _) =>
      SegIsMore(p, s, data, end, L.name, WeightSeg, L.wAddr, L.Mpad * L.Kpad);
      SegIsMore(p, s, data, end, L.name, BiasSeg, L.bAddr, 4 * L.Mpad);
      forall m: nat | m < L.Mpad
        ensures RowPadded(q.image, WeightOff(q, L), m, L.K, L.Kpad)
      {
        RowPaddedMore(p.image, data, WeightOff(p, L), m, L.K, L.Kpad);
      }
  }

  lemma RowPaddedMore(image: seq<byte>, data: seq<byte>, off: nat, m: nat, K: nat, Kpad: nat)
    requires RowPadded(image, off, m, K, Kpad)
    ensures RowPadded(image + data, off, m, K, Kpad)
  {
  }

  /** Parts keep their place when shapes and inputs they rely on are kept. */
  lemma {:induction false} TiledSame(p: Program, q: Program, n: nat, parts: seq<Part>, base: nat)
    requires n <= |p.layers| && n <= |q.layers| && Tiled(p, n, parts, base)
    requires Shapes(q, n) == Shapes(p, n) && forall i :: i in p.inputs ==> i in q.inputs
    ensures Tiled(q, n, parts, base)
  {
    hide Shapes;
    if parts != [] {
      TiledSame(p, q, n, parts[..|parts| - 1], base);
    }
  }

  /** A new segment clear of everything it may not overlap. */
  ghost predicate SegmentFits(p: Program, s: Segment, data: seq<byte>, end: nat) {
    && p.layoutEnd <= end && s.addr + s.length <= end && s.offset + s.length <= |p.image| + |data|
    && (forall k :: 0 <= k < |p.segments| && (!p.streaming || p.segments[k].kind == TableSeg || s.kind == TableSeg
                     || p.segments[k].layer == s.layer) ==>
          Apart(p.segments[k].addr, p.segments[k].length, s.addr, s.length))
    && (forall j :: 0 <= j < |p.inputs| ==> Apart(p.inputs[j].addr, Pad16(p.inputs[j].Size()), s.addr, s.length))
    && (forall n :: 0 <= n < |p.layers| ==> Clear(p.layers[n], s.addr, s.length) && p.layers[n].name != s.layer)
  }

  lemma AddSegment(p: Program, s: Segment, data: seq<byte>, end: nat)
    requires Partial(p) && SegmentFits(p, s, data, end)
    ensures Partial(WithSegment(p, s, data, end))
  {
    hide LayerOk, Clear, ClearOf, Apart, Pad16, WritesBelow;
    var q := WithSegment(p, s, data, end);
    forall n | 0 <= n < |p.layers|
      ensures LayerOk(q, n)
    {
      LayerOkMoreSegment(p, s, data, end, n);
    }
    WritesBelowMore(p, end);
    SegmentsMore(p, s, data, end);
  }

  lemma WritesBelowMore(p: Program, end: nat)
    requires WritesOk(p) && p.layoutEnd <= end
    ensures forall n :: 0 <= n < |p.layers| ==> WritesBelow(p.layers[n], end)
  {
    hide Clear, ClearOf, Pad16;
    forall n | 0 <= n < |p.layers|
      ensures WritesBelow(p.layers[n], end)
    {
      assert WritesBelow(p.layers[n], p.layoutEnd);
    }
  }

  lemma SegmentsMore(p: Program, s: Segment, data: seq<byte>, end: nat)
    requires SegmentsOk(p) && SegmentFits(p, s, data, end)
    ensures SegmentsOk(WithSegment(p, s, data, end))
  {
    hide Clear, Apart, Pad16;
    var q := WithSegment(p, s, data, end);
    forall j, k | 0 <= j < k < |q.segments|
      && (Resident(q, j) || Resident(q, k) || q.segments[j].layer == q.segments[k].layer)
      ensures Apart(q.segments[j].addr, q.segments[j].length, q.segments[k].addr, q.segments[k].length)
    {
      if k < |p.segments| {
        assert Resident(p, j) || Resident(p, k) || p.segments[j].layer == p.segments[k].layer;
      }
    }
  }

  // ----- inputs -----

  function WithInput(p: Program, i: InputSpec, end: nat): Program {
    p.(inputs := p.inputs + [i], layoutEnd := end)
  }

  /** Address a is one that layer L reads an INT8 vector from. */
  predicate ReadsAt(L: Layer, a: nat) {
    match L
    case Gather(_, _, _, _, _, _, _, _) => false
    case Concat(_, parts, _, _) => exists j :: 0 <= j < |parts| && parts[j].addr == a
    case Fc(_, inAddr, _, _, _, _, _, _, _, _, _, _, _, _, _) => inAddr == a
  }

  lemma {:induction false} TiledMoreInput(p: Program, i: InputSpec, end: nat, n: nat, parts: seq<Part>, base: nat)
    requires n <= |p.layers| && Tiled(p, n, parts, base)
    requires i.DenseInput? ==> forall j :: 0 <= j < |parts| ==> parts[j].addr != i.addr
    ensures Tiled(WithInput(p, i, end), n, parts, base)
  {
    hide Shapes;
    if parts != [] {
      var q := WithInput(p, i, end);
      TiledMoreInput(p, i, end, n, parts[..|parts| - 1], base);
      ShapesMoreInput(p, i, n, parts[|parts| - 1].addr);
      ShapesSame(p.(inputs := p.inputs + [i]), q, n);
    }
  }

  lemma LayerOkMoreInput(p: Program, i: InputSpec, end: nat, n: nat)
    requires n < |p.layers| && LayerOk(p, n) && p.layoutEnd <= end && (i.DenseInput? ==> !ReadsAt(p.layers[n], i.addr))
    ensures LayerOk(WithInput(p, i, end), n)
  {
    hide SegIs, Clear, Pad16, Tiled, FindSeg, RowPadded, Shapes;
    var q, L := WithInput(p, i, end), p.layers[n];
    SegIsSame(p, q, L);
    match L
    case Gather(_, _, _, _, _, _, _, _) =>
    case Concat(_, parts, outAddr, _) => TiledMoreInput(p, i, end, n, parts, outAddr);
    case Fc(_, inAddr, _, _, _, _, _, _, _, _, _, _, _, _, _) =>
      ShapesMoreInput(p, i, n, inAddr);
      ShapesSame(p.(inputs := p.inputs + [i]), q, n);
      assert forall m: nat :: m < L.Mpad ==> RowPadded(p.image, WeightOff(p, L), m, L.K, L.Kpad);
  }

  /** Layer n's own segments are looked up alike. */
  lemma SegIsSame(p: Program, q: Program, L: Layer)
    requires q.segments == p.segments && q.image == p.image
    ensures L.Gather? && SegIs(p, L.name, TableSeg, L.tableAddr, L.rows * L.dimBytes)
            ==> SegIs(q, L.name, TableSeg, L.tableAddr, L.rows * L.dimBytes)
    ensures L.Fc? && SegIs(p, L.name, WeightSeg, L.wAddr, L.Mpad * L.Kpad)
            ==> SegIs(q, L.name, WeightSeg, L.wAddr, L.Mpad * L.Kpad)
    ensures L.Fc? && SegIs(p, L.name, BiasSeg, L.bAddr, 4 * L.Mpad) ==> SegIs(q, L.name, BiasSeg, L.bAddr, 4 * L.Mpad)
    ensures WeightOff(q, L) == WeightOff(p, L)
  {
  }

  ghost predicate InputFits(p: Program, i: InputSpec, end: nat) {
    && p.layoutEnd <= end && i.Size() > 0 && i.addr + Pad16(i.Size()) <= end
    && (forall j :: 0 <= j < |p.inputs| ==> Apart(p.inputs[j].addr, Pad16(p.inputs[j].Size()), i.addr, Pad16(i.Size())))
    && (forall k :: 0 <= k < |p.segments| ==> Apart(i.addr, Pad16(i.Size()), p.segments[k].addr, p.segments[k].length))
    && (forall n :: 0 <= n < |p.layers| ==>
        Clear(p.layers[n], i.addr, Pad16(i.Size()))
        && (i.DenseInput? ==> !ReadsAt(p.layers[n], i.addr)))
  }

  lemma AddInput(p: Program, i: InputSpec, end: nat)
    requires Partial(p) && InputFits(p, i, end)
    ensures Partial(WithInput(p, i, end))
  {
    hide LayerOk, Clear, ClearOf, Apart, Pad16, WritesBelow, ReadsAt;
    var q := WithInput(p, i, end);
    forall n | 0 <= n < |p.layers|
      ensures LayerOk(q, n)
    {
      LayerOkMoreInput(p, i, end, n);
    }
    WritesBelowMore(p, end);
    SegmentsEnd(p, q);
  }

  lemma SegmentsEnd(p: Program, q: Program)
    requires SegmentsOk(p) && q.segments == p.segments && q.image == p.image && q.streaming == p.streaming
             && p.layoutEnd <= q.layoutEnd
    ensures SegmentsOk(q)
  {
    hide Apart;
    forall j, k | 0 <= j < k < |q.segments|
      && (Resident(q, j) || Resident(q, k) || q.segments[j].layer == q.segments[k].layer)
      ensures Apart(q.segments[j].addr, q.segments[j].length, q.segments[k].addr, q.segments[k].length)
    {
      assert Resident(p, j) || Resident(p, k) || p.segments[j].layer == p.segments[k].layer;
    }
  }

  // ----- layers -----

  function WithLayer(p: Program, L: Layer, end: nat): Program {
    p.(layers := p.layers + [L], layoutEnd := end)
  }

  ghost predicate LayerFits(p: Program, L: Layer, end: nat) {
    && p.layoutEnd <= end && WritesBelow(L, end) && LayerOk(WithLayer(p, L, end), |p.layers|)
    && (forall j :: 0 <= j < |p.inputs| ==> Clear(L, p.inputs[j].addr, Pad16(p.inputs[j].Size())))
    && (forall k :: 0 <= k < |p.segments| ==> Clear(L, p.segments[k].addr, p.segments[k].length))
    && (forall n :: 0 <= n < |p.layers| ==> ClearOf(L, p.layers[n]))
  }

  lemma LayerOkMoreLayer(p: Program, L: Layer, end: nat, n: nat)
    requires n < |p.layers| && LayerOk(p, n) && p.layoutEnd <= end
    ensures LayerOk(WithLayer(p, L, end), n)
  {
    hide SegIs, Clear, Pad16, Tiled, FindSeg, RowPadded, Shapes;
    var q := WithLayer(p, L, end);
    SegIsSame(p, q, p.layers[n]);
    assert q.layers[..n] == p.layers[..n];
    ShapesSame(p, q, n);
    if p.layers[n].Concat? {
      TiledSame(p, q, n, p.layers[n].parts, p.layers[n].outAddr);
    }
  }

  lemma AddLayer(p: Program, L: Layer, end: nat)
    requires Partial(p) && LayerFits(p, L, end)
    ensures Partial(WithLayer(p, L, end))
  {
    hide LayerOk, Clear, ClearOf, Apart, Pad16, WritesBelow;
    var q := WithLayer(p, L, end);
    forall n | 0 <= n < |q.layers|
      ensures LayerOk(q, n)
    {
      if n < |p.layers| {
        LayerOkMoreLayer(p, L, end, n);
      }
    }
    WritesBelowMore(p, end);
    SegmentsEnd(p, q);
  }
}
