/** What one executed layer must do to a flat activation memory for the run to follow `run_reference`,
    whichever machine executes it. */
module Agreement {
  import opened Bytes
  import opened Kernels
  import opened Program

  // ----- who owns an activation byte -----

  ghost predicate InInput(p: Program, i: int) {
    exists j :: 0 <= j < |p.inputs| && p.inputs[j].addr <= i < p.inputs[j].addr + p.inputs[j].Size()
  }

  ghost predicate Written(p: Program, n: nat, i: int)
    requires n <= |p.layers|
  {
    exists q :: 0 <= q < n && InFoot(p.layers[q], i)
  }

  /** Address i carries an input byte or a byte one of the first n layers may have written. */
  ghost predicate Owned(p: Program, n: nat, i: int)
    requires n <= |p.layers|
  {
    InInput(p, i) || Written(p, n, i)
  }

  lemma ClearFoot(L: Layer, a: nat, n: nat, i: int)
    requires Clear(L, a, n) && a <= i < a + n
    ensures !InFoot(L, i)
  {
  }

  lemma ClearOfFoot(L: Layer, M: Layer, i: int)
    requires ClearOf(L, M) && InFoot(M, i)
    ensures !InFoot(L, i)
  {
  }

  /** No later layer writes an owned byte. */
  lemma OwnedNotWritten(p: Program, n: nat, i: int)
    requires WellFormed(p) && n < |p.layers| && Owned(p, n, i)
    ensures !InFoot(p.layers[n], i)
  {
    hide LayerOk, SegmentsOk, OutputOk, Clear, ClearOf, InFoot;
    if InInput(p, i) {
      var j :| 0 <= j < |p.inputs| && p.inputs[j].addr <= i < p.inputs[j].addr + p.inputs[j].Size();
      ClearFoot(p.layers[n], p.inputs[j].addr, Pad16(p.inputs[j].Size()), i);
    } else {
      var q :| 0 <= q < n && InFoot(p.layers[q], i);
      ClearOfFoot(p.layers[n], p.layers[q], i);
    }
  }

  /** No weight download touches an owned byte. */
  lemma OwnedNotSegment(p: Program, n: nat, i: int, k: nat)
    requires WellFormed(p) && n <= |p.layers| && Owned(p, n, i) && k < |p.segments|
    ensures !(p.segments[k].addr <= i < p.segments[k].addr + p.segments[k].length)
  {
    hide LayerOk, SegmentsOk, OutputOk, Clear, ClearOf, InFoot;
    var s := p.segments[k];
    if InInput(p, i) {
      var j :| 0 <= j < |p.inputs| && p.inputs[j].addr <= i < p.inputs[j].addr + p.inputs[j].Size();
      assert Apart(p.inputs[j].addr, Pad16(p.inputs[j].Size()), s.addr, s.length);
    } else {
      var q :| 0 <= q < n && InFoot(p.layers[q], i);
      if s.addr <= i < s.addr + s.length {
        ClearFoot(p.layers[q], s.addr, s.length, i);
      }
    }
  }

  lemma OwnedMore(p: Program, n: nat, i: int)
    requires n < |p.layers| && (Owned(p, n, i) || InFoot(p.layers[n], i))
    ensures Owned(p, n + 1, i)
  {
  }

  lemma {:induction false} DenseOwned(ins: seq<InputSpec>, a: nat)
    requires a in DenseShapes(ins)
    ensures exists j :: 0 <= j < |ins| && ins[j].DenseInput? && ins[j].addr == a && ins[j].count == DenseShapes(ins)[a]
  {
    var i := ins[|ins| - 1];
    if i.DenseInput? && i.addr == a {
    } else {
      DenseOwned(ins[..|ins| - 1], a);
      var j :| 0 <= j < |ins| - 1 && ins[j].DenseInput? && ins[j].addr == a && ins[j].count == DenseShapes(ins)[a];
    }
  }

  /** Every byte of every vector the reference knows after n layers is owned. */
  lemma {:induction false} ShapeOwned(p: Program, n: nat, a: nat, i: int)
    requires WellFormed(p) && n <= |p.layers| && a in Shapes(p, n) && a <= i < a + Shapes(p, n)[a]
    ensures Owned(p, n, i)
    decreases n, 0
  {
    hide SegmentsOk, InputsOk, WritesOk, OutputOk, RowPadded, SegIs;
    if n == 0 {
      DenseOwned(p.inputs, a);
    } else {
      var L := p.layers[n - 1];
      assert LayerOk(p, n - 1);
      if a in Shapes(p, n - 1) && Shapes(p, n - 1)[a] == Shapes(p, n)[a] {
        ShapeOwned(p, n - 1, a, i);
      } else if L.Concat? {
        TiledOwned(p, n - 1, L.parts, L.outAddr, i);
      }
      if Owned(p, n - 1, i) || InFoot(L, i) {
        OwnedMore(p, n - 1, i);
      }
    }
  }

  lemma {:induction false} TiledOwned(p: Program, n: nat, parts: seq<Part>, base: nat, i: int)
    requires WellFormed(p) && n <= |p.layers| && Tiled(p, n, parts, base) && base <= i < base + PartsLen(parts)
    ensures Owned(p, n, i)
    decreases n, |parts| + 1
  {
    hide SegmentsOk, InputsOk, WritesOk, OutputOk, LayerOk;
    var part := parts[|parts| - 1];
    if i < base + PartsLen(parts[..|parts| - 1]) {
      TiledOwned(p, n, parts[..|parts| - 1], base, i);
    } else if part.LayerPart? {
      ShapeOwned(p, n, part.addr, i);
    } else {
      var j :| 0 <= j < |p.inputs| && p.inputs[j] == DenseInput(part.tensor, part.addr, part.len);
    }
  }

  // ----- the invariant of a run -----

  /** The activation memory after n layers: inputs in place, every reference vector at its address,
      and once the output layer has run, its accumulators. */
  ghost predicate ActOk(p: Program, feed: Feed, n: nat, mem: seq<byte>)
    requires WellFormed(p) && FeedOk(p, feed) && n <= |p.layers|
  {
    && p.layoutEnd <= |mem|
    && (forall j :: 0 <= j < |p.inputs| ==> InputAt(p, feed, j, mem))
    && VecsAt(RefVecs(p, feed, n), mem)
    && (n > OutputIndex(p) ==> AccAt(p, feed, mem))
  }

  ghost predicate VecsAt(vecs: map<nat, seq<byte>>, mem: seq<byte>) {
    forall a :: a in vecs ==> At(mem, a, vecs[a])
  }

  ghost predicate InputAt(p: Program, feed: Feed, j: nat, mem: seq<byte>)
    requires j < |p.inputs|
  {
    InputFed(p.inputs[j], feed) && At(mem, p.inputs[j].addr, feed[p.inputs[j].name])
  }

  ghost predicate AccAt(p: Program, feed: Feed, mem: seq<byte>)
    requires WellFormed(p) && FeedOk(p, feed)
  {
    var L := p.layers[OutputIndex(p)];
    && L.accAddr + 4 * L.Mpad <= |mem|
    && forall m: nat :: m < L.Mpad ==> RdI32(mem, L.accAddr + 4 * m) == RefAcc(p, feed, m)
  }

  /** Anything that leaves the owned bytes alone keeps the invariant. */
  lemma Preserve(p: Program, feed: Feed, n: nat, mem: seq<byte>, mem': seq<byte>)
    requires WellFormed(p) && FeedOk(p, feed) && n <= |p.layers| && ActOk(p, feed, n, mem)
    requires |mem'| == |mem| && forall i :: 0 <= i < |mem| && Owned(p, n, i) ==> mem'[i] == mem[i]
    ensures ActOk(p, feed, n, mem')
  {
    hide SegmentsOk, InputsOk, WritesOk, OutputOk, LayerOk, RefVecs, Shapes, RefAcc, RdI32, InFoot;
    forall j | 0 <= j < |p.inputs|
      ensures InputAt(p, feed, j, mem')
    {
      assert InputAt(p, feed, j, mem);
      assert InputFed(p.inputs[j], feed);
    }
    var vecs := RefVecs(p, feed, n);
    forall a | a in vecs
      ensures At(mem', a, vecs[a])
    {
      forall i | a <= i < a + |vecs[a]|
        ensures mem'[i] == vecs[a][i - a]
      {
        ShapeOwned(p, n, a, i);
      }
    }
    if n > OutputIndex(p) {
      PreserveAcc(p, feed, n, mem, mem');
    }
  }

  lemma PreserveAcc(p: Program, feed: Feed, n: nat, mem: seq<byte>, mem': seq<byte>)
    requires WellFormed(p) && FeedOk(p, feed) && OutputIndex(p) < n <= |p.layers| && AccAt(p, feed, mem)
    requires |mem'| == |mem| && forall i :: 0 <= i < |mem| && Owned(p, n, i) ==> mem'[i] == mem[i]
    ensures AccAt(p, feed, mem')
  {
    hide SegmentsOk, InputsOk, WritesOk, OutputOk, LayerOk, RefAcc, RdI32, Rd32, InInput, OutputIndex;
    var f := OutputIndex(p);
    var L := p.layers[f];
    forall m: nat | m < L.Mpad
      ensures RdI32(mem', L.accAddr + 4 * m) == RefAcc(p, feed, m)
    {
      forall i | L.accAddr + 4 * m <= i < L.accAddr + 4 * m + 4
        ensures mem'[i] == mem[i]
      {
        assert InFoot(p.layers[f], i);
        assert Written(p, n, i);
      }
      RdFrame(mem', L.accAddr + 4 * m, mem, L.accAddr + 4 * m);
    }
  }

  // ----- constants -----

  ghost predicate ConstAt(p: Program, k: nat, mem: seq<byte>)
    requires k < |p.segments|
  {
    var s := p.segments[k];
    s.offset + s.length <= |p.image| && At(mem, s.addr, p.image[s.offset..s.offset + s.length])
  }

  /** Every segment `prepare` loads is in memory. */
  ghost predicate ConstOk(p: Program, mem: seq<byte>) {
    forall k :: 0 <= k < |p.segments| && Resident(p, k) ==> ConstAt(p, k, mem)
  }

  /** The constants of layer n are in memory. */
  ghost predicate LayerConst(p: Program, n: nat, mem: seq<byte>)
    requires n < |p.layers|
  {
    forall k :: 0 <= k < |p.segments| && p.segments[k].layer == p.layers[n].name ==> ConstAt(p, k, mem)
  }

  // ----- one layer -----

  ghost predicate Frame(L: Layer, mem: seq<byte>, mem': seq<byte>) {
    |mem'| == |mem| && forall i :: 0 <= i < |mem| && !InFoot(L, i) ==> mem'[i] == mem[i]
  }

  /** The accumulator a kernel reads off weights in `cst` and activations in `mem`. */
  ghost function FcDot(L: Layer, cst: seq<byte>, mem: seq<byte>, m: nat): int
    requires L.Fc? && m < L.Mpad && L.wAddr + L.Mpad * L.Kpad <= |cst| && L.inAddr + L.Kpad <= |mem|
  {
    RowBound(m, L.Mpad, L.Kpad);
    DotAt(cst, L.wAddr + m * L.Kpad, mem, L.inAddr, L.Kpad)
  }

  /** Layer L, reading constants from `cst`, turns activation memory `mem` into `mem'`. */
  ghost predicate Effect(L: Layer, cst: seq<byte>, mem: seq<byte>, mem': seq<byte>) {
    && Frame(L, mem, mem')
    && match L
       case Gather(_, tableAddr, rows, dim, dimBytes, idxAddr, outAddr, _) =>
         && idxAddr + 4 <= |mem| && outAddr + dim <= |mem|
         && var idx := RdI32(mem, idxAddr);
         && 0 <= idx && 0 <= idx * dimBytes && tableAddr + idx * dimBytes + dim <= |cst|
         && mem'[outAddr..outAddr + dim] == cst[tableAddr + idx * dimBytes..tableAddr + idx * dimBytes + dim]
       case Concat(_, _, _, _) => true
       case Fc(_, inAddr, K, Kpad, N, Mpad, wAddr, bAddr, accAddr, outAddr, mult, shift, relu, final, _) =>
         && wAddr + Mpad * Kpad <= |cst| && bAddr + 4 * Mpad <= |cst| && inAddr + Kpad <= |mem|
         && accAddr + 4 * Mpad <= |mem| && (final || outAddr + Mpad <= |mem|)
         && (forall m: nat :: m < Mpad ==> RdI32(mem', accAddr + 4 * m) == FcDot(L, cst, mem, m))
         && (!final ==> forall m: nat :: m < Mpad ==>
               mem'[outAddr + m] == U8(Epi(FcDot(L, cst, mem, m), RdI32(cst, bAddr + 4 * m), mult, shift, relu)))
  }

  lemma SegAt(p: Program, n: nat, kind: SegKind, addr: nat, length: nat, mem: seq<byte>)
    requires n < |p.layers| && LayerConst(p, n, mem) && SegIs(p, p.layers[n].name, kind, addr, length)
    ensures addr + length <= |mem|
    ensures var off := p.segments[FindSeg(p.segments, p.layers[n].name, kind)].offset;
            forall i :: addr <= i < addr + length ==> mem[i] == p.image[off + (i - addr)]
  {
    var k := FindSeg(p.segments, p.layers[n].name, kind);
    assert ConstAt(p, k, mem);
    var s := p.segments[k];
    var d := p.image[s.offset..s.offset + s.length];
    forall i | addr <= i < addr + length
      ensures mem[i] == p.image[s.offset + (i - addr)]
    {
      assert mem[i] == d[i - s.addr];
    }
  }

  /** What well-formedness says about one gather layer. */
  lemma GatherFacts(p: Program, n: nat)
    requires WellFormed(p) && n < |p.layers| && p.layers[n].Gather?
    ensures var L := p.layers[n];
            && SegIs(p, L.name, TableSeg, L.tableAddr, L.rows * L.dimBytes) && L.dim <= L.dimBytes
            && L.dimBytes % 16 == 0
            && IndexInput(L.indexInput, L.idxAddr, L.rows) in p.inputs && L.outAddr + L.dimBytes <= p.layoutEnd
  {
    hide SegmentsOk, InputsOk, OutputOk, SegIs, Clear, ClearOf;
    assert LayerOk(p, n);
  }

  /** A gather copies the row the reference selects. */
  lemma GatherVec(p: Program, feed: Feed, n: nat, cst: seq<byte>, mem: seq<byte>, mem': seq<byte>)
    requires WellFormed(p) && FeedOk(p, feed) && n < |p.layers| && p.layers[n].Gather?
    requires ActOk(p, feed, n, mem) && LayerConst(p, n, cst) && Effect(p.layers[n], cst, mem, mem')
    ensures At(mem', p.layers[n].outAddr, TableRow(p, n, feed))
  {
    hide WellFormed, LayerOk, RefVecs, Shapes, RdI32, Rd32, AccAt, OutputIndex, ConstAt, LayerConst, VecsAt;
    var L := p.layers[n];
    LayerOkAt(p, n);
    GatherFacts(p, n);
    var j :| 0 <= j < |p.inputs| && p.inputs[j] == IndexInput(L.indexInput, L.idxAddr, L.rows);
    assert InputAt(p, feed, j, mem);
    assert InputFed(p.inputs[j], feed);
    RdFrame(mem, L.idxAddr, feed[L.indexInput], 0);
    var idx := RowIndex(L, feed);
    RowBound(idx, L.rows, L.dimBytes);
    SegAt(p, n, TableSeg, L.tableAddr, L.rows * L.dimBytes, cst);
    var row := TableRow(p, n, feed);
    var src := L.tableAddr + idx * L.dimBytes;
    forall i | L.outAddr <= i < L.outAddr + L.dim
      ensures mem'[i] == row[i - L.outAddr]
    {
      assert mem'[i] == mem'[L.outAddr..L.outAddr + L.dim][i - L.outAddr];
      assert mem'[i] == cst[src + (i - L.outAddr)];
    }
  }

  /** Parts that lie end to end already form the concatenated vector. */
  lemma {:induction false} ConcatVec(p: Program, feed: Feed, n: nat, parts: seq<Part>, base: nat, mem: seq<byte>)
    requires WellFormed(p) && FeedOk(p, feed) && n <= |p.layers| && ActOk(p, feed, n, mem)
    requires Tiled(p, n, parts, base) && base + PartsLen(parts) <= |mem|
    ensures At(mem, base, ConcatParts(p, n, parts, base, RefVecs(p, feed, n), feed))
  {
    hide SegmentsOk, InputsOk, WritesOk, OutputOk, RefVecs, Shapes, LayerOk, AccAt, OutputIndex;
    if parts != [] {
      var front, part := parts[..|parts| - 1], parts[|parts| - 1];
      ConcatVec(p, feed, n, front, base, mem);
      if part.LayerPart? {
        assert At(mem, part.addr, RefVecs(p, feed, n)[part.addr]);
      } else {
        var j :| 0 <= j < |p.inputs| && p.inputs[j] == DenseInput(part.tensor, part.addr, part.len);
        assert InputAt(p, feed, j, mem) && InputFed(p.inputs[j], feed);
      }
    }
  }

  /** What well-formedness says about one fc layer. */
  lemma FcFacts(p: Program, n: nat, m: nat)
    requires WellFormed(p) && n < |p.layers| && p.layers[n].Fc? && m < p.layers[n].Mpad
    ensures var L := p.layers[n];
            && SegIs(p, L.name, WeightSeg, L.wAddr, L.Mpad * L.Kpad) && SegIs(p, L.name, BiasSeg, L.bAddr, 4 * L.Mpad)
            && RowPadded(p.image, WeightOff(p, L), m, L.K, L.Kpad)
            && L.inAddr + L.Kpad <= p.layoutEnd && L.K <= L.Kpad
            && L.inAddr in Shapes(p, n) && L.K <= Shapes(p, n)[L.inAddr]
  {
    hide SegmentsOk, InputsOk, WritesOk, OutputOk, SegIs, RowPadded, Clear, Shapes;
    assert LayerOk(p, n);
  }

  /** The accumulators a kernel computes are the reference's: weights come from the image, and
      activation bytes beyond K meet zero weights. */
  lemma FcDotRef(p: Program, feed: Feed, n: nat, cst: seq<byte>, mem: seq<byte>, m: nat)
    requires WellFormed(p) && FeedOk(p, feed) && n < |p.layers| && p.layers[n].Fc? && m < p.layers[n].Mpad
    requires ActOk(p, feed, n, mem) && LayerConst(p, n, cst)
    ensures p.layers[n].wAddr + p.layers[n].Mpad * p.layers[n].Kpad <= |cst|
            && p.layers[n].bAddr + 4 * p.layers[n].Mpad <= |cst|
    ensures p.layers[n].inAddr in RefVecs(p, feed, n) && p.layers[n].K <= |RefVecs(p, feed, n)[p.layers[n].inAddr]|
    ensures p.layers[n].inAddr + p.layers[n].Kpad <= |mem|
    ensures FcDot(p.layers[n], cst, mem, m) ==
            AccOf(p, n, RefVecs(p, feed, n)[p.layers[n].inAddr][..p.layers[n].K], m)
    ensures RdI32(cst, p.layers[n].bAddr + 4 * m) == BiasOf(p, n, m)
  {
    hide WellFormed, FeedOk, RefVecs, Shapes, RdI32, Rd32, AccAt, OutputIndex, ConstAt, DotAt, LayerConst, InputAt;
    var L := p.layers[n];
    FcFacts(p, n, m);
    RowBound(m, L.Mpad, L.Kpad);
    SegAt(p, n, WeightSeg, L.wAddr, L.Mpad * L.Kpad, cst);
    SegAt(p, n, BiasSeg, L.bAddr, 4 * L.Mpad, cst);
    var v := RefVecs(p, feed, n)[L.inAddr];
    var x := v[..L.K];
    assert At(mem, L.inAddr, v);
    DotRow(L, p.image, WeightOff(p, L), cst, mem, x, m);
    RdFrame(cst, L.bAddr + 4 * m, p.image, BiasOff(p, L) + 4 * m);
  }

  lemma DotRow(L: Layer, image: seq<byte>, off: nat, cst: seq<byte>, mem: seq<byte>, x: seq<byte>, m: nat)
    requires L.Fc? && m < L.Mpad && |x| == L.K <= L.Kpad && 0 <= m * L.Kpad && m * L.Kpad + L.Kpad <= L.Mpad * L.Kpad
    requires L.wAddr + L.Mpad * L.Kpad <= |cst| && L.inAddr + L.Kpad <= |mem| && off + L.Mpad * L.Kpad <= |image|
    requires forall i :: L.wAddr <= i < L.wAddr + L.Mpad * L.Kpad ==> cst[i] == image[off + (i - L.wAddr)]
    requires At(mem, L.inAddr, x) && RowPadded(image, off, m, L.K, L.Kpad)
    ensures DotAt(image, off + m * L.Kpad, x + Zeros(L.Kpad - L.K), 0, L.Kpad) == DotAt(cst, L.wAddr + m * L.Kpad, mem,
            L.inAddr, L.Kpad)
  {
    hide DotAt;
    var row, col, k := L.wAddr + m * L.Kpad, off + m * L.Kpad, m * L.Kpad;
    forall i | col <= i < col + L.Kpad
      ensures image[i] == cst[row + (i - col)]
    {
      assert cst[L.wAddr + (k + (i - col))] == image[i];
    }
    DotAgree(image, col, x + Zeros(L.Kpad - L.K), 0, cst, row, mem, L.inAddr, L.Kpad, L.K);
  }

  lemma FcByte(p: Program, feed: Feed, n: nat, cst: seq<byte>, mem: seq<byte>, mem': seq<byte>, x: seq<byte>, m: nat)
    requires WellFormed(p) && FeedOk(p, feed) && n < |p.layers| && p.layers[n].Fc? && !p.layers[n].final
    requires ActOk(p, feed, n, mem) && LayerConst(p, n, cst) && Effect(p.layers[n], cst, mem, mem')
    requires |x| == p.layers[n].K && p.layers[n].inAddr in RefVecs(p, feed, n)
             && x <= RefVecs(p, feed, n)[p.layers[n].inAddr]
    requires m < p.layers[n].N
    ensures p.layers[n].outAddr + m < |mem'| && mem'[p.layers[n].outAddr + m] == FcVec(p, n, x)[m]
  {
    hide SegmentsOk, InputsOk, WritesOk, OutputOk, RefVecs, Shapes, RdI32, ActOk, LayerConst, DotAt, U8, Epi, AccOf,
         BiasOf, FcDot, LayerOk;
    assert p.layers[n].N <= p.layers[n].Mpad by { FcSizes(p, n); }
    FcDotRef(p, feed, n, cst, mem, m);
    assert RefVecs(p, feed, n)[p.layers[n].inAddr][..p.layers[n].K] == x;
  }

  lemma FcSizes(p: Program, n: nat)
    requires WellFormed(p) && n < |p.layers| && p.layers[n].Fc?
    ensures 0 < p.layers[n].N <= p.layers[n].Mpad && p.layers[n].Mpad % 16 == 0
    ensures 0 < p.layers[n].K <= p.layers[n].Kpad && p.layers[n].Kpad % 16 == 0
  {
    hide SegmentsOk, InputsOk, WritesOk, OutputOk, SegIs, RowPadded, Clear, Shapes;
    assert LayerOk(p, n);
  }

  lemma FcVecAt(p: Program, feed: Feed, n: nat, cst: seq<byte>, mem: seq<byte>, mem': seq<byte>, x: seq<byte>)
    requires WellFormed(p) && FeedOk(p, feed) && n < |p.layers| && p.layers[n].Fc? && !p.layers[n].final
    requires ActOk(p, feed, n, mem) && LayerConst(p, n, cst) && Effect(p.layers[n], cst, mem, mem')
    requires |x| == p.layers[n].K && p.layers[n].inAddr in RefVecs(p, feed, n)
             && x <= RefVecs(p, feed, n)[p.layers[n].inAddr]
    ensures At(mem', p.layers[n].outAddr, FcVec(p, n, x))
  {
    hide WellFormed, FeedOk, RefVecs, ActOk, LayerConst, FcVec, LayerOk;
    var L := p.layers[n];
    LayerOkAt(p, n);
    FcSizes(p, n);
    forall i | L.outAddr <= i < L.outAddr + L.N
      ensures mem'[i] == FcVec(p, n, x)[i - L.outAddr]
    {
      FcByte(p, feed, n, cst, mem, mem', x, i - L.outAddr);
    }
  }

  lemma FinalAcc(p: Program, feed: Feed, n: nat, cst: seq<byte>, mem: seq<byte>, mem': seq<byte>)
    requires WellFormed(p) && FeedOk(p, feed) && n == OutputIndex(p)
    requires ActOk(p, feed, n, mem) && LayerConst(p, n, cst) && Effect(p.layers[n], cst, mem, mem')
    ensures AccAt(p, feed, mem')
  {
    hide SegmentsOk, InputsOk, WritesOk, OutputOk, RefVecs, Shapes, RdI32, ActOk, LayerConst, DotAt, U8, Epi, AccOf,
         BiasOf, FcDot, LayerOk, OutputIndex;
    var L := p.layers[n];
    forall m: nat | m < L.Mpad
      ensures RdI32(mem', L.accAddr + 4 * m) == RefAcc(p, feed, m)
    {
      FcDotRef(p, feed, n, cst, mem, m);
    }
  }

  /** The step every executor relies on: a layer with the right effect carries the invariant on. */
  lemma LayerStep(p: Program, feed: Feed, n: nat, cst: seq<byte>, mem: seq<byte>, mem': seq<byte>)
    requires WellFormed(p) && FeedOk(p, feed) && n < |p.layers|
    requires ActOk(p, feed, n, mem) && LayerConst(p, n, cst) && Effect(p.layers[n], cst, mem, mem')
    ensures ActOk(p, feed, n + 1, mem')
  {
    hide SegmentsOk, InputsOk, WritesOk, OutputOk, Shapes, RdI32, LayerConst, DotAt, U8, Epi, AccOf, BiasOf, FcDot,
         InFoot, Owned, AccAt, At;
    var L := p.layers[n];
    forall i | 0 <= i < |mem| && Owned(p, n, i)
      ensures mem'[i] == mem[i]
    {
      OwnedNotWritten(p, n, i);
    }
    Preserve(p, feed, n, mem, mem');
    NewVec(p, feed, n, cst, mem, mem');
    if n == OutputIndex(p) {
      FinalAcc(p, feed, n, cst, mem, mem');
    }
  }

  lemma NewVec(p: Program, feed: Feed, n: nat, cst: seq<byte>, mem: seq<byte>, mem': seq<byte>)
    requires WellFormed(p) && FeedOk(p, feed) && n < |p.layers|
    requires ActOk(p, feed, n, mem) && ActOk(p, feed, n, mem')
    requires LayerConst(p, n, cst) && Effect(p.layers[n], cst, mem, mem')
    ensures VecsAt(RefVecs(p, feed, n + 1), mem')
  {
    hide SegmentsOk, InputsOk, WritesOk, OutputOk, Shapes, RdI32, LayerConst, DotAt, AccAt, At, OutputIndex, Effect,
         RowPadded, SegIs;
    var L := p.layers[n];
    assert LayerOk(p, n);
    var v := RefVecs(p, feed, n);
    assert RefVecs(p, feed, n + 1) == RefStep(p, feed, n, v);
    match L
    case Gather(_, _, _, _, _, _, _, _) => GatherVec(p, feed, n, cst, mem, mem');
    case Concat(_, parts, outAddr, _) =>
      assert WritesBelow(L, p.layoutEnd) by { WritesBelowAt(p, n); }
      ConcatVec(p, feed, n, parts, outAddr, mem');
    case Fc(_, _, _, _, _, _, _, _, _, _, _, _, _, final, _) =>
      if !final {
        FcDotRef(p, feed, n, cst, mem, 0);
        FcVecAt(p, feed, n, cst, mem, mem', v[p.layers[n].inAddr][..p.layers[n].K]);
      }
  }

  lemma WritesBelowAt(p: Program, n: nat)
    requires WellFormed(p) && n < |p.layers|
    ensures WritesBelow(p.layers[n], p.layoutEnd)
  {
    hide SegmentsOk, InputsOk, OutputOk, LayerOk, Clear, ClearOf, WritesBelow;
  }

  function SegBytes(p: Program, k: nat): (d: seq<byte>)
    requires k < |p.segments| && p.segments[k].offset + p.segments[k].length <= |p.image|
    ensures |d| == p.segments[k].length
  {
    p.image[p.segments[k].offset..p.segments[k].offset + p.segments[k].length]
  }

  /** Downloading the weights of one layer disturbs no owned byte. */
  lemma StreamStep(p: Program, feed: Feed, n: nat, k: nat, mem: seq<byte>)
    requires WellFormed(p) && FeedOk(p, feed) && n <= |p.layers| && k < |p.segments| && ActOk(p, feed, n, mem)
    requires p.segments[k].offset + p.segments[k].length <= |p.image|
             && p.segments[k].addr + p.segments[k].length <= |mem|
    ensures ActOk(p, feed, n, Splice(mem, p.segments[k].addr, SegBytes(p, k)))
  {
    hide SegmentsOk, InputsOk, WritesOk, OutputOk, LayerOk, ActOk, Owned, Splice;
    var s := p.segments[k];
    var mem' := Splice(mem, s.addr, SegBytes(p, k));
    forall i | 0 <= i < |mem| && Owned(p, n, i)
      ensures mem'[i] == mem[i]
    {
      OwnedNotSegment(p, n, i, k);
    }
    Preserve(p, feed, n, mem, mem');
  }
}
