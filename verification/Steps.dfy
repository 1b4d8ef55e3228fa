/** Steps shared by the executors: loading inputs and constants, and the effect of the in-place kernels. */
module Steps {
  import opened Bytes
  import opened Kernels
  import opened Program
  import opened Agreement

  // ----- what well-formedness keeps apart -----

  lemma SegmentFits(p: Program, k: nat)
    requires WellFormed(p) && k < |p.segments|
    ensures p.segments[k].addr + p.segments[k].length <= p.layoutEnd
            && p.segments[k].offset + p.segments[k].length <= |p.image|
  {
    hide InputsOk, WritesOk, OutputOk, LayerOk;
  }

  lemma SegmentsApart(p: Program, j: nat, k: nat)
    requires WellFormed(p) && j < |p.segments| && k < |p.segments| && j != k
    requires Resident(p, j) || Resident(p, k) || p.segments[j].layer == p.segments[k].layer
    ensures Apart(p.segments[j].addr, p.segments[j].length, p.segments[k].addr, p.segments[k].length)
  {
    hide InputsOk, WritesOk, OutputOk, LayerOk;
    if j < k {
      assert Resident(p, j) || Resident(p, k) || p.segments[j].layer == p.segments[k].layer;
    } else {
      assert Resident(p, k) || Resident(p, j) || p.segments[k].layer == p.segments[j].layer;
    }
  }

  lemma InputFits(p: Program, j: nat)
    requires WellFormed(p) && j < |p.inputs|
    ensures p.inputs[j].addr + Pad16(p.inputs[j].Size()) <= p.layoutEnd && p.inputs[j].Size() > 0
  {
    hide SegmentsOk, WritesOk, OutputOk, LayerOk;
  }

  lemma InputsApart(p: Program, j: nat, k: nat)
    requires WellFormed(p) && j < k < |p.inputs|
    ensures Apart(p.inputs[j].addr, Pad16(p.inputs[j].Size()), p.inputs[k].addr, Pad16(p.inputs[k].Size()))
  {
    hide SegmentsOk, WritesOk, OutputOk, LayerOk;
  }

  lemma InputSegmentApart(p: Program, j: nat, k: nat)
    requires WellFormed(p) && j < |p.inputs| && k < |p.segments|
    ensures Apart(p.inputs[j].addr, Pad16(p.inputs[j].Size()), p.segments[k].addr, p.segments[k].length)
  {
    hide SegmentsOk, WritesOk, OutputOk, LayerOk;
  }

  lemma LayerSegmentClear(p: Program, n: nat, k: nat)
    requires WellFormed(p) && n < |p.layers| && k < |p.segments|
    ensures Clear(p.layers[n], p.segments[k].addr, p.segments[k].length)
  {
    hide SegmentsOk, InputsOk, OutputOk, LayerOk, Clear, ClearOf, WritesBelow;
  }

  // ----- constants -----

  /** Writing elsewhere keeps a constant in place. */
  lemma ConstKept(p: Program, k: nat, mem: seq<byte>, a: nat, d: seq<byte>)
    requires k < |p.segments| && ConstAt(p, k, mem) && a + |d| <= |mem|
    requires Apart(a, |d|, p.segments[k].addr, p.segments[k].length)
    ensures ConstAt(p, k, Splice(mem, a, d))
  {
  }

  lemma ConstLoaded(p: Program, k: nat, mem: seq<byte>)
    requires k < |p.segments| && p.segments[k].offset + p.segments[k].length <= |p.image|
    requires p.segments[k].addr + p.segments[k].length <= |mem|
    ensures ConstAt(p, k, Splice(mem, p.segments[k].addr, SegBytes(p, k)))
  {
  }

  /** The resident segments among the first i are loaded. */
  ghost predicate LoadedUpTo(p: Program, i: nat, mem: seq<byte>)
    requires i <= |p.segments|
  {
    forall k :: 0 <= k < i && Resident(p, k) ==> ConstAt(p, k, mem)
  }

  lemma LoadNext(p: Program, i: nat, mem: seq<byte>)
    requires WellFormed(p) && i < |p.segments| && p.layoutEnd <= |mem| && LoadedUpTo(p, i, mem)
    ensures p.segments[i].addr + p.segments[i].length <= |mem|
            && p.segments[i].offset + p.segments[i].length <= |p.image|
    ensures LoadedUpTo(p, i + 1, if Resident(p, i) then Splice(mem, p.segments[i].addr, SegBytes(p, i)) else mem)
  {
    hide WellFormed, ConstAt, Splice, SegBytes;
    SegmentFits(p, i);
    ConstLoaded(p, i, mem);
    if Resident(p, i) {
      forall k | 0 <= k < i && Resident(p, k)
        ensures ConstAt(p, k, Splice(mem, p.segments[i].addr, SegBytes(p, i)))
      {
        SegmentsApart(p, i, k);
        ConstKept(p, k, mem, p.segments[i].addr, SegBytes(p, i));
      }
    }
  }

  /** A weight download keeps every resident constant. */
  lemma StreamKeepsConst(p: Program, i: nat, mem: seq<byte>)
    requires WellFormed(p) && i < |p.segments| && p.layoutEnd <= |mem| && ConstOk(p, mem)
    ensures p.segments[i].addr + p.segments[i].length <= |mem|
            && p.segments[i].offset + p.segments[i].length <= |p.image|
    ensures ConstOk(p, Splice(mem, p.segments[i].addr, SegBytes(p, i)))
  {
    hide WellFormed, ConstAt, Splice, SegBytes;
    SegmentFits(p, i);
    ConstLoaded(p, i, mem);
    forall k | 0 <= k < |p.segments| && Resident(p, k)
      ensures ConstAt(p, k, Splice(mem, p.segments[i].addr, SegBytes(p, i)))
    {
      if k != i {
        SegmentsApart(p, i, k);
        ConstKept(p, k, mem, p.segments[i].addr, SegBytes(p, i));
      }
    }
  }

  /** The segments of layer n among the first i are loaded. */
  ghost predicate StreamedUpTo(p: Program, n: nat, i: nat, mem: seq<byte>)
    requires i <= |p.segments| && n < |p.layers|
  {
    forall k :: 0 <= k < i && p.segments[k].layer == p.layers[n].name ==> ConstAt(p, k, mem)
  }

  lemma StreamNext(p: Program, n: nat, i: nat, mem: seq<byte>)
    requires WellFormed(p) && n < |p.layers| && i < |p.segments| && p.layoutEnd <= |mem| && StreamedUpTo(p, n, i, mem)
    requires p.segments[i].layer == p.layers[n].name
    ensures p.segments[i].addr + p.segments[i].length <= |mem|
            && p.segments[i].offset + p.segments[i].length <= |p.image|
    ensures StreamedUpTo(p, n, i + 1, Splice(mem, p.segments[i].addr, SegBytes(p, i)))
  {
    hide WellFormed, ConstAt, Splice, SegBytes;
    SegmentFits(p, i);
    ConstLoaded(p, i, mem);
    forall k | 0 <= k < i && p.segments[k].layer == p.layers[n].name
      ensures ConstAt(p, k, Splice(mem, p.segments[i].addr, SegBytes(p, i)))
    {
      SegmentsApart(p, i, k);
      ConstKept(p, k, mem, p.segments[i].addr, SegBytes(p, i));
    }
  }

  /** A layer that is not streamed finds its constants among the resident ones. */
  lemma ResidentLayer(p: Program, n: nat, mem: seq<byte>)
    requires WellFormed(p) && n < |p.layers| && ConstOk(p, mem) && (p.layers[n].Fc? ==> !p.layers[n].stream)
    ensures LayerConst(p, n, mem)
  {
    hide SegmentsOk, InputsOk, WritesOk, OutputOk, ConstAt, SegIs, Clear, Tiled, RowPadded, Shapes;
    assert LayerOk(p, n);
  }

  /** A layer writes no constant. */
  lemma FrameKeepsConst(p: Program, n: nat, k: nat, mem: seq<byte>, mem': seq<byte>)
    requires WellFormed(p) && n < |p.layers| && k < |p.segments| && ConstAt(p, k, mem) && Frame(p.layers[n], mem, mem')
    ensures ConstAt(p, k, mem')
  {
    hide WellFormed, InFoot, Clear;
    LayerSegmentClear(p, n, k);
    var s := p.segments[k];
    forall i | s.addr <= i < s.addr + s.length
      ensures mem'[i] == mem[i]
    {
      ClearFoot(p.layers[n], s.addr, s.length, i);
    }
  }

  lemma FrameKeepsConsts(p: Program, n: nat, mem: seq<byte>, mem': seq<byte>)
    requires WellFormed(p) && n < |p.layers| && ConstOk(p, mem) && Frame(p.layers[n], mem, mem')
    ensures ConstOk(p, mem')
  {
    hide WellFormed, Frame, ConstAt;
    forall k | 0 <= k < |p.segments| && Resident(p, k)
      ensures ConstAt(p, k, mem')
    {
      FrameKeepsConst(p, n, k, mem, mem');
    }
  }

  // ----- inputs -----

  /** The first j inputs are in place. */
  ghost predicate InputsUpTo(p: Program, feed: Feed, j: nat, mem: seq<byte>)
    requires j <= |p.inputs|
  {
    forall i :: 0 <= i < j ==> InputAt(p, feed, i, mem)
  }

  /** Writing input j, padded or not, keeps the earlier inputs. */
  lemma InputNext(p: Program, feed: Feed, j: nat, d: seq<byte>, mem: seq<byte>)
    requires WellFormed(p) && j < |p.inputs| && p.layoutEnd <= |mem| && InputsUpTo(p, feed, j, mem)
    requires InputFed(p.inputs[j], feed) && feed[p.inputs[j].name] <= d && |d| <= Pad16(p.inputs[j].Size())
    ensures p.inputs[j].addr + |d| <= |mem|
    ensures InputsUpTo(p, feed, j + 1, Splice(mem, p.inputs[j].addr, d))
  {
    hide WellFormed, Pad16, RdI32;
    InputFits(p, j);
    var mem' := Splice(mem, p.inputs[j].addr, d);
    assert InputAt(p, feed, j, mem');
    forall i | 0 <= i < j
      ensures InputAt(p, feed, i, mem')
    {
      InputsApart(p, i, j);
      assert InputAt(p, feed, i, mem) && InputFed(p.inputs[i], feed);
    }
  }

  /** Writing input j keeps every constant. */
  lemma InputKeepsConst(p: Program, j: nat, d: seq<byte>, mem: seq<byte>)
    requires WellFormed(p) && j < |p.inputs| && p.layoutEnd <= |mem| && ConstOk(p, mem)
    requires |d| <= Pad16(p.inputs[j].Size())
    ensures p.inputs[j].addr + |d| <= |mem| && ConstOk(p, Splice(mem, p.inputs[j].addr, d))
  {
    hide WellFormed, ConstAt, Pad16, Splice;
    InputFits(p, j);
    forall k | 0 <= k < |p.segments| && Resident(p, k)
      ensures ConstAt(p, k, Splice(mem, p.inputs[j].addr, d))
    {
      InputSegmentApart(p, j, k);
      ConstKept(p, k, mem, p.inputs[j].addr, d);
    }
  }

  lemma {:induction false} DenseAt(ins: seq<InputSpec>, feed: Feed, mem: seq<byte>)
    requires forall j :: 0 <= j < |ins| ==> InputFed(ins[j], feed) && At(mem, ins[j].addr, feed[ins[j].name])
    ensures VecsAt(DenseVecs(ins, feed), mem)
  {
    hide At, RdI32;
    if ins != [] {
      DenseAt(ins[..|ins| - 1], feed, mem);
      assert InputFed(ins[|ins| - 1], feed);
    }
  }

  /** With every input in place the run may start. */
  lemma InputsReady(p: Program, feed: Feed, mem: seq<byte>)
    requires WellFormed(p) && FeedOk(p, feed) && p.layoutEnd <= |mem| && InputsUpTo(p, feed, |p.inputs|, mem)
    ensures ActOk(p, feed, 0, mem)
  {
    hide WellFormed, At, AccAt;
    forall j | 0 <= j < |p.inputs|
      ensures InputFed(p.inputs[j], feed) && At(mem, p.inputs[j].addr, feed[p.inputs[j].name])
    {
      assert InputAt(p, feed, j, mem);
    }
    DenseAt(p.inputs, feed, mem);
  }

  // ----- kernels in one memory -----

  /** The row number found at the index input's address. */
  lemma IndexAt(p: Program, feed: Feed, n: nat, mem: seq<byte>)
    requires WellFormed(p) && FeedOk(p, feed) && n < |p.layers| && p.layers[n].Gather? && ActOk(p, feed, n, mem)
    ensures var L := p.layers[n];
            && L.idxAddr + 4 <= |mem| && 0 <= RdI32(mem, L.idxAddr) < L.rows
            && Rd32(mem, L.idxAddr) == RdI32(mem, L.idxAddr)
            && L.outAddr + L.dimBytes <= |mem| && L.dim <= L.dimBytes && L.dimBytes % 16 == 0
  {
    hide WellFormed, VecsAt, AccAt, OutputIndex, RefVecs, Rd32;
    var L := p.layers[n];
    GatherFacts(p, n);
    var j :| 0 <= j < |p.inputs| && p.inputs[j] == IndexInput(L.indexInput, L.idxAddr, L.rows);
    assert InputAt(p, feed, j, mem) && InputFed(p.inputs[j], feed);
    RdFrame(mem, L.idxAddr, feed[L.indexInput], 0);
  }

  /** Copying the row, whole or without its padding, is the effect of a gather. */
  lemma GatherEffect(L: Layer, cst: seq<byte>, mem: seq<byte>, src: nat, d: seq<byte>)
    requires L.Gather? && L.idxAddr + 4 <= |mem| && RdI32(mem, L.idxAddr) >= 0
    requires src == L.tableAddr + RowAt(L, mem) * L.dimBytes && 0 <= RowAt(L, mem) * L.dimBytes
    requires L.dim <= |d| <= L.dimBytes && L.outAddr + L.dimBytes <= |mem|
    requires src + |d| <= |cst| && d == cst[src..src + |d|]
    ensures Effect(L, cst, mem, Splice(mem, L.outAddr, d))
  {
    hide RdI32, Rd32;
    var mem' := Splice(mem, L.outAddr, d);
    assert mem'[L.outAddr..L.outAddr + L.dim] == d[..L.dim] == cst[src..src + L.dim];
  }

  /** The row number in memory, 0 if it is not one. */
  function RowAt(L: Layer, mem: seq<byte>): nat
    requires L.Gather?
  {
    if L.idxAddr + 4 <= |mem| && RdI32(mem, L.idxAddr) >= 0 then RdI32(mem, L.idxAddr) else 0
  }

  lemma TableFits(p: Program, feed: Feed, n: nat, cst: seq<byte>, mem: seq<byte>)
    requires WellFormed(p) && FeedOk(p, feed) && n < |p.layers| && p.layers[n].Gather? && ActOk(p, feed, n, mem)
             && LayerConst(p, n, cst)
    ensures var L := p.layers[n];
    0 <= RowAt(L, mem) * L.dimBytes && L.tableAddr + RowAt(L, mem) * L.dimBytes + L.dimBytes <= |cst|
  {
    hide WellFormed, ActOk, LayerConst, RdI32, Rd32;
    var L := p.layers[n];
    IndexAt(p, feed, n, mem);
    GatherFacts(p, n);
    RowBound(RowAt(L, mem), L.rows, L.dimBytes);
    SegAt(p, n, TableSeg, L.tableAddr, L.rows * L.dimBytes, cst);
  }

  /** Where an fc layer's operands lie. */
  ghost predicate FcPlaced(L: Layer, cst: nat, mem: nat)
  {
    && L.Fc?
    && L.wAddr + L.Mpad * L.Kpad <= cst && L.bAddr + 4 * L.Mpad <= cst && L.inAddr + L.Kpad <= mem
    && L.accAddr + 4 * L.Mpad <= mem
    && Apart(L.accAddr, 4 * L.Mpad, L.wAddr, L.Mpad * L.Kpad) && Apart(L.accAddr, 4 * L.Mpad, L.bAddr, 4 * L.Mpad)
    && Apart(L.accAddr, 4 * L.Mpad, L.inAddr, L.Kpad)
    && (L.final ||
        (L.outAddr + L.Mpad <= mem && Apart(L.accAddr, 4 * L.Mpad, L.outAddr, L.Mpad)
         && Apart(L.outAddr, L.Mpad, L.bAddr, 4 * L.Mpad)))
  }

  lemma FcPlace(p: Program, feed: Feed, n: nat, cst: seq<byte>, mem: seq<byte>)
    requires WellFormed(p) && FeedOk(p, feed) && n < |p.layers| && p.layers[n].Fc? && ActOk(p, feed, n, mem)
             && LayerConst(p, n, cst)
    ensures FcPlaced(p.layers[n], |cst|, |mem|)
    ensures p.layers[n].Mpad % 16 == 0 && p.layers[n].Mpad > 0 && p.layers[n].Kpad > 0
    ensures 0 <= p.layers[n].mult <= 32767 && p.layers[n].shift <= 31
  {
    hide SegmentsOk, InputsOk, WritesOk, OutputOk, LayerConst, RowPadded, Shapes, RefVecs, OutputIndex, AccAt, VecsAt,
         InputAt;
    var L := p.layers[n];
    assert LayerOk(p, n);
    WritesBelowAt(p, n);
    SegAt(p, n, WeightSeg, L.wAddr, L.Mpad * L.Kpad, cst);
    SegAt(p, n, BiasSeg, L.bAddr, 4 * L.Mpad, cst);
    LayerSegmentClear(p, n, FindSeg(p.segments, L.name, WeightSeg));
    LayerSegmentClear(p, n, FindSeg(p.segments, L.name, BiasSeg));
  }

  /** The accumulator loop run inside the memory that holds the weights. */
  lemma AccEffect(L: Layer, mem: seq<byte>)
    requires FcPlaced(L, |mem|, |mem|)
    ensures var r := FcAccRun(mem, L.wAddr, L.Kpad, L.inAddr, L.accAddr, L.Mpad);
            && (forall i :: 0 <= i < |mem| && !(L.accAddr <= i < L.accAddr + 4 * L.Mpad) ==> r[i] == mem[i])
            && (forall m: nat :: m < L.Mpad ==> RdI32(r, L.accAddr + 4 * m) == FcDot(L, mem, mem, m))
  {
    hide FcAccRun, RdI32;
    FcAccFrame(mem, L.wAddr, L.Kpad, L.inAddr, L.accAddr, L.Mpad);
    forall m: nat | m < L.Mpad
      ensures RdI32(FcAccRun(mem, L.wAddr, L.Kpad, L.inAddr, L.accAddr, L.Mpad), L.accAddr + 4 * m) == FcDot(L, mem,
              mem, m)
    {
      RowBound(m, L.Mpad, L.Kpad);
      FcAccValue(mem, L.wAddr, L.Kpad, L.inAddr, L.accAddr, L.Mpad, L.Mpad, m);
    }
  }

  /** A final layer only accumulates. */
  lemma FinalEffect(L: Layer, mem: seq<byte>)
    requires FcPlaced(L, |mem|, |mem|) && L.final
    ensures Effect(L, mem, mem, FcAccRun(mem, L.wAddr, L.Kpad, L.inAddr, L.accAddr, L.Mpad))
  {
    hide FcAccRun, RdI32, FcDot;
    AccEffect(L, mem);
  }

  /** A hidden layer: accumulate, optionally clear the output region, requantise. */
  lemma HiddenEffect(L: Layer, mem: seq<byte>, start: seq<byte>)
    requires FcPlaced(L, |mem|, |mem|) && !L.final && |start| == |mem|
    requires var acc := FcAccRun(mem, L.wAddr, L.Kpad, L.inAddr, L.accAddr, L.Mpad);
             forall i :: 0 <= i < |mem| && !(L.outAddr <= i < L.outAddr + L.Mpad) ==> start[i] == acc[i]
    ensures Effect(L, mem, mem, EpiRun(start, L.accAddr, L.bAddr, L.mult, L.shift, L.relu, L.outAddr, L.Mpad))
  {
    hide FcAccRun, RdI32, Rd32, FcDot, EpiRun, Epi, U8, Frame, Apart, Effect;
    AccEffect(L, mem);
    EpiFrame(start, L.accAddr, L.bAddr, L.mult, L.shift, L.relu, L.outAddr, L.Mpad);
    var acc := FcAccRun(mem, L.wAddr, L.Kpad, L.inAddr, L.accAddr, L.Mpad);
    var r := EpiRun(start, L.accAddr, L.bAddr, L.mult, L.shift, L.relu, L.outAddr, L.Mpad);
    HiddenFrame(L, mem, acc, start, r);
    HiddenWords(L, mem, acc, start, r);
    HiddenIs(L, mem, r);
  }

  lemma HiddenIs(L: Layer, mem: seq<byte>, r: seq<byte>)
    requires FcPlaced(L, |mem|, |mem|) && !L.final && Frame(L, mem, r)
    requires forall m: nat :: m < L.Mpad ==> RdI32(r, L.accAddr + 4 * m) == FcDot(L, mem, mem, m)
    requires forall m: nat :: m < L.Mpad ==>
               r[L.outAddr + m] == U8(Epi(FcDot(L, mem, mem, m), RdI32(mem, L.bAddr + 4 * m), L.mult, L.shift, L.relu))
    ensures Effect(L, mem, mem, r)
  {
    hide RdI32, Rd32, FcDot, Epi, U8, Apart, InFoot;
  }

  lemma HiddenWords(L: Layer, mem: seq<byte>, acc: seq<byte>, start: seq<byte>, r: seq<byte>)
    requires FcPlaced(L, |mem|, |mem|) && !L.final && |mem| == |acc| == |start| == |r|
    requires forall i :: 0 <= i < |mem| && !(L.accAddr <= i < L.accAddr + 4 * L.Mpad) ==> acc[i] == mem[i]
    requires forall i :: 0 <= i < |mem| && !(L.outAddr <= i < L.outAddr + L.Mpad) ==> start[i] == acc[i]
    requires forall i :: 0 <= i < |mem| && !(L.outAddr <= i < L.outAddr + L.Mpad) ==> r[i] == start[i]
    requires r == EpiRun(start, L.accAddr, L.bAddr, L.mult, L.shift, L.relu, L.outAddr, L.Mpad)
    requires forall m: nat :: m < L.Mpad ==> RdI32(acc, L.accAddr + 4 * m) == FcDot(L, mem, mem, m)
    ensures forall m: nat :: m < L.Mpad ==> RdI32(r, L.accAddr + 4 * m) == FcDot(L, mem, mem, m)
    ensures forall m: nat :: m < L.Mpad ==>
              r[L.outAddr + m] == U8(Epi(FcDot(L, mem, mem, m), RdI32(mem, L.bAddr + 4 * m), L.mult, L.shift, L.relu))
  {
    hide RdI32, Rd32, FcDot, EpiRun, Epi, U8, Apart;
    forall m: nat | m < L.Mpad
      ensures RdI32(r, L.accAddr + 4 * m) == FcDot(L, mem, mem, m)
    {
      HiddenWord(L, mem, acc, start, r, m);
    }
    forall m: nat | m < L.Mpad
      ensures r[L.outAddr + m] == U8(Epi(FcDot(L, mem, mem, m), RdI32(mem, L.bAddr + 4 * m), L.mult, L.shift, L.relu))
    {
      HiddenByte(L, mem, acc, start, r, m, FcDot(L, mem, mem, m));
    }
  }

  lemma HiddenByte(L: Layer, mem: seq<byte>, acc: seq<byte>, start: seq<byte>, r: seq<byte>, m: nat, d: int)
    requires FcPlaced(L, |mem|, |mem|) && !L.final && |mem| == |acc| == |start| == |r| && m < L.Mpad
    requires forall i :: 0 <= i < |mem| && !(L.accAddr <= i < L.accAddr + 4 * L.Mpad) ==> acc[i] == mem[i]
    requires forall i :: 0 <= i < |mem| && !(L.outAddr <= i < L.outAddr + L.Mpad) ==> start[i] == acc[i]
    requires forall i :: 0 <= i < |mem| && !(L.outAddr <= i < L.outAddr + L.Mpad) ==> r[i] == start[i]
    requires r == EpiRun(start, L.accAddr, L.bAddr, L.mult, L.shift, L.relu, L.outAddr, L.Mpad)
    requires RdI32(acc, L.accAddr + 4 * m) == d
    ensures r[L.outAddr + m] == U8(Epi(d, RdI32(mem, L.bAddr + 4 * m), L.mult, L.shift, L.relu))
  {
    hide RdI32, Rd32, EpiRun, Epi, U8;
    HiddenWord(L, mem, acc, start, r, m);
    EpiValue(start, L.accAddr, L.bAddr, L.mult, L.shift, L.relu, L.outAddr, L.Mpad, L.Mpad, m);
  }

  lemma HiddenFrame(L: Layer, mem: seq<byte>, acc: seq<byte>, start: seq<byte>, r: seq<byte>)
    requires FcPlaced(L, |mem|, |mem|) && !L.final && |mem| == |acc| == |start| == |r|
    requires forall i :: 0 <= i < |mem| && !(L.accAddr <= i < L.accAddr + 4 * L.Mpad) ==> acc[i] == mem[i]
    requires forall i :: 0 <= i < |mem| && !(L.outAddr <= i < L.outAddr + L.Mpad) ==> start[i] == acc[i]
    requires forall i :: 0 <= i < |mem| && !(L.outAddr <= i < L.outAddr + L.Mpad) ==> r[i] == start[i]
    ensures Frame(L, mem, r)
  {
  }

  /** A word outside the changed range reads the same. */
  lemma WordKept(s: seq<byte>, t: seq<byte>, lo: int, n: nat, a: nat)
    requires |s| == |t| && a + 4 <= |s| && Apart(lo, n, a, 4)
    requires forall i :: 0 <= i < |s| && !(lo <= i < lo + n) ==> t[i] == s[i]
    ensures RdI32(t, a) == RdI32(s, a)
  {
    hide RdI32, Rd32;
    RdFrame(t, a, s, a);
  }

  lemma HiddenWord(L: Layer, mem: seq<byte>, acc: seq<byte>, start: seq<byte>, r: seq<byte>, m: nat)
    requires FcPlaced(L, |mem|, |mem|) && !L.final && |mem| == |acc| == |start| == |r| && m < L.Mpad
    requires forall i :: 0 <= i < |mem| && !(L.accAddr <= i < L.accAddr + 4 * L.Mpad) ==> acc[i] == mem[i]
    requires forall i :: 0 <= i < |mem| && !(L.outAddr <= i < L.outAddr + L.Mpad) ==> start[i] == acc[i]
    requires forall i :: 0 <= i < |mem| && !(L.outAddr <= i < L.outAddr + L.Mpad) ==> r[i] == start[i]
    ensures RdI32(r, L.accAddr + 4 * m) == RdI32(start, L.accAddr + 4 * m) == RdI32(acc, L.accAddr + 4 * m)
    ensures RdI32(start, L.bAddr + 4 * m) == RdI32(mem, L.bAddr + 4 * m)
  {
    hide RdI32, Rd32;
    WordKept(start, r, L.outAddr, L.Mpad, L.accAddr + 4 * m);
    WordKept(acc, start, L.outAddr, L.Mpad, L.accAddr + 4 * m);
    WordKept(acc, start, L.outAddr, L.Mpad, L.bAddr + 4 * m);
    WordKept(mem, acc, L.accAddr, 4 * L.Mpad, L.bAddr + 4 * m);
  }

  // ----- the result -----

  /** Once every layer has run, accumulator plus bias is the reference output. */
  lemma ResultAt(p: Program, feed: Feed, mem: seq<byte>, cst: seq<byte>, m: nat)
    requires WellFormed(p) && FeedOk(p, feed) && ActOk(p, feed, |p.layers|, mem) && LayerConst(p, OutputIndex(p), cst)
    requires m < p.layers[OutputIndex(p)].N
    ensures var L := p.layers[OutputIndex(p)];
            && L.N <= L.Mpad && L.accAddr + 4 * m + 4 <= |mem| && L.bAddr + 4 * m + 4 <= |cst|
            && L.accAddr + 4 * L.Mpad <= p.layoutEnd
            && RefOutput(p, feed)[m] == Wrap32(RdI32(mem, L.accAddr + 4 * m) + RdI32(cst, L.bAddr + 4 * m))
  {
    hide WellFormed, FeedOk, RdI32, Rd32, LayerConst, RefVecs, VecsAt, InputAt, Wrap32, RefAcc, OutputIndex, LayerOk;
    LayerOkAt(p, OutputIndex(p));
    var f := OutputIndex(p);
    var L := p.layers[f];
    FcSizes(p, f);
    FcFacts(p, f, m);
    WritesBelowAt(p, f);
    SegAt(p, f, BiasSeg, L.bAddr, 4 * L.Mpad, cst);
    RdFrame(cst, L.bAddr + 4 * m, p.image, BiasOff(p, L) + 4 * m);
    assert BiasOf(p, f, m) == RdI32(p.image, BiasOff(p, L) + 4 * m);
  }

  /** Bias m of the output layer, read from the image. */
  function BiasWord(p: Program, f: nat, m: nat): (b: int)
    requires WellFormed(p) && f == OutputIndex(p) && m < p.layers[f].Mpad
    ensures LayerOk(p, f) && b == BiasOf(p, f, m)
  {
    LayerOkAt(p, f);
    BiasOf(p, f, m)
  }

  /** The output from accumulators in memory and biases in the image. */
  lemma ResultFrom(p: Program, feed: Feed, mem: seq<byte>, m: nat)
    requires WellFormed(p) && FeedOk(p, feed) && ActOk(p, feed, |p.layers|, mem)
    requires m < p.layers[OutputIndex(p)].N
    ensures var f := OutputIndex(p);
            var L := p.layers[f];
            && LayerOk(p, f) && L.N <= L.Mpad && L.accAddr + 4 * m + 4 <= |mem|
            && RefOutput(p, feed)[m] == Wrap32(RdI32(mem, L.accAddr + 4 * m) + BiasOf(p, f, m))
  {
    hide WellFormed, FeedOk, RdI32, Rd32, RefVecs, VecsAt, InputAt, Wrap32, RefAcc, OutputIndex, LayerOk, BiasOf;
    LayerOkAt(p, OutputIndex(p));
    FcSizes(p, OutputIndex(p));
  }

  lemma AccFits(p: Program, f: nat)
    requires WellFormed(p) && f == OutputIndex(p)
    ensures var L := p.layers[f]; L.N <= L.Mpad && L.accAddr + 4 * L.Mpad <= p.layoutEnd
  {
    hide WellFormed, OutputIndex;
    FcSizes(p, f);
    WritesBelowAt(p, f);
  }

  lemma Below(p: Program)
    requires WellFormed(p)
    ensures p.layoutEnd <= DDR2_BYTES < TWO32
  {
  }

  /** Every field of an engine request is a 32-bit word. */
  lemma GatherWords(p: Program, n: nat)
    requires WellFormed(p) && n < |p.layers| && p.layers[n].Gather?
    ensures var L := p.layers[n];
            L.tableAddr < TWO32 && L.rows < TWO32 && L.dimBytes < TWO32 && L.idxAddr < TWO32 && L.outAddr < TWO32
  {
    hide WellFormed, Pad16;
    Below(p);
    GatherFacts(p, n);
    var L := p.layers[n];
    SegmentFits(p, FindSeg(p.segments, L.name, TableSeg));
    var j :| 0 <= j < |p.inputs| && p.inputs[j] == IndexInput(L.indexInput, L.idxAddr, L.rows);
    InputFits(p, j);
    GatherSizes(p, n);
    MulLe(1, L.dimBytes, L.rows);
  }

  lemma GatherSizes(p: Program, n: nat)
    requires WellFormed(p) && n < |p.layers| && p.layers[n].Gather?
    ensures p.layers[n].dimBytes >= 1 && p.layers[n].rows >= 1
  {
    hide SegmentsOk, InputsOk, WritesOk, OutputOk, SegIs;
    assert LayerOk(p, n);
  }

  lemma FcWords(p: Program, n: nat)
    requires WellFormed(p) && n < |p.layers| && p.layers[n].Fc?
    ensures var L := p.layers[n];
            && L.wAddr < TWO32 && L.Mpad < TWO32 && L.Kpad < TWO32 && L.inAddr < TWO32 && L.accAddr < TWO32
            && L.bAddr < TWO32 && (L.final || L.outAddr < TWO32)
  {
    hide WellFormed, Shapes, RowPadded, LayerOk;
    Below(p);
    FcSizes(p, n);
    var L := p.layers[n];
    FcFacts(p, n, 0);
    assert L.Mpad >= 1 && L.Kpad >= 1;
    MulLe(1, L.Mpad, L.Kpad);
    MulLe(1, L.Kpad, L.Mpad);
    WritesBelowAt(p, n);
    SegmentFits(p, FindSeg(p.segments, L.name, WeightSeg));
    SegmentFits(p, FindSeg(p.segments, L.name, BiasSeg));
  }

  // ----- the layer loop -----

  lemma ConcatEffect(L: Layer, cst: seq<byte>, mem: seq<byte>)
    requires L.Concat?
    ensures Effect(L, cst, mem, mem)
  {
  }

  lemma EffectFrame(L: Layer, cst: seq<byte>, mem: seq<byte>, mem': seq<byte>)
    requires Effect(L, cst, mem, mem')
    ensures Frame(L, mem, mem')
  {
  }

  /** The constants of any layer q survive layer n. */
  lemma LayerConstKept(p: Program, n: nat, q: nat, mem: seq<byte>, mem': seq<byte>)
    requires WellFormed(p) && n < |p.layers| && q < |p.layers| && Frame(p.layers[n], mem, mem')
    ensures LayerConst(p, q, mem) ==> LayerConst(p, q, mem')
  {
    hide WellFormed, Frame, ConstAt;
    if LayerConst(p, q, mem) {
      forall k | 0 <= k < |p.segments| && p.segments[k].layer == p.layers[q].name
        ensures ConstAt(p, k, mem')
      {
        FrameKeepsConst(p, n, k, mem, mem');
      }
    }
  }

  /** Nothing after the output layer downloads weights. */
  lemma AfterOutput(p: Program, n: nat)
    requires WellFormed(p) && n < |p.layers| && n > OutputIndex(p)
    ensures !p.layers[n].Fc?
  {
    hide SegmentsOk, InputsOk, WritesOk, LayerOk;
  }

  // ----- what a caller offers -----

  /** What a caller hands `run`: any input present has its size and a valid row index. Inputs may be missing. */
  ghost predicate Offered(p: Program, feed: Feed) {
    forall j :: 0 <= j < |p.inputs| && p.inputs[j].name in feed ==> InputFed(p.inputs[j], feed)
  }

  ghost predicate AllThere(p: Program, feed: Feed) {
    forall j :: 0 <= j < |p.inputs| ==> p.inputs[j].name in feed
  }

  /** `run`'s search for the record of the output layer. */
  method FindOutput(p: Program) returns (f: nat)
    requires WellFormed(p)
    ensures f == OutputIndex(p)
  {
    hide SegmentsOk, InputsOk, WritesOk, LayerOk;
    f := 0;
    var n := 0;
    while n < |p.layers|
      invariant n <= |p.layers|
      invariant LastNamed(p.layers[..n], p.outputLayer) >= 0 ==> f == LastNamed(p.layers[..n], p.outputLayer)
    {
      assert p.layers[..n + 1][..n] == p.layers[..n];
      if p.layers[n].name == p.outputLayer {
        f := n;
      }
      n := n + 1;
    }
    assert p.layers[..n] == p.layers;
  }
}
