/** Lowered programs (program.h, lowering.py): the record types, what makes a program well formed,
    and `run_reference`, the integer semantics every executor must reproduce. */
module Program {
  import opened Bytes
  import opened Kernels

  datatype SegKind = TableSeg | WeightSeg | BiasSeg

  datatype Segment = Segment(addr: nat, offset: nat, length: nat, layer: string, kind: SegKind)

  datatype InputSpec =
    | IndexInput(name: string, addr: nat, rows: nat)
    | DenseInput(name: string, addr: nat, count: nat)
  {
    /** Bytes an executor is handed for this input: one INT32 index or `count` INT8 values. */
    function Size(): nat {
      if IndexInput? then 4 else count
    }
  }

  datatype Part =
    | LayerPart(addr: nat, len: nat)
    | InputPart(tensor: string, addr: nat, len: nat)

  datatype Layer =
    | Gather(name: string, tableAddr: nat, rows: nat, dim: nat, dimBytes: nat, idxAddr: nat, outAddr: nat,
      indexInput: string)
    | Concat(name: string, parts: seq<Part>, outAddr: nat, len: nat)
    | Fc(name: string, inAddr: nat, K: nat, Kpad: nat, N: nat, Mpad: nat, wAddr: nat, bAddr: nat,
         accAddr: nat, outAddr: nat, mult: int, shift: nat, relu: bool, final: bool, stream: bool)

  datatype Program = Program(streaming: bool, segments: seq<Segment>, inputs: seq<InputSpec>, layers: seq<Layer>,
                             outputLayer: string, layoutEnd: nat, image: seq<byte>)

  type Feed = map<string, seq<byte>>

  // ----- layout -----

  /** Address `i` is one the layer may write (padding included). */
  predicate InFoot(L: Layer, i: int) {
    match L
    case Gather(_, _, _, _, dimBytes, _, outAddr, _) => outAddr <= i < outAddr + dimBytes
    case Concat(_, _, _, _) => false
    case Fc(_, _, _, _, _, Mpad, _, _, accAddr, outAddr, _, _, _, final, _) =>
      accAddr <= i < accAddr + 4 * Mpad || (!final && outAddr <= i < outAddr + Mpad)
  }

  /** Nothing the layer writes lies in [a, a+n). */
  predicate Clear(L: Layer, a: nat, n: nat) {
    match L
    case Gather(_, _, _, _, dimBytes, _, outAddr, _) => Apart(outAddr, dimBytes, a, n)
    case Concat(_, _, _, _) => true
    case Fc(_, _, _, _, _, Mpad, _, _, accAddr, outAddr, _, _, _, final, _) =>
      Apart(accAddr, 4 * Mpad, a, n) && (final || Apart(outAddr, Mpad, a, n))
  }

  /** The two layers write disjoint regions. */
  predicate ClearOf(L: Layer, M: Layer) {
    match M
    case Gather(_, _, _, _, dimBytes, _, outAddr, _) => Clear(L, outAddr, dimBytes)
    case Concat(_, _, _, _) => true
    case Fc(_, _, _, _, _, Mpad, _, _, accAddr, outAddr, _, _, _, final, _) =>
      Clear(L, accAddr, 4 * Mpad) && (final || Clear(L, outAddr, Mpad))
  }

  predicate WritesBelow(L: Layer, end: nat) {
    match L
    case Gather(_, _, _, _, dimBytes, _, outAddr, _) => outAddr + dimBytes <= end
    case Concat(_, _, outAddr, len) => outAddr + len <= end
    case Fc(_, _, _, _, _, Mpad, _, _, accAddr, outAddr, _, _, _, final, _) =>
      && accAddr + 4 * Mpad <= end
      && (final || (outAddr + Mpad <= end && Apart(accAddr, 4 * Mpad, outAddr, Mpad)))
  }

  /** Loaded once by `prepare` rather than streamed before its layer. */
  predicate Resident(p: Program, k: nat)
    requires k < |p.segments|
  {
    !p.streaming || p.segments[k].kind == TableSeg
  }

  /** Index of the first segment of that layer and kind, or |segs|. */
  function FindSeg(segs: seq<Segment>, layer: string, kind: SegKind): (k: nat)
    ensures k <= |segs|
    ensures k < |segs| ==> segs[k].layer == layer && segs[k].kind == kind
  {
    if segs == [] then 0
    else if segs[0].layer == layer && segs[0].kind == kind then 0
    else 1 + FindSeg(segs[1..], layer, kind)
  }

  predicate SegIs(p: Program, layer: string, kind: SegKind, addr: nat, length: nat) {
    var k := FindSeg(p.segments, layer, kind);
    k < |p.segments| && p.segments[k].addr == addr && p.segments[k].length == length
    && p.segments[k].offset + length <= |p.image|
  }

  ghost predicate SegmentsOk(p: Program) {
    && (forall k :: 0 <= k < |p.segments| ==>
          p.segments[k].addr + p.segments[k].length <= p.layoutEnd
            && p.segments[k].offset + p.segments[k].length <= |p.image|)
    && (forall j, k | 0 <= j < k < |p.segments| ::
          Resident(p, j) || Resident(p, k) || p.segments[j].layer == p.segments[k].layer ==>
            Apart(p.segments[j].addr, p.segments[j].length, p.segments[k].addr, p.segments[k].length))
  }

  ghost predicate InputsOk(p: Program) {
    && (forall j :: 0 <= j < |p.inputs| ==>
        p.inputs[j].addr + Pad16(p.inputs[j].Size()) <= p.layoutEnd
        && p.inputs[j].Size() > 0)
    && (forall j, k :: 0 <= j < k < |p.inputs| ==>
          Apart(p.inputs[j].addr, Pad16(p.inputs[j].Size()), p.inputs[k].addr, Pad16(p.inputs[k].Size())))
    && (forall j, k :: 0 <= j < |p.inputs| && 0 <= k < |p.segments| ==>
          Apart(p.inputs[j].addr, Pad16(p.inputs[j].Size()), p.segments[k].addr, p.segments[k].length))
  }

  ghost predicate WritesOk(p: Program) {
    && (forall n :: 0 <= n < |p.layers| ==> WritesBelow(p.layers[n], p.layoutEnd))
    && (forall n, j :: 0 <= n < |p.layers| && 0 <= j < |p.inputs| ==>
          Clear(p.layers[n], p.inputs[j].addr, Pad16(p.inputs[j].Size())))
    && (forall n, k :: 0 <= n < |p.layers| && 0 <= k < |p.segments| ==>
          Clear(p.layers[n], p.segments[k].addr, p.segments[k].length))
    && (forall n, q :: 0 <= n < |p.layers| && 0 <= q < n ==> ClearOf(p.layers[n], p.layers[q]))
  }

  // ----- data flow -----

  function DenseShapes(ins: seq<InputSpec>): map<nat, nat> {
    if ins == [] then map[]
    else
      var i := ins[|ins| - 1];
      var m := DenseShapes(ins[..|ins| - 1]);
      if i.DenseInput? then m[i.addr := i.count] else m
  }

  /** Addresses that hold an INT8 vector after n layers, with its length. */
  function Shapes(p: Program, n: nat): map<nat, nat>
    requires n <= |p.layers|
  {
    if n == 0 then DenseShapes(p.inputs)
    else
      var m := Shapes(p, n - 1);
      match p.layers[n - 1]
      case Gather(_, _, _, dim, _, _, outAddr, _) => m[outAddr := dim]
      case Concat(_, _, outAddr, len) => m[outAddr := len]
      case Fc(_, _, _, _, N, _, _, _, _, outAddr, _, _, _, final, _) => if final then m else m[outAddr := N]
  }

  function PartsLen(parts: seq<Part>): nat {
    if parts == [] then 0 else PartsLen(parts[..|parts| - 1]) + parts[|parts| - 1].len
  }

  ghost predicate PartOk(p: Program, n: nat, part: Part)
    requires n <= |p.layers|
  {
    match part
    case LayerPart(addr, len) => addr in Shapes(p, n) && Shapes(p, n)[addr] == len
    case InputPart(tensor, addr, len) => DenseInput(tensor, addr, len) in p.inputs
  }

  /** The parts lie end to end from `base`, so that concatenation needs no copy. */
  ghost predicate Tiled(p: Program, n: nat, parts: seq<Part>, base: nat)
    requires n <= |p.layers|
  {
    parts != [] ==>
      && Tiled(p, n, parts[..|parts| - 1], base)
      && parts[|parts| - 1].addr == base + PartsLen(parts[..|parts| - 1])
      && PartOk(p, n, parts[|parts| - 1])
  }

  /** Columns K.. of weight row m are zero. */
  ghost predicate RowPadded(image: seq<byte>, off: nat, m: nat, K: nat, Kpad: nat) {
    && 0 <= m * Kpad && off + m * Kpad + Kpad <= |image|
    && forall i :: off + m * Kpad + K <= i < off + m * Kpad + Kpad ==> image[i] == 0
  }

  function WeightOff(p: Program, L: Layer): nat {
    var k := FindSeg(p.segments, L.name, WeightSeg);
    if k < |p.segments| then p.segments[k].offset else 0
  }

  function BiasOff(p: Program, L: Layer): nat {
    var k := FindSeg(p.segments, L.name, BiasSeg);
    if k < |p.segments| then p.segments[k].offset else 0
  }

  function TableOff(p: Program, L: Layer): nat {
    var k := FindSeg(p.segments, L.name, TableSeg);
    if k < |p.segments| then p.segments[k].offset else 0
  }

  ghost predicate LayerOk(p: Program, n: nat)
    requires n < |p.layers|
  {
    var L := p.layers[n];
    match L
    case Gather(name, tableAddr, rows, dim, dimBytes, idxAddr, outAddr, indexInput) =>
      && 0 < dim && dimBytes == Pad16(dim) && 0 < rows
      && SegIs(p, name, TableSeg, tableAddr, rows * dimBytes)
      && IndexInput(indexInput, idxAddr, rows) in p.inputs
      && (forall k :: 0 <= k < |p.segments| && p.segments[k].layer == name ==> k == FindSeg(p.segments, name, TableSeg))
    case Concat(name, parts, outAddr, len) =>
      && Tiled(p, n, parts, outAddr) && len == PartsLen(parts)
      && (forall k :: 0 <= k < |p.segments| ==> p.segments[k].layer != name)
    case Fc(name, inAddr, K, Kpad, N, Mpad, wAddr, bAddr, accAddr, outAddr, mult, shift, relu, final, stream) =>
      && 0 < K && Kpad == Pad16(K) && 0 < N && Mpad == Pad16(N)
      && 0 <= mult <= 32767 && shift <= 31 && stream == p.streaming
      && SegIs(p, name, WeightSeg, wAddr, Mpad * Kpad) && SegIs(p, name, BiasSeg, bAddr, 4 * Mpad)
      && (forall k :: 0 <= k < |p.segments| && p.segments[k].layer == name ==>
            k == FindSeg(p.segments, name, WeightSeg) || k == FindSeg(p.segments, name, BiasSeg))
      && (forall m: nat :: m < Mpad ==> RowPadded(p.image, WeightOff(p, L), m, K, Kpad))
      && inAddr + Kpad <= p.layoutEnd && Clear(L, inAddr, Kpad)
      && inAddr in Shapes(p, n) && K <= Shapes(p, n)[inAddr]
  }

  /** Index of the last layer of that name, or -1: the executors' search for `output_layer`. */
  function LastNamed(layers: seq<Layer>, name: string): (f: int)
    ensures -1 <= f < |layers|
    ensures f >= 0 ==> layers[f].name == name
  {
    if layers == [] then -1
    else if layers[|layers| - 1].name == name then |layers| - 1
    else LastNamed(layers[..|layers| - 1], name)
  }

  ghost predicate OutputOk(p: Program) {
    var f := LastNamed(p.layers, p.outputLayer);
    && f >= 0 && p.layers[f].Fc? && p.layers[f].final
    && forall n :: f < n < |p.layers| ==> !p.layers[n].Fc?
  }

  /** The DDR2 size every layout must respect (lowering.py, DDR2_BYTES). */
  const DDR2_BYTES := 128 * 1024 * 1024

  ghost predicate WellFormed(p: Program) {
    && p.layoutEnd <= DDR2_BYTES
    && SegmentsOk(p) && InputsOk(p) && WritesOk(p) && OutputOk(p)
    && forall n :: 0 <= n < |p.layers| ==> LayerOk(p, n)
  }

  lemma LayerOkAt(p: Program, n: nat)
    requires WellFormed(p) && n < |p.layers|
    ensures LayerOk(p, n)
  {
    hide SegmentsOk, InputsOk, WritesOk, OutputOk, LayerOk;
  }

  function OutputIndex(p: Program): (f: nat)
    requires WellFormed(p)
    ensures f < |p.layers| && p.layers[f].Fc? && p.layers[f].final
  {
    LastNamed(p.layers, p.outputLayer)
  }

  /** Every input is present with its size, and every index names a row. */
  ghost predicate FeedOk(p: Program, feed: Feed) {
    forall j :: 0 <= j < |p.inputs| ==> InputFed(p.inputs[j], feed)
  }

  predicate InputFed(i: InputSpec, feed: Feed) {
    && i.name in feed && |feed[i.name]| == i.Size()
    && (i.IndexInput? ==> 0 <= RdI32(feed[i.name], 0) < i.rows)
  }

  // ----- run_reference -----

  /** No fc layer finds a vector longer than its padded input, which `run_reference` could not copy there: it raises
      exactly if one does. A vector longer than K that fits meets zero weights, so the first K values are all that
      counts, for the reference as for the executors. */
  ghost predicate ReferenceRuns(p: Program) {
    forall n :: 0 <= n < |p.layers| && p.layers[n].Fc? ==> VectorFits(p, n)
  }

  ghost predicate VectorFits(p: Program, n: nat)
    requires n < |p.layers| && p.layers[n].Fc?
  {
    p.layers[n].inAddr in Shapes(p, n) && Shapes(p, n)[p.layers[n].inAddr] <= p.layers[n].Kpad
  }

  function DenseVecs(ins: seq<InputSpec>, feed: Feed): (v: map<nat, seq<byte>>)
    requires forall j :: 0 <= j < |ins| ==> InputFed(ins[j], feed)
    ensures v.Keys == DenseShapes(ins).Keys
    ensures forall a :: a in v ==> |v[a]| == DenseShapes(ins)[a]
  {
    if ins == [] then map[]
    else
      var i := ins[|ins| - 1];
      assert InputFed(i, feed);
      var m := DenseVecs(ins[..|ins| - 1], feed);
      if i.DenseInput? then m[i.addr := feed[i.name]] else m
  }

  function ConcatParts(p: Program, n: nat, parts: seq<Part>, base: nat, vecs: map<nat, seq<byte>>,
          feed: Feed): (v: seq<byte>)
    requires n <= |p.layers| && FeedOk(p, feed) && Tiled(p, n, parts, base)
    requires Typed(vecs, Shapes(p, n))
    ensures |v| == PartsLen(parts)
  {
    if parts == [] then []
    else
      var last := parts[|parts| - 1];
      ConcatParts(p, n, parts[..|parts| - 1], base, vecs, feed) +
      (match last case LayerPart(addr, _) => vecs[addr] case InputPart(tensor, _, _) => feed[tensor])
  }

  function RowIndex(L: Layer, feed: Feed): (i: int)
    requires L.Gather? && L.indexInput in feed && |feed[L.indexInput]| >= 4
  {
    RdI32(feed[L.indexInput], 0)
  }

  /** The selected embedding row, cut from the table segment of the image. */
  function TableRow(p: Program, n: nat, feed: Feed): (v: seq<byte>)
    requires n < |p.layers| && LayerOk(p, n) && p.layers[n].Gather? && FeedOk(p, feed)
    ensures |v| == p.layers[n].dim
  {
    var L := p.layers[n];
    var idx := RowIndex(L, feed);
    RowBound(idx, L.rows, L.dimBytes);
    var at := TableOff(p, L) + idx * L.dimBytes;
    p.image[at..at + L.dim]
  }

  /** Accumulator m of fc layer n on the K values x, zero-padded to K_pad as `xk` is. */
  function AccOf(p: Program, n: nat, x: seq<byte>, m: nat): int
    requires n < |p.layers| && LayerOk(p, n) && p.layers[n].Fc? && |x| == p.layers[n].K && m < p.layers[n].Mpad
  {
    var L := p.layers[n];
    RowBound(m, L.Mpad, L.Kpad);
    DotAt(p.image, WeightOff(p, L) + m * L.Kpad, x + Zeros(L.Kpad - L.K), 0, L.Kpad)
  }

  function BiasOf(p: Program, n: nat, m: nat): int
    requires n < |p.layers| && LayerOk(p, n) && p.layers[n].Fc? && m < p.layers[n].Mpad
  {
    RdI32(p.image, BiasOff(p, p.layers[n]) + 4 * m)
  }

  /** The requantised output of a hidden fc layer on the vector x. */
  function FcVec(p: Program, n: nat, x: seq<byte>): (v: seq<byte>)
    requires n < |p.layers| && LayerOk(p, n) && p.layers[n].Fc? && |x| == p.layers[n].K
    ensures |v| == p.layers[n].N
  {
    var L := p.layers[n];
    seq(L.N, m requires 0 <= m < L.N => U8(Epi(AccOf(p, n, x, m), BiasOf(p, n, m), L.mult, L.shift, L.relu)))
  }

  ghost predicate Typed(v: map<nat, seq<byte>>, shapes: map<nat, nat>) {
    v.Keys == shapes.Keys && forall a :: a in v ==> |v[a]| == shapes[a]
  }

  /** The vector layer n computes from the vectors so far; a final layer leaves none. */
  function RefStep(p: Program, feed: Feed, n: nat, v: map<nat, seq<byte>>): (v': map<nat, seq<byte>>)
    requires n < |p.layers| && LayerOk(p, n) && FeedOk(p, feed) && Typed(v, Shapes(p, n))
    ensures Typed(v', Shapes(p, n + 1))
  {
    match p.layers[n]
    case Gather(_, _, _, _, _, _, outAddr, _) => v[outAddr := TableRow(p, n, feed)]
    case Concat(_, parts, outAddr, _) => v[outAddr := ConcatParts(p, n, parts, outAddr, v, feed)]
    case Fc(_, inAddr, _, _, _, _, _, _, _, outAddr, _, _, _, final, _) =>
      if final then v else v[outAddr := FcVec(p, n, v[inAddr][..p.layers[n].K])]
  }

  /** `by_addr` after n layers: the INT8 vector at each activation address. */
  function RefVecs(p: Program, feed: Feed, n: nat): (v: map<nat, seq<byte>>)
    requires WellFormed(p) && FeedOk(p, feed) && n <= |p.layers|
    ensures Typed(v, Shapes(p, n))
  {
    if n == 0 then DenseVecs(p.inputs, feed)
    else
      assert LayerOk(p, n - 1);
      RefStep(p, feed, n - 1, RefVecs(p, feed, n - 1))
  }

  function RefAcc(p: Program, feed: Feed, m: nat): int
    requires WellFormed(p) && FeedOk(p, feed) && m < p.layers[OutputIndex(p)].Mpad
  {
    var f := OutputIndex(p);
    assert LayerOk(p, f);
    AccOf(p, f, RefVecs(p, feed, f)[p.layers[f].inAddr][..p.layers[f].K], m)
  }

  /** The INT32 vector `run_reference` returns wherever it does not raise (`ReferenceRuns`): accumulator plus bias of
      the output layer. */
  function RefOutput(p: Program, feed: Feed): (out: seq<int>)
    requires WellFormed(p) && FeedOk(p, feed)
    ensures |out| == p.layers[OutputIndex(p)].N
  {
    var f := OutputIndex(p);
    assert LayerOk(p, f);
    seq(p.layers[f].N, m requires 0 <= m < p.layers[f].N => Wrap32(RefAcc(p, feed, m) + BiasOf(p, f, m)))
  }
}
