/** What the constants a node leaves in the image are worth when the reference reads them back. */
module Constants {
  import opened Bytes
  import opened Kernels
  import opened Program
  import opened Walk
  import opened Emission
  import opened NodeSteps
  import opened Meaning
  import G = Graph

  /** Products with zero weights add nothing. */
  lemma {:induction false} DotPadding(ws: seq<byte>, wa: nat, xs: seq<byte>, n: nat, k: nat)
    requires wa + n <= |ws| && n <= |xs| && k <= n && forall i :: wa + k <= i < wa + n ==> ws[i] == 0
    ensures DotAt(ws, wa, xs, 0, n) == DotAt(ws, wa, xs, 0, k)
  {
    hide Wrap32;
    if k < n {
      DotPadding(ws, wa, xs, n - 1, k);
      assert S8(ws[wa + n - 1]) == 0;
    }
  }

  /** A padded row of the image against a padded vector. */
  lemma PaddedDot(image: seq<byte>, at: nat, row: seq<byte>, x: seq<byte>, Kpad: nat)
    requires |row| == |x| <= Kpad && At(image, at, row) && at + Kpad <= |image|
             && forall i :: at + |row| <= i < at + Kpad ==> image[i] == 0
    ensures DotAt(image, at, x + Zeros(Kpad - |x|), 0, Kpad) == Wrap32(DotExact(row, 0, x, 0, |x|))
  {
    hide Wrap32, DotExact, DotAt;
    var xs := x + Zeros(Kpad - |x|);
    DotPadding(image, at, xs, Kpad, |row|);
    DotAgree(image, at, xs, 0, row, 0, x, 0, |x|, |x|);
    DotIsWrapped(row, x, |x|);
  }

  /** Row m of a padded matrix in the image. */
  lemma MatrixRow(image: seq<byte>, off: nat, rows: seq<seq<byte>>, width: nat, n: nat, m: nat)
    requires (forall r :: 0 <= r < |rows| ==> |rows[r]| <= width) && m < n && m < |rows|
             && At(image, off, G.PadRows(rows, width, n))
    ensures 0 <= m * width && off + m * width + width <= |image| && At(image, off + m * width, rows[m])
    ensures forall i :: off + m * width + |rows[m]| <= i < off + m * width + width ==> image[i] == 0
  {
    hide G.PadRows;
    RowBound(m, n, width);
    forall i | off + m * width <= i < off + m * width + width
      ensures image[i] == if i - off - m * width < |rows[m]| then rows[m][i - off - m * width] else 0
    {
      G.PadRowsAt(rows, width, n, m, i - off - m * width);
    }
  }

  /** Word m of the bias block. */
  lemma {:induction false} BiasWordAt(b: seq<int>, n: nat, m: nat)
    requires m < n
    ensures RdI32(G.BiasBytes(b, n), 4 * m) == if m < |b| then Wrap32(b[m]) else 0
  {
    hide Le32, Wrap32, RdI32;
    var front, last := G.BiasBytes(b, n - 1), Le32(if n - 1 < |b| then b[n - 1] else 0);
    var s := G.BiasBytes(b, n);
    assert s == front + last;
    if m < n - 1 {
      BiasWordAt(b, n - 1, m);
      RdFrame(s, 4 * m, front, 4 * m);
    } else {
      assert s[4 * m..4 * m + 4] == last;
      Le32RoundTrip(s, 4 * m, if n - 1 < |b| then b[n - 1] else 0);
      WrapZero();
    }
  }

  // ----- gather -----

  /** The table's bytes lie in the image where the new segment says. */
  lemma TablePlaced(c: Ctx, w: Walk, k: nat, q: Program)
    requires Shaped(c, k) && c.g.nodes[k].GatherNode? && Unplaced(w.p, c.g.nodes[k].name)
    requires q.segments == GatherProgram(w.p, c.g.nodes[k]).segments
             && q.image == GatherProgram(w.p, c.g.nodes[k]).image
    ensures TableOff(q, GatherRecord(c, w.p, c.g.nodes[k])) == |w.p.image|
            && At(q.image, |w.p.image|, TableBytes(c.g.nodes[k]))
  {
    hide FindSeg, TableBytes, Next, Stored;
    var n := c.g.nodes[k];
    var d := TableBytes(n);
    PlacedLast(w.p, Segment(w.p.layoutEnd, |w.p.image|, |d|, n.name, TableSeg), Stored(w.p.image, d),
      Next(w.p.layoutEnd, |d|));
    StoredAt(w.p.image, d, []);
    assert w.p.image + Stored(w.p.image, d) == w.p.image + Stored(w.p.image, d) + [];
  }

  /** A stored constant starts where the image ended. */
  lemma StoredAt(image: seq<byte>, d: seq<byte>, rest: seq<byte>)
    ensures At(image + Stored(image, d) + rest, |image|, d)
  {
    var s := Stored(image, d);
    forall i | |image| <= i < |image| + |d|
      ensures (image + s + rest)[i] == d[i - |image|]
    {
      assert s[i - |image|] == s[..|d|][i - |image|];
    }
  }

  /** The row a lowered gather selects is the row of the node's table. */
  lemma GatherValue(c: Ctx, w: Walk, k: nat, q: Program, feed: Feed)
    requires Shaped(c, k) && c.g.nodes[k].GatherNode? && Unplaced(w.p, c.g.nodes[k].name)
    requires q.segments == GatherProgram(w.p, c.g.nodes[k]).segments
             && q.image == GatherProgram(w.p, c.g.nodes[k]).image
    requires |w.p.layers| < |q.layers| && q.layers[|w.p.layers|] == GatherRecord(c, w.p, c.g.nodes[k])
             && LayerOk(q, |w.p.layers|) && FeedOk(q, feed)
    ensures TableRow(q, |w.p.layers|, feed) == Row(c.g.nodes[k], feed)
  {
    hide FindSeg, TableBytes, Next, Stored, Pad16, RdI32, GatherProgram;
    var n, L := c.g.nodes[k], GatherRecord(c, w.p, c.g.nodes[k]);
    assert IndexInput(L.indexInput, L.idxAddr, L.rows) in q.inputs;
    assert InputFed(IndexInput(L.indexInput, L.idxAddr, L.rows), feed);
    var idx := RowIndex(L, feed);
    TablePlaced(c, w, k, q);
    TableRows(n);
    MatrixRow(q.image, |w.p.image|, n.table, L.dimBytes, |n.table|, idx);
    assert TableRow(q, |w.p.layers|, feed) == n.table[idx];
  }

  lemma TableRows(n: G.Node)
    requires n.GatherNode? && forall r :: 0 <= r < |n.table| ==> |n.table[r]| == n.dim
    ensures n.dim <= Pad16(n.dim) && TableBytes(n) == G.PadRows(n.table, Pad16(n.dim), |n.table|)
  {
  }

  // ----- fc -----

  lemma FcPlaced(c: Ctx, w: Walk, k: nat, f: nat, q: Program)
    requires Shaped(c, k) && c.g.nodes[k].MatMulNode? && c.g.nodes[k].x in w.produced
             && Unplaced(w.p, c.g.nodes[k].name)
    requires q.segments == FcProgram(c, w, k, f).segments && q.image == FcProgram(c, w, k, f).image
    ensures var n, L := c.g.nodes[k], FcRecord(c, w, k, f);
            && WeightOff(q, L) == |w.p.image| && At(q.image, |w.p.image|, WeightBytes(n))
            && At(q.image, BiasOff(q, L), G.BiasBytes(Biases(c.g, k), Pad16(n.N)))
  {
    hide FindSeg, WeightBytes, Next, Stored, FcRecord, G.BiasBytes, Biases, AfterWeights, AfterConsts, Pad16,
         WeightArea;
    var n, L := c.g.nodes[k], FcRecord(c, w, k, f);
    var dw := Stored(w.p.image, WeightBytes(n));
    var db := Stored(w.p.image + dw, G.BiasBytes(Biases(c.g, k), Pad16(n.N)));
    WeightsSize(n);
    BiasAddress(c, w, k, f);
    FcSegments(w.p, L, dw, AfterWeights(c, w, k), db, AfterConsts(c, w, k));
    StoredAt(w.p.image, WeightBytes(n), db);
    StoredAt(w.p.image + dw, G.BiasBytes(Biases(c.g, k), Pad16(n.N)), []);
    assert w.p.image + dw + db + [] == w.p.image + dw + db;
  }

  /** Accumulators and biases of a lowered fc layer are the node's. */
  lemma FcValues(c: Ctx, w: Walk, k: nat, f: nat, q: Program, x: seq<byte>, m: nat)
    requires Shaped(c, k) && c.g.nodes[k].MatMulNode? && c.g.nodes[k].x in w.produced
             && Unplaced(w.p, c.g.nodes[k].name)
    requires q.segments == FcProgram(c, w, k, f).segments && q.image == FcProgram(c, w, k, f).image
    requires |w.p.layers| < |q.layers| && q.layers[|w.p.layers|] == FcRecord(c, w, k, f) && LayerOk(q, |w.p.layers|)
    requires |x| == c.g.nodes[k].K == FcRecord(c, w, k, f).K && m < c.g.nodes[k].N && m < FcRecord(c, w, k, f).Mpad
    ensures AccOf(q, |w.p.layers|, x, m) == Acc(c.g.nodes[k], x, m) && BiasOf(q, |w.p.layers|, m) == Bias(c.g, k, m)
  {
    hide FindSeg, WeightBytes, Next, Stored, FcRecord, FcProgram, G.BiasBytes, Biases, Pad16, WeightArea, LayerOk,
         G.FusedAdd, WeightOff, BiasOff, AccOf, BiasOf, Acc, Bias, At;
    var n, L := c.g.nodes[k], FcRecord(c, w, k, f);
    FcPlaced(c, w, k, f, q);
    BiasAddress(c, w, k, f);
    WeightRows(n);
    AccValue(q, |w.p.layers|, n, x, m);
    BiasValue(c, k, q, |w.p.layers|, m);
  }

  lemma AccValue(q: Program, l: nat, n: G.Node, x: seq<byte>, m: nat)
    requires l < |q.layers| && q.layers[l].Fc? && LayerOk(q, l) && n.MatMulNode?
             && |x| == q.layers[l].K == n.K <= q.layers[l].Kpad
    requires |n.weights| == n.N && (forall r :: 0 <= r < |n.weights| ==> |n.weights[r]| == n.K) && m < n.N
             && m < q.layers[l].Mpad
    requires At(q.image, WeightOff(q, q.layers[l]), G.PadRows(n.weights, q.layers[l].Kpad, q.layers[l].Mpad))
    ensures AccOf(q, l, x, m) == Acc(n, x, m)
  {
    hide G.PadRows, DotExact, DotAt, Wrap32, LayerOk, WeightOff;
    var L := q.layers[l];
    MatrixRow(q.image, WeightOff(q, L), n.weights, L.Kpad, L.Mpad, m);
    PaddedDot(q.image, WeightOff(q, L) + m * L.Kpad, n.weights[m], x, L.Kpad);
  }

  lemma BiasValue(c: Ctx, k: nat, q: Program, l: nat, m: nat)
    requires k < |c.g.nodes| && c.g.nodes[k].MatMulNode? && l < |q.layers| && q.layers[l].Fc? && LayerOk(q, l)
             && m < q.layers[l].Mpad
    requires At(q.image, BiasOff(q, q.layers[l]), G.BiasBytes(Biases(c.g, k), q.layers[l].Mpad))
    ensures BiasOf(q, l, m) == Bias(c.g, k, m)
  {
    hide Wrap32, LayerOk, BiasOff, G.BiasBytes, RdI32, Biases;
    var b := G.BiasBytes(Biases(c.g, k), q.layers[l].Mpad);
    RdFrame(q.image, BiasOff(q, q.layers[l]) + 4 * m, b, 4 * m);
    BiasWordAt(Biases(c.g, k), q.layers[l].Mpad, m);
    BiasIs(c.g, k, m);
  }

  lemma WeightRows(n: G.Node)
    requires n.MatMulNode? && |n.weights| == n.N && forall r :: 0 <= r < |n.weights| ==> |n.weights[r]| == n.K
    ensures n.K <= Pad16(n.K) && WeightBytes(n) == G.PadRows(n.weights, Pad16(n.K), Pad16(n.N))
  {
  }

  lemma BiasIs(g: G.Graph, k: nat, m: nat)
    requires k < |g.nodes| && g.nodes[k].MatMulNode?
    ensures Bias(g, k, m) == if m < |Biases(g, k)| then Wrap32(Biases(g, k)[m]) else 0
  {
    hide G.FusedAdd, Wrap32;
  }
}
