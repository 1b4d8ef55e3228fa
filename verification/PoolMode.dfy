/** Memory-pool mode of executors.cpp: weights stay in device memory and are read through the page window,
    activations live in a host arena. */
module PoolMode {
  import opened Bytes
  import opened Kernels
  import opened Program
  import opened Agreement
  import opened Steps
  import opened PageWindow
  import opened CxlWindow
  import opened Link
  import NmcMode

  // ----- loads through the window -----

  predicate Unwritten(g: Page) {
    g.state == Invalid || g.state == Shared
  }

  /** The window stands for the device bytes `cst` and holds no dirty or handed-over page. */
  ghost predicate Steady(win: Window, cst: seq<byte>)
    reads win.state, win.prot, win.base, win.dev
  {
    && win.Valid() && win.devBase == 0 && !win.strict && win.dev[..] == cst
    && forall q :: 0 <= q < win.npages ==> Unwritten(win.View()[q])
  }

  /** Faulting a page in leaves no page dirty. */
  lemma ReadableUnwritten(w: Pages, p: nat, prefetch: nat)
    requires p < |w| && forall q :: 0 <= q < |w| ==> Unwritten(w[q])
    requires w[p].state == Shared ==> w[p].prot == ReadOnly
    ensures forall q :: 0 <= q < |w| ==> Unwritten(Readable(w, p, prefetch)[q])
  {
    hide Lo, Hi;
  }

  /** One byte loaded through the window is the device's. */
  method Peek(win: Window, ghost cst: seq<byte>, off: nat) returns (v: byte)
    requires Steady(win, cst) && off < win.npages * win.page
    modifies win, win.state, win.prot, win.base
    ensures Steady(win, cst) && off < |cst| && v == cst[off]
  {
    hide Coherent, ViewOf, PageOf, Fits, Readable, Slice;
    ghost var w := win.View();
    ghost var p := off / win.page;
    win.StatesOf();
    win.PageOfByte(off);
    PageAt(w, win.page, p);
    ReadableUnwritten(w, p, win.prefetch);
    var got;
    got, v := win.LoadByte(off, true);
    PageAt(win.View(), win.page, p);
    win.ThePage(p);
    DeviceByte(win, p, off);
  }

  lemma DeviceByte(win: Window, p: nat, off: nat)
    requires win.page > 0 && off == p * win.page + off % win.page && 0 <= p * win.page
    requires p * win.page + win.page <= win.dev.Length
    ensures off < win.dev.Length && Slice(win.dev[..], 0, win.page, p)[off % win.page] == win.dev[..][off]
  {
  }

  /** A 32-bit word through the window. */
  method PeekWord(win: Window, ghost cst: seq<byte>, off: nat) returns (v: int)
    requires Steady(win, cst) && off + 4 <= win.npages * win.page
    modifies win, win.state, win.prot, win.base
    ensures Steady(win, cst) && off + 4 <= |cst| && v == RdI32(cst, off)
  {
    hide Steady, RdI32, Rd32;
    var b0 := Peek(win, cst, off);
    var b1 := Peek(win, cst, off + 1);
    var b2 := Peek(win, cst, off + 2);
    var b3 := Peek(win, cst, off + 3);
    v := RdI32([b0, b1, b2, b3], 0);
    RdFrame(cst, off, [b0, b1, b2, b3], 0);
  }

  // ----- the kernels with weights behind the window -----

  /** `gather` with the table in the window. */
  method WindowGather(win: Window, act: array<byte>, ghost cst: seq<byte>, src: nat, dim: nat, out: nat)
    requires Steady(win, cst) && act != win.base && act != win.dev
    requires src + dim <= win.npages * win.page && src + dim <= |cst| && out + dim <= act.Length
    modifies win, win.state, win.prot, win.base, act
    ensures Steady(win, cst) && act[..] == Splice(old(act[..]), out, cst[src..src + dim])
  {
    hide Steady, Splice;
    ghost var was := act[..];
    SpliceNothing(was, out);
    assert cst[src..src] == [];
    var i := 0;
    while i < dim
      invariant i <= dim && Steady(win, cst) && act[..] == Splice(was, out, cst[src..src + i])
    {
      var b := Peek(win, cst, src + i);
      ghost var cur := act[..];
      act[out + i] := b;
      assert act[..] == Splice(cur, out + i, [b]) by { PutIs(cur, out + i, b); }
      SpliceSplice(was, out, cst[src..src + i], [b]);
      assert cst[src..src + i] + [b] == cst[src..src + (i + 1)];
      i := i + 1;
    }
  }

  lemma PutIs(s: seq<byte>, a: nat, b: byte)
    requires a < |s|
    ensures s[a := b] == Splice(s, a, [b])
  {
  }

  /** The inner loop of `fc_acc`: weights through the window, activations in the arena. */
  method WindowRowDot(win: Window, act: array<byte>, ghost cst: seq<byte>, row: nat, x: nat, K: nat) returns (a: int)
    requires Steady(win, cst) && act != win.base && act != win.dev
    requires row + K <= win.npages * win.page && row + K <= |cst| && x + K <= act.Length
    modifies win, win.state, win.prot, win.base
    ensures Steady(win, cst) && a == DotAt(cst, row, act[..], x, K)
  {
    hide Steady, Wrap32, S8;
    a := 0;
    var k := 0;
    while k < K
      invariant k <= K && Steady(win, cst) && a == DotAt(cst, row, act[..], x, k)
    {
      var w := Peek(win, cst, row + k);
      a := Wrap32(a + S8(w) * S8(act[x + k]));
      k := k + 1;
    }
  }

  /** Accumulators of the first m rows in place, everything else as in `mem`. */
  ghost predicate AccRows(L: Layer, cst: seq<byte>, mem: seq<byte>, now: seq<byte>, m: nat)
    requires FcPlaced(L, |cst|, |mem|) && m <= L.Mpad
  {
    && |now| == |mem|
    && (forall i :: 0 <= i < |mem| && !(L.accAddr <= i < L.accAddr + 4 * L.Mpad) ==> now[i] == mem[i])
    && (forall j: nat :: j < m ==> RdI32(now, L.accAddr + 4 * j) == FcDot(L, cst, mem, j))
  }

  lemma AccRowNext(L: Layer, cst: seq<byte>, mem: seq<byte>, now: seq<byte>, m: nat, a: int)
    requires FcPlaced(L, |cst|, |mem|) && m < L.Mpad && AccRows(L, cst, mem, now, m)
    requires 0 <= m * L.Kpad && L.wAddr + m * L.Kpad + L.Kpad <= |cst|
    requires a == DotAt(cst, L.wAddr + m * L.Kpad, now, L.inAddr, L.Kpad)
    ensures AccRows(L, cst, mem, Splice(now, L.accAddr + 4 * m, Le32(a)), m + 1)
  {
    hide RdI32, DotAt, Le32, Apart;
    var next := Splice(now, L.accAddr + 4 * m, Le32(a));
    DotSame(L, cst, mem, now, m);
    assert next[L.accAddr + 4 * m..L.accAddr + 4 * m + 4] == Le32(a);
    Le32RoundTrip(next, L.accAddr + 4 * m, a);
    forall j: nat | j < m
      ensures RdI32(next, L.accAddr + 4 * j) == FcDot(L, cst, mem, j)
    {
      RdFrame(next, L.accAddr + 4 * j, now, L.accAddr + 4 * j);
    }
  }

  /** The accumulators written so far do not reach the activations. */
  lemma DotSame(L: Layer, cst: seq<byte>, mem: seq<byte>, now: seq<byte>, m: nat)
    requires FcPlaced(L, |cst|, |mem|) && m < L.Mpad && |now| == |mem|
    requires forall i :: 0 <= i < |mem| && !(L.accAddr <= i < L.accAddr + 4 * L.Mpad) ==> now[i] == mem[i]
    requires 0 <= m * L.Kpad && L.wAddr + m * L.Kpad + L.Kpad <= |cst|
    ensures DotAt(cst, L.wAddr + m * L.Kpad, now, L.inAddr, L.Kpad) == FcDot(L, cst, mem, m)
  {
    hide DotAt;
    DotAgree(cst, L.wAddr + m * L.Kpad, now, L.inAddr, cst, L.wAddr + m * L.Kpad, mem, L.inAddr, L.Kpad, L.Kpad);
  }

  method WindowFcAcc(win: Window, act: array<byte>, ghost cst: seq<byte>, L: Layer)
    requires Steady(win, cst) && act != win.base && act != win.dev
    requires FcPlaced(L, |cst|, act.Length) && L.wAddr + L.Mpad * L.Kpad <= win.npages * win.page
    modifies win, win.state, win.prot, win.base, act
    ensures Steady(win, cst) && AccRows(L, cst, old(act[..]), act[..], L.Mpad)
  {
    hide Steady, AccRows, Splice, Le32, DotAt, FcPlaced;
    ghost var was := act[..];
    AccRowsNone(L, cst, was);
    FcPlacedFacts(L, |cst|, act.Length);
    var m, row := 0, L.wAddr;
    while m < L.Mpad
      invariant m <= L.Mpad && row == L.wAddr + m * L.Kpad && Steady(win, cst) && AccRows(L, cst, was, act[..], m)
    {
      RowBound(m, L.Mpad, L.Kpad);
      var a := WindowRowDot(win, act, cst, row, L.inAddr, L.Kpad);
      AccRowNext(L, cst, was, act[..], m, a);
      Store32(act, L.accAddr + 4 * m, a);
      m, row := m + 1, row + L.Kpad;
      assert (m - 1) * L.Kpad + L.Kpad == m * L.Kpad;
    }
  }

  lemma AccRowsNone(L: Layer, cst: seq<byte>, mem: seq<byte>)
    requires FcPlaced(L, |cst|, |mem|)
    ensures AccRows(L, cst, mem, mem, 0)
  {
  }

  lemma FcPlacedFacts(L: Layer, cst: nat, mem: nat)
    requires FcPlaced(L, cst, mem)
    ensures L.Fc? && L.wAddr + L.Mpad * L.Kpad <= cst && L.inAddr + L.Kpad <= mem && L.accAddr + 4 * L.Mpad <= mem
    ensures L.bAddr + 4 * L.Mpad <= cst && (L.final || L.outAddr + L.Mpad <= mem)
  {
  }

  /** Requantised bytes of the first n rows in place, everything else as in `mid`. */
  ghost predicate EpiRows(L: Layer, cst: seq<byte>, mid: seq<byte>, now: seq<byte>, n: nat)
    requires FcPlaced(L, |cst|, |mid|) && !L.final && n <= L.Mpad
  {
    && |now| == |mid|
    && (forall i :: 0 <= i < |mid| && !(L.outAddr <= i < L.outAddr + L.Mpad) ==> now[i] == mid[i])
    && (forall j: nat :: j < n ==>
          now[L.outAddr + j] == U8(Epi(RdI32(mid, L.accAddr + 4 * j), RdI32(cst, L.bAddr + 4 * j), L.mult, L.shift,
            L.relu)))
  }

  lemma EpiRowNext(L: Layer, cst: seq<byte>, mid: seq<byte>, now: seq<byte>, n: nat, a: int, b: byte)
    requires FcPlaced(L, |cst|, |mid|) && !L.final && n < L.Mpad && EpiRows(L, cst, mid, now, n)
    requires a == RdI32(now, L.accAddr + 4 * n)
    requires b == U8(Epi(a, RdI32(cst, L.bAddr + 4 * n), L.mult, L.shift, L.relu))
    ensures EpiRows(L, cst, mid, now[L.outAddr + n := b], n + 1)
  {
    hide RdI32, Epi, U8;
    WordKept(mid, now, L.outAddr, L.Mpad, L.accAddr + 4 * n);
  }

  method WindowEpilogue(win: Window, act: array<byte>, ghost cst: seq<byte>, L: Layer)
    requires Steady(win, cst) && act != win.base && act != win.dev
    requires FcPlaced(L, |cst|, act.Length) && !L.final && L.bAddr + 4 * L.Mpad <= win.npages * win.page
    modifies win, win.state, win.prot, win.base, act
    ensures Steady(win, cst) && EpiRows(L, cst, old(act[..]), act[..], L.Mpad)
  {
    hide Steady, EpiRows, RdI32, Epi, U8, FcPlaced;
    ghost var mid := act[..];
    EpiRowsNone(L, cst, mid);
    FcPlacedFacts(L, |cst|, act.Length);
    var i := 0;
    while i < L.Mpad
      invariant i <= L.Mpad && Steady(win, cst) && EpiRows(L, cst, mid, act[..], i)
    {
      ghost var now := act[..];
      var a := Load32(act, L.accAddr + 4 * i);
      var b := PeekWord(win, cst, L.bAddr + 4 * i);
      var v := U8(Epi(a, b, L.mult, L.shift, L.relu));
      EpiRowNext(L, cst, mid, now, i, a, v);
      act[L.outAddr + i] := v;
      assert act[..] == now[L.outAddr + i := v];
      i := i + 1;
    }
  }

  lemma EpiRowsNone(L: Layer, cst: seq<byte>, mid: seq<byte>)
    requires FcPlaced(L, |cst|, |mid|) && !L.final
    ensures EpiRows(L, cst, mid, mid, 0)
  {
  }

  lemma FinalRows(L: Layer, cst: seq<byte>, mem: seq<byte>, now: seq<byte>)
    requires FcPlaced(L, |cst|, |mem|) && L.final && AccRows(L, cst, mem, now, L.Mpad)
    ensures Effect(L, cst, mem, now)
  {
    hide RdI32, FcDot, Apart;
  }

  /** Both loops together are the effect of a hidden layer. */
  lemma HiddenRows(L: Layer, cst: seq<byte>, mem: seq<byte>, mid: seq<byte>, now: seq<byte>)
    requires FcPlaced(L, |cst|, |mem|) && !L.final && AccRows(L, cst, mem, mid, L.Mpad)
             && EpiRows(L, cst, mid, now, L.Mpad)
    ensures Effect(L, cst, mem, now)
  {
    hide RdI32, FcDot, Epi, U8;
    forall m: nat | m < L.Mpad
      ensures RdI32(now, L.accAddr + 4 * m) == FcDot(L, cst, mem, m)
    {
      WordKept(mid, now, L.outAddr, L.Mpad, L.accAddr + 4 * m);
    }
  }

  // ----- the executor -----

  class PoolExecutor {
    const link: Link
    const prefetch: nat
    const warm: bool
    const page: nat
    var win: Window?
    var act: array<byte>

    constructor (link: Link, prefetch: nat, warm: bool, page: nat)
      ensures this.link == link && this.prefetch == prefetch && this.warm == warm && this.page == page
      ensures win == null && fresh(act)
    {
      this.link, this.prefetch, this.warm, this.page := link, prefetch, warm, page;
      win := null;
      act := new byte[0];
    }

    /** The window and its arrays. */
    ghost function Parts(): set<object>
      reads this
    {
      if win == null then {} else {win, win.state, win.prot, win.base}
    }

    /** Prepared for p: a resident program loaded on the device and a clean window over it. */
    ghost predicate Ready(p: Program)
      reads this, Parts(), act, link, link.t, link.t.ddr2
    {
      && win != null && win.dev == link.t.ddr2 && win.base != win.dev && act != win.base && act != win.dev
      && Steady(win, link.t.ddr2[..]) && p.layoutEnd <= win.npages * win.page && p.layoutEnd <= act.Length
      && !p.streaming && ConstOk(p, link.t.ddr2[..])
    }

    /** A streaming program is refused; otherwise the image is loaded and a window created over it. */
    method Prepare(p: Program) returns (ok: bool)
      requires WellFormed(p) && link.Quiet() && page > 0 && CeilDiv(p.layoutEnd, page) * page <= link.t.ddr2.Length
      modifies this, link`linkMsgs, link.t, link.t.ddr2, link.t.rx
      ensures ok == !p.streaming
      ensures ok ==> Ready(p) && link.Quiet() && fresh(Parts()) && fresh(act)
    {
      hide WellFormed, ConstOk, Coherent, ViewOf, PageOf, Fits;
      if p.streaming {
        return false;
      }
      RoundedUp(p.layoutEnd, page);
      ok := NmcMode.LoadImage(link, p);
      if !ok {
        return;
      }
      win := new Window(p.layoutEnd, 0, prefetch, false, link.t.ddr2, page);
      act := new byte[p.layoutEnd + 64](_ => 0);
    }

    /** `reset_between_iterations`: a cold window drops every page. */
    method Reset(p: Program)
      requires Ready(p)
      modifies Parts()
      ensures Ready(p) && win == old(win) && Parts() == old(Parts())
      ensures warm ==> win.View() == old(win.View())
      ensures !warm ==> forall q :: 0 <= q < win.npages ==> win.View()[q].state == Invalid
    {
      hide ConstOk, Coherent, ViewOf, PageOf, Fits, OnPage;
      if !warm {
        ghost var w := win.View();
        win.StatesOf();
        var rc := win.InvalidateRange(0, 0);
        forall q | 0 <= q < win.npages
          ensures win.View()[q].state == Invalid
        {
          win.AllHit(q);
          assert Unwritten(w[q]);
          InvalidateUnwritten(w[q]);
        }
      }
    }

    /** The input loop of `run`. */
    method PutInputs(p: Program, feed: Feed) returns (ok: bool)
      requires WellFormed(p) && Ready(p) && Offered(p, feed)
      modifies act
      ensures Ready(p) && ok == AllThere(p, feed)
      ensures ok ==> FeedOk(p, feed) && ActOk(p, feed, 0, act[..])
    {
      hide WellFormed, ConstOk, Splice, ActOk, InputAt, Pad16, RdI32, Steady;
      var j := 0;
      while j < |p.inputs|
        invariant j <= |p.inputs| && Ready(p) && InputsUpTo(p, feed, j, act[..])
        invariant forall i :: 0 <= i < j ==> p.inputs[i].name in feed
      {
        if p.inputs[j].name !in feed {
          return false;
        }
        InputNext(p, feed, j, feed[p.inputs[j].name], act[..]);
        Copy(act, p.inputs[j].addr, feed[p.inputs[j].name]);
        j := j + 1;
      }
      assert FeedOk(p, feed);
      InputsReady(p, feed, act[..]);
      ok := true;
    }

    /** One iteration of the layer loop. */
    method RunLayer(p: Program, feed: Feed, n: nat)
      requires WellFormed(p) && FeedOk(p, feed) && n < |p.layers| && Ready(p) && ActOk(p, feed, n, act[..])
      modifies act, Parts()
      ensures Ready(p) && ActOk(p, feed, n + 1, act[..])
    {
      hide WellFormed, FeedOk, ConstOk, ConstAt, ActOk, Splice, Effect, LayerConst, Steady, AccRows, EpiRows, FcPlaced;
      ghost var cst, start := link.t.ddr2[..], act[..];
      NotStreamed(p, n);
      ResidentLayer(p, n, cst);
      var L := p.layers[n];
      if L.Gather? {
        RunGather(p, feed, n);
      } else if L.Fc? {
        RunFc(p, feed, n);
      } else {
        ConcatEffect(L, cst, start);
      }
      LayerStep(p, feed, n, cst, start, act[..]);
    }

    method RunGather(p: Program, feed: Feed, n: nat)
      requires WellFormed(p) && FeedOk(p, feed) && n < |p.layers| && p.layers[n].Gather? && Ready(p)
      requires ActOk(p, feed, n, act[..]) && LayerConst(p, n, link.t.ddr2[..])
      modifies act, Parts()
      ensures Ready(p) && Effect(p.layers[n], link.t.ddr2[..], old(act[..]), act[..])
    {
      hide WellFormed, FeedOk, ConstOk, ActOk, Splice, Effect, LayerConst, Steady, RdI32, Rd32;
      ghost var cst, start := link.t.ddr2[..], act[..];
      var L := p.layers[n];
      IndexAt(p, feed, n, start);
      TableFits(p, feed, n, cst, start);
      TableBelow(p, feed, n, start);
      var idx := Load32(act, L.idxAddr);
      var src := L.tableAddr + idx * L.dimBytes;
      GatherEffect(L, cst, start, src, cst[src..src + L.dim]);
      WindowGather(win, act, cst, src, L.dim, L.outAddr);
    }

    method RunFc(p: Program, feed: Feed, n: nat)
      requires WellFormed(p) && FeedOk(p, feed) && n < |p.layers| && p.layers[n].Fc? && Ready(p)
      requires ActOk(p, feed, n, act[..]) && LayerConst(p, n, link.t.ddr2[..])
      modifies act, Parts()
      ensures Ready(p) && Effect(p.layers[n], link.t.ddr2[..], old(act[..]), act[..])
    {
      hide WellFormed, FeedOk, ConstOk, ActOk, Effect, LayerConst, Steady, AccRows, EpiRows, FcPlaced;
      ghost var cst, start := link.t.ddr2[..], act[..];
      var L := p.layers[n];
      FcPlace(p, feed, n, cst, start);
      FcBelow(p, n);
      WindowFcAcc(win, act, cst, L);
      if L.final {
        FinalRows(L, cst, start, act[..]);
      } else {
        ghost var mid := act[..];
        WindowEpilogue(win, act, cst, L);
        HiddenRows(L, cst, start, mid, act[..]);
      }
    }

    /** `PoolExecutor::run`. */
    method Run(p: Program, feed: Feed) returns (ok: bool, out: seq<int>)
      requires WellFormed(p) && Ready(p) && Offered(p, feed)
      modifies act, Parts()
      ensures Ready(p) && win == old(win) && ok == AllThere(p, feed)
      ensures ok ==> FeedOk(p, feed) && out == RefOutput(p, feed)
    {
      hide WellFormed, FeedOk, ConstOk, ActOk, AllThere, InputFed, OutputIndex, RefOutput, Steady;
      out := [];
      ok := PutInputs(p, feed);
      if !ok {
        return;
      }
      var n := 0;
      while n < |p.layers|
        invariant n <= |p.layers| && Ready(p) && ActOk(p, feed, n, act[..])
      {
        RunLayer(p, feed, n);
        n := n + 1;
      }
      var f := FindOutput(p);
      out := ReadResult(p, feed, f);
    }

    method ReadResult(p: Program, feed: Feed, f: nat) returns (out: seq<int>)
      requires WellFormed(p) && FeedOk(p, feed) && f == OutputIndex(p) && Ready(p)
               && ActOk(p, feed, |p.layers|, act[..])
      modifies Parts()
      ensures Ready(p) && out == RefOutput(p, feed)
    {
      hide WellFormed, FeedOk, ActOk, ConstOk, LayerConst, RefOutput, OutputIndex, Wrap32, RdI32, Rd32, Steady;
      ghost var cst, mem := link.t.ddr2[..], act[..];
      NotStreamed(p, f);
      ResidentLayer(p, f, cst);
      FcBelow(p, f);
      var L := p.layers[f];
      out := [];
      while |out| < L.N
        invariant |out| <= L.N && out == RefOutput(p, feed)[..|out|] && Ready(p)
      {
        ResultAt(p, feed, mem, cst, |out|);
        var a := Load32(act, L.accAddr + 4 * |out|);
        var b := PeekWord(win, cst, L.bAddr + 4 * |out|);
        out := out + [Wrap32(a + b)];
      }
    }
  }

  lemma RoundedUp(n: nat, d: nat)
    requires d > 0
    ensures n <= CeilDiv(n, d) * d
  {
    var q, r := (n + d - 1) / d, (n + d - 1) % d;
    assert n + d - 1 == q * d + r;
  }

  lemma InvalidateUnwritten(g: Page)
    requires Unwritten(g)
    ensures OnPage(Invalidate, g, true).state == Invalid
  {
  }

  lemma NotStreamed(p: Program, n: nat)
    requires WellFormed(p) && n < |p.layers| && !p.streaming
    ensures p.layers[n].Fc? ==> !p.layers[n].stream
  {
    hide SegmentsOk, InputsOk, WritesOk, OutputOk, SegIs, Clear, Tiled, RowPadded, Shapes;
    assert LayerOk(p, n);
  }

  lemma TableBelow(p: Program, feed: Feed, n: nat, mem: seq<byte>)
    requires WellFormed(p) && FeedOk(p, feed) && n < |p.layers| && p.layers[n].Gather? && ActOk(p, feed, n, mem)
    ensures var L := p.layers[n]; L.tableAddr + RowAt(L, mem) * L.dimBytes + L.dimBytes <= p.layoutEnd
  {
    hide WellFormed, ActOk, RdI32, Rd32;
    var L := p.layers[n];
    IndexAt(p, feed, n, mem);
    GatherFacts(p, n);
    RowBound(RowAt(L, mem), L.rows, L.dimBytes);
    SegmentFits(p, FindSeg(p.segments, L.name, TableSeg));
  }

  lemma FcBelow(p: Program, n: nat)
    requires WellFormed(p) && n < |p.layers| && p.layers[n].Fc?
    ensures var L := p.layers[n]; L.wAddr + L.Mpad * L.Kpad <= p.layoutEnd && L.bAddr + 4 * L.Mpad <= p.layoutEnd
    ensures p.layers[n].N <= p.layers[n].Mpad
  {
    hide WellFormed, RowPadded, Shapes;
    var L := p.layers[n];
    FcSizes(p, n);
    FcFacts(p, n, 0);
    SegmentFits(p, FindSeg(p.segments, L.name, WeightSeg));
    SegmentFits(p, FindSeg(p.segments, L.name, BiasSeg));
  }
}
