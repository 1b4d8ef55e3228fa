/** Near-memory mode of executors.cpp: inputs, weights and engine requests go over the byte protocol, and
    every layer runs inside the virtual FPGA's DDR2. */
module NmcMode {
  import opened Bytes
  import opened Kernels
  import opened Program
  import opened Agreement
  import opened Steps
  import opened VirtualFpga
  import opened Link

  // ----- what one engine request does -----

  /** The lookup engine copies the whole padded row. */
  lemma GatherRequest(L: Layer, mem: seq<byte>)
    requires L.Gather? && L.idxAddr + 4 <= |mem| && Rd32(mem, L.idxAddr) == RdI32(mem, L.idxAddr)
    requires L.dimBytes % 16 == 0 && L.dim <= L.dimBytes && L.outAddr + L.dimBytes <= |mem|
    requires 0 <= RowAt(L, mem) * L.dimBytes && L.tableAddr + RowAt(L, mem) * L.dimBytes + L.dimBytes <= |mem|
    ensures Effect(L, mem, mem, ExecMem(mem, 1, L.tableAddr, L.rows, L.dimBytes, L.idxAddr, 1, L.outAddr))
  {
    hide Rd32, RdI32, Splice, Effect, FcEngine, ElementEngine;
    var src := L.tableAddr + RowAt(L, mem) * L.dimBytes;
    assert L.dimBytes / 16 * 16 == L.dimBytes;
    assert RowOk(mem, L.tableAddr, L.dimBytes, L.idxAddr, L.outAddr, 0);
    var mem' := Splice(mem, L.outAddr, mem[src..src + L.dimBytes]);
    assert EmbedFrom(mem, L.tableAddr, L.dimBytes, L.idxAddr, 1, L.outAddr, 0) ==
           EmbedFrom(mem', L.tableAddr, L.dimBytes, L.idxAddr, 1, L.outAddr, 1) == mem';
    GatherEffect(L, mem, mem, src, mem[src..src + L.dimBytes]);
  }

  /** The matrix engine runs `fc_acc`. */
  lemma FcRequest(L: Layer, mem: seq<byte>)
    requires FcPlaced(L, |mem|, |mem|)
    ensures ExecMem(mem, 2, L.wAddr, L.Mpad, L.Kpad, L.inAddr, 0, L.accAddr) ==
            FcAccRun(mem, L.wAddr, L.Kpad, L.inAddr, L.accAddr, L.Mpad)
  {
    hide FcAccRun, EmbedFrom, ElementEngine;
  }

  /** The word an epilogue request packs op, shift and ReLU into. */
  function EpilogueField(shift: nat, relu: bool): (f: nat)
    requires shift <= 31
    ensures f < TWO32 && f % 8 == 4 && f / 256 % 256 % 32 == shift && (f / 256 % 256 / 128 == 1 <==> relu)
  {
    4 + 256 * ((if relu then 128 else 0) + shift % 32)
  }

  /** The element engine clears the output words and runs `epilogue` over all of them. */
  lemma EpilogueRequest(L: Layer, mem: seq<byte>)
    requires FcPlaced(L, |mem|, |mem|) && !L.final && L.Mpad % 16 == 0 && 0 <= L.mult <= 32767 && L.shift <= 31
    ensures ExecMem(mem, 3, EpilogueField(L.shift, L.relu), L.Mpad / 4, L.bAddr, L.accAddr, L.mult, L.outAddr) ==
            EpiRun(Splice(mem, L.outAddr, Zeros(L.Mpad)), L.accAddr, L.bAddr, L.mult, L.shift, L.relu, L.outAddr,
              L.Mpad)
  {
    hide EpiRun, EmbedFrom, FcEngine, ByteRun, Splice, EpilogueField, Sext16, Apart;
    WholeWords(L.Mpad);
    SmallMult(L.mult);
  }

  lemma WholeWords(M: nat)
    requires M % 16 == 0
    ensures 4 * (M / 4) == M && 16 * (M / 4) == 4 * M && 16 * ((M / 4 + 3) / 4) == M
  {
    var k := M / 16;
    DivModUnique(M, 4, 4 * k, 0);
    DivModUnique(4 * k + 3, 4, k, 3);
  }

  lemma SmallMult(mult: int)
    requires 0 <= mult <= 32767
    ensures Sext16(mult) == mult
  {
  }

  /** Matrix request and epilogue request together are the effect of a hidden layer. */
  lemma HiddenRequests(L: Layer, mem: seq<byte>)
    requires FcPlaced(L, |mem|, |mem|) && !L.final && L.Mpad % 16 == 0 && 0 <= L.mult <= 32767 && L.shift <= 31
    ensures var acc := ExecMem(mem, 2, L.wAddr, L.Mpad, L.Kpad, L.inAddr, 0, L.accAddr);
            Effect(L, mem, mem,
                   ExecMem(acc, 3, EpilogueField(L.shift, L.relu), L.Mpad / 4, L.bAddr, L.accAddr, L.mult, L.outAddr))
  {
    hide FcAccRun, EpiRun, ExecMem, Effect;
    FcRequest(L, mem);
    var acc := FcAccRun(mem, L.wAddr, L.Kpad, L.inAddr, L.accAddr, L.Mpad);
    EpilogueRequest(L, acc);
    HiddenEffect(L, mem, Splice(acc, L.outAddr, Zeros(L.Mpad)));
  }

  // ----- the executor -----

  class NmcExecutor {
    const link: Link
    var biasLast: seq<int>

    constructor (link: Link)
      ensures this.link == link
    {
      this.link := link;
      biasLast := [];
    }

    /** The biases of the output layer, as `prepare` copies them from the image. */
    ghost predicate BiasCopied(p: Program)
      requires WellFormed(p)
      reads this
    {
      var f := OutputIndex(p);
      LayerOkAt(p, f);
      |biasLast| == p.layers[f].Mpad && forall m :: 0 <= m < p.layers[f].Mpad ==> biasLast[m] == BiasOf(p, f, m)
    }

    /** Prepared for p: an idle link to a device that holds every resident constant. */
    ghost predicate Ready(p: Program)
      requires WellFormed(p)
      reads this, link, link.t, link.t.rx, link.t.ddr2
    {
      link.Quiet() && p.layoutEnd <= link.t.ddr2.Length && ConstOk(p, link.t.ddr2[..]) && BiasCopied(p)
    }

    /** `load_image`, then the output layer's biases from the image. */
    method Prepare(p: Program) returns (ok: bool)
      requires WellFormed(p) && link.Quiet() && p.layoutEnd <= link.t.ddr2.Length
      modifies this, link`linkMsgs, link.t, link.t.ddr2, link.t.rx
      ensures ok && Ready(p)
    {
      hide WellFormed, OutputIndex, Splice, ConstOk, BiasOf;
      ok := LoadImage(link, p);
      if !ok {
        return;
      }
      var f := FindOutput(p);
      biasLast := BiasWords(p, f);
    }

    method BiasWords(p: Program, f: nat) returns (words: seq<int>)
      requires WellFormed(p) && f == OutputIndex(p)
      ensures LayerOk(p, f) && |words| == p.layers[f].Mpad
      ensures forall m :: 0 <= m < p.layers[f].Mpad ==> words[m] == BiasOf(p, f, m)
    {
      hide WellFormed, OutputIndex, BiasOf;
      LayerOkAt(p, f);
      words := [];
      while |words| < p.layers[f].Mpad
        invariant |words| <= p.layers[f].Mpad
        invariant forall m :: 0 <= m < |words| ==> words[m] == BiasOf(p, f, m)
      {
        words := words + [BiasWord(p, f, |words|)];
      }
    }

    /** The input loop of `run`: each input zero-padded to whole 16-byte words. */
    method PutInputs(p: Program, feed: Feed) returns (ok: bool)
      requires WellFormed(p) && Ready(p) && Offered(p, feed)
      modifies link`linkMsgs, link.t, link.t.ddr2, link.t.rx
      ensures Ready(p) && ok == AllThere(p, feed)
      ensures ok ==> FeedOk(p, feed) && ActOk(p, feed, 0, link.t.ddr2[..])
    {
      hide WellFormed, ConstOk, Splice, ActOk, InputAt, Pad16, RdI32, BiasCopied;
      var j := 0;
      while j < |p.inputs|
        invariant j <= |p.inputs| && Ready(p) && InputsUpTo(p, feed, j, link.t.ddr2[..])
        invariant forall i :: 0 <= i < j ==> p.inputs[i].name in feed
      {
        if p.inputs[j].name !in feed {
          return false;
        }
        var data := feed[p.inputs[j].name];
        var padded := data + Zeros(Pad16(|data|) - |data|);
        assert InputFed(p.inputs[j], feed);
        InputNext(p, feed, j, padded, link.t.ddr2[..]);
        InputKeepsConst(p, j, padded, link.t.ddr2[..]);
        InputFits(p, j);
        Below(p);
        ok := link.Write(p.inputs[j].addr, padded);
        if !ok {
          return;
        }
        j := j + 1;
      }
      assert FeedOk(p, feed);
      InputsReady(p, feed, link.t.ddr2[..]);
      ok := true;
    }

    /** `stream_layer`: the weights of one layer downloaded before it runs. */
    method StreamLayer(p: Program, feed: Feed, n: nat) returns (ok: bool)
      requires WellFormed(p) && FeedOk(p, feed) && n < |p.layers| && Ready(p) && ActOk(p, feed, n, link.t.ddr2[..])
      modifies link`linkMsgs, link.t, link.t.ddr2, link.t.rx
      ensures ok && Ready(p) && ActOk(p, feed, n, link.t.ddr2[..]) && LayerConst(p, n, link.t.ddr2[..])
    {
      hide WellFormed, FeedOk, ConstOk, ConstAt, Splice, ActOk, SegBytes, BiasCopied;
      var i := 0;
      while i < |p.segments|
        invariant i <= |p.segments| && Ready(p) && ActOk(p, feed, n, link.t.ddr2[..])
                  && StreamedUpTo(p, n, i, link.t.ddr2[..])
      {
        if p.segments[i].layer == p.layers[n].name {
          StreamNext(p, n, i, link.t.ddr2[..]);
          StreamKeepsConst(p, i, link.t.ddr2[..]);
          StreamStep(p, feed, n, i, link.t.ddr2[..]);
          SegmentFits(p, i);
          Below(p);
          ok := link.Write(p.segments[i].addr, SegBytes(p, i));
          if !ok {
            return;
          }
        }
        i := i + 1;
      }
      ok := true;
    }

    /** One iteration of the layer loop. */
    method RunLayer(p: Program, feed: Feed, n: nat) returns (ok: bool)
      requires WellFormed(p) && FeedOk(p, feed) && n < |p.layers| && Ready(p) && ActOk(p, feed, n, link.t.ddr2[..])
      modifies link`linkMsgs, link.t, link.t.ddr2, link.t.rx
      ensures ok && Ready(p) && ActOk(p, feed, n + 1, link.t.ddr2[..])
    {
      hide WellFormed, FeedOk, ConstOk, ConstAt, ActOk, Splice, Effect, LayerConst, BiasCopied;
      var L := p.layers[n];
      ok := true;
      if L.Fc? && L.stream {
        ok := StreamLayer(p, feed, n);
        if !ok {
          return;
        }
      } else {
        ResidentLayer(p, n, link.t.ddr2[..]);
      }
      ghost var start := link.t.ddr2[..];
      if L.Gather? {
        ok := RunGather(p, feed, n);
      } else if L.Fc? {
        ok := RunFc(p, feed, n);
      } else {
        ConcatEffect(L, start, start);
      }
      if !ok {
        return;
      }
      LayerStep(p, feed, n, start, start, link.t.ddr2[..]);
      EffectFrame(L, start, start, link.t.ddr2[..]);
      FrameKeepsConsts(p, n, start, link.t.ddr2[..]);
    }

    method RunGather(p: Program, feed: Feed, n: nat) returns (ok: bool)
      requires WellFormed(p) && FeedOk(p, feed) && n < |p.layers| && p.layers[n].Gather? && link.Quiet()
      requires ActOk(p, feed, n, link.t.ddr2[..]) && LayerConst(p, n, link.t.ddr2[..])
      modifies link`linkMsgs, link.t, link.t.ddr2, link.t.rx
      ensures ok && link.Quiet() && Effect(p.layers[n], old(link.t.ddr2[..]), old(link.t.ddr2[..]), link.t.ddr2[..])
    {
      hide WellFormed, FeedOk, ActOk, Splice, Effect, LayerConst, RdI32, Rd32, ExecMem;
      var L := p.layers[n];
      IndexAt(p, feed, n, link.t.ddr2[..]);
      TableFits(p, feed, n, link.t.ddr2[..], link.t.ddr2[..]);
      GatherRequest(L, link.t.ddr2[..]);
      GatherWords(p, n);
      ok := link.Nmc(1, L.tableAddr, L.rows, L.dimBytes, L.idxAddr, 1, L.outAddr);
    }

    method RunFc(p: Program, feed: Feed, n: nat) returns (ok: bool)
      requires WellFormed(p) && FeedOk(p, feed) && n < |p.layers| && p.layers[n].Fc? && link.Quiet()
      requires ActOk(p, feed, n, link.t.ddr2[..]) && LayerConst(p, n, link.t.ddr2[..])
      modifies link`linkMsgs, link.t, link.t.ddr2, link.t.rx
      ensures ok && link.Quiet() && Effect(p.layers[n], old(link.t.ddr2[..]), old(link.t.ddr2[..]), link.t.ddr2[..])
    {
      hide WellFormed, FeedOk, ActOk, Effect, LayerConst, ExecMem, EpilogueField, FcPlaced;
      var L := p.layers[n];
      FcPlace(p, feed, n, link.t.ddr2[..], link.t.ddr2[..]);
      FcWords(p, n);
      ghost var start := link.t.ddr2[..];
      ok := link.Nmc(2, L.wAddr, L.Mpad, L.Kpad, L.inAddr, 0, L.accAddr);
      if !ok {
        return;
      }
      if L.final {
        FcRequest(L, start);
        FinalEffect(L, start);
      } else {
        HiddenRequests(L, start);
        ok := link.Nmc(3, EpilogueField(L.shift, L.relu), L.Mpad / 4, L.bAddr, L.accAddr, L.mult, L.outAddr);
      }
    }

    /** `NmcExecutor::run`. */
    method Run(p: Program, feed: Feed) returns (ok: bool, out: seq<int>)
      requires WellFormed(p) && Ready(p) && Offered(p, feed)
      modifies link`linkMsgs, link.t, link.t.ddr2, link.t.rx
      ensures Ready(p) && ok == AllThere(p, feed)
      ensures ok ==> FeedOk(p, feed) && out == RefOutput(p, feed)
    {
      hide WellFormed, FeedOk, ConstOk, ActOk, AllThere, InputFed, OutputIndex, RefOutput, BiasCopied;
      out := [];
      ok := PutInputs(p, feed);
      if !ok {
        return;
      }
      var n := 0;
      while n < |p.layers|
        invariant n <= |p.layers| && Ready(p) && ActOk(p, feed, n, link.t.ddr2[..])
      {
        ok := RunLayer(p, feed, n);
        if !ok {
          return;
        }
        n := n + 1;
      }
      var f := FindOutput(p);
      ok, out := ReadResult(p, feed, f);
    }

    method ReadResult(p: Program, feed: Feed, f: nat) returns (ok: bool, out: seq<int>)
      requires WellFormed(p) && FeedOk(p, feed) && f == OutputIndex(p) && Ready(p)
      requires ActOk(p, feed, |p.layers|, link.t.ddr2[..])
      modifies link`linkMsgs, link.t, link.t.ddr2, link.t.rx
      ensures ok && Ready(p) && out == RefOutput(p, feed)
    {
      hide WellFormed, FeedOk, ActOk, ConstOk, RefOutput, OutputIndex, Wrap32, RdI32, Rd32, BiasOf;
      var L := p.layers[f];
      AccFits(p, f);
      Below(p);
      ghost var mem := link.t.ddr2[..];
      var acc;
      ok, acc := link.Read(L.accAddr, 4 * L.N);
      if !ok {
        return false, [];
      }
      out := AddBias(p, feed, f, acc, mem);
    }

    lemma OutputWord(p: Program, feed: Feed, f: nat, acc: seq<byte>, mem: seq<byte>, m: nat)
      requires WellFormed(p) && FeedOk(p, feed) && f == OutputIndex(p) && BiasCopied(p)
               && ActOk(p, feed, |p.layers|, mem)
      requires m < p.layers[f].N && p.layers[f].accAddr + 4 * p.layers[f].N <= |mem|
      requires acc == mem[p.layers[f].accAddr..p.layers[f].accAddr + 4 * p.layers[f].N]
      ensures 4 * m + 4 <= |acc| && m < |biasLast|
      ensures RefOutput(p, feed)[m] == Wrap32(RdI32(acc, 4 * m) + biasLast[m])
    {
      hide WellFormed, FeedOk, ActOk, RefOutput, OutputIndex, Wrap32, RdI32, Rd32, BiasOf;
      ResultFrom(p, feed, mem, m);
      RdFrame(acc, 4 * m, mem, p.layers[f].accAddr + 4 * m);
    }

    method AddBias(p: Program, feed: Feed, f: nat, acc: seq<byte>, ghost mem: seq<byte>) returns (out: seq<int>)
      requires WellFormed(p) && FeedOk(p, feed) && f == OutputIndex(p) && BiasCopied(p)
               && ActOk(p, feed, |p.layers|, mem)
      requires p.layers[f].accAddr + 4 * p.layers[f].N <= |mem|
      requires acc == mem[p.layers[f].accAddr..p.layers[f].accAddr + 4 * p.layers[f].N]
      ensures out == RefOutput(p, feed)
    {
      hide WellFormed, FeedOk, ActOk, RefOutput, OutputIndex, Wrap32, RdI32, Rd32, BiasOf, BiasCopied;
      var L := p.layers[f];
      out := [];
      while |out| < L.N
        invariant |out| <= L.N && out == RefOutput(p, feed)[..|out|]
      {
        OutputWord(p, feed, f, acc, mem, |out|);
        out := out + [Wrap32(RdI32(acc, 4 * |out|) + biasLast[|out|])];
      }
    }
  }

  /** `Link::load_image`: every segment that is not streamed, in order. */
  method LoadImage(link: Link, p: Program) returns (ok: bool)
    requires WellFormed(p) && link.Quiet() && p.layoutEnd <= link.t.ddr2.Length
    modifies link`linkMsgs, link.t, link.t.ddr2, link.t.rx
    ensures ok && link.Quiet() && ConstOk(p, link.t.ddr2[..])
  {
    hide WellFormed, ConstAt, SegBytes, Splice;
    var i := 0;
    while i < |p.segments|
      invariant i <= |p.segments| && link.Quiet() && LoadedUpTo(p, i, link.t.ddr2[..])
    {
      LoadNext(p, i, link.t.ddr2[..]);
      if Resident(p, i) {
        SegmentFits(p, i);
        Below(p);
        ok := link.Write(p.segments[i].addr, SegBytes(p, i));
        if !ok {
          return;
        }
      }
      i := i + 1;
    }
    ok := true;
  }
}
