/** Host mode of executors.cpp: every tensor at its DDR2 address in one host arena. */
module HostMode {
  import opened Bytes
  import opened Kernels
  import opened Program
  import opened Agreement
  import opened Steps

  class HostExecutor {
    var mem: array<byte>

    constructor ()
      ensures fresh(mem)
    {
      mem := new byte[0];
    }

    /** Prepared for p: resident constants loaded in an arena of sufficient size. */
    ghost predicate Ready(p: Program)
      reads this, mem
    {
      p.layoutEnd <= mem.Length && ConstOk(p, mem[..])
    }

    method Prepare(p: Program)
      requires WellFormed(p)
      modifies this
      ensures fresh(mem) && Ready(p)
    {
      hide WellFormed, ConstAt, SegBytes, Splice;
      mem := new byte[p.layoutEnd + 64](_ => 0);
      var i := 0;
      while i < |p.segments|
        invariant i <= |p.segments| && fresh(mem) && p.layoutEnd <= mem.Length && LoadedUpTo(p, i, mem[..])
      {
        LoadNext(p, i, mem[..]);
        if Resident(p, i) {
          Copy(mem, p.segments[i].addr, SegBytes(p, i));
        }
        i := i + 1;
      }
    }

    /** The input loop of `run`: stops with false at the first missing input. */
    method PutInputs(p: Program, feed: Feed) returns (ok: bool)
      requires WellFormed(p) && Ready(p) && Offered(p, feed)
      modifies mem
      ensures Ready(p) && ok == AllThere(p, feed)
      ensures ok ==> FeedOk(p, feed) && ActOk(p, feed, 0, mem[..])
    {
      hide WellFormed, ConstOk, Splice, ActOk, InputAt, Pad16, RdI32;
      var j := 0;
      while j < |p.inputs|
        invariant j <= |p.inputs| && Ready(p) && InputsUpTo(p, feed, j, mem[..])
        invariant forall i :: 0 <= i < j ==> p.inputs[i].name in feed
      {
        if p.inputs[j].name !in feed {
          return false;
        }
        InputNext(p, feed, j, feed[p.inputs[j].name], mem[..]);
        InputKeepsConst(p, j, feed[p.inputs[j].name], mem[..]);
        Copy(mem, p.inputs[j].addr, feed[p.inputs[j].name]);
        j := j + 1;
      }
      assert FeedOk(p, feed);
      InputsReady(p, feed, mem[..]);
      ok := true;
    }

    /** The weights of a streamed layer copied in before it runs. */
    method StreamLayer(p: Program, feed: Feed, n: nat)
      requires WellFormed(p) && FeedOk(p, feed) && n < |p.layers| && Ready(p) && ActOk(p, feed, n, mem[..])
      modifies mem
      ensures Ready(p) && ActOk(p, feed, n, mem[..]) && LayerConst(p, n, mem[..])
    {
      hide WellFormed, FeedOk, ConstOk, ConstAt, Splice, ActOk, SegBytes;
      var i := 0;
      while i < |p.segments|
        invariant i <= |p.segments| && Ready(p) && ActOk(p, feed, n, mem[..]) && StreamedUpTo(p, n, i, mem[..])
      {
        if p.segments[i].layer == p.layers[n].name {
          StreamNext(p, n, i, mem[..]);
          StreamKeepsConst(p, i, mem[..]);
          StreamStep(p, feed, n, i, mem[..]);
          Copy(mem, p.segments[i].addr, SegBytes(p, i));
        }
        i := i + 1;
      }
    }

    /** One iteration of the layer loop. */
    method RunLayer(p: Program, feed: Feed, n: nat)
      requires WellFormed(p) && FeedOk(p, feed) && n < |p.layers| && Ready(p) && ActOk(p, feed, n, mem[..])
      modifies mem
      ensures Ready(p) && ActOk(p, feed, n + 1, mem[..])
      ensures n == OutputIndex(p) || (n > OutputIndex(p) && old(LayerConst(p, OutputIndex(p), mem[..]))) ==>
                LayerConst(p, OutputIndex(p), mem[..])
    {
      hide WellFormed, FeedOk, ConstOk, ConstAt, ActOk, Splice, Effect, LayerConst, FcAccRun, EpiRun, FcPlaced,
           OutputIndex;
      if n > OutputIndex(p) {
        AfterOutput(p, n);
      }
      var L := p.layers[n];
      if L.Fc? && L.stream {
        StreamLayer(p, feed, n);
      } else {
        ResidentLayer(p, n, mem[..]);
      }
      ghost var start := mem[..];
      match L {
        case Gather(_, tableAddr, _, dim, dimBytes, idxAddr, outAddr, _) =>
          RunGather(p, feed, n);
        case Concat(_, _, _, _) =>
          assert Effect(L, start, start, start) by { ConcatEffect(L, start, start); }
        case Fc(_, inAddr, _, Kpad, _, Mpad, wAddr, bAddr, accAddr, outAddr, mult, shift, relu, final, _) =>
          RunFc(p, feed, n);
      }
      LayerStep(p, feed, n, start, start, mem[..]);
      EffectFrame(L, start, start, mem[..]);
      FrameKeepsConsts(p, n, start, mem[..]);
      LayerConstKept(p, n, OutputIndex(p), start, mem[..]);
    }

    method RunGather(p: Program, feed: Feed, n: nat)
      requires WellFormed(p) && FeedOk(p, feed) && n < |p.layers| && p.layers[n].Gather?
      requires ActOk(p, feed, n, mem[..]) && LayerConst(p, n, mem[..])
      modifies mem
      ensures Effect(p.layers[n], old(mem[..]), old(mem[..]), mem[..])
    {
      hide WellFormed, FeedOk, ActOk, Splice, Effect, LayerConst, RdI32, Rd32;
      var L := p.layers[n];
      IndexAt(p, feed, n, mem[..]);
      TableFits(p, feed, n, mem[..], mem[..]);
      var idx := Load32(mem, L.idxAddr);
      ghost var src := L.tableAddr + idx * L.dimBytes;
      GatherEffect(L, mem[..], mem[..], src, mem[..][src..src + L.dim]);
      assert mem[..][src..][..L.dim] == mem[..][src..src + L.dim];
      Kernels.Gather(mem, L.tableAddr, L.dimBytes, L.dim, idx, L.outAddr);
    }

    method RunFc(p: Program, feed: Feed, n: nat)
      requires WellFormed(p) && FeedOk(p, feed) && n < |p.layers| && p.layers[n].Fc?
      requires ActOk(p, feed, n, mem[..]) && LayerConst(p, n, mem[..])
      modifies mem
      ensures Effect(p.layers[n], old(mem[..]), old(mem[..]), mem[..])
    {
      hide WellFormed, FeedOk, ActOk, Effect, LayerConst, FcAccRun, EpiRun;
      var L := p.layers[n];
      FcPlace(p, feed, n, mem[..], mem[..]);
      ghost var start := mem[..];
      FcAcc(mem, L.wAddr, L.Mpad, L.Kpad, L.inAddr, L.accAddr);
      if L.final {
        FinalEffect(L, start);
      } else {
        HiddenEffect(L, start, mem[..]);
        Epilogue(mem, L.accAddr, L.bAddr, L.Mpad, L.mult, L.shift, L.relu, L.outAddr);
      }
    }

    /** `HostExecutor::run`. */
    method Run(p: Program, feed: Feed) returns (ok: bool, out: seq<int>)
      requires WellFormed(p) && Ready(p) && Offered(p, feed)
      modifies mem
      ensures Ready(p) && ok == AllThere(p, feed)
      ensures ok ==> FeedOk(p, feed) && out == RefOutput(p, feed)
    {
      hide WellFormed, FeedOk, ConstOk, ActOk, LayerConst, AllThere, InputFed, OutputIndex, RefOutput;
      out := [];
      ok := PutInputs(p, feed);
      if !ok {
        return;
      }
      var n := 0;
      while n < |p.layers|
        invariant n <= |p.layers| && Ready(p) && ActOk(p, feed, n, mem[..])
        invariant n > OutputIndex(p) ==> LayerConst(p, OutputIndex(p), mem[..])
      {
        RunLayer(p, feed, n);
        n := n + 1;
      }
      var f := FindOutput(p);
      out := ReadResult(p, feed, f);
    }

    method ReadResult(p: Program, feed: Feed, f: nat) returns (out: seq<int>)
      requires WellFormed(p) && FeedOk(p, feed) && f == OutputIndex(p)
      requires ActOk(p, feed, |p.layers|, mem[..]) && LayerConst(p, f, mem[..])
      ensures out == RefOutput(p, feed)
    {
      hide WellFormed, FeedOk, ActOk, LayerConst, RefOutput, OutputIndex, Wrap32, RdI32, Rd32;
      var L := p.layers[f];
      out := [];
      while |out| < L.N
        invariant |out| <= L.N && out == RefOutput(p, feed)[..|out|]
      {
        ResultAt(p, feed, mem[..], mem[..], |out|);
        var a := Load32(mem, L.accAddr + 4 * |out|);
        var b := Load32(mem, L.bAddr + 4 * |out|);
        out := out + [Wrap32(a + b)];
      }
    }
  }
}
