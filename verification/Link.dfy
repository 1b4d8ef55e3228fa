/** The host side of EdgeCoh (`struct Link` in executors.cpp): DATA_WRITE, DATA_READ and NMC_EXEC
    exchanges over the virtual FPGA. */
module Link {
  import opened Bytes
  import opened VirtualFpga

  const CHUNK := 4096

  function WriteMsg(addr: nat, data: seq<byte>): (m: seq<byte>)
    ensures |m| == HEADER + 4 + |data|
  {
    Header(MSG_DATA_WRITE, [0, 0], 4 + |data|) + Le32(addr) + data
  }

  function ReadMsg(addr: nat, len: nat): (m: seq<byte>)
    ensures |m| == HEADER + 8
  {
    Header(MSG_DATA_READ, [0, 0], 8) + Le32(addr) + Le32(len)
  }

  function ExecMsg(op: byte, tb: nat, rows: nat, cols: nat, ia: nat, il: nat, oa: nat): (m: seq<byte>)
    ensures |m| == HEADER + 25
  {
    Header(MSG_NMC_EXEC, [0, 0], 25) + [op] + Le32(tb) + Le32(rows) + Le32(cols) + Le32(ia) + Le32(il) + Le32(oa)
  }

  lemma FieldAt(s: seq<byte>, a: nat, v: nat)
    requires a + 4 <= |s| && s[a..a + 4] == Le32(v) && v < TWO32
    ensures Rd32(s, a) == v
  {
    Le32RoundTrip(s, a, v);
  }

  lemma WriteMsgFields(addr: nat, data: seq<byte>)
    requires addr < TWO32 && 4 + |data| < TWO32
    ensures var m := WriteMsg(addr, data);
            WellFormedMsg(m) && m[0] == MSG_DATA_WRITE && Rd32(m, 8) == addr && m[12..] == data && m[2..4] == [0, 0]
  {
    hide Le32, Rd32;
    var m := WriteMsg(addr, data);
    FieldAt(m, 4, 4 + |data|);
    FieldAt(m, 8, addr);
  }

  lemma ReadMsgFields(addr: nat, len: nat)
    requires addr < TWO32 && len < TWO32
    ensures var m := ReadMsg(addr, len);
            WellFormedMsg(m) && m[0] == MSG_DATA_READ && Rd32(m, 8) == addr && Rd32(m, 12) == len && m[2..4] == [0, 0]
  {
    hide Le32, Rd32;
    var m := ReadMsg(addr, len);
    FieldAt(m, 4, 8);
    FieldAt(m, 8, addr);
    FieldAt(m, 12, len);
  }

  /** What a read within the memory does to the device. */
  lemma ReadProcessed(d: Dev, addr: nat, len: nat)
    requires addr < TWO32 && len < TWO32 && addr + len <= |d.ddr2|
    ensures var m := ReadMsg(addr, len);
            WellFormedMsg(m) && Process(d, m) ==
            d.(tx := d.tx + Header(MSG_DATA_RESPONSE, [0, 0], len) + d.ddr2[addr..addr + len], msgs := d.msgs + 1,
               readBytes := d.readBytes + len)
  {
    hide WellFormedMsg, ReadMsg, Header, Exec, Splice, Rd32;
    ReadMsgFields(addr, len);
  }

  lemma ExecMsgFields(op: byte, tb: nat, rows: nat, cols: nat, ia: nat, il: nat, oa: nat)
    requires tb < TWO32 && rows < TWO32 && cols < TWO32 && ia < TWO32 && il < TWO32 && oa < TWO32
    ensures var m := ExecMsg(op, tb, rows, cols, ia, il, oa);
            && WellFormedMsg(m) && m[0] == MSG_NMC_EXEC && m[8] == op && m[2..4] == [0, 0]
            && Rd32(m, 9) == tb && Rd32(m, 13) == rows && Rd32(m, 17) == cols
            && Rd32(m, 21) == ia && Rd32(m, 25) == il && Rd32(m, 29) == oa
  {
    hide Le32, Rd32;
    var m := ExecMsg(op, tb, rows, cols, ia, il, oa);
    FieldAt(m, 4, 25);
    FieldAt(m, 9, tb);
    FieldAt(m, 13, rows);
    FieldAt(m, 17, cols);
    FieldAt(m, 21, ia);
    FieldAt(m, 25, il);
    FieldAt(m, 29, oa);
  }

  /** What an engine request does to device memory, by operation code. */
  function ExecMem(mem: seq<byte>, op: byte, tb: nat, rows: nat, cols: nat, ia: nat, il: nat, oa: nat): (r: seq<byte>)
    ensures |r| == |mem|
  {
    if op == 1 then EmbedFrom(mem, tb, cols, ia, il, oa, 0)
    else if op == 2 then FcEngine(mem, tb, ia, oa, rows, cols)
    else if op == 3 then ElementEngine(mem, tb, rows, cols, ia, il, oa)
    else mem
  }

  lemma DrainOne(m: seq<byte>, d: Dev)
    requires WellFormedMsg(m)
    ensures Clean(m) && Drain(m, d) == ([], Process(d, m))
  {
    hide Process;
    assert m[..Need(m)] == m && m[Need(m)..] == [];
  }

  class Link {
    const t: Fpga
    var linkMsgs: nat

    constructor (t: Fpga)
      ensures this.t == t && linkMsgs == 0
    {
      this.t := t;
      linkMsgs := 0;
    }

    /** No half message on the device, no unread response. */
    ghost predicate Quiet()
      reads this, t, t.rx
    {
      t.Valid() && t.Rx() == [] && t.tx[t.txHead..] == []
    }

    /** Sends one whole message to a quiet device. */
    method SendMsg(m: seq<byte>)
      requires Quiet() && WellFormedMsg(m) && |m| <= RX_BYTES
      modifies this`linkMsgs, t, t.ddr2, t.rx
      ensures t.Valid() && t.Rx() == [] && t.View() == Process(old(t.View()), m) && linkMsgs == old(linkMsgs) + 1
    {
      hide Process, WellFormedMsg;
      DrainOne(m, t.View());
      assert t.Rx() + m == m;
      var rc := t.Send(m);
      linkMsgs := linkMsgs + 1;
    }

    /** Receives an acknowledgement header. */
    method Ack() returns (ok: bool)
      requires t.Valid()
      modifies t`tx, t`txHead
      ensures t.Valid()
      ensures |old(t.tx[t.txHead..])| >= HEADER ==>
                t.tx[t.txHead..] == old(t.tx[t.txHead..])[HEADER..] &&
                ok == (old(t.tx[t.txHead..])[0] in {MSG_ACK, MSG_NMC_DONE})
    {
      var h := t.Recv(HEADER);
      if |h| < HEADER {
        return false;
      }
      ok := h[0] == MSG_ACK || h[0] == MSG_NMC_DONE;
    }

    /** One DATA_WRITE exchange. */
    method WriteChunk(addr: nat, data: seq<byte>) returns (ok: bool)
      requires Quiet() && |data| <= CHUNK && addr + |data| <= t.ddr2.Length && addr < TWO32
      modifies this`linkMsgs, t, t.ddr2, t.rx
      ensures ok && Quiet() && t.ddr2[..] == Splice(old(t.ddr2[..]), addr, data)
      ensures t.msgs == old(t.msgs) + 1 && linkMsgs == old(linkMsgs) + 1
      ensures t.writeBytes == old(t.writeBytes) + |data| && t.execs == old(t.execs)
    {
      hide WellFormedMsg, Rd32, Splice, WriteMsg, Le32;
      var m := WriteMsg(addr, data);
      WriteMsgFields(addr, data);
      SendMsg(m);
      assert t.View().tx == [] + Header(MSG_ACK, [0, 0], 0);
      ok := Ack();
    }

    /** `Link::write`: at most 4096 bytes per message. */
    method Write(addr: nat, src: seq<byte>) returns (ok: bool)
      requires Quiet() && addr + |src| <= t.ddr2.Length && addr + |src| <= TWO32
      modifies this`linkMsgs, t, t.ddr2, t.rx
      ensures ok && Quiet() && t.ddr2[..] == Splice(old(t.ddr2[..]), addr, src)
      ensures t.msgs == old(t.msgs) + CeilDiv(|src|, CHUNK) && linkMsgs == old(linkMsgs) + CeilDiv(|src|, CHUNK)
      ensures t.writeBytes == old(t.writeBytes) + |src| && t.execs == old(t.execs)
    {
      hide Splice;
      ghost var was := t.ddr2[..];
      var done := 0;
      SpliceNothing(was, addr);
      while done < |src|
        invariant done <= |src| && Quiet() && t.ddr2[..] == Splice(was, addr, src[..done])
        invariant done % CHUNK == 0 || done == |src|
        invariant t.msgs == old(t.msgs) + CeilDiv(done, CHUNK) && linkMsgs == old(linkMsgs) + CeilDiv(done, CHUNK)
        invariant t.writeBytes == old(t.writeBytes) + done && t.execs == old(t.execs)
      {
        var chunk := if |src| - done > CHUNK then CHUNK else |src| - done;
        ok := WriteChunk(addr + done, src[done..done + chunk]);
        if !ok {
          return false;
        }
        SpliceSplice(was, addr, src[..done], src[done..done + chunk]);
        assert src[..done] + src[done..done + chunk] == src[..done + chunk];
        done := done + chunk;
      }
      assert src[..done] == src;
      ok := true;
    }

    /** Drains the bytes of a response in pieces of at most 4096. */
    method Receive(len: nat, ghost want: seq<byte>) returns (ok: bool, dst: seq<byte>)
      requires t.Valid() && t.tx[t.txHead..] == want && |want| == len
      modifies t`tx, t`txHead
      ensures t.Valid() && ok && dst == want && t.tx[t.txHead..] == []
    {
      dst := [];
      while |dst| < len
        invariant |dst| <= len && t.Valid() && dst + t.tx[t.txHead..] == want
        decreases len - |dst|
      {
        var r := t.Recv(if len - |dst| < CHUNK then len - |dst| else CHUNK);
        if |r| == 0 {
          return false, dst;
        }
        dst := dst + r;
      }
      ok := true;
    }

    /** `Link::read`: one DATA_READ and the bytes of its response. */
    method Read(addr: nat, len: nat) returns (ok: bool, dst: seq<byte>)
      requires Quiet() && addr + len <= t.ddr2.Length && addr < TWO32 && len < TWO32
      modifies this`linkMsgs, t, t.ddr2, t.rx
      ensures ok && Quiet() && dst == t.ddr2[addr..addr + len] && t.ddr2[..] == old(t.ddr2[..])
      ensures t.msgs == old(t.msgs) + 1 && linkMsgs == old(linkMsgs) + 1
      ensures t.writeBytes == old(t.writeBytes) && t.execs == old(t.execs)
    {
      hide WellFormedMsg, Rd32, ReadMsg, Le32, Process, Exec;
      ReadProcessed(t.View(), addr, len);
      SendMsg(ReadMsg(addr, len));
      ghost var want := t.ddr2[..][addr..addr + len];
      ghost var resp := Header(MSG_DATA_RESPONSE, [0, 0], len);
      assert t.View().tx == resp + want;
      var h := t.Recv(HEADER);
      assert h == (resp + want)[..HEADER] && t.tx[t.txHead..] == (resp + want)[HEADER..] == want;
      if |h| < HEADER || h[0] != MSG_DATA_RESPONSE {
        return false, [];
      }
      ok, dst := Receive(len, want);
    }

    /** `Link::nmc`: one engine request. */
    method Nmc(op: byte, tb: nat, rows: nat, cols: nat, ia: nat, il: nat, oa: nat) returns (ok: bool)
      requires Quiet()
      requires tb < TWO32 && rows < TWO32 && cols < TWO32 && ia < TWO32 && il < TWO32 && oa < TWO32
      modifies this`linkMsgs, t, t.ddr2, t.rx
      ensures ok && Quiet() && t.ddr2[..] == ExecMem(old(t.ddr2[..]), op, tb, rows, cols, ia, il, oa)
      ensures t.msgs == old(t.msgs) + 1 && t.execs == old(t.execs) + 1 && linkMsgs == old(linkMsgs) + 1
    {
      hide WellFormedMsg, Rd32, EmbedFrom, FcEngine, ElementEngine, ExecMsg, Le32;
      ExecMsgFields(op, tb, rows, cols, ia, il, oa);
      SendMsg(ExecMsg(op, tb, rows, cols, ia, il, oa));
      assert t.View().tx == [] + Header(MSG_ACK, [0, 0], 0);
      ok := Ack();
    }

    /** A write followed by a read of the same range over the byte protocol: the bytes come back, no other
        byte moves, every response is consumed, and the message count is the one the cost model prices. */
    method WriteThenRead(addr: nat, src: seq<byte>) returns (ok: bool, dst: seq<byte>)
      requires Quiet() && addr + |src| <= t.ddr2.Length && addr + |src| < TWO32
      modifies this`linkMsgs, t, t.ddr2, t.rx
      ensures ok && Quiet() && dst == src
      ensures forall i :: 0 <= i < t.ddr2.Length && !(addr <= i < addr + |src|) ==> t.ddr2[..][i] == old(t.ddr2[..])[i]
      ensures t.msgs == old(t.msgs) + CeilDiv(|src|, CHUNK) + 1
    {
      ok := Write(addr, src);
      if !ok {
        return false, [];
      }
      ok, dst := Read(addr, |src|);
    }
  }

  lemma SpliceNothing(mem: seq<byte>, a: nat)
    requires a <= |mem|
    ensures Splice(mem, a, []) == mem
  {
  }
}
