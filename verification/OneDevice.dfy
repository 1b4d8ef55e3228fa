/** One protocol, two devices: what the controller in the FPGA does for a message and what the emulated device does are
    the same bytes. */
module OneDevice {
  import opened Bytes
  import opened VirtualFpga
  import L = Link
  import C = Controller
  import M = ControllerMessages

  /** DMA byte writes carried out in order. */
  function Put(mem: seq<byte>, ws: seq<(nat, byte)>): (r: seq<byte>)
    ensures |r| == |mem|
  {
    if ws == [] then mem
    else
      var was, w := Put(mem, ws[..|ws| - 1]), ws[|ws| - 1];
      if w.0 < |mem| then was[w.0 := w.1] else was
  }

  lemma {:induction false} PutRun(mem: seq<byte>, a: nat, ws: seq<(nat, byte)>, data: seq<byte>)
    requires a + |data| <= |mem| && |ws| == |data| && forall j :: 0 <= j < |ws| ==> ws[j] == (a + j, data[j])
    ensures Put(mem, ws) == Splice(mem, a, data)
  {
    if ws != [] {
      var n := |ws| - 1;
      PutRun(mem, a, ws[..n], data[..n]);
      assert Put(mem, ws) == Put(mem, ws[..n])[a + n := data[n]];
    }
  }

  /** A message the controller has finished is one the emulated device takes. */
  lemma FinishedIsWhole(m: M.Msg)
    requires M.Finished(m)
    ensures WellFormedMsg(m.bytes)
  {
    hide Rd32, Le32;
  }

  /** A write within the memory: the controller's DMA writes leave what the emulated device leaves. */
  lemma SameWrite(m: M.Msg, d: Dev)
    requires M.Finished(m) && WellFormedMsg(m.bytes) && m.bytes[0] == MSG_DATA_WRITE
    requires Rd32(m.bytes, 8) + (|m.bytes| - 12) <= |d.ddr2| <= TWO32
    ensures Put(d.ddr2, m.writes) == Process(d, m.bytes).ddr2
  {
    hide Rd32, Le32, Splice, Header;
    var a, data := Rd32(m.bytes, 8), m.bytes[12..];
    forall j | 0 <= j < |m.writes|
      ensures m.writes[j] == (a + j, data[j])
    {
      Small(a + j);
    }
    PutRun(d.ddr2, a, m.writes, data);
  }

  lemma Small(x: nat)
    ensures x < TWO32 ==> x % TWO32 == x
  {
  }

  /** The DMA port returns the bytes of memory asked for. */
  predicate Served(m: M.Msg, mem: seq<byte>) {
    |m.returned| == |m.asked|
    && forall j :: 0 <= j < |m.asked| ==> m.asked[j] < |mem| && m.returned[j] == mem[m.asked[j]]
  }

  /** A read within the memory: the controller presents the bytes the emulated device answers with. */
  lemma SameRead(m: M.Msg, d: Dev)
    requires M.Finished(m) && WellFormedMsg(m.bytes) && m.bytes[0] == MSG_DATA_READ && Served(m, d.ddr2)
    requires Rd32(m.bytes, 8) + Rd32(m.bytes, 12) <= |d.ddr2| <= TWO32
    ensures m.shown == Answer(d.ddr2, m.bytes)
  {
    hide Rd32, Le32;
    var a, len := Rd32(m.bytes, 8), Rd32(m.bytes, 12);
    FieldBytes(m.bytes, 12);
    forall j | 0 <= j < len
      ensures m.returned[j] == Fetched(d.ddr2, a, len)[j]
    {
      Small(a + j);
    }
    assert m.returned == Fetched(d.ddr2, a, len);
  }

  /** An engine request: the controller starts the engine with the fields by which the emulated device works. */
  lemma SameRequest(m: M.Msg, d: Dev)
    requires M.Finished(m) && WellFormedMsg(m.bytes) && m.bytes[0] == MSG_NMC_EXEC
    ensures |m.starts| == 1
    ensures var n := m.starts[0];
            Process(d, m.bytes).ddr2
            == L.ExecMem(d.ddr2, n.op, n.tableBase, n.rows, n.cols, n.inputAddr, n.inputLen, n.outputAddr)
  {
    hide Rd32, Le32, Header, EmbedFrom, FcEngine, ElementEngine;
  }

  /** Every message the controller finishes, whatever its type, is one the emulated device takes, and the bytes that
      reach the host are the same: the acknowledge, or the response to a read whose DMA port returns what memory holds.
      So is what it does to memory: the bytes of a write, or the request an engine is started with. */
  lemma EmulatorIsController(m: M.Msg, d: Dev)
    requires M.Finished(m) && |d.ddr2| <= TWO32
    requires m.bytes[0] == MSG_DATA_WRITE ==> Rd32(m.bytes, 8) + (|m.bytes| - 12) <= |d.ddr2|
    requires m.bytes[0] == MSG_DATA_READ ==> Served(m, d.ddr2) && Rd32(m.bytes, 8) + Rd32(m.bytes, 12) <= |d.ddr2|
    ensures WellFormedMsg(m.bytes)
    ensures Process(d, m.bytes).tx == d.tx + (m.shown + m.acks)
    ensures m.bytes[0] != MSG_NMC_EXEC ==> Process(d, m.bytes).ddr2 == Put(d.ddr2, m.writes) && m.starts == []
    ensures m.bytes[0] == MSG_NMC_EXEC ==>
              && |m.starts| == 1 && m.writes == []
              && var n := m.starts[0];
                 Process(d, m.bytes).ddr2
                 == L.ExecMem(d.ddr2, n.op, n.tableBase, n.rows, n.cols, n.inputAddr, n.inputLen, n.outputAddr)
  {
    hide Rd32, Le32, Process, WellFormedMsg, L.ExecMem, Fetched, M.RespHeader, M.Written, M.Requested, M.Request;
    FinishedIsWhole(m);
    ProcessAnswers(d, m.bytes);
    ProcessEffects(d, m.bytes);
    if m.bytes[0] == MSG_DATA_WRITE {
      SameWrite(m, d);
    } else if m.bytes[0] == MSG_DATA_READ {
      SameRead(m, d);
      assert m.shown + [] == m.shown;
    } else if m.bytes[0] == MSG_NMC_EXEC {
      SameRequest(m, d);
    }
  }
}
