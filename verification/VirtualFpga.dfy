/** The virtual FPGA of transport_emul.c: DDR2, three engines and the EdgeCoh byte stream. */
module VirtualFpga {
  import opened Bytes
  import opened Kernels

  const MSG_DATA_WRITE: byte := 0x10
  const MSG_DATA_READ: byte := 0x11
  const MSG_DATA_RESPONSE: byte := 0x12
  const MSG_NMC_EXEC: byte := 0x20
  const MSG_NMC_DONE: byte := 0x21
  const MSG_ACK: byte := 0xFE

  const HEADER := 8
  const RX_BYTES := 65536

  /** The observable device: memory, bytes waiting for the host, counters. */
  datatype Dev = Dev(ddr2: seq<byte>, tx: seq<byte>, msgs: nat, writeBytes: nat, readBytes: nat, execs: nat)

  // ----- engines -----

  /** Source and destination of lookup i, as the engine forms them. */
  function RowSrc(mem: seq<byte>, table: nat, dim: nat, idxAddr: nat, i: nat): nat
    requires idxAddr + 4 * i + 4 <= |mem|
  {
    table + Rd32(mem, idxAddr + 4 * i) * dim
  }

  function RowDst(dim: nat, out: nat, i: nat): nat {
    out + i * dim
  }

  predicate RowOk(mem: seq<byte>, table: nat, dim: nat, idxAddr: nat, out: nat, i: nat) {
    && idxAddr + 4 * i + 4 <= |mem|
    && RowSrc(mem, table, dim, idxAddr, i) + dim / 16 * 16 <= |mem|
    && RowDst(dim, out, i) + dim / 16 * 16 <= |mem|
  }

  /** `eng_embedding` from index i on, stopping at the first lookup out of range. Whole 16-byte
      words of each row are copied. */
  function EmbedFrom(mem: seq<byte>, table: nat, dim: nat, idxAddr: nat, n: nat, out: nat, i: nat): (r: seq<byte>)
    ensures |r| == |mem|
    decreases n - i
  {
    if i >= n || !RowOk(mem, table, dim, idxAddr, out, i) then mem
    else
      var src := RowSrc(mem, table, dim, idxAddr, i);
      EmbedFrom(Splice(mem, RowDst(dim, out, i), mem[src..src + dim / 16 * 16]), table, dim, idxAddr, n, out, i + 1)
  }

  /** One lookup, or the end of them. */
  lemma EmbedNext(mem: seq<byte>, table: nat, dim: nat, idxAddr: nat, n: nat, out: nat, i: nat)
    ensures i >= n || !RowOk(mem, table, dim, idxAddr, out, i) ==>
              EmbedFrom(mem, table, dim, idxAddr, n, out, i) == mem
    ensures i < n && RowOk(mem, table, dim, idxAddr, out, i) ==>
              var src := RowSrc(mem, table, dim, idxAddr, i);
              EmbedFrom(mem, table, dim, idxAddr, n, out, i)
              == EmbedFrom(Splice(mem, RowDst(dim, out, i), mem[src..src + dim / 16 * 16]), table, dim, idxAddr, n, out,
                           i + 1)
  {
  }

  /** `eng_int8_fc`: a request out of range is ignored. */
  function FcEngine(mem: seq<byte>, w: nat, x: nat, y: nat, M: nat, K: nat): (r: seq<byte>)
    ensures |r| == |mem|
  {
    if w + M * K > |mem| || x + K > |mem| || y + 4 * M > |mem| then mem
    else FcAccRun(mem, w, K, x, y, M)
  }

  /** One INT8 lane of the byte operations (op 0 ReLU, 1 add scalar, 2 scale, 3 add vector, else copy). */
  function ByteOp(op: nat, v: byte, w: byte, scale: byte): byte {
    var a := S8(v);
    U8(Sat8(match op
            case 0 => if a < 0 then 0 else a
            case 1 => a + scale
            case 2 => a * scale
            case 3 => a + S8(w)
            case _ => a))
  }

  function ByteRun(mem: seq<byte>, op: nat, scale: byte, addr2: nat, a: nat, out: nat, n: nat): (r: seq<byte>)
    requires a + n <= |mem| && out + n <= |mem| && (op == 3 ==> addr2 + n <= |mem|)
    ensures |r| == |mem|
  {
    if n == 0 then mem
    else
      var p := ByteRun(mem, op, scale, addr2, a, out, n - 1);
      Splice(p, out + n - 1, [ByteOp(op, p[a + n - 1], if op == 3 then p[addr2 + n - 1] else 0, scale)])
  }

  function Sext16(v: nat): (r: int)
    ensures -32768 <= r <= 32767
  {
    var u := v % 65536;
    if u < 32768 then u else u - 65536
  }

  /** `eng_elementwise`; op 4 is the requantising epilogue. */
  function ElementEngine(mem: seq<byte>, field: nat, nwords: nat, addr2: nat, a: nat, len: nat,
          out: nat): (r: seq<byte>)
    ensures |r| == |mem|
  {
    var op, scale := field % 8, field / 256 % 256;
    if op == 4 then
      var nout := (nwords + 3) / 4;
      if a + 16 * nwords > |mem| || addr2 + 16 * nwords > |mem| || out + 16 * nout > |mem| then mem
      else EpiRun(Splice(mem, out, Zeros(16 * nout)), a, addr2, Sext16(len), scale % 32, scale / 128 == 1, out,
        4 * nwords)
    else if a + 16 * nwords > |mem| || out + 16 * nwords > |mem| || (op == 3 && addr2 + 16 * nwords > |mem|) then mem
    else ByteRun(mem, op, scale, addr2, a, out, 16 * nwords)
  }

  // ----- messages -----

  /** An 8-byte header: type, flags 0, the two tensor-id bytes, little-endian payload length. */
  function Header(kind: byte, tid: seq<byte>, len: int): (h: seq<byte>)
    requires |tid| == 2
    ensures |h| == HEADER
  {
    [kind, 0] + tid + Le32(len)
  }

  /** Length of the message that starts the stream. */
  function Need(s: seq<byte>): nat
    requires |s| >= HEADER
  {
    HEADER + Rd32(s, 4)
  }

  /** One whole message whose payload holds the fields its type needs. */
  predicate WellFormedMsg(m: seq<byte>) {
    && |m| >= HEADER && |m| == Need(m)
    && (m[0] == MSG_DATA_WRITE ==> |m| >= HEADER + 4)
    && (m[0] == MSG_DATA_READ ==> |m| >= HEADER + 8)
    && (m[0] == MSG_NMC_EXEC ==> |m| >= HEADER + 25)
  }

  function Exec(mem: seq<byte>, m: seq<byte>): (r: seq<byte>)
    requires |m| >= HEADER + 25
    ensures |r| == |mem|
  {
    var tb, rows, cols := Rd32(m, 9), Rd32(m, 13), Rd32(m, 17);
    var ia, il, oa := Rd32(m, 21), Rd32(m, 25), Rd32(m, 29);
    if m[8] == 1 then EmbedFrom(mem, tb, cols, ia, il, oa, 0)
    else if m[8] == 2 then FcEngine(mem, tb, ia, oa, rows, cols)
    else if m[8] == 3 then ElementEngine(mem, tb, rows, cols, ia, il, oa)
    else mem
  }

  /** `process`: one message handled. */
  function Process(d: Dev, m: seq<byte>): (d': Dev)
    requires WellFormedMsg(m)
    ensures |d'.ddr2| == |d.ddr2| && d'.msgs == d.msgs + 1
  {
    var ack := Header(MSG_ACK, m[2..4], 0);
    if m[0] == MSG_DATA_WRITE then
      var a, data := Rd32(m, 8), m[12..];
      d.(ddr2 := if a + |data| <= |d.ddr2| then Splice(d.ddr2, a, data) else d.ddr2,
         tx := d.tx + ack, msgs := d.msgs + 1, writeBytes := d.writeBytes + |data|)
    else if m[0] == MSG_DATA_READ then
      var a, len := Rd32(m, 8), Rd32(m, 12);
      d.(tx := d.tx + Header(MSG_DATA_RESPONSE, m[2..4], len) +
               (if a + len <= |d.ddr2| then d.ddr2[a..a + len] else Zeros(len)),
         msgs := d.msgs + 1, readBytes := d.readBytes + len)
    else if m[0] == MSG_NMC_EXEC then
      d.(ddr2 := Exec(d.ddr2, m), tx := d.tx + ack, msgs := d.msgs + 1, execs := d.execs + 1)
    else
      d.(tx := d.tx + ack, msgs := d.msgs + 1)
  }

  // ----- what the host gets for a message -----

  /** The bytes of a range, or as many zeros if the device does not have it. */
  function Fetched(mem: seq<byte>, a: nat, len: nat): (r: seq<byte>)
    ensures |r| == len && forall k :: 0 <= k < len ==> r[k] == if a + len <= |mem| then mem[a + k] else 0
  {
    seq(len, k requires 0 <= k < len => if a + len <= |mem| then mem[a + k] else 0)
  }

  /** The answer to a message: a read is answered with its length and its bytes, every other message, whatever its
      type, with eight acknowledge bytes; both carry the message's tensor id. */
  function Answer(mem: seq<byte>, m: seq<byte>): (r: seq<byte>)
    requires WellFormedMsg(m)
    ensures |r| >= HEADER
  {
    if m[0] == 0x11 then [0x12, 0, m[2], m[3], m[12], m[13], m[14], m[15]] + Fetched(mem, Rd32(m, 8), Rd32(m, 12))
    else [0xFE, 0, m[2], m[3], 0, 0, 0, 0]
  }

  /** Encoding a field that was decoded gives its bytes back. */
  lemma FieldBytes(m: seq<byte>, a: nat)
    requires a + 4 <= |m|
    ensures Le32(Rd32(m, a)) == m[a..a + 4]
  {
    var b0: int, b1: int, b2: int, b3: int := m[a], m[a + 1], m[a + 2], m[a + 3];
    var u := Rd32(m, a);
    DivModUnique(u, 256, b1 + 0x100 * b2 + 0x1_0000 * b3, b0);
    DivModUnique(u / 256, 256, b2 + 0x100 * b3, b1);
    DivModUnique(u / 256 / 256, 256, b3, b2);
  }

  /** Every message is answered, once, behind what is still to be received. */
  lemma ProcessAnswers(d: Dev, m: seq<byte>)
    requires WellFormedMsg(m)
    ensures Process(d, m).tx == d.tx + Answer(d.ddr2, m)
  {
    hide Exec, Rd32, Le32, Splice;
    ZeroField();
    if m[0] == MSG_DATA_READ {
      FieldBytes(m, 12);
      var a, len := Rd32(m, 8), Rd32(m, 12);
      var data := if a + len <= |d.ddr2| then d.ddr2[a..a + len] else Zeros(len);
      assert data == Fetched(d.ddr2, a, len);
      assert Header(MSG_DATA_RESPONSE, m[2..4], len) == [0x12, 0, m[2], m[3], m[12], m[13], m[14], m[15]];
    }
  }

  lemma ZeroField()
    ensures Le32(0) == [0, 0, 0, 0]
  {
  }

  /** What a message does besides: only a write that fits and an engine request touch memory, and each counter counts
      its own kind. */
  lemma ProcessEffects(d: Dev, m: seq<byte>)
    requires WellFormedMsg(m)
    ensures var n := Process(d, m);
            && |n.ddr2| == |d.ddr2| && n.msgs == d.msgs + 1
            && (m[0] == 0x10 ==> forall i :: 0 <= i < |d.ddr2| ==>
                  n.ddr2[i] == if Rd32(m, 8) <= i < Rd32(m, 8) + (|m| - 12) && Rd32(m, 8) + (|m| - 12) <= |d.ddr2|
                    then m[12 + (i - Rd32(m, 8))] else d.ddr2[i])
            && (m[0] != 0x10 && (m[0] != 0x20 || m[8] !in {1, 2, 3}) ==> n.ddr2 == d.ddr2)
            && n.writeBytes == d.writeBytes + (if m[0] == 0x10 then |m| - 12 else 0)
            && n.readBytes == d.readBytes + (if m[0] == 0x11 then Rd32(m, 12) else 0)
            && n.execs == d.execs + (if m[0] == 0x20 then 1 else 0)
  {
    hide EmbedFrom, FcEngine, ElementEngine, Header, Rd32;
  }

  // ----- stream reassembly -----

  /** Every complete message at the front of the stream is well formed. */
  predicate Clean(s: seq<byte>) {
    |s| < HEADER || |s| < Need(s) || (WellFormedMsg(s[..Need(s)]) && Clean(s[Need(s)..]))
  }

  /** The bytes left over and the device after consuming every complete message. */
  function Drain(s: seq<byte>, d: Dev): (r: (seq<byte>, Dev))
    requires Clean(s)
    ensures |r.0| <= |s|
    decreases |s|
  {
    if |s| < HEADER || |s| < Need(s) then (s, d)
    else Drain(s[Need(s)..], Process(d, s[..Need(s)]))
  }

  lemma NeedPrefix(a: seq<byte>, b: seq<byte>)
    requires |a| >= HEADER
    ensures Need(a + b) == Need(a)
  {
    RdFrame(a + b, 4, a, 4);
  }

  lemma {:induction false} CleanPrefix(a: seq<byte>, b: seq<byte>)
    requires Clean(a + b)
    ensures Clean(a)
    decreases |a|
  {
    if |a| >= HEADER && |a| >= Need(a) {
      NeedPrefix(a, b);
      var n := Need(a);
      assert (a + b)[..n] == a[..n];
      assert (a + b)[n..] == a[n..] + b;
      CleanPrefix(a[n..], b);
    }
  }

  /** Chunking does not matter: handling a, then handling b behind what a left over, is handling a + b. */
  lemma {:induction false} DrainSplit(a: seq<byte>, b: seq<byte>, d: Dev)
    requires Clean(a + b)
    ensures Clean(a) && Clean(Drain(a, d).0 + b)
    ensures Drain(a + b, d) == Drain(Drain(a, d).0 + b, Drain(a, d).1)
    decreases |a|
  {
    hide Process, WellFormedMsg;
    CleanPrefix(a, b);
    if |a| >= HEADER && |a| >= Need(a) {
      NeedPrefix(a, b);
      var n := Need(a);
      assert (a + b)[..n] == a[..n];
      assert (a + b)[n..] == a[n..] + b;
      DrainSplit(a[n..], b, Process(d, a[..n]));
    }
  }

  function Flatten(chunks: seq<seq<byte>>): seq<byte> {
    if chunks == [] then [] else Flatten(chunks[..|chunks| - 1]) + chunks[|chunks| - 1]
  }

  /** The device after a sequence of sends, each appended to what earlier ones left in the buffer. */
  function Sends(chunks: seq<seq<byte>>, d: Dev): (r: (seq<byte>, Dev))
    requires Clean(Flatten(chunks))
    ensures r == Drain(Flatten(chunks), d)
  {
    if chunks == [] then ([], d)
    else
      var front, last := chunks[..|chunks| - 1], chunks[|chunks| - 1];
      CleanPrefix(Flatten(front), last);
      DrainSplit(Flatten(front), last, d);
      var s := Sends(front, d);
      Drain(s.0 + last, s.1)
  }

  /** Messages handled one by one. */
  function ProcessAll(d: Dev, ms: seq<seq<byte>>): Dev
    requires forall i :: 0 <= i < |ms| ==> WellFormedMsg(ms[i])
    decreases |ms|
  {
    if ms == [] then d else ProcessAll(Process(d, ms[0]), ms[1..])
  }

  function Concat(ms: seq<seq<byte>>): seq<byte> {
    if ms == [] then [] else ms[0] + Concat(ms[1..])
  }

  lemma {:induction false} DrainMessages(d: Dev, ms: seq<seq<byte>>)
    requires forall i :: 0 <= i < |ms| ==> WellFormedMsg(ms[i])
    ensures Clean(Concat(ms)) && Drain(Concat(ms), d) == ([], ProcessAll(d, ms))
    decreases |ms|
  {
    hide Process;
    if ms != [] {
      var m, rest := ms[0], Concat(ms[1..]);
      assert WellFormedMsg(m);
      NeedPrefix(m, rest);
      assert (m + rest)[..|m|] == m && (m + rest)[|m|..] == rest;
      DrainMessages(Process(d, m), ms[1..]);
    }
  }

  /** A stream of well-formed messages leaves the same device however it is cut into sends. */
  lemma ChunkingIrrelevant(d: Dev, ms: seq<seq<byte>>, chunks: seq<seq<byte>>)
    requires forall i :: 0 <= i < |ms| ==> WellFormedMsg(ms[i])
    requires Flatten(chunks) == Concat(ms)
    ensures Clean(Flatten(chunks)) && Sends(chunks, d) == ([], ProcessAll(d, ms))
  {
    DrainMessages(d, ms);
  }

  /** The answers to messages handled one by one, each from memory as those before left it. */
  function AnswersTo(d: Dev, ms: seq<seq<byte>>): (r: seq<seq<byte>>)
    requires forall i :: 0 <= i < |ms| ==> WellFormedMsg(ms[i])
    ensures |r| == |ms|
    decreases |ms|
  {
    if ms == [] then [] else [Answer(d.ddr2, ms[0])] + AnswersTo(Process(d, ms[0]), ms[1..])
  }

  /** Answer r says how long it is and names the tensor of message m. */
  predicate Framed(r: seq<byte>, m: seq<byte>) {
    |r| >= HEADER && |r| == Need(r) && |m| >= HEADER && r[2..4] == m[2..4]
  }

  lemma AnswerFramed(mem: seq<byte>, m: seq<byte>)
    requires WellFormedMsg(m)
    ensures Framed(Answer(mem, m), m)
  {
    hide Rd32, Le32;
    var r := Answer(mem, m);
    if m[0] == 0x11 {
      RdFrame(r, 4, m, 12);
    } else {
      ZeroField();
      FieldBytes(r, 4);
      Le32RoundTrip(r, 4, 0);
    }
  }

  /** However a stream is cut into sends, the host finds one answer for each message behind what was waiting, in order,
      and can tell where each ends. */
  lemma StreamAnswered(d: Dev, ms: seq<seq<byte>>, chunks: seq<seq<byte>>)
    requires forall i :: 0 <= i < |ms| ==> WellFormedMsg(ms[i])
    requires Flatten(chunks) == Concat(ms)
    ensures Clean(Flatten(chunks)) && Sends(chunks, d).1.tx == d.tx + Concat(AnswersTo(d, ms))
    ensures forall i :: 0 <= i < |ms| ==> Framed(AnswersTo(d, ms)[i], ms[i])
  {
    hide Sends, WellFormedMsg, Framed;
    ChunkingIrrelevant(d, ms, chunks);
    AllAnswered(d, ms);
  }

  lemma {:induction false} AllAnswered(d: Dev, ms: seq<seq<byte>>)
    requires forall i :: 0 <= i < |ms| ==> WellFormedMsg(ms[i])
    ensures ProcessAll(d, ms).tx == d.tx + Concat(AnswersTo(d, ms))
    ensures forall i :: 0 <= i < |ms| ==> Framed(AnswersTo(d, ms)[i], ms[i])
    decreases |ms|
  {
    hide Process, Answer, Framed, WellFormedMsg;
    if ms != [] {
      assert WellFormedMsg(ms[0]);
      ProcessAnswers(d, ms[0]);
      AnswerFramed(d.ddr2, ms[0]);
      AllAnswered(Process(d, ms[0]), ms[1..]);
      var rest := AnswersTo(Process(d, ms[0]), ms[1..]);
      assert ([Answer(d.ddr2, ms[0])] + rest)[1..] == rest;
      forall i | 0 <= i < |ms|
        ensures Framed(AnswersTo(d, ms)[i], ms[i])
      {
        if i > 0 {
          assert AnswersTo(d, ms)[i] == rest[i - 1] && ms[i] == ms[1..][i - 1];
        }
      }
    } else {
      assert d.tx + [] == d.tx;
    }
  }

  // ----- the device -----

  class Fpga {
    const ddr2: array<byte>
    const rx: array<byte>
    var rxLen: nat
    var tx: seq<byte>
    var txHead: nat
    var msgs: nat
    var writeBytes: nat
    var readBytes: nat
    var execs: nat

    ghost predicate Valid()
      reads this
    {
      rx.Length == RX_BYTES && rx != ddr2 && rxLen <= RX_BYTES && txHead <= |tx|
    }

    /** Message bytes received but not yet part of a complete message. */
    ghost function Rx(): seq<byte>
      reads this, rx
      requires Valid()
    {
      rx[..rxLen]
    }

    ghost function View(): Dev
      reads this, ddr2
      requires Valid()
    {
      Dev(ddr2[..], tx[txHead..], msgs, writeBytes, readBytes, execs)
    }

    constructor (size: nat)
      ensures Valid() && fresh(ddr2) && fresh(rx) && ddr2.Length == size
      ensures Rx() == [] && View() == Dev(Zeros(size), [], 0, 0, 0, 0)
    {
      ddr2 := new byte[size](_ => 0);
      rx := new byte[RX_BYTES](_ => 0);
      rxLen, tx, txHead := 0, [], 0;
      msgs, writeBytes, readBytes, execs := 0, 0, 0, 0;
    }

    method EngEmbedding(table: nat, dim: nat, idxAddr: nat, n: nat, out: nat)
      modifies ddr2
      ensures ddr2[..] == EmbedFrom(old(ddr2[..]), table, dim, idxAddr, n, out, 0)
    {
      hide Rd32, Splice, RowSrc, RowDst, EmbedFrom;
      ghost var was := ddr2[..];
      var bytes := dim / 16 * 16;
      var i := 0;
      EmbedNext(ddr2[..], table, dim, idxAddr, n, out, 0);
      while i < n
        invariant i <= n
        invariant EmbedFrom(was, table, dim, idxAddr, n, out, 0) == EmbedFrom(ddr2[..], table, dim, idxAddr, n, out, i)
        invariant i == n ==> EmbedFrom(ddr2[..], table, dim, idxAddr, n, out, i) == ddr2[..]
      {
        EmbedNext(ddr2[..], table, dim, idxAddr, n, out, i);
        if idxAddr + 4 * i + 4 > ddr2.Length {
          return;
        }
        var src, dst := RowSrc(ddr2[..], table, dim, idxAddr, i), RowDst(dim, out, i);
        if src + bytes > ddr2.Length || dst + bytes > ddr2.Length {
          return;
        }
        Copy(ddr2, dst, ddr2[src..src + bytes]);
        i := i + 1;
        EmbedNext(ddr2[..], table, dim, idxAddr, n, out, i);
      }
    }

    method EngInt8Fc(w: nat, x: nat, y: nat, M: nat, K: nat)
      modifies ddr2
      ensures ddr2[..] == FcEngine(old(ddr2[..]), w, x, y, M, K)
    {
      if w + M * K > ddr2.Length || x + K > ddr2.Length || y + 4 * M > ddr2.Length {
        return;
      }
      FcAcc(ddr2, w, M, K, x, y);
    }

    method EngElementwise(field: nat, nwords: nat, addr2: nat, a: nat, len: nat, out: nat)
      modifies ddr2
      ensures ddr2[..] == ElementEngine(old(ddr2[..]), field, nwords, addr2, a, len, out)
    {
      hide EpiRun, Splice, Sext16, ByteOp;
      var op, scale: byte := field % 8, field / 256 % 256;
      if op == 4 {
        var nout := (nwords + 3) / 4;
        if a + 16 * nwords > ddr2.Length || addr2 + 16 * nwords > ddr2.Length || out + 16 * nout > ddr2.Length {
          return;
        }
        Copy(ddr2, out, Zeros(16 * nout));
        Epilogue(ddr2, a, addr2, 4 * nwords, Sext16(len), scale % 32, scale / 128 == 1, out);
        return;
      }
      if a + 16 * nwords > ddr2.Length || out + 16 * nwords > ddr2.Length
        || (op == 3 && addr2 + 16 * nwords > ddr2.Length) {
        return;
      }
      ghost var was := ddr2[..];
      var i := 0;
      while i < 16 * nwords
        invariant i <= 16 * nwords
        invariant ddr2[..] == ByteRun(was, op, scale, addr2, a, out, i)
      {
        ghost var cur := ddr2[..];
        ddr2[out + i] := ByteOp(op, ddr2[a + i], if op == 3 then ddr2[addr2 + i] else 0, scale);
        assert ddr2[..] == Splice(cur, out + i, [ddr2[out + i]]);
        i := i + 1;
      }
    }

    method Push(b: seq<byte>)
      requires Valid()
      modifies this`tx
      ensures Valid() && tx[txHead..] == old(tx[txHead..]) + b
    {
      tx := tx + b;
    }

    method ProcessMsg(m: seq<byte>)
      requires Valid() && WellFormedMsg(m)
      modifies this`tx, this`msgs, this`writeBytes, this`readBytes, this`execs, ddr2
      ensures Valid() && View() == Process(old(View()), m)
      ensures View().tx == old(View().tx) + Answer(old(View().ddr2), m)
    {
      hide EmbedFrom, FcEngine, ElementEngine, Header, Splice, Rd32, Answer;
      ProcessAnswers(View(), m);
      msgs := msgs + 1;
      if m[0] == MSG_DATA_WRITE {
        var a, data := Rd32(m, 8), m[12..];
        if a + |data| <= ddr2.Length {
          Copy(ddr2, a, data);
        }
        writeBytes := writeBytes + |data|;
        Push(Header(MSG_ACK, m[2..4], 0));
      } else if m[0] == MSG_DATA_READ {
        var a, len := Rd32(m, 8), Rd32(m, 12);
        Push(Header(MSG_DATA_RESPONSE, m[2..4], len));
        if a + len <= ddr2.Length {
          Push(ddr2[a..a + len]);
        } else {
          Push(Zeros(len));
        }
        readBytes := readBytes + len;
      } else if m[0] == MSG_NMC_EXEC {
        var tb, rows, cols := Rd32(m, 9), Rd32(m, 13), Rd32(m, 17);
        var ia, il, oa := Rd32(m, 21), Rd32(m, 25), Rd32(m, 29);
        execs := execs + 1;
        match m[8] {
          case 1 => EngEmbedding(tb, cols, ia, il, oa);
          case 2 => EngInt8Fc(tb, ia, oa, rows, cols);
          case 3 => EngElementwise(tb, rows, cols, ia, il, oa);
          case _ =>
        }
        Push(Header(MSG_ACK, m[2..4], 0));
      } else {
        Push(Header(MSG_ACK, m[2..4], 0));
      }
    }

    /** `emul_send`: append, then consume every complete message; an overrun drops the buffer. */
    method Send(buf: seq<byte>) returns (rc: int)
      requires Valid() && Clean(Rx() + buf)
      modifies this`rxLen, this`tx, this`msgs, this`writeBytes, this`readBytes, this`execs, ddr2, rx
      ensures Valid()
      ensures buf == [] ==> rc == -1 && Rx() == old(Rx()) && View() == old(View())
      ensures buf != [] && |old(Rx())| + |buf| > 65536 ==> rc == -1 && Rx() == [] && View() == old(View())
      ensures buf != [] && |old(Rx())| + |buf| <= 65536 ==>
                rc == |buf| && (Rx(), View()) == Drain(old(Rx()) + buf, old(View()))
    {
      hide Process, WellFormedMsg, Rd32;
      if |buf| <= 0 {
        return -1;
      }
      if rxLen + |buf| > RX_BYTES {
        rxLen := 0;
        return -1;
      }
      ghost var was, dev := Rx() + buf, View();
      Append(buf);
      while true
        invariant Valid() && Clean(Rx()) && Drain(Rx(), View()) == Drain(was, dev)
        decreases rxLen
      {
        if rxLen < HEADER {
          break;
        }
        var m := rx[..rxLen];
        var need := Need(m);
        if rxLen < need {
          break;
        }
        ProcessMsg(m[..need]);
        Shift(need);
      }
      rc := |buf|;
    }

    method Append(buf: seq<byte>)
      requires Valid() && rxLen + |buf| <= RX_BYTES
      modifies this`rxLen, rx
      ensures Valid() && Rx() == old(Rx()) + buf
    {
      Copy(rx, rxLen, buf);
      rxLen := rxLen + |buf|;
    }

    /** `memmove` of the unconsumed tail to the front. */
    method Shift(need: nat)
      requires Valid() && need <= rxLen
      modifies this`rxLen, rx
      ensures Valid() && rxLen == old(rxLen) - need && Rx() == old(Rx())[need..]
    {
      var tail := rx[need..rxLen];
      Copy(rx, 0, tail);
      rxLen := rxLen - need;
    }

    /** `emul_recv`: hand over at most n pending bytes, in order. */
    method Recv(n: nat) returns (b: seq<byte>)
      requires Valid()
      modifies this`tx, this`txHead
      ensures Valid() && b + tx[txHead..] == old(tx[txHead..])
      ensures |b| == if n <= |old(tx[txHead..])| then n else |old(tx[txHead..])|
    {
      var avail := |tx| - txHead;
      var k := if avail < n then avail else n;
      b := tx[txHead..txHead + k];
      txHead := txHead + k;
      if txHead == |tx| {
        tx, txHead := [], 0;
      }
    }
  }
}
