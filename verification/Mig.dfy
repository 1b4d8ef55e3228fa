/** The DDR2 controller behind the arbiter, as an environment: commands and write data accepted independently,
    carried out strictly in order, at any time. */
module Mig {
  import opened Bytes

  /** One 16-byte burst, and one flag per byte of it. */
  type word = w: seq<byte> | |w| == 16 witness Zeros(16)
  type lanes = l: seq<bool> | |l| == 16 witness seq(16, k => false)

  /** DDR2 as bursts: 2^23 words of 16 bytes behind a 27-bit byte address. */
  const WORDS := 0x80_0000
  const SIZE := 16 * WORDS

  type Memory = seq<word>

  /** The burst with the unmasked bytes of `data` written over it. */
  function Merge(was: word, data: word, mask: lanes): (r: word)
    ensures forall k :: 0 <= k < 16 ==> r[k] == if mask[k] then was[k] else data[k]
  {
    seq(16, k requires 0 <= k < 16 => if mask[k] then was[k] else data[k])
  }

  function ByteAt(mem: Memory, a: nat): byte
    requires a < 16 * |mem|
  {
    mem[a / 16][a % 16]
  }

  function PutByte(mem: Memory, a: nat, b: byte): (r: Memory)
    requires a < 16 * |mem|
    ensures |r| == |mem|
  {
    mem[a / 16 := mem[a / 16][a % 16 := b]]
  }

  /** A byte write changes that byte and no neighbour. */
  lemma PutByteAt(mem: Memory, a: nat, b: byte, c: nat)
    requires a < 16 * |mem| && c < 16 * |mem|
    ensures ByteAt(PutByte(mem, a, b), c) == if c == a then b else ByteAt(mem, c)
  {
  }

  // ----- operations -----

  datatype Op = Read(w: nat) | Write(w: nat, data: word, mask: lanes)

  predicate OpOk(op: Op) {
    op.w < WORDS
  }

  function Do(mem: Memory, op: Op): (r: Memory)
    requires |mem| == WORDS && OpOk(op)
    ensures |r| == WORDS
  {
    if op.Read? then mem else mem[op.w := Merge(mem[op.w], op.data, op.mask)]
  }

  predicate AllOk(ops: seq<Op>) {
    forall i :: 0 <= i < |ops| ==> OpOk(ops[i])
  }

  /** Memory after a list of operations. */
  function Apply(mem: Memory, ops: seq<Op>): (r: Memory)
    requires |mem| == WORDS && AllOk(ops)
    ensures |r| == WORDS
    decreases |ops|
  {
    if ops == [] then mem else Apply(Do(mem, ops[0]), ops[1..])
  }

  lemma {:induction false} ApplyAppend(mem: Memory, ops: seq<Op>, op: Op)
    requires |mem| == WORDS && AllOk(ops) && OpOk(op)
    ensures Apply(mem, ops + [op]) == Do(Apply(mem, ops), op)
    decreases |ops|
  {
    if ops == [] {
      assert (ops + [op])[1..] == [];
    } else {
      ApplyAppend(Do(mem, ops[0]), ops[1..], op);
      assert (ops + [op])[1..] == ops[1..] + [op];
    }
  }

  function Reads(ops: seq<Op>): nat
    decreases |ops|
  {
    if ops == [] then 0 else (if ops[0].Read? then 1 else 0) + Reads(ops[1..])
  }

  lemma {:induction false} ReadsAppend(ops: seq<Op>, op: Op)
    ensures Reads(ops + [op]) == Reads(ops) + if op.Read? then 1 else 0
    decreases |ops|
  {
    if ops != [] {
      ReadsAppend(ops[1..], op);
      assert (ops + [op])[1..] == ops[1..] + [op];
    }
  }

  /** The first read still to be carried out and the burst it will return; (0, the zero burst) if there is none. */
  function Answer(mem: Memory, ops: seq<Op>): (r: (nat, word))
    requires |mem| == WORDS && AllOk(ops)
    decreases |ops|
  {
    if ops == [] then (0, Zeros(16))
    else if ops[0].Read? then (ops[0].w, mem[ops[0].w])
    else Answer(Do(mem, ops[0]), ops[1..])
  }

  /** Later operations do not reach a read that is already waiting; a read appended behind writes sees them all. */
  lemma {:induction false} AnswerAppend(mem: Memory, ops: seq<Op>, op: Op)
    requires |mem| == WORDS && AllOk(ops) && OpOk(op)
    ensures Reads(ops) > 0 ==> Answer(mem, ops + [op]) == Answer(mem, ops)
    ensures Reads(ops) == 0 && op.Read? ==> Answer(mem, ops + [op]) == (op.w, Apply(mem, ops)[op.w])
    decreases |ops|
  {
    if ops != [] && !ops[0].Read? {
      AnswerAppend(Do(mem, ops[0]), ops[1..], op);
      assert (ops + [op])[1..] == ops[1..] + [op];
    }
  }

  // ----- the controller's queues -----

  datatype Cmd = Cmd(addr: nat, read: bool)
  datatype Wdf = Wdf(data: word, mask: lanes)

  /** Accepted commands, accepted write data, memory as far as commands have been carried out. */
  datatype Queues = Queues(cmds: seq<Cmd>, wdfs: seq<Wdf>, mem: Memory)

  function Writes(cmds: seq<Cmd>): nat
    decreases |cmds|
  {
    if cmds == [] then 0 else (if cmds[0].read then 0 else 1) + Writes(cmds[1..])
  }

  lemma {:induction false} WritesAppend(cmds: seq<Cmd>, c: Cmd)
    ensures Writes(cmds + [c]) == Writes(cmds) + if c.read then 0 else 1
    decreases |cmds|
  {
    if cmds != [] {
      WritesAppend(cmds[1..], c);
      assert (cmds + [c])[1..] == cmds[1..] + [c];
    }
  }

  predicate CmdOk(c: Cmd) {
    c.addr / 8 < WORDS
  }

  predicate CmdsOk(cmds: seq<Cmd>) {
    forall i :: 0 <= i < |cmds| ==> CmdOk(cmds[i])
  }

  /** Commands joined with their write data, in order. */
  function Join(cmds: seq<Cmd>, wdfs: seq<Wdf>): (ops: seq<Op>)
    requires CmdsOk(cmds) && Writes(cmds) == |wdfs|
    ensures AllOk(ops) && (cmds != [] ==> ops != [])
    decreases |cmds|
  {
    if cmds == [] then []
    else if cmds[0].read then [Read(cmds[0].addr / 8)] + Join(cmds[1..], wdfs)
    else [Write(cmds[0].addr / 8, wdfs[0].data, wdfs[0].mask)] + Join(cmds[1..], wdfs[1..])
  }

  lemma {:induction false} JoinRead(cmds: seq<Cmd>, wdfs: seq<Wdf>, c: Cmd)
    requires CmdsOk(cmds) && Writes(cmds) == |wdfs| && CmdOk(c) && c.read
    ensures CmdsOk(cmds + [c]) && Writes(cmds + [c]) == |wdfs|
            && Join(cmds + [c], wdfs) == Join(cmds, wdfs) + [Read(c.addr / 8)]
    decreases |cmds|
  {
    WritesAppend(cmds, c);
    if cmds != [] {
      assert (cmds + [c])[1..] == cmds[1..] + [c];
      JoinRead(cmds[1..], if cmds[0].read then wdfs else wdfs[1..], c);
    } else {
      assert (cmds + [c])[1..] == [];
    }
  }

  lemma {:induction false} JoinWrite(cmds: seq<Cmd>, wdfs: seq<Wdf>, c: Cmd, d: Wdf)
    requires CmdsOk(cmds) && Writes(cmds) == |wdfs| && CmdOk(c) && !c.read
    ensures CmdsOk(cmds + [c]) && Writes(cmds + [c]) == |wdfs + [d]|
    ensures Join(cmds + [c], wdfs + [d]) == Join(cmds, wdfs) + [Write(c.addr / 8, d.data, d.mask)]
    decreases |cmds|
  {
    WritesAppend(cmds, c);
    if cmds != [] {
      assert (cmds + [c])[1..] == cmds[1..] + [c];
      if cmds[0].read {
        JoinWrite(cmds[1..], wdfs, c, d);
      } else {
        JoinWrite(cmds[1..], wdfs[1..], c, d);
        assert (wdfs + [d])[1..] == wdfs[1..] + [d];
      }
    } else {
      assert (cmds + [c])[1..] == [] && (wdfs + [d])[1..] == [];
    }
  }

  predicate QueuesOk(m: Queues) {
    |m.mem| == WORDS && CmdsOk(m.cmds)
  }

  /** The head command can be carried out: a write needs its data. */
  predicate CanRetire(m: Queues) {
    m.cmds != [] && (m.cmds[0].read || m.wdfs != [])
  }

  /** The controller carries out its head command. */
  function Retire(m: Queues): (m': Queues)
    requires QueuesOk(m) && CanRetire(m)
    ensures QueuesOk(m')
  {
    if m.cmds[0].read then m.(cmds := m.cmds[1..])
    else Queues(m.cmds[1..], m.wdfs[1..], Do(m.mem, Write(m.cmds[0].addr / 8, m.wdfs[0].data, m.wdfs[0].mask)))
  }
}
