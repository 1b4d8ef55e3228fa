/** Why no accepted write may overtake a read of its own word: from every lawful state such a write leads, whatever
    came before, to a run whose pulses differ from what is owed. */
module DmaHazard {
  import opened Bytes
  import opened Mig
  import opened Ddr2Arbiter
  import opened ArbiterRuns
  import opened ArbiterDma

  /** Every answer owed has been given, and not all are right. */
  predicate Wrong(v: Client) {
    |v.owed| == |v.got| && v.owed != v.got
  }

  function NoPort(): PortIn {
    PortIn(false, 0, false, 0, Zeros(16))
  }

  function Still(): Env {
    Env(NoPort(), NoPort(), false, 0, 0, false, 0, false, false, false)
  }

  /** From p, a run without a single further write ends with a wrong answer given. */
  predicate GoesWrong(p: Point, es: seq<Env>, ps: seq<Point>) {
    Trace(es, ps) && ps[0] == p && NoWrites(es) && Wrong(ps[|es|].1)
  }

  predicate NoWrites(es: seq<Env>) {
    forall k :: 0 <= k < |es| ==> !es[k].wrEn
  }

  // ----- while a read is outstanding -----

  predicate Calm(r: Regs) {
    r.nmc.cnt == 0 && !r.nmc.rdReq && r.mac.cnt == 0 && !r.mac.rdReq
  }

  /** A DMA read is outstanding, and everything but the stage is as a lawful run leaves it. */
  predicate Waiting(p: Point, mem0: Memory)
    requires |mem0| == WORDS
  {
    var r := p.0.r;
    && Inv(p.0, mem0) && Calm(r) && |p.1.flat| == WORDS && (r.wa.flush ==> r.wa.valid)
    && r.dr.busy && r.dr.off == r.dr.addr % 16 && r.dr.req != r.rdBusy
    && (r.rdBusy ==> r.rdOwner == Dma) && |p.1.owed| == |p.1.got| + 1
  }

  /** Nothing offered but, at will, a read that cannot be accepted; the controller takes whatever is presented. */
  function Quiet(ask: bool, a: nat, go: bool): Env {
    Still().(rdEn := ask, rdAddr := a, rdy := true, wdfRdy := true, go := go)
  }

  /** What a quiet cycle does to the registers while a read is outstanding. */
  lemma QuietRegs(r: Regs, i: In)
    requires Calm(r) && !i.wrEn && r.dr.busy && r.dr.req != r.rdBusy && (r.rdBusy ==> r.rdOwner == Dma)
    requires !i.nmc.rdEn && !i.nmc.wrEn && !i.mac.rdEn && !i.mac.wrEn && i.rdy && i.wdfRdy && (i.rdValid ==> r.rdBusy)
    requires !r.issue.busy ==> !r.issue.en && !r.issue.wren
    ensures var n, c := Step(r, i), Chosen(r);
            && Calm(n) && c in {Flush, DmaRead, Nothing}
            && n.dr.busy == !i.rdValid && n.dr.addr == r.dr.addr && n.dr.off == r.dr.off
            && n.dr.req == (r.dr.req && c != DmaRead) && n.rdBusy == (c == DmaRead || (r.rdBusy && !i.rdValid))
            && (n.rdBusy ==> n.rdOwner == Dma)
            && n.dr.valid == i.rdValid && (i.rdValid ==> n.dr.byteOut == i.rdData[r.dr.off % 16])
            && n.wa == (if c == Flush then Emptied(Assembled(r, i)) else Assembled(r, i))
            && (c == Nothing ==> !n.issue.busy && !n.issue.en && !n.issue.wren)
            && (i.rdValid && c != Flush ==> n.rc == Cache(true, Aligned(r.dr.addr), i.rdData))
  {
    hide Assembled, Aligned;
  }

  lemma Unbusy(s: Sys)
    requires Balanced(s.m, s.r.issue)
    ensures !s.r.issue.busy ==> !s.r.issue.en && !s.r.issue.wren
  {
  }

  /** The same cycle of the whole system: the client sees nothing but the return, and memory moves only by a flush. */
  lemma QuietNext(p: Point, ask: bool, a: nat, go: bool, mem0: Memory) returns (n: Point)
    requires |mem0| == WORDS && Waiting(p, mem0) && a < SIZE
    ensures NextOf(p, Quiet(ask, a, go), n)
    ensures n.0.r == Step(p.0.r, InOf(p.0.m, Quiet(ask, a, go)))
    ensures Inv(n.0, mem0) && Calm(n.0.r) && n.1.flat == p.1.flat && n.1.owed == p.1.owed
    ensures var i := InOf(p.0.m, Quiet(ask, a, go));
            if i.rdValid then p.0.r.rdBusy && i.rdData == p.0.log.promised
              && n.1.got == p.1.got + [p.0.log.promised[p.0.r.dr.off % 16]]
            else n.1.got == p.1.got
    ensures p.0.r.dr.addr / 16 < WORDS
    ensures n.0.log.promised == if Chosen(p.0.r) == DmaRead then Top(p.0)[p.0.r.dr.addr / 16] else p.0.log.promised
    ensures Top(n.0) == TopNext(p.0.r, Top(p.0))
    ensures Pending(n.0.m, n.0.r.issue) ==
            (if Going(p.0.m, Quiet(ask, a, go)) then Pending(p.0.m, p.0.r.issue)[1..] else Pending(p.0.m, p.0.r.issue))
            + (if Chosen(p.0.r) == Nothing then [] else [OpOf(p.0.r, Chosen(p.0.r))])
  {
    hide Balanced, RegsOk, InOrder, Accounted, OneRead, Apply, OpOf, Assembled, Aligned, Pending, Step, NextQueues,
         NextLog;
    InvParts(p.0, mem0);
    var e := Quiet(ask, a, go);
    n := Step1(p, e);
    NextInv(p.0, e, mem0);
    ReturnIsPromised(p.0, e, mem0);
    TopStep(p.0, e);
    IdleTop(p.0, Top(p.0));
    LogNext(p.0, e);
    PendingNext(p.0, e);
    Unbusy(p.0);
    QuietRegs(p.0.r, InOf(p.0.m, e));
    InvParts(n.0, mem0);
  }

  // ----- letting the controller finish -----

  /** The read is issued and the stage empty: only the controller has work left. */
  predicate Draining(p: Point, mem0: Memory)
    requires |mem0| == WORDS
  {
    Waiting(p, mem0) && p.0.r.rdBusy && !p.0.r.wa.valid
  }

  /** Nothing outstanding or staged, and the cache holds the burst the read was answered with. */
  predicate Filled(p: Point, mem0: Memory, a: nat, burst: word)
    requires |mem0| == WORDS
  {
    var r := p.0.r;
    && Inv(p.0, mem0) && |p.1.flat| == WORDS && !r.dr.busy && !r.wa.valid && !r.wa.flush
    && r.rc == Cache(true, Aligned(a), burst)
  }

  predicate Held(q: Issue) {
    q.en || q.wren
  }

  lemma HeadReady(m: Queues, q: Issue)
    requires Balanced(m, q) && !Held(q) && Reads(Pending(m, q)) > 0
    ensures CanRetire(m)
  {
    assert m.cmds + [] == m.cmds && m.wdfs + [] == m.wdfs;
  }

  /** One cycle of draining: the slot empties, or the head of the queue is carried out. */
  lemma DrainStep(p: Point, mem0: Memory) returns (go: bool, n: Point)
    requires |mem0| == WORDS && Draining(p, mem0)
    ensures NextOf(p, Quiet(false, 0, go), n) && Balanced(p.0.m, p.0.r.issue) && Balanced(n.0.m, n.0.r.issue)
    ensures !Held(n.0.r.issue) && go == !Held(p.0.r.issue)
    ensures Draining(n, mem0) || Filled(n, mem0, p.0.r.dr.addr, p.0.log.promised)
    ensures Draining(n, mem0) ==>
            && n.1 == p.1 && n.0.log.promised == p.0.log.promised
            && n.0.r.dr.addr == p.0.r.dr.addr && n.0.r.dr.off == p.0.r.dr.off
            && |Pending(n.0.m, n.0.r.issue)| == |Pending(p.0.m, p.0.r.issue)| - if go then 1 else 0
    ensures !Draining(n, mem0) ==> n.1 == p.1.(got := p.1.got + [p.0.log.promised[p.0.r.dr.off % 16]])
    ensures Pending(p.0.m, p.0.r.issue) != []
  {
    hide Inv, Balanced, RegsOk, Pending, Step, NextOf, Aligned, OpOf, Top, TopNext;
    OneReadPending(p.0, mem0);
    Unbusy(p.0);
    go := !Held(p.0.r.issue);
    if go {
      HeadReady(p.0.m, p.0.r.issue);
    }
    n := QuietNext(p, false, 0, go, mem0);
    QuietRegs(p.0.r, InOf(p.0.m, Quiet(false, 0, go)));
    OneReadPending(n.0, mem0);
    assert Chosen(p.0.r) == Nothing;
  }

  /** The read's own operation and those before it are carried out; then it is answered with what it was promised. */
  lemma {:induction false} Drain(p: Point, mem0: Memory) returns (es: seq<Env>, ps: seq<Point>)
    requires |mem0| == WORDS && Draining(p, mem0)
    ensures Trace(es, ps) && ps[0] == p && NoWrites(es)
    ensures Filled(ps[|es|], mem0, p.0.r.dr.addr, p.0.log.promised)
    ensures ps[|es|].1 == p.1.(got := p.1.got + [p.0.log.promised[p.0.r.dr.off % 16]])
    decreases |Pending(p.0.m, p.0.r.issue)|, Held(p.0.r.issue)
  {
    hide Draining, Filled, NextOf, Balanced, Pending;
    var go, n := DrainStep(p, mem0);
    var e := Quiet(false, 0, go);
    if Draining(n, mem0) {
      var fs, qs := Drain(n, mem0);
      TraceStep(p, e, fs, qs);
      es, ps := [e] + fs, [p] + qs;
    } else {
      es, ps := [e], [p, n];
    }
  }

  // ----- the stale cache -----

  /** The byte at `a` the client last wrote is `b`, in the word being read. */
  predicate Written(p: Point, mem0: Memory, a: nat, b: byte)
    requires |mem0| == WORDS
  {
    Waiting(p, mem0) && a < SIZE && a / 16 == p.0.r.dr.addr / 16 && ByteAt(p.1.flat, a) == b
  }

  lemma StaleHit(r: Regs, i: In, c: nat, burst: word)
    requires !r.dr.busy && !r.wa.valid && !r.wa.flush && r.rc == Cache(true, Aligned(c), burst)
    requires i.rdEn && i.rdAddr / 16 == c / 16 && !i.rdValid && !i.wrEn
    ensures ReadAccept(r, i) && !WriteAccept(r, i) && Step(r, i).dr.valid
            && Step(r, i).dr.byteOut == burst[i.rdAddr % 16]
  {
    hide Presented, Shaken, Latched, Assembled;
  }

  /** The cache answers with the burst; the client is owed its own byte. */
  lemma ReadStale(p: Point, mem0: Memory, c: nat, burst: word, a: nat, b: byte) returns (e: Env, n: Point)
    requires |mem0| == WORDS && Filled(p, mem0, c, burst) && a < SIZE && a / 16 == c / 16 && ByteAt(p.1.flat, a) == b
    requires burst[a % 16] != b && |p.1.owed| == |p.1.got|
    ensures NextOf(p, e, n) && Wrong(n.1) && !e.wrEn
  {
    hide Inv, Step, Balanced, RegsOk, Aligned, NextOf, ReadAccept, WriteAccept, ByteAt;
    OneReadPending(p.0, mem0);
    e := Still().(rdEn := true, rdAddr := a);
    n := Step1(p, e);
    MakeNext(p, e);
    StaleHit(p.0.r, InOf(p.0.m, e), c, burst);
    assert n.1.owed[|p.1.owed|] == b && n.1.got[|p.1.got|] == burst[a % 16];
  }

  /** The stage is empty and the burst under way is older than the byte: filled with it, the cache is stale. */
  lemma StaleFill(p: Point, mem0: Memory, a: nat, b: byte) returns (es: seq<Env>, ps: seq<Point>)
    requires |mem0| == WORDS && Draining(p, mem0) && Written(p, mem0, a, b) && p.0.log.promised[a % 16] != b
    ensures GoesWrong(p, es, ps)
  {
    hide Filled, NextOf, Inv, Aligned;
    var fs, qs := Drain(p, mem0);
    var e, n := ReadStale(qs[|fs|], mem0, p.0.r.dr.addr, p.0.log.promised, a, b);
    TraceJoin(fs, qs, [e], [qs[|fs|], n]);
    es, ps := fs + [e], qs + [n];
  }

  /** The flush behind the read: it empties the stage before the old burst arrives. */
  lemma {:induction false} FlushBehind(p: Point, mem0: Memory, a: nat, b: byte) returns (es: seq<Env>, ps: seq<Point>)
    requires |mem0| == WORDS && Written(p, mem0, a, b) && p.0.r.rdBusy && p.0.r.wa.flush
    requires p.0.log.promised[a % 16] != b
    ensures GoesWrong(p, es, ps)
    decreases p.0.r.issue.busy
  {
    hide Inv, Balanced, RegsOk, Pending, Step, NextOf, Aligned, OpOf, Top, TopNext;
    OneReadPending(p.0, mem0);
    Unbusy(p.0);
    var e := Quiet(false, 0, false);
    var n := QuietNext(p, false, 0, false, mem0);
    QuietRegs(p.0.r, InOf(p.0.m, e));
    var fs, qs;
    if p.0.r.issue.busy {
      fs, qs := FlushBehind(n, mem0, a, b);
    } else {
      fs, qs := StaleFill(n, mem0, a, b);
    }
    TraceStep(p, e, fs, qs);
    es, ps := [e] + fs, [p] + qs;
  }

  /** The read is issued and the byte staged: another read request, not accepted, raises the flush. */
  lemma StagedBehind(p: Point, mem0: Memory, a: nat, b: byte) returns (es: seq<Env>, ps: seq<Point>)
    requires |mem0| == WORDS && Written(p, mem0, a, b) && p.0.r.rdBusy && p.0.r.wa.valid
    requires p.0.log.promised[a % 16] != b
    ensures GoesWrong(p, es, ps)
  {
    hide Inv, Balanced, RegsOk, Pending, Step, NextOf, Aligned, OpOf, Top, TopNext;
    if p.0.r.wa.flush {
      es, ps := FlushBehind(p, mem0, a, b);
    } else {
      OneReadPending(p.0, mem0);
      Unbusy(p.0);
      var e := Quiet(true, 0, false);
      var n := QuietNext(p, true, 0, false, mem0);
      QuietRegs(p.0.r, InOf(p.0.m, e));
      var fs, qs := FlushBehind(n, mem0, a, b);
      TraceStep(p, e, fs, qs);
      es, ps := [e] + fs, [p] + qs;
    }
  }

  /** The byte is staged and no flush raised: the read is issued first. */
  lemma {:induction false} IssueFirst(p: Point, mem0: Memory, a: nat, b: byte) returns (es: seq<Env>, ps: seq<Point>)
    requires |mem0| == WORDS && Written(p, mem0, a, b) && p.0.r.dr.req && p.0.r.wa.valid && !p.0.r.wa.flush
    requires p.0.r.wa.idle < if p.0.r.issue.busy then IDLE_LIMIT - 1 else IDLE_LIMIT
    requires Balanced(p.0.m, p.0.r.issue) && Top(p.0)[a / 16][a % 16] != b
    ensures GoesWrong(p, es, ps)
    decreases p.0.r.issue.busy
  {
    hide Inv, Balanced, RegsOk, Pending, Step, NextOf, Aligned, OpOf, Top;
    OneReadPending(p.0, mem0);
    Unbusy(p.0);
    var e := Quiet(false, 0, false);
    var n := QuietNext(p, false, 0, false, mem0);
    QuietRegs(p.0.r, InOf(p.0.m, e));
    OneReadPending(n.0, mem0);
    var fs, qs;
    if p.0.r.issue.busy {
      fs, qs := IssueFirst(n, mem0, a, b);
    } else {
      fs, qs := StagedBehind(n, mem0, a, b);
    }
    TraceStep(p, e, fs, qs);
    es, ps := [e] + fs, [p] + qs;
  }

  // ----- the flush ahead of its read -----

  /** The read asks for the byte itself and is owed another value. */
  predicate Asking(p: Point, mem0: Memory, b: byte)
    requires |mem0| == WORDS
  {
    Waiting(p, mem0) && p.1.owed[|p.1.got|] != b
  }

  /** Issued behind the new byte, the read is answered with it. */
  lemma {:induction false} IssueBehind(p: Point, mem0: Memory, b: byte) returns (es: seq<Env>, ps: seq<Point>)
    requires |mem0| == WORDS && Asking(p, mem0, b) && p.0.r.dr.req && !p.0.r.wa.valid
    requires Balanced(p.0.m, p.0.r.issue) && p.0.r.dr.addr < SIZE && ByteAt(Top(p.0), p.0.r.dr.addr) == b
    ensures GoesWrong(p, es, ps)
    decreases p.0.r.issue.busy
  {
    hide Inv, Balanced, RegsOk, Pending, Step, NextOf, Aligned, OpOf, Top, Filled;
    OneReadPending(p.0, mem0);
    Unbusy(p.0);
    var e := Quiet(false, 0, false);
    var n := QuietNext(p, false, 0, false, mem0);
    QuietRegs(p.0.r, InOf(p.0.m, e));
    OneReadPending(n.0, mem0);
    var fs, qs;
    if p.0.r.issue.busy {
      fs, qs := IssueBehind(n, mem0, b);
    } else {
      fs, qs := Drain(n, mem0);
    }
    TraceStep(p, e, fs, qs);
    es, ps := [e] + fs, [p] + qs;
  }

  lemma {:induction false} FlushAhead(p: Point, mem0: Memory, b: byte) returns (es: seq<Env>, ps: seq<Point>)
    requires |mem0| == WORDS && Asking(p, mem0, b) && p.0.r.dr.req && p.0.r.wa.flush
    requires Balanced(p.0.m, p.0.r.issue) && p.0.r.dr.addr < SIZE && p.0.r.wa.word < SIZE
    requires p.1.flat == Staged(Top(p.0), p.0.r.wa) && ByteAt(p.1.flat, p.0.r.dr.addr) == b
    ensures GoesWrong(p, es, ps)
    decreases p.0.r.issue.busy
  {
    hide Inv, Balanced, RegsOk, Pending, Step, NextOf, Aligned, OpOf, Top, Staged;
    OneReadPending(p.0, mem0);
    Unbusy(p.0);
    var e := Quiet(false, 0, false);
    var n := QuietNext(p, false, 0, false, mem0);
    QuietRegs(p.0.r, InOf(p.0.m, e));
    OneReadPending(n.0, mem0);
    StageParts(p.0.r, Top(p.0));
    var fs, qs;
    if p.0.r.issue.busy {
      StageStill(p.0.r, InOf(p.0.m, e), Top(p.0));
      fs, qs := FlushAhead(n, mem0, b);
    } else {
      fs, qs := IssueBehind(n, mem0, b);
    }
    TraceStep(p, e, fs, qs);
    es, ps := [e] + fs, [p] + qs;
  }

  // ----- every overtaking write does harm -----

  /** The registers after an overtaking write: staged, behind or ahead of the read of its word. */
  lemma Overtaken(r: Regs, i: In, top: Memory, flat: Memory, askedWord: nat, promised: word)
    requires Agree(r, top, flat, askedWord, promised) && i.wrAddr < SIZE && i.rdAddr < SIZE && Overtakes(r, i, flat)
    requires !i.nmc.rdEn && !i.nmc.wrEn && !i.mac.rdEn && !i.mac.wrEn && (i.rdValid ==> r.rdBusy)
    ensures var n, w := Step(r, i), i.wrAddr / 16;
            && WriteAccept(r, i) && ByteAt(flat, i.wrAddr) != i.wrByte
            && Calm(n) && n.dr.off == n.dr.addr % 16 && n.dr.req != n.rdBusy && (n.rdBusy ==> n.rdOwner == Dma)
            && !n.dr.valid && n.wa.valid && n.wa.idle == 0 && Chosen(r) in {DmaRead, Nothing} && flat[w] == top[w]
            && (n.rdBusy ==> if Chosen(r) == DmaRead then r.dr.addr / 16 == w else promised == top[w])
            && n.dr.busy && n.dr.addr / 16 == w && (n.dr.req && n.wa.flush ==> n.dr.addr == i.wrAddr)
            && (ReadAccept(r, i) <==> !r.dr.busy) && n.dr.addr == if ReadAccept(r, i) then i.rdAddr else r.dr.addr
  {
    hide Presented, Shaken, Merge, Staged;
    StageParts(r, top);
  }

  /** From every lawful state, a write that overtakes a read has a continuation that answers a read wrongly. */
  lemma OvertakingGoesWrong(s: Sys, v: Client, e: Env, mem0: Memory) returns (es: seq<Env>, ps: seq<Point>)
    requires |mem0| == WORDS && DmaInv(s, v, mem0) && EnvOk(e) && EnginesIdle(e) && !Safe((s, v), e)
    ensures GoesWrong(Step1((s, v), e), es, ps)
  {
    hide Inv, Balanced, RegsOk, Step, Top, NextQueues, OpOf, PutByte, Overtakes, GoesWrong;
    InvParts(s, mem0);
    AgreeParts(s.r, Top(s), v.flat, s.log.askedWord, s.log.promised);
    var i, a, b := InOf(s.m, e), e.wrAddr, e.wrByte;
    var n := Step1((s, v), e);
    NextInv(s, e, mem0);
    ReturnIsPromised(s, e, mem0);
    TopStep(s, e);
    IdleTop(s, Top(s));
    LogNext(s, e);
    Overtaken(s.r, i, Top(s), v.flat, s.log.askedWord, s.log.promised);
    FlatStep(s.r, i, Top(s), v.flat, s.log.askedWord, s.log.promised);
    PutByteAt(v.flat, a, b, a);
    if n.0.r.rdBusy {
      es, ps := StagedBehind(n, mem0, a, b);
    } else if n.0.r.wa.flush {
      es, ps := FlushAhead(n, mem0, b);
    } else {
      es, ps := IssueFirst(n, mem0, a, b);
    }
  }

  /** Without further writes a lawful state never gives a wrong answer. */
  lemma {:induction false} StaysRight(p: Point, es: seq<Env>, ps: seq<Point>, mem0: Memory)
    requires |mem0| == WORDS && DmaInv(p.0, p.1, mem0) && Trace(es, ps) && ps[0] == p && NoWrites(es)
    ensures !Wrong(ps[|es|].1)
    decreases |es|
  {
    hide Inv, Balanced, RegsOk, Step, Top, NextQueues, Agree, NextClient, Next;
    if es != [] {
      InvParts(p.0, mem0);
      assert NextOf(ps[0], es[0], ps[1]);
      DmaNext(p.0, p.1, es[0], mem0);
      assert Trace(es[1..], ps[1..]) by { TraceTail(es, ps); }
      StaysRight(ps[1], es[1..], ps[1..], mem0);
    }
  }

  /** The condition is exact: in a lawful state a cycle is safe if and only if no run without further writes goes
      wrong after it. */
  lemma SafeIff(s: Sys, v: Client, e: Env, mem0: Memory)
    requires |mem0| == WORDS && DmaInv(s, v, mem0) && EnvOk(e) && EnginesIdle(e)
    ensures Balanced(s.m, s.r.issue) && RegsOk(s.r)
    ensures Safe((s, v), e) <==> forall es, ps :: !GoesWrong(Step1((s, v), e), es, ps)
  {
    hide Inv, Balanced, RegsOk, Agree, Trace, NoWrites, Wrong, Safe;
    InvParts(s, mem0);
    if Safe((s, v), e) {
      DmaNext(s, v, e, mem0);
      forall es, ps
        ensures !GoesWrong(Step1((s, v), e), es, ps)
      {
        if GoesWrong(Step1((s, v), e), es, ps) {
          StaysRight(Step1((s, v), e), es, ps, mem0);
        }
      }
    } else {
      var es, ps := OvertakingGoesWrong(s, v, e, mem0);
    }
  }

  // ----- the shortest such run from reset -----

  /** A read of byte 0 is accepted; before it returns a write of byte 0 is accepted and flushed; the fill then
      revives the cache with the old burst; the next read of byte 0 hits it. */
  function OvertakingRun(b: byte): seq<Env> {
    [Still().(rdEn := true), Still().(wrEn := true, wrByte := b), Still().(rdEn := true, rdy := true), Still(),
     Still().(rdy := true, wdfRdy := true, go := true), Still().(rdEn := true)]
  }

  /** The states a run from reset goes through. */
  predicate Passes(mem0: Memory, es: seq<Env>, ps: seq<Point>)
    requires |mem0| == WORDS
  {
    Trace(es, ps) && ps[0] == (Start(mem0), Client(mem0, [], []))
  }

  function OneByte(b: byte): word {
    PutLane(Zeros(16), 0, b)
  }

  function OneLane(): lanes {
    SetLane(NoLanes(), 0)
  }

  /** The registers, the controller and the client at one point of the run. */
  predicate At(p: Point, r: Regs, m: Queues, v: Client) {
    p.0.r == r && p.0.m == m && p.1 == v
  }

  function Asked(busy: Issue, rdBusy: bool, wa: Assembler): Regs {
    Reset().(dr := Reader(true, !rdBusy, 0, 0, 0, false), issue := busy, rdBusy := rdBusy, rdOwner := if rdBusy then Dma
      else Nmc, wa := wa)
  }

  const NO_WDF := Wdf(Zeros(16), Not(NoLanes()))

  lemma Overtaking1(mem0: Memory, b: byte, p: Point) returns (n: Point)
    requires |mem0| == WORDS && At(p, Reset(), Queues([], [], mem0), Client(mem0, [], []))
    ensures NextOf(p, OvertakingRun(b)[0], n)
    ensures At(n, Asked(Reset().issue, false, Reset().wa), Queues([], [], mem0), Client(mem0, [mem0[0][0]], []))
  {
    var e := Still().(rdEn := true);
    n := (Next(p.0, e), NextClient(p.1, p.0, e));
  }

  lemma Overtaking2(mem0: Memory, b: byte, p: Point) returns (n: Point)
    requires |mem0| == WORDS
    requires At(p, Asked(Reset().issue, false, Reset().wa), Queues([], [], mem0), Client(mem0, [mem0[0][0]], []))
    ensures NextOf(p, OvertakingRun(b)[1], n)
    ensures At(n, Asked(Issue(true, true, Cmd(0, true), false, NO_WDF), true,
            Assembler(true, 0, OneByte(b), OneLane(), 0, false)),
               Queues([], [], mem0), Client(PutByte(mem0, 0, b), [mem0[0][0]], []))
  {
    var e := Still().(wrEn := true, wrByte := b);
    n := (Next(p.0, e), NextClient(p.1, p.0, e));
  }

  lemma Overtaking3(mem0: Memory, b: byte, p: Point) returns (n: Point)
    requires |mem0| == WORDS
    requires At(p, Asked(Issue(true, true, Cmd(0, true), false, NO_WDF), true,
             Assembler(true, 0, OneByte(b), OneLane(), 0, false)),
                Queues([], [], mem0), Client(PutByte(mem0, 0, b), [mem0[0][0]], []))
    ensures NextOf(p, OvertakingRun(b)[2], n)
    ensures At(n, Asked(Issue(false, false, Cmd(0, true), false, NO_WDF), true,
            Assembler(true, 0, OneByte(b), OneLane(), 1, true)),
               Queues([Cmd(0, true)], [], mem0), Client(PutByte(mem0, 0, b), [mem0[0][0]], []))
  {
    var e := Still().(rdEn := true, rdy := true);
    n := (Next(p.0, e), NextClient(p.1, p.0, e));
  }

  lemma Overtaking4(mem0: Memory, b: byte, p: Point) returns (n: Point)
    requires |mem0| == WORDS
    requires At(p, Asked(Issue(false, false, Cmd(0, true), false, NO_WDF), true,
             Assembler(true, 0, OneByte(b), OneLane(), 1, true)),
                Queues([Cmd(0, true)], [], mem0), Client(PutByte(mem0, 0, b), [mem0[0][0]], []))
    ensures NextOf(p, OvertakingRun(b)[3], n)
    ensures At(n, Asked(Issue(true, true, Cmd(0, false), true, Wdf(OneByte(b), Not(OneLane()))), true,
            Assembler(false, 0, OneByte(b), NoLanes(), 0, false)),
               Queues([Cmd(0, true)], [], mem0), Client(PutByte(mem0, 0, b), [mem0[0][0]], []))
  {
    n := (Next(p.0, Still()), NextClient(p.1, p.0, Still()));
  }

  lemma Overtaking5(mem0: Memory, b: byte, p: Point) returns (n: Point)
    requires |mem0| == WORDS
    requires At(p, Asked(Issue(true, true, Cmd(0, false), true, Wdf(OneByte(b), Not(OneLane()))), true,
             Assembler(false, 0, OneByte(b), NoLanes(), 0, false)),
                Queues([Cmd(0, true)], [], mem0), Client(PutByte(mem0, 0, b), [mem0[0][0]], []))
    ensures NextOf(p, OvertakingRun(b)[4], n)
    ensures !n.0.r.wa.valid && !n.0.r.wa.flush && !n.0.r.dr.busy && n.0.r.rc == Cache(true, 0, mem0[0])
    ensures Balanced(n.0.m, n.0.r.issue) && RegsOk(n.0.r)
    ensures n.1 == Client(PutByte(mem0, 0, b), [mem0[0][0]], [mem0[0][0]])
  {
    var e := Still().(rdy := true, wdfRdy := true, go := true);
    WritesAppend([Cmd(0, true)], Cmd(0, false));
    assert Writes([Cmd(0, true)]) == 0;
    assert Balanced(p.0.m, p.0.r.issue) && Going(p.0.m, e);
    PendingNext(p.0, e);
    n := (Next(p.0, e), NextClient(p.1, p.0, e));
  }

  lemma Overtaking6(mem0: Memory, b: byte, p: Point) returns (n: Point)
    requires |mem0| == WORDS
    requires !p.0.r.wa.valid && !p.0.r.wa.flush && !p.0.r.dr.busy && p.0.r.rc == Cache(true, 0, mem0[0])
    requires Balanced(p.0.m, p.0.r.issue) && RegsOk(p.0.r)
    requires p.1 == Client(PutByte(mem0, 0, b), [mem0[0][0]], [mem0[0][0]])
    ensures NextOf(p, OvertakingRun(b)[5], n)
    ensures n.1 == Client(PutByte(mem0, 0, b), [mem0[0][0], b], [mem0[0][0], mem0[0][0]])
  {
    var e := Still().(rdEn := true);
    n := (Next(p.0, e), NextClient(p.1, p.0, e));
  }

  /** One write during an outstanding read is enough: the second of two reads of byte 0 owes the byte written between
      them and answers with the old one. */
  lemma OvertakenReadIsStale(mem0: Memory, b: byte) returns (ps: seq<Point>)
    requires |mem0| == WORDS
    ensures Passes(mem0, OvertakingRun(b), ps)
    ensures ps[6].1.owed == [mem0[0][0], b] && ps[6].1.got == [mem0[0][0], mem0[0][0]]
  {
    hide NextOf, Start, At;
    var p0 := StartAt(mem0);
    var p1 := Overtaking1(mem0, b, p0);
    var p2 := Overtaking2(mem0, b, p1);
    var p3 := Overtaking3(mem0, b, p2);
    var p4 := Overtaking4(mem0, b, p3);
    var p5 := Overtaking5(mem0, b, p4);
    var p6 := Overtaking6(mem0, b, p5);
    ps := [p0, p1, p2, p3, p4, p5, p6];
  }

  lemma StartAt(mem0: Memory) returns (p: Point)
    ensures p == (Start(mem0), Client(mem0, [], [])) && At(p, Reset(), Queues([], [], mem0), Client(mem0, [], []))
  {
    p := (Start(mem0), Client(mem0, [], []));
  }
}
