/** The arbiter in front of an in-order DDR2 controller that may stall either handshake at any time: what every
    run keeps, for every mix of engine and DMA traffic. */
module ArbiterRuns {
  import opened Bytes
  import opened Mig
  import opened Ddr2Arbiter

  // ----- what is on its way to memory -----

  function HeldCmd(q: Issue): seq<Cmd> {
    if q.en then [q.cmd] else []
  }

  function HeldWdf(q: Issue): seq<Wdf> {
    if q.wren then [q.wdf] else []
  }

  /** Every write command, accepted or presented, has exactly one data beat, accepted or presented. */
  predicate Balanced(m: Queues, q: Issue) {
    && QueuesOk(m) && CmdsOk(m.cmds + HeldCmd(q)) && Writes(m.cmds + HeldCmd(q)) == |m.wdfs + HeldWdf(q)|
    && (!q.busy ==> !q.en && !q.wren)
  }

  /** The operations issued and not yet carried out, in order. */
  function Pending(m: Queues, q: Issue): (ops: seq<Op>)
    requires Balanced(m, q)
    ensures AllOk(ops)
  {
    Join(m.cmds + HeldCmd(q), m.wdfs + HeldWdf(q))
  }

  lemma BalancedQueues(m: Queues, q: Issue)
    requires Balanced(m, q)
    ensures QueuesOk(m) && |m.mem| == WORDS
  {
  }

  /** The controller takes what is presented and ready. */
  function Accept(m: Queues, q: Issue, rdy: bool, wdfRdy: bool): Queues {
    m.(cmds := if q.en && rdy then m.cmds + [q.cmd] else m.cmds,
       wdfs := if q.wren && wdfRdy then m.wdfs + [q.wdf] else m.wdfs)
  }

  /** Taking a command or a data beat moves it, and changes nothing else. */
  lemma AcceptKeeps(m: Queues, q: Issue, r: Regs, i: In)
    requires Balanced(m, q) && r.issue == q
    ensures Balanced(Accept(m, q, i.rdy, i.wdfRdy), Shaken(r, i))
    ensures Pending(Accept(m, q, i.rdy, i.wdfRdy), Shaken(r, i)) == Pending(m, q)
  {
    var m', q' := Accept(m, q, i.rdy, i.wdfRdy), Shaken(r, i);
    assert m'.cmds + HeldCmd(q') == m.cmds + HeldCmd(q);
    assert m'.wdfs + HeldWdf(q') == m.wdfs + HeldWdf(q);
  }

  function HeadOp(m: Queues): (op: Op)
    requires QueuesOk(m) && CanRetire(m)
    ensures OpOk(op)
  {
    if m.cmds[0].read then Read(m.cmds[0].addr / 8) else Write(m.cmds[0].addr / 8, m.wdfs[0].data, m.wdfs[0].mask)
  }

  /** Carrying out the head command takes it off the front. */
  lemma RetireTakes(m: Queues, q: Issue)
    requires Balanced(m, q) && CanRetire(m)
    ensures Balanced(Retire(m), q) && Pending(m, q) == [HeadOp(m)] + Pending(Retire(m), q)
    ensures Retire(m).mem == Do(m.mem, HeadOp(m))
  {
    var m' := Retire(m);
    assert (m.cmds + HeldCmd(q))[1..] == m'.cmds + HeldCmd(q);
    if !m.cmds[0].read {
      assert (m.wdfs + HeldWdf(q))[1..] == m'.wdfs + HeldWdf(q);
    }
  }

  /** The operation of a choice. */
  function OpOf(r: Regs, c: Choice): Op
    requires c != Nothing
  {
    if IsRead(c) then Read(CmdOf(r, c).addr / 8) else Write(CmdOf(r, c).addr / 8, WdfOf(r, c).data, WdfOf(r, c).mask)
  }

  predicate PortOk(p: Port) {
    p.rdAddr < SIZE && p.addr0 < SIZE && p.addr1 < SIZE && p.cnt <= 2
  }

  predicate RegsOk(r: Regs) {
    PortOk(r.nmc) && PortOk(r.mac) && r.wa.word < SIZE && r.dr.addr < SIZE
  }

  lemma OpOfOk(r: Regs, c: Choice)
    requires RegsOk(r) && c != Nothing
    ensures CmdOk(CmdOf(r, c)) && OpOk(OpOf(r, c)) && CmdOf(r, c).read == IsRead(c)
  {
    hide ToMig;
  }

  /** Presenting an operation appends it. */
  lemma PresentAdds(m: Queues, q: Issue, r: Regs, c: Choice)
    requires Balanced(m, q) && !q.en && !q.wren && RegsOk(r) && c != Nothing
    ensures Balanced(m, Presented(r, c, q)) && Pending(m, Presented(r, c, q)) == Pending(m, q) + [OpOf(r, c)]
  {
    hide CmdOf, WdfOf;
    OpOfOk(r, c);
    var q' := Presented(r, c, q);
    assert m.cmds + [] == m.cmds && m.wdfs + [] == m.wdfs;
    if IsRead(c) {
      JoinRead(m.cmds, m.wdfs, CmdOf(r, c));
    } else {
      JoinWrite(m.cmds, m.wdfs, CmdOf(r, c), WdfOf(r, c));
    }
  }

  // ----- the system and its log -----

  /** What the outside decides in one cycle: port activity, the two ready signals, and whether the controller
      carries out its head command. */
  datatype Env = Env(nmc: PortIn, mac: PortIn, wrEn: bool, wrAddr: nat, wrByte: byte, rdEn: bool, rdAddr: nat,
                     rdy: bool, wdfRdy: bool, go: bool)

  datatype Push = Push(addr: nat, data: word)

  /** History: operations by issuing port, operations carried out, writes each engine pushed, and the read in
      flight with the burst memory held for it when it was issued. */
  datatype Log = Log(issued: seq<(Owner, Op)>, retired: seq<Op>, pushedNmc: seq<Push>, pushedMac: seq<Push>,
                     asker: Owner, askedWord: nat, promised: word)

  datatype Sys = Sys(r: Regs, m: Queues, log: Log)

  predicate EnvOk(e: Env) {
    PortInOk(e.nmc) && PortInOk(e.mac) && e.wrAddr < SIZE && e.rdAddr < SIZE
  }

  /** No engine pushes a third write unless one leaves in the same cycle. */
  predicate NoThird(r: Regs, e: Env) {
    (e.nmc.wrEn && r.nmc.cnt == 2 ==> NmcPop(r)) && (e.mac.wrEn && r.mac.cnt == 2 ==> MacPop(r))
  }

  predicate Going(m: Queues, e: Env) {
    e.go && CanRetire(m)
  }

  /** The arbiter's inputs: a read carried out this cycle shows its burst. */
  function InOf(m: Queues, e: Env): (i: In)
    requires QueuesOk(m)
  {
    var back := Going(m, e) && m.cmds[0].read;
    In(e.nmc, e.mac, e.wrEn, e.wrAddr, e.wrByte, e.rdEn, e.rdAddr, e.rdy, e.wdfRdy, back,
       if back then m.mem[m.cmds[0].addr / 8] else Zeros(16))
  }

  function Source(c: Choice): Owner {
    if c == NmcWrite || c == NmcRead then Nmc else if c == MacWrite || c == MacRead then Mac else Dma
  }

  function NextLog(s: Sys, e: Env): Log
    requires Balanced(s.m, s.r.issue) && RegsOk(s.r)
  {
    var c, l := Chosen(s.r), s.log;
    var k := l.(retired := if Going(s.m, e) then l.retired + [HeadOp(s.m)] else l.retired,
                pushedNmc := if e.nmc.wrEn then l.pushedNmc + [Push(e.nmc.wrAddr, e.nmc.wrData)] else l.pushedNmc,
                pushedMac := if e.mac.wrEn then l.pushedMac + [Push(e.mac.wrAddr, e.mac.wrData)] else l.pushedMac);
    if c == Nothing then k
    else
      OpOfOk(s.r, c);
      var op := OpOf(s.r, c);
      var t := k.(issued := k.issued + [(Source(c), op)]);
      if IsRead(c) then t.(asker := Source(c), askedWord := op.w,
        promised := Apply(s.m.mem, Pending(s.m, s.r.issue))[op.w]) else t
  }

  function NextQueues(m: Queues, q: Issue, e: Env): Queues
    requires QueuesOk(m)
  {
    Accept(if Going(m, e) then Retire(m) else m, q, e.rdy, e.wdfRdy)
  }

  /** One cycle of arbiter, controller and history. */
  function Next(s: Sys, e: Env): (s': Sys)
    requires Balanced(s.m, s.r.issue) && RegsOk(s.r)
  {
    Sys(Step(s.r, InOf(s.m, e)), NextQueues(s.m, s.r.issue, e), NextLog(s, e))
  }

  // ----- what every run keeps -----

  /** The operations of a log without their port. */
  function Untag(l: seq<(Owner, Op)>): (ops: seq<Op>)
    ensures |ops| == |l|
  {
    seq(|l|, i requires 0 <= i < |l| => l[i].1)
  }

  /** The writes of one port, in order. */
  function WritesOf(l: seq<(Owner, Op)>, w: Owner): seq<Op> {
    if l == [] then []
    else WritesOf(l[..|l| - 1], w) + (if l[|l| - 1].0 == w && l[|l| - 1].1.Write? then [l[|l| - 1].1] else [])
  }

  function AsWrite(p: Push): Op {
    Write(p.addr / 16, p.data, NoLanes())
  }

  function AsWrites(ps: seq<Push>): (ops: seq<Op>)
    ensures |ops| == |ps|
  {
    seq(|ps|, i requires 0 <= i < |ps| => AsWrite(ps[i]))
  }

  /** What a port's queue holds, oldest first. */
  function Contents(p: Port): (c: seq<Push>)
    ensures |c| == if p.cnt <= 2 then p.cnt else 2
  {
    if p.cnt == 0 then [] else if p.cnt == 1 then [Push(p.addr0, p.data0)]
      else [Push(p.addr0, p.data0), Push(p.addr1, p.data1)]
  }

  /** Each engine's pushes are its issued writes followed by what its queue still holds. */
  predicate InOrder(s: Sys) {
    && AsWrites(s.log.pushedNmc) == WritesOf(s.log.issued, Nmc) + AsWrites(Contents(s.r.nmc))
    && AsWrites(s.log.pushedMac) == WritesOf(s.log.issued, Mac) + AsWrites(Contents(s.r.mac))
  }

  /** Every issued operation is carried out exactly once and in order: done ones, then pending ones. */
  predicate Accounted(s: Sys, mem0: Memory)
    requires Balanced(s.m, s.r.issue) && |mem0| == WORDS
  {
    && AllOk(s.log.retired) && Untag(s.log.issued) == s.log.retired + Pending(s.m, s.r.issue)
    && s.m.mem == Apply(mem0, s.log.retired)
  }

  /** At most one read is in flight; its owner tag names the port that asked, and its burst will be the one memory
      held behind all operations issued before it. */
  predicate OneRead(s: Sys)
    requires Balanced(s.m, s.r.issue)
  {
    var ops := Pending(s.m, s.r.issue);
    && Reads(ops) == (if s.r.rdBusy then 1 else 0)
    && (s.r.rdBusy ==> s.r.rdOwner == s.log.asker && Answer(s.m.mem, ops) == (s.log.askedWord, s.log.promised))
  }

  predicate Inv(s: Sys, mem0: Memory)
    requires |mem0| == WORDS
  {
    Balanced(s.m, s.r.issue) && RegsOk(s.r) && InOrder(s) && Accounted(s, mem0) && OneRead(s)
  }

  function Start(mem0: Memory): Sys {
    Sys(Reset(), Queues([], [], mem0), Log([], [], [], [], Nmc, 0, Zeros(16)))
  }

  lemma StartInv(mem0: Memory)
    requires |mem0| == WORDS
    ensures Inv(Start(mem0), mem0)
  {
    assert Pending(Start(mem0).m, Start(mem0).r.issue) == [];
  }

  /** How one cycle changes the pending operations: the head leaves if carried out, the chosen one joins the tail. */
  lemma PendingNext(s: Sys, e: Env)
    requires Balanced(s.m, s.r.issue) && RegsOk(s.r)
    ensures var s', ops, c := Next(s, e), Pending(s.m, s.r.issue), Chosen(s.r);
            && Balanced(s'.m, s'.r.issue)
            && (Going(s.m, e) ==> ops != [] && ops[0] == HeadOp(s.m))
            && s'.m.mem == (if Going(s.m, e) then Do(s.m.mem, HeadOp(s.m)) else s.m.mem)
            && Pending(s'.m, s'.r.issue) ==
               (if Going(s.m, e) then ops[1..] else ops) + (if c == Nothing then [] else [OpOf(s.r, c)])
  {
    hide Pending, RegsOk, OpOf, Assembled, Answered, Filled, Latched, NextLog;
    var i := InOf(s.m, e);
    var c := Chosen(s.r);
    if Going(s.m, e) {
      RetireTakes(s.m, s.r.issue);
    }
    var m1 := if Going(s.m, e) then Retire(s.m) else s.m;
    AcceptKeeps(m1, s.r.issue, s.r, i);
    if c != Nothing {
      PresentAdds(NextQueues(s.m, s.r.issue, e), Shaken(s.r, i), s.r, c);
    }
  }

  /** The engine ports stay within bounds, and their addresses too. */
  lemma RegsNext(s: Sys, e: Env)
    requires Balanced(s.m, s.r.issue) && RegsOk(s.r) && EnvOk(e) && NoThird(s.r, e)
    ensures RegsOk(Next(s, e).r)
  {
    hide Balanced, Presented, Filled, Shaken, NextLog, NextQueues, Writes;
    PopsAgree(s.r);
  }

  /** One port's queue loses its head when popped and gains the push, exactly unless a third write arrives
      with nothing leaving. */
  lemma QueueNextIff(p: Port, i: PortIn, pop: bool)
    requires p.cnt <= 2 && (pop ==> p.cnt > 0)
    ensures !(i.wrEn && p.cnt == 2 && !pop) <==>
            && Latched(p, i, pop).cnt <= 2
            && Contents(Latched(p, i, pop)) == Contents(p)[if pop then 1 else 0..] + (if i.wrEn
                then [Push(i.wrAddr, i.wrData)] else [])
  {
  }

  lemma WritesOfNext(l: seq<(Owner, Op)>, t: (Owner, Op), w: Owner)
    ensures WritesOf(l + [t], w) == WritesOf(l, w) + if t.0 == w && t.1.Write? then [t.1] else []
  {
    assert (l + [t])[..|l|] == l;
  }

  lemma OrderNext(s: Sys, e: Env)
    requires Balanced(s.m, s.r.issue) && RegsOk(s.r) && NoThird(s.r, e) && InOrder(s)
    ensures InOrder(Next(s, e))
  {
    hide Balanced, RegsOk, Next, Latched, WritesOf, AsWrites, Contents;
    PopsAgree(s.r);
    PortsBounded(s.r);
    PortsNext(s, e);
    OneOrder(s.r.nmc, e.nmc, NmcPop(s.r), s.log.pushedNmc, WritesOf(s.log.issued, Nmc));
    OneOrder(s.r.mac, e.mac, MacPop(s.r), s.log.pushedMac, WritesOf(s.log.issued, Mac));
  }

  /** What one cycle adds to the queues' history: a popped head is the write the chain issues. */
  lemma PortsNext(s: Sys, e: Env)
    requires Balanced(s.m, s.r.issue) && RegsOk(s.r)
    ensures var s' := Next(s, e);
            && Contents(s'.r.nmc) == Contents(Latched(s.r.nmc, e.nmc, NmcPop(s.r)))
            && Contents(s'.r.mac) == Contents(Latched(s.r.mac, e.mac, MacPop(s.r)))
            && s'.log.pushedNmc == (if e.nmc.wrEn then s.log.pushedNmc + [Push(e.nmc.wrAddr, e.nmc.wrData)]
                else s.log.pushedNmc)
            && s'.log.pushedMac == (if e.mac.wrEn then s.log.pushedMac + [Push(e.mac.wrAddr, e.mac.wrData)]
                else s.log.pushedMac)
            && WritesOf(s'.log.issued, Nmc) ==
               WritesOf(s.log.issued, Nmc) + (if NmcPop(s.r) then [AsWrite(Push(s.r.nmc.addr0, s.r.nmc.data0))] else [])
            && WritesOf(s'.log.issued, Mac) ==
               WritesOf(s.log.issued, Mac) + (if MacPop(s.r) then [AsWrite(Push(s.r.mac.addr0, s.r.mac.data0))] else [])
  {
    hide Balanced, Presented, Filled, Shaken, NextQueues, Latched, Assembled, Answered, Apply, Pending, WritesOf;
    PopsAgree(s.r);
    var c := Chosen(s.r);
    if c != Nothing {
      WritesOfNext(s.log.issued, (Source(c), OpOf(s.r, c)), Nmc);
      WritesOfNext(s.log.issued, (Source(c), OpOf(s.r, c)), Mac);
    }
  }

  lemma PortsBounded(r: Regs)
    requires RegsOk(r)
    ensures r.nmc.cnt <= 2 && r.mac.cnt <= 2
  {
  }

  lemma OneOrder(p: Port, i: PortIn, pop: bool, pushed: seq<Push>, done: seq<Op>)
    requires p.cnt <= 2 && (pop ==> p.cnt > 0) && !(i.wrEn && p.cnt == 2 && !pop)
    requires AsWrites(pushed) == done + AsWrites(Contents(p))
    ensures AsWrites(if i.wrEn then pushed + [Push(i.wrAddr, i.wrData)] else pushed) ==
            done + (if pop then [AsWrite(Push(p.addr0, p.data0))] else []) + AsWrites(Contents(Latched(p, i, pop)))
  {
    hide AsWrites, Contents, Latched, AsWrite;
    QueueNextIff(p, i, pop);
    var c, n := Contents(p), if i.wrEn then [Push(i.wrAddr, i.wrData)] else [];
    AsWritesApp(pushed, n);
    AsWritesApp(c[if pop then 1 else 0..], n);
    if pop {
      HeadOut(p);
    } else {
      assert c[0..] == c;
    }
    assert pushed + [] == pushed;
  }

  lemma HeadOut(p: Port)
    requires 0 < p.cnt <= 2
    ensures AsWrites(Contents(p)) == [AsWrite(Push(p.addr0, p.data0))] + AsWrites(Contents(p)[1..])
  {
    hide AsWrite;
  }

  lemma AsWritesApp(a: seq<Push>, b: seq<Push>)
    ensures AsWrites(a + b) == AsWrites(a) + AsWrites(b)
  {
  }

  lemma UntagNext(l: seq<(Owner, Op)>, t: (Owner, Op))
    ensures Untag(l + [t]) == Untag(l) + [t.1]
  {
  }

  lemma AccountedNext(s: Sys, e: Env, mem0: Memory)
    requires Balanced(s.m, s.r.issue) && RegsOk(s.r) && |mem0| == WORDS && Accounted(s, mem0)
    ensures Balanced(Next(s, e).m, Next(s, e).r.issue) && Accounted(Next(s, e), mem0)
  {
    hide Balanced, RegsOk, Pending, Step, Apply, Untag, NextQueues, OpOf;
    PendingNext(s, e);
    BalancedQueues(s.m, s.r.issue);
    BalancedQueues(Next(s, e).m, Next(s, e).r.issue);
    var c, ops := Chosen(s.r), Pending(s.m, s.r.issue);
    if c != Nothing {
      UntagNext(s.log.issued, (Source(c), OpOf(s.r, c)));
    }
    if Going(s.m, e) {
      ApplyAppend(mem0, s.log.retired, HeadOp(s.m));
      assert s.log.retired + ops == (s.log.retired + [HeadOp(s.m)]) + ops[1..];
    }
  }

  lemma OneReadNext(s: Sys, e: Env)
    requires Balanced(s.m, s.r.issue) && RegsOk(s.r) && OneRead(s)
    ensures Balanced(Next(s, e).m, Next(s, e).r.issue) && OneRead(Next(s, e))
  {
    hide Balanced, RegsOk, Pending, Apply, NextQueues, OpOf, Presented, Assembled, Answered, Filled, Latched, Shaken;
    PendingNext(s, e);
    BalancedQueues(s.m, s.r.issue);
    BalancedQueues(Next(s, e).m, Next(s, e).r.issue);
    var c, ops := Chosen(s.r), Pending(s.m, s.r.issue);
    var rest := if Going(s.m, e) then ops[1..] else ops;
    var mem' := Next(s, e).m.mem;
    ReadChoice(s.r);
    if c != Nothing {
      OpOfOk(s.r, c);
      OpKind(s.r, c);
      ReadsAppend(rest, OpOf(s.r, c));
      AnswerAppend(mem', rest, OpOf(s.r, c));
      if Going(s.m, e) {
        assert Apply(s.m.mem, ops) == Apply(mem', rest) by { ApplyHead(s.m.mem, ops); }
      }
    } else {
      assert rest + [] == rest;
    }
  }

  lemma ApplyHead(mem: Memory, ops: seq<Op>)
    requires |mem| == WORDS && AllOk(ops) && ops != []
    ensures Apply(mem, ops) == Apply(Do(mem, ops[0]), ops[1..])
  {
  }

  lemma OpKind(r: Regs, c: Choice)
    requires c != Nothing
    ensures OpOf(r, c).Read? == IsRead(c)
  {
  }

  /** A read is issued only while none is in flight. */
  lemma ReadChoice(r: Regs)
    ensures IsRead(Chosen(r)) ==> !r.rdBusy
  {
  }

  /** Every cycle keeps the invariant, whatever the controller's ready and latency behaviour. */
  lemma NextInv(s: Sys, e: Env, mem0: Memory)
    requires |mem0| == WORDS && Inv(s, mem0) && EnvOk(e) && NoThird(s.r, e)
    ensures Inv(Next(s, e), mem0)
  {
    hide Balanced, RegsOk, InOrder, Accounted, OneRead, Next, NoThird;
    RegsNext(s, e);
    OrderNext(s, e);
    AccountedNext(s, e, mem0);
    OneReadNext(s, e);
  }

  // ----- whole runs -----

  /** A run from reset whose engines never push a third write without a pop. */
  predicate Lawful(mem0: Memory, es: seq<Env>)
    requires |mem0| == WORDS
    decreases |es|, 0
  {
    es == [] ||
    (var front, e := es[..|es| - 1], es[|es| - 1];
     Lawful(mem0, front) && EnvOk(e) && NoThird(After(mem0, front).r, e))
  }

  /** The state after a run; the invariant holds in all of them. */
  function After(mem0: Memory, es: seq<Env>): (s: Sys)
    requires |mem0| == WORDS && Lawful(mem0, es)
    ensures Inv(s, mem0)
    decreases |es|, 1
  {
    if es == [] then StartInv(mem0); Start(mem0)
    else
      var front, e := es[..|es| - 1], es[|es| - 1];
      var s := After(mem0, front);
      NextInv(s, e, mem0);
      Next(s, e)
  }

  /** Under any back-pressure, what the controller has carried out is a prefix of what the arbiter issued, memory is
      exactly that prefix applied, and each engine's pushed writes are issued once each, in order, at most two
      behind. */
  lemma IssuedOnceInOrder(mem0: Memory, es: seq<Env>)
    requires |mem0| == WORDS && Lawful(mem0, es)
    ensures var l := After(mem0, es).log;
            && l.retired <= Untag(l.issued) && AllOk(l.retired) && After(mem0, es).m.mem == Apply(mem0, l.retired)
            && WritesOf(l.issued, Nmc) <= AsWrites(l.pushedNmc) && |l.pushedNmc| <= |WritesOf(l.issued, Nmc)| + 2
            && WritesOf(l.issued, Mac) <= AsWrites(l.pushedMac) && |l.pushedMac| <= |WritesOf(l.issued, Mac)| + 2
  {
    hide After, Balanced, RegsOk, OneRead, Pending, Apply, WritesOf, Contents;
    var s := After(mem0, es);
    assert InOrder(s) && Accounted(s, mem0);
  }

  /** An engine's read is issued only behind all the writes it pushed before. */
  lemma ReadBehindWrites(s: Sys)
    requires InOrder(s)
    ensures Chosen(s.r) == NmcRead ==> AsWrites(s.log.pushedNmc) == WritesOf(s.log.issued, Nmc)
    ensures Chosen(s.r) == MacRead ==> AsWrites(s.log.pushedMac) == WritesOf(s.log.issued, Mac)
  {
    hide WritesOf;
  }

  /** A burst that comes back goes to the port that asked and to no other, and is the burst memory held behind every
      operation issued before the request. */
  lemma ReturnRouted(s: Sys, e: Env, mem0: Memory, w: Owner)
    requires |mem0| == WORDS && Inv(s, mem0) && InOf(s.m, e).rdValid
    ensures ReturnTo(s.r, InOf(s.m, e), w) <==> w == s.log.asker
    ensures InOf(s.m, e).rdData == s.log.promised
  {
    hide RegsOk, InOrder, Accounted, Pending, Apply;
    RetireTakes(s.m, s.r.issue);
  }

  /** The first read pending is the one the log promises an answer to. */
  lemma AskedWhenIssued(s: Sys, e: Env, mem0: Memory)
    requires |mem0| == WORDS && Inv(s, mem0) && IsRead(Chosen(s.r))
    ensures var l := Next(s, e).log;
            && l.asker == Source(Chosen(s.r))
            && l.askedWord == (match Chosen(s.r) case NmcRead => s.r.nmc.rdAddr case MacRead => s.r.mac.rdAddr
                case _ => s.r.dr.addr) / 16
            && l.askedWord < WORDS && AllOk(Untag(s.log.issued))
            && l.promised == Apply(mem0, Untag(s.log.issued))[l.askedWord]
  {
    hide InOrder, OneRead, Pending, Apply, Untag, Step, NextQueues, ToMig;
    var ops := Pending(s.m, s.r.issue);
    OpOfOk(s.r, Chosen(s.r));
    AskedWord(s.r);
    ApplyConcat(mem0, s.log.retired, ops);
  }

  lemma AskedWord(r: Regs)
    requires IsRead(Chosen(r))
    ensures OpOf(r, Chosen(r)).w ==
            (match Chosen(r) case NmcRead => r.nmc.rdAddr case MacRead => r.mac.rdAddr case _ => r.dr.addr) / 16
  {
  }

  lemma {:induction false} ApplyConcat(mem: Memory, a: seq<Op>, b: seq<Op>)
    requires |mem| == WORDS && AllOk(a) && AllOk(b)
    ensures AllOk(a + b) && Apply(mem, a + b) == Apply(Apply(mem, a), b)
    decreases |a|
  {
    if a == [] {
      assert a + b == b;
    } else {
      ApplyConcat(Do(mem, a[0]), a[1..], b);
      assert (a + b)[1..] == a[1..] + b;
    }
  }
}
