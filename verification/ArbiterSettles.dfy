/** Left alone, the arbiter finishes: staged bytes leave the stage, latched requests are issued, and what is issued is
    carried out, however often the controller stalls in between. */
module ArbiterSettles {
  import opened Bytes
  import opened Mig
  import opened Ddr2Arbiter
  import opened ArbiterRuns
  import opened ArbiterDma

  // ----- the stage and the read side in every run -----

  /** A flush is for a staged word, the idle count stays within its limit, and a DMA read outstanding waits to be issued
      or is in flight. */
  predicate SideOk(r: Regs) {
    && r.wa.idle <= IDLE_LIMIT && (r.wa.flush ==> r.wa.valid)
    && (r.dr.busy <==> r.dr.req || (r.rdBusy && r.rdOwner == Dma)) && !(r.dr.req && r.rdBusy && r.rdOwner == Dma)
  }

  lemma SideNext(r: Regs, i: In)
    requires SideOk(r) && (i.rdValid ==> r.rdBusy)
    ensures SideOk(Step(r, i))
  {
    hide Presented, Shaken, Latched, Aligned, Same;
  }

  lemma ReturnExpected(s: Sys, e: Env, mem0: Memory)
    requires |mem0| == WORDS && Inv(s, mem0)
    ensures QueuesOk(s.m) && (InOf(s.m, e).rdValid ==> s.r.rdBusy)
  {
    hide RegsOk, InOrder, Accounted, Pending, Apply, OneRead, Balanced;
    InvParts(s, mem0);
    BalancedQueues(s.m, s.r.issue);
    ReturnIsPromised(s, e, mem0);
  }

  /** So it is in every state of every run from reset. */
  lemma {:induction false} RunSide(mem0: Memory, es: seq<Env>)
    requires |mem0| == WORDS && Lawful(mem0, es)
    ensures SideOk(After(mem0, es).r)
    decreases |es|
  {
    hide Inv, Balanced, RegsOk, SideOk, Step, NextLog, NextQueues, NoThird;
    if es == [] {
      ResetSide();
    } else {
      var front, e := es[..|es| - 1], es[|es| - 1];
      RunSide(mem0, front);
      ReturnExpected(After(mem0, front), e, mem0);
      SideNext(After(mem0, front).r, InOf(After(mem0, front).m, e));
    }
  }

  lemma ResetSide()
    ensures SideOk(Reset())
  {
  }

  // ----- when the flush is raised -----

  function Steps(r: Regs, ins: seq<In>): Regs
    decreases |ins|
  {
    if ins == [] then r else Steps(Step(r, ins[0]), ins[1..])
  }

  predicate Silent(i: In) {
    !i.wrEn && !i.rdEn
  }

  lemma SilentStep(r: Regs, i: In)
    requires r.wa.valid && !r.wa.flush && r.wa.idle <= IDLE_LIMIT && Silent(i)
    ensures var a := Step(r, i).wa;
            && a.valid && a.word == r.wa.word && a.data == r.wa.data && a.lanes == r.wa.lanes
            && (if r.wa.idle == IDLE_LIMIT then a.flush else !a.flush && a.idle == r.wa.idle + 1)
  {
    hide Presented, Shaken, Latched, Answered, Filled;
  }

  /** A staged word of a silent client is left as it is for exactly the cycles that remain to the idle limit, and
      flushed after one more, whatever the engines and the controller do meanwhile. */
  lemma {:induction false} FlushedAfterIdle(r: Regs, ins: seq<In>)
    requires r.wa.valid && !r.wa.flush && r.wa.idle <= IDLE_LIMIT && forall k :: 0 <= k < |ins| ==> Silent(ins[k])
    requires |ins| <= IDLE_LIMIT - r.wa.idle + 1
    ensures var a := Steps(r, ins).wa;
            && a.valid && a.word == r.wa.word && a.data == r.wa.data && a.lanes == r.wa.lanes
            && (a.flush <==> |ins| == IDLE_LIMIT - r.wa.idle + 1)
    decreases |ins|
  {
    hide Step, Silent;
    if ins != [] {
      SilentStep(r, ins[0]);
      if |ins| > 1 {
        FlushedAfterIdle(Step(r, ins[0]), ins[1..]);
      }
    }
  }

  /** A read that waits, or a write that is not accepted, has the staged word flushed at once. */
  lemma WaitingFlushes(r: Regs, i: In)
    requires SideOk(r) && r.wa.valid && (i.rdEn || (i.wrEn && !WriteAccept(r, i)))
    ensures Step(r, i).wa.flush || Chosen(r) == Flush
  {
    hide Presented, Shaken, Latched, Answered, Filled;
  }

  // ----- work left -----

  /** Requests latched, staged or waiting. */
  function Unissued(r: Regs): nat {
    r.nmc.cnt + r.mac.cnt + (if r.nmc.rdReq then 1 else 0) + (if r.mac.rdReq then 1 else 0)
    + (if r.wa.valid then 1 else 0) + (if r.dr.req then 1 else 0)
  }

  /** Cycles until the stage asks to be flushed. */
  function Countdown(r: Regs): nat {
    if r.wa.valid && !r.wa.flush && r.wa.idle <= IDLE_LIMIT then IDLE_LIMIT + 1 - r.wa.idle else 0
  }

  /** Work left at the registers: three cycles to issue a request, one to free the issue slot. */
  function RegsWork(r: Regs): nat {
    3 * Unissued(r) + (if r.issue.busy then 1 else 0) + Countdown(r)
  }

  function Work(s: Sys): (n: nat)
    requires Balanced(s.m, s.r.issue)
  {
    |Pending(s.m, s.r.issue)| + RegsWork(s.r)
  }

  lemma WorkBound(s: Sys)
    requires Balanced(s.m, s.r.issue) && RegsOk(s.r)
    ensures Work(s) <= |Pending(s.m, s.r.issue)| + IDLE_LIMIT + 26
  {
    hide Balanced, Pending;
  }

  /** No engine pulses, and nothing the client may offer is accepted. */
  predicate Undisturbed(s: Sys, e: Env)
    requires QueuesOk(s.m)
  {
    EnvOk(e) && EnginesIdle(e) && !WriteAccept(s.r, InOf(s.m, e)) && !ReadAccept(s.r, InOf(s.m, e))
  }

  /** The controller takes what is presented and carries out its head command. */
  predicate Serves(e: Env) {
    e.rdy && e.wdfRdy && e.go
  }

  /** What an undisturbed cycle does at the registers. */
  lemma RegsWorkNext(r: Regs, i: In)
    requires RegsOk(r) && SideOk(r) && !WriteAccept(r, i) && !ReadAccept(r, i)
    requires !i.nmc.rdEn && !i.nmc.wrEn && !i.mac.rdEn && !i.mac.wrEn
    ensures var n, c := Step(r, i), Chosen(r);
            if c != Nothing then RegsWork(n) + 2 <= RegsWork(r)
            else RegsWork(n) <= RegsWork(r) - (if (r.issue.busy && i.rdy && i.wdfRdy) || Countdown(r) > 0
                then 1 else 0)
  {
    hide Aligned, Same, CmdOf, WdfOf, PutLane, SetLane;
  }

  /** Nothing to issue and nothing counting down: only the controller has work. */
  lemma NothingLeft(r: Regs)
    requires RegsOk(r) && SideOk(r) && Chosen(r) == Nothing && !r.issue.busy && Countdown(r) == 0
    ensures !r.rdBusy ==> RegsWork(r) == 0
    ensures !r.wa.valid
  {
  }

  lemma HeadCanGo(m: Queues, q: Issue)
    requires Balanced(m, q) && !q.busy && Pending(m, q) != []
    ensures CanRetire(m)
  {
    assert m.cmds + [] == m.cmds && m.wdfs + [] == m.wdfs;
  }

  lemma OneReadCount(s: Sys, mem0: Memory)
    requires |mem0| == WORDS && Inv(s, mem0)
    ensures Balanced(s.m, s.r.issue) && RegsOk(s.r) && QueuesOk(s.m)
    ensures s.r.rdBusy ==> Pending(s.m, s.r.issue) != []
    ensures Pending(s.m, s.r.issue) == [] ==> !s.r.rdBusy
  {
    hide Balanced, RegsOk, InOrder, Accounted, Pending;
    OneReadPending(s, mem0);
  }

  /** Every cycle leaves the work as it is or less, and less if the controller serves it. */
  lemma WorkNext(s: Sys, e: Env, mem0: Memory)
    requires |mem0| == WORDS && Inv(s, mem0) && QueuesOk(s.m) && SideOk(s.r) && Undisturbed(s, e)
    ensures Balanced(s.m, s.r.issue) && RegsOk(s.r)
    ensures var n := Next(s, e);
            && Inv(n, mem0) && QueuesOk(n.m) && SideOk(n.r) && Balanced(n.m, n.r.issue)
            && n.log.pushedNmc == s.log.pushedNmc && n.log.pushedMac == s.log.pushedMac
            && Work(n) <= Work(s) - (if Serves(e) && Work(s) > 0 then 1 else 0)
  {
    hide Inv, Balanced, RegsOk, SideOk, Step, Pending, RegsWork, Countdown, NextQueues, Chosen, OpOf, CanRetire,
         WriteAccept, ReadAccept;
    OneReadCount(s, mem0);
    Pushless(s, e);
    NextInv(s, e, mem0);
    OneReadCount(Next(s, e), mem0);
    ReturnExpected(s, e, mem0);
    SideNext(s.r, InOf(s.m, e));
    PendingNext(s, e);
    RegsWorkNext(s.r, InOf(s.m, e));
    if Chosen(s.r) == Nothing && !s.r.issue.busy && Countdown(s.r) == 0 {
      NothingLeft(s.r);
      if Pending(s.m, s.r.issue) != [] {
        HeadCanGo(s.m, s.r.issue);
      }
    }
  }

  /** Without pulses nothing is pushed. */
  lemma Pushless(s: Sys, e: Env)
    requires Balanced(s.m, s.r.issue) && RegsOk(s.r) && EnginesIdle(e)
    ensures NoThird(s.r, e)
    ensures Next(s, e).log.pushedNmc == s.log.pushedNmc && Next(s, e).log.pushedMac == s.log.pushedMac
  {
    hide Balanced, RegsOk, Step, NextQueues, Apply, Pending, OpOf;
  }

  // ----- whole stretches -----

  predicate Goes(s: Sys, e: Env, n: Sys) {
    Balanced(s.m, s.r.issue) && RegsOk(s.r) && Undisturbed(s, e) && n == Next(s, e)
  }

  /** A stretch of undisturbed cycles. */
  predicate Alone(ss: seq<Sys>, es: seq<Env>) {
    |ss| == |es| + 1 && forall k :: 0 <= k < |es| ==> Goes(ss[k], es[k], ss[k + 1])
  }

  /** Cycles in which the controller serves. */
  function Served(es: seq<Env>): nat
    decreases |es|
  {
    if es == [] then 0 else (if Serves(es[0]) then 1 else 0) + Served(es[1..])
  }

  lemma AloneTail(ss: seq<Sys>, es: seq<Env>)
    requires Alone(ss, es) && es != []
    ensures Alone(ss[1..], es[1..]) && Goes(ss[0], es[0], ss[1])
  {
    hide Goes;
    forall k | 0 <= k < |es| - 1
      ensures Goes(ss[1..][k], es[1..][k], ss[1..][k + 1])
    {
      assert Goes(ss[k + 1], es[k + 1], ss[k + 2]);
    }
  }

  /** Nothing latched, staged, outstanding or on its way, and ready for whatever the client offers. */
  ghost predicate Settled(s: Sys)
    requires Balanced(s.m, s.r.issue)
  {
    && Pending(s.m, s.r.issue) == [] && s.r.nmc.cnt == 0 && !s.r.nmc.rdReq && s.r.mac.cnt == 0 && !s.r.mac.rdReq
    && !s.r.wa.valid && !s.r.dr.busy && !s.r.rdBusy && ReadReady(s.r) && forall i: In :: WriteReady(s.r, i)
  }

  lemma NoWorkSettled(s: Sys, mem0: Memory)
    requires |mem0| == WORDS && Inv(s, mem0) && SideOk(s.r) && Balanced(s.m, s.r.issue) && Work(s) == 0
    ensures Settled(s)
  {
    hide Inv, Balanced, Pending;
    OneReadCount(s, mem0);
  }

  /** From every state of every run: once the controller has served as many cycles as there is work left, at most 57
      more than operations pending, and however many it stalls in between, everything has been issued and carried out.
      Memory is all writes issued, in order, those of each engine are exactly the ones it pushed, no read is left, and
      the client finds both directions ready: what it offers meanwhile waits no longer. */
  lemma {:induction false} Settles(ss: seq<Sys>, es: seq<Env>, mem0: Memory)
    requires |mem0| == WORDS && Alone(ss, es) && Inv(ss[0], mem0) && Balanced(ss[0].m, ss[0].r.issue) && SideOk(ss[0].r)
    requires Served(es) >= Work(ss[0])
    ensures Work(ss[0]) <= |Pending(ss[0].m, ss[0].r.issue)| + 57
    ensures var s := ss[|es|];
            && Balanced(s.m, s.r.issue) && Settled(s) && AllOk(Untag(s.log.issued))
            && s.m.mem == Apply(mem0, Untag(s.log.issued))
            && AsWrites(ss[0].log.pushedNmc) == WritesOf(s.log.issued, Nmc)
            && AsWrites(ss[0].log.pushedMac) == WritesOf(s.log.issued, Mac)
    decreases |es|
  {
    hide Inv, Balanced, RegsOk, SideOk, Work, Goes, Settled, WritesOf, AsWrites, Untag, Apply, Serves, Pending;
    InvParts(ss[0], mem0);
    WorkBound(ss[0]);
    if es == [] {
      NoWorkSettled(ss[0], mem0);
      SettledLog(ss[0], mem0);
    } else {
      AloneTail(ss, es);
      GoesOn(ss[0], es[0], ss[1], mem0);
      Settles(ss[1..], es[1..], mem0);
    }
  }

  lemma GoesOn(s: Sys, e: Env, n: Sys, mem0: Memory)
    requires |mem0| == WORDS && Inv(s, mem0) && SideOk(s.r) && Balanced(s.m, s.r.issue) && Goes(s, e, n)
    ensures Inv(n, mem0) && SideOk(n.r) && Balanced(n.m, n.r.issue)
    ensures n.log.pushedNmc == s.log.pushedNmc && n.log.pushedMac == s.log.pushedMac
    ensures Work(n) <= Work(s) - (if Serves(e) && Work(s) > 0 then 1 else 0)
  {
    hide Inv, Balanced, RegsOk, SideOk, Work, Next, Serves, Undisturbed;
    BalancedQueues(s.m, s.r.issue);
    WorkNext(s, e, mem0);
  }

  lemma SettledLog(s: Sys, mem0: Memory)
    requires |mem0| == WORDS && Inv(s, mem0) && Balanced(s.m, s.r.issue) && Settled(s)
    ensures AllOk(Untag(s.log.issued)) && s.m.mem == Apply(mem0, Untag(s.log.issued))
    ensures AsWrites(s.log.pushedNmc) == WritesOf(s.log.issued, Nmc)
    ensures AsWrites(s.log.pushedMac) == WritesOf(s.log.issued, Mac)
  {
    hide Balanced, RegsOk, Pending, WritesOf, Apply, Untag, OneRead;
    assert s.log.retired + [] == s.log.retired;
    assert AsWrites([]) == [];
    assert WritesOf(s.log.issued, Nmc) + [] == WritesOf(s.log.issued, Nmc);
    assert WritesOf(s.log.issued, Mac) + [] == WritesOf(s.log.issued, Mac);
  }

  // ----- the client's bytes -----

  /** Points of a run with idle engines in which nothing is accepted from the client. */
  predicate Waits(es: seq<Env>, ps: seq<Point>) {
    Trace(es, ps) && forall k :: 0 <= k < |es| ==> QueuesOk(ps[k].0.m) && Undisturbed(ps[k].0, es[k])
  }

  lemma {:induction false} WaitKeeps(es: seq<Env>, ps: seq<Point>, mem0: Memory, k: nat)
    requires |mem0| == WORDS && Waits(es, ps) && DmaInv(ps[0].0, ps[0].1, mem0) && k <= |es|
    ensures DmaInv(ps[k].0, ps[k].1, mem0) && ps[k].1.flat == ps[0].1.flat && ps[k].1.owed == ps[0].1.owed
  {
    hide DmaInv, Undisturbed;
    if k > 0 {
      WaitKeeps(es, ps, mem0, k - 1);
      assert NextOf(ps[k - 1], es[k - 1], ps[k]);
      WaitStep(ps[k - 1], es[k - 1], ps[k], mem0);
    }
  }

  lemma WaitStep(p: Point, e: Env, n: Point, mem0: Memory)
    requires |mem0| == WORDS && DmaInv(p.0, p.1, mem0) && NextOf(p, e, n) && QueuesOk(p.0.m) && Undisturbed(p.0, e)
    ensures DmaInv(n.0, n.1, mem0) && n.1.flat == p.1.flat && n.1.owed == p.1.owed
  {
    hide Inv, Balanced, RegsOk, Agree, Step, Top, Next, WriteAccept, ReadAccept;
    DmaNext(p.0, p.1, e, mem0);
  }

  /** Every byte the client had accepted reaches memory, and every answer it is owed has been given, once the
      controller has served the work left: nothing need be drained before. */
  lemma BytesReachMemory(es: seq<Env>, ps: seq<Point>, mem0: Memory)
    requires |mem0| == WORDS && Waits(es, ps) && DmaInv(ps[0].0, ps[0].1, mem0) && SideOk(ps[0].0.r)
    requires Balanced(ps[0].0.m, ps[0].0.r.issue) && Served(es) >= Work(ps[0].0)
    ensures var n := ps[|es|];
            && n.0.m.mem == n.1.flat == ps[0].1.flat && n.1.got == n.1.owed == ps[0].1.owed
            && ReadReady(n.0.r) && forall i: In :: WriteReady(n.0.r, i)
  {
    hide Inv, Balanced, RegsOk, SideOk, Work, Undisturbed, Agree, Apply, WritesOf, AsWrites, Untag, Pending, ReadReady,
         WriteReady, Next, NextClient;
    WaitKeeps(es, ps, mem0, |es|);
    var ss := seq(|ps|, k requires 0 <= k < |ps| => ps[k].0);
    forall k | 0 <= k < |es|
      ensures Goes(ss[k], es[k], ss[k + 1])
    {
      assert NextOf(ps[k], es[k], ps[k + 1]);
    }
    Settles(ss, es, mem0);
    SettledFlat(ps[|es|], mem0);
  }

  lemma SettledFlat(p: Point, mem0: Memory)
    requires |mem0| == WORDS && DmaInv(p.0, p.1, mem0) && Balanced(p.0.m, p.0.r.issue) && Settled(p.0)
    ensures p.0.m.mem == p.1.flat && p.1.got == p.1.owed
  {
    hide Inv, Balanced, Pending, ReadReady, WriteReady;
    assert p.1.got + [] == p.1.got;
  }
}
