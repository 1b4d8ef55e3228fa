/** The engines' reads through the arbiter: each is answered once, in order, with what memory holds behind everything
    issued before it. */
module EngineReads {
  import opened Mig
  import opened Ddr2Arbiter
  import opened ArbiterRuns
  import opened ArbiterDma
  import opened DmaAnswers

  function PortOf(r: Regs, w: Owner): Port
    requires w != Dma
  {
    if w == Nmc then r.nmc else r.mac
  }

  function PulseOf(e: Env, w: Owner): PortIn
    requires w != Dma
  {
    if w == Nmc then e.nmc else e.mac
  }

  /** The issue chain takes port w's read. */
  predicate Takes(r: Regs, w: Owner) {
    IsRead(Chosen(r)) && Source(Chosen(r)) == w
  }

  /** A new read pulse lands on one that still waits: there is one latch per port. */
  predicate Replaces(r: Regs, e: Env, w: Owner)
    requires w != Dma
  {
    PortOf(r, w).rdReq && PulseOf(e, w).rdEn && !Takes(r, w)
  }

  /** One engine's history: words it asked for, reads replaced before they were issued, bursts it got. */
  datatype Engine = Engine(asked: seq<nat>, lost: nat, got: seq<word>)

  function NextEngine(v: Engine, s: Sys, e: Env, w: Owner): Engine
    requires w != Dma && QueuesOk(s.m)
  {
    var i, pulse := InOf(s.m, e), PulseOf(e, w);
    Engine(if pulse.rdEn then v.asked + [pulse.rdAddr / 16] else v.asked,
           if Replaces(s.r, e, w) then v.lost + 1 else v.lost,
           if ReturnTo(s.r, i, w) then v.got + [i.rdData] else v.got)
  }

  /** The words of the reads issued for a port, in order. */
  function WordsOf(l: seq<(Owner, Op)>, w: Owner): seq<nat> {
    if l == [] then []
    else WordsOf(l[..|l| - 1], w) + (if l[|l| - 1].0 == w && l[|l| - 1].1.Read? then [l[|l| - 1].1.w] else [])
  }

  /** The bursts those reads are due: memory behind every operation issued before. */
  function Due(mem0: Memory, l: seq<(Owner, Op)>, w: Owner): (d: seq<word>)
    requires |mem0| == WORDS && AllOk(Untag(l))
    ensures |d| == |WordsOf(l, w)|
  {
    if l == [] then []
    else
      var front, t := l[..|l| - 1], l[|l| - 1];
      FrontOk(l);
      Due(mem0, front, w) + (if t.0 == w && t.1.Read? then [Apply(mem0, Untag(front))[t.1.w]] else [])
  }

  lemma FrontOk(l: seq<(Owner, Op)>)
    requires l != [] && AllOk(Untag(l))
    ensures AllOk(Untag(l[..|l| - 1])) && OpOk(l[|l| - 1].1)
  {
    var ops := Untag(l);
    assert Untag(l[..|l| - 1]) == ops[..|l| - 1] && ops[|l| - 1] == l[|l| - 1].1;
  }

  function Waiting(p: Port): seq<nat> {
    if p.rdReq then [p.rdAddr / 16] else []
  }

  predicate InFlight(r: Regs, w: Owner) {
    r.rdBusy && r.rdOwner == w
  }

  /** What has come back and what is in flight is what is due; what was asked and not replaced has been issued or
      waits. */
  predicate EngineInv(s: Sys, v: Engine, mem0: Memory, w: Owner)
    requires |mem0| == WORDS && w != Dma
  {
    && AllOk(Untag(s.log.issued))
    && v.got + (if InFlight(s.r, w) then [s.log.promised] else []) == Due(mem0, s.log.issued, w)
    && |v.asked| == |WordsOf(s.log.issued, w)| + |Waiting(PortOf(s.r, w))| + v.lost
    && (v.lost == 0 ==> v.asked == WordsOf(s.log.issued, w) + Waiting(PortOf(s.r, w)))
  }

  lemma WordsNext(l: seq<(Owner, Op)>, t: (Owner, Op), w: Owner)
    ensures WordsOf(l + [t], w) == WordsOf(l, w) + if t.0 == w && t.1.Read? then [t.1.w] else []
  {
    assert (l + [t])[..|l|] == l;
  }

  lemma DueNext(mem0: Memory, l: seq<(Owner, Op)>, t: (Owner, Op), w: Owner)
    requires |mem0| == WORDS && AllOk(Untag(l)) && OpOk(t.1)
    ensures AllOk(Untag(l + [t]))
    ensures Due(mem0, l + [t], w) ==
            Due(mem0, l, w) + if t.0 == w && t.1.Read? then [Apply(mem0, Untag(l))[t.1.w]] else []
  {
    hide Apply;
    UntagNext(l, t);
    assert (l + [t])[..|l|] == l;
  }

  /** What one cycle adds to the log. */
  lemma LogStep(s: Sys, e: Env, mem0: Memory, w: Owner)
    requires |mem0| == WORDS && Inv(s, mem0) && AllOk(Untag(s.log.issued))
    ensures var l, l', c := s.log, Next(s, e).log, Chosen(s.r);
            && AllOk(Untag(l'.issued))
            && WordsOf(l'.issued, w) == WordsOf(l.issued, w) + (if Takes(s.r, w) then [l'.askedWord] else [])
            && Due(mem0, l'.issued, w) == Due(mem0, l.issued, w) + (if Takes(s.r, w) then [l'.promised] else [])
            && (!IsRead(c) ==> l'.promised == l.promised)
  {
    hide Inv, RegsOk, Balanced, InOrder, Accounted, OneRead, Apply, WordsOf, Due, Step, NextQueues, OpOf, Untag;
    OneReadPending(s, mem0);
    var c := Chosen(s.r);
    if c != Nothing {
      OpOfOk(s.r, c);
      OpKind(s.r, c);
      WordsNext(s.log.issued, (Source(c), OpOf(s.r, c)), w);
      DueNext(mem0, s.log.issued, (Source(c), OpOf(s.r, c)), w);
      if IsRead(c) {
        AskedWhenIssued(s, e, mem0);
        AskedWord(s.r);
      }
    }
  }

  /** The latch and the read in flight after one cycle. */
  lemma ReadRegs(r: Regs, i: In, e: Env, w: Owner)
    requires w != Dma && i.nmc == e.nmc && i.mac == e.mac && (i.rdValid ==> r.rdBusy)
    ensures var n, p, q := Step(r, i), PortOf(r, w), PulseOf(e, w);
            && (Takes(r, w) ==> p.rdReq && !r.rdBusy)
            && (PortOf(n, w).rdReq <==> q.rdEn || (p.rdReq && !Takes(r, w)))
            && (PortOf(n, w).rdReq ==> PortOf(n, w).rdAddr == if q.rdEn then q.rdAddr else p.rdAddr)
            && (InFlight(n, w) <==> Takes(r, w) || (InFlight(r, w) && !i.rdValid))
  {
    hide Presented, Shaken, Assembled, Answered, Filled;
  }

  lemma EngineNext(s: Sys, v: Engine, e: Env, mem0: Memory, w: Owner)
    requires |mem0| == WORDS && w != Dma && Inv(s, mem0) && QueuesOk(s.m) && EngineInv(s, v, mem0, w)
    ensures EngineInv(Next(s, e), NextEngine(v, s, e, w), mem0, w)
  {
    hide Inv, RegsOk, Balanced, Step, NextLog, NextQueues, WordsOf, Due, Untag, Chosen, IsRead, Pending, Reads, Apply,
         QueuesOk, Source, HeadOp;
    OneReadPending(s, mem0);
    ReturnIsPromised(s, e, mem0);
    ReadRegs(s.r, InOf(s.m, e), e, w);
    LogStep(s, e, mem0, w);
    if Takes(s.r, w) {
      TakenWord(s, e, mem0, w);
    } else if IsRead(Chosen(s.r)) {
      ReadChoice(s.r);
    }
  }

  lemma TakenWord(s: Sys, e: Env, mem0: Memory, w: Owner)
    requires |mem0| == WORDS && w != Dma && Inv(s, mem0) && Takes(s.r, w)
    ensures Balanced(s.m, s.r.issue) && RegsOk(s.r) && Next(s, e).log.askedWord == PortOf(s.r, w).rdAddr / 16
  {
    hide Inv, RegsOk, Balanced, Next, Apply, Untag;
    OneReadPending(s, mem0);
    AskedWhenIssued(s, e, mem0);
  }

  // ----- whole runs -----

  /** One engine's history after a run. */
  function AfterEngine(mem0: Memory, es: seq<Env>, w: Owner): (v: Engine)
    requires |mem0| == WORDS && Lawful(mem0, es) && w != Dma
    ensures EngineInv(After(mem0, es), v, mem0, w)
    decreases |es|
  {
    if es == [] then Engine([], 0, [])
    else
      var front, e := es[..|es| - 1], es[|es| - 1];
      var s, v := After(mem0, front), AfterEngine(mem0, front, w);
      OneReadPending(s, mem0);
      EngineNext(s, v, e, mem0, w);
      NextEngine(v, s, e, w)
  }

  /** Every read of an engine is answered at most once, in the order of issue and with the burst memory held behind
      everything issued before; what is not answered waits in the latch, is the one read in flight, or was replaced in
      the latch by a later pulse. An engine that never does that gets an answer for each read in the order it asked,
      at most two behind. */
  lemma AnsweredInOrder(mem0: Memory, es: seq<Env>, w: Owner)
    requires |mem0| == WORDS && Lawful(mem0, es) && w != Dma
    ensures var s, v := After(mem0, es), AfterEngine(mem0, es, w);
            && AllOk(Untag(s.log.issued)) && v.got <= Due(mem0, s.log.issued, w)
            && |v.asked| == |v.got| + v.lost + (if InFlight(s.r, w) then 1 else 0)
                            + (if PortOf(s.r, w).rdReq then 1 else 0)
            && (v.lost == 0 ==> WordsOf(s.log.issued, w) <= v.asked && |v.got| <= |v.asked| <= |v.got| + 2)
  {
    hide After, Due, WordsOf, Untag;
    assert EngineInv(After(mem0, es), AfterEngine(mem0, es, w), mem0, w);
  }

  // ----- how soon -----

  /** Every operation carried out brings the read in flight one nearer, until it is the one carried out. */
  lemma FlightNext(s: Sys, e: Env, mem0: Memory)
    requires |mem0| == WORDS && Inv(s, mem0) && s.r.rdBusy && EnvOk(e) && NoThird(s.r, e)
    requires Balanced(s.m, s.r.issue) && RegsOk(s.r)
    ensures var n, going := Next(s, e), if Going(s.m, e) then 1 else 0;
            && Inv(n, mem0) && Balanced(n.m, n.r.issue) && |n.log.retired| == |s.log.retired| + going
            && (InOf(s.m, e).rdValid <==> going == ToRead(Pending(s.m, s.r.issue)))
            && (!InOf(s.m, e).rdValid ==>
                n.r.rdBusy && n.r.rdOwner == s.r.rdOwner && n.log.promised == s.log.promised
                && ToRead(Pending(n.m, n.r.issue)) == ToRead(Pending(s.m, s.r.issue)) - going)
  {
    hide Inv, RegsOk, Balanced, Pending, Step, NextQueues, Apply, OpOf, ToRead, Reads, NoThird, InOrder, Accounted;
    NextInv(s, e, mem0);
    OneReadPending(Next(s, e), mem0);
    PendingNext(s, e);
    OneReadPending(s, mem0);
    var ops, c := Pending(s.m, s.r.issue), Chosen(s.r);
    var rest := if Going(s.m, e) then ops[1..] else ops;
    ReadsHead(ops);
    BusyNext(s.r, InOf(s.m, e));
    ReadChoice(s.r);
    if c != Nothing {
      ToReadAppend(rest, OpOf(s.r, c));
    } else {
      assert rest + [] == rest;
    }
  }

  lemma BusyNext(r: Regs, i: In)
    requires r.rdBusy
    ensures Step(r, i).rdBusy == !i.rdValid && Step(r, i).rdOwner == r.rdOwner
  {
    hide Presented, Shaken, Assembled, Answered, Filled, Latched;
  }

  /** From s to n the read of port w in flight at s stays in flight, or has been answered with what was promised. */
  predicate Flown(s: Sys, v: Engine, n: Sys, u: Engine, w: Owner)
    requires Balanced(s.m, s.r.issue) && Balanced(n.m, n.r.issue)
  {
    var left := ToRead(Pending(s.m, s.r.issue)) - (|n.log.retired| - |s.log.retired|);
    && |n.log.retired| >= |s.log.retired|
    && if left > 0
       then InFlight(n.r, w) && n.log.promised == s.log.promised && ToRead(Pending(n.m, n.r.issue)) == left
         && u.got == v.got
       else v.got + [s.log.promised] <= u.got
  }

  lemma FlownNext(s: Sys, v: Engine, n: Sys, u: Engine, w: Owner, e: Env, mem0: Memory)
    requires |mem0| == WORDS && w != Dma && Inv(n, mem0) && EnvOk(e) && NoThird(n.r, e)
    requires Balanced(s.m, s.r.issue) && Balanced(n.m, n.r.issue) && RegsOk(n.r) && QueuesOk(n.m)
    requires Flown(s, v, n, u, w)
    ensures Balanced(Next(n, e).m, Next(n, e).r.issue) && Flown(s, v, Next(n, e), NextEngine(u, n, e, w), w)
  {
    hide Inv, Balanced, RegsOk, Pending, ToRead, NoThird, Step, NextQueues, InOf;
    ReturnIsPromised(n, e, mem0);
    Counted(n, e);
    if n.r.rdBusy {
      FlightNext(n, e, mem0);
    } else {
      NextInv(n, e, mem0);
      OneReadPending(Next(n, e), mem0);
    }
  }

  lemma Counted(s: Sys, e: Env)
    requires Balanced(s.m, s.r.issue) && RegsOk(s.r)
    ensures |Next(s, e).log.retired| == |s.log.retired| + if Going(s.m, e) then 1 else 0
  {
    hide Balanced, RegsOk, Step, NextQueues, Pending, Apply, OpOf;
  }

  /** An engine read in flight is answered by exactly the operation it is: not before the controller has carried out
      what stands in front of it, then at once, and with the burst it was promised when issued. */
  lemma {:induction false} AnsweredExactly(mem0: Memory, es: seq<Env>, more: seq<Env>, w: Owner)
    requires |mem0| == WORDS && Lawful(mem0, es) && Lawful(mem0, es + more) && w != Dma
    requires InFlight(After(mem0, es).r, w)
    ensures var s, n := After(mem0, es), After(mem0, es + more);
            && Balanced(s.m, s.r.issue) && Balanced(n.m, n.r.issue)
            && Flown(s, AfterEngine(mem0, es, w), n, AfterEngine(mem0, es + more, w), w)
    decreases |more|
  {
    hide Inv, Balanced, RegsOk, Next, NextEngine, Pending, ToRead, NoThird, Flown, EngineInv;
    var s := After(mem0, es);
    OneReadPending(s, mem0);
    if more == [] {
      assert es + more == es;
      OneReadPending(s, mem0);
      FlownStart(s, AfterEngine(mem0, es, w), w);
    } else {
      var front, e := more[..|more| - 1], more[|more| - 1];
      var run := es + more;
      assert run[..|run| - 1] == es + front && run[|run| - 1] == e;
      AnsweredExactly(mem0, es, front, w);
      var n := After(mem0, es + front);
      OneReadPending(n, mem0);
      FlownNext(s, AfterEngine(mem0, es, w), n, AfterEngine(mem0, es + front, w), w, e, mem0);
    }
  }

  lemma FlownStart(s: Sys, v: Engine, w: Owner)
    requires Balanced(s.m, s.r.issue) && InFlight(s.r, w) && Reads(Pending(s.m, s.r.issue)) > 0
    ensures Flown(s, v, s, v, w)
  {
    hide Balanced, Pending;
  }
}
