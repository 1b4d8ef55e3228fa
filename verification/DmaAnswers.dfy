/** How soon an accepted DMA read is answered, counted in operations the controller carries out. */
module DmaAnswers {
  import opened Mig
  import opened Ddr2Arbiter
  import opened ArbiterRuns
  import opened ArbiterDma

  /** Operations up to and including the first read. */
  function ToRead(ops: seq<Op>): (n: nat)
    ensures Reads(ops) > 0 ==> 0 < n <= |ops|
    decreases |ops|
  {
    if ops == [] then 0 else if ops[0].Read? then 1 else 1 + ToRead(ops[1..])
  }

  lemma {:induction false} ToReadAppend(ops: seq<Op>, op: Op)
    ensures Reads(ops) > 0 ==> ToRead(ops + [op]) == ToRead(ops)
    ensures Reads(ops) == 0 && op.Read? ==> ToRead(ops + [op]) == |ops| + 1
    decreases |ops|
  {
    if ops != [] && !ops[0].Read? {
      ToReadAppend(ops[1..], op);
      assert (ops + [op])[1..] == ops[1..] + [op];
    }
  }

  /** Operations still to be carried out before the outstanding read is answered: those in front of it, a staged word
      that may be flushed first, and the read itself. */
  function Owing(s: Sys): nat
    requires Balanced(s.m, s.r.issue)
  {
    if !s.r.dr.busy then 0
    else if s.r.rdBusy then ToRead(Pending(s.m, s.r.issue))
    else |Pending(s.m, s.r.issue)| + (if s.r.wa.valid then 1 else 0) + 1
  }

  /** A safe cycle in which a read not yet issued is not held back by another write. */
  predicate Patient(p: Point, e: Env)
    requires QueuesOk(p.0.m) && |p.1.flat| == WORDS && EnvOk(e)
  {
    Safe(p, e) && (p.0.r.dr.req ==> !WriteAccept(p.0.r, InOf(p.0.m, e)))
  }

  predicate PatientNext(p: Point, e: Env, n: Point) {
    NextOf(p, e, n) && Patient(p, e)
  }

  /** What a cycle does to an outstanding read. */
  lemma BusyRegs(r: Regs, i: In)
    requires r.nmc.cnt == 0 && !r.nmc.rdReq && r.mac.cnt == 0 && !r.mac.rdReq && r.dr.busy && r.dr.req != r.rdBusy
    requires (r.rdBusy ==> r.rdOwner == Dma) && (r.wa.flush ==> r.wa.valid) && (i.rdValid ==> r.rdBusy)
    ensures var n, c := Step(r, i), Chosen(r);
            && c in {Flush, DmaRead, Nothing} && !ReadAccept(r, i)
            && n.dr.busy == !i.rdValid && n.rdBusy == (c == DmaRead || (r.rdBusy && !i.rdValid))
            && (r.rdBusy ==> c != DmaRead) && (c == Flush ==> r.wa.valid && !n.wa.valid)
            && (!WriteAccept(r, i) && n.wa.valid ==> r.wa.valid)
  {
    hide Aligned, Same;
  }

  lemma ReadsHead(ops: seq<Op>)
    ensures ops != [] && !ops[0].Read? ==>
              Reads(ops[1..]) == Reads(ops)
              && (Reads(ops) > 0 ==> ToRead(ops[1..]) == ToRead(ops) - 1)
    ensures ops != [] && ops[0].Read? ==> ToRead(ops) == 1
    ensures Reads(ops) > 0 ==> ops != []
    ensures Reads(ops) > 0 && ToRead(ops) == 1 ==> ops[0].Read?
  {
  }

  /** Each operation carried out brings the answer one nearer, and nothing takes it further away. */
  lemma OwingNext(p: Point, e: Env, n: Point, mem0: Memory)
    requires |mem0| == WORDS && DmaInv(p.0, p.1, mem0) && PatientNext(p, e, n) && p.0.r.dr.busy
    ensures DmaInv(n.0, n.1, mem0) && Balanced(n.0.m, n.0.r.issue) && n.1.owed == p.1.owed
    ensures var going := if Going(p.0.m, e) then 1 else 0;
            && |n.0.log.retired| == |p.0.log.retired| + going
            && (n.0.r.dr.busy ==> 0 < Owing(n.0) <= Owing(p.0) - going)
            && (p.0.r.rdBusy ==> n.0.r.dr.busy == (Owing(p.0) > going))
            && (p.0.r.rdBusy && n.0.r.dr.busy ==> n.0.r.rdBusy && Owing(n.0) == Owing(p.0) - going)
            && (!n.0.r.dr.busy ==> p.0.r.rdBusy)
  {
    hide Inv, Balanced, RegsOk, Step, Top, InOrder, Accounted, Pending, Apply, OpOf, NextQueues, Safe, ToRead, Reads,
         Merge, Staged;
    InvParts(p.0, mem0);
    DmaNext(p.0, p.1, e, mem0);
    OneReadPending(p.0, mem0);
    OneReadPending(n.0, mem0);
    ReturnIsPromised(p.0, e, mem0);
    BusyRegs(p.0.r, InOf(p.0.m, e));
    PendingNext(p.0, e);
    var ops, c := Pending(p.0.m, p.0.r.issue), Chosen(p.0.r);
    var rest := if Going(p.0.m, e) then ops[1..] else ops;
    ReadsHead(ops);
    if c != Nothing {
      OpKind(p.0.r, c);
      ToReadAppend(rest, OpOf(p.0.r, c));
    } else {
      assert rest + [] == rest;
    }
  }

  /** A run of safe cycles in which no write holds back a read. */
  predicate PatientRun(es: seq<Env>, ps: seq<Point>) {
    |ps| == |es| + 1 && forall k :: 0 <= k < |es| ==> PatientNext(ps[k], es[k], ps[k + 1])
  }

  lemma PatientTail(es: seq<Env>, ps: seq<Point>)
    requires PatientRun(es, ps) && es != []
    ensures PatientRun(es[1..], ps[1..]) && PatientNext(ps[0], es[0], ps[1])
  {
    hide PatientNext;
    forall k | 0 <= k < |es| - 1
      ensures PatientNext(ps[1..][k], es[1..][k], ps[1..][k + 1])
    {
      assert PatientNext(ps[k + 1], es[k + 1], ps[k + 2]);
    }
  }

  lemma NextLater(p: Point, e: Env, n: Point, mem0: Memory)
    requires |mem0| == WORDS && DmaInv(p.0, p.1, mem0) && PatientNext(p, e, n)
    ensures DmaInv(n.0, n.1, mem0) && |n.1.got| >= |p.1.got| && |n.0.log.retired| >= |p.0.log.retired|
  {
    hide Inv, Balanced, RegsOk, Step, Agree, Apply, Pending, OpOf, NextQueues, Safe;
    DmaNext(p.0, p.1, e, mem0);
  }

  /** Answers and operations carried out only accumulate. */
  lemma {:induction false} RunLater(es: seq<Env>, ps: seq<Point>, mem0: Memory)
    requires |mem0| == WORDS && PatientRun(es, ps) && DmaInv(ps[0].0, ps[0].1, mem0)
    ensures |ps[|es|].1.got| >= |ps[0].1.got| && |ps[|es|].0.log.retired| >= |ps[0].0.log.retired|
    decreases |es|
  {
    hide DmaInv, PatientNext;
    if es != [] {
      PatientTail(es, ps);
      NextLater(ps[0], es[0], ps[1], mem0);
      RunLater(es[1..], ps[1..], mem0);
    }
  }

  /** A read outstanding is answered once the controller has carried out as many operations as it owes; one already
      issued is answered with exactly that operation and no earlier. */
  lemma {:induction false} AnsweredWithin(es: seq<Env>, ps: seq<Point>, mem0: Memory)
    requires |mem0| == WORDS && PatientRun(es, ps) && DmaInv(ps[0].0, ps[0].1, mem0)
    requires Balanced(ps[0].0.m, ps[0].0.r.issue) && ps[0].0.r.dr.busy
    ensures var done := |ps[|es|].0.log.retired| - |ps[0].0.log.retired|;
            && (done >= Owing(ps[0].0) ==> |ps[|es|].1.got| >= |ps[0].1.owed|)
            && (ps[0].0.r.rdBusy && done < Owing(ps[0].0) ==> ps[|es|].1.got == ps[0].1.got)
    decreases |es|
  {
    hide DmaInv, PatientNext, Owing, Balanced;
    OwingPositive(ps[0], mem0);
    if es != [] {
      PatientTail(es, ps);
      OwingNext(ps[0], es[0], ps[1], mem0);
      AnswersOwed(ps[0], mem0);
      AnswersOwed(ps[1], mem0);
      if ps[1].0.r.dr.busy {
        AnsweredWithin(es[1..], ps[1..], mem0);
      } else {
        RunLater(es[1..], ps[1..], mem0);
      }
    }
  }

  lemma OwingPositive(p: Point, mem0: Memory)
    requires |mem0| == WORDS && DmaInv(p.0, p.1, mem0) && p.0.r.dr.busy
    ensures Balanced(p.0.m, p.0.r.issue) && Owing(p.0) > 0
  {
    hide Inv, Balanced, RegsOk, Pending, Apply, ToRead, Staged, Merge;
    OneReadPending(p.0, mem0);
  }

  lemma AnswersOwed(p: Point, mem0: Memory)
    requires |mem0| == WORDS && DmaInv(p.0, p.1, mem0)
    ensures |p.1.owed| == |p.1.got| + (if p.0.r.dr.busy then 1 else 0) && p.1.got <= p.1.owed
  {
    hide Inv, Agree;
  }
}
