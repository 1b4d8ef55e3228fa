/** The DMA side of the arbiter as a byte memory: staging, the one-word cache and in-order issue together behave
    as plain bytes, as long as no accepted write overtakes a read of its own word. */
module ArbiterDma {
  import opened Bytes
  import opened Mig
  import opened Ddr2Arbiter
  import opened ArbiterRuns

  /** The staged word over memory. */
  function Staged(mem: Memory, a: Assembler): (r: Memory)
    requires a.word / 16 < |mem|
    ensures |r| == |mem|
  {
    if a.valid then mem[a.word / 16 := Merge(mem[a.word / 16], a.data, Not(a.lanes))] else mem
  }

  /** What the client sees: a flat memory, the answers its accepted reads are owed, the bytes pulsed so far. */
  datatype Client = Client(flat: Memory, owed: seq<byte>, got: seq<byte>)

  type Point = (Sys, Client)

  predicate EnginesIdle(e: Env) {
    !e.nmc.rdEn && !e.nmc.wrEn && !e.mac.rdEn && !e.mac.wrEn
  }

  /** An accepted write that changes the word of a read this cycle leaves outstanding. It does no harm when the stage
      is already being flushed ahead of that read and the read asks for another byte. */
  predicate Overtakes(r: Regs, i: In, flat: Memory)
    requires |flat| == WORDS && i.wrAddr < SIZE
  {
    var n := Step(r, i);
    && WriteAccept(r, i) && i.wrByte != ByteAt(flat, i.wrAddr)
    && n.dr.busy && n.dr.addr / 16 == i.wrAddr / 16
    && !(n.dr.req && n.wa.flush && n.dr.addr != i.wrAddr)
  }

  function NextClient(v: Client, s: Sys, e: Env): (v': Client)
    requires Balanced(s.m, s.r.issue) && RegsOk(s.r) && |v.flat| == WORDS && EnvOk(e)
    ensures |v'.flat| == WORDS
  {
    var i, r' := InOf(s.m, e), Next(s, e).r;
    Client(if WriteAccept(s.r, i) then PutByte(v.flat, e.wrAddr, e.wrByte) else v.flat,
           if ReadAccept(s.r, i) then v.owed + [ByteAt(v.flat, e.rdAddr)] else v.owed,
           if r'.dr.valid then v.got + [r'.dr.byteOut] else v.got)
  }

  // ----- one cycle, seen from the registers -----

  /** Registers, memory behind all issued operations, and the client's memory in agreement. */
  predicate Agree(r: Regs, top: Memory, flat: Memory, askedWord: nat, promised: word) {
    && |top| == WORDS && r.wa.word < SIZE && r.dr.addr < SIZE
    && r.nmc.cnt == 0 && !r.nmc.rdReq && r.mac.cnt == 0 && !r.mac.rdReq
    && flat == Staged(top, r.wa)
    && (r.wa.flush ==> r.wa.valid)
    && (r.dr.busy && !(r.dr.req && r.wa.flush) ==> flat[r.dr.addr / 16] == top[r.dr.addr / 16])
    && (r.dr.busy <==> r.dr.req || r.rdBusy) && !(r.dr.req && r.rdBusy)
    && (r.rdBusy ==> r.rdOwner == Dma && askedWord == r.dr.addr / 16 && promised == top[askedWord])
    && (r.dr.busy ==> r.dr.off == r.dr.addr % 16)
    && (r.rc.valid ==> r.rc.word < SIZE && r.rc.data == top[r.rc.word / 16])
  }

  /** Memory behind all issued operations after the cycle: only a flush moves it. */
  function TopNext(r: Regs, top: Memory): Memory
    requires r.wa.word / 16 < |top|
  {
    if Chosen(r) == Flush then Staged(top, r.wa.(valid := true)) else top
  }

  /** Accepting a byte into the stage is writing it to the client's memory. */
  lemma StageByte(r: Regs, i: In, top: Memory)
    requires |top| == WORDS && r.wa.word < SIZE && i.wrAddr < SIZE && WriteAccept(r, i) && Chosen(r) != Flush
    ensures Assembled(r, i).word < SIZE
    ensures Staged(top, Assembled(r, i)) == PutByte(Staged(top, r.wa), i.wrAddr, i.wrByte)
  {
    hide Aligned, Same;
    var n, w, k := Assembled(r, i), i.wrAddr / 16, i.wrAddr % 16;
    SameWord(r, i);
    assert n.word / 16 == w;
    var was := if r.wa.valid then Merge(top[w], r.wa.data, Not(r.wa.lanes)) else top[w];
    StageLane(top[w], if r.wa.valid then r.wa.data else Zeros(16), if r.wa.valid then r.wa.lanes else NoLanes(), k,
      i.wrByte);
    if !r.wa.valid {
      assert Merge(top[w], Zeros(16), Not(NoLanes())) == top[w];
    }
  }

  lemma SameWord(r: Regs, i: In)
    ensures Same(r, i) <==> i.wrAddr / 16 == r.wa.word / 16
  {
  }

  lemma StageLane(was: word, data: word, l: lanes, k: nat, b: byte)
    requires k < 16
    ensures Merge(was, PutLane(data, k, b), Not(SetLane(l, k))) == PutLane(Merge(was, data, Not(l)), k, b)
  {
  }

  /** Without an accepted byte or a flush the stage keeps its content. */
  lemma StageStill(r: Regs, i: In, top: Memory)
    requires |top| == WORDS && r.wa.word < SIZE && !WriteAccept(r, i)
    ensures Assembled(r, i).word == r.wa.word && Staged(top, Assembled(r, i)) == Staged(top, r.wa)
    ensures Staged(top, Emptied(Assembled(r, i))) == top
  {
    hide Aligned;
  }

  lemma FlatStep(r: Regs, i: In, top: Memory, flat: Memory, askedWord: nat, promised: word)
    requires Agree(r, top, flat, askedWord, promised) && i.wrAddr < SIZE
    ensures var r' := Step(r, i);
            && r'.wa.word < SIZE
            && Staged(TopNext(r, top), r'.wa) == (if WriteAccept(r, i) then PutByte(flat, i.wrAddr, i.wrByte) else flat)
            && (r'.wa.flush ==> r'.wa.valid)
  {
    hide Presented, Shaken, Filled, Answered, Latched, Aligned, Staged;
    if WriteAccept(r, i) {
      StageByte(r, i, top);
    } else {
      StageStill(r, i, top);
      StageStill(r, i, TopNext(r, top));
    }
    StageFlush(r, i);
  }

  lemma StageFlush(r: Regs, i: In)
    requires r.wa.flush ==> r.wa.valid
    ensures Assembled(r, i).flush ==> Assembled(r, i).valid
  {
  }

  /** A write that does not overtake leaves the byte a read will ask for, and its word unless the stage goes first. */
  lemma WordKept(r: Regs, i: In, flat: Memory)
    requires |flat| == WORDS && i.wrAddr < SIZE && !Overtakes(r, i, flat) && WriteAccept(r, i)
             && Step(r, i).dr.addr < SIZE
    ensures var n, put := Step(r, i), PutByte(flat, i.wrAddr, i.wrByte);
            && (n.dr.busy ==> ByteAt(put, n.dr.addr) == ByteAt(flat, n.dr.addr))
            && (n.dr.busy && !(n.dr.req && n.wa.flush) ==> put[n.dr.addr / 16] == flat[n.dr.addr / 16])
  {
    hide Step, WriteAccept;
    PutByteAt(flat, i.wrAddr, i.wrByte, Step(r, i).dr.addr);
    var w := flat[i.wrAddr / 16];
    if i.wrByte == w[i.wrAddr % 16] {
      assert w[i.wrAddr % 16 := i.wrByte] == w;
    }
  }

  /** An empty stage hides nothing, and a flush writes what the client sees. */
  lemma StageParts(r: Regs, top: Memory)
    requires |top| == WORDS && r.wa.word < SIZE
    ensures !r.wa.valid ==> Staged(top, r.wa) == top
    ensures r.wa.flush && r.wa.valid ==> Staged(top, r.wa.(valid := true)) == Staged(top, r.wa)
  {
  }

  /** One cycle keeps the agreement. */
  lemma AgreeNext(r: Regs, i: In, top: Memory, flat: Memory, askedWord: nat, promised: word)
    requires Agree(r, top, flat, askedWord, promised) && i.wrAddr < SIZE && i.rdAddr < SIZE && !Overtakes(r, i, flat)
    requires !i.nmc.rdEn && !i.nmc.wrEn && !i.mac.rdEn && !i.mac.wrEn
    requires i.rdValid ==> r.rdBusy && i.rdData == promised
    ensures var r' := Step(r, i);
            var asked := if Chosen(r) == DmaRead then r.dr.addr / 16 else askedWord;
            Agree(r', TopNext(r, top), if WriteAccept(r, i) then PutByte(flat, i.wrAddr, i.wrByte) else flat,
                  asked, if Chosen(r) == DmaRead then top[asked] else promised)
  {
    hide Presented, Shaken, Staged, Merge, PutByte, Overtakes;
    StageParts(r, top);
    if WriteAccept(r, i) {
      WordKept(r, i, flat);
    }
    FlatStep(r, i, top, flat, askedWord, promised);
  }

  /** The byte port pulses exactly for what it owes: a hit at once, a fill for the read outstanding. */
  lemma PulseNext(r: Regs, i: In, top: Memory, flat: Memory, askedWord: nat, promised: word, owed: seq<byte>,
          got: seq<byte>)
    requires Agree(r, top, flat, askedWord, promised) && i.wrAddr < SIZE && i.rdAddr < SIZE && !Overtakes(r, i, flat)
    requires i.rdValid ==> r.rdBusy && i.rdData == promised
    requires owed == got + if r.dr.busy then [ByteAt(flat, r.dr.addr)] else []
    ensures var r' := Step(r, i);
            var flat' := if WriteAccept(r, i) then PutByte(flat, i.wrAddr, i.wrByte) else flat;
            var owed' := if ReadAccept(r, i) then owed + [ByteAt(flat, i.rdAddr)] else owed;
            var got' := if r'.dr.valid then got + [r'.dr.byteOut] else got;
            r'.dr.addr < SIZE && owed' == got' + if r'.dr.busy then [ByteAt(flat', r'.dr.addr)] else []
  {
    hide Presented, Shaken, Merge, Assembled, Latched, PutByte, Staged, Overtakes;
    StageParts(r, top);
    if WriteAccept(r, i) {
      WordKept(r, i, flat);
    }
  }

  // ----- whole runs -----

  /** Memory behind everything the arbiter has issued. */
  function Top(s: Sys): (mem: Memory)
    requires Balanced(s.m, s.r.issue)
    ensures |mem| == WORDS
  {
    Apply(s.m.mem, Pending(s.m, s.r.issue))
  }

  predicate DmaInv(s: Sys, v: Client, mem0: Memory)
    requires |mem0| == WORDS
  {
    && Inv(s, mem0) && |v.flat| == WORDS && Agree(s.r, Top(s), v.flat, s.log.askedWord, s.log.promised)
    && v.owed == v.got + (if s.r.dr.busy then [ByteAt(v.flat, s.r.dr.addr)] else [])
  }

  /** Carrying out an operation leaves the memory behind all issued operations alone; issuing one applies it. */
  lemma TopStep(s: Sys, e: Env)
    requires Balanced(s.m, s.r.issue) && RegsOk(s.r)
    ensures var s', c := Next(s, e), Chosen(s.r);
            && Balanced(s'.m, s'.r.issue)
            && (c != Nothing ==> OpOk(OpOf(s.r, c)))
            && Top(s') == if c == Nothing then Top(s) else Do(Top(s), OpOf(s.r, c))
  {
    hide Balanced, RegsOk, Pending, Apply, Next, OpOf;
    PendingNext(s, e);
    BalancedQueues(s.m, s.r.issue);
    BalancedQueues(Next(s, e).m, Next(s, e).r.issue);
    var c, ops := Chosen(s.r), Pending(s.m, s.r.issue);
    var rest := if Going(s.m, e) then ops[1..] else ops;
    if Going(s.m, e) {
      ApplyHead(s.m.mem, ops);
    }
    if c != Nothing {
      OpOfOk(s.r, c);
      ApplyAppend(Next(s, e).m.mem, rest, OpOf(s.r, c));
    } else {
      assert rest + [] == rest;
    }
  }

  /** With the engines idle only a flush writes. */
  lemma IdleTop(s: Sys, top: Memory)
    requires |top| == WORDS && s.r.wa.word < SIZE
    requires s.r.nmc.cnt == 0 && !s.r.nmc.rdReq && s.r.mac.cnt == 0 && !s.r.mac.rdReq
    requires Chosen(s.r) != Nothing ==> OpOk(OpOf(s.r, Chosen(s.r)))
    ensures TopNext(s.r, top) == if Chosen(s.r) == Nothing then top else Do(top, OpOf(s.r, Chosen(s.r)))
  {
  }

  /** The client's obligation in one cycle. */
  predicate Safe(p: Point, e: Env)
    requires QueuesOk(p.0.m) && |p.1.flat| == WORDS && EnvOk(e)
  {
    !Overtakes(p.0.r, InOf(p.0.m, e), p.1.flat)
  }

  lemma DmaNext(s: Sys, v: Client, e: Env, mem0: Memory)
    requires |mem0| == WORDS && DmaInv(s, v, mem0) && EnvOk(e) && EnginesIdle(e) && Safe((s, v), e)
    ensures DmaInv(Next(s, e), NextClient(v, s, e), mem0)
  {
    hide Inv, Balanced, RegsOk, Agree, Step, Top, NextQueues, InOrder, Accounted, OneRead, Apply, OpOf, PutByte;
    InvParts(s, mem0);
    AgreeParts(s.r, Top(s), v.flat, s.log.askedWord, s.log.promised);
    var i := InOf(s.m, e);
    NextInv(s, e, mem0);
    ReturnIsPromised(s, e, mem0);
    TopStep(s, e);
    IdleTop(s, Top(s));
    AgreeNext(s.r, i, Top(s), v.flat, s.log.askedWord, s.log.promised);
    PulseNext(s.r, i, Top(s), v.flat, s.log.askedWord, s.log.promised, v.owed, v.got);
    LogNext(s, e);
  }

  lemma InvParts(s: Sys, mem0: Memory)
    requires |mem0| == WORDS && Inv(s, mem0)
    ensures Balanced(s.m, s.r.issue) && RegsOk(s.r)
  {
  }

  lemma OneReadPending(s: Sys, mem0: Memory)
    requires |mem0| == WORDS && Inv(s, mem0)
    ensures Balanced(s.m, s.r.issue) && RegsOk(s.r) && QueuesOk(s.m)
    ensures Reads(Pending(s.m, s.r.issue)) == if s.r.rdBusy then 1 else 0
  {
    hide Balanced, RegsOk, InOrder, Accounted, Pending;
    BalancedQueues(s.m, s.r.issue);
  }

  lemma AgreeParts(r: Regs, top: Memory, flat: Memory, askedWord: nat, promised: word)
    requires Agree(r, top, flat, askedWord, promised)
    ensures r.wa.word < SIZE && r.dr.addr < SIZE && r.nmc.cnt == 0 && !r.nmc.rdReq && r.mac.cnt == 0 && !r.mac.rdReq
  {
  }

  lemma ReturnIsPromised(s: Sys, e: Env, mem0: Memory)
    requires |mem0| == WORDS && Inv(s, mem0)
    ensures InOf(s.m, e).rdValid ==> s.r.rdBusy && InOf(s.m, e).rdData == s.log.promised
  {
    hide Balanced, RegsOk, InOrder, Accounted, OneRead, Inv;
    InvParts(s, mem0);
    BalancedQueues(s.m, s.r.issue);
    if InOf(s.m, e).rdValid {
      ReturnRouted(s, e, mem0, s.log.asker);
    }
  }

  lemma LogNext(s: Sys, e: Env)
    requires Balanced(s.m, s.r.issue) && RegsOk(s.r) && s.r.nmc.cnt == 0 && !s.r.nmc.rdReq && s.r.mac.cnt == 0
             && !s.r.mac.rdReq
    ensures Next(s, e).log.askedWord == if Chosen(s.r) == DmaRead then s.r.dr.addr / 16 else s.log.askedWord
    ensures Chosen(s.r) == DmaRead ==> s.r.dr.addr / 16 < WORDS
    ensures Next(s, e).log.promised == if Chosen(s.r) == DmaRead then Top(s)[s.r.dr.addr / 16] else s.log.promised
  {
    hide Balanced, Step, NextQueues, Apply, Pending;
    if Chosen(s.r) != Nothing {
      OpOfOk(s.r, Chosen(s.r));
    }
    if Chosen(s.r) == DmaRead {
      AskedWord(s.r);
    }
  }

  /** A run with idle engines in which no write overtakes a read. */
  predicate LawfulDma(mem0: Memory, es: seq<Env>)
    requires |mem0| == WORDS
    decreases |es|, 0
  {
    es == [] ||
    (var front, e := es[..|es| - 1], es[|es| - 1];
     LawfulDma(mem0, front) && EnvOk(e) && EnginesIdle(e) && Safe(AfterDma(mem0, front), e))
  }

  function AfterDma(mem0: Memory, es: seq<Env>): (r: Point)
    requires |mem0| == WORDS && LawfulDma(mem0, es)
    ensures DmaInv(r.0, r.1, mem0)
    decreases |es|, 1
  {
    if es == [] then
      StartInv(mem0);
      assert Pending(Start(mem0).m, Start(mem0).r.issue) == [];
      (Start(mem0), Client(mem0, [], []))
    else
      var front, e := es[..|es| - 1], es[|es| - 1];
      var p := AfterDma(mem0, front);
      DmaNext(p.0, p.1, e, mem0);
      (Next(p.0, e), NextClient(p.1, p.0, e))
  }

  /** Every accepted read is answered by exactly one pulse, in order, with the byte the client last had accepted there:
      at most one answer is outstanding, and it is the one for the read in flight. What memory holds, with the stage
      and the pending writes on top, is the client's memory, and memory itself once nothing is staged or pending. */
  lemma DmaIsByteMemory(mem0: Memory, es: seq<Env>)
    requires |mem0| == WORDS && LawfulDma(mem0, es)
    ensures var s, v := AfterDma(mem0, es).0, AfterDma(mem0, es).1;
            && v.got <= v.owed && |v.owed| == |v.got| + (if s.r.dr.busy then 1 else 0)
            && Balanced(s.m, s.r.issue) && s.r.wa.word < SIZE && v.flat == Staged(Top(s), s.r.wa)
            && (!s.r.wa.valid && Pending(s.m, s.r.issue) == [] ==> s.m.mem == v.flat)
  {
    hide AfterDma, Balanced, RegsOk, InOrder, Accounted, OneRead, Pending;
    var s, v := AfterDma(mem0, es).0, AfterDma(mem0, es).1;
    assert DmaInv(s, v, mem0);
  }

  // ----- runs between any two points -----

  /** One cycle, lawful or not. */
  predicate NextOf(p: Point, e: Env, n: Point) {
    && Balanced(p.0.m, p.0.r.issue) && RegsOk(p.0.r) && EnvOk(e) && EnginesIdle(e) && |p.1.flat| == WORDS
    && n == (Next(p.0, e), NextClient(p.1, p.0, e))
  }

  /** The points a run goes through. */
  predicate Trace(es: seq<Env>, ps: seq<Point>) {
    |ps| == |es| + 1 && forall k :: 0 <= k < |es| ==> NextOf(ps[k], es[k], ps[k + 1])
  }

  function Step1(p: Point, e: Env): (n: Point)
    requires Balanced(p.0.m, p.0.r.issue) && RegsOk(p.0.r) && EnvOk(e) && |p.1.flat| == WORDS
  {
    (Next(p.0, e), NextClient(p.1, p.0, e))
  }

  lemma MakeNext(p: Point, e: Env)
    requires Balanced(p.0.m, p.0.r.issue) && RegsOk(p.0.r) && EnvOk(e) && EnginesIdle(e) && |p.1.flat| == WORDS
    ensures NextOf(p, e, Step1(p, e))
  {
  }

  lemma TraceStep(p: Point, e: Env, es: seq<Env>, ps: seq<Point>)
    requires Trace(es, ps) && NextOf(p, e, ps[0])
    ensures Trace([e] + es, [p] + ps)
  {
    hide NextOf;
    forall k | 0 <= k < |es| + 1
      ensures NextOf(([p] + ps)[k], ([e] + es)[k], ([p] + ps)[k + 1])
    {
      if k > 0 {
        assert NextOf(ps[k - 1], es[k - 1], ps[k]);
      }
    }
  }

  lemma TraceJoin(es: seq<Env>, ps: seq<Point>, fs: seq<Env>, qs: seq<Point>)
    requires Trace(es, ps) && Trace(fs, qs) && ps[|es|] == qs[0]
    ensures Trace(es + fs, ps + qs[1..])
  {
    hide NextOf;
    forall k | 0 <= k < |es| + |fs|
      ensures NextOf((ps + qs[1..])[k], (es + fs)[k], (ps + qs[1..])[k + 1])
    {
      if k >= |es| {
        assert NextOf(qs[k - |es|], fs[k - |es|], qs[k - |es| + 1]);
      }
    }
  }

  lemma TraceTail(es: seq<Env>, ps: seq<Point>)
    requires Trace(es, ps) && es != []
    ensures Trace(es[1..], ps[1..])
  {
    hide NextOf;
    forall k | 0 <= k < |es| - 1
      ensures NextOf(ps[1..][k], es[1..][k], ps[1..][k + 1])
    {
      assert NextOf(ps[k + 1], es[k + 1], ps[k + 2]);
    }
  }
}
