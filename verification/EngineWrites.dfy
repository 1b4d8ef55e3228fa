/** The DMA client behind the engines: its one-word read cache follows every write, theirs too, so that it reads what
    they have left. */
module EngineWrites {
  import opened Bytes
  import opened Mig
  import opened Ddr2Arbiter
  import opened ArbiterRuns
  import opened ArbiterDma
  import opened ArbiterSettles
  import E = EngineReads

  /** The cache holds what memory does behind everything issued, and so will the burst a DMA read in flight is to
      fill it with. */
  predicate CacheOk(s: Sys)
    requires Balanced(s.m, s.r.issue)
  {
    && (s.r.rc.valid ==> s.r.rc.word < SIZE && s.r.rc.data == Top(s)[s.r.rc.word / 16])
    && (s.r.rdBusy && s.r.rdOwner == Dma ==> Due(s))
  }

  /** The DMA read in flight will bring what memory holds now. */
  predicate Due(s: Sys)
    requires Balanced(s.m, s.r.issue)
  {
    s.r.dr.addr < SIZE && s.log.askedWord == s.r.dr.addr / 16 && s.log.promised == Top(s)[s.r.dr.addr / 16]
  }

  /** A write issued in this cycle, by whichever port, changes the word of the DMA read in flight. */
  predicate Races(s: Sys)
    requires Balanced(s.m, s.r.issue) && RegsOk(s.r)
  {
    var c := Chosen(s.r);
    IsWrite(c) && s.r.rdBusy && s.r.rdOwner == Dma && OpOf(s.r, c).w == s.r.dr.addr / 16
    && OpOk(OpOf(s.r, c)) && Do(Top(s), OpOf(s.r, c))[s.r.dr.addr / 16] != Top(s)[s.r.dr.addr / 16]
  }

  /** What a cycle does to the cache and to the read in flight. */
  lemma CacheRegs(r: Regs, i: In)
    requires SideOk(r) && (i.rdValid ==> r.rdBusy)
    ensures var n, c := Step(r, i), Chosen(r);
            && n.rc == (if IsWrite(c) then Filled(r, i).(valid := false) else Filled(r, i))
            && (r.rdBusy && r.rdOwner == Dma ==> n.dr.addr == r.dr.addr && c != DmaRead && !IsRead(c))
            && (n.rdBusy && n.rdOwner == Dma <==> c == DmaRead || (r.rdBusy && r.rdOwner == Dma && !i.rdValid))
            && (c == DmaRead ==> n.dr.addr == r.dr.addr)
  {
    hide Presented, Shaken, Latched, Assembled, Aligned, Filled, Hit;
  }

  lemma FilledIs(r: Regs, i: In)
    ensures Filled(r, i) == if ReturnTo(r, i, Dma) then Cache(true, Aligned(r.dr.addr), i.rdData) else r.rc
    ensures Aligned(r.dr.addr) / 16 == r.dr.addr / 16 && Aligned(r.dr.addr) <= r.dr.addr
  {
  }

  lemma LogRead(s: Sys, e: Env)
    requires Balanced(s.m, s.r.issue) && RegsOk(s.r)
    ensures var c, l := Chosen(s.r), Next(s, e).log;
            && (c == DmaRead ==> s.r.dr.addr / 16 < WORDS && l.askedWord == s.r.dr.addr / 16)
            && (c == DmaRead ==> l.promised == Top(s)[s.r.dr.addr / 16])
            && (!IsRead(c) ==> l.askedWord == s.log.askedWord && l.promised == s.log.promised)
  {
    hide Balanced, Step, NextQueues, Apply, Pending;
    if Chosen(s.r) != Nothing {
      OpOfOk(s.r, Chosen(s.r));
    }
    if Chosen(s.r) == DmaRead {
      AskedWord(s.r);
    }
  }

  /** A cycle keeps the cache right exactly if no write issued in it changes the word of a DMA read that stays in
      flight. */
  lemma CacheNextIff(s: Sys, e: Env, mem0: Memory)
    requires |mem0| == WORDS && Inv(s, mem0) && EnvOk(e) && NoThird(s.r, e) && SideOk(s.r) && Balanced(s.m, s.r.issue)
             && RegsOk(s.r) && CacheOk(s)
    ensures Balanced(Next(s, e).m, Next(s, e).r.issue)
    ensures CacheOk(Next(s, e)) <==> !(Races(s) && !InOf(s.m, e).rdValid)
  {
    hide Inv, Balanced, RegsOk, Step, SideOk, Top, NextQueues, OpOf, Filled, Aligned, NextLog, Merge, NoThird;
    ReturnExpected(s, e, mem0);
    var i := InOf(s.m, e);
    CacheRegs(s.r, i);
    FilledIs(s.r, i);
    TopStep(s, e);
    LogRead(s, e);
    ReturnIsPromised(s, e, mem0);
    OneReadPending(s, mem0);
    RegsSize(s.r);
    RegsSize(Next(s, e).r) by { RegsNext(s, e); }
    if Chosen(s.r) != Nothing {
      OpOfOk(s.r, Chosen(s.r));
      OpKind(s.r, Chosen(s.r));
      Elsewhere(Top(s), OpOf(s.r, Chosen(s.r)), s.r.dr.addr / 16);
    }
  }

  lemma Elsewhere(mem: Memory, op: Op, w: nat)
    requires |mem| == WORDS && OpOk(op) && w < WORDS
    ensures op.Read? || op.w != w ==> Do(mem, op)[w] == mem[w]
    ensures op.Read? ==> Do(mem, op) == mem
  {
    hide Merge;
  }

  lemma RegsSize(r: Regs)
    requires RegsOk(r)
    ensures r.dr.addr < SIZE && r.wa.word < SIZE
  {
  }

  // ----- whole runs -----

  /** No write issued in the run changes the word of a DMA read in flight. */
  predicate Unraced(mem0: Memory, es: seq<Env>)
    requires |mem0| == WORDS && Lawful(mem0, es)
    decreases |es|
  {
    es == [] ||
    (var front := es[..|es| - 1];
     Unraced(mem0, front) && InvNow(After(mem0, front), mem0) && !Races(After(mem0, front)))
  }

  predicate InvNow(s: Sys, mem0: Memory)
    requires |mem0| == WORDS && Inv(s, mem0)
    ensures Balanced(s.m, s.r.issue) && RegsOk(s.r)
  {
    true
  }

  lemma {:induction false} RunCache(mem0: Memory, es: seq<Env>)
    requires |mem0| == WORDS && Lawful(mem0, es) && Unraced(mem0, es)
    ensures Balanced(After(mem0, es).m, After(mem0, es).r.issue) && CacheOk(After(mem0, es))
    decreases |es|
  {
    hide Inv, Balanced, RegsOk, Step, SideOk, Top, NextQueues, NextLog, NoThird, Races, Due;
    InvParts(After(mem0, es), mem0);
    if es == [] {
      EmptyCache(mem0);
    } else {
      var front, e := es[..|es| - 1], es[|es| - 1];
      RunCache(mem0, front);
      RunSide(mem0, front);
      InvParts(After(mem0, front), mem0);
      CacheNextIff(After(mem0, front), e, mem0);
    }
  }

  lemma EmptyCache(mem0: Memory)
    requires |mem0| == WORDS
    ensures Balanced(Start(mem0).m, Start(mem0).r.issue) && CacheOk(Start(mem0))
  {
    StartInv(mem0);
  }

  /** After any traffic of both engines and the client, once everything has settled, the client stands before memory as
      it is: from there on it is answered as from reset, the engines' writes included. */
  lemma EnginesThenDma(mem0: Memory, es: seq<Env>)
    requires |mem0| == WORDS && Lawful(mem0, es) && Unraced(mem0, es)
    requires Balanced(After(mem0, es).m, After(mem0, es).r.issue) && Settled(After(mem0, es))
    ensures var s := After(mem0, es);
            && DmaInv(s, Client(s.m.mem, [], []), mem0)
            && AllOk(Untag(s.log.issued)) && s.m.mem == Apply(mem0, Untag(s.log.issued))
  {
    hide Inv, Balanced, RegsOk, SideOk, Top, Races, Due, Unraced, Apply, Untag, After;
    var s := After(mem0, es);
    RunCache(mem0, es);
    RunSide(mem0, es);
    InvParts(s, mem0);
    SettledLog(s, mem0);
    SettledTop(s);
    RegsSize(s.r);
    SettledAgree(s, s.log.askedWord, s.log.promised);
  }

  lemma SettledTop(s: Sys)
    requires Balanced(s.m, s.r.issue) && Settled(s)
    ensures |s.m.mem| == WORDS && Top(s) == s.m.mem
  {
    hide Balanced, Pending;
    BalancedQueues(s.m, s.r.issue);
  }

  lemma SettledAgree(s: Sys, askedWord: nat, promised: word)
    requires Balanced(s.m, s.r.issue) && Settled(s) && SideOk(s.r) && CacheOk(s) && RegsOk(s.r)
    ensures Agree(s.r, Top(s), Top(s), askedWord, promised)
  {
    hide Balanced, Pending, Top, Due;
  }

  /** And by then each engine has every burst it asked for, but for reads it replaced itself before they were issued. */
  lemma EngineAnswered(s: Sys, v: E.Engine, mem0: Memory, w: Owner)
    requires |mem0| == WORDS && w != Dma && E.EngineInv(s, v, mem0, w) && Balanced(s.m, s.r.issue) && Settled(s)
    ensures v.got == E.Due(mem0, s.log.issued, w) && |v.got| + v.lost == |v.asked|
  {
    hide E.WordsOf, E.Due, Balanced, Pending, Untag;
    assert v.got + [] == v.got;
  }
}
