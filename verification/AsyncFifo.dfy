/** cdc_async_fifo.v: two clock domains, gray-coded pointers, two-flop synchronisers, registered flags. */
module AsyncFifo {
  import opened Bytes
  import opened Gray

  /** Every register, for a depth of 2^lg. Pointers have lg + 1 bits. */
  datatype Regs<T> = Regs(mem: seq<T>,
                          wrBin: nat, wrGray: seq<bool>, wrFull: bool, rdSync1: seq<bool>, rdSync2: seq<bool>,
                          rdBin: nat, rdGray: seq<bool>, rdEmpty: bool, wrSync1: seq<bool>, wrSync2: seq<bool>)

  /** Register widths; slots and pointers in range. */
  predicate Sized<T>(r: Regs<T>, lg: nat) {
    && |r.mem| == Pow2(lg) && r.wrBin < Pow2(lg + 1) && r.rdBin < Pow2(lg + 1)
    && |r.wrGray| == |r.rdGray| == |r.rdSync1| == |r.rdSync2| == |r.wrSync1| == |r.wrSync2| == lg + 1
  }

  /** `rd_gray_next`. */
  function RdGrayNext<T>(r: Regs<T>, lg: nat, en: bool): (g: seq<bool>)
    ensures |g| == lg + 1
  {
    Code(Wrap(r.rdBin + (if en && !r.rdEmpty then 1 else 0), lg + 1), lg + 1)
  }

  /** One write clock edge; `rdPtr` is what the first synchroniser flop catches of the read pointer. */
  function WrEdge<T>(r: Regs<T>, lg: nat, en: bool, data: T, rdPtr: seq<bool>): (r': Regs<T>)
    requires lg >= 1 && Sized(r, lg) && |rdPtr| == lg + 1
    ensures Sized(r', lg)
  {
    var incr := en && !r.wrFull;
    var bin := Wrap(r.wrBin + (if incr then 1 else 0), lg + 1);
    var gray := Code(bin, lg + 1);
    r.(mem := if incr then r.mem[Wrap(r.wrBin, lg) := data] else r.mem, wrBin := bin, wrGray := gray,
       rdSync1 := rdPtr, rdSync2 := r.rdSync1, wrFull := LooksFull(gray, r.rdSync2))
  }

  /** One read clock edge; `wrPtr` is what the first synchroniser flop catches of the write pointer. */
  function RdEdge<T>(r: Regs<T>, lg: nat, en: bool, wrPtr: seq<bool>): (r': Regs<T>)
    requires Sized(r, lg) && |wrPtr| == lg + 1
    ensures Sized(r', lg)
  {
    var bin := Wrap(r.rdBin + (if en && !r.rdEmpty then 1 else 0), lg + 1);
    var gray := RdGrayNext(r, lg, en);
    r.(rdBin := bin, rdGray := gray, wrSync1 := wrPtr, wrSync2 := r.wrSync1, rdEmpty := gray == r.wrSync2)
  }

  /** The combinational read port. */
  function Front<T>(r: Regs<T>, lg: nat): T
    requires Sized(r, lg)
  {
    r.mem[Wrap(r.rdBin, lg)]
  }

  function Reset<T>(blank: T, lg: nat): (r: Regs<T>)
    ensures Sized(r, lg)
  {
    var zero := Code(0, lg + 1);
    Regs(seq(Pow2(lg), i => blank), 0, zero, false, zero, zero, 0, zero, true, zero, zero)
  }

  /** An instant at which one clock rises, or both; a pointer caught while it changes reads each changing bit either
      way. */
  datatype Tick<T> =
    | Wr(en: bool, data: T)
    | Rd(en: bool)
    | Both(wen: bool, data: T, ren: bool, wrPick: seq<bool>, rdPick: seq<bool>)

  predicate TickOk<T>(t: Tick<T>, lg: nat) {
    t.Both? ==> |t.wrPick| == |t.rdPick| == lg + 1
  }

  function Step<T>(r: Regs<T>, lg: nat, t: Tick<T>): (r': Regs<T>)
    requires lg >= 1 && Sized(r, lg) && TickOk(t, lg)
    ensures Sized(r', lg)
  {
    match t
    case Wr(en, data) => WrEdge(r, lg, en, data, r.rdGray)
    case Rd(en) => RdEdge(r, lg, en, r.wrGray)
    case Both(wen, data, ren, wrPick, rdPick) =>
      // neither side reads what the other's edge writes, except the pointer it catches
      var w := WrEdge(r, lg, wen, data, Mix(r.rdGray, RdGrayNext(r, lg, ren), rdPick));
      RdEdge(w, lg, ren, Mix(r.wrGray, w.wrGray, wrPick))
  }

  // ----- the module -----

  class Fifo<T(0)> {
    const lg: nat
    const mem: array<T>
    var wrBin: nat
    var wrGray: seq<bool>
    var wrFull: bool
    var rdSync1: seq<bool>
    var rdSync2: seq<bool>
    var rdBin: nat
    var rdGray: seq<bool>
    var rdEmpty: bool
    var wrSync1: seq<bool>
    var wrSync2: seq<bool>

    ghost function Now(): Regs<T>
      reads this, mem
    {
      Regs(mem[..], wrBin, wrGray, wrFull, rdSync1, rdSync2, rdBin, rdGray, rdEmpty, wrSync1, wrSync2)
    }

    ghost predicate Valid()
      reads this, mem
    {
      lg >= 1 && Sized(Now(), lg)
    }

    constructor (lg: nat, blank: T)
      requires lg >= 1
      ensures Valid() && this.lg == lg && fresh(mem) && Now() == Reset(blank, lg)
    {
      this.lg := lg;
      mem := new T[Pow2(lg)](_ => blank);
      var zero := Code(0, lg + 1);
      wrBin, wrGray, wrFull, rdSync1, rdSync2 := 0, zero, false, zero, zero;
      rdBin, rdGray, rdEmpty, wrSync1, wrSync2 := 0, zero, true, zero, zero;
      new;
      assert mem[..] == Reset(blank, lg).mem;
    }

    /** The memory's own clocked block. */
    method PutSlot(en: bool, k: nat, data: T)
      requires k < mem.Length
      modifies mem
      ensures mem[..] == if en then old(mem[..])[k := data] else old(mem[..])
    {
      if en {
        mem[k] := data;
      }
    }

    /** The write domain's blocks at one edge; `rdPtr` is the read pointer as caught. */
    method WrClock(en: bool, data: T, rdPtr: seq<bool>)
      requires Valid() && |rdPtr| == lg + 1
      modifies this`wrBin, this`wrGray, this`wrFull, this`rdSync1, this`rdSync2, mem
      ensures Valid() && Now() == WrEdge(old(Now()), lg, en, data, rdPtr)
    {
      hide Wrap, Code, LooksFull;
      var incr := en && !wrFull;
      var next := Wrap(wrBin + (if incr then 1 else 0), lg + 1);
      var gray := Code(next, lg + 1);
      PutSlot(incr, Wrap(wrBin, lg), data);
      wrFull := LooksFull(gray, rdSync2);
      wrBin, wrGray, rdSync1, rdSync2 := next, gray, rdPtr, rdSync1;
    }

    /** The read domain's blocks at one edge; `out` is what the consumer takes if it reads. */
    method RdClock(en: bool, wrPtr: seq<bool>) returns (out: T, taken: bool)
      requires Valid() && |wrPtr| == lg + 1
      modifies this`rdBin, this`rdGray, this`rdEmpty, this`wrSync1, this`wrSync2
      ensures Valid() && Now() == RdEdge(old(Now()), lg, en, wrPtr)
      ensures taken == (en && !old(rdEmpty)) && out == Front(old(Now()), lg)
    {
      hide Wrap, Code;
      out, taken := mem[Wrap(rdBin, lg)], en && !rdEmpty;
      var next := Wrap(rdBin + (if taken then 1 else 0), lg + 1);
      var gray := Code(next, lg + 1);
      rdEmpty := gray == wrSync2;
      rdBin, rdGray, wrSync1, wrSync2 := next, gray, wrPtr, wrSync1;
    }

    /** Any instant at which a clock rises. */
    method Clock(t: Tick<T>) returns (out: T, taken: bool)
      requires Valid() && TickOk(t, lg)
      modifies this, mem
      ensures Valid() && Now() == Step(old(Now()), lg, t)
      ensures taken == Pops(old(Now()), t) && (taken ==> out == Front(old(Now()), lg))
    {
      hide Wrap, Code, LooksFull, Mix, WrEdge, RdEdge, Sized;
      Widths();
      taken, out := false, mem[Wrap(rdBin, lg)];
      match t {
        case Wr(en, data) =>
          WrClock(en, data, rdGray);
        case Rd(en) =>
          out, taken := RdClock(en, wrGray);
        case Both(wen, data, ren, wrPick, rdPick) =>
          var front := out;
          var wasWr, caught := wrGray,
            Mix(rdGray, Code(Wrap(rdBin + (if ren && !rdEmpty then 1 else 0), lg + 1), lg + 1), rdPick);
          WrClock(wen, data, caught);
          Widths();
          out, taken := RdClock(ren, Mix(wasWr, wrGray, wrPick));
          out := front;
      }
    }

    lemma Widths()
      requires Valid()
      ensures |wrGray| == |rdGray| == lg + 1 && mem.Length == Pow2(lg)
    {
    }
  }

  // ----- what every interleaving keeps -----

  /** Bytes accepted and delivered so far, and the pointer counts the four synchroniser flops stand for. */
  datatype Log<T> = Log(written: seq<T>, taken: seq<T>, ws1: nat, ws2: nat, rs1: nat, rs2: nat)

  predicate Holds(g: seq<bool>, count: nat, lg: nat) {
    g == Code(Wrap(count, lg + 1), lg + 1)
  }

  ghost predicate WrSide<T>(r: Regs<T>, l: Log<T>, lg: nat) {
    && r.wrBin == Wrap(|l.written|, lg + 1) && Holds(r.wrGray, |l.written|, lg)
    && Holds(r.rdSync1, l.rs1, lg) && Holds(r.rdSync2, l.rs2, lg)
    && l.rs2 <= l.rs1 <= |l.taken| && |l.written| <= l.rs2 + Pow2(lg)
    && (!r.wrFull ==> |l.written| < l.rs2 + Pow2(lg))
  }

  ghost predicate RdSide<T>(r: Regs<T>, l: Log<T>, lg: nat) {
    && r.rdBin == Wrap(|l.taken|, lg + 1) && Holds(r.rdGray, |l.taken|, lg)
    && Holds(r.wrSync1, l.ws1, lg) && Holds(r.wrSync2, l.ws2, lg)
    && |l.taken| <= l.ws2 <= l.ws1 <= |l.written|
    && (!r.rdEmpty ==> |l.taken| < l.ws2)
  }

  ghost predicate Inv<T>(r: Regs<T>, l: Log<T>, lg: nat) {
    && lg >= 1 && Sized(r, lg) && WrSide(r, l, lg) && RdSide(r, l, lg)
    && l.taken == l.written[..|l.taken|]
    && forall k :: |l.taken| <= k < |l.written| ==> r.mem[Wrap(k, lg)] == l.written[k]
  }

  predicate Pushes<T>(r: Regs<T>, t: Tick<T>) {
    !r.wrFull && ((t.Wr? && t.en) || (t.Both? && t.wen))
  }

  predicate Pops<T>(r: Regs<T>, t: Tick<T>) {
    !r.rdEmpty && ((t.Rd? && t.en) || (t.Both? && t.ren))
  }

  function NextLog<T>(r: Regs<T>, l: Log<T>, lg: nat, t: Tick<T>): Log<T>
    requires lg >= 1 && Sized(r, lg) && TickOk(t, lg)
  {
    var written := if Pushes(r, t) then l.written + [t.data] else l.written;
    var taken := if Pops(r, t) then l.taken + [Front(r, lg)] else l.taken;
    match t
    case Wr(_, _) => l.(written := written, rs1 := |l.taken|, rs2 := l.rs1)
    case Rd(_) => l.(taken := taken, ws1 := |l.written|, ws2 := l.ws1)
    case Both(_, _, _, _, _) =>
      var r' := Step(r, lg, t);
      Log(written, taken, if r'.wrSync1 == r.wrGray then |l.written| else |written|, l.ws1,
          if r'.rdSync1 == r.rdGray then |l.taken| else |taken|, l.rs1)
  }

  lemma WrapStep(n: nat, d: nat, w: nat)
    ensures Wrap(Wrap(n, w) + d, w) == Wrap(n + d, w)
  {
    var p := Pow2(w);
    var q, m := n / p, n % p;
    var q2, m2 := (m + d) / p, (m + d) % p;
    assert n + d == q * p + (q2 * p + m2);
    assert n + d == (q + q2) * p + m2;
    DivModUnique(n + d, p, q + q2, m2);
  }

  lemma SlotWrap(n: nat, lg: nat)
    ensures Wrap(Wrap(n, lg + 1), lg) == Wrap(n, lg)
  {
    var d := Pow2(lg);
    var q, m := n / (2 * d), n % (2 * d);
    var q2, m2 := m / d, m % d;
    assert n == q * (2 * d) + m && m == q2 * d + m2;
    assert n == (2 * q + q2) * d + m2;
    DivModUnique(n, d, 2 * q + q2, m2);
  }

  /** Counts less than the range apart are told apart. */
  lemma WrapApart(a: nat, b: nat, w: nat)
    requires a <= b < a + Pow2(w) && Wrap(a, w) == Wrap(b, w)
    ensures a == b
  {
    var p := Pow2(w);
    var q := a / p;
    assert a == q * p + a % p;
    assert b == q * p + (a % p + (b - a));
    if a % p + (b - a) < p {
      DivModUnique(b, p, q, a % p + (b - a));
    } else {
      assert b == (q + 1) * p + (a % p + (b - a) - p);
      DivModUnique(b, p, q + 1, a % p + (b - a) - p);
    }
  }

  lemma SlotApart(a: nat, b: nat, lg: nat)
    requires a < b < a + Pow2(lg)
    ensures Wrap(a, lg) != Wrap(b, lg)
  {
    if Wrap(a, lg) == Wrap(b, lg) {
      WrapApart(a, b, lg);
    }
  }

  lemma HoldsSame(a: nat, b: nat, lg: nat)
    requires a <= b < a + Pow2(lg + 1)
    ensures Code(Wrap(a, lg + 1), lg + 1) == Code(Wrap(b, lg + 1), lg + 1) <==> a == b
  {
    hide Code, Wrap;
    if Code(Wrap(a, lg + 1), lg + 1) == Code(Wrap(b, lg + 1), lg + 1) {
      CodeInjective(Wrap(a, lg + 1), Wrap(b, lg + 1), lg + 1);
      WrapApart(a, b, lg + 1);
    }
  }

  /** The registered full test sees exactly a difference of the depth to the read count behind the synchroniser. */
  lemma FullSeen(w: nat, r: nat, lg: nat)
    requires lg >= 1 && r <= w <= r + Pow2(lg)
    ensures LooksFull(Code(Wrap(w, lg + 1), lg + 1), Code(Wrap(r, lg + 1), lg + 1)) <==> w == r + Pow2(lg)
  {
    hide Code, Wrap, LooksFull;
    FullIsHalf(Wrap(w, lg + 1), Wrap(r, lg + 1), lg + 1);
    WrapStep(r, Pow2(lg), lg + 1);
    if Wrap(w, lg + 1) == Wrap(r + Pow2(lg), lg + 1) {
      WrapApart(w, r + Pow2(lg), lg + 1);
    }
  }

  /** A pointer caught in transition stands for the count before or after the edge. */
  lemma Caught(n: nat, more: bool, lg: nat, pick: seq<bool>)
    requires |pick| == lg + 1
    ensures var was, now := Code(Wrap(n, lg + 1), lg + 1), Code(Wrap(n + (if more then 1 else 0), lg + 1), lg + 1);
            Mix(was, now, pick) == was || Mix(was, now, pick) == now
  {
    hide Code, Wrap;
    if more {
      MixIsEither(Wrap(n, lg + 1), lg + 1, pick);
      WrapStep(n, 1, lg + 1);
    } else {
      MixSame(Code(Wrap(n, lg + 1), lg + 1), pick);
    }
  }

  /** A push lands in a free slot. */
  lemma MemNext<T>(r: Regs<T>, l: Log<T>, lg: nat, t: Tick<T>)
    requires Inv(r, l, lg) && TickOk(t, lg)
    ensures var r', l' := Step(r, lg, t), NextLog(r, l, lg, t);
            && l'.taken == l'.written[..|l'.taken|]
            && (forall k :: |l'.taken| <= k < |l'.written| ==> r'.mem[Wrap(k, lg)] == l'.written[k])
  {
    hide Code, Wrap, LooksFull, Mix, Holds;
    SlotWrap(|l.written|, lg);
    SlotWrap(|l.taken|, lg);
    var r', l' := Step(r, lg, t), NextLog(r, l, lg, t);
    forall k | |l'.taken| <= k < |l'.written|
      ensures r'.mem[Wrap(k, lg)] == l'.written[k]
    {
      if Pushes(r, t) && k < |l.written| {
        SlotApart(k, |l.written|, lg);
      }
    }
  }

  /** A write edge that catches a pointer standing for `seen` reads. */
  lemma WrEdgeOk<T>(r: Regs<T>, l: Log<T>, lg: nat, en: bool, data: T, rdPtr: seq<bool>, seen: nat)
    requires Inv(r, l, lg) && Holds(rdPtr, seen, lg) && |l.taken| <= seen
    ensures var n := |l.written| + if en && !r.wrFull then 1 else 0;
            var r' := WrEdge(r, lg, en, data, rdPtr);
            && r'.wrBin == Wrap(n, lg + 1) && Holds(r'.wrGray, n, lg)
            && Holds(r'.rdSync1, seen, lg) && Holds(r'.rdSync2, l.rs1, lg)
            && n <= l.rs1 + Pow2(lg) && (r'.wrFull <==> n == l.rs2 + Pow2(lg))
  {
    hide Code, Wrap, LooksFull;
    var d := if en && !r.wrFull then 1 else 0;
    WrapStep(|l.written|, d, lg + 1);
    FullSeen(|l.written| + d, l.rs2, lg);
  }

  /** A read edge that catches a pointer standing for `seen` writes. */
  lemma RdEdgeOk<T>(r: Regs<T>, l: Log<T>, lg: nat, en: bool, wrPtr: seq<bool>, seen: nat)
    requires Inv(r, l, lg) && Holds(wrPtr, seen, lg) && |l.written| <= seen
    ensures var n := |l.taken| + if en && !r.rdEmpty then 1 else 0;
            var r' := RdEdge(r, lg, en, wrPtr);
            && r'.rdBin == Wrap(n, lg + 1) && Holds(r'.rdGray, n, lg) && Holds(RdGrayNext(r, lg, en), n, lg)
            && Holds(r'.wrSync1, seen, lg) && Holds(r'.wrSync2, l.ws1, lg)
            && n <= l.ws1 && (r'.rdEmpty <==> n == l.ws2)
  {
    hide Code, Wrap, LooksFull;
    var d := if en && !r.rdEmpty then 1 else 0;
    WrapStep(|l.taken|, d, lg + 1);
    HoldsSame(|l.taken| + d, l.ws2, lg);
  }

  /** The two sides of a joint edge, each with the pointer it catches. */
  lemma BothEdges<T>(r: Regs<T>, l: Log<T>, lg: nat, t: Tick<T>)
    requires Inv(r, l, lg) && TickOk(t, lg) && t.Both?
    ensures var r', l' := Step(r, lg, t), NextLog(r, l, lg, t);
            && Holds(r'.wrSync1, l'.ws1, lg) && |l.written| <= l'.ws1 <= |l'.written|
            && Holds(r'.rdSync1, l'.rs1, lg) && |l.taken| <= l'.rs1 <= |l'.taken|
            && r' == RdEdge(WrEdge(r, lg, t.wen, t.data, r'.rdSync1), lg, t.ren, r'.wrSync1)
  {
    hide Wrap, Code, LooksFull, Mix;
    WrapStep(|l.written|, if t.wen && !r.wrFull then 1 else 0, lg + 1);
    WrapStep(|l.taken|, if t.ren && !r.rdEmpty then 1 else 0, lg + 1);
    Caught(|l.written|, t.wen && !r.wrFull, lg, t.wrPick);
    Caught(|l.taken|, t.ren && !r.rdEmpty, lg, t.rdPick);
  }

  /** The write side's registers do not depend on the read side's edge, nor the other way round. */
  lemma SidesApart<T>(r: Regs<T>, lg: nat, wen: bool, data: T, ren: bool, rdPtr: seq<bool>, wrPtr: seq<bool>)
    requires lg >= 1 && Sized(r, lg) && |rdPtr| == |wrPtr| == lg + 1
    ensures var w, d := WrEdge(r, lg, wen, data, rdPtr), RdEdge(r, lg, ren, wrPtr);
            RdEdge(w, lg, ren, wrPtr) ==
            Regs(w.mem, w.wrBin, w.wrGray, w.wrFull, w.rdSync1, w.rdSync2, d.rdBin, d.rdGray, d.rdEmpty, d.wrSync1,
              d.wrSync2)
  {
    hide Wrap, Code, LooksFull;
  }

  lemma SidesNext<T>(r: Regs<T>, l: Log<T>, lg: nat, t: Tick<T>)
    requires Inv(r, l, lg) && TickOk(t, lg)
    ensures WrSide(Step(r, lg, t), NextLog(r, l, lg, t), lg) && RdSide(Step(r, lg, t), NextLog(r, l, lg, t), lg)
  {
    hide Code, Wrap, LooksFull, Holds, RdGrayNext, Mix;
    match t
    case Wr(en, data) => WrEdgeOk(r, l, lg, en, data, r.rdGray, |l.taken|);
    case Rd(en) => RdEdgeOk(r, l, lg, en, r.wrGray, |l.written|);
    case Both(wen, data, ren, _, _) => BothSidesNext(r, l, lg, t);
  }

  lemma BothSidesNext<T>(r: Regs<T>, l: Log<T>, lg: nat, t: Tick<T>)
    requires Inv(r, l, lg) && TickOk(t, lg) && t.Both?
    ensures WrSide(Step(r, lg, t), NextLog(r, l, lg, t), lg) && RdSide(Step(r, lg, t), NextLog(r, l, lg, t), lg)
  {
    hide Code, Wrap, LooksFull, Holds, RdGrayNext, Mix, WrEdge, RdEdge;
    var r', l' := Step(r, lg, t), NextLog(r, l, lg, t);
    BothEdges(r, l, lg, t);
    SidesApart(r, lg, t.wen, t.data, t.ren, r'.rdSync1, r'.wrSync1);
    WrEdgeOk(r, l, lg, t.wen, t.data, r'.rdSync1, l'.rs1);
    RdEdgeOk(r, l, lg, t.ren, r'.wrSync1, l'.ws1);
  }

  /** Every edge of either clock, alone or together, keeps the invariant. */
  lemma StepInv<T>(r: Regs<T>, l: Log<T>, lg: nat, t: Tick<T>)
    requires Inv(r, l, lg) && TickOk(t, lg)
    ensures Inv(Step(r, lg, t), NextLog(r, l, lg, t), lg)
  {
    hide Code, Wrap, LooksFull, Mix, Holds;
    MemNext(r, l, lg, t);
    SidesNext(r, l, lg, t);
  }

  lemma ResetInv<T>(blank: T, lg: nat)
    requires lg >= 1
    ensures Inv(Reset(blank, lg), Log([], [], 0, 0, 0, 0), lg)
  {
    hide Code;
  }

  // ----- whole runs -----

  function Run<T>(r: Regs<T>, l: Log<T>, lg: nat, ts: seq<Tick<T>>): (p: (Regs<T>, Log<T>))
    requires Inv(r, l, lg) && forall k :: 0 <= k < |ts| ==> TickOk(ts[k], lg)
    ensures Inv(p.0, p.1, lg)
    decreases |ts|
  {
    if ts == [] then (r, l)
    else
      var front, t := ts[..|ts| - 1], ts[|ts| - 1];
      assert TickOk(t, lg);
      var p := Run(r, l, lg, front);
      StepInv(p.0, p.1, lg, t);
      (Step(p.0, lg, t), NextLog(p.0, p.1, lg, t))
  }

  /** In every interleaving from reset: what was taken is a prefix of what was written, at most the depth is held, and
      both flags err only on the safe side. */
  lemma FifoSafe<T>(blank: T, lg: nat, ts: seq<Tick<T>>)
    requires lg >= 1 && forall k :: 0 <= k < |ts| ==> TickOk(ts[k], lg)
    ensures Inv(Reset(blank, lg), Log([], [], 0, 0, 0, 0), lg)
    ensures var p := Run(Reset(blank, lg), Log([], [], 0, 0, 0, 0), lg, ts);
            var held := |p.1.written| - |p.1.taken|;
            && p.1.taken <= p.1.written && 0 <= held <= Pow2(lg)
            && (held == Pow2(lg) ==> p.0.wrFull) && (held == 0 ==> p.0.rdEmpty)
            && (held > 0 ==> Front(p.0, lg) == p.1.written[|p.1.taken|])
  {
    hide Code, Wrap, LooksFull, Mix, Holds, Run;
    ResetInv(blank, lg);
    var p := Run(Reset(blank, lg), Log([], [], 0, 0, 0, 0), lg, ts);
    SlotWrap(|p.1.taken|, lg);
  }

  function ReadEdges<T>(ts: seq<Tick<T>>): nat {
    if ts == [] then 0 else ReadEdges(ts[..|ts| - 1]) + if ts[|ts| - 1].Wr? then 0 else 1
  }

  function WriteEdges<T>(ts: seq<Tick<T>>): nat {
    if ts == [] then 0 else WriteEdges(ts[..|ts| - 1]) + if ts[|ts| - 1].Rd? then 0 else 1
  }

  /** Counts only grow. */
  lemma {:induction false} Grows<T>(r: Regs<T>, l: Log<T>, lg: nat, ts: seq<Tick<T>>)
    requires Inv(r, l, lg) && forall k :: 0 <= k < |ts| ==> TickOk(ts[k], lg)
    ensures |l.written| <= |Run(r, l, lg, ts).1.written| && |l.taken| <= |Run(r, l, lg, ts).1.taken|
    decreases |ts|
  {
    hide Inv, Step, TickOk;
    if ts != [] {
      Grows(r, l, lg, ts[..|ts| - 1]);
    }
  }

  /** Once writes have stopped, three read edges make `rd_empty` exact, whatever is read meanwhile. */
  lemma {:induction false} EmptyExact<T>(r: Regs<T>, l: Log<T>, lg: nat, ts: seq<Tick<T>>)
    requires Inv(r, l, lg) && forall k :: 0 <= k < |ts| ==> TickOk(ts[k], lg)
    requires |Run(r, l, lg, ts).1.written| == |l.written|
    ensures var p := Run(r, l, lg, ts);
            var n := ReadEdges(ts);
            && (n >= 1 ==> p.1.ws1 == |l.written|) && (n >= 2 ==> p.1.ws2 == |l.written|)
            && (n >= 3 ==> (p.0.rdEmpty <==> |p.1.taken| == |p.1.written|))
    decreases |ts|
  {
    hide Code, Wrap, LooksFull, Mix, Holds, TickOk;
    if ts != [] {
      var front, t := ts[..|ts| - 1], ts[|ts| - 1];
      Grows(r, l, lg, front);
      var p := Run(r, l, lg, front);
      assert |p.1.written| == |l.written|;
      EmptyExact(r, l, lg, front);
      EmptyNext(p.0, p.1, lg, t);
    }
  }

  lemma EmptyNext<T>(r: Regs<T>, l: Log<T>, lg: nat, t: Tick<T>)
    requires Inv(r, l, lg) && TickOk(t, lg) && |NextLog(r, l, lg, t).written| == |l.written|
    ensures var r', l' := Step(r, lg, t), NextLog(r, l, lg, t);
            && (t.Wr? ==> l'.ws1 == l.ws1 && l'.ws2 == l.ws2 && l'.taken == l.taken && r'.rdEmpty == r.rdEmpty)
            && (!t.Wr? ==> l'.ws1 == |l.written| && l'.ws2 == l.ws1)
            && (!t.Wr? && l.ws2 == |l.written| ==> (r'.rdEmpty <==> |l'.taken| == |l.written|))
  {
    hide Code, Wrap, LooksFull, Mix;
    if !t.Wr? {
      WrapStep(|l.taken|, if Pops(r, t) then 1 else 0, lg + 1);
      HoldsSame(|l.taken| + (if Pops(r, t) then 1 else 0), l.ws2, lg);
    }
  }

  /** Once reads have stopped, three write edges make `wr_full` exact. */
  lemma {:induction false} FullExact<T>(r: Regs<T>, l: Log<T>, lg: nat, ts: seq<Tick<T>>)
    requires Inv(r, l, lg) && forall k :: 0 <= k < |ts| ==> TickOk(ts[k], lg)
    requires |Run(r, l, lg, ts).1.taken| == |l.taken|
    ensures var p := Run(r, l, lg, ts);
            var n := WriteEdges(ts);
            && (n >= 1 ==> p.1.rs1 == |l.taken|) && (n >= 2 ==> p.1.rs2 == |l.taken|)
            && (n >= 3 ==> (p.0.wrFull <==> |p.1.written| == |p.1.taken| + Pow2(lg)))
    decreases |ts|
  {
    hide Code, Wrap, LooksFull, Mix, Holds, TickOk;
    if ts != [] {
      var front, t := ts[..|ts| - 1], ts[|ts| - 1];
      Grows(r, l, lg, front);
      var p := Run(r, l, lg, front);
      assert |p.1.taken| == |l.taken|;
      FullExact(r, l, lg, front);
      FullNext(p.0, p.1, lg, t);
    }
  }

  lemma FullNext<T>(r: Regs<T>, l: Log<T>, lg: nat, t: Tick<T>)
    requires Inv(r, l, lg) && TickOk(t, lg) && |NextLog(r, l, lg, t).taken| == |l.taken|
    ensures var r', l' := Step(r, lg, t), NextLog(r, l, lg, t);
            && (t.Rd? ==> l'.rs1 == l.rs1 && l'.rs2 == l.rs2 && l'.written == l.written && r'.wrFull == r.wrFull)
            && (!t.Rd? ==> l'.rs1 == |l.taken| && l'.rs2 == l.rs1)
            && (!t.Rd? && l.rs2 == |l.taken| ==> (r'.wrFull <==> |l'.written| == |l.taken| + Pow2(lg)))
  {
    hide Code, Wrap, LooksFull, Mix;
    if !t.Rd? {
      WrapStep(|l.written|, if Pushes(r, t) then 1 else 0, lg + 1);
      FullSeen(|l.written| + (if Pushes(r, t) then 1 else 0), l.rs2, lg);
    }
  }
}
