/** cdc_handshake.v: a toggle request and acknowledge around two clock domains, with the payload held meanwhile. */
module Handshake {

  /** The toggle ring req, reqSync0, reqSync1, ack, ackSync0, ackSync1, the held payload and the output port. */
  datatype Regs<T> = Regs(req: bool, hold: T, ackSync0: bool, ackSync1: bool,
                          reqSync0: bool, reqSync1: bool, ack: bool, dstValid: bool, dstData: T)

  predicate Ready<T>(r: Regs<T>) {
    r.req == r.ackSync1
  }

  predicate Arrived<T>(r: Regs<T>) {
    r.reqSync1 != r.ack
  }

  predicate Accepts<T>(r: Regs<T>, valid: bool) {
    valid && Ready(r)
  }

  /** A source edge; `ackIn` is what the first synchroniser flop catches. */
  function SrcEdge<T>(r: Regs<T>, valid: bool, data: T, ackIn: bool): Regs<T> {
    r.(ackSync0 := ackIn, ackSync1 := r.ackSync0,
       req := if Accepts(r, valid) then !r.req else r.req, hold := if Accepts(r, valid) then data else r.hold)
  }

  /** A destination edge; `reqIn` is what the first synchroniser flop catches. */
  function DstEdge<T>(r: Regs<T>, reqIn: bool): Regs<T> {
    r.(reqSync0 := reqIn, reqSync1 := r.reqSync0, dstValid := Arrived(r),
       dstData := if Arrived(r) then r.hold else r.dstData, ack := if Arrived(r) then !r.ack else r.ack)
  }

  /** An instant at which one clock rises, or both; a toggle caught while it changes reads old or new. */
  datatype Tick<T> = Src(valid: bool, data: T) | Dst | Both(valid: bool, data: T, reqPick: bool, ackPick: bool)

  function Step<T>(r: Regs<T>, t: Tick<T>): Regs<T> {
    match t
    case Src(valid, data) => SrcEdge(r, valid, data, r.ack)
    case Dst => DstEdge(r, r.req)
    case Both(valid, data, reqPick, ackPick) =>
      // the destination captures the payload as it was before the edge
      var reqNow := if Accepts(r, valid) then !r.req else r.req;
      var d := DstEdge(r, if reqPick then reqNow else r.req);
      SrcEdge(d, valid, data, if ackPick then d.ack else r.ack)
  }

  function Reset<T>(blank: T): Regs<T> {
    Regs(false, blank, false, false, false, false, false, false, blank)
  }

  class Crossing<T(0)> {
    var req: bool
    var hold: T
    var ackSync0: bool
    var ackSync1: bool
    var reqSync0: bool
    var reqSync1: bool
    var ack: bool
    var dstValid: bool
    var dstData: T

    function Now(): Regs<T>
      reads this
    {
      Regs(req, hold, ackSync0, ackSync1, reqSync0, reqSync1, ack, dstValid, dstData)
    }

    constructor (blank: T)
      ensures Now() == Reset(blank)
    {
      req, hold, ackSync0, ackSync1 := false, blank, false, false;
      reqSync0, reqSync1, ack, dstValid, dstData := false, false, false, false, blank;
    }

    method SrcClock(valid: bool, data: T, ackIn: bool)
      modifies this`req, this`hold, this`ackSync0, this`ackSync1
      ensures Now() == SrcEdge(old(Now()), valid, data, ackIn)
    {
      var ready := req == ackSync1;
      ackSync0, ackSync1 := ackIn, ackSync0;
      if valid && ready {
        req, hold := !req, data;
      }
    }

    method DstClock(reqIn: bool)
      modifies this`reqSync0, this`reqSync1, this`ack, this`dstValid, this`dstData
      ensures Now() == DstEdge(old(Now()), reqIn)
    {
      var arrived := reqSync1 != ack;
      reqSync0, reqSync1 := reqIn, reqSync0;
      dstValid := false;
      if arrived {
        dstData, dstValid, ack := hold, true, !ack;
      }
    }

    /** Any instant at which a clock rises. */
    method Clock(t: Tick<T>)
      modifies this
      ensures Now() == Step(old(Now()), t)
    {
      match t {
        case Src(valid, data) =>
          SrcClock(valid, data, ack);
        case Dst =>
          DstClock(req);
        case Both(valid, data, reqPick, ackPick) =>
          var accepts := valid && req == ackSync1;
          var wasAck := ack;
          DstClock(if reqPick && accepts then !req else req);
          SrcClock(valid, data, if ackPick then ack else wasAck);
      }
    }
  }

  // ----- what every interleaving keeps -----

  /** Payloads accepted and delivered, and how many toggles each synchroniser flop has seen. */
  datatype Log<T> = Log(sent: seq<T>, got: seq<T>, s0: nat, s1: nat, a0: nat, a1: nat)

  predicate Odd(n: nat) {
    n % 2 == 1
  }

  /** The ring holds at most one transition: counts fall by at most one in all from req round to ackSync1. */
  predicate Ring<T>(l: Log<T>) {
    l.a1 <= l.a0 <= |l.got| <= l.s1 <= l.s0 <= |l.sent| <= l.a1 + 1
  }

  predicate Inv<T(==)>(r: Regs<T>, l: Log<T>) {
    && Ring(l)
    && r.req == Odd(|l.sent|) && r.reqSync0 == Odd(l.s0) && r.reqSync1 == Odd(l.s1)
    && r.ack == Odd(|l.got|) && r.ackSync0 == Odd(l.a0) && r.ackSync1 == Odd(l.a1)
    && l.got <= l.sent && (l.sent != [] ==> r.hold == l.sent[|l.sent| - 1])
    && (r.dstValid ==> l.got != []) && (l.got != [] ==> r.dstData == l.got[|l.got| - 1])
  }

  predicate Sends<T>(r: Regs<T>, t: Tick<T>) {
    !t.Dst? && Accepts(r, t.valid)
  }

  function NextLog<T>(r: Regs<T>, l: Log<T>, t: Tick<T>): Log<T> {
    var r' := Step(r, t);
    var sent := if Sends(r, t) then l.sent + [t.data] else l.sent;
    // one delivery per pulse, carrying what the pulse shows
    var got := if !t.Src? && r'.dstValid then l.got + [r'.dstData] else l.got;
    match t
    case Src(_, _) => l.(sent := sent, a0 := |l.got|, a1 := l.a0)
    case Dst => l.(got := got, s0 := |l.sent|, s1 := l.s0)
    case Both(_, _, _, _) =>
      Log(sent, got, if r'.reqSync0 == r.req then |l.sent| else |sent|, l.s0, if r'.ackSync0 == r.ack then |l.got|
        else |got|, l.a0)
  }

  function Change(a: bool, b: bool): nat {
    if a != b then 1 else 0
  }

  /** Neighbours that differ along the six toggles, from the request round to the synchronised acknowledge. */
  function Transitions<T>(r: Regs<T>): nat {
    Change(r.req, r.reqSync0) + Change(r.reqSync0, r.reqSync1) + Change(r.reqSync1, r.ack) +
    Change(r.ack, r.ackSync0) + Change(r.ackSync0, r.ackSync1)
  }

  /** The six toggles never hold more than one transition, and hold none exactly when the source is ready. */
  lemma OneTransition<T>(r: Regs<T>, l: Log<T>)
    requires Inv(r, l)
    ensures Transitions(r) <= 1 && (Transitions(r) == 0 <==> Ready(r))
  {
  }

  /** While a payload is in flight the source accepts nothing, so the held data cannot move. */
  lemma HoldStable<T>(r: Regs<T>, l: Log<T>, t: Tick<T>)
    requires Inv(r, l) && |l.got| < |l.sent|
    ensures !Ready(r) && Step(r, t).hold == r.hold == l.sent[|l.got|]
  {
  }

  /** What arrives is the one payload in flight. */
  lemma ArrivedIs<T>(r: Regs<T>, l: Log<T>)
    requires Inv(r, l)
    ensures Arrived(r) <==> l.s1 == |l.got| + 1
    ensures Arrived(r) ==> |l.sent| == |l.got| + 1 && r.hold == l.sent[|l.got|]
    ensures Ready(r) <==> l.a1 == |l.sent|
  {
  }

  /** Every edge of either clock, alone or together, keeps the invariant. */
  lemma StepInv<T>(r: Regs<T>, l: Log<T>, t: Tick<T>)
    requires Inv(r, l)
    ensures Inv(Step(r, t), NextLog(r, l, t))
  {
    hide Odd;
    ArrivedIs(r, l);
    OddNext(|l.sent|);
    OddNext(|l.got|);
    match t
    case Src(valid, data) =>
    case Dst =>
    case Both(valid, data, reqPick, ackPick) => BothInv(r, l, t);
  }

  lemma BothInv<T>(r: Regs<T>, l: Log<T>, t: Tick<T>)
    requires Inv(r, l) && t.Both?
    ensures Inv(Step(r, t), NextLog(r, l, t))
  {
    hide Odd;
    ArrivedIs(r, l);
    OddNext(|l.sent|);
    OddNext(|l.got|);
  }

  lemma OddNext(n: nat)
    ensures Odd(n + 1) == !Odd(n)
  {
  }

  function Run<T>(r: Regs<T>, l: Log<T>, ts: seq<Tick<T>>): (p: (Regs<T>, Log<T>))
    requires Inv(r, l)
    ensures Inv(p.0, p.1)
    decreases |ts|
  {
    if ts == [] then (r, l)
    else
      var p := Run(r, l, ts[..|ts| - 1]);
      StepInv(p.0, p.1, ts[|ts| - 1]);
      (Step(p.0, ts[|ts| - 1]), NextLog(p.0, p.1, ts[|ts| - 1]))
  }

  /** From reset, in every interleaving: payloads are delivered in order, none twice, at most one is in flight. */
  lemma DeliversInOrder<T>(blank: T, ts: seq<Tick<T>>)
    ensures Inv(Reset(blank), Log([], [], 0, 0, 0, 0))
    ensures var l := Run(Reset(blank), Log([], [], 0, 0, 0, 0), ts).1;
            l.got <= l.sent && |l.sent| <= |l.got| + 1
  {
    hide Run, Inv;
    StartInv(blank);
    InOrder(Run(Reset(blank), Log([], [], 0, 0, 0, 0), ts).0, Run(Reset(blank), Log([], [], 0, 0, 0, 0), ts).1);
  }

  lemma StartInv<T>(blank: T)
    ensures Inv(Reset(blank), Log([], [], 0, 0, 0, 0))
  {
  }

  lemma InOrder<T>(r: Regs<T>, l: Log<T>)
    requires Inv(r, l)
    ensures l.got <= l.sent && |l.sent| <= |l.got| + 1
  {
  }

  function DstEdges<T>(ts: seq<Tick<T>>): nat {
    if ts == [] then 0 else DstEdges(ts[..|ts| - 1]) + if ts[|ts| - 1].Src? then 0 else 1
  }

  function SrcEdges<T>(ts: seq<Tick<T>>): nat {
    if ts == [] then 0 else SrcEdges(ts[..|ts| - 1]) + if ts[|ts| - 1].Dst? then 0 else 1
  }

  /** How many destination edges an accepted payload still needs. */
  lemma {:induction false} DeliveredSoon<T>(r: Regs<T>, l: Log<T>, ts: seq<Tick<T>>)
    requires Inv(r, l)
    ensures var p, n := Run(r, l, ts).1, |l.sent|;
            && (DstEdges(ts) >= 1 ==> p.s0 >= n) && (DstEdges(ts) >= 2 ==> p.s1 >= n)
            && (DstEdges(ts) >= 3 ==> |p.got| >= n) && |p.sent| >= n
    decreases |ts|
  {
    if ts != [] {
      var front, t := ts[..|ts| - 1], ts[|ts| - 1];
      DeliveredSoon(r, l, front);
      var p := Run(r, l, front);
      ArrivedIs(p.0, p.1);
    }
  }

  /** Once everything accepted has been delivered, two source edges make the source ready again unless it has
      accepted more meanwhile. */
  lemma {:induction false} ReadySoon<T>(r: Regs<T>, l: Log<T>, ts: seq<Tick<T>>)
    requires Inv(r, l) && l.got == l.sent
    ensures var p := Run(r, l, ts);
            && (SrcEdges(ts) >= 1 ==> p.1.a0 >= |l.sent|) && (SrcEdges(ts) >= 2 ==> p.1.a1 >= |l.sent|)
            && (SrcEdges(ts) >= 2 && |p.1.sent| == |l.sent| ==> Ready(p.0))
            && |p.1.got| >= |l.got|
    decreases |ts|
  {
    if ts != [] {
      var front, t := ts[..|ts| - 1], ts[|ts| - 1];
      ReadySoon(r, l, front);
      var p := Run(r, l, front);
      ArrivedIs(p.0, p.1);
      StepInv(p.0, p.1, t);
      ArrivedIs(Step(p.0, t), NextLog(p.0, p.1, t));
    }
  }
}
