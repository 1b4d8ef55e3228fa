/** ddr2_arbiter.v: the registers of the DDR2 arbiter and what one clock edge does to them. */
module Ddr2Arbiter {
  import opened Bytes
  import opened Mig

  datatype Owner = Nmc | Mac | Dma

  /** One engine port's inputs in one cycle. */
  datatype PortIn = PortIn(rdEn: bool, rdAddr: nat, wrEn: bool, wrAddr: nat, wrData: word)

  /** Everything the arbiter samples at one edge. */
  datatype In = In(nmc: PortIn, mac: PortIn, wrEn: bool, wrAddr: nat, wrByte: byte, rdEn: bool, rdAddr: nat,
                   rdy: bool, wdfRdy: bool, rdValid: bool, rdData: word)

  predicate PortInOk(i: PortIn) {
    i.rdAddr < SIZE && i.wrAddr < SIZE
  }

  /** Latched engine requests: one pending read, a two-deep write queue. */
  datatype Port = Port(rdReq: bool, rdAddr: nat, cnt: nat, addr0: nat, data0: word, addr1: nat, data1: word)

  /** The command and data being presented to the controller. */
  datatype Issue = Issue(busy: bool, en: bool, cmd: Cmd, wren: bool, wdf: Wdf)

  /** The DMA write assembler. */
  datatype Assembler = Assembler(valid: bool, word: nat, data: word, lanes: lanes, idle: nat, flush: bool)

  /** The one-word DMA read cache. */
  datatype Cache = Cache(valid: bool, word: nat, data: word)

  /** The DMA read in flight and the byte port. */
  datatype Reader = Reader(busy: bool, req: bool, addr: nat, off: nat, byteOut: byte, valid: bool)

  datatype Regs = Regs(rdBusy: bool, rdOwner: Owner, nmc: Port, mac: Port, issue: Issue, wa: Assembler, rc: Cache,
    dr: Reader)

  const IDLE_LIMIT := 31

  function NoLanes(): (l: lanes)
    ensures forall k :: 0 <= k < 16 ==> !l[k]
  {
    seq(16, k => false)
  }

  function Not(l: lanes): (m: lanes)
    ensures forall k :: 0 <= k < 16 ==> m[k] == !l[k]
  {
    seq(16, k requires 0 <= k < 16 => !l[k])
  }

  /** `to_mig`: byte address to 16-bit-word address of the burst. */
  function ToMig(b: nat): (a: nat)
    ensures a / 8 == b / 16
  {
    b / 16 * 8
  }

  /** `{a[26:4], 4'b0000}`. */
  function Aligned(a: nat): (r: nat)
    ensures r / 16 == a / 16 && r <= a
  {
    a / 16 * 16
  }

  function ResetPort(): Port {
    Port(false, 0, 0, 0, Zeros(16), 0, Zeros(16))
  }

  function Reset(): Regs {
    Regs(false, Nmc, ResetPort(), ResetPort(), Issue(false, false, Cmd(0, true), false, Wdf(Zeros(16), Not(NoLanes()))),
         Assembler(false, 0, Zeros(16), NoLanes(), 0, false), Cache(false, 0, Zeros(16)),
           Reader(false, false, 0, 0, 0, false))
  }

  // ----- combinational signals -----

  datatype Choice = NmcWrite | NmcRead | MacWrite | MacRead | Flush | DmaRead | Nothing

  /** The issue chain: at most one operation, by static priority. */
  function Chosen(r: Regs): Choice {
    if r.issue.busy then Nothing
    else if r.nmc.cnt != 0 then NmcWrite
    else if r.nmc.rdReq && !r.rdBusy then NmcRead
    else if r.mac.cnt != 0 then MacWrite
    else if r.mac.rdReq && !r.rdBusy then MacRead
    else if r.wa.flush then Flush
    else if r.dr.req && !r.rdBusy then DmaRead
    else Nothing
  }

  predicate IsWrite(c: Choice) {
    c == NmcWrite || c == MacWrite || c == Flush
  }

  predicate IsRead(c: Choice) {
    c == NmcRead || c == MacRead || c == DmaRead
  }

  predicate NmcPop(r: Regs) {
    !r.issue.busy && r.nmc.cnt != 0
  }

  predicate MacPop(r: Regs) {
    !r.issue.busy && r.nmc.cnt == 0 && !(r.nmc.rdReq && !r.rdBusy) && r.mac.cnt != 0
  }

  predicate Same(r: Regs, i: In) {
    i.wrAddr / 16 == r.wa.word / 16
  }

  predicate WriteReady(r: Regs, i: In) {
    !r.wa.flush && (!r.wa.valid || Same(r, i))
  }

  predicate WriteAccept(r: Regs, i: In) {
    i.wrEn && WriteReady(r, i)
  }

  predicate ReadReady(r: Regs) {
    !r.dr.busy && !r.wa.valid && !r.wa.flush
  }

  predicate ReadAccept(r: Regs, i: In) {
    i.rdEn && ReadReady(r)
  }

  predicate Hit(r: Regs, i: In) {
    r.rc.valid && i.rdAddr / 16 == r.rc.word / 16
  }

  /** A controller return that belongs to port w. */
  predicate ReturnTo(r: Regs, i: In, w: Owner) {
    i.rdValid && r.rdBusy && r.rdOwner == w
  }

  // ----- next state -----

  /** One port's pulses latched; pop and push may coincide. */
  function Latched(p: Port, i: PortIn, pop: bool): Port {
    var q :=
      if i.wrEn && !pop then
        (if p.cnt == 0 then p.(addr0 := i.wrAddr, data0 := i.wrData, cnt := 1)
         else p.(addr1 := i.wrAddr, data1 := i.wrData, cnt := (p.cnt + 1) % 4))
      else if !i.wrEn && pop then p.(addr0 := p.addr1, data0 := p.data1, cnt := if p.cnt > 0 then p.cnt - 1 else 3)
      else if i.wrEn && pop then
        (if p.cnt == 1 then p.(addr0 := i.wrAddr, data0 := i.wrData)
         else p.(addr0 := p.addr1, data0 := p.data1, addr1 := i.wrAddr, data1 := i.wrData))
      else p;
    q.(rdReq := p.rdReq || i.rdEn, rdAddr := if i.rdEn then i.rdAddr else p.rdAddr)
  }

  /** The operation the chain presents. */
  function CmdOf(r: Regs, c: Choice): Cmd {
    match c
    case NmcWrite => Cmd(ToMig(r.nmc.addr0), false)
    case NmcRead => Cmd(ToMig(r.nmc.rdAddr), true)
    case MacWrite => Cmd(ToMig(r.mac.addr0), false)
    case MacRead => Cmd(ToMig(r.mac.rdAddr), true)
    case Flush => Cmd(ToMig(r.wa.word), false)
    case DmaRead => Cmd(ToMig(r.dr.addr), true)
    case Nothing => r.issue.cmd
  }

  function WdfOf(r: Regs, c: Choice): Wdf {
    match c
    case NmcWrite => Wdf(r.nmc.data0, NoLanes())
    case MacWrite => Wdf(r.mac.data0, NoLanes())
    case Flush => Wdf(r.wa.data, Not(r.wa.lanes))
    case _ => r.issue.wdf
  }

  predicate CmdTaken(r: Regs, i: In) {
    r.issue.en && i.rdy
  }

  predicate WdfTaken(r: Regs, i: In) {
    r.issue.wren && i.wdfRdy
  }

  /** Handshake completion: what the controller has taken is withdrawn, and once nothing is left the slot is free. */
  function Shaken(r: Regs, i: In): Issue {
    r.issue.(busy := r.issue.busy && ((r.issue.en && !i.rdy) || (r.issue.wren && !i.wdfRdy)),
             en := r.issue.en && !i.rdy, wren := r.issue.wren && !i.wdfRdy)
  }

  /** The chosen operation presented. */
  function Presented(r: Regs, c: Choice, s: Issue): Issue {
    if c == Nothing then s else Issue(true, true, CmdOf(r, c), IsWrite(c) || s.wren, if IsWrite(c) then WdfOf(r, c)
      else s.wdf)
  }

  /** Merge an accepted byte, count idle cycles, raise the flush request. */
  function Assembled(r: Regs, i: In): Assembler {
    var a := WriteAccept(r, i);
    var first := a && !r.wa.valid;
    Assembler(
      r.wa.valid || a,
      if first then Aligned(i.wrAddr) else r.wa.word,
      if a then PutLane(if first then Zeros(16) else r.wa.data, i.wrAddr % 16, i.wrByte) else r.wa.data,
      if a then SetLane(if first then NoLanes() else r.wa.lanes, i.wrAddr % 16) else r.wa.lanes,
      if a then 0 else if r.wa.valid && r.wa.idle != IDLE_LIMIT then r.wa.idle + 1 else r.wa.idle,
      r.wa.flush || (r.wa.valid && ((i.wrEn && !Same(r, i)) || r.wa.idle == IDLE_LIMIT || i.rdEn)))
  }

  function Emptied(a: Assembler): Assembler {
    a.(flush := false, valid := false, lanes := NoLanes(), idle := 0)
  }

  function PutLane(d: word, k: nat, b: byte): (r: word)
    requires k < 16
  {
    d[k := b]
  }

  function SetLane(l: lanes, k: nat): (r: lanes)
    requires k < 16
  {
    l[k := true]
  }

  function Filled(r: Regs, i: In): Cache {
    if ReturnTo(r, i, Dma) then Cache(true, Aligned(r.dr.addr), i.rdData) else r.rc
  }

  /** The byte port: a hit answers at once, a miss waits for its fill. */
  function Answered(r: Regs, i: In): Reader {
    var fill, a, hit := ReturnTo(r, i, Dma), ReadAccept(r, i), Hit(r, i);
    var miss := a && !hit;
    Reader(
      !fill && (r.dr.busy || miss),
      r.dr.req || miss,
      if miss then i.rdAddr else r.dr.addr,
      if miss then i.rdAddr % 16 else r.dr.off,
      if fill then i.rdData[r.dr.off % 16] else if a && hit then r.rc.data[i.rdAddr % 16] else r.dr.byteOut,
      fill || (a && hit))
  }

  /** The edge up to the issue chain. */
  function Sampled(r: Regs, i: In): Regs {
    Regs(r.rdBusy && !i.rdValid, r.rdOwner, Latched(r.nmc, i.nmc, NmcPop(r)), Latched(r.mac, i.mac, MacPop(r)),
         Shaken(r, i), Assembled(r, i), Filled(r, i), Answered(r, i))
  }

  /** The issue chain's own assignments, made last. */
  function Issued(r: Regs, i: In, m: Regs): Regs {
    var c := Chosen(r);
    Regs(IsRead(c) || m.rdBusy,
         match c case NmcRead => Nmc case MacRead => Mac case DmaRead => Dma case _ => m.rdOwner,
         if c == NmcRead then m.nmc.(rdReq := i.nmc.rdEn) else m.nmc,
         if c == MacRead then m.mac.(rdReq := i.mac.rdEn) else m.mac,
         Presented(r, c, m.issue),
         if c == Flush then Emptied(m.wa) else m.wa,
         if IsWrite(c) then m.rc.(valid := false) else m.rc,
         if c == DmaRead then m.dr.(req := false) else m.dr)
  }

  /** One clock edge. */
  function Step(r: Regs, i: In): (r': Regs) {
    Issued(r, i, Sampled(r, i))
  }

  /** The pop signals agree with the issue chain in every state. */
  lemma PopsAgree(r: Regs)
    ensures NmcPop(r) <==> Chosen(r) == NmcWrite
    ensures MacPop(r) <==> Chosen(r) == MacWrite
  {
  }

  // ----- the clocked block -----

  class Arbiter {
    var rdBusy: bool
    var rdOwner: Owner
    var nmc: Port
    var mac: Port
    var issue: Issue
    var wa: Assembler
    var rc: Cache
    var dr: Reader

    function Now(): Regs
      reads this
    {
      Regs(rdBusy, rdOwner, nmc, mac, issue, wa, rc, dr)
    }

    constructor ()
      ensures Now() == Reset()
    {
      rdBusy, rdOwner := false, Nmc;
      nmc, mac := ResetPort(), ResetPort();
      issue := Issue(false, false, Cmd(0, true), false, Wdf(Zeros(16), Not(NoLanes())));
      wa := Assembler(false, 0, Zeros(16), NoLanes(), 0, false);
      rc := Cache(false, 0, Zeros(16));
      dr := Reader(false, false, 0, 0, 0, false);
    }

    /** Latch one port's pulses. */
    static method LatchPort(p: Port, i: PortIn, pop: bool) returns (q: Port)
      ensures q == Latched(p, i, pop)
    {
      q := p;
      if i.rdEn {
        q := q.(rdReq := true, rdAddr := i.rdAddr);
      }
      if i.wrEn && !pop {
        if p.cnt == 0 {
          q := q.(addr0 := i.wrAddr, data0 := i.wrData, cnt := 1);
        } else {
          q := q.(addr1 := i.wrAddr, data1 := i.wrData, cnt := (p.cnt + 1) % 4);
        }
      } else if !i.wrEn && pop {
        q := q.(addr0 := p.addr1, data0 := p.data1, cnt := if p.cnt > 0 then p.cnt - 1 else 3);
      } else if i.wrEn && pop {
        if p.cnt == 1 {
          q := q.(addr0 := i.wrAddr, data0 := i.wrData);
        } else {
          q := q.(addr0 := p.addr1, data0 := p.data1, addr1 := i.wrAddr, data1 := i.wrData);
        }
      }
    }

    /** The assembler's merge and its flush triggers; the issue chain empties it later. */
    static method Assemble(r: Regs, i: In) returns (n: Assembler)
      ensures n == Assembled(r, i)
    {
      n := r.wa;
      if WriteAccept(r, i) {
        if !r.wa.valid {
          n := n.(word := Aligned(i.wrAddr), data := Zeros(16), lanes := NoLanes());
        }
        n := n.(valid := true, idle := 0, data := PutLane(n.data, i.wrAddr % 16, i.wrByte),
                lanes := SetLane(n.lanes, i.wrAddr % 16));
      } else if r.wa.valid && r.wa.idle != IDLE_LIMIT {
        n := n.(idle := r.wa.idle + 1);
      }
      if r.wa.valid && !r.wa.flush && ((i.wrEn && !Same(r, i)) || r.wa.idle == IDLE_LIMIT || i.rdEn) {
        n := n.(flush := true);
      }
    }

    /** Handshake completion. */
    static method Shake(r: Regs, i: In) returns (n: Issue)
      ensures n == Shaken(r, i)
    {
      n := r.issue;
      if CmdTaken(r, i) {
        n := n.(en := false);
      }
      if WdfTaken(r, i) {
        n := n.(wren := false);
      }
      if r.issue.busy && !(r.issue.en && !CmdTaken(r, i)) && !(r.issue.wren && !WdfTaken(r, i)) {
        n := n.(busy := false);
      }
    }

    /** The DMA read side: accept, then fill. */
    static method ReadSide(r: Regs, i: In) returns (n: Reader, c: Cache)
      ensures n == Answered(r, i) && c == Filled(r, i)
    {
      hide Aligned, Hit;
      n, c := r.dr.(valid := false), r.rc;
      if ReadAccept(r, i) {
        if Hit(r, i) {
          n := n.(byteOut := r.rc.data[i.rdAddr % 16], valid := true);
        } else {
          n := n.(busy := true, req := true, addr := i.rdAddr, off := i.rdAddr % 16);
        }
      }
      if ReturnTo(r, i, Dma) {
        c := Cache(true, Aligned(r.dr.addr), i.rdData);
        n := n.(byteOut := i.rdData[r.dr.off % 16], valid := true, busy := false);
      }
    }

    /** The rising edge with reset inactive: every register from the values before the edge. */
    method Clock(i: In)
      modifies this
      ensures Now() == Step(old(Now()), i)
    {
      hide Assembled, Answered, Filled, Shaken, Latched, Issued;
      var r := Now();
      issue := Shake(r, i);
      if i.rdValid {
        rdBusy := false;
      }
      nmc := LatchPort(r.nmc, i.nmc, NmcPop(r));
      mac := LatchPort(r.mac, i.mac, MacPop(r));
      wa := Assemble(r, i);
      dr, rc := ReadSide(r, i);
      IssueOne(r, i);
    }

    /** Issue one controller operation by static priority. */
    method IssueOne(r: Regs, i: In)
      modifies this
      ensures Now() == Issued(r, i, old(Now()))
    {
      hide ToMig;
      match Chosen(r) {
        case NmcWrite =>
          issue := Issue(true, true, Cmd(ToMig(r.nmc.addr0), false), true, Wdf(r.nmc.data0, NoLanes()));
          rc := rc.(valid := false);
        case NmcRead =>
          issue := issue.(busy := true, en := true, cmd := Cmd(ToMig(r.nmc.rdAddr), true));
          rdBusy, rdOwner, nmc := true, Nmc, nmc.(rdReq := i.nmc.rdEn);
        case MacWrite =>
          issue := Issue(true, true, Cmd(ToMig(r.mac.addr0), false), true, Wdf(r.mac.data0, NoLanes()));
          rc := rc.(valid := false);
        case MacRead =>
          issue := issue.(busy := true, en := true, cmd := Cmd(ToMig(r.mac.rdAddr), true));
          rdBusy, rdOwner, mac := true, Mac, mac.(rdReq := i.mac.rdEn);
        case Flush =>
          issue := Issue(true, true, Cmd(ToMig(r.wa.word), false), true, Wdf(r.wa.data, Not(r.wa.lanes)));
          wa := wa.(flush := false, valid := false, lanes := NoLanes(), idle := 0);
          rc := rc.(valid := false);
        case DmaRead =>
          issue := issue.(busy := true, en := true, cmd := Cmd(ToMig(r.dr.addr), true));
          rdBusy, rdOwner, dr := true, Dma, dr.(req := false);
        case Nothing =>
      }
    }
  }
}
