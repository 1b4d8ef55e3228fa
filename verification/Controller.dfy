/** edgecoh_controller.v: the message FSM between the serial link, the DMA byte ports and the NMC engines. */
module Controller {
  import opened Bytes

  datatype State = Idle | Header | Payload | Dispatch | WaitNmc | SendAck | DmaWrite | DmaReadReq | DmaReadResp
    | SendRespHdr | AckWait

  /** Bytes collected for the message being parsed. */
  datatype Parser = Parser(header: seq<byte>, headerIdx: nat, payload: seq<byte>, payloadIdx: nat, payloadLen: nat)

  /** DATA_WRITE streaming and the DMA write port. */
  datatype Writer = Writer(base: nat, remaining: nat, en: bool, addr: nat, data: byte)

  /** DATA_READ streaming and the DMA read port. */
  datatype Reader = Reader(base: nat, total: nat, requested: nat, sent: nat, have: bool, latch: byte, respIdx: nat,
    en: bool, addr: nat)

  /** The engine request port. */
  datatype Nmc = Nmc(start: bool, op: byte, tableBase: nat, rows: nat, cols: nat, inputAddr: nat, inputLen: nat,
    outputAddr: nat)

  datatype Regs = Regs(state: State, rxReady: bool, txData: byte, txValid: bool, ackIdx: nat, barrierAck: bool,
                       p: Parser, w: Writer, d: Reader, nmc: Nmc, stall: nat)

  datatype In = In(rxData: byte, rxValid: bool, txReady: bool, nmcDone: bool, rdData: byte, rdValid: bool)

  const DATA_WRITE: byte := 0x10
  const DATA_READ: byte := 0x11
  const DATA_RESPONSE: byte := 0x12
  const NMC_EXEC: byte := 0x20
  const SYNC_BARRIER: byte := 0x03
  const ACK: byte := 0xFE

  const LIMIT := 10_000_000
  const LIMIT_NMC := 800_000_000

  function Limit(s: State): nat {
    if s == WaitNmc then LIMIT_NMC else LIMIT
  }

  predicate Progress(r: Regs, i: In) {
    i.rxValid || (r.txValid && i.txReady) || i.nmcDone || i.rdValid || r.d.have
  }

  predicate Waiting(s: State) {
    s != Idle && s != Dispatch
  }

  /** The watchdog fires. */
  predicate Expired(r: Regs) {
    Waiting(r.state) && r.stall >= Limit(r.state)
  }

  predicate Sized(r: Regs) {
    && |r.p.header| == 8 && |r.p.payload| == 32 && r.p.headerIdx < 8 && r.p.payloadIdx < 32 && r.p.payloadLen < TWO32
    && r.ackIdx < 8 && r.d.respIdx < 8
    && r.w.remaining < TWO32 && r.w.base < TWO32 && r.d.base < TWO32 && r.d.total < TWO32
    && r.d.requested <= r.d.total && r.d.sent <= r.d.total
  }

  function Reset(): Regs {
    Regs(Idle, true, 0, false, 0, false, Parser(Zeros(8), 0, Zeros(32), 0, 0), Writer(0, 0, false, 0, 0),
         Reader(0, 0, 0, 0, false, 0, 0, false, 0), Nmc(false, 0, 0, 0, 0, 0, 0, 0), 0)
  }

  /** Outputs that pulse for one cycle, and the stall counter. */
  function Defaults(r: Regs, i: In): Regs {
    r.(nmc := r.nmc.(start := false), w := r.w.(en := false), d := r.d.(en := false), barrierAck := false,
      txValid := false,
       stall := if Progress(r, i) || !Waiting(r.state) then 0 else if r.stall < Limit(r.state) then r.stall + 1
         else r.stall)
  }

  /** Back to idle with the per-message registers cleared; the read byte latch is not among them. */
  function Clear(r: Regs): Regs {
    r.(state := Idle, rxReady := true, ackIdx := 0, p := r.p.(headerIdx := 0, payloadIdx := 0, payloadLen := 0),
       w := r.w.(remaining := 0), d := r.d.(total := 0, requested := 0, sent := 0, respIdx := 0))
  }

  /** `{rx_data, header_buf[6], header_buf[5], header_buf[4]}`. */
  function LenOf(h: seq<byte>, last: byte): (n: nat)
    requires |h| == 8
    ensures n < TWO32
  {
    var b4: int, b5: int, b6: int, b7: int := h[4], h[5], h[6], last;
    b4 + 0x100 * b5 + 0x1_0000 * b6 + 0x100_0000 * b7
  }

  function OnIdle(n: Regs, i: In): Regs
    requires Sized(n)
  {
    var m := n.(rxReady := true, p := n.p.(headerIdx := 0));
    if i.rxValid then m.(p := m.p.(header := Put(n.p.header, 0, i.rxData), headerIdx := 1), state := Header) else m
  }

  function OnHeader(n: Regs, i: In): Regs
    requires Sized(n)
  {
    var m := n.(rxReady := true);
    if !i.rxValid then m
    else
      var h := Put(n.p.header, n.p.headerIdx, i.rxData);
      if n.p.headerIdx == 7 then
        var len := LenOf(n.p.header, i.rxData);
        m.(p := n.p.(header := h, payloadLen := len, payloadIdx := 0), state := if len == 0 then Dispatch else Payload)
      else m.(p := n.p.(header := h, headerIdx := n.p.headerIdx + 1))
  }

  /** The collector stops after four bytes of a DATA_WRITE, else by the low five bits of the length or a full buffer. */
  predicate LastPayloadByte(p: Parser)
    requires |p.header| == 8
  {
    if p.header[0] == DATA_WRITE then p.payloadIdx + 1 >= 4
    else p.payloadIdx + 1 >= p.payloadLen % 32 || p.payloadIdx >= 31
  }

  function OnPayload(n: Regs, i: In): Regs
    requires Sized(n)
  {
    var m := n.(rxReady := true);
    if !i.rxValid then m
    else
      var b := Put(n.p.payload, n.p.payloadIdx, i.rxData);
      if LastPayloadByte(n.p) then m.(p := n.p.(payload := b), state := Dispatch)
      else m.(p := n.p.(payload := b, payloadIdx := n.p.payloadIdx + 1))
  }

  function OnDispatch(n: Regs): Regs
    requires Sized(n)
  {
    var m, h, b := n.(rxReady := false), n.p.header[0], n.p.payload;
    if h == SYNC_BARRIER then m.(barrierAck := true, state := SendAck, ackIdx := 0)
    else if h == NMC_EXEC then
      m.(nmc := Nmc(true, b[0], Rd32(b, 1), Rd32(b, 5), Rd32(b, 9), Rd32(b, 13), Rd32(b, 17), Rd32(b, 21)),
        state := WaitNmc)
    else if h == DATA_WRITE then
      var w := n.w.(base := Rd32(b, 0), remaining := if n.p.payloadLen > 4 then n.p.payloadLen - 4 else 0);
      if n.p.payloadLen > 4 then m.(w := w, state := DmaWrite, rxReady := true)
      else m.(w := w, state := SendAck, ackIdx := 0)
    else if h == DATA_READ then
      m.(d := n.d.(base := Rd32(b, 0), total := Rd32(b, 4), requested := 0, sent := 0, respIdx := 0),
        state := SendRespHdr)
    else m.(state := SendAck, ackIdx := 0)
  }

  function AckByte(h: seq<byte>, k: nat): byte
    requires |h| == 8
  {
    if k == 0 then ACK else if k == 2 then h[2] else if k == 3 then h[3] else 0
  }

  /** The acknowledge byte is held until the transmitter has latched it. */
  function OnSendAck(n: Regs, wasValid: bool, i: In): Regs
    requires Sized(n)
  {
    var taken := wasValid && !i.txReady;
    n.(txData := AckByte(n.p.header, n.ackIdx), txValid := !taken, state := if taken then AckWait else SendAck)
  }

  function OnAckWait(n: Regs, i: In): Regs {
    if !i.txReady then n else if n.ackIdx == 7 then Clear(n) else n.(ackIdx := n.ackIdx + 1, state := SendAck)
  }

  function OnDmaWrite(n: Regs, i: In): Regs {
    var m := n.(rxReady := true);
    if !(i.rxValid && n.w.remaining > 0) then m
    else
      var t := m.(w := Writer((n.w.base + 1) % TWO32, n.w.remaining - 1, true, n.w.base, i.rxData));
      if n.w.remaining == 1 then t.(rxReady := false, state := SendAck, ackIdx := 0) else t
  }

  function RespByte(h: seq<byte>, total: nat, k: nat): byte
    requires |h| == 8
  {
    if k == 0 then DATA_RESPONSE else if k == 1 then 0 else if k == 2 then h[2] else if k == 3 then h[3]
    else if k < 8 then Le32(total)[k - 4] else 0
  }

  /** A response header byte is presented only on a ready transmitter, never on the cycle after another. */
  function OnSendRespHdr(n: Regs, wasValid: bool, i: In): Regs
    requires Sized(n)
  {
    if !(i.txReady && !wasValid) then n
    else
      n.(txValid := true, txData := RespByte(n.p.header, n.d.total, n.d.respIdx),
         state := if n.d.respIdx == 7 then DmaReadReq else SendRespHdr, d := n.d.(respIdx := (n.d.respIdx + 1) % 8))
  }

  function OnDmaReadReq(n: Regs): Regs {
    if n.d.requested < n.d.total then
      n.(d := n.d.(en := true, addr := (n.d.base + n.d.requested) % TWO32, requested := n.d.requested + 1),
        state := DmaReadResp)
    else Clear(n)
  }

  function OnDmaReadResp(n: Regs, wasValid: bool, i: In): Regs {
    var m := if i.rdValid then n.(d := n.d.(latch := i.rdData, have := true)) else n;
    if (n.d.have || i.rdValid) && i.txReady && !wasValid then
      var t := m.(txValid := true, txData := if n.d.have then n.d.latch else i.rdData,
        d := m.d.(have := false, sent := n.d.sent + 1));
      if n.d.sent + 1 >= n.d.total then Clear(t) else t.(state := DmaReadReq)
    else m
  }

  /** One clock edge. */
  function Step(r: Regs, i: In): Regs
    requires Sized(r)
  {
    var n := Defaults(r, i);
    if Expired(r) then Clear(n).(stall := 0)
    else
      match r.state
      case Idle => OnIdle(n, i)
      case Header => OnHeader(n, i)
      case Payload => OnPayload(n, i)
      case Dispatch => OnDispatch(n)
      case WaitNmc => if i.nmcDone then n.(state := SendAck, ackIdx := 0) else n
      case SendAck => OnSendAck(n, r.txValid, i)
      case DmaWrite => OnDmaWrite(n, i)
      case DmaReadReq => OnDmaReadReq(n)
      case DmaReadResp => OnDmaReadResp(n, r.txValid, i)
      case SendRespHdr => OnSendRespHdr(n, r.txValid, i)
      case AckWait => OnAckWait(n, i)
  }

  class Fsm {
    var state: State
    var rxReady: bool
    var txData: byte
    var txValid: bool
    var ackIdx: nat
    var barrierAck: bool
    var p: Parser
    var w: Writer
    var d: Reader
    var nmc: Nmc
    var stall: nat

    function Now(): Regs
      reads this
    {
      Regs(state, rxReady, txData, txValid, ackIdx, barrierAck, p, w, d, nmc, stall)
    }

    constructor ()
      ensures Now() == Reset()
    {
      state, rxReady, txData, txValid, ackIdx, barrierAck := Idle, true, 0, false, 0, false;
      p := Parser(Zeros(8), 0, Zeros(32), 0, 0);
      w := Writer(0, 0, false, 0, 0);
      d := Reader(0, 0, 0, 0, false, 0, 0, false, 0);
      nmc := Nmc(false, 0, 0, 0, 0, 0, 0, 0);
      stall := 0;
    }

    method GoIdle()
      modifies this
      ensures Now() == Clear(old(Now()))
    {
      state, rxReady, ackIdx := Idle, true, 0;
      p := p.(headerIdx := 0, payloadIdx := 0, payloadLen := 0);
      w := w.(remaining := 0);
      d := d.(total := 0, requested := 0, sent := 0, respIdx := 0);
    }

    /** The assignments made before the state is looked at. */
    method SetDefaults(i: In)
      modifies this
      ensures Now() == Defaults(old(Now()), i)
    {
      var was := Now();
      nmc, w, d := nmc.(start := false), w.(en := false), d.(en := false);
      barrierAck, txValid := false, false;
      if Progress(was, i) || !Waiting(was.state) {
        stall := 0;
      } else if stall < Limit(was.state) {
        stall := stall + 1;
      }
    }

    /** Header and payload collection. */
    method Collect(i: In)
      requires Sized(Now()) && (state == Idle || state == Header || state == Payload)
      modifies this
      ensures old(state) == Idle ==> Now() == OnIdle(old(Now()), i)
      ensures old(state) == Header ==> Now() == OnHeader(old(Now()), i)
      ensures old(state) == Payload ==> Now() == OnPayload(old(Now()), i)
    {
      hide LenOf, Put;
      rxReady := true;
      match state {
        case Idle =>
          p := p.(headerIdx := 0);
          if i.rxValid {
            p := p.(header := Put(p.header, 0, i.rxData), headerIdx := 1);
            state := Header;
          }
        case Header =>
          if i.rxValid {
            var len := LenOf(p.header, i.rxData);
            p := p.(header := Put(p.header, p.headerIdx, i.rxData));
            if p.headerIdx == 7 {
              p := p.(payloadLen := len, payloadIdx := 0);
              state := if len == 0 then Dispatch else Payload;
            } else {
              p := p.(headerIdx := p.headerIdx + 1);
            }
          }
        case Payload =>
          if i.rxValid {
            var last := LastPayloadByte(p);
            p := p.(payload := Put(p.payload, p.payloadIdx, i.rxData));
            if last {
              state := Dispatch;
            } else {
              p := p.(payloadIdx := p.payloadIdx + 1);
            }
          }
        case _ =>
      }
    }

    /** The message type decides what follows. */
    method Branch()
      requires Sized(Now())
      modifies this
      ensures Now() == OnDispatch(old(Now()))
    {
      hide Rd32;
      rxReady := false;
      var b := p.payload;
      if p.header[0] == NMC_EXEC {
        nmc := Nmc(true, b[0], Rd32(b, 1), Rd32(b, 5), Rd32(b, 9), Rd32(b, 13), Rd32(b, 17), Rd32(b, 21));
        state := WaitNmc;
      } else if p.header[0] == DATA_WRITE {
        w := w.(base := Rd32(b, 0), remaining := if p.payloadLen > 4 then p.payloadLen - 4 else 0);
        if p.payloadLen > 4 {
          state, rxReady := DmaWrite, true;
        } else {
          state, ackIdx := SendAck, 0;
        }
      } else if p.header[0] == DATA_READ {
        d := d.(base := Rd32(b, 0), total := Rd32(b, 4), requested := 0, sent := 0, respIdx := 0);
        state := SendRespHdr;
      } else {
        barrierAck := p.header[0] == SYNC_BARRIER || barrierAck;
        state, ackIdx := SendAck, 0;
      }
    }

    /** Acknowledge bytes and the DMA write stream. */
    method AckAndWrite(i: In, wasValid: bool)
      requires Sized(Now()) && (state == SendAck || state == AckWait || state == DmaWrite)
      modifies this
      ensures old(state) == SendAck ==> Now() == OnSendAck(old(Now()), wasValid, i)
      ensures old(state) == AckWait ==> Now() == OnAckWait(old(Now()), i)
      ensures old(state) == DmaWrite ==> Now() == OnDmaWrite(old(Now()), i)
    {
      match state {
        case SendAck =>
          txData, txValid := AckByte(p.header, ackIdx), true;
          if wasValid && !i.txReady {
            txValid, state := false, AckWait;
          }
        case AckWait =>
          if i.txReady {
            if ackIdx == 7 {
              GoIdle();
            } else {
              ackIdx, state := ackIdx + 1, SendAck;
            }
          }
        case DmaWrite =>
          rxReady := true;
          if i.rxValid && w.remaining > 0 {
            var last := w.remaining == 1;
            w := Writer((w.base + 1) % TWO32, w.remaining - 1, true, w.base, i.rxData);
            if last {
              rxReady, state, ackIdx := false, SendAck, 0;
            }
          }
        case _ =>
      }
    }

    /** The DMA read stream and its response header. */
    method Respond(i: In, wasValid: bool)
      requires Sized(Now()) && (state == DmaReadReq || state == DmaReadResp || state == SendRespHdr)
      modifies this
      ensures old(state) == DmaReadReq ==> Now() == OnDmaReadReq(old(Now()))
      ensures old(state) == DmaReadResp ==> Now() == OnDmaReadResp(old(Now()), wasValid, i)
      ensures old(state) == SendRespHdr ==> Now() == OnSendRespHdr(old(Now()), wasValid, i)
    {
      hide RespByte;
      match state {
        case DmaReadReq =>
          if d.requested < d.total {
            d := d.(en := true, addr := (d.base + d.requested) % TWO32, requested := d.requested + 1);
            state := DmaReadResp;
          } else {
            GoIdle();
          }
        case DmaReadResp =>
          var had, latched, sent := d.have, d.latch, d.sent;
          if i.rdValid {
            d := d.(latch := i.rdData, have := true);
          }
          if (had || i.rdValid) && i.txReady && !wasValid {
            txValid, txData := true, if had then latched else i.rdData;
            d := d.(have := false, sent := sent + 1);
            if sent + 1 >= d.total {
              GoIdle();
            } else {
              state := DmaReadReq;
            }
          }
        case SendRespHdr =>
          if i.txReady && !wasValid {
            txValid, txData := true, RespByte(p.header, d.total, d.respIdx);
            if d.respIdx == 7 {
              state := DmaReadReq;
            }
            d := d.(respIdx := (d.respIdx + 1) % 8);
          }
        case _ =>
      }
    }

    /** The rising edge with reset inactive. */
    method Clock(i: In)
      requires Sized(Now())
      modifies this
      ensures Now() == Step(old(Now()), i)
    {
      hide OnIdle, OnHeader, OnPayload, OnDispatch, OnSendAck, OnAckWait, OnDmaWrite, OnDmaReadReq, OnDmaReadResp,
           OnSendRespHdr, Clear;
      var was := Now();
      SetDefaults(i);
      if Expired(was) {
        GoIdle();
        stall := 0;
      } else if was.state == Idle || was.state == Header || was.state == Payload {
        Collect(i);
      } else if was.state == Dispatch {
        Branch();
      } else if was.state == WaitNmc {
        if i.nmcDone {
          state, ackIdx := SendAck, 0;
        }
      } else if was.state == SendAck || was.state == AckWait || was.state == DmaWrite {
        AckAndWrite(i, was.txValid);
      } else {
        Respond(i, was.txValid);
      }
    }
  }

  // ----- what every reachable state satisfies -----

  /** All per-message registers are zero. */
  predicate Blank(r: Regs) {
    && r.p.headerIdx == 0 && r.p.payloadIdx == 0 && r.p.payloadLen == 0 && r.ackIdx == 0 && r.w.remaining == 0
    && r.d.total == 0 && r.d.requested == 0 && r.d.sent == 0 && r.d.respIdx == 0 && !r.d.have
  }

  predicate Parsing(s: State) {
    s == Idle || s == Header || s == Payload || s == Dispatch
  }

  predicate Reading(s: State) {
    s == DmaReadReq || s == DmaReadResp || s == SendRespHdr
  }

  /** The read byte latch is occupied only while its byte waits for the transmitter, and then the watchdog is at
      zero. */
  predicate Reachable(r: Regs) {
    && Sized(r) && (r.d.have ==> r.state == DmaReadResp && r.stall == 0)
    && (r.state == Idle ==> Blank(r))
    && (Parsing(r.state) ==>
        r.ackIdx == 0 && r.w.remaining == 0 && r.d.total == 0 && r.d.requested == 0
        && r.d.sent == 0 && r.d.respIdx == 0)
    && (r.state == Header ==> 1 <= r.p.headerIdx && r.p.payloadIdx == 0 && r.p.payloadLen == 0)
    && (r.state == Payload ==> r.p.payloadLen > 0)
    && (r.state == DmaReadReq ==> r.d.requested == r.d.sent)
    && (r.state == DmaReadResp ==> r.d.requested == r.d.sent + 1)
    && (r.state == SendRespHdr ==> r.d.requested == 0 && r.d.sent == 0)
  }

  lemma ReachableSized(r: Regs)
    requires Reachable(r)
    ensures Sized(r)
  {
  }

  /** Every edge keeps it, whatever arrives on the link, the transmitter, the engines and the DMA port. */
  lemma StepReachable(r: Regs, i: In)
    requires Reachable(r)
    ensures Reachable(Step(r, i))
  {
    hide Step, Reachable;
    if Parsing(r.state) {
      ParseReachable(r, i);
    } else if Reading(r.state) {
      ReadReachable(r, i);
    } else {
      AckReachable(r, i);
    }
  }

  lemma ParseReachable(r: Regs, i: In)
    requires Reachable(r) && Parsing(r.state)
    ensures Reachable(Step(r, i))
  {
    hide LenOf, Rd32, Le32, AckByte, RespByte, Put;
  }

  lemma ReadReachable(r: Regs, i: In)
    requires Reachable(r) && Reading(r.state)
    ensures Reachable(Step(r, i))
  {
    hide LenOf, Rd32, Le32, AckByte, RespByte, Put;
  }

  lemma AckReachable(r: Regs, i: In)
    requires Reachable(r) && !Parsing(r.state) && !Reading(r.state)
    ensures Reachable(Step(r, i))
  {
    hide LenOf, Rd32, Le32, AckByte, RespByte, Put;
  }

  function Run(ins: seq<In>): (r: Regs)
    ensures Reachable(r)
  {
    if ins == [] then Reset() else
      StepReachable(Run(ins[..|ins| - 1]), ins[|ins| - 1]);
      Step(Run(ins[..|ins| - 1]), ins[|ins| - 1])
  }

  /** In every reachable idle state, watchdog exits included, nothing of the last message is left: not even the
      read byte latch, which no exit clears. */
  lemma IdleIsBlank(ins: seq<In>)
    ensures Run(ins).state == Idle ==> Blank(Run(ins))
  {
    hide Run, Blank;
  }
}
