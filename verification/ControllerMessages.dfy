/** What the EdgeCoh controller does with whole messages: every byte of a write reaches memory at its address, every
    byte of a read comes back once, in order. */
module ControllerMessages {
  import opened Bytes
  import opened Controller

  /** One message: bytes received, DMA writes and reads emitted, bytes the DMA port returned, response bytes presented,
      engine requests started, barrier pulses given, acknowledge bytes the transmitter latched. */
  datatype Msg = Msg(bytes: seq<byte>, writes: seq<(nat, byte)>, asked: seq<nat>, returned: seq<byte>, shown: seq<byte>,
                     starts: seq<Nmc>, barriers: nat, acks: seq<byte>)

  function Fresh(bytes: seq<byte>): Msg {
    Msg(bytes, [], [], [], [], [], 0, [])
  }

  /** The message in progress or the last one, whether a watchdog cut it short, and whether the link delivered a byte
      in the cycle before. */
  datatype Log = Log(m: Msg, aborted: bool, justRx: bool)

  predicate Listening(s: State) {
    s == Idle || s == Header || s == Payload || s == DmaWrite
  }

  predicate Owing(s: State) {
    s == WaitNmc || s == SendAck || s == AckWait || s == SendRespHdr || s == DmaReadReq || s == DmaReadResp
  }

  /** The message with the byte heard this cycle; a byte heard while idle starts a new one. */
  function Heard(r: Regs, m: Msg, i: In): Msg {
    if !(i.rxValid && Listening(r.state) && !Expired(r)) then m
    else if r.state == Idle then Fresh([i.rxData])
    else m.(bytes := m.bytes + [i.rxData])
  }

  /** A response byte is presented this cycle: transmitter ready, nothing presented the cycle before. */
  predicate Shows(r: Regs, i: In) {
    && (r.state == SendRespHdr || (r.state == DmaReadResp && (r.d.have || i.rdValid))) && !Expired(r)
    && i.txReady && !r.txValid
  }

  /** The transmitter latches an acknowledge byte this cycle: it was presented, and ready has fallen. */
  predicate Latches(r: Regs, i: In) {
    r.state == SendAck && !Expired(r) && r.txValid && !i.txReady
  }

  function NextMsg(r: Regs, m: Msg, i: In): Msg
    requires Sized(r)
  {
    var r', h := Step(r, i), Heard(r, m, i);
    h.(writes := if r'.w.en then h.writes + [(r'.w.addr, r'.w.data)] else h.writes,
       asked := if r'.d.en then h.asked + [r'.d.addr] else h.asked,
       returned := if r.state == DmaReadResp && !Expired(r) && i.rdValid then h.returned + [i.rdData] else h.returned,
       shown := if Shows(r, i) then h.shown + [r'.txData] else h.shown,
       starts := if r'.nmc.start then h.starts + [r'.nmc] else h.starts,
       barriers := if r'.barrierAck then h.barriers + 1 else h.barriers,
       acks := if Latches(r, i) then h.acks + [r.txData] else h.acks)
  }

  function NextLog(r: Regs, l: Log, i: In): Log
    requires Sized(r)
  {
    Log(NextMsg(r, l.m, i), Expired(r) || (l.aborted && !(r.state == Idle && i.rxValid)), i.rxValid)
  }

  /** Messages whose length field suits their type; the collector counts at most 31 payload bytes of all but a write. */
  predicate GoodPrefix(b: seq<byte>) {
    |b| >= 8 ==>
      var len := Rd32(b, 4);
      if b[0] == DATA_WRITE then len >= 4
      else (b[0] == DATA_READ ==> len == 8) && (b[0] == NMC_EXEC ==> len == 25) && len <= 31
  }

  /** The surroundings: link bytes at least two cycles apart, none while a response is owed; one DMA return per
      request. */
  predicate EnvOk(r: Regs, l: Log, i: In) {
    && (i.rxValid ==> !l.justRx && !Owing(r.state) && GoodPrefix(Heard(r, l.m, i).bytes))
    && (i.rdValid ==> r.state == DmaReadResp && !r.d.have)
  }

  // ----- what a message should do -----

  predicate NoEffect(m: Msg) {
    m.writes == [] && m.asked == [] && m.returned == [] && m.shown == [] && Passive(m)
  }

  /** No engine started, no barrier signalled, nothing acknowledged. */
  predicate Passive(m: Msg) {
    m.starts == [] && m.barriers == 0 && m.acks == []
  }

  /** The engine request of an NMC_EXEC message. */
  function Request(b: seq<byte>): Nmc
    requires |b| == 33
  {
    Nmc(true, b[8], Rd32(b, 9), Rd32(b, 13), Rd32(b, 17), Rd32(b, 21), Rd32(b, 25), Rd32(b, 29))
  }

  /** The acknowledge: its type, then zeros but for the message's tensor id. */
  function AckOf(b: seq<byte>): (a: seq<byte>)
    requires |b| >= 8
    ensures |a| == 8
  {
    [ACK, 0, b[2], b[3], 0, 0, 0, 0]
  }

  /** The first k data bytes written at consecutive addresses. */
  predicate Written(m: Msg, k: nat) {
    && |m.bytes| >= 12 + k && |m.writes| == k
    && forall j :: 0 <= j < k ==> m.writes[j] == ((Rd32(m.bytes, 8) + j) % TWO32, m.bytes[12 + j])
  }

  /** The first k consecutive addresses requested. */
  predicate Requested(m: Msg, k: nat) {
    && |m.bytes| == 16 && |m.asked| == k
    && forall j :: 0 <= j < k ==> m.asked[j] == (Rd32(m.bytes, 8) + j) % TWO32
  }

  /** The response header: type, flags 0, the message's tensor id, the length. */
  function RespHeader(b: seq<byte>): (h: seq<byte>)
    requires |b| == 16
    ensures |h| == 8
  {
    [DATA_RESPONSE, 0, b[2], b[3]] + Le32(Rd32(b, 12))
  }

  /** A whole message and exactly its effects, the acknowledge apart. */
  predicate Complete(m: Msg) {
    && |m.bytes| >= 8 && |m.bytes| == 8 + Rd32(m.bytes, 4)
    && m.barriers == (if m.bytes[0] == SYNC_BARRIER then 1 else 0)
    && (if m.bytes[0] == NMC_EXEC then |m.bytes| == 33 && m.starts == [Request(m.bytes)] else m.starts == [])
    && (if m.bytes[0] == DATA_WRITE then
          |m.bytes| >= 12 && Written(m, |m.bytes| - 12) && m.asked == [] && m.returned == [] && m.shown == []
        else if m.bytes[0] == DATA_READ then
          |m.bytes| == 16 && Requested(m, Rd32(m.bytes, 12)) && |m.returned| == Rd32(m.bytes, 12)
          && m.shown == RespHeader(m.bytes) + m.returned && m.writes == []
        else m.writes == [] && m.asked == [] && m.returned == [] && m.shown == [])
  }

  /** Finished: every message but a read has been acknowledged, a read has not. */
  predicate Finished(m: Msg) {
    Complete(m) && m.acks == if m.bytes[0] == DATA_READ then [] else AckOf(m.bytes)
  }

  // ----- what each state knows -----

  /** The collected header is the message's. */
  predicate HasHeader(r: Regs, m: Msg)
    requires Sized(r)
  {
    |m.bytes| >= 8 && r.p.header == m.bytes[..8] && r.p.payloadLen == Rd32(m.bytes, 4) && GoodPrefix(m.bytes)
  }

  predicate AtHeader(r: Regs, m: Msg)
    requires Sized(r)
  {
    |m.bytes| == r.p.headerIdx && r.p.header[..r.p.headerIdx] == m.bytes && NoEffect(m)
  }

  /** Bytes that the collector gathers before dispatch. */
  function Gathered(r: Regs): nat
    requires Sized(r)
  {
    if r.p.header[0] == DATA_WRITE then 4 else r.p.payloadLen
  }

  predicate AtPayload(r: Regs, m: Msg)
    requires Sized(r)
  {
    && HasHeader(r, m) && NoEffect(m) && |m.bytes| == 8 + r.p.payloadIdx
    && r.p.payload[..r.p.payloadIdx] == m.bytes[8..] && r.p.payloadIdx < Gathered(r) <= 31
  }

  predicate AtDispatch(r: Regs, m: Msg)
    requires Sized(r)
  {
    && HasHeader(r, m) && NoEffect(m) && Gathered(r) <= 31
    && |m.bytes| == 8 + Gathered(r) && r.p.payload[..Gathered(r)] == m.bytes[8..]
  }

  predicate AtDmaWrite(r: Regs, m: Msg)
    requires Sized(r)
  {
    && HasHeader(r, m) && r.p.header[0] == DATA_WRITE && |m.bytes| >= 12
    && Written(m, |m.bytes| - 12) && m.asked == [] && m.returned == [] && m.shown == [] && Passive(m)
    && r.w.remaining > 0 && r.w.remaining + |m.bytes| == 8 + r.p.payloadLen
    && r.w.base == (Rd32(m.bytes, 8) + (|m.bytes| - 12)) % TWO32
  }

  predicate AtNmc(r: Regs, m: Msg)
    requires Sized(r)
  {
    Complete(m) && m.bytes[0] == NMC_EXEC && m.acks == [] && r.p.header == m.bytes[..8]
  }

  /** The first k acknowledge bytes are latched; the one presented is the next. */
  predicate Acked(r: Regs, m: Msg, k: nat)
    requires Sized(r)
  {
    && Complete(m) && m.bytes[0] != DATA_READ && r.p.header == m.bytes[..8] && k <= 8 && m.acks == AckOf(m.bytes)[..k]
  }

  predicate AtSendAck(r: Regs, m: Msg)
    requires Sized(r)
  {
    Acked(r, m, r.ackIdx) && (r.txValid ==> r.txData == AckOf(m.bytes)[r.ackIdx])
  }

  predicate AtRead(r: Regs, m: Msg)
    requires Sized(r)
  {
    && HasHeader(r, m) && r.p.header[0] == DATA_READ && |m.bytes| == 16 && m.writes == [] && Passive(m)
    && r.d.base == Rd32(m.bytes, 8) && r.d.total == Rd32(m.bytes, 12) && Requested(m, r.d.requested)
  }

  predicate AtRespHdr(r: Regs, m: Msg)
    requires Sized(r)
  {
    AtRead(r, m) && m.returned == [] && m.shown == RespHeader(m.bytes)[..r.d.respIdx]
  }

  predicate AtResp(r: Regs, m: Msg)
    requires Sized(r)
  {
    && AtRead(r, m) && |m.returned| == r.d.sent + (if r.d.have then 1 else 0)
    && m.shown == RespHeader(m.bytes) + m.returned[..r.d.sent]
    && (r.d.have ==> r.d.latch == m.returned[r.d.sent])
  }

  predicate AtState(r: Regs, m: Msg)
    requires Sized(r)
  {
    match r.state
    case Idle => m.bytes == [] || Finished(m)
    case Header => AtHeader(r, m)
    case Payload => AtPayload(r, m)
    case Dispatch => AtDispatch(r, m)
    case DmaWrite => AtDmaWrite(r, m)
    case WaitNmc => AtNmc(r, m)
    case SendAck => AtSendAck(r, m)
    case AckWait => Acked(r, m, r.ackIdx + 1)
    case SendRespHdr => AtRespHdr(r, m)
    case DmaReadReq => AtResp(r, m)
    case DmaReadResp => AtResp(r, m)
  }

  predicate MsgInv(r: Regs, l: Log) {
    && Reachable(r) && (l.aborted ==> r.state == Idle) && (r.state == Dispatch ==> l.justRx)
    && (!l.aborted ==> AtState(r, l.m))
  }

  // ----- one step, state by state -----

  lemma ReachableParts(r: Regs)
    requires Reachable(r)
    ensures Sized(r) && (r.state == Header ==> 1 <= r.p.headerIdx && r.p.payloadIdx == 0)
    ensures r.state == DmaReadReq ==> r.d.requested == r.d.sent && !r.d.have
    ensures r.state == DmaReadResp ==> r.d.requested == r.d.sent + 1
    ensures r.state == SendRespHdr ==> r.d.requested == 0 && r.d.sent == 0 && !r.d.have
  {
  }

  /** The length assembled on the last header byte is the header's length field. */
  lemma LenIs(h: seq<byte>, b: seq<byte>, last: byte)
    requires |b| == 7 && |h| == 8 && h[..7] == b
    ensures LenOf(h, last) == Rd32(b + [last], 4)
  {
    assert h[4] == b[4] && h[5] == b[5] && h[6] == b[6];
  }

  lemma HeaderStep(r: Regs, m: Msg, i: In)
    requires Sized(r) && AtState(r, m) && !Expired(r) && r.state == Header && 1 <= r.p.headerIdx
    requires i.rxValid ==> GoodPrefix(Heard(r, m, i).bytes)
    ensures Sized(Step(r, i)) ==> AtState(Step(r, i), NextMsg(r, m, i))
  {
    hide Complete, Le32, RespByte, AckByte, LenOf, Rd32;
    if i.rxValid && r.p.headerIdx == 7 {
      LenIs(r.p.header, m.bytes, i.rxData);
      assert Put(r.p.header, 7, i.rxData) == (m.bytes + [i.rxData])[..8];
    }
  }

  lemma IdleStep(r: Regs, m: Msg, i: In)
    requires Sized(r) && !Expired(r) && r.state == Idle && (AtState(r, m) || i.rxValid)
    ensures Sized(Step(r, i)) ==> AtState(Step(r, i), NextMsg(r, m, i))
  {
    hide Complete, Le32, RespByte, AckByte, LenOf, Rd32;
  }

  /** One more byte of a message leaves its header fields as they are. */
  lemma SameFields(b: seq<byte>, x: byte, a: nat)
    requires a + 4 <= |b|
    ensures Rd32(b + [x], a) == Rd32(b, a)
  {
    RdFrame(b + [x], a, b, a);
  }

  lemma HeaderKept(r: Regs, m: Msg, r': Regs, m': Msg, x: byte)
    requires Sized(r) && Sized(r') && HasHeader(r, m)
    ensures r'.p.header == r.p.header && r'.p.payloadLen == r.p.payloadLen && m'.bytes == m.bytes + [x]
            ==> HasHeader(r', m')
  {
    hide Rd32;
    SameFields(m.bytes, x, 4);
    assert (m.bytes + [x])[..8] == m.bytes[..8];
  }

  lemma PayloadStep(r: Regs, m: Msg, i: In)
    requires Sized(r) && AtState(r, m) && !Expired(r) && r.state == Payload
    ensures Sized(Step(r, i)) ==> AtState(Step(r, i), NextMsg(r, m, i))
  {
    hide Complete, Le32, RespByte, AckByte, LenOf, Rd32, HasHeader;
    var k := r.p.payloadIdx;
    if Sized(Step(r, i)) {
      HeaderKept(r, m, Step(r, i), NextMsg(r, m, i), i.rxData);
    }
    PayloadHeader(r, m);
    assert Put(r.p.payload, k, i.rxData)[..k + 1] == r.p.payload[..k] + [i.rxData];
    assert (m.bytes + [i.rxData])[8..] == m.bytes[8..] + [i.rxData];
    HeaderSame(r, m, Step(r, i), NextMsg(r, m, i));
  }

  lemma PayloadHeader(r: Regs, m: Msg)
    requires Sized(r) && HasHeader(r, m)
    ensures |m.bytes| >= 8
  {
  }

  lemma HeaderSame(r: Regs, m: Msg, r': Regs, m': Msg)
    requires Sized(r) && HasHeader(r, m)
    ensures Sized(r') && r'.p.header == r.p.header && r'.p.payloadLen == r.p.payloadLen && m'.bytes == m.bytes
            ==> HasHeader(r', m')
  {
  }

  /** Payload bytes sit eight further on in the message. */
  lemma PayloadField(p: seq<byte>, n: nat, b: seq<byte>, a: nat)
    requires n <= |p| && |b| == 8 + n && p[..n] == b[8..] && a + 4 <= n
    ensures Rd32(p, a) == Rd32(b, 8 + a)
  {
    assert forall k :: 0 <= k < n ==> p[k] == p[..n][k] && b[8 + k] == b[8..][k];
    RdFrame(p, a, b, 8 + a);
  }

  lemma DispatchStep(r: Regs, m: Msg, i: In)
    requires Sized(r) && AtState(r, m) && r.state == Dispatch && !i.rxValid
    ensures Sized(Step(r, i)) ==> AtState(Step(r, i), NextMsg(r, m, i))
  {
    hide Le32, RespByte, AckByte, LenOf, Rd32;
    var n := Gathered(r);
    if m.bytes[0] == DATA_WRITE {
      PayloadField(r.p.payload, n, m.bytes, 0);
    } else if m.bytes[0] == DATA_READ {
      PayloadField(r.p.payload, n, m.bytes, 0);
      PayloadField(r.p.payload, n, m.bytes, 4);
    } else if m.bytes[0] == NMC_EXEC {
      NmcFields(r.p.payload, m.bytes);
    }
  }

  lemma NmcFields(p: seq<byte>, b: seq<byte>)
    requires |p| == 32 && |b| == 33 && p[..25] == b[8..]
    ensures p[0] == b[8] && Rd32(p, 1) == Rd32(b, 9) && Rd32(p, 5) == Rd32(b, 13) && Rd32(p, 9) == Rd32(b, 17)
    ensures Rd32(p, 13) == Rd32(b, 21) && Rd32(p, 17) == Rd32(b, 25) && Rd32(p, 21) == Rd32(b, 29)
  {
    hide Rd32;
    assert p[0] == p[..25][0] && b[8] == b[8..][0];
    PayloadField(p, 25, b, 1);
    PayloadField(p, 25, b, 5);
    PayloadField(p, 25, b, 9);
    PayloadField(p, 25, b, 13);
    PayloadField(p, 25, b, 17);
    PayloadField(p, 25, b, 21);
  }

  /** One more data byte written behind the others. */
  lemma WrittenNext(m: Msg, x: byte)
    requires |m.bytes| >= 12 && Written(m, |m.bytes| - 12)
    ensures var k := |m.bytes| - 12;
            Written(m.(bytes := m.bytes + [x], writes := m.writes + [((Rd32(m.bytes, 8) + k) % TWO32, x)]), k + 1)
  {
    hide Rd32;
    SameFields(m.bytes, x, 8);
  }

  lemma WriteStep(r: Regs, m: Msg, i: In)
    requires Sized(r) && AtState(r, m) && !Expired(r) && r.state == DmaWrite
    ensures Sized(Step(r, i)) ==> AtState(Step(r, i), NextMsg(r, m, i))
  {
    hide Le32, RespByte, AckByte, LenOf, Rd32, Written;
    SameFields(m.bytes, i.rxData, 4);
    SameFields(m.bytes, i.rxData, 8);
    NextAddr(Rd32(m.bytes, 8), |m.bytes| - 12);
    WrittenNext(m, i.rxData);
    if i.rxValid {
      assert (m.bytes + [i.rxData])[..8] == m.bytes[..8];
    }
  }

  lemma NextAddr(a: nat, k: nat)
    ensures ((a + k) % TWO32 + 1) % TWO32 == (a + (k + 1)) % TWO32
  {
    var q, x := (a + k) / TWO32, (a + k) % TWO32;
    assert a + k == q * TWO32 + x;
    if x + 1 < TWO32 {
      DivModUnique(a + k + 1, TWO32, q, x + 1);
    } else {
      assert a + k + 1 == (q + 1) * TWO32;
      DivModUnique(a + k + 1, TWO32, q + 1, 0);
    }
  }

  lemma NmcStep(r: Regs, m: Msg, i: In)
    requires Sized(r) && AtState(r, m) && !Expired(r) && r.state == WaitNmc
    ensures Sized(Step(r, i)) ==> AtState(Step(r, i), NextMsg(r, m, i))
  {
    hide Le32, RespByte, AckByte, LenOf, Rd32, Written, Requested;
  }

  lemma AckByteIs(h: seq<byte>, b: seq<byte>, k: nat)
    requires |b| >= 8 && |h| == 8 && h == b[..8] && k < 8
    ensures AckByte(h, k) == AckOf(b)[k] && AckOf(b)[..k] + [AckOf(b)[k]] == AckOf(b)[..k + 1]
  {
    assert h[2] == b[2] && h[3] == b[3];
  }

  lemma SendAckStep(r: Regs, m: Msg, i: In)
    requires Sized(r) && AtState(r, m) && !Expired(r) && r.state == SendAck
    ensures Sized(Step(r, i)) ==> AtState(Step(r, i), NextMsg(r, m, i))
  {
    hide Le32, RespByte, AckByte, LenOf, Rd32, Complete, AckOf;
    CompleteLength(m);
    AckByteIs(r.p.header, m.bytes, r.ackIdx);
    CompleteSame(m, NextMsg(r, m, i));
  }

  lemma AckWaitStep(r: Regs, m: Msg, i: In)
    requires Sized(r) && AtState(r, m) && !Expired(r) && r.state == AckWait
    ensures Sized(Step(r, i)) ==> AtState(Step(r, i), NextMsg(r, m, i))
  {
    hide Le32, RespByte, AckByte, LenOf, Rd32, Complete, AckOf;
    CompleteLength(m);
    CompleteSame(m, NextMsg(r, m, i));
  }

  lemma CompleteLength(m: Msg)
    requires Complete(m)
    ensures |m.bytes| >= 8
  {
  }

  /** Acknowledging leaves the effects as they are. */
  lemma CompleteSame(m: Msg, m': Msg)
    requires Complete(m)
    ensures m' == m.(acks := m'.acks) ==> Complete(m')
  {
  }

  lemma RespByteIs(h: seq<byte>, b: seq<byte>, k: nat)
    requires |b| == 16 && |h| == 8 && h == b[..8] && k < 8
    ensures RespByte(h, Rd32(b, 12), k) == RespHeader(b)[k]
  {
    hide Rd32, Le32;
    assert h[2] == b[2] && h[3] == b[3];
  }

  lemma RespHdrStep(r: Regs, m: Msg, i: In)
    requires Sized(r) && AtState(r, m) && !Expired(r) && r.state == SendRespHdr && r.d.requested == 0 && r.d.sent == 0
             && !r.d.have
    ensures Sized(Step(r, i)) ==> AtState(Step(r, i), NextMsg(r, m, i))
  {
    hide Le32, AckByte, LenOf, Rd32, GoodPrefix, RespByte, RespHeader, Requested;
    var h, k := RespHeader(m.bytes), r.d.respIdx;
    RespByteIs(r.p.header, m.bytes, k);
    assert h[..k] + [h[k]] == h[..k + 1];
    assert h[..8] == h;
    assert m.returned[..0] == [];
    RequestedSame(m, 0, NextMsg(r, m, i));
  }

  lemma RequestedNext(m: Msg, k: nat)
    requires Requested(m, k)
    ensures Requested(m.(asked := m.asked + [(Rd32(m.bytes, 8) + k) % TWO32]), k + 1)
  {
    hide Rd32;
  }

  /** A read with all its bytes asked for, returned and shown is finished. */
  lemma ReadFinished(r: Regs, m: Msg)
    requires Sized(r) && AtRead(r, m)
    ensures && r.d.requested == r.d.total && |m.returned| == r.d.total && m.shown == RespHeader(m.bytes) + m.returned
            ==> Finished(m)
  {
    hide Rd32, RespHeader, Requested;
  }

  lemma ReadReqStep(r: Regs, m: Msg, i: In)
    requires Sized(r) && AtState(r, m) && !Expired(r) && r.state == DmaReadReq && r.d.requested == r.d.sent && !r.d.have
    requires Sized(Step(r, i)) && !i.rdValid
    ensures AtState(Step(r, i), NextMsg(r, m, i))
  {
    hide Le32, RespByte, AckByte, LenOf, Rd32, RespHeader, Requested, Finished, HasHeader;
    assert m.returned[..r.d.sent] == m.returned;
    RequestedNext(m, r.d.requested);
    ReadFinished(r, m);
    HeaderSame(r, m, Step(r, i), NextMsg(r, m, i));
  }

  lemma RequestedSame(m: Msg, k: nat, m': Msg)
    requires Requested(m, k)
    ensures m'.bytes == m.bytes && m'.asked == m.asked ==> Requested(m', k)
  {
  }

  lemma ReadRespStep(r: Regs, m: Msg, i: In)
    requires Sized(r) && AtState(r, m) && !Expired(r) && r.state == DmaReadResp && r.d.requested == r.d.sent + 1
    requires i.rdValid ==> !r.d.have
    ensures Sized(Step(r, i)) ==> AtState(Step(r, i), NextMsg(r, m, i))
  {
    hide Le32, RespByte, AckByte, LenOf, Rd32, RespHeader, Written, Requested;
    RequestedSame(m, r.d.requested, NextMsg(r, m, i));
    var n, m' := r.d.sent, NextMsg(r, m, i);
    assert m'.returned[..n] == m.returned[..n];
    if Shows(r, i) {
      assert m'.returned == m.returned[..n] + [Step(r, i).txData];
      assert m'.returned[..n + 1] == m'.returned;
    }
  }

  /** One cycle of a well-behaved link keeps it. */
  lemma MsgStep(r: Regs, l: Log, i: In)
    requires MsgInv(r, l) && EnvOk(r, l, i)
    ensures Sized(r) && MsgInv(Step(r, i), NextLog(r, l, i))
  {
    hide Reachable, Step, AtState, NextMsg, Heard;
    ReachableParts(r);
    StepReachable(r, i);
    ReachableParts(Step(r, i));
    DispatchJustHeard(r, i);
    if !NextLog(r, l, i).aborted {
      StateStep(r, l, i);
    }
  }

  lemma DispatchJustHeard(r: Regs, i: In)
    requires Sized(r)
    ensures Step(r, i).state == Dispatch && r.state != Dispatch ==> i.rxValid
    ensures r.state == Dispatch ==> Step(r, i).state != Dispatch
    ensures Expired(r) ==> Step(r, i).state == Idle
    ensures r.state == Idle && !i.rxValid ==> Step(r, i).state == Idle
  {
    hide Rd32, LenOf, LastPayloadByte, RespByte, AckByte;
  }

  lemma StateStep(r: Regs, l: Log, i: In)
    requires MsgInv(r, l) && EnvOk(r, l, i) && !Expired(r) && Sized(r) && Sized(Step(r, i))
    requires !NextLog(r, l, i).aborted
    ensures AtState(Step(r, i), NextMsg(r, l.m, i))
  {
    hide Reachable, Step, AtState, NextMsg, Heard;
    ReachableParts(r);
    match r.state
    case Idle => IdleStep(r, l.m, i);
    case Header => HeaderStep(r, l.m, i);
    case Payload => PayloadStep(r, l.m, i);
    case Dispatch => DispatchStep(r, l.m, i);
    case DmaWrite => WriteStep(r, l.m, i);
    case WaitNmc => NmcStep(r, l.m, i);
    case SendAck => SendAckStep(r, l.m, i);
    case AckWait => AckWaitStep(r, l.m, i);
    case SendRespHdr => RespHdrStep(r, l.m, i);
    case DmaReadReq => ReadReqStep(r, l.m, i);
    case DmaReadResp => ReadRespStep(r, l.m, i);
  }

  // ----- whole runs -----

  /** A run from reset on a well-behaved link. */
  predicate Lawful(ins: seq<In>)
    decreases |ins|, 0
  {
    ins == [] || (Lawful(ins[..|ins| - 1]) && EnvOk(After(ins[..|ins| - 1]).0, After(ins[..|ins| - 1]).1,
      ins[|ins| - 1]))
  }

  function After(ins: seq<In>): (p: (Regs, Log))
    requires Lawful(ins)
    ensures MsgInv(p.0, p.1)
    decreases |ins|, 1
  {
    if ins == [] then (Reset(), Log(Fresh([]), false, false))
    else
      var p, i := After(ins[..|ins| - 1]), ins[|ins| - 1];
      MsgStep(p.0, p.1, i);
      (Step(p.0, i), NextLog(p.0, p.1, i))
  }

  /** Back in idle with no watchdog exit, the last message was received whole and had exactly its effects: a write
      wrote its payload_len - 4 data bytes at consecutive addresses, a read requested read_len consecutive addresses and
      presented the response header and then each returned byte once, an engine request started the engine once with the
      message's fields, a barrier pulsed once, and all but reads were acknowledged with exactly eight bytes; nothing
      else touched any port. */
  lemma MessageEffects(ins: seq<In>)
    requires Lawful(ins)
    ensures var r, l := After(ins).0, After(ins).1;
            var m, b := l.m, l.m.bytes;
            r.state == Idle && !l.aborted && b != [] ==>
              && |b| >= 8 && |b| == 8 + Rd32(b, 4)
              && (b[0] == DATA_WRITE ==> |m.writes| == Rd32(b, 4) - 4)
              && (b[0] == DATA_WRITE ==>
                    forall j :: 0 <= j < Rd32(b, 4) - 4 ==> m.writes[j] == ((Rd32(b, 8) + j) % TWO32, b[12 + j]))
              && (b[0] == DATA_READ ==> |b| == 16 && |m.asked| == |m.returned| == Rd32(b, 12))
              && (b[0] == DATA_READ ==> m.shown == RespHeader(b) + m.returned && m.acks == [])
              && (b[0] == DATA_READ ==> forall j :: 0 <= j < Rd32(b, 12) ==> m.asked[j] == (Rd32(b, 8) + j) % TWO32)
              && (b[0] == NMC_EXEC ==> |b| == 33 && m.starts == [Request(b)])
              && m.barriers == (if b[0] == SYNC_BARRIER then 1 else 0)
              && (b[0] != DATA_READ ==> m.acks == [ACK, 0, b[2], b[3], 0, 0, 0, 0])
              && (b[0] != DATA_WRITE ==> m.writes == []) && (b[0] != NMC_EXEC ==> m.starts == [])
              && (b[0] != DATA_READ ==> m.asked == [] && m.returned == [] && m.shown == [])
  {
    hide After, Reachable, Rd32, Le32;
    var r, l := After(ins).0, After(ins).1;
    assert MsgInv(r, l);
    ReachableSized(r);
  }
}
