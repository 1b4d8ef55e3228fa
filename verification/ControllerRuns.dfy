/** What stretches of cycles do to the EdgeCoh controller: a stalled message is given up, the collector dispatches
    after exactly its count of bytes, and a finished read leaves its address and last byte behind. */
module ControllerRuns {
  import opened Bytes
  import opened Controller

  /** The state after a stretch of cycles. */
  function Ran(r: Regs, ins: seq<In>): (r': Regs)
    requires Reachable(r)
    ensures Reachable(r')
    decreases |ins|
  {
    if ins == [] then r
    else
      StepReachable(r, ins[0]);
      Ran(Step(r, ins[0]), ins[1..])
  }

  lemma {:induction false} RanConcat(r: Regs, a: seq<In>, b: seq<In>)
    requires Reachable(r)
    ensures Ran(r, a + b) == Ran(Ran(r, a), b)
    decreases |a|
  {
    hide Reachable, Step;
    if a == [] {
      assert a + b == b;
    } else {
      ReachableSized(r);
      StepReachable(r, a[0]);
      RanConcat(Step(r, a[0]), a[1..], b);
      assert (a + b)[1..] == a[1..] + b;
    }
  }

  /** A stretch from reset is a run. */
  lemma {:induction false} RanIsRun(ins: seq<In>)
    ensures Reachable(Reset()) && Ran(Reset(), ins) == Run(ins)
    decreases |ins|
  {
    hide Step;
    if ins != [] {
      var front, i := ins[..|ins| - 1], ins[|ins| - 1];
      RanIsRun(front);
      RanConcat(Reset(), front, [i]);
      assert ins == front + [i];
      assert [i][1..] == [];
    }
  }

  // ----- the watchdog -----

  predicate NoProgress(r: Regs, ins: seq<In>)
    requires Reachable(r)
    decreases |ins|
  {
    ins == [] || (!Progress(r, ins[0]) && (StepReachable(r, ins[0]); NoProgress(Step(r, ins[0]), ins[1..])))
  }

  /** Without progress a waiting state counts on, in a state of the same limit, or is idle and blank. */
  lemma StallStep(r: Regs, i: In)
    requires Reachable(r) && Waiting(r.state) && !Progress(r, i)
    ensures var n := Step(r, i);
            if n.state == Idle then Blank(n) && n.rxReady
            else Waiting(n.state) && !Expired(r) && Limit(n.state) == Limit(r.state) && n.stall == r.stall + 1
  {
    hide LenOf, Rd32, Le32, AckByte, RespByte, Put;
  }

  /** A waiting message that nothing advances is given up: from any reachable waiting state, as many cycles without
      progress as are left to the limit, and one more, pass through an idle state with nothing of the message left. */
  lemma {:induction false} WatchdogFrees(r: Regs, ins: seq<In>) returns (k: nat)
    requires Reachable(r) && Waiting(r.state) && NoProgress(r, ins) && ins != [] && |ins| + r.stall > Limit(r.state)
    ensures 0 < k <= |ins| && k <= (if r.stall < Limit(r.state) then Limit(r.state) - r.stall else 0) + 1
    ensures var n := Ran(r, ins[..k]); n.state == Idle && Blank(n) && n.rxReady
    decreases |ins|
  {
    hide Reachable, Step, Blank, Progress, Waiting, Limit;
    ReachableSized(r);
    StallStep(r, ins[0]);
    StepReachable(r, ins[0]);
    var n := Step(r, ins[0]);
    if n.state == Idle {
      k := 1;
      assert ins[..1][1..] == [];
    } else {
      ExpiredIff(r);
      var j := WatchdogFrees(n, ins[1..]);
      k := j + 1;
      assert ins[..k][1..] == ins[1..][..j];
    }
  }

  lemma ExpiredIff(r: Regs)
    requires Waiting(r.state)
    ensures Expired(r) <==> r.stall >= Limit(r.state)
    ensures Limit(r.state) == if r.state == WaitNmc then 800_000_000 else 10_000_000
  {
  }

  /** A message given up ends in a blank idle state and does nothing more: no byte is presented to the transmitter or to
      memory, none asked of memory, no engine started, no barrier signalled. */
  lemma GivenUp(r: Regs, i: In)
    requires Reachable(r) && Sized(r) && Expired(r)
    ensures var n := Step(r, i);
            && n.state == Idle && Blank(n) && n.rxReady && n.stall == 0
            && !n.txValid && !n.w.en && !n.d.en && !n.nmc.start && !n.barrierAck
  {
    hide LenOf, Rd32, Le32, AckByte, RespByte, Put;
  }

  /** Something moves: a byte received, one taken by the transmitter, the engine done, a byte back from memory or one
      waiting to be sent. */
  predicate Event(r: Regs, i: In) {
    i.rxValid || (r.txValid && i.txReady) || i.nmcDone || i.rdValid || r.d.have
  }

  lemma StallCounts(r: Regs, i: In)
    requires Sized(r)
    ensures Step(r, i).stall <= r.stall + 1 && (Event(r, i) && !Expired(r) ==> Step(r, i).stall == 0)
  {
    hide LenOf, Rd32, Le32, AckByte, RespByte, Put, LastPayloadByte;
  }

  /** No message is given up in the ten million cycles after any of these events, nor one that waits for an engine in
      eight hundred million. */
  lemma {:induction false} WatchdogPatient(r: Regs, i: In, ins: seq<In>)
    requires Reachable(r) && Sized(r) && Event(r, i) && !Expired(r) && |ins| < 800_000_000
    ensures Reachable(Step(r, i)) && Ran(Step(r, i), ins).stall <= |ins|
    ensures |ins| < 10_000_000 || Ran(Step(r, i), ins).state == WaitNmc ==> !Expired(Ran(Step(r, i), ins))
    decreases |ins|
  {
    hide Reachable, Step, Sized, Event;
    StepReachable(r, i);
    StallCounts(r, i);
    if ins != [] {
      var front, last := ins[..|ins| - 1], ins[|ins| - 1];
      WatchdogPatient(r, i, front);
      var n := Ran(Step(r, i), front);
      ReachableSized(n);
      RanConcat(Step(r, i), front, [last]);
      assert front + [last] == ins && [last][1..] == [];
      StepReachable(n, last);
      StallCounts(n, last);
      assert Ran(n, [last]) == Step(n, last);
    }
  }

  // ----- the collector's count -----

  /** Payload bytes the collector takes, from payload index k on, before it dispatches. */
  function Taken(p: Parser, k: nat): (n: nat)
    requires |p.header| == 8 && k < 32
    ensures k < n <= 32
    decreases 32 - k
  {
    if LastPayloadByte(p.(payloadIdx := k)) then k + 1 else if k + 1 < 32 then Taken(p, k + 1) else 32
  }

  lemma {:induction false} TakenIs(p: Parser, k: nat)
    requires |p.header| == 8 && k < 32
    ensures p.header[0] != DATA_WRITE ==> Taken(p, k) == if k + 1 >= p.payloadLen % 32 then k + 1 else p.payloadLen % 32
    ensures p.header[0] == DATA_WRITE ==> Taken(p, k) == if k + 1 >= 4 then k + 1 else 4
    decreases 32 - k
  {
    if !LastPayloadByte(p.(payloadIdx := k)) && k + 1 < 32 {
      TakenIs(p, k + 1);
    }
  }

  /** Only the low five length bits are compared, so the collector takes the whole payload of a message other than a
      write exactly when that has at most 31 bytes; of 32 bytes it takes one, and 33 to 63 it takes modulo 32, where the
      design asks for min(payload_len, 32). */
  lemma CollectorExactIff(p: Parser)
    requires |p.header| == 8 && p.header[0] != DATA_WRITE && p.payloadLen > 0
    ensures Taken(p, 0) == p.payloadLen <==> p.payloadLen <= 31
    ensures Taken(p, 0) == (if p.payloadLen < 32 then p.payloadLen else 32) <==> p.payloadLen <= 31
    ensures p.payloadLen == 32 ==> Taken(p, 0) == 1
  {
    hide Taken, LastPayloadByte;
    TakenIs(p, 0);
  }

  /** Bytes received in a stretch. */
  function Received(ins: seq<In>): nat
    decreases |ins|
  {
    if ins == [] then 0 else (if ins[0].rxValid then 1 else 0) + Received(ins[1..])
  }

  /** No watchdog exit in the stretch. */
  predicate Alive(r: Regs, ins: seq<In>)
    requires Reachable(r)
    decreases |ins|
  {
    ins == [] || (!Expired(r) && (StepReachable(r, ins[0]); Alive(Step(r, ins[0]), ins[1..])))
  }

  /** The collector of a parser with another index and buffer counts the same. */
  lemma {:induction false} TakenSame(p: Parser, q: Parser, k: nat)
    requires |p.header| == 8 && q.header == p.header && q.payloadLen == p.payloadLen && k < 32
    ensures Taken(p, k) == Taken(q, k)
    decreases 32 - k
  {
    if !LastPayloadByte(p.(payloadIdx := k)) && k + 1 < 32 {
      TakenSame(p, q, k + 1);
    }
  }

  /** One byte of payload, or none. */
  lemma CollectStep(r: Regs, i: In)
    requires Reachable(r) && r.state == Payload && !Expired(r)
    ensures Sized(r) && Sized(Step(r, i))
    ensures var n := Step(r, i);
            && n.p.header == r.p.header && n.p.payloadLen == r.p.payloadLen
            && n.state == (if i.rxValid && LastPayloadByte(r.p) then Dispatch else Payload)
            && (n.state == Payload ==> n.p.payloadIdx == r.p.payloadIdx + if i.rxValid then 1 else 0)
  {
  }

  /** From payload index k on, the collector stays in the payload for Taken - k - 1 further bytes, however far apart,
      and dispatches in the very cycle of the next. */
  lemma {:induction false} DispatchesAfterTaken(r: Regs, ins: seq<In>)
    requires Reachable(r) && Sized(r) && r.state == Payload && Alive(r, ins)
    requires ins != [] ==> Received(ins[..|ins| - 1]) < Taken(r.p, r.p.payloadIdx) - r.p.payloadIdx
    ensures var left := Taken(r.p, r.p.payloadIdx) - r.p.payloadIdx;
            && Received(ins) <= left
            && Ran(r, ins).state == if Received(ins) == left then Dispatch else Payload
    decreases |ins|
  {
    hide Reachable, Step, Sized, Expired, LastPayloadByte;
    SizedParser(r);
    if ins != [] {
      CollectStep(r, ins[0]);
      StepReachable(r, ins[0]);
      var n, rest := Step(r, ins[0]), ins[1..];
      LastByteIff(r.p);
      if rest != [] {
        assert ins[..|ins| - 1][1..] == rest[..|rest| - 1];
        SizedParser(n);
        TakenSame(r.p, n.p, n.p.payloadIdx);
        DispatchesAfterTaken(n, rest);
      }
    }
  }

  lemma LastByteIff(p: Parser)
    requires |p.header| == 8 && p.payloadIdx < 32
    ensures LastPayloadByte(p) ==> Taken(p, p.payloadIdx) == p.payloadIdx + 1
    ensures !LastPayloadByte(p) ==>
              p.payloadIdx < 31
              && Taken(p, p.payloadIdx) == Taken(p, p.payloadIdx + 1) > p.payloadIdx + 1
  {
    assert p.(payloadIdx := p.payloadIdx) == p;
  }

  lemma SizedParser(r: Regs)
    requires Sized(r)
    ensures |r.p.header| == 8 && r.p.payloadIdx < 32
  {
  }

  // ----- a message heard from reset -----

  function Hear(b: byte): In {
    In(b, true, true, false, 0, false)
  }

  /** Bytes on the line, one a cycle. */
  function Hears(b: seq<byte>): (ins: seq<In>)
    ensures |ins| == |b|
  {
    seq(|b|, k requires 0 <= k < |b| => Hear(b[k]))
  }

  lemma HearFirst(b: seq<byte>, k: nat)
    requires k < |b|
    ensures Hears(b[k..])[0] == Hear(b[k]) && Hears(b[k..])[1..] == Hears(b[k + 1..])
  {
  }

  /** A message header with a payload to follow. */
  predicate HeaderOk(h: seq<byte>) {
    |h| == 8 && Rd32(h, 4) > 0
  }

  /** What the collector of a message starts from. */
  function ParserOf(h: seq<byte>): (p: Parser)
    requires HeaderOk(h)
    ensures |p.header| == 8
  {
    Parser(h, 7, Zeros(32), 0, Rd32(h, 4))
  }

  /** Header bytes k.. of a message. */
  lemma {:induction false} HearHeader(r: Regs, h: seq<byte>, k: nat)
    requires Reachable(r) && Sized(r) && HeaderOk(h) && k < 8 && !Expired(r)
    requires r.state == (if k == 0 then Idle else Header) && (k > 0 ==> r.p.headerIdx == k) && r.p.header[..k] == h[..k]
    ensures var n := Ran(r, Hears(h[k..]));
            && n.state == Payload && n.p.payloadIdx == 0 && n.p.payloadLen == Rd32(h, 4) && n.stall == 0
            && Sized(n) && n.p.header == h
    decreases 8 - k
  {
    hide Reachable, Rd32, LenOf, Hears;
    var i := Hear(h[k]);
    HearFirst(h, k);
    StepReachable(r, i);
    ReachableSized(Step(r, i));
    assert Put(r.p.header, k, h[k])[..k + 1] == h[..k + 1];
    if k == 7 {
      LengthField(r.p.header, h);
      assert h[..8] == h;
    } else {
      HearHeader(Step(r, i), h, k + 1);
    }
  }

  lemma LengthField(h: seq<byte>, b: seq<byte>)
    requires |h| == 8 && |b| == 8 && h[..7] == b[..7]
    ensures LenOf(h, b[7]) == Rd32(b, 4)
  {
    assert h[4] == h[..7][4] && h[5] == h[..7][5] && h[6] == h[..7][6];
  }

  /** Payload bytes k.. of a message, no more than the collector takes. */
  lemma {:induction false} HearPayload(r: Regs, h: seq<byte>, b: seq<byte>, k: nat)
    requires Reachable(r) && Sized(r) && HeaderOk(h) && k <= |b| <= Taken(ParserOf(h), 0) && r.stall == 0
    requires r.p.header == h && r.p.payloadLen == Rd32(h, 4) && r.p.payload[..k] == b[..k]
    requires k < Taken(ParserOf(h), 0) ==> r.state == Payload && r.p.payloadIdx == k
    requires k == Taken(ParserOf(h), 0) ==> r.state == Dispatch
    ensures var n := Ran(r, Hears(b[k..]));
            && n.state == (if |b| == Taken(ParserOf(h), 0) then Dispatch else Payload)
            && Sized(n) && n.p.header == h && n.p.payload[..|b|] == b
    decreases |b| - k
  {
    hide Reachable, Rd32, LenOf, Hears, Taken;
    if k < |b| {
      var i := Hear(b[k]);
      HearFirst(b, k);
      StepReachable(r, i);
      ReachableSized(Step(r, i));
      assert Put(r.p.payload, k, b[k])[..k + 1] == r.p.payload[..k] + [b[k]];
      TakenLast(r.p, h, k);
      HearPayload(Step(r, i), h, b, k + 1);
    } else {
      assert b[..k] == b;
    }
  }

  lemma TakenLast(p: Parser, h: seq<byte>, k: nat)
    requires HeaderOk(h) && p.header == h && p.payloadLen == Rd32(h, 4) && p.payloadIdx == k < Taken(ParserOf(h), 0)
    ensures k < 32 && (LastPayloadByte(p) <==> k + 1 == Taken(ParserOf(h), 0))
  {
    hide Rd32;
    TakenIs(ParserOf(h), 0);
  }

  /** Every message from reset: the header and then its payload, at most as many bytes as the collector takes, are all
      kept, and it dispatches after exactly that many. */
  lemma MessageCollected(h: seq<byte>, b: seq<byte>)
    requires HeaderOk(h) && |b| <= Taken(ParserOf(h), 0)
    ensures var n := Run(Hears(h) + Hears(b));
            && n.state == (if |b| == Taken(ParserOf(h), 0) then Dispatch else Payload)
            && Sized(n) && n.p.header == h && n.p.payload[..|b|] == b
  {
    hide Reachable, Rd32, Ran, Step, Run, Hears, Taken;
    RanIsRun([]);
    ReachableSized(Reset());
    assert h[0..] == h && b[0..] == b && Reset().p.header[..0] == h[..0];
    HearHeader(Reset(), h, 0);
    var r := Ran(Reset(), Hears(h));
    HearPayload(r, h, b, 0);
    RanConcat(Reset(), Hears(h), Hears(b));
    RanIsRun(Hears(h) + Hears(b));
  }

  /** Every message other than a write that announces 32 bytes of payload is dispatched after the first. */
  lemma CutAfterOne(h: seq<byte>, x: byte)
    requires HeaderOk(h) && h[0] != DATA_WRITE && Rd32(h, 4) == 32
    ensures Run(Hears(h)).state == Payload
    ensures Run(Hears(h) + [Hear(x)]).state == Dispatch
  {
    hide Rd32, Run, Taken;
    CollectorExactIff(ParserOf(h));
    MessageCollected(h, []);
    MessageCollected(h, [x]);
    assert Hears(h) + Hears([]) == Hears(h) && Hears([x]) == [Hear(x)];
  }

  // ----- what a read leaves behind -----

  /** The read address changes only when a DATA_READ is dispatched, the byte latch only on a return: in idle they are
      the last read's, whatever came after it. */
  lemma LeftBehind(r: Regs, i: In)
    requires Sized(r)
    ensures Step(r, i).d.base == if r.state == Dispatch && r.p.header[0] == DATA_READ then Rd32(r.p.payload, 0)
            else r.d.base
    ensures Step(r, i).d.latch == if r.state == DmaReadResp && !Expired(r) && i.rdValid then i.rdData else r.d.latch
  {
    hide Rd32, Le32, AckByte, RespByte, LenOf;
  }

  /** A ready transmitter and nothing else. */
  function Wait(): In {
    In(0, false, true, false, 0, false)
  }

  predicate ReadMessage(b: seq<byte>) {
    |b| == 16 && b[0] == DATA_READ && Rd32(b, 4) == 8 && Rd32(b, 12) == 1
  }

  /** Response header bytes k.. on a transmitter that is always ready. */
  lemma {:induction false} ShowHeader(r: Regs, k: nat) returns (ins: seq<In>)
    requires Reachable(r) && Sized(r) && k < 8 && r.state == SendRespHdr && r.d.respIdx == k && !r.txValid
             && r.stall == 0
    ensures var n := Ran(r, ins);
            && Sized(n) && n.state == DmaReadReq && n.stall <= 1
            && n.d == r.d.(respIdx := 0, en := false)
    decreases 8 - k
  {
    hide Reachable, RespByte;
    StepReachable(r, Wait());
    var n := Step(r, Wait());
    ReachableSized(n);
    if k == 7 {
      ins := [Wait()];
      assert ins[1..] == [];
    } else {
      StepReachable(n, Wait());
      ReachableSized(Step(n, Wait()));
      var rest := ShowHeader(Step(n, Wait()), k + 1);
      ins := [Wait(), Wait()] + rest;
      assert ins[1..] == [Wait()] + rest && ([Wait()] + rest)[1..] == rest;
    }
  }

  lemma StepOn(r: Regs, i: In) returns (n: Regs)
    requires Reachable(r)
    ensures Sized(r) && n == Step(r, i) && n == Ran(r, [i]) && Reachable(n) && Sized(n)
  {
    hide Reachable, Step;
    ReachableSized(r);
    StepReachable(r, i);
    n := Step(r, i);
    ReachableSized(n);
    assert [i][1..] == [];
  }

  lemma PayloadWord(p: seq<byte>, b: seq<byte>, a: nat)
    requires |p| == 32 && |b| == 16 && p[..8] == b[8..] && a + 4 <= 8
    ensures Rd32(p, a) == Rd32(b, 8 + a)
  {
    assert forall k :: 0 <= k < 8 ==> p[k] == p[..8][k] && b[8 + k] == b[8..][k];
    RdFrame(p, a, b, 8 + a);
  }

  /** A read of one byte from its dispatch on. */
  lemma FinishRead(r: Regs, b: seq<byte>, x: byte) returns (ins: seq<In>)
    requires Reachable(r) && Sized(r) && ReadMessage(b)
    requires r.state == Dispatch && r.p.header[0] == DATA_READ && r.p.payload[..8] == b[8..]
    ensures var n := Ran(r, ins); n.state == Idle && n.d.base == Rd32(b, 8) && n.d.latch == x
  {
    hide Reachable, Rd32, LenOf, RespByte, Ran;
    PayloadWord(r.p.payload, b, 0);
    PayloadWord(r.p.payload, b, 4);
    var back := Wait().(rdValid := true, rdData := x);
    var a := StepOn(r, Wait());
    var hdr := ShowHeader(a, 0);
    var c := Ran(a, hdr);
    var d := StepOn(c, Wait());
    var e := StepOn(d, back);
    RanConcat(d, [back], []);
    RanConcat(c, [Wait()], [back]);
    RanConcat(a, hdr, [Wait()] + [back]);
    RanConcat(r, [Wait()], hdr + ([Wait()] + [back]));
    ins := [Wait()] + (hdr + ([Wait()] + [back]));
  }

  /** After a read of any address that returned any byte, the idle controller still holds both: the read's base and
      latch are not cleared. */
  lemma IdleKeepsRead(b: seq<byte>, x: byte) returns (ins: seq<In>)
    requires ReadMessage(b)
    ensures Run(ins).state == Idle && Run(ins).d.base == Rd32(b, 8) && Run(ins).d.latch == x
  {
    hide Reachable, Rd32, Ran, Step, Run, Hears, Taken;
    var h := b[..8];
    RdFrame(h, 4, b, 4);
    TakenIs(ParserOf(h), 0);
    assert |b[8..]| == 8;
    MessageCollected(h, b[8..]);
    var heard := Hears(h) + Hears(b[8..]);
    RanIsRun(heard);
    var f := FinishRead(Run(heard), b, x);
    RanConcat(Reset(), heard, f);
    ins := heard + f;
    RanIsRun(ins);
  }
}
