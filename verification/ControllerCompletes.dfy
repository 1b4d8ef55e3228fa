/** Every well-formed message is completed: on a link, a transmitter, an engine and a DMA port that answer in time the
    controller is back in idle within a stated number of cycles, without a watchdog exit, and the message has had
    exactly its effects. */
module ControllerCompletes {
  import opened Bytes
  import opened Controller
  import opened ControllerMessages

  /** A whole message whose length suits its type. */
  predicate Whole(b: seq<byte>) {
    |b| >= 8 && |b| == 8 + Rd32(b, 4) && GoodPrefix(b)
  }

  // ----- what the controller offers its surroundings -----

  /** Where a byte may be presented to the transmitter. */
  predicate TxOk(r: Regs) {
    && (r.txValid ==> r.state == SendAck || r.state == SendRespHdr || r.state == DmaReadReq || r.state == Idle)
    && (r.txValid && r.state == SendRespHdr ==> r.d.respIdx > 0)
    && (r.rxReady <==> Listening(r.state) || r.state == Dispatch)
  }

  /** Whatever arrives, the receiver is told to go on exactly while bytes of a message may come, and no byte is
      presented to the transmitter but in the states that send. */
  lemma TxNext(r: Regs, i: In)
    requires Reachable(r) && Sized(r) && TxOk(r)
    ensures TxOk(Step(r, i))
  {
    hide LenOf, Rd32, Le32, AckByte, RespByte, Put, LastPayloadByte;
  }

  lemma {:induction false} TxAlways(ins: seq<In>)
    requires Lawful(ins)
    ensures TxOk(After(ins).0)
    decreases |ins|
  {
    hide Step, Reachable, AtState, EnvOk, TxOk, NextLog;
    if ins == [] {
      ResetTx();
    } else {
      TxAlways(ins[..|ins| - 1]);
      var p := After(ins[..|ins| - 1]);
      ReachableSized(p.0);
      TxNext(p.0, ins[|ins| - 1]);
    }
  }

  lemma ResetTx()
    ensures TxOk(Reset())
  {
  }

  // ----- handshakes -----

  /** The handshake the state waits for happens in this cycle; some states wait for none. */
  predicate Moves(r: Regs, i: In) {
    match r.state
    case Idle => i.rxValid
    case Header => i.rxValid
    case Payload => i.rxValid
    case DmaWrite => i.rxValid
    case Dispatch => true
    case WaitNmc => i.nmcDone
    case SendAck => !r.txValid || !i.txReady
    case AckWait => i.txReady
    case SendRespHdr => r.txValid || i.txReady
    case DmaReadReq => true
    case DmaReadResp => if r.d.have then i.txReady else i.rdValid
  }

  /** Handshakes behind the dispatch of message b. */
  function Tail(b: seq<byte>): nat
    requires Whole(b)
  {
    if b[0] == DATA_READ then 17 + 3 * Rd32(b, 12) else if b[0] == NMC_EXEC then 25 else 24
  }

  /** Handshakes left until message b is done: its bytes, the dispatch, the engine, three for each acknowledge byte, two
      for each byte of a response header and three for each byte read. */
  function Left(r: Regs, m: Msg, b: seq<byte>): int
    requires Whole(b)
  {
    match r.state
    case Idle => 0
    case Header => |b| - |m.bytes| + 1 + Tail(b)
    case Payload => |b| - |m.bytes| + 1 + Tail(b)
    case Dispatch => |b| - |m.bytes| + 1 + Tail(b)
    case DmaWrite => |b| - |m.bytes| + 24
    case WaitNmc => 25
    case SendAck => 24 - 3 * r.ackIdx - (if r.txValid then 1 else 0)
    case AckWait => 22 - 3 * r.ackIdx
    case SendRespHdr => 2 * (8 - r.d.respIdx) + (if r.txValid then 1 else 0) + 3 * r.d.total + 1
    case DmaReadReq => 3 * (r.d.total - r.d.sent) + 1
    case DmaReadResp => 3 * (r.d.total - r.d.sent) - (if r.d.have then 1 else 0)
  }

  /** Message b is under way: what has been heard is its beginning, and no watchdog has fired. */
  predicate Under(r: Regs, l: Log, b: seq<byte>) {
    MsgInv(r, l) && !l.aborted && r.state != Idle && TxOk(r) && Whole(b) && l.m.bytes <= b
  }

  /** The link delivers b. */
  predicate Delivers(l: Log, b: seq<byte>, i: In) {
    i.rxValid ==> |l.m.bytes| < |b| && i.rxData == b[|l.m.bytes|]
  }

  lemma PrefixFields(m: seq<byte>, b: seq<byte>)
    requires m <= b
    ensures |m| >= 8 && |b| >= 8 ==> Rd32(m, 4) == Rd32(b, 4) && m[0] == b[0]
    ensures |m| >= 16 && |b| >= 16 ==> Rd32(m, 12) == Rd32(b, 12)
  {
    if |m| >= 8 {
      RdFrame(m, 4, b, 4);
    }
    if |m| >= 16 {
      RdFrame(m, 12, b, 12);
    }
  }

  /** One handshake less for each that happens, in every state. */
  lemma LeftNext(r: Regs, l: Log, b: seq<byte>, i: In)
    requires Under(r, l, b) && EnvOk(r, l, i) && Delivers(l, b, i) && !Expired(r)
    ensures Sized(r)
    ensures var n, k := Step(r, i), NextLog(r, l, i);
            && MsgInv(n, k) && !k.aborted && k.m.bytes <= b
            && (n.state == Idle ==> k.m.bytes == b && Finished(k.m))
            && (n.state != Idle ==> Under(n, k, b))
            && 0 < Left(r, l.m, b) && 0 <= Left(n, k.m, b) <= Left(r, l.m, b) - (if Moves(r, i) then 1 else 0)
  {
    hide MsgInv, Step, NextLog, TxOk, Left, EnvOk, Finished, Moves, Whole;
    UnderParts(r, l, b);
    MsgStep(r, l, i);
    TxNext(r, i);
    BytesNext(r, l, b, i);
    NotAborted(r, l, i);
    LeftStep(r, l, b, i);
    if Step(r, i).state == Idle {
      DoneWhole(Step(r, i), NextLog(r, l, i), b);
    }
  }

  /** The handshakes left before and after one cycle. */
  predicate Fewer(r: Regs, l: Log, b: seq<byte>, i: In)
    requires Sized(r) && Whole(b)
  {
    var n, k := Step(r, i), NextLog(r, l, i);
    0 < Left(r, l.m, b) && 0 <= Left(n, k.m, b) <= Left(r, l.m, b) - (if Moves(r, i) then 1 else 0)
  }

  lemma LeftStep(r: Regs, l: Log, b: seq<byte>, i: In)
    requires Under(r, l, b) && EnvOk(r, l, i) && Delivers(l, b, i) && !Expired(r)
    ensures Sized(r) && Fewer(r, l, b, i)
  {
    hide MsgInv, Step, NextLog, TxOk, EnvOk, Fewer, Whole;
    UnderParts(r, l, b);
    match r.state
    case Header => HeaderLeft(r, l, b, i);
    case Payload => PayloadLeft(r, l, b, i);
    case Dispatch => DispatchLeft(r, l, b, i);
    case DmaWrite => WriteLeft(r, l, b, i);
    case WaitNmc => AckLeft(r, l, b, i);
    case SendAck => AckLeft(r, l, b, i);
    case AckWait => AckLeft(r, l, b, i);
    case _ => ReadLeft(r, l, b, i);
  }

  lemma HeaderLeft(r: Regs, l: Log, b: seq<byte>, i: In)
    requires Under(r, l, b) && Sized(r) && AtState(r, l.m) && EnvOk(r, l, i) && Delivers(l, b, i) && !Expired(r)
    requires r.state == Header
    ensures Fewer(r, l, b, i)
  {
    hide MsgInv, LenOf, Rd32, Le32, RespByte, AckByte, TxOk, Put, Tail;
    BytesNext(r, l, b, i);
  }

  lemma PayloadLeft(r: Regs, l: Log, b: seq<byte>, i: In)
    requires Under(r, l, b) && Sized(r) && AtState(r, l.m) && EnvOk(r, l, i) && Delivers(l, b, i) && !Expired(r)
    requires r.state == Payload
    ensures Fewer(r, l, b, i)
  {
    hide MsgInv, LenOf, Rd32, Le32, RespByte, AckByte, TxOk, Put, Tail;
    BytesNext(r, l, b, i);
  }

  lemma DispatchLeft(r: Regs, l: Log, b: seq<byte>, i: In)
    requires Under(r, l, b) && Sized(r) && AtState(r, l.m) && EnvOk(r, l, i) && Delivers(l, b, i) && !Expired(r)
    requires r.state == Dispatch
    ensures Fewer(r, l, b, i)
  {
    hide Reachable, LenOf, Rd32, Le32, RespByte, AckByte, Put;
    assert l.justRx;
    BytesNext(r, l, b, i);
    PrefixFields(l.m.bytes, b);
    assert r.p.header[0] == l.m.bytes[0];
    if b[0] == DATA_READ {
      PayloadField(r.p.payload, Gathered(r), l.m.bytes, 4);
    }
  }

  lemma WriteLeft(r: Regs, l: Log, b: seq<byte>, i: In)
    requires Under(r, l, b) && Sized(r) && AtState(r, l.m) && EnvOk(r, l, i) && Delivers(l, b, i) && !Expired(r)
    requires r.state == DmaWrite
    ensures Fewer(r, l, b, i)
  {
    hide MsgInv, LenOf, Rd32, Le32, RespByte, AckByte, TxOk, Put, Written;
    BytesNext(r, l, b, i);
    PrefixFields(l.m.bytes, b);
  }

  lemma AckLeft(r: Regs, l: Log, b: seq<byte>, i: In)
    requires Under(r, l, b) && Sized(r) && AtState(r, l.m) && EnvOk(r, l, i) && Delivers(l, b, i) && !Expired(r)
    requires r.state == WaitNmc || r.state == SendAck || r.state == AckWait
    ensures Fewer(r, l, b, i)
  {
    hide MsgInv, AtState, LenOf, Rd32, Le32, RespByte, AckByte, Put;
  }

  lemma ReadLeft(r: Regs, l: Log, b: seq<byte>, i: In)
    requires Under(r, l, b) && Sized(r) && AtState(r, l.m) && EnvOk(r, l, i) && Delivers(l, b, i) && !Expired(r)
    requires r.state == SendRespHdr || r.state == DmaReadReq || r.state == DmaReadResp
    ensures Fewer(r, l, b, i)
  {
    hide AtState, LenOf, Rd32, Le32, RespByte, AckByte, Put;
  }

  lemma UnderParts(r: Regs, l: Log, b: seq<byte>)
    requires Under(r, l, b)
    ensures Reachable(r) && Sized(r) && AtState(r, l.m) && l.m.bytes != []
  {
    hide LenOf, Rd32, Le32, Written, Requested, RespHeader, GoodPrefix;
  }

  lemma NotAborted(r: Regs, l: Log, i: In)
    requires Sized(r) && !l.aborted && !Expired(r)
    ensures !NextLog(r, l, i).aborted
  {
    hide Step;
  }

  lemma BytesNext(r: Regs, l: Log, b: seq<byte>, i: In)
    requires Sized(r) && l.m.bytes <= b && Delivers(l, b, i) && r.state != Idle
    ensures var k := NextLog(r, l, i); k.m.bytes <= b && k.m.bytes == Heard(r, l.m, i).bytes
    ensures !i.rxValid ==> NextLog(r, l, i).m.bytes == l.m.bytes
    ensures i.rxValid && Listening(r.state) && !Expired(r) ==> |NextLog(r, l, i).m.bytes| == |l.m.bytes| + 1
  {
    hide Step;
  }

  /** Idle again, the message heard is the whole of b. */
  lemma DoneWhole(r: Regs, l: Log, b: seq<byte>)
    requires MsgInv(r, l) && !l.aborted && r.state == Idle && Whole(b) && l.m.bytes <= b && l.m.bytes != []
    ensures l.m.bytes == b && Finished(l.m)
  {
    hide Rd32, Le32, Written, Requested, RespHeader, Reachable;
    PrefixFields(l.m.bytes, b);
  }

  // ----- surroundings that answer in time -----

  /** Cycles a handshake may take: an engine until just before its watchdog, everything else d. */
  function Patience(s: State, d: nat): nat {
    if s == WaitNmc then LIMIT_NMC - 1 else d
  }

  /** Each of 24 handshakes in a row may take d cycles before the watchdog fires. */
  predicate Short(d: nat) {
    0 < d && 24 * (d + 1) <= LIMIT
  }

  /** Cycles that n handshakes may take. */
  function Allowance(n: nat, d: nat): nat {
    n * (d + 1)
  }

  lemma AllowanceNext(n: nat, d: nat)
    ensures Allowance(n + 1, d) == Allowance(n, d) + d + 1
  {
  }

  lemma AllowanceLe(n: nat, m: nat, d: nat)
    requires n <= m
    ensures Allowance(n, d) <= Allowance(m, d)
  {
    MulLe(n, m, d + 1);
  }

  /** Handshakes since the watchdog was last set back for certain. */
  function Since(r: Regs): int {
    match r.state
    case SendAck => 3 * r.ackIdx + (if r.txValid then 1 else 0)
    case AckWait => 3 * r.ackIdx + 2
    case SendRespHdr => 2 * r.d.respIdx - (if r.txValid then 1 else 0)
    case DmaReadReq => 15
    case DmaReadResp => 16
    case _ => 0
  }

  lemma SinceRange(r: Regs)
    requires Reachable(r) && TxOk(r)
    ensures 0 <= Since(r) < 24
  {
  }

  /** The stall counter is within what the handshakes so far may have taken; `wait` counts the cycles since the last. */
  predicate StallOk(r: Regs, l: Log, wait: nat, d: nat) {
    && 0 <= Since(r) && wait <= Patience(r.state, d)
    && r.stall <= Allowance(Since(r), d) + wait && (l.justRx ==> wait == 0)
  }

  /** One cycle of a link that delivers b, with a transmitter, an engine and a DMA port that answer in time. */
  predicate Timely(r: Regs, l: Log, wait: nat, b: seq<byte>, d: nat, i: In) {
    EnvOk(r, l, i) && Delivers(l, b, i) && (Moves(r, i) || wait < Patience(r.state, d))
  }

  function NextWait(r: Regs, wait: nat, i: In): nat {
    if Moves(r, i) then 0 else wait + 1
  }

  lemma NotExpired(r: Regs, l: Log, wait: nat, d: nat)
    requires Reachable(r) && TxOk(r) && Short(d) && StallOk(r, l, wait, d)
    ensures !Expired(r)
  {
    hide Allowance, Reachable, TxOk;
    SinceRange(r);
    AllowanceLe(Since(r), 23, d);
    if r.state == WaitNmc {
      assert Allowance(0, d) == 0 by { NoAllowance(d); }
    }
    TwentyThree(d);
  }

  lemma NoAllowance(d: nat)
    ensures Allowance(0, d) == 0
  {
  }

  lemma TwentyThree(d: nat)
    ensures Allowance(23, d) == 23 * (d + 1)
  {
  }

  /** Without progress the stall counter counts one; a handshake costs at most one more than its wait. */
  lemma StallNext(r: Regs, l: Log, i: In)
    requires Reachable(r) && Sized(r) && TxOk(r) && EnvOk(r, l, i) && !Expired(r) && r.state != Idle
    ensures var n := Step(r, i);
            && n.stall <= r.stall + 1
            && (n.state == Idle || n.stall == 0 || Since(n) >= Since(r) + (if Moves(r, i) then 1 else 0))
            && 0 <= Since(n)
            && (!Moves(r, i) ==> n.state == r.state)
            && (r.state == WaitNmc && Moves(r, i) ==> n.stall == 0)
  {
    hide LenOf, Rd32, Le32, AckByte, RespByte, Put, LastPayloadByte, GoodPrefix, Heard;
  }

  /** A timely cycle keeps the watchdog away. */
  lemma TimelyNext(r: Regs, l: Log, wait: nat, b: seq<byte>, d: nat, i: In)
    requires Under(r, l, b) && Short(d) && StallOk(r, l, wait, d) && Timely(r, l, wait, b, d, i)
    ensures Reachable(r) && Sized(r) && !Expired(r)
    ensures Step(r, i).state != Idle ==> StallOk(Step(r, i), NextLog(r, l, i), NextWait(r, wait, i), d)
  {
    hide AtState, Step, TxOk, Reachable, Since, Allowance, Moves, GoodPrefix, Heard, Whole, Delivers;
    UnderParts(r, l, b);
    NotExpired(r, l, wait, d);
    StallNext(r, l, i);
    if i.rxValid {
      HeardMoves(r, l, i);
    }
    AllowanceNext(Since(r), d);
    if Step(r, i).stall > 0 && Step(r, i).state != Idle {
      AllowanceLe(if Moves(r, i) then Since(r) + 1 else Since(r), Since(Step(r, i)), d);
    }
  }

  lemma HeardMoves(r: Regs, l: Log, i: In)
    requires MsgInv(r, l) && EnvOk(r, l, i) && i.rxValid
    ensures Moves(r, i)
  {
  }

  // ----- completion -----

  /** The engine's own time, as long as it is still to be waited for. */
  function Engine(r: Regs, b: seq<byte>): nat
    requires Whole(b)
  {
    if b[0] == NMC_EXEC && (r.state == Header || r.state == Payload || r.state == Dispatch || r.state == WaitNmc)
      then LIMIT_NMC else 0
  }

  /** Cycles within which message b is done. */
  function Budget(r: Regs, l: Log, wait: nat, b: seq<byte>, d: nat): int
    requires Whole(b)
  {
    var n := Left(r, l.m, b);
    (if n >= 0 then Allowance(n, d) else 0) + Engine(r, b) - wait
  }

  lemma EngineNext(r: Regs, l: Log, b: seq<byte>, i: In)
    requires Under(r, l, b) && EnvOk(r, l, i) && Sized(r) && AtState(r, l.m) && !Expired(r)
    ensures Engine(Step(r, i), b) <= Engine(r, b)
    ensures r.state == WaitNmc && Moves(r, i) ==> Engine(r, b) == LIMIT_NMC && Engine(Step(r, i), b) == 0
    ensures r.state == WaitNmc ==> Engine(r, b) == LIMIT_NMC
  {
    hide Reachable, LenOf, Rd32, Le32, AckByte, RespByte, Put, LastPayloadByte, GoodPrefix;
    PrefixFields(l.m.bytes, b);
  }

  /** Every timely cycle ends the message or brings its end nearer. */
  lemma BudgetNext(r: Regs, l: Log, wait: nat, b: seq<byte>, d: nat, i: In)
    requires Under(r, l, b) && Short(d) && StallOk(r, l, wait, d) && Timely(r, l, wait, b, d, i)
    ensures Reachable(r) && Sized(r) && Budget(r, l, wait, b, d) > 0
    ensures var n, k, w := Step(r, i), NextLog(r, l, i), NextWait(r, wait, i);
            if n.state == Idle then MsgInv(n, k) && !k.aborted && k.m.bytes == b && Finished(k.m)
            else Under(n, k, b) && StallOk(n, k, w, d) && Budget(n, k, w, b, d) < Budget(r, l, wait, b, d)
  {
    hide AtState, Step, NextLog, TxOk, Reachable, Since, Allowance, Moves, Whole, Left, EnvOk, Delivers, Finished,
         Engine, MsgInv;
    UnderParts(r, l, b);
    TimelyNext(r, l, wait, b, d, i);
    LeftNext(r, l, b, i);
    EngineNext(r, l, b, i);
    var x, y := Left(r, l.m, b), Left(Step(r, i), NextLog(r, l, i).m, b);
    AllowanceNext(x - 1, d);
    AllowanceLe(0, x - 1, d);
    NoAllowance(d);
    AllowanceLe(y, if Moves(r, i) then x - 1 else x, d);
  }

  /** A stretch of timely cycles, until the message is done. */
  predicate TimelyRun(r: Regs, l: Log, wait: nat, b: seq<byte>, d: nat, ins: seq<In>)
    decreases |ins|
  {
    ins == [] ||
    (Reachable(r) && Sized(r) && Timely(r, l, wait, b, d, ins[0])
     && (Step(r, ins[0]).state == Idle
         || TimelyRun(Step(r, ins[0]), NextLog(r, l, ins[0]), NextWait(r, wait, ins[0]), b, d, ins[1..])))
  }

  /** A stretch on a well-behaved link. */
  predicate LinkRun(r: Regs, l: Log, ins: seq<In>)
    requires Reachable(r) && Sized(r)
    decreases |ins|
  {
    ins == [] ||
    (EnvOk(r, l, ins[0])
     && (StepReachable(r, ins[0]); ReachableSized(Step(r, ins[0]));
         LinkRun(Step(r, ins[0]), NextLog(r, l, ins[0]), ins[1..])))
  }

  function Play(r: Regs, l: Log, ins: seq<In>): (p: (Regs, Log))
    requires Reachable(r) && Sized(r)
    decreases |ins|
  {
    if ins == [] then (r, l)
    else
      StepReachable(r, ins[0]);
      ReachableSized(Step(r, ins[0]));
      Play(Step(r, ins[0]), NextLog(r, l, ins[0]), ins[1..])
  }

  /** Idle, with message b received and done, and no watchdog exit. */
  predicate DoneWith(p: (Regs, Log), b: seq<byte>) {
    p.0.state == Idle && !p.1.aborted && p.1.m.bytes == b && Finished(p.1.m)
  }

  /** Within its budget of cycles the message is done. */
  lemma {:induction false} Completes(r: Regs, l: Log, wait: nat, b: seq<byte>, d: nat, ins: seq<In>) returns (k: nat)
    requires Under(r, l, b) && Short(d) && StallOk(r, l, wait, d) && TimelyRun(r, l, wait, b, d, ins)
    requires |ins| >= Budget(r, l, wait, b, d)
    ensures Reachable(r) && Sized(r) && 0 < k <= |ins| && k <= Budget(r, l, wait, b, d)
    ensures LinkRun(r, l, ins[..k]) && DoneWith(Play(r, l, ins[..k]), b)
    decreases |ins|
  {
    hide Under, StallOk, Step, NextLog, Budget, Reachable, Sized, Finished, EnvOk, Delivers, Moves, NextWait;
    UnderParts(r, l, b);
    if ins == [] {
      BudgetPositive(r, l, wait, b, d);
    } else {
      var i := ins[0];
      BudgetNext(r, l, wait, b, d, i);
      StepReachable(r, i);
      ReachableSized(Step(r, i));
      if Step(r, i).state == Idle {
        k := 1;
        assert ins[..1][1..] == [];
      } else {
        var j := Completes(Step(r, i), NextLog(r, l, i), NextWait(r, wait, i), b, d, ins[1..]);
        k := j + 1;
        assert ins[..k][1..] == ins[1..][..j];
      }
    }
  }

  lemma BudgetPositive(r: Regs, l: Log, wait: nat, b: seq<byte>, d: nat)
    requires Under(r, l, b) && Short(d) && StallOk(r, l, wait, d)
    ensures Budget(r, l, wait, b, d) > 0
  {
    hide Under, StallOk, Budget;
    BudgetNext(r, l, wait, b, d, Obliging(r, l, b)) by { ObligingTimely(r, l, wait, b, d); }
  }

  // ----- such surroundings exist -----

  /** Surroundings that do at once what the controller waits for. */
  function Obliging(r: Regs, l: Log, b: seq<byte>): In {
    var more := Listening(r.state) && !l.justRx && |l.m.bytes| < |b|;
    In(if more then b[|l.m.bytes|] else 0, more, !(r.state == SendAck && r.txValid), true, 0,
       r.state == DmaReadResp && !r.d.have)
  }

  lemma ObligingTimely(r: Regs, l: Log, wait: nat, b: seq<byte>, d: nat)
    requires Under(r, l, b) && Short(d) && StallOk(r, l, wait, d)
    ensures Timely(r, l, wait, b, d, Obliging(r, l, b))
  {
    hide Reachable, Since, Allowance, Rd32, Le32, Written, Requested, RespHeader, TxOk;
    UnderParts(r, l, b);
    var i := Obliging(r, l, b);
    PrefixFields(l.m.bytes, b);
    if i.rxValid {
      assert l.m.bytes + [i.rxData] <= b;
      PrefixFields(l.m.bytes + [i.rxData], b);
    }
  }

  /** They can go on for any number of cycles. */
  lemma {:induction false} Obliged(r: Regs, l: Log, wait: nat, b: seq<byte>, d: nat, n: nat) returns (ins: seq<In>)
    requires Under(r, l, b) && Short(d) && StallOk(r, l, wait, d)
    ensures |ins| == n && TimelyRun(r, l, wait, b, d, ins)
    decreases n
  {
    hide Under, StallOk, Step, NextLog, Budget, Reachable, Sized, Finished, EnvOk, Delivers, Moves, NextWait, Obliging,
         Timely;
    if n == 0 {
      ins := [];
    } else {
      var i := Obliging(r, l, b);
      UnderParts(r, l, b);
      ObligingTimely(r, l, wait, b, d);
      BudgetNext(r, l, wait, b, d, i);
      var rest: seq<In> := seq(n - 1, _ => i);
      if Step(r, i).state != Idle {
        rest := Obliged(Step(r, i), NextLog(r, l, i), NextWait(r, wait, i), b, d, n - 1);
      }
      ins := [i] + rest;
      assert ins[1..] == rest;
    }
  }

  // ----- from reset -----

  /** A stretch on a well-behaved link continues a run. */
  lemma {:induction false} RunGoesOn(pre: seq<In>, ins: seq<In>)
    requires Lawful(pre) && Reachable(After(pre).0) && Sized(After(pre).0)
    requires LinkRun(After(pre).0, After(pre).1, ins)
    ensures Lawful(pre + ins) && After(pre + ins) == Play(After(pre).0, After(pre).1, ins)
    decreases |ins|
  {
    hide Step, NextLog, Reachable, Sized, EnvOk, AtState;
    if ins == [] {
      assert pre + ins == pre;
    } else {
      var r, l, i, on := After(pre).0, After(pre).1, ins[0], pre + [ins[0]];
      assert on[..|on| - 1] == pre;
      StepReachable(r, i);
      ReachableSized(Step(r, i));
      RunGoesOn(on, ins[1..]);
      assert on + ins[1..] == pre + ins;
    }
  }

  /** Cycles within which a message heard from its first byte on is done: its bytes, its dispatch and what follows, and
      the engine. */
  function Cycles(b: seq<byte>, d: nat): (n: nat)
    requires Whole(b)
    ensures n > 0
  {
    1 + Allowance(|b| + Tail(b), d) + if b[0] == NMC_EXEC then LIMIT_NMC else 0
  }

  /** The first byte of a message. */
  lemma FirstByte(r: Regs, l: Log, b: seq<byte>, d: nat, i: In)
    requires MsgInv(r, l) && Sized(r) && TxOk(r) && r.state == Idle && Whole(b) && EnvOk(r, l, i) && i.rxValid
    requires i.rxData == b[0]
    ensures var n, k := Step(r, i), NextLog(r, l, i);
            Under(n, k, b) && StallOk(n, k, 0, d) && Budget(n, k, 0, b, d) == Cycles(b, d) - 1
  {
    hide Reachable, LenOf, Rd32, Le32, AckByte, RespByte, Tail, Allowance, Complete, GoodPrefix;
    ReachableSized(r);
    MsgStep(r, l, i);
    TxNext(r, i);
  }

  /** In every run from reset: from an idle state on, a message of any type whose bytes arrive and whose handshakes
      happen in time is done within its cycles, and exactly its effects have happened. */
  lemma MessageCompletes(pre: seq<In>, b: seq<byte>, d: nat, ins: seq<In>) returns (k: nat)
    requires Lawful(pre) && Sized(After(pre).0) && After(pre).0.state == Idle && Whole(b) && Short(d)
    requires |ins| >= Cycles(b, d) && EnvOk(After(pre).0, After(pre).1, ins[0]) && ins[0].rxValid
             && ins[0].rxData == b[0]
    requires TimelyRun(Step(After(pre).0, ins[0]), NextLog(After(pre).0, After(pre).1, ins[0]), 0, b, d, ins[1..])
    ensures 0 < k <= Cycles(b, d) && k <= |ins| && Lawful(pre + ins[..k]) && DoneWith(After(pre + ins[..k]), b)
  {
    hide Step, NextLog, Reachable, EnvOk, AtState, TxOk, Under, StallOk, Budget, TimelyRun, Cycles, Finished, LinkRun,
         Play;
    TxAlways(pre);
    var r, l, i := After(pre).0, After(pre).1, ins[0];
    FirstByte(r, l, b, d, i);
    var j := Completes(Step(r, i), NextLog(r, l, i), 0, b, d, ins[1..]);
    k := j + 1;
    assert ins[..k][1..] == ins[1..][..j];
    OneFirst(r, l, ins[..k]);
    RunGoesOn(pre, ins[..k]);
  }

  lemma OneFirst(r: Regs, l: Log, ins: seq<In>)
    requires Reachable(r) && Sized(r) && ins != [] && EnvOk(r, l, ins[0])
    requires Reachable(Step(r, ins[0])) && Sized(Step(r, ins[0]))
    requires LinkRun(Step(r, ins[0]), NextLog(r, l, ins[0]), ins[1..])
    ensures LinkRun(r, l, ins)
    ensures Play(r, l, ins) == Play(Step(r, ins[0]), NextLog(r, l, ins[0]), ins[1..])
  {
    hide Step, NextLog, Reachable, Sized, EnvOk;
  }

  /** And there is such a run for every whole message. */
  lemma EveryMessageServed(b: seq<byte>) returns (ins: seq<In>)
    requires Whole(b)
    ensures Lawful(ins) && DoneWith(After(ins), b)
  {
    hide Step, NextLog, Reachable, EnvOk, AtState, TxOk, Under, StallOk, Budget, TimelyRun, Cycles, Finished;
    var r, l, i := After([]).0, After([]).1, In(b[0], true, true, true, 0, false);
    ReachableSized(r);
    FirstOk(b, i);
    TxAlways([]);
    FirstByte(r, l, b, 1, i);
    var rest := Obliged(Step(r, i), NextLog(r, l, i), 0, b, 1, Cycles(b, 1));
    assert ([i] + rest)[1..] == rest;
    var k := MessageCompletes([], b, 1, [i] + rest);
    ins := [] + ([i] + rest)[..k];
  }

  lemma FirstOk(b: seq<byte>, i: In)
    requires |b| > 0 && i == In(b[0], true, true, true, 0, false)
    ensures EnvOk(After([]).0, After([]).1, i) && After([]).0.state == Idle
  {
  }
}
