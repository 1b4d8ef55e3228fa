/** Whom the arbiter serves first, and how few operations the bytes of a DMA burst cost. */
module ArbiterService {
  import opened Bytes
  import opened Mig
  import opened Ddr2Arbiter
  import opened ArbiterSettles

  // ----- priority -----

  /** Something waits for an operation of this kind; a read waits only while none is in flight. */
  predicate Waits(r: Regs, c: Choice) {
    match c
    case NmcWrite => r.nmc.cnt > 0
    case NmcRead => r.nmc.rdReq && !r.rdBusy
    case MacWrite => r.mac.cnt > 0
    case MacRead => r.mac.rdReq && !r.rdBusy
    case Flush => r.wa.flush
    case DmaRead => r.dr.req && !r.rdBusy
    case Nothing => false
  }

  /** The near-memory engines, the MAC engine, the DMA; each port's writes before its read. */
  function Rank(c: Choice): nat {
    match c
    case NmcWrite => 0
    case NmcRead => 1
    case MacWrite => 2
    case MacRead => 3
    case Flush => 4
    case DmaRead => 5
    case Nothing => 6
  }

  /** A free slot goes to the first in rank of all that wait, and stays free only if nothing waits. */
  lemma FirstServed(r: Regs)
    ensures Chosen(r) != Nothing ==> !r.issue.busy && Waits(r, Chosen(r))
    ensures forall c :: Waits(r, c) && !r.issue.busy ==> Rank(Chosen(r)) <= Rank(c)
  {
    forall c | Waits(r, c) && !r.issue.busy
      ensures Rank(Chosen(r)) <= Rank(c)
    {
      match c
      case NmcWrite =>
      case NmcRead =>
      case MacWrite =>
      case MacRead =>
      case Flush =>
      case DmaRead =>
    }
  }

  predicate EngineWaits(r: Regs) {
    Waits(r, NmcWrite) || Waits(r, NmcRead) || Waits(r, MacWrite) || Waits(r, MacRead)
  }

  lemma EngineStillWaits(r: Regs, i: In)
    requires EngineWaits(r) && Chosen(r) == Nothing && r.nmc.cnt <= 2 && r.mac.cnt <= 2
    requires r.nmc.cnt == 2 ==> !i.nmc.wrEn
    requires r.mac.cnt == 2 ==> !i.mac.wrEn
    ensures var n := Step(r, i); EngineWaits(n) && n.nmc.cnt <= 2 && n.mac.cnt <= 2
  {
    hide Presented, Shaken, Answered, Filled, Assembled;
  }

  /** Engines that never queue a third write. */
  predicate NoThirdWrite(r: Regs, ins: seq<In>)
    decreases |ins|
  {
    ins == [] || ((r.nmc.cnt == 2 ==> !ins[0].nmc.wrEn) && (r.mac.cnt == 2 ==> !ins[0].mac.wrEn)
                  && NoThirdWrite(Step(r, ins[0]), ins[1..]))
  }

  /** The DMA never overtakes an engine: from the cycle in which an engine's operation waits, the next operation
      presented is an engine's, however long the controller keeps the slot busy. */
  lemma {:induction false} EngineBeforeDma(r: Regs, ins: seq<In>)
    requires EngineWaits(r) && r.nmc.cnt <= 2 && r.mac.cnt <= 2 && NoThirdWrite(r, ins)
    requires forall k :: 0 <= k < |ins| ==> Chosen(Steps(r, ins[..k])) == Nothing
    ensures Chosen(Steps(r, ins)) !in {Flush, DmaRead}
    decreases |ins|
  {
    hide Step, EngineWaits, Chosen;
    if ins == [] {
      FirstServed(r);
      assert EngineWaits(r);
      EngineRank(r);
    } else {
      assert ins[..0] == [];
      EngineStillWaits(r, ins[0]);
      forall k | 0 <= k < |ins| - 1
        ensures Chosen(Steps(Step(r, ins[0]), ins[1..][..k])) == Nothing
      {
        assert ins[..k + 1][1..] == ins[1..][..k];
        assert Chosen(Steps(r, ins[..k + 1])) == Nothing;
      }
      EngineBeforeDma(Step(r, ins[0]), ins[1..]);
    }
  }

  lemma EngineRank(r: Regs)
    requires EngineWaits(r)
    ensures Chosen(r) !in {Flush, DmaRead}
  {
  }

  function Quiet(): PortIn {
    PortIn(false, 0, false, 0, Zeros(16))
  }

  /** One write pulse on the near-memory port, or none, before a controller that takes everything. */
  function Busy(pulse: bool): In {
    In(PortIn(false, 0, pulse, 0, Zeros(16)), Quiet(), false, 0, 0, false, 0, true, true, false, Zeros(16))
  }

  lemma TwoCycles(r: Regs)
    requires r.wa.valid && r.wa.flush && r.nmc.cnt == 1 && !r.issue.busy && !r.issue.en && !r.issue.wren
    ensures var m := Step(r, Busy(true)); var n := Step(m, Busy(false));
            && Chosen(r) != Flush && Chosen(m) != Flush && n.nmc.cnt == 1 && m.nmc.cnt == 1
            && !n.issue.busy && !n.issue.en && !n.issue.wren
            && n.wa.valid && n.wa.flush && n.wa.data == r.wa.data && n.wa.word == r.wa.word && n.wa.lanes == r.wa.lanes
  {
    hide Answered, Filled, CmdOf, WdfOf;
  }

  /** An engine that writes in every other cycle keeps a staged word from memory for any number of cycles: the order is
      by rank alone. */
  lemma {:induction false} DmaStarves(r: Regs, n: nat) returns (ins: seq<In>)
    requires r.wa.valid && r.wa.flush && r.nmc.cnt == 1 && !r.issue.busy && !r.issue.en && !r.issue.wren
    ensures |ins| == 2 * n && NoThirdWrite(r, ins)
    ensures var a := Steps(r, ins).wa; a.valid && a.flush && a.data == r.wa.data && a.lanes == r.wa.lanes
    ensures forall k :: 0 <= k < |ins| ==> Chosen(Steps(r, ins[..k])) != Flush
    decreases n
  {
    hide Step, Chosen;
    if n == 0 {
      ins := [];
    } else {
      TwoCycles(r);
      var m := Step(r, Busy(true));
      var s := Step(m, Busy(false));
      var rest := DmaStarves(s, n - 1);
      ins := [Busy(true), Busy(false)] + rest;
      assert ins[1..] == [Busy(false)] + rest && ([Busy(false)] + rest)[1..] == rest;
      forall k | 0 <= k < |ins|
        ensures Chosen(Steps(r, ins[..k])) != Flush
      {
        if k == 0 {
          assert ins[..0] == [];
        } else if k == 1 {
          assert ins[..1][1..] == [];
        } else {
          assert ins[..k][1..] == [Busy(false)] + rest[..k - 2]
                 && ([Busy(false)] + rest[..k - 2])[1..] == rest[..k - 2];
        }
      }
    }
  }

  // ----- bursts -----

  /** The client offers a byte of 16-byte word w, and nothing else. */
  predicate Offers(i: In, w: nat) {
    i.wrEn && !i.rdEn && i.wrAddr / 16 == w
  }

  /** The byte last written to lane b. */
  function LastIn(ins: seq<In>, b: nat): (r: (bool, byte))
  {
    if ins == [] then (false, 0)
    else if ins[|ins| - 1].wrAddr % 16 == b then (true, ins[|ins| - 1].wrByte)
    else LastIn(ins[..|ins| - 1], b)
  }

  /** The stage holds exactly what has been written, the last byte for each lane. */
  predicate Holds(a: Assembler, w: nat, ins: seq<In>) {
    && a.valid && !a.flush && a.word == 16 * w && a.idle == 0
    && forall b :: 0 <= b < 16 ==>
         a.lanes[b] == LastIn(ins, b).0 && (a.lanes[b] ==> a.data[b] == LastIn(ins, b).1)
  }

  lemma FirstHeld(r: Regs, i: In, w: nat)
    requires !r.wa.valid && !r.wa.flush && Offers(i, w)
    ensures WriteAccept(r, i) && Holds(Step(r, i).wa, w, [i]) && Chosen(r) != Flush
  {
    hide Presented, Shaken, Latched, Answered, Filled;
    assert [i][..0] == [];
    forall b | 0 <= b < 16
      ensures LastIn([i], b) == if i.wrAddr % 16 == b then (true, i.wrByte) else (false, 0)
    {
      assert LastIn([], b) == (false, 0);
    }
  }

  lemma NextHeld(r: Regs, ins: seq<In>, i: In, w: nat)
    requires Holds(r.wa, w, ins) && Offers(i, w)
    ensures WriteAccept(r, i) && Holds(Step(r, i).wa, w, ins + [i]) && Chosen(r) != Flush
  {
    hide Presented, Shaken, Latched, Answered, Filled;
    assert (ins + [i])[..|ins|] == ins;
    assert 16 * w / 16 == w;
  }

  lemma StepsLast(r: Regs, ins: seq<In>, i: In)
    ensures Steps(r, ins + [i]) == Step(Steps(r, ins), i)
    decreases |ins|
  {
    hide Step;
    if ins == [] {
      assert ([] + [i])[1..] == [];
    } else {
      StepsLast(Step(r, ins[0]), ins[1..], i);
      assert (ins + [i])[1..] == ins[1..] + [i];
    }
  }

  /** Bytes of one word, one a cycle, are all taken as they come and cost no operation: after any number of them the
      stage holds exactly the last byte of each lane, for one masked write. */
  lemma {:induction false} WritesCoalesce(r: Regs, ins: seq<In>, w: nat)
    requires !r.wa.valid && !r.wa.flush && ins != [] && forall k :: 0 <= k < |ins| ==> Offers(ins[k], w)
    ensures Holds(Steps(r, ins).wa, w, ins)
    ensures forall k :: 0 <= k < |ins| ==>
              WriteAccept(Steps(r, ins[..k]), ins[k]) && Chosen(Steps(r, ins[..k])) != Flush
    decreases |ins|
  {
    hide Step, Holds, WriteAccept, Chosen;
    var n := |ins| - 1;
    var front, i := ins[..n], ins[n];
    assert ins == front + [i];
    StepsLast(r, front, i);
    if n == 0 {
      FirstHeld(r, i, w);
      assert [] + [i] == [i];
    } else {
      WritesCoalesce(r, front, w);
      NextHeld(Steps(r, front), front, i, w);
    }
    forall k | 0 <= k < |ins|
      ensures WriteAccept(Steps(r, ins[..k]), ins[k]) && Chosen(Steps(r, ins[..k])) != Flush
    {
      if k < n {
        assert ins[..k] == front[..k];
      }
    }
  }

  /** The client asks for a byte of 16-byte word w, and nothing else. */
  predicate Asks(i: In, w: nat) {
    i.rdEn && !i.wrEn && i.rdAddr / 16 == w
  }

  /** The read cache holds word w, and the byte port is free. */
  predicate Cached(r: Regs, w: nat, data: word) {
    && SideOk(r) && !r.dr.busy && !r.wa.valid && r.rc.valid && r.rc.word / 16 == w && r.rc.data == data
  }

  lemma HitNext(r: Regs, i: In, w: nat, data: word)
    requires Cached(r, w, data) && Asks(i, w) && !IsWrite(Chosen(r))
    ensures var n := Step(r, i);
            ReadAccept(r, i) && Cached(n, w, data) && n.dr.valid && n.dr.byteOut == data[i.rdAddr % 16]
    ensures Chosen(r) != DmaRead
  {
    hide Presented, Shaken, Latched;
  }

  /** Reads of the word in the cache, one a cycle, are answered each in the cycle after it and cost no operation, as
      long as no write is issued. */
  lemma {:induction false} ReadsAtOnce(r: Regs, ins: seq<In>, w: nat, data: word, k: nat)
    requires Cached(r, w, data) && k < |ins| && forall j :: 0 <= j < |ins| ==> Asks(ins[j], w)
    requires forall j :: 0 <= j < |ins| ==> !IsWrite(Chosen(Steps(r, ins[..j])))
    ensures var n := Steps(r, ins[..k + 1]);
            n.dr.valid && n.dr.byteOut == data[ins[k].rdAddr % 16]
    ensures ReadAccept(Steps(r, ins[..k]), ins[k]) && Chosen(Steps(r, ins[..k])) != DmaRead
    decreases k
  {
    hide Step, Cached, ReadAccept, Chosen, IsWrite;
    assert ins[..0] == [];
    HitNext(r, ins[0], w, data);
    if k > 0 {
      var rest := ins[1..];
      forall j | 0 <= j < |rest|
        ensures !IsWrite(Chosen(Steps(Step(r, ins[0]), rest[..j])))
      {
        assert ins[..j + 1][1..] == rest[..j];
        assert !IsWrite(Chosen(Steps(r, ins[..j + 1])));
      }
      ReadsAtOnce(Step(r, ins[0]), rest, w, data, k - 1);
      assert ins[..k + 1][1..] == rest[..k] && ins[..k][1..] == rest[..k - 1];
    } else {
      assert ins[..1][1..] == [];
    }
  }
}
