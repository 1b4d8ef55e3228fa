/** Concat buffers: every part is pinned behind the part before it, so that concatenation needs no copy. */
module Pins {
  import opened Bytes
  import opened Walk
  import G = Graph

  /** What `alloc(_pad16(total))` reserves. */
  function Room(total: nat): (r: nat)
    ensures r >= 16 && r % 16 == 0 && total <= Pad16(total) <= r
  {
    if total == 0 then 16 else Pad16(total)
  }

  function Total(c: Ctx, q: nat): nat
    requires IsConcat(c, q)
  {
    G.SumLens(c.g.lens, c.g.nodes[q].ins)
  }

  function Base(c: Ctx, q: nat): nat
    requires IsConcat(c, q)
  {
    Pin(c, c.g.nodes[q].out)
  }

  /** Bytes before part i. */
  function Offset(c: Ctx, ins: seq<string>, i: nat): nat
    requires i <= |ins|
  {
    G.SumLens(c.g.lens, ins[..i])
  }

  /** Part i is pinned at its aligned offset from base. */
  ghost predicate Slice(c: Ctx, base: nat, ins: seq<string>, i: nat) {
    i < |ins| && ins[i] in c.pins && Pin(c, ins[i]) == base + Offset(c, ins, i) && Offset(c, ins, i) % 16 == 0
      && Sourced(c, ins[i])
  }

  ghost predicate Buffer(c: Ctx, q: nat, end: nat)
    requires IsConcat(c, q)
  {
    var n := c.g.nodes[q];
    && n.out in c.pins && Base(c, q) % 16 == 0 && Base(c, q) + Room(Total(c, q)) <= end
    && forall i :: 0 <= i < |n.ins| ==> Slice(c, Base(c, q), n.ins, i)
  }

  predicate PinnedBy(c: Ctx, t: string, q: nat) {
    IsConcat(c, q) && (t == c.g.nodes[q].out || t in c.g.nodes[q].ins)
  }

  /** The first k nodes' Concats have their buffers, one behind the other, and nothing else is pinned. */
  ghost predicate PinnedUpTo(c: Ctx, k: nat, end: nat) {
    && (forall q: nat :: q < k && IsConcat(c, q) ==> Buffer(c, q, end))
    && (forall q: nat, r: nat :: q < r < k && IsConcat(c, q) && IsConcat(c, r)
          ==> Base(c, q) + Room(Total(c, q)) <= Base(c, r))
    && (forall t :: t in c.pins ==> exists q: nat :: q < k && PinnedBy(c, t, q))
  }

  // ----- one more Concat -----

  /** A source's tensor is no Concat's output. */
  lemma SourceNotConcat(c: Ctx, t: string, q: nat)
    requires G.GraphOk(c.g) && Sourced(c, t) && IsConcat(c, q)
    ensures t != c.g.nodes[q].out
  {
    hide G.NodeShaped, G.PartsUnshared, G.IsFinal;
  }

  lemma OutputsApart(c: Ctx, q: nat, r: nat)
    requires G.GraphOk(c.g) && IsConcat(c, q) && IsConcat(c, r) && q != r
    ensures c.g.nodes[q].out != c.g.nodes[r].out
  {
    hide G.NodeShaped, G.PartsUnshared, G.IsFinal;
  }

  lemma InputsApart(c: Ctx, q: nat, i: nat, r: nat, j: nat)
    requires G.GraphOk(c.g) && IsConcat(c, q) && IsConcat(c, r) && (q != r || i != j)
    requires i < |c.g.nodes[q].ins| && j < |c.g.nodes[r].ins|
    ensures c.g.nodes[q].ins[i] != c.g.nodes[r].ins[j]
  {
    hide G.GraphOk;
    G.Unshared(c.g, q, i, r, j);
  }

  /** Pins that agree on a Concat's tensors give it the same buffer. */
  lemma BufferKept(c: Ctx, pins: map<string, nat>, q: nat, end: nat, end': nat)
    requires IsConcat(c, q) && Buffer(c, q, end) && end <= end'
    requires forall t :: PinnedBy(c, t, q) ==> t in pins && pins[t] == Pin(c, t)
    ensures Buffer(c.(pins := pins), q, end')
    ensures Base(c.(pins := pins), q) == Base(c, q) && Total(c.(pins := pins), q) == Total(c, q)
  {
    hide Room, Sourced;
    var d, n := c.(pins := pins), c.g.nodes[q];
    assert PinnedBy(c, n.out, q);
    forall i | 0 <= i < |n.ins|
      ensures Slice(d, Base(d, q), n.ins, i)
    {
      assert Slice(c, Base(c, q), n.ins, i) && PinnedBy(c, n.ins[i], q);
      SourcedSame(c, pins, n.ins[i]);
    }
  }

  lemma SourcedSame(c: Ctx, pins: map<string, nat>, t: string)
    ensures Sourced(c, t) == Sourced(c.(pins := pins), t)
  {
  }

  /** `pins` adds Concat k's buffer at base to what is pinned. */
  ghost predicate Added(c: Ctx, k: nat, base: nat, pins: map<string, nat>)
    requires IsConcat(c, k)
  {
    var n := c.g.nodes[k];
    && n.out in pins && pins[n.out] == base && base % 16 == 0
    && (forall i :: 0 <= i < |n.ins| ==> Slice(c.(pins := pins), base, n.ins, i))
    && (forall t :: t in pins ==> t == n.out || t in n.ins || (t in c.pins && pins[t] == c.pins[t]))
    && (forall t :: t in c.pins ==> t in pins)
  }

  /** The buffer of Concat k, laid down behind the ones before it. */
  lemma PinStep(c: Ctx, k: nat, base: nat, pins: map<string, nat>)
    requires G.GraphOk(c.g) && PinnedUpTo(c, k, base) && IsConcat(c, k) && Added(c, k, base, pins)
    ensures PinnedUpTo(c.(pins := pins), k + 1, base + Room(Total(c, k)))
  {
    hide G.GraphOk, Room, Slice, Sourced, Buffer, Added;
    var d := c.(pins := pins);
    forall q: nat | q < k && IsConcat(c, q)
      ensures Buffer(d, q, base + Room(Total(c, k))) && Base(d, q) == Base(c, q) && Total(d, q) == Total(c, q)
      ensures Base(d, q) + Room(Total(d, q)) <= base
    {
      EarlierKept(c, k, base, pins, q);
    }
    NewBuffer(c, k, base, pins);
    KeysKnown(c, k, base, pins);
    forall q: nat, r: nat | q < r < k + 1 && IsConcat(d, q) && IsConcat(d, r)
      ensures Base(d, q) + Room(Total(d, q)) <= Base(d, r)
    {
      assert IsConcat(c, q) && IsConcat(c, r);
    }
    forall q: nat | q < k + 1 && IsConcat(d, q)
      ensures Buffer(d, q, base + Room(Total(c, k)))
    {
      assert IsConcat(c, q);
    }
  }

  lemma EarlierKept(c: Ctx, k: nat, base: nat, pins: map<string, nat>, q: nat)
    requires G.GraphOk(c.g) && q < k && IsConcat(c, q) && Buffer(c, q, base) && IsConcat(c, k)
             && Added(c, k, base, pins)
    ensures var d := c.(pins := pins);
            && Buffer(d, q, base + Room(Total(c, k))) && Base(d, q) == Base(c, q)
            && Total(d, q) == Total(c, q)
    ensures var d := c.(pins := pins); Base(d, q) + Room(Total(d, q)) <= base
  {
    hide G.GraphOk, Room, Slice, Sourced, Added;
    forall t | PinnedBy(c, t, q)
      ensures t in pins && pins[t] == Pin(c, t)
    {
      OthersUntouched(c, k, base, pins, q, t);
    }
    BufferKept(c, pins, q, base, base + Room(Total(c, k)));
  }

  lemma NewBuffer(c: Ctx, k: nat, base: nat, pins: map<string, nat>)
    requires IsConcat(c, k) && Added(c, k, base, pins)
    ensures var d := c.(pins := pins);
            && Buffer(d, k, base + Room(Total(c, k))) && Base(d, k) == base
            && Total(d, k) == Total(c, k)
  {
    hide Room, Slice;
  }

  lemma KeysKnown(c: Ctx, k: nat, base: nat, pins: map<string, nat>)
    requires PinnedUpTo(c, k, base) && IsConcat(c, k) && Added(c, k, base, pins)
    ensures forall t :: t in pins ==> exists q: nat :: q < k + 1 && PinnedBy(c.(pins := pins), t, q)
  {
    hide Room, Slice, Buffer;
    var d, n := c.(pins := pins), c.g.nodes[k];
    forall t | t in pins
      ensures exists q: nat :: q < k + 1 && PinnedBy(d, t, q)
    {
      if t == n.out || t in n.ins {
        assert PinnedBy(d, t, k);
      } else {
        var q: nat :| q < k && PinnedBy(c, t, q);
        assert PinnedBy(d, t, q);
      }
    }
  }

  lemma OthersUntouched(c: Ctx, k: nat, base: nat, pins: map<string, nat>, q: nat, t: string)
    requires G.GraphOk(c.g) && q < k && IsConcat(c, k) && IsConcat(c, q) && PinnedBy(c, t, q) && Buffer(c, q, base)
             && Added(c, k, base, pins)
    ensures t in pins && pins[t] == Pin(c, t)
  {
    hide G.GraphOk, Room, Sourced;
    var n, d := c.g.nodes[k], c.(pins := pins);
    forall i | 0 <= i < |n.ins|
      ensures n.ins[i] != c.g.nodes[q].out
    {
      assert Slice(d, base, n.ins, i);
      SourceNotConcat(d, n.ins[i], q);
    }
    forall i, j | 0 <= i < |n.ins| && 0 <= j < |c.g.nodes[q].ins|
      ensures n.ins[i] != c.g.nodes[q].ins[j]
    {
      InputsApart(c, k, i, q, j);
    }
    forall j | 0 <= j < |c.g.nodes[q].ins|
      ensures c.g.nodes[q].ins[j] != n.out && c.g.nodes[q].ins[j] in c.pins
    {
      assert Slice(c, Base(c, q), c.g.nodes[q].ins, j);
      SourceNotConcat(c, c.g.nodes[q].ins[j], k);
    }
    OutputsApart(c, k, q);
  }

  lemma PinSkip(c: Ctx, k: nat, end: nat)
    requires PinnedUpTo(c, k, end) && !IsConcat(c, k)
    ensures PinnedUpTo(c, k + 1, end)
  {
    hide Buffer, Room;
    forall t | t in c.pins
      ensures exists q: nat :: q < k + 1 && PinnedBy(c, t, q)
    {
      var q: nat :| q < k && PinnedBy(c, t, q);
      assert q < k + 1 && PinnedBy(c, t, q);
    }
  }

  // ----- what the pins guarantee -----

  /** Offsets grow with the parts. */
  lemma {:induction false} OffsetMono(c: Ctx, ins: seq<string>, i: nat, j: nat)
    requires i <= j <= |ins|
    ensures Offset(c, ins, i) <= Offset(c, ins, j)
    ensures i < j && ins[i] in c.g.lens ==> Offset(c, ins, i) + Len(c, ins[i]) <= Offset(c, ins, j)
    decreases j
  {
    if i < j {
      OffsetMono(c, ins, i, j - 1);
      OffsetNext(c, ins, j - 1);
    }
  }

  lemma OffsetNext(c: Ctx, ins: seq<string>, i: nat)
    requires i < |ins|
    ensures Offset(c, ins, i + 1) == Offset(c, ins, i) + if ins[i] in c.g.lens then Len(c, ins[i]) else 0
  {
    assert ins[..i + 1][..i] == ins[..i];
    assert ins[..i + 1][|ins[..i + 1]| - 1] == ins[i];
  }

  lemma PadSum(a: nat, n: nat)
    requires a % 16 == 0
    ensures Pad16(a + n) == a + Pad16(n) && (n % 16 == 0 ==> Pad16(n) == n)
  {
  }

  /** A padded part ends where the next one starts, the last one where the padded buffer ends. */
  lemma SliceEnd(c: Ctx, q: nat, end: nat, i: nat)
    requires G.GraphOk(c.g) && IsConcat(c, q) && Buffer(c, q, end) && i < |c.g.nodes[q].ins|
    ensures var n := c.g.nodes[q];
            Pin(c, n.ins[i]) + Pad16(Len(c, n.ins[i])) == Base(c, q) + if i + 1 < |n.ins| then Offset(c, n.ins, i + 1)
              else Pad16(Total(c, q))
  {
    hide Pad16, Room, Sourced, G.GraphOk;
    var n := c.g.nodes[q];
    PartLens(c, q);
    assert Slice(c, Base(c, q), n.ins, i);
    OffsetNext(c, n.ins, i);
    PadSum(Offset(c, n.ins, i), Len(c, n.ins[i]));
    if i + 1 < |n.ins| {
      assert Slice(c, Base(c, q), n.ins, i + 1);
      LenAligned(Offset(c, n.ins, i), Len(c, n.ins[i]));
    } else {
      assert n.ins[..i + 1] == n.ins;
    }
  }

  lemma SliceEnds(c: Ctx, q: nat, end: nat, i: nat)
    requires G.GraphOk(c.g) && IsConcat(c, q) && Buffer(c, q, end) && i < |c.g.nodes[q].ins|
    ensures var n := c.g.nodes[q]; var b := Pin(c, n.ins[i]) + Pad16(Len(c, n.ins[i]));
            b <= Base(c, q) + Pad16(Total(c, q)) && forall j :: i < j < |n.ins| ==> b <= Pin(c, n.ins[j])
  {
    hide Pad16, Room, Sourced, G.GraphOk, Offset;
    var n := c.g.nodes[q];
    SliceEnd(c, q, end, i);
    WholeOffset(c, q);
    TotalPadded(c, q);
    if i + 1 < |n.ins| {
      OffsetMono(c, n.ins, i + 1, |n.ins|);
    }
    forall j | i < j < |n.ins|
      ensures Pin(c, n.ins[i]) + Pad16(Len(c, n.ins[i])) <= Pin(c, n.ins[j])
    {
      assert Slice(c, Base(c, q), n.ins, j);
      OffsetMono(c, n.ins, i + 1, j);
    }
  }

  lemma WholeOffset(c: Ctx, q: nat)
    requires IsConcat(c, q)
    ensures Offset(c, c.g.nodes[q].ins, |c.g.nodes[q].ins|) == Total(c, q)
  {
    assert c.g.nodes[q].ins[..|c.g.nodes[q].ins|] == c.g.nodes[q].ins;
  }

  lemma TotalPadded(c: Ctx, q: nat)
    requires IsConcat(c, q)
    ensures Total(c, q) <= Pad16(Total(c, q))
  {
  }

  lemma LenAligned(a: nat, n: nat)
    requires a % 16 == 0 && (a + n) % 16 == 0
    ensures n % 16 == 0
  {
  }

  lemma PartLens(c: Ctx, q: nat)
    requires G.GraphOk(c.g) && IsConcat(c, q)
    ensures forall i :: 0 <= i < |c.g.nodes[q].ins| ==>
              c.g.nodes[q].ins[i] in c.g.lens
              && Len(c, c.g.nodes[q].ins[i]) > 0
    ensures c.g.nodes[q].out in c.g.lens && Len(c, c.g.nodes[q].out) == Total(c, q)
  {
    G.NodeAt(c.g, q);
  }

  /** A part's slice lies in its own Concat's buffer and starts before the buffer's end. */
  lemma SliceInBuffer(c: Ctx, q: nat, end: nat, i: nat)
    requires G.GraphOk(c.g) && IsConcat(c, q) && Buffer(c, q, end) && i < |c.g.nodes[q].ins|
    ensures var t := c.g.nodes[q].ins[i];
            Base(c, q) <= Pin(c, t) && Pin(c, t) + Pad16(Len(c, t)) <= Base(c, q) + Room(Total(c, q)) <= end
              && Pin(c, t) < Base(c, q) + Room(Total(c, q))
            && t in c.pins && Pin(c, t) % 16 == 0 && Sourced(c, t) && Len(c, t) > 0
  {
    hide G.GraphOk;
    var t := c.g.nodes[q].ins[i];
    PartLens(c, q);
    SliceEnds(c, q, end, i);
    assert Slice(c, Base(c, q), c.g.nodes[q].ins, i);
  }

  /** Where a part is pinned. */
  lemma PartPlace(c: Ctx, t: string) returns (q: nat, i: nat)
    requires G.IsPart(c.g, t)
    ensures IsConcat(c, q) && i < |c.g.nodes[q].ins| && c.g.nodes[q].ins[i] == t
  {
    q :| 0 <= q < |c.g.nodes| && G.PartOf(c.g, t, q);
    i :| 0 <= i < |c.g.nodes[q].ins| && c.g.nodes[q].ins[i] == t;
  }

  lemma BufferOf(c: Ctx, end: nat, q: nat)
    requires PinnedUpTo(c, |c.g.nodes|, end) && IsConcat(c, q)
    ensures Buffer(c, q, end)
  {
    hide Buffer, Room;
  }

  lemma BuffersOrdered(c: Ctx, end: nat, q: nat, r: nat)
    requires PinnedUpTo(c, |c.g.nodes|, end) && IsConcat(c, q) && IsConcat(c, r)
    ensures q < r ==> Base(c, q) + Room(Total(c, q)) <= Base(c, r)
  {
    hide Buffer, Room;
  }

  lemma SlicesApart(c: Ctx, end: nat, t: string, u: string)
    requires G.GraphOk(c.g) && PinnedUpTo(c, |c.g.nodes|, end) && G.IsPart(c.g, t) && G.IsPart(c.g, u) && t != u
    ensures Apart(Pin(c, t), Pad16(Len(c, t)), Pin(c, u), Pad16(Len(c, u)))
  {
    hide G.GraphOk, PinnedUpTo, Buffer, Room, G.IsPart, Sourced;
    var q, i := PartPlace(c, t);
    var r, j := PartPlace(c, u);
    BufferOf(c, end, q);
    BufferOf(c, end, r);
    SliceInBuffer(c, q, end, i);
    SliceInBuffer(c, r, end, j);
    SliceEnds(c, q, end, i);
    SliceEnds(c, r, end, j);
    BuffersOrdered(c, end, q, r);
    BuffersOrdered(c, end, r, q);
  }

  lemma PartIsPinned(c: Ctx, t: string)
    requires G.GraphOk(c.g) && PinnedUpTo(c, |c.g.nodes|, c.slotStart) && G.IsPart(c.g, t)
    ensures PartPinned(c, t)
  {
    hide G.GraphOk, PinnedUpTo, Buffer, Room, G.IsPart, Sourced, Pad16;
    var q, i := PartPlace(c, t);
    BufferOf(c, c.slotStart, q);
    SliceInBuffer(c, q, c.slotStart, i);
  }

  lemma ConcatIsPinned(c: Ctx, q: nat)
    requires G.GraphOk(c.g) && PinnedUpTo(c, |c.g.nodes|, c.slotStart) && IsConcat(c, q)
    ensures ConcatPinned(c, q)
  {
    hide G.GraphOk, PinnedUpTo, Sourced, Pad16;
    BufferOf(c, c.slotStart, q);
    PartLens(c, q);
    forall i | 0 <= i < |c.g.nodes[q].ins|
      ensures Pin(c, c.g.nodes[q].ins[i]) == Base(c, q) + G.SumLens(c.g.lens, c.g.nodes[q].ins[..i])
    {
      assert Slice(c, Base(c, q), c.g.nodes[q].ins, i);
    }
  }

  lemma OffBase(c: Ctx, end: nat, q: nat, t: string)
    requires G.GraphOk(c.g) && PinnedUpTo(c, |c.g.nodes|, end) && IsConcat(c, q) && G.IsPart(c.g, t)
             && t !in c.g.nodes[q].ins
    ensures Pin(c, t) != Base(c, q)
  {
    hide G.GraphOk, PinnedUpTo, Buffer, G.IsPart, Sourced, Pad16;
    var r, i := PartPlace(c, t);
    BufferOf(c, end, r);
    SliceInBuffer(c, r, end, i);
    BuffersOrdered(c, end, q, r);
    BuffersOrdered(c, end, r, q);
  }

  lemma BasesApart(c: Ctx, end: nat, q: nat, r: nat)
    requires PinnedUpTo(c, |c.g.nodes|, end) && IsConcat(c, q) && IsConcat(c, r) && q != r
    ensures Base(c, q) != Base(c, r)
  {
    hide PinnedUpTo, Pad16;
    BuffersOrdered(c, end, q, r);
    BuffersOrdered(c, end, r, q);
  }

  lemma OnlyParts(c: Ctx, end: nat, t: string)
    requires PinnedUpTo(c, |c.g.nodes|, end) && t in c.pins
    ensures G.IsPart(c.g, t) || exists q :: 0 <= q < |c.g.nodes| && IsConcat(c, q) && c.g.nodes[q].out == t
  {
    hide Buffer, Room;
    var q: nat :| q < |c.g.nodes| && PinnedBy(c, t, q);
    if t != c.g.nodes[q].out {
      assert G.PartOf(c.g, t, q);
    }
  }

  /** The pinning loop's result is what the walk relies on. */
  lemma PinsDone(c: Ctx)
    requires G.GraphOk(c.g) && PinnedUpTo(c, |c.g.nodes|, c.slotStart)
    ensures PinsOk(c)
  {
    hide G.GraphOk, PinnedUpTo, G.IsPart, PartPinned, ConcatPinned, Apart, Pad16;
    forall t | G.IsPart(c.g, t)
      ensures PartPinned(c, t)
    {
      PartIsPinned(c, t);
    }
    forall t, u | G.IsPart(c.g, t) && G.IsPart(c.g, u) && t != u
      ensures Apart(Pin(c, t), Pad16(Len(c, t)), Pin(c, u), Pad16(Len(c, u)))
    {
      SlicesApart(c, c.slotStart, t, u);
    }
    forall q: nat | IsConcat(c, q)
      ensures ConcatPinned(c, q)
    {
      ConcatIsPinned(c, q);
    }
    forall q: nat, t | IsConcat(c, q) && G.IsPart(c.g, t) && t !in c.g.nodes[q].ins
      ensures Pin(c, t) != Pin(c, c.g.nodes[q].out)
    {
      OffBase(c, c.slotStart, q, t);
    }
    forall q: nat, r: nat | IsConcat(c, q) && IsConcat(c, r) && q != r
      ensures Pin(c, c.g.nodes[q].out) != Pin(c, c.g.nodes[r].out)
    {
      BasesApart(c, c.slotStart, q, r);
    }
    forall t | t in c.pins
      ensures G.IsPart(c.g, t) || exists q :: 0 <= q < |c.g.nodes| && IsConcat(c, q) && c.g.nodes[q].out == t
    {
      OnlyParts(c, c.slotStart, t);
    }
  }
}
