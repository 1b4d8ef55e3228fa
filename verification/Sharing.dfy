/** `pinned_addr` holds one address per tensor: when that is enough to lay out every Concat. */
module Sharing {
  import opened Bytes
  import opened NodeSteps
  import G = Graph

  predicate ConcatAt(g: G.Graph, q: nat) {
    q < |g.nodes| && g.nodes[q].ConcatNode?
  }

  /** Bytes before part i. */
  function Before(g: G.Graph, ins: seq<string>, i: nat): nat
    requires i <= |ins|
  {
    G.SumLens(g.lens, ins[..i])
  }

  /** The pins after the first i parts of one Concat. */
  function PartPins(g: G.Graph, pins: map<string, nat>, ins: seq<string>, i: nat, base: nat): map<string, nat>
    requires i <= |ins|
  {
    if i == 0 then pins else PartPins(g, pins, ins, i - 1, base)[ins[i - 1] := base + Before(g, ins, i - 1)]
  }

  /** The allocator and the pins after the first k nodes. */
  function PinsAfter(g: G.Graph, k: nat): (nat, map<string, nat>)
    requires k <= |g.nodes|
  {
    if k == 0 then (0, map[])
    else
      var (base, pins) := PinsAfter(g, k - 1);
      var n := g.nodes[k - 1];
      if n.ConcatNode? then (Next(base, Pad16(G.SumLens(g.lens, n.ins))),
        PartPins(g, pins, n.ins, |n.ins|, base)[n.out := base]) else (base, pins)
  }

  function BaseOf(g: G.Graph, q: nat): nat
    requires q < |g.nodes|
  {
    PinsAfter(g, q).0
  }

  /** Where part i of Concat q has to lie. */
  function Place(g: G.Graph, q: nat, i: nat): nat
    requires ConcatAt(g, q) && i < |g.nodes[q].ins|
  {
    BaseOf(g, q) + Before(g, g.nodes[q].ins, i)
  }

  /** Every part of every Concat is pinned where its Concat needs it. */
  ghost predicate AllTiled(g: G.Graph) {
    forall q: nat, i: nat :: ConcatAt(g, q) && i < |g.nodes[q].ins| ==>
      g.nodes[q].ins[i] in PinsAfter(g, |g.nodes|).1 && PinsAfter(g, |g.nodes|).1[g.nodes[q].ins[i]] == Place(g, q, i)
  }

  /** Two different places of Concats name the same tensor. */
  ghost predicate SharedAt(g: G.Graph, q: nat, i: nat, r: nat, j: nat) {
    ConcatAt(g, q) && ConcatAt(g, r) && i < |g.nodes[q].ins| && j < |g.nodes[r].ins| && (q < r || (q == r && i < j))
      && g.nodes[q].ins[i] == g.nodes[r].ins[j]
  }

  /** Parts have bytes, and no Concat's output is a part. */
  ghost predicate Regular(g: G.Graph) {
    && (forall q: nat, i: nat :: ConcatAt(g, q) && i < |g.nodes[q].ins| ==>
        g.nodes[q].ins[i] in g.lens
        && g.lens[g.nodes[q].ins[i]] > 0)
    && (forall q: nat, i: nat, r: nat :: ConcatAt(g, q) && ConcatAt(g, r) && i < |g.nodes[q].ins|
          ==> g.nodes[q].ins[i] != g.nodes[r].out)
  }

  lemma BeforeNext(g: G.Graph, ins: seq<string>, i: nat)
    requires i < |ins|
    ensures Before(g, ins, i + 1) == Before(g, ins, i) + if ins[i] in g.lens then g.lens[ins[i]] else 0
  {
    assert ins[..i + 1][..i] == ins[..i] && ins[..i + 1][i] == ins[i];
  }

  lemma {:induction false} BeforeGrows(g: G.Graph, ins: seq<string>, i: nat, j: nat)
    requires i < j <= |ins| && ins[i] in g.lens && g.lens[ins[i]] > 0
    ensures Before(g, ins, i) < Before(g, ins, j)
  {
    BeforeNext(g, ins, j - 1);
    if i < j - 1 {
      BeforeGrows(g, ins, i, j - 1);
    }
  }

  lemma {:induction false} BaseGrows(g: G.Graph, k: nat, m: nat)
    requires k <= m <= |g.nodes|
    ensures PinsAfter(g, k).0 <= PinsAfter(g, m).0
    decreases m
  {
    if k < m {
      BaseGrows(g, k, m - 1);
    }
  }

  /** A part of an earlier place lies before any later place. */
  lemma EarlierLower(g: G.Graph, q: nat, i: nat, r: nat, j: nat)
    requires Regular(g) && SharedAt(g, q, i, r, j)
    ensures Place(g, q, i) < Place(g, r, j)
  {
    hide PinsAfter, Next;
    var ins := g.nodes[q].ins;
    if q < r {
      BeforeGrows(g, ins, i, |ins|);
      assert ins[..|ins|] == ins;
      BaseGrows(g, q + 1, r);
      BaseNext(g, q);
    } else {
      BeforeGrows(g, ins, i, j);
    }
  }

  lemma BaseNext(g: G.Graph, q: nat)
    requires ConcatAt(g, q)
    ensures BaseOf(g, q) + G.SumLens(g.lens, g.nodes[q].ins) <= PinsAfter(g, q + 1).0
  {
  }

  /** Pinning parts touches nothing but the parts; each lands where its last place is, above all others. */
  lemma {:induction false} PartPinsAt(g: G.Graph, pins: map<string, nat>, ins: seq<string>, n: nat, base: nat,
          t: string)
    requires n <= |ins| && forall i :: 0 <= i < n ==> ins[i] in g.lens && g.lens[ins[i]] > 0
    ensures var m := PartPins(g, pins, ins, n, base);
            && (t in pins ==> t in m)
            && ((forall i :: 0 <= i < n ==> ins[i] != t) ==> (t in m <==> t in pins) && (t in pins ==> m[t] == pins[t]))
            && (forall i :: 0 <= i < n && ins[i] == t ==> t in m && m[t] >= base + Before(g, ins, i))
            && (forall i :: 0 <= i < n && ins[i] == t && (forall j :: i < j < n ==> ins[j] != t)
                  ==> m[t] == base + Before(g, ins, i))
  {
    hide Before;
    if n > 0 {
      PartPinsAt(g, pins, ins, n - 1, base, t);
      EarlierBefore(g, ins, n - 1);
    }
  }

  lemma EarlierBefore(g: G.Graph, ins: seq<string>, n: nat)
    requires n < |ins| && forall i :: 0 <= i < n ==> ins[i] in g.lens && g.lens[ins[i]] > 0
    ensures forall i :: 0 <= i < n ==> Before(g, ins, i) < Before(g, ins, n)
  {
    hide Before;
    forall i | 0 <= i < n
      ensures Before(g, ins, i) < Before(g, ins, n)
    {
      BeforeGrows(g, ins, i, n);
    }
  }

  /** A tensor's pin is never below a place that has been pinned. */
  lemma {:induction false} PinAtLeast(g: G.Graph, k: nat, q: nat, i: nat)
    requires Regular(g) && ConcatAt(g, q) && q < k <= |g.nodes| && i < |g.nodes[q].ins|
    ensures var t := g.nodes[q].ins[i]; t in PinsAfter(g, k).1 && PinsAfter(g, k).1[t] >= Place(g, q, i)
  {
    hide PartPins, Next, Before;
    var t := g.nodes[q].ins[i];
    if g.nodes[k - 1].ConcatNode? {
      var ins, base, pins := g.nodes[k - 1].ins, PinsAfter(g, k - 1).0, PinsAfter(g, k - 1).1;
      assert ConcatAt(g, k - 1);
      PartPinsAt(g, pins, ins, |ins|, base, t);
      if q < k - 1 {
        PinAtLeast(g, k - 1, q, i);
        if j :| 0 <= j < |ins| && ins[j] == t {
          assert SharedAt(g, q, i, k - 1, j);
          EarlierLower(g, q, i, k - 1, j);
        }
      }
    } else {
      PinAtLeast(g, k - 1, q, i);
    }
  }

  /** A tensor with a single place keeps its pin there. */
  lemma {:induction false} PinExact(g: G.Graph, k: nat, q: nat, i: nat)
    requires Regular(g) && ConcatAt(g, q) && q < k <= |g.nodes| && i < |g.nodes[q].ins|
    requires forall r: nat, j: nat :: !SharedAt(g, q, i, r, j)
    ensures var t := g.nodes[q].ins[i]; t in PinsAfter(g, k).1 && PinsAfter(g, k).1[t] == Place(g, q, i)
  {
    hide PartPins, Next, Before;
    var t := g.nodes[q].ins[i];
    if g.nodes[k - 1].ConcatNode? {
      var ins, base, pins := g.nodes[k - 1].ins, PinsAfter(g, k - 1).0, PinsAfter(g, k - 1).1;
      assert ConcatAt(g, k - 1);
      PartPinsAt(g, pins, ins, |ins|, base, t);
      if q < k - 1 {
        PinExact(g, k - 1, q, i);
        forall j | 0 <= j < |ins|
          ensures ins[j] != t
        {
          assert !SharedAt(g, q, i, k - 1, j);
        }
      } else {
        forall j | i < j < |ins|
          ensures ins[j] != t
        {
          assert !SharedAt(g, q, i, q, j);
        }
      }
    } else {
      PinExact(g, k - 1, q, i);
    }
  }

  /** One address per tensor lays out every Concat exactly when no tensor is a part at two places. */
  lemma TiledIffUnshared(g: G.Graph)
    requires Regular(g)
    ensures AllTiled(g) <==> forall q: nat, i: nat, r: nat, j: nat :: !SharedAt(g, q, i, r, j)
  {
    hide PinsAfter, Place, Regular;
    if q: nat, i: nat, r: nat, j: nat :| SharedAt(g, q, i, r, j) {
      EarlierLower(g, q, i, r, j);
      PinAtLeast(g, |g.nodes|, r, j);
    } else {
      forall q: nat, i: nat | ConcatAt(g, q) && i < |g.nodes[q].ins|
        ensures g.nodes[q].ins[i] in PinsAfter(g, |g.nodes|).1
                && PinsAfter(g, |g.nodes|).1[g.nodes[q].ins[i]] == Place(g, q, i)
      {
        PinExact(g, |g.nodes|, q, i);
      }
    }
  }
}
