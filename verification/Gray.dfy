/** Reflected binary codes of any width, as the clock-crossing FIFO forms and compares them. */
module Gray {
  import opened Bytes

  function Bit(n: nat, k: nat): bool {
    n / Pow2(k) % 2 == 1
  }

  /** `n ^ (n >> 1)` on w bits, least significant first. */
  function Code(n: nat, w: nat): (g: seq<bool>)
    ensures |g| == w
  {
    seq(w, k requires 0 <= k < w => Bit(n, k) != Bit(n, k + 1))
  }

  lemma BitShift(n: nat, k: nat)
    ensures Bit(n, k + 1) == Bit(n / 2, k)
  {
    var p := Pow2(k);
    var q, r := n / 2 / p, n / 2 % p;
    assert n / 2 == q * p + r && n == 2 * (n / 2) + n % 2;
    assert n == q * (2 * p) + (2 * r + n % 2);
    DivModUnique(n, 2 * p, q, 2 * r + n % 2);
  }

  /** The code splits into its lowest bit and the code of the half. */
  lemma CodeSplit(n: nat, w: nat)
    requires w > 0
    ensures Code(n, w) == [(n % 2 == 1) != (n / 2 % 2 == 1)] + Code(n / 2, w - 1)
  {
    hide Bit;
    var rhs := [(n % 2 == 1) != (n / 2 % 2 == 1)] + Code(n / 2, w - 1);
    forall k | 0 <= k < w
      ensures Code(n, w)[k] == rhs[k]
    {
      BitShift(n, k);
      if k > 0 {
        BitShift(n, k - 1);
      } else {
        LowBits(n);
      }
    }
  }

  lemma LowBits(n: nat)
    ensures Bit(n, 0) == (n % 2 == 1) && Bit(n / 2, 0) == (n / 2 % 2 == 1)
  {
  }

  /** Two pointers with the same code are the same pointer. */
  lemma {:induction false} CodeInjective(m: nat, n: nat, w: nat)
    requires m < Pow2(w) && n < Pow2(w) && Code(m, w) == Code(n, w)
    ensures m == n
  {
    hide Code;
    if w > 0 {
      CodeSplit(m, w);
      CodeSplit(n, w);
      assert Code(m, w)[1..] == Code(m / 2, w - 1) && Code(n, w)[1..] == Code(n / 2, w - 1);
      assert Code(m, w)[0] == Code(n, w)[0];
      CodeInjective(m / 2, n / 2, w - 1);
    }
  }

  /** A word caught while it changes: every bit is the old one or the new one. */
  function Mix(was: seq<bool>, now: seq<bool>, pick: seq<bool>): (m: seq<bool>)
    requires |was| == |now| == |pick|
    ensures |m| == |was|
  {
    seq(|was|, k requires 0 <= k < |was| => if pick[k] then now[k] else was[k])
  }

  function Wrap(n: nat, w: nat): (r: nat)
    ensures r < Pow2(w)
  {
    n % Pow2(w)
  }

  lemma DoubleRest(h: nat, b: nat, p: nat)
    requires p > 0 && b < 2
    ensures (2 * h + b) % (2 * p) == 2 * (h % p) + b
  {
    var q, r := h / p, h % p;
    assert h == q * p + r;
    assert q * (2 * p) == 2 * (q * p);
    DivModUnique(2 * h + b, 2 * p, q, 2 * r + b);
  }

  lemma WrapHalf(n: nat, w: nat)
    requires w > 0
    ensures Wrap(n, w) / 2 == Wrap(n / 2, w - 1) && Wrap(n, w) % 2 == n % 2
  {
    DoubleRest(n / 2, n % 2, Pow2(w - 1));
    assert n == 2 * (n / 2) + n % 2;
  }

  lemma WrapSmall(n: nat, w: nat)
    requires n < Pow2(w)
    ensures Wrap(n, w) == n
  {
    DivModUnique(n, Pow2(w), 0, n);
  }

  lemma HalfBound(n: nat, w: nat)
    requires w > 0 && n < Pow2(w)
    ensures n / 2 < Pow2(w - 1)
  {
  }

  /** Counting up changes the lowest code bit of an even pointer and only bits above it of an odd one. */
  lemma CodeNext(n: nat, w: nat)
    requires w > 1 && n < Pow2(w)
    ensures n / 2 < Pow2(w - 1)
    ensures var was, now := Code(n, w), Code(Wrap(n + 1, w), w);
            if n % 2 == 0 then now[1..] == was[1..]
            else now[0] == was[0] && was[1..] == Code(n / 2, w - 1) && now[1..] == Code(Wrap(n / 2 + 1, w - 1), w - 1)
  {
    hide Code, Wrap, Pow2;
    HalfBound(n, w);
    WrapHalf(n + 1, w);
    CodeSplit(n, w);
    CodeSplit(Wrap(n + 1, w), w);
    if n % 2 == 0 {
      WrapSmall(n / 2, w - 1);
    } else {
      WrapHalf(n / 2 + 1, w - 1);
    }
  }

  /** Neighbouring pointers differ in one code bit, so a pointer caught in transition reads as the old or the new
      one. */
  lemma {:induction false} MixIsEither(n: nat, w: nat, pick: seq<bool>)
    requires n < Pow2(w) && |pick| == w
    ensures var was, now := Code(n, w), Code(Wrap(n + 1, w), w);
            Mix(was, now, pick) == was || Mix(was, now, pick) == now
  {
    hide Code, Wrap, Pow2;
    if w > 0 {
      var was, now := Code(n, w), Code(Wrap(n + 1, w), w);
      if w > 1 {
        CodeNext(n, w);
        if n % 2 == 1 {
          MixIsEither(n / 2, w - 1, pick[1..]);
        }
      }
      MixSplit(was, now, pick);
      MixHeadTail(was, now, pick);
    }
  }

  /** If only the head differs, or the tail of the mix is one of the two tails, the mix is one of the two words. */
  lemma MixHeadTail(was: seq<bool>, now: seq<bool>, pick: seq<bool>)
    requires |was| == |now| == |pick| > 0
    requires was[1..] == now[1..] ||
             (was[0] == now[0] && (Mix(was[1..], now[1..], pick[1..]) == was[1..]
               || Mix(was[1..], now[1..], pick[1..]) == now[1..]))
    ensures Mix(was, now, pick) == was || Mix(was, now, pick) == now
  {
    MixSplit(was, now, pick);
    assert was == [was[0]] + was[1..] && now == [now[0]] + now[1..];
    if was[1..] == now[1..] {
      MixSame(was[1..], pick[1..]);
    }
  }

  lemma MixSplit(was: seq<bool>, now: seq<bool>, pick: seq<bool>)
    requires |was| == |now| == |pick| > 0
    ensures Mix(was, now, pick) == [if pick[0] then now[0] else was[0]] + Mix(was[1..], now[1..], pick[1..])
  {
  }

  lemma MixSame(g: seq<bool>, pick: seq<bool>)
    requires |g| == |pick|
    ensures Mix(g, g, pick) == g
  {
  }

  /** The full comparison: the two top bits inverted, the rest equal. */
  predicate LooksFull(a: seq<bool>, b: seq<bool>)
    requires |a| == |b| >= 2
  {
    var w := |a|;
    a[w - 2] != b[w - 2] && a[w - 1] != b[w - 1] && a[..w - 2] == b[..w - 2]
  }

  function FlipTop(g: seq<bool>): (f: seq<bool>)
    requires |g| >= 2
    ensures |f| == |g|
  {
    g[|g| - 2 := !g[|g| - 2]][|g| - 1 := !g[|g| - 1]]
  }

  lemma LooksFullIs(a: seq<bool>, b: seq<bool>)
    requires |a| == |b| >= 2
    ensures LooksFull(a, b) <==> a == FlipTop(b)
  {
    var w := |a|;
    if LooksFull(a, b) {
      forall k | 0 <= k < w - 2
        ensures a[k] == b[k]
      {
        assert a[..w - 2][k] == b[..w - 2][k];
      }
    }
  }

  /** Adding half the range keeps the lowest bit and adds half the range to the half. */
  lemma HalfHalf(n: nat, w: nat)
    requires w >= 3 && n < Pow2(w)
    ensures n / 2 < Pow2(w - 1)
    ensures var m := Wrap(n + Pow2(w - 1), w);
            m % 2 == n % 2 && m / 2 == Wrap(n / 2 + Pow2(w - 2), w - 1) && m / 2 % 2 == n / 2 % 2
  {
    hide Wrap, Pow2;
    HalfBound(n, w);
    PowNext(w - 2);
    PowNext(w - 3);
    WrapHalf(n + Pow2(w - 1), w);
    AddTwice(n, Pow2(w - 2));
    WrapHalf(n / 2 + Pow2(w - 2), w - 1);
    AddTwice(n / 2, Pow2(w - 3));
  }

  lemma PowNext(k: nat)
    ensures Pow2(k + 1) == 2 * Pow2(k)
  {
  }

  lemma AddTwice(n: nat, h: nat)
    ensures (n + 2 * h) / 2 == n / 2 + h && (n + 2 * h) % 2 == n % 2
  {
  }

  /** Adding half the range flips exactly the two top code bits. */
  lemma {:induction false} HalfFlips(n: nat, w: nat)
    requires w >= 2 && n < Pow2(w)
    ensures Code(Wrap(n + Pow2(w - 1), w), w) == FlipTop(Code(n, w))
  {
    hide Code, Wrap, Pow2, FlipTop;
    if w == 2 {
      assert Pow2(2) == 4 by { PowTwo(); }
      HalfOfFour(n);
    } else {
      HalfHalf(n, w);
      CodeSplit(n, w);
      CodeSplit(Wrap(n + Pow2(w - 1), w), w);
      HalfFlips(n / 2, w - 1);
      FlipTail(Code(n, w));
      assert Code(n, w)[1..] == Code(n / 2, w - 1);
    }
  }

  lemma PowTwo()
    ensures Pow2(1) == 2 && Pow2(2) == 4
  {
  }

  lemma FlipTail(g: seq<bool>)
    requires |g| >= 3
    ensures FlipTop(g) == [g[0]] + FlipTop(g[1..])
  {
  }

  lemma HalfOfFour(n: nat)
    requires n < 4
    ensures Code(Wrap(n + Pow2(1), 2), 2) == FlipTop(Code(n, 2))
  {
    hide Code;
    var m := Wrap(n + 2, 2);
    CodeSplit(n, 2);
    CodeSplit(m, 2);
    CodeSplit(n / 2, 1);
    CodeSplit(m / 2, 1);
  }

  /** The gray-coded full test is the binary difference of half the pointer range. */
  lemma FullIsHalf(a: nat, b: nat, w: nat)
    requires w >= 2 && a < Pow2(w) && b < Pow2(w)
    ensures LooksFull(Code(a, w), Code(b, w)) <==> a == Wrap(b + Pow2(w - 1), w)
  {
    hide Code, FlipTop, LooksFull;
    LooksFullIs(Code(a, w), Code(b, w));
    HalfFlips(b, w);
    if Code(a, w) == Code(Wrap(b + Pow2(w - 1), w), w) {
      CodeInjective(a, Wrap(b + Pow2(w - 1), w), w);
    }
  }
}
