/** cost_model.py, `link_crossover_bytes_per_s`: the bandwidth above which pooled weights are said to beat the FPGA, and
    for which links that is true. */
module Crossover {
  import opened Bytes
  import opened CostModel

  /** None, infinity, or a bandwidth in bytes per second. */
  datatype Verdict = PoolAlways | FpgaAlways | Above(bandwidth: real)

  function LinkCrossover(hw: Hw, layer: LayerInfo): Verdict
    requires HwOk(hw)
  {
    var w := layer.weightBytes;
    if w == 0 then PoolAlways
    else
      var tGpu, tFpga := GpuComputeMs(hw, layer) / 1000.0, (FpgaComputeMs(hw, layer) + NmcDispatchMs(hw)) / 1000.0;
      var msgs, rtt := FaultMessages(hw, w), hw.linkRttMs / 1000.0;
      if hw.fpgaWeightsResident then
        var denom := tFpga - tGpu - Times(msgs, rtt);
        if denom <= 0.0 then FpgaAlways else Above(w as real / denom)
      else if Times(ChunkMessages(hw, w), rtt) + tFpga < Times(msgs, rtt) + tGpu then FpgaAlways else PoolAlways
  }

  /** The same hardware behind a link of bandwidth b. */
  function At(hw: Hw, b: real): (hw': Hw)
    requires HwOk(hw) && b > 0.0
    ensures HwOk(hw')
  {
    hw.(linkBwBytesPerS := b)
  }

  predicate PoolBeats(hw: Hw, layer: LayerInfo, b: real)
    requires HwOk(hw) && b > 0.0
  {
    PlacementCostMs(At(hw, b), layer, Pool) < PlacementCostMs(At(hw, b), layer, Fpga)
  }

  predicate FpgaBeats(hw: Hw, layer: LayerInfo, b: real)
    requires HwOk(hw) && b > 0.0
  {
    PlacementCostMs(At(hw, b), layer, Fpga) < PlacementCostMs(At(hw, b), layer, Pool)
  }

  /** What the FPGA takes longer than the pool, in milliseconds, apart from what grows with the bytes sent. */
  function Lead(hw: Hw, layer: LayerInfo): real
    requires HwOk(hw)
  {
    var w := layer.weightBytes;
    FpgaComputeMs(hw, layer) + hw.linkRttMs - GpuComputeMs(hw, layer) - Times(FaultMessages(hw, w), hw.linkRttMs)
    + if hw.fpgaWeightsResident then 0.0 else Times(ChunkMessages(hw, w), hw.linkRttMs)
  }

  /** Bytes the pool sends more than the FPGA, as a real. */
  function MoreBytes(hw: Hw, layer: LayerInfo): real {
    (if hw.fpgaWeightsResident then layer.weightBytes as real else 0.0) - hw.dispatchMsgBytes as real
  }

  /** Behind a link of bandwidth b the difference is the lead less the time of the bytes. */
  lemma Difference(hw: Hw, layer: LayerInfo, b: real)
    requires HwOk(hw) && b > 0.0 && layer.weightBytes > 0
    ensures (PlacementCostMs(At(hw, b), layer, Fpga) - PlacementCostMs(At(hw, b), layer, Pool)) * b
            == Lead(hw, layer) * b - MoreBytes(hw, layer) * 1000.0
  {
    hide GpuComputeMs, FpgaComputeMs, Times, FaultMessages, ChunkMessages, Quotient;
    var at, w := At(hw, b), layer.weightBytes;
    SameUnits(hw, layer, b);
    QuotientBy(w as real, b);
    QuotientBy(hw.dispatchMsgBytes as real, b);
    OneTimes(hw.linkRttMs);
  }

  lemma SameUnits(hw: Hw, layer: LayerInfo, b: real)
    requires HwOk(hw) && b > 0.0
    ensures var at, w := At(hw, b), layer.weightBytes;
            && GpuComputeMs(at, layer) == GpuComputeMs(hw, layer)
            && FpgaComputeMs(at, layer) == FpgaComputeMs(hw, layer)
            && FaultMessages(at, w) == FaultMessages(hw, w) && ChunkMessages(at, w) == ChunkMessages(hw, w)
  {
  }

  lemma QuotientBy(a: real, b: real)
    requires a >= 0.0 && b > 0.0
    ensures Quotient(a, b) * b == a
  {
  }

  lemma OneTimes(x: real)
    requires x >= 0.0
    ensures Times(1, x) == x
  {
  }

  lemma Compare(hw: Hw, layer: LayerInfo, b: real)
    requires HwOk(hw) && b > 0.0 && layer.weightBytes > 0
    ensures PoolBeats(hw, layer, b) <==> MoreBytes(hw, layer) * 1000.0 < Lead(hw, layer) * b
    ensures FpgaBeats(hw, layer, b) <==> Lead(hw, layer) * b < MoreBytes(hw, layer) * 1000.0
  {
    hide PlacementCostMs, Lead, MoreBytes;
    Difference(hw, layer, b);
    SignKept(PlacementCostMs(At(hw, b), layer, Fpga) - PlacementCostMs(At(hw, b), layer, Pool), b);
  }

  lemma SignKept(x: real, b: real)
    requires b > 0.0
    ensures x * b > 0.0 <==> x > 0.0
    ensures x * b < 0.0 <==> x < 0.0
  {
  }

  /** The verdict in terms of the lead. */
  lemma VerdictIs(hw: Hw, layer: LayerInfo)
    requires HwOk(hw) && layer.weightBytes > 0
    ensures var b, w, d, v := hw.linkBwBytesPerS, layer.weightBytes as real, hw.dispatchMsgBytes as real,
                LinkCrossover(hw, layer);
            var s := Lead(hw, layer) * b + d * 1000.0;
            if hw.fpgaWeightsResident
            then (s <= 0.0 ==> v.FpgaAlways?)
              && (s > 0.0 ==> v.Above? && v.bandwidth > 0.0 && v.bandwidth * s == w * 1000.0 * b)
            else v == if s < 0.0 then FpgaAlways else PoolAlways
  {
    hide GpuComputeMs, FpgaComputeMs, FaultMessages, ChunkMessages, Quotient, Times;
    var b, w, d := hw.linkBwBytesPerS, layer.weightBytes as real, hw.dispatchMsgBytes as real;
    QuotientBy(d, b);
    OneTimes(hw.linkRttMs);
    TimesThousandth(FaultMessages(hw, layer.weightBytes), hw.linkRttMs);
    TimesThousandth(ChunkMessages(hw, layer.weightBytes), hw.linkRttMs);
    var tGpu, tFpga := GpuComputeMs(hw, layer) / 1000.0, (FpgaComputeMs(hw, layer) + NmcDispatchMs(hw)) / 1000.0;
    var m, c := Times(FaultMessages(hw, layer.weightBytes), hw.linkRttMs / 1000.0),
      Times(ChunkMessages(hw, layer.weightBytes), hw.linkRttMs / 1000.0);
    var x := (if hw.fpgaWeightsResident then 0.0 else c) + tFpga - tGpu - m;
    assert x * 1000.0 * b == Lead(hw, layer) * b + d * 1000.0 by {
      assert x * 1000.0 == Lead(hw, layer) + Quotient(d, b) * 1000.0;
      assert Quotient(d, b) * 1000.0 * b == d * 1000.0;
    }
    SignKept(x * 1000.0, b);
    if hw.fpgaWeightsResident && x > 0.0 {
      Divided(w, x, b);
    }
  }

  lemma TimesThousandth(n: nat, x: real)
    requires x >= 0.0
    ensures Times(n, x / 1000.0) * 1000.0 == Times(n, x)
  {
  }

  lemma Divided(w: real, x: real, b: real)
    requires w > 0.0 && x > 0.0
    ensures w / x > 0.0 && w / x * (x * 1000.0 * b) == w * 1000.0 * b
  {
    var c := w / x;
    assert c * x == w;
  }

  /** Behind the link it is computed for, the verdict is exact: with resident weights the pool is strictly cheaper
      exactly when the crossover is below the bandwidth, the FPGA when it is above; with streamed weights the FPGA is
      strictly cheaper exactly when it is said to be always. */
  lemma ExactHere(hw: Hw, layer: LayerInfo)
    requires HwOk(hw) && layer.weightBytes > 0
    ensures var b, v := hw.linkBwBytesPerS, LinkCrossover(hw, layer);
            if hw.fpgaWeightsResident
            then (PoolBeats(hw, layer, b) <==> v.Above? && v.bandwidth < b)
              && (FpgaBeats(hw, layer, b) <==> v.FpgaAlways? || (v.Above? && b < v.bandwidth))
            else FpgaBeats(hw, layer, b) <==> v.FpgaAlways?
  {
    hide LinkCrossover, PoolBeats, FpgaBeats, Lead;
    var b, v := hw.linkBwBytesPerS, LinkCrossover(hw, layer);
    Compare(hw, layer, b);
    VerdictIs(hw, layer);
    var l, w, d := Lead(hw, layer) * b, layer.weightBytes as real, hw.dispatchMsgBytes as real;
    if v.Above? {
      SameSide(v.bandwidth, b, l + d * 1000.0, w * 1000.0);
    }
  }

  /** What times s makes x times b is on the side of b that x is of s. */
  lemma SameSide(c: real, b: real, s: real, x: real)
    requires b > 0.0 && s > 0.0 && c * s == x * b
    ensures (x < s <==> c < b) && (s < x <==> b < c)
  {
    Ordered(c, b, s);
    Ordered(b, c, s);
    Ordered(x, s, b);
    Ordered(s, x, b);
    assert b * s == s * b;
  }

  lemma Ordered(x: real, y: real, s: real)
    requires s > 0.0
    ensures x * s < y * s <==> x < y
  {
  }

  /** What the crossover is meant for: the pool is strictly cheaper behind exactly the links that are faster. */
  ghost predicate Divides(hw: Hw, layer: LayerInfo, c: real)
    requires HwOk(hw)
  {
    forall b :: b > 0.0 ==> (PoolBeats(hw, layer, b) <==> c < b)
  }

  /** Resident weights: a finite crossover divides the links exactly when the layer has more weight bytes than a
      dispatch message and, unless that message is empty, the link is already at the crossover: the time of the dispatch
      is taken at the present bandwidth. */
  lemma DividesIff(hw: Hw, layer: LayerInfo)
    requires HwOk(hw) && layer.weightBytes > 0 && hw.fpgaWeightsResident && LinkCrossover(hw, layer).Above?
    ensures var c := LinkCrossover(hw, layer).bandwidth;
            Divides(hw, layer, c) <==>
            layer.weightBytes > hw.dispatchMsgBytes && (hw.dispatchMsgBytes == 0 || c == hw.linkBwBytesPerS)
  {
    hide LinkCrossover, PoolBeats, FpgaBeats, Lead;
    VerdictIs(hw, layer);
    var c, b0, d, w := LinkCrossover(hw, layer).bandwidth, hw.linkBwBytesPerS, hw.dispatchMsgBytes as real,
      layer.weightBytes as real;
    var l, x := Lead(hw, layer), MoreBytes(hw, layer);
    AtCrossover(c, b0, l, d, w);
    if w > d && (d == 0.0 || c == b0) {
      forall b | b > 0.0
        ensures PoolBeats(hw, layer, b) <==> c < b
      {
        Compare(hw, layer, b);
        Steeper(c, b, l, x * 1000.0);
      }
      assert Divides(hw, layer, c);
    } else {
      var b := Misjudged(c, b0, l, d, w);
      Compare(hw, layer, b);
      NotDivides(hw, layer, c, b);
    }
  }

  lemma NotDivides(hw: Hw, layer: LayerInfo, c: real, b: real)
    requires HwOk(hw) && b > 0.0 && !(PoolBeats(hw, layer, b) <==> c < b)
    ensures !Divides(hw, layer, c)
  {
  }

  /** Behind the crossover itself the difference is the dispatch's, scaled by how far the link is from it. */
  lemma AtCrossover(c: real, b0: real, l: real, d: real, w: real)
    requires c > 0.0 && b0 > 0.0 && d >= 0.0 && c * (l * b0 + d * 1000.0) == w * 1000.0 * b0
    ensures (l * c - (w - d) * 1000.0) * b0 == d * 1000.0 * (b0 - c)
  {
    assert c * (l * b0 + d * 1000.0) == l * c * b0 + c * d * 1000.0;
  }

  /** Through the crossover, a positive lead decides by the bandwidth. */
  lemma Steeper(c: real, b: real, l: real, x: real)
    requires l * c == x && x > 0.0 && c > 0.0
    ensures x < l * b <==> c < b
  {
    assert l > 0.0;
    Ordered(c, b, l);
  }

  /** Otherwise some link is on the wrong side. */
  lemma Misjudged(c: real, b0: real, l: real, d: real, w: real) returns (b: real)
    requires c > 0.0 && b0 > 0.0 && d >= 0.0 && w > 0.0 && l * b0 + d * 1000.0 > 0.0
    requires c * (l * b0 + d * 1000.0) == w * 1000.0 * b0 && !(w > d && (d == 0.0 || c == b0))
    ensures b > 0.0 && !((w - d) * 1000.0 < l * b <==> c < b)
  {
    AtCrossover(c, b0, l, d, w);
    var x := (w - d) * 1000.0;
    SignKept(l * c - x, b0);
    if c < b0 {
      // cheaper already at the crossover
      assert d * 1000.0 * (b0 - c) > 0.0;
      b := c;
      assert x < l * b;
    } else if c > b0 {
      // not yet cheaper just behind it
      assert d * 1000.0 * (b0 - c) < 0.0;
      b := Behind(c, l, x);
    } else {
      // no more bytes by the pool than by the FPGA: a slower link never hurts the pool
      assert d * 1000.0 * (b0 - c) == 0.0;
      assert l * c == x && x <= 0.0;
      b := Reversed(c, l, x);
    }
  }

  lemma Behind(c: real, l: real, x: real) returns (b: real)
    requires c > 0.0 && l * c < x
    ensures b > c && l * b <= x
  {
    if l <= 0.0 {
      b := c + 1.0;
      assert l * b == l * c + l;
    } else {
      b := x / l;
      assert b * l == x;
      Ordered(c, b, l);
    }
  }

  lemma Reversed(c: real, l: real, x: real) returns (b: real)
    requires c > 0.0 && l * c == x <= 0.0
    ensures b > 0.0 && !(x < l * b <==> c < b)
  {
    if l < 0.0 {
      b := c / 2.0;
      assert l * b == l * c / 2.0;
      SignKept(l, c);
    } else {
      SignKept(l, c);
      b := c + 1.0;
    }
  }

  /** Even so it errs only towards the present link: above it, no link up to the crossover makes the pool cheaper; below
      it, every faster one does. */
  lemma SideIsRight(hw: Hw, layer: LayerInfo, b: real)
    requires HwOk(hw) && layer.weightBytes > hw.dispatchMsgBytes && hw.fpgaWeightsResident && b > 0.0
    requires LinkCrossover(hw, layer).Above?
    ensures var c := LinkCrossover(hw, layer).bandwidth;
            && (c >= hw.linkBwBytesPerS && b <= c ==> !PoolBeats(hw, layer, b))
            && (c <= hw.linkBwBytesPerS && b > c ==> PoolBeats(hw, layer, b))
  {
    hide LinkCrossover, PoolBeats, FpgaBeats, Lead;
    VerdictIs(hw, layer);
    Compare(hw, layer, b);
    var c, b0, d, w := LinkCrossover(hw, layer).bandwidth, hw.linkBwBytesPerS, hw.dispatchMsgBytes as real,
      layer.weightBytes as real;
    var l, x := Lead(hw, layer), (w - d) * 1000.0;
    AtCrossover(c, b0, l, d, w);
    SignKept(l * c - x, b0);
    if c >= b0 && b <= c {
      assert d * 1000.0 * (b0 - c) <= 0.0;
      Before(b, c, l, x);
    }
    if c <= b0 && b > c {
      assert d * 1000.0 * (b0 - c) >= 0.0;
      Beyond(b, c, l, x);
    }
  }

  lemma Before(b: real, c: real, l: real, x: real)
    requires 0.0 < b <= c && l * c <= x && x > 0.0
    ensures l * b <= x
  {
    if l > 0.0 {
      Ordered(c, b, l);
    } else {
      assert l * b <= 0.0;
    }
  }

  lemma Beyond(b: real, c: real, l: real, x: real)
    requires 0.0 < c < b && l * c >= x && x > 0.0
    ensures l * b > x
  {
    SignKept(l, c);
    Ordered(c, b, l);
  }

  // ----- verdicts without a bandwidth -----

  /** A lead that b makes good against d. */
  predicate Wins(l: real, d: real, b: real) {
    l * b + d < 0.0
  }

  lemma WinsIs(l: real, d: real, b: real)
    ensures Wins(l, d, b) <==> l * b + d < 0.0
  {
  }

  /** Once won, won on every faster link; once lost, lost on every slower one. */
  lemma WinsOn(l: real, d: real, b: real, c: real)
    requires d >= 0.0 && 0.0 < b <= c
    ensures Wins(l, d, b) ==> Wins(l, d, c)
  {
    if Wins(l, d, b) {
      SignKept(l, b);
      Ordered(b, c, -l);
    }
  }

  lemma NeverWins(l: real, d: real, b: real)
    requires l >= 0.0 && d >= 0.0 && b > 0.0
    ensures !Wins(l, d, b)
  {
    assert l * b >= 0.0;
  }

  /** With nothing to make good the sign decides. */
  lemma WinsEven(l: real, b: real, c: real)
    requires b > 0.0 && c > 0.0
    ensures Wins(l, 0.0, b) <==> Wins(l, 0.0, c)
  {
    SignKept(l, b);
    SignKept(l, c);
  }

  lemma LosesSomewhere(l: real, d: real) returns (b: real)
    requires l < 0.0 && d > 0.0
    ensures b > 0.0 && !Wins(l, d, b)
  {
    b := d / -l;
    assert b * -l == d;
    SignKept(b, -l);
  }

  lemma WinsSomewhere(l: real, d: real) returns (b: real)
    requires l < 0.0 && d >= 0.0
    ensures b > 0.0 && Wins(l, d, b)
  {
    b := (d + 1.0) / -l;
    assert b * -l == d + 1.0;
    SignKept(b, -l);
  }

  lemma BeatsWins(hw: Hw, layer: LayerInfo, b: real)
    requires HwOk(hw) && layer.weightBytes > 0 && b > 0.0
    ensures FpgaBeats(hw, layer, b) <==> Wins(Lead(hw, layer), -MoreBytes(hw, layer) * 1000.0, b)
  {
    hide FpgaBeats, Lead, MoreBytes;
    Compare(hw, layer, b);
  }

  /** "FPGA always", resident: true behind every link exactly when the layer's weights are no fewer than the bytes of a
      dispatch message. */
  lemma AlwaysIff(hw: Hw, layer: LayerInfo)
    requires HwOk(hw) && layer.weightBytes > 0 && hw.fpgaWeightsResident && LinkCrossover(hw, layer).FpgaAlways?
    ensures (forall b :: b > 0.0 ==> FpgaBeats(hw, layer, b)) <==> layer.weightBytes >= hw.dispatchMsgBytes
  {
    hide LinkCrossover, FpgaBeats, Lead, Wins;
    VerdictIs(hw, layer);
    var b0, d, w, l := hw.linkBwBytesPerS, hw.dispatchMsgBytes as real, layer.weightBytes as real, Lead(hw, layer);
    SignKept(l, b0);
    if w >= d {
      forall b | b > 0.0
        ensures FpgaBeats(hw, layer, b)
      {
        BeatsWins(hw, layer, b);
        WinsIs(l, (d - w) * 1000.0, b);
        SignKept(l, b);
      }
    } else {
      var b := LosesSomewhere(l, (d - w) * 1000.0);
      BeatsWins(hw, layer, b);
      assert !FpgaBeats(hw, layer, b);
    }
  }

  /** Streamed weights: "FPGA always" is true behind every faster link, and behind every link exactly when the dispatch
      message is empty; the other verdict is true behind every slower link, and behind every link exactly when the lead
      is not negative. */
  lemma StreamedIff(hw: Hw, layer: LayerInfo)
    requires HwOk(hw) && layer.weightBytes > 0 && !hw.fpgaWeightsResident
    ensures var always := LinkCrossover(hw, layer).FpgaAlways?;
            && (always ==> forall b :: b >= hw.linkBwBytesPerS ==> FpgaBeats(hw, layer, b))
            && (!always ==> forall b :: 0.0 < b <= hw.linkBwBytesPerS ==> !FpgaBeats(hw, layer, b))
            && (always ==> ((forall b :: b > 0.0 ==> FpgaBeats(hw, layer, b)) <==> hw.dispatchMsgBytes == 0))
            && (!always ==> ((forall b :: b > 0.0 ==> !FpgaBeats(hw, layer, b)) <==> Lead(hw, layer) >= 0.0))
  {
    hide LinkCrossover, FpgaBeats, Lead, Wins;
    VerdictIs(hw, layer);
    var b0, d, l := hw.linkBwBytesPerS, hw.dispatchMsgBytes as real * 1000.0, Lead(hw, layer);
    WinsIs(l, d, b0);
    forall b | b > 0.0
      ensures FpgaBeats(hw, layer, b) <==> Wins(l, d, b)
      ensures b >= b0 && Wins(l, d, b0) ==> Wins(l, d, b)
      ensures b <= b0 && !Wins(l, d, b0) ==> !Wins(l, d, b)
      ensures l >= 0.0 ==> !Wins(l, d, b)
      ensures d == 0.0 ==> (Wins(l, d, b) <==> Wins(l, d, b0))
    {
      BeatsWins(hw, layer, b);
      if b >= b0 {
        WinsOn(l, d, b0, b);
      } else {
        WinsOn(l, d, b, b0);
      }
      if l >= 0.0 {
        NeverWins(l, d, b);
      }
      WinsEven(l, b, b0);
    }
    if l < 0.0 {
      var c := WinsSomewhere(l, d);
      assert FpgaBeats(hw, layer, c);
      if d > 0.0 {
        var b := LosesSomewhere(l, d);
        assert !FpgaBeats(hw, layer, b);
      }
    }
  }

  /** Streamed weights: which of the two is cheaper is independent of the bandwidth, as it is said to be, exactly when
      the dispatch message is empty or the lead is not negative. */
  lemma IndependentIff(hw: Hw, layer: LayerInfo)
    requires HwOk(hw) && layer.weightBytes > 0 && !hw.fpgaWeightsResident
    ensures (forall b, c :: b > 0.0 && c > 0.0 ==> (FpgaBeats(hw, layer, b) <==> FpgaBeats(hw, layer, c))) <==>
            hw.dispatchMsgBytes == 0 || Lead(hw, layer) >= 0.0
  {
    hide LinkCrossover, FpgaBeats, Lead, Wins;
    var d, l := hw.dispatchMsgBytes as real * 1000.0, Lead(hw, layer);
    forall b | b > 0.0
      ensures FpgaBeats(hw, layer, b) <==> Wins(l, d, b)
      ensures l >= 0.0 ==> !Wins(l, d, b)
    {
      BeatsWins(hw, layer, b);
      if l >= 0.0 {
        NeverWins(l, d, b);
      }
    }
    if d == 0.0 {
      forall b, c | b > 0.0 && c > 0.0
        ensures FpgaBeats(hw, layer, b) <==> FpgaBeats(hw, layer, c)
      {
        WinsEven(l, b, c);
      }
    } else if l < 0.0 {
      var b := WinsSomewhere(l, d);
      var c := LosesSomewhere(l, d);
      assert FpgaBeats(hw, layer, b) && !FpgaBeats(hw, layer, c);
    }
  }

  /** Without weights the pool is said always to win; some link makes the FPGA strictly cheaper exactly when its compute
      time and one round trip are below the GPU's time. */
  lemma UnweightedIff(hw: Hw, layer: LayerInfo)
    requires HwOk(hw) && layer.weightBytes == 0
    ensures LinkCrossover(hw, layer).PoolAlways?
    ensures (exists b :: b > 0.0 && FpgaBeats(hw, layer, b)) <==>
            FpgaComputeMs(hw, layer) + hw.linkRttMs < GpuComputeMs(hw, layer)
  {
    hide GpuComputeMs, FpgaComputeMs, FpgaBeats, Times, Quotient, Wins;
    var d, lag := hw.dispatchMsgBytes as real * 1000.0, Lag(hw, layer);
    forall b | b > 0.0
      ensures FpgaBeats(hw, layer, b) <==> Wins(lag, d, b)
      ensures lag >= 0.0 ==> !Wins(lag, d, b)
    {
      UnweightedAt(hw, layer, b);
      if lag >= 0.0 {
        NeverWins(lag, d, b);
      }
    }
    if lag < 0.0 {
      var b := WinsSomewhere(lag, d);
      assert FpgaBeats(hw, layer, b);
    }
  }

  /** What the FPGA takes longer than the GPU, apart from the bytes it is sent. */
  function Lag(hw: Hw, layer: LayerInfo): real
    requires HwOk(hw)
  {
    FpgaComputeMs(hw, layer) + hw.linkRttMs - GpuComputeMs(hw, layer)
  }

  lemma UnweightedAt(hw: Hw, layer: LayerInfo, b: real)
    requires HwOk(hw) && layer.weightBytes == 0 && b > 0.0
    ensures FpgaBeats(hw, layer, b) <==> Wins(Lag(hw, layer), hw.dispatchMsgBytes as real * 1000.0, b)
  {
    hide GpuComputeMs, FpgaComputeMs, Times, Quotient, FaultMessages, ChunkMessages;
    SameUnits(hw, layer, b);
    QuotientBy(hw.dispatchMsgBytes as real, b);
    OneTimes(hw.linkRttMs);
    var t := Quotient(hw.dispatchMsgBytes as real, b) * 1000.0;
    SignKept(Lag(hw, layer) + t, b);
    assert t * b == hw.dispatchMsgBytes as real * 1000.0;
  }
}
