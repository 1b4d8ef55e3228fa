/** The integer kernels of kernels.cpp over one flat memory, and what they compute on operands that do not overlap. */
module Kernels {
  import opened Bytes

  // ----- the value of one output -----

  /** The INT32 accumulator after n products of the row at `wa` and the activation at `xa`. */
  function DotAt(ws: seq<byte>, wa: nat, xs: seq<byte>, xa: nat, n: nat): (r: int)
    requires wa + n <= |ws| && xa + n <= |xs|
    ensures -TWO31 <= r < TWO31
  {
    if n == 0 then 0
    else Wrap32(DotAt(ws, wa, xs, xa, n - 1) + S8(ws[wa + n - 1]) * S8(xs[xa + n - 1]))
  }

  /** The same sum over unbounded integers. */
  function DotExact(ws: seq<byte>, wa: nat, xs: seq<byte>, xa: nat, n: nat): int
    requires wa + n <= |ws| && xa + n <= |xs|
  {
    if n == 0 then 0
    else DotExact(ws, wa, xs, xa, n - 1) + S8(ws[wa + n - 1]) * S8(xs[xa + n - 1])
  }

  /** Fixed-point requantisation of one accumulator: add bias, scale, arithmetic shift, ReLU, saturate. */
  function Epi(acc: int, bias: int, mult: int, shift: nat, relu: bool): (r: int)
    ensures -128 <= r <= 127
  {
    var sh := (acc + bias) * mult / Pow2(shift);
    Sat8(if relu && sh < 0 then 0 else sh)
  }

  lemma ProductBound(a: byte, b: byte)
    ensures -16384 <= S8(a) * S8(b) <= 16384
  {
    var x, y := S8(a), S8(b);
    if y >= 0 {
      MulLe(-128, x, y);
      MulLe(x, 128, y);
    } else {
      MulLe(-128, x, -y);
      MulLe(x, 128, -y);
      assert x * y == -(x * -y);
    }
  }

  /** No accumulator wraps for rows of up to 131071 products. */
  lemma {:induction false} DotNoWrap(ws: seq<byte>, wa: nat, xs: seq<byte>, xa: nat, n: nat)
    requires wa + n <= |ws| && xa + n <= |xs| && n <= 131071
    ensures DotAt(ws, wa, xs, xa, n) == DotExact(ws, wa, xs, xa, n)
    ensures -16384 * n <= DotExact(ws, wa, xs, xa, n) <= 16384 * n
  {
    if n > 0 {
      DotNoWrap(ws, wa, xs, xa, n - 1);
      ProductBound(ws[wa + n - 1], xs[xa + n - 1]);
    }
  }

  /** The wrapping sum is the wrapped sum. */
  lemma {:induction false} DotIsWrapped(w: seq<byte>, x: seq<byte>, n: nat)
    requires n <= |w| && n <= |x|
    ensures DotAt(w, 0, x, 0, n) == Wrap32(DotExact(w, 0, x, 0, n))
  {
    hide S8, Wrap32;
    if n > 0 {
      DotIsWrapped(w, x, n - 1);
      WrapTwice(DotExact(w, 0, x, 0, n - 1), S8(w[n - 1]) * S8(x[n - 1]));
    } else {
      WrapZero();
    }
  }

  /** The dot product depends on the weights and on the first `k` activations only, when every weight from column `k` on
      is zero: whatever a padding byte holds does not matter. */
  lemma {:induction false} DotAgree(ws: seq<byte>, wa: nat, xs: seq<byte>, xa: nat,
                                    ws': seq<byte>, wa': nat, xs': seq<byte>, xa': nat, n: nat, k: nat)
    requires wa + n <= |ws| && xa + n <= |xs| && wa' + n <= |ws'| && xa' + n <= |xs'|
    requires forall i :: wa <= i < wa + n ==> ws[i] == ws'[wa' + (i - wa)]
    requires forall i :: xa <= i < xa + n && i < xa + k ==> xs[i] == xs'[xa' + (i - xa)]
    requires forall i :: wa + k <= i < wa + n ==> ws[i] == 0
    ensures DotAt(ws, wa, xs, xa, n) == DotAt(ws', wa', xs', xa', n)
  {
    hide Wrap32, S8, Rd32, RdI32, Epi, U8, Le32, Splice;
    if n > 0 {
      DotAgree(ws, wa, xs, xa, ws', wa', xs', xa', n - 1, k);
    }
  }

  // ----- what the loops leave in memory -----

  /** Memory after the first m rows of `fc_acc`. */
  function FcAccRun(mem: seq<byte>, w: nat, K: nat, x: nat, acc: nat, m: nat): (r: seq<byte>)
    requires w + m * K <= |mem| && x + K <= |mem| && acc + 4 * m <= |mem|
    ensures |r| == |mem|
  {
    if m == 0 then mem
    else
      RowBound(m - 1, m, K);
      var p := FcAccRun(mem, w, K, x, acc, m - 1);
      Splice(p, acc + 4 * (m - 1), Le32(DotAt(p, w + (m - 1) * K, p, x, K)))
  }

  /** Memory after the first n outputs of `epilogue`. */
  function EpiRun(mem: seq<byte>, acc: nat, bias: nat, mult: int, shift: nat, relu: bool, out: nat,
          n: nat): (r: seq<byte>)
    requires acc + 4 * n <= |mem| && bias + 4 * n <= |mem| && out + n <= |mem|
    ensures |r| == |mem|
  {
    if n == 0 then mem
    else
      var p := EpiRun(mem, acc, bias, mult, shift, relu, out, n - 1);
      Splice(p, out + n - 1,
             [U8(Epi(RdI32(p, acc + 4 * (n - 1)), RdI32(p, bias + 4 * (n - 1)), mult, shift, relu))])
  }

  /** Rows accumulated into a region change nothing outside it. */
  lemma {:induction false} FcAccFrame(mem: seq<byte>, w: nat, K: nat, x: nat, acc: nat, m: nat)
    requires w + m * K <= |mem| && x + K <= |mem| && acc + 4 * m <= |mem|
    ensures forall i :: 0 <= i < |mem| && !(acc <= i < acc + 4 * m) ==> FcAccRun(mem, w, K, x, acc, m)[i] == mem[i]
  {
    hide Wrap32, S8, Rd32, RdI32, U8, Le32, DotAt, Splice;
    if m > 0 {
      RowBound(m - 1, m, K);
      FcAccFrame(mem, w, K, x, acc, m - 1);
    }
  }

  /** When the accumulators overlap neither operand, every one of them is the dot product of its
      row over the initial memory. */
  lemma {:induction false} FcAccValue(mem: seq<byte>, w: nat, K: nat, x: nat, acc: nat, m: nat, M: nat, j: nat)
    requires j < m <= M && w + M * K <= |mem| && x + K <= |mem| && acc + 4 * M <= |mem|
    requires Apart(acc, 4 * M, w, M * K) && Apart(acc, 4 * M, x, K)
    requires w + m * K <= |mem| && 0 <= j * K && w + j * K + K <= |mem|
    ensures RdI32(FcAccRun(mem, w, K, x, acc, m), acc + 4 * j) == DotAt(mem, w + j * K, mem, x, K)
  {
    hide Wrap32, S8, Rd32, RdI32, U8, Le32, DotAt, Splice;
    RowBound(m - 1, m, K);
    RowBound(m - 1, M, K);
    FcAccFrame(mem, w, K, x, acc, m - 1);
    var p := FcAccRun(mem, w, K, x, acc, m - 1);
    var row := w + (m - 1) * K;
    var r := Splice(p, acc + 4 * (m - 1), Le32(DotAt(p, row, p, x, K)));
    assert r == FcAccRun(mem, w, K, x, acc, m);
    if j == m - 1 {
      DotAgree(p, row, p, x, mem, row, mem, x, K, K);
      assert r[acc + 4 * j..acc + 4 * j + 4] == Le32(DotAt(p, row, p, x, K));
      Le32RoundTrip(r, acc + 4 * j, DotAt(p, row, p, x, K));
    } else {
      FcAccValue(mem, w, K, x, acc, m - 1, M, j);
      RdFrame(r, acc + 4 * j, p, acc + 4 * j);
    }
  }

  /** The epilogue changes nothing outside its output region. */
  lemma {:induction false} EpiFrame(mem: seq<byte>, acc: nat, bias: nat, mult: int, shift: nat, relu: bool, out: nat,
          n: nat)
    requires acc + 4 * n <= |mem| && bias + 4 * n <= |mem| && out + n <= |mem|
    ensures forall i :: 0 <= i < |mem| && !(out <= i < out + n)
              ==> EpiRun(mem, acc, bias, mult, shift, relu, out, n)[i] == mem[i]
  {
    hide Rd32, RdI32, Epi, U8, Splice;
    if n > 0 {
      EpiFrame(mem, acc, bias, mult, shift, relu, out, n - 1);
    }
  }

  /** When the output overlaps neither accumulators nor biases, every byte is the requantised sum of the
      accumulator and bias initially in memory. */
  lemma {:induction false} EpiValue(mem: seq<byte>, acc: nat, bias: nat, mult: int, shift: nat, relu: bool, out: nat,
          n: nat, N: nat, j: nat)
    requires j < n <= N && acc + 4 * N <= |mem| && bias + 4 * N <= |mem| && out + N <= |mem|
    requires Apart(out, N, acc, 4 * N) && Apart(out, N, bias, 4 * N)
    ensures EpiRun(mem, acc, bias, mult, shift, relu, out, n)[out + j] ==
            U8(Epi(RdI32(mem, acc + 4 * j), RdI32(mem, bias + 4 * j), mult, shift, relu))
  {
    hide Rd32, RdI32, Epi, U8, Splice;
    var p := EpiRun(mem, acc, bias, mult, shift, relu, out, n - 1);
    EpiFrame(mem, acc, bias, mult, shift, relu, out, n - 1);
    if j == n - 1 {
      RdFrame(p, acc + 4 * j, mem, acc + 4 * j);
      RdFrame(p, bias + 4 * j, mem, bias + 4 * j);
    } else {
      EpiValue(mem, acc, bias, mult, shift, relu, out, n - 1, N, j);
    }
  }

  // ----- the loops -----

  method Store32(mem: array<byte>, a: nat, v: int)
    requires a + 4 <= mem.Length
    modifies mem
    ensures mem[..] == Splice(old(mem[..]), a, Le32(v))
  {
    var b := Le32(v);
    mem[a], mem[a + 1], mem[a + 2], mem[a + 3] := b[0], b[1], b[2], b[3];
  }

  /** `memcpy` inside one arena; the source reads both ranges before writing, so they may overlap. */
  method Copy(mem: array<byte>, dst: nat, d: seq<byte>)
    requires dst + |d| <= mem.Length
    modifies mem
    ensures mem[..] == Splice(old(mem[..]), dst, d)
  {
    forall i | 0 <= i < |d| {
      mem[dst + i] := d[i];
    }
    assert forall i :: dst <= i < dst + |d| ==> mem[i] == d[i - dst] by {
      forall i | dst <= i < dst + |d|
        ensures mem[i] == d[i - dst]
      {
        assert mem[dst + (i - dst)] == d[i - dst];
      }
    }
  }

  /** The inner loop of `fc_acc`: one row against the activations. */
  method RowDot(mem: array<byte>, row: nat, x: nat, K: nat) returns (a: int)
    requires row + K <= mem.Length && x + K <= mem.Length
    ensures a == DotAt(mem[..], row, mem[..], x, K)
  {
    hide Wrap32, S8;
    a := 0;
    var k := 0;
    while k < K
      invariant k <= K
      invariant a == DotAt(mem[..], row, mem[..], x, k)
    {
      a := Wrap32(a + S8(mem[row + k]) * S8(mem[x + k]));
      k := k + 1;
    }
  }

  method FcAcc(mem: array<byte>, w: nat, M: nat, K: nat, x: nat, acc: nat)
    requires w + M * K <= mem.Length && x + K <= mem.Length && acc + 4 * M <= mem.Length
    modifies mem
    ensures mem[..] == FcAccRun(old(mem[..]), w, K, x, acc, M)
  {
    hide Wrap32, S8, Le32, Splice, DotAt;
    ghost var was := mem[..];
    var m, row := 0, w;
    while m < M
      invariant m <= M && row == w + m * K && row <= mem.Length
      invariant mem[..] == FcAccRun(was, w, K, x, acc, m)
    {
      RowBound(m, M, K);
      var a := RowDot(mem, row, x, K);
      Store32(mem, acc + 4 * m, a);
      m, row := m + 1, row + K;
      assert (m - 1) * K + K == m * K;
    }
  }

  method Epilogue(mem: array<byte>, acc: nat, bias: nat, n: nat, mult: int, shift: nat, relu: bool, out: nat)
    requires acc + 4 * n <= mem.Length && bias + 4 * n <= mem.Length && out + n <= mem.Length
    modifies mem
    ensures mem[..] == EpiRun(old(mem[..]), acc, bias, mult, shift, relu, out, n)
  {
    hide Wrap32, S8, Rd32, RdI32, Epi, U8, Le32, Splice;
    ghost var was := mem[..];
    var i := 0;
    while i < n
      invariant i <= n
      invariant mem[..] == EpiRun(was, acc, bias, mult, shift, relu, out, i)
    {
      ghost var cur := mem[..];
      var a := Load32(mem, acc + 4 * i);
      var b := Load32(mem, bias + 4 * i);
      mem[out + i] := U8(Epi(a, b, mult, shift, relu));
      assert mem[..] == Splice(cur, out + i, [mem[out + i]]);
      i := i + 1;
    }
  }

  method Load32(mem: array<byte>, a: nat) returns (v: int)
    requires a + 4 <= mem.Length
    ensures v == RdI32(mem[..], a)
  {
    v := RdI32(mem[a..a + 4], 0);
  }

  method Gather(mem: array<byte>, table: nat, dimBytes: nat, dim: nat, idx: nat, out: nat)
    requires table + idx * dimBytes + dim <= mem.Length && out + dim <= mem.Length
    modifies mem
    ensures mem[..] == Splice(old(mem[..]), out, old(mem[..])[table + idx * dimBytes..][..dim])
  {
    var src := table + idx * dimBytes;
    Copy(mem, out, mem[src..src + dim]);
  }
}
