/** Bytes, two's-complement words and slices of a flat memory: the vocabulary every other module shares. */
module Bytes {

  type byte = b: int | 0 <= b < 256

  const TWO31 := 0x8000_0000
  const TWO32 := 0x1_0000_0000

  /** The INT8 value of a byte. */
  function S8(b: byte): (v: int)
    ensures -128 <= v <= 127 && v % 256 == b
  {
    if b < 128 then b else b - 256
  }

  /** The byte that holds an INT8 value (a truncating cast for any other integer). */
  function U8(v: int): byte {
    v % 256
  }

  /** The INT32 a wider sum wraps to. */
  function Wrap32(v: int): (r: int)
    ensures -TWO31 <= r < TWO31
    ensures -TWO31 <= v < TWO31 ==> r == v
  {
    (v + TWO31) % TWO32 - TWO31
  }

  function Sat8(v: int): (r: int)
    ensures -128 <= r <= 127
  {
    if v > 127 then 127 else if v < -128 then -128 else v
  }

  /** Saturation gives the INT8 value nearest to v. */
  lemma SatNearest(v: int, x: int)
    requires -128 <= x <= 127
    ensures Distance(Sat8(v), v) <= Distance(x, v)
    ensures Distance(Sat8(v), v) == Distance(x, v) ==> Sat8(v) == x
  {
  }

  function Distance(a: int, b: int): nat {
    if a < b then b - a else a - b
  }

  function Pow2(n: nat): (p: nat)
    ensures p >= 1
  {
    if n == 0 then 1 else 2 * Pow2(n - 1)
  }

  function CeilDiv(n: nat, d: nat): nat
    requires d > 0
  {
    (n + d - 1) / d
  }

  /** Rounding up to a multiple of sixteen: `_pad16` and `_align`. */
  function Pad16(n: nat): (r: nat)
    ensures r % 16 == 0 && n <= r < n + 16
  {
    (n + 15) / 16 * 16
  }

  function Zeros(n: nat): (s: seq<byte>)
    ensures |s| == n && forall i :: 0 <= i < n ==> s[i] == 0
  {
    seq(n, i => 0)
  }

  /** Little-endian encoding of the low 32 bits. */
  function Le32(v: int): (s: seq<byte>)
    ensures |s| == 4
  {
    var u := v % TWO32;
    var q1 := u / 256;
    var q2 := q1 / 256;
    [u % 256, q1 % 256, q2 % 256, q2 / 256]
  }

  function Rd32(s: seq<byte>, a: nat): (v: nat)
    requires a + 4 <= |s|
    ensures v < TWO32
  {
    var b0: int, b1: int, b2: int, b3: int := s[a], s[a + 1], s[a + 2], s[a + 3];
    b0 + 0x100 * b1 + 0x1_0000 * b2 + 0x100_0000 * b3
  }

  function RdI32(s: seq<byte>, a: nat): (v: int)
    requires a + 4 <= |s|
    ensures -TWO31 <= v < TWO31
  {
    var u := Rd32(s, a);
    if u < TWO31 then u else u - TWO32
  }

  lemma WrapMod(v: int)
    ensures Wrap32(v) == if v % TWO32 < TWO31 then v % TWO32 else v % TWO32 - TWO32
  {
    var q, u := v / TWO32, v % TWO32;
    assert v + TWO31 == q * TWO32 + (u + TWO31);
    if u < TWO31 {
      DivModUnique(v + TWO31, TWO32, q, u + TWO31);
    } else {
      assert v + TWO31 == (q + 1) * TWO32 + (u - TWO31);
      DivModUnique(v + TWO31, TWO32, q + 1, u - TWO31);
    }
  }

  /** Wrapping between additions or at the end comes to the same. */
  lemma WrapTwice(a: int, d: int)
    ensures Wrap32(Wrap32(a) + d) == Wrap32(a + d)
  {
    var q, m := (a + TWO31) / TWO32, (a + TWO31) % TWO32;
    assert a + TWO31 == q * TWO32 + m;
    assert Wrap32(a) + d + TWO31 == m + d;
    var q2, m2 := (m + d) / TWO32, (m + d) % TWO32;
    assert m + d == q2 * TWO32 + m2;
    assert a + d + TWO31 == (q + q2) * TWO32 + m2;
    DivModUnique(a + d + TWO31, TWO32, q + q2, m2);
  }

  lemma WrapZero()
    ensures Wrap32(0) == 0
  {
  }

  lemma DivModUnique(n: int, d: int, q: int, r: int)
    requires d > 0 && 0 <= r < d && n == q * d + r
    ensures n / d == q && n % d == r
  {
    var q', r' := n / d, n % d;
    assert n == q' * d + r';
    assert (q - q') * d == r' - r;
    if q > q' {
      MulLe(1, q - q', d);
    } else if q < q' {
      MulLe(q - q', -1, d);
    }
  }

  lemma MulLe(a: int, b: int, c: int)
    requires a <= b && 0 <= c
    ensures a * c <= b * c
  {
  }

  lemma DivLe(a: nat, b: nat, d: nat)
    requires d > 0 && a <= b
    ensures a / d <= b / d
  {
    if a / d > b / d {
      MulLe(b / d + 1, a / d, d);
    }
  }

  /** What is stored by Le32 is what Rd32 and RdI32 load, at any address. */
  lemma Le32RoundTrip(s: seq<byte>, a: nat, v: int)
    requires a + 4 <= |s|
    requires s[a..a + 4] == Le32(v)
    ensures Rd32(s, a) == v % TWO32
    ensures RdI32(s, a) == Wrap32(v)
  {
    var t := s[a..a + 4];
    assert t[0] == s[a] && t[1] == s[a + 1] && t[2] == s[a + 2] && t[3] == s[a + 3];
    assert Rd32(s, a) == v % TWO32;
    WrapMod(v);
  }

  lemma RdFrame(s: seq<byte>, a: nat, t: seq<byte>, b: nat)
    requires a + 4 <= |s| && b + 4 <= |t|
    requires forall i :: a <= i < a + 4 ==> s[i] == t[b + (i - a)]
    ensures Rd32(s, a) == Rd32(t, b) && RdI32(s, a) == RdI32(t, b)
  {
    assert s[a] == t[b] && s[a + 1] == t[b + 1] && s[a + 2] == t[b + 2] && s[a + 3] == t[b + 3];
  }

  /** `mem` with the bytes `d` copied to address `a`. */
  function Splice(mem: seq<byte>, a: nat, d: seq<byte>): (r: seq<byte>)
    requires a + |d| <= |mem|
    ensures |r| == |mem|
    ensures forall i :: 0 <= i < |mem| ==> r[i] == if a <= i < a + |d| then d[i - a] else mem[i]
  {
    mem[..a] + d + mem[a + |d|..]
  }

  /** One byte changed. */
  function Put(s: seq<byte>, i: nat, v: byte): (r: seq<byte>)
    requires i < |s|
    ensures |r| == |s|
  {
    s[i := v]
  }

  lemma SpliceSplice(mem: seq<byte>, a: nat, d: seq<byte>, e: seq<byte>)
    requires a + |d| + |e| <= |mem|
    ensures Splice(Splice(mem, a, d), a + |d|, e) == Splice(mem, a, d + e)
  {
  }

  /** The bytes `v` lie in `mem` from address `a` on. */
  ghost predicate At(mem: seq<byte>, a: int, v: seq<byte>) {
    0 <= a && a + |v| <= |mem| && forall i :: a <= i < a + |v| ==> mem[i] == v[i - a]
  }

  /** Half-open byte ranges [a, a+n) and [b, b+m) share no address. */
  predicate Apart(a: int, n: int, b: int, m: int) {
    a + n <= b || b + m <= a
  }

  lemma RowBound(m: nat, rows: nat, cols: nat)
    requires m < rows
    ensures m * cols + cols <= rows * cols
    ensures 0 <= m * cols
  {
    assert (m + 1) * cols <= rows * cols;
  }
}
