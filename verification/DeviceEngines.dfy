/** What the emulated engines leave in memory, row by row and byte by byte. */
module DeviceEngines {
  import opened Bytes
  import opened Kernels
  import opened VirtualFpga

  // ----- the lookup engine -----

  /** The engine stops at the first lookup out of range: those behind it are not done, those before it stay. */
  lemma {:induction false} EmbedStops(mem: seq<byte>, table: nat, dim: nat, idxAddr: nat, n: nat, out: nat, k: nat,
          i: nat)
    requires i <= k < n && !RowOk(EmbedFrom(mem, table, dim, idxAddr, k, out, i), table, dim, idxAddr, out, k)
    ensures EmbedFrom(mem, table, dim, idxAddr, n, out, i) == EmbedFrom(mem, table, dim, idxAddr, k, out, i)
    decreases k - i
  {
    hide RowOk, Splice, RowSrc, RowDst;
    if i < k && RowOk(mem, table, dim, idxAddr, out, i) {
      Looked(mem, table, dim, idxAddr, out, i);
      var src := RowSrc(mem, table, dim, idxAddr, i);
      EmbedStops(Splice(mem, RowDst(dim, out, i), mem[src..src + dim / 16 * 16]), table, dim, idxAddr, n, out, k,
        i + 1);
    }
  }

  lemma Looked(mem: seq<byte>, table: nat, dim: nat, idxAddr: nat, out: nat, i: nat)
    requires RowOk(mem, table, dim, idxAddr, out, i)
    ensures idxAddr + 4 * i + 4 <= |mem| && RowSrc(mem, table, dim, idxAddr, i) + dim / 16 * 16 <= |mem|
    ensures RowDst(dim, out, i) + dim / 16 * 16 <= |mem|
  {
  }

  /** A request whose lookups are all in range and whose output touches neither its indices nor its rows. */
  predicate Lookup(mem: seq<byte>, table: nat, dim: nat, idxAddr: nat, n: nat, out: nat) {
    && Apart(out, n * dim, idxAddr, 4 * n)
    && forall i :: 0 <= i < n ==>
         && RowOk(mem, table, dim, idxAddr, out, i)
         && Apart(out, n * dim, RowSrc(mem, table, dim, idxAddr, i), dim)
  }

  /** The first i rows are copied, and nothing else has changed. */
  predicate Copied(mem: seq<byte>, now: seq<byte>, table: nat, dim: nat, idxAddr: nat, n: nat, out: nat, i: nat)
    requires Lookup(mem, table, dim, idxAddr, n, out) && i <= n
  {
    && |now| == |mem|
    && (forall j, k :: 0 <= j < i && 0 <= k < dim / 16 * 16 ==> RowHas(mem, now, table, dim, idxAddr, out, j, k))
    && (forall a :: 0 <= a < |mem| && !(out <= a < out + n * dim) ==> now[a] == mem[a])
  }

  /** Byte k of output row j is that of the row looked up. */
  predicate RowHas(mem: seq<byte>, now: seq<byte>, table: nat, dim: nat, idxAddr: nat, out: nat, j: nat, k: nat) {
    RowOk(mem, table, dim, idxAddr, out, j) && |now| == |mem| && k < dim / 16 * 16
    && now[RowDst(dim, out, j) + k] == mem[RowSrc(mem, table, dim, idxAddr, j) + k]
  }

  lemma RowPlace(dim: nat, out: nat, n: nat, i: nat)
    requires i < n
    ensures out <= RowDst(dim, out, i) && RowDst(dim, out, i) + dim <= out + n * dim
    ensures forall j: nat :: j < i ==> RowDst(dim, out, j) + dim <= RowDst(dim, out, i)
  {
    RowBound(i, n, dim);
    forall j: nat | j < i
      ensures RowDst(dim, out, j) + dim <= RowDst(dim, out, i)
    {
      RowBound(j, i, dim);
    }
  }

  lemma CopyOne(mem: seq<byte>, now: seq<byte>, table: nat, dim: nat, idxAddr: nat, n: nat, out: nat, i: nat)
    requires Lookup(mem, table, dim, idxAddr, n, out) && i < n && Copied(mem, now, table, dim, idxAddr, n, out, i)
    ensures RowOk(now, table, dim, idxAddr, out, i)
    ensures RowSrc(now, table, dim, idxAddr, i) == RowSrc(mem, table, dim, idxAddr, i)
    ensures var src := RowSrc(now, table, dim, idxAddr, i);
            Copied(mem, Splice(now, RowDst(dim, out, i), now[src..src + dim / 16 * 16]), table, dim, idxAddr, n, out,
              i + 1)
  {
    hide RowDst, Rd32, RowHas, Lookup;
    LookupAt(mem, table, dim, idxAddr, n, out, i);
    RdFrame(now, idxAddr + 4 * i, mem, idxAddr + 4 * i);
    RowPlace(dim, out, n, i);
    var bytes := dim / 16 * 16;
    var src, dst := RowSrc(now, table, dim, idxAddr, i), RowDst(dim, out, i);
    var next := Splice(now, dst, now[src..src + bytes]);
    forall j, k | 0 <= j < i + 1 && 0 <= k < bytes
      ensures RowHas(mem, next, table, dim, idxAddr, out, j, k)
    {
      if j < i {
        assert RowHas(mem, now, table, dim, idxAddr, out, j, k);
        RowStays(mem, now, next, table, dim, idxAddr, out, j, k, dst);
      } else {
        RowCopied(mem, now, table, dim, idxAddr, out, i, k);
      }
    }
  }

  lemma LookupAt(mem: seq<byte>, table: nat, dim: nat, idxAddr: nat, n: nat, out: nat, i: nat)
    requires Lookup(mem, table, dim, idxAddr, n, out) && i < n
    ensures RowOk(mem, table, dim, idxAddr, out, i) && Apart(out, n * dim, RowSrc(mem, table, dim, idxAddr, i), dim)
    ensures out + n * dim <= idxAddr + 4 * i || idxAddr + 4 * i + 4 <= out
  {
  }

  lemma RowStays(mem: seq<byte>, now: seq<byte>, next: seq<byte>, table: nat, dim: nat, idxAddr: nat, out: nat, j: nat,
          k: nat, dst: nat)
    requires RowHas(mem, now, table, dim, idxAddr, out, j, k) && |next| == |now| && RowDst(dim, out, j) + dim <= dst
    requires forall a :: 0 <= a < |now| && a < dst ==> next[a] == now[a]
    ensures RowHas(mem, next, table, dim, idxAddr, out, j, k)
  {
    hide RowDst, RowSrc;
  }

  lemma RowCopied(mem: seq<byte>, now: seq<byte>, table: nat, dim: nat, idxAddr: nat, out: nat, i: nat, k: nat)
    requires RowOk(mem, table, dim, idxAddr, out, i) && |now| == |mem| && k < dim / 16 * 16
    requires var src := RowSrc(mem, table, dim, idxAddr, i);
             forall a :: src <= a < src + dim && a < |mem| ==> now[a] == mem[a]
    ensures var src, dst := RowSrc(mem, table, dim, idxAddr, i), RowDst(dim, out, i);
            RowHas(mem, Splice(now, dst, now[src..src + dim / 16 * 16]), table, dim, idxAddr, out, i, k)
  {
    hide RowDst, RowSrc;
  }

  lemma {:induction false} EmbedRows(mem: seq<byte>, now: seq<byte>, table: nat, dim: nat, idxAddr: nat, n: nat,
          out: nat, i: nat)
    requires Lookup(mem, table, dim, idxAddr, n, out) && i <= n && Copied(mem, now, table, dim, idxAddr, n, out, i)
    ensures Copied(mem, EmbedFrom(now, table, dim, idxAddr, n, out, i), table, dim, idxAddr, n, out, n)
    decreases n - i
  {
    hide Copied, Lookup, RowOk, Splice, RowDst;
    if i < n {
      CopyOne(mem, now, table, dim, idxAddr, n, out, i);
      Looked(now, table, dim, idxAddr, out, i);
      var src := RowSrc(now, table, dim, idxAddr, i);
      EmbedRows(mem, Splice(now, RowDst(dim, out, i), now[src..src + dim / 16 * 16]), table, dim, idxAddr, n, out,
        i + 1);
    }
  }

  /** Every row of the output is the row its index names, in whole 16-byte words, and nothing else changes. */
  lemma EmbedCopies(mem: seq<byte>, table: nat, dim: nat, idxAddr: nat, n: nat, out: nat)
    requires Lookup(mem, table, dim, idxAddr, n, out)
    ensures Copied(mem, EmbedFrom(mem, table, dim, idxAddr, n, out, 0), table, dim, idxAddr, n, out, n)
  {
    hide Lookup, RowHas;
    EmbedRows(mem, mem, table, dim, idxAddr, n, out, 0);
  }

  // ----- the byte operations -----

  lemma ByteRunNone(mem: seq<byte>, op: nat, scale: byte, addr2: nat, a: nat, out: nat)
    requires a <= |mem| && out <= |mem| && (op == 3 ==> addr2 <= |mem|)
    ensures ByteRun(mem, op, scale, addr2, a, out, 0) == mem
  {
  }

  lemma ByteRunNext(mem: seq<byte>, op: nat, scale: byte, addr2: nat, a: nat, out: nat, n: nat)
    requires n > 0 && a + n <= |mem| && out + n <= |mem| && (op == 3 ==> addr2 + n <= |mem|)
    ensures var p := ByteRun(mem, op, scale, addr2, a, out, n - 1);
            forall i :: 0 <= i < |mem| ==>
              ByteRun(mem, op, scale, addr2, a, out, n)[i] ==
              if i == out + n - 1 then ByteOp(op, p[a + n - 1], if op == 3 then p[addr2 + n - 1] else 0, scale)
                else p[i]
  {
    hide ByteOp;
  }

  /** The operation of every byte lane, on the bytes of one or two inputs; only the output changes. */
  lemma {:induction false} ByteRunAt(mem: seq<byte>, op: nat, scale: byte, addr2: nat, a: nat, out: nat, n: nat, i: nat)
    requires a + n <= |mem| && out + n <= |mem| && (op == 3 ==> addr2 + n <= |mem|) && i < |mem|
    requires (out == a || Apart(out, n, a, n)) && (op == 3 ==> out == addr2 || Apart(out, n, addr2, n))
    ensures ByteRun(mem, op, scale, addr2, a, out, n)[i] ==
            if out <= i < out + n
            then ByteOp(op, mem[a + (i - out)], if op == 3 then mem[addr2 + (i - out)] else 0, scale) else mem[i]
  {
    hide ByteOp, ByteRun, Splice;
    if n == 0 {
      ByteRunNone(mem, op, scale, addr2, a, out);
    } else {
      ByteRunNext(mem, op, scale, addr2, a, out, n);
      if i == out + n - 1 {
        ByteRunAt(mem, op, scale, addr2, a, out, n - 1, a + n - 1);
        if op == 3 {
          ByteRunAt(mem, op, scale, addr2, a, out, n - 1, addr2 + n - 1);
        }
      } else {
        ByteRunAt(mem, op, scale, addr2, a, out, n - 1, i);
      }
    }
  }

  /** A request in range works on 16 bytes for each word it announces. */
  lemma ElementValue(mem: seq<byte>, field: nat, nwords: nat, addr2: nat, a: nat, len: nat, out: nat, i: nat)
    requires var n, op := 16 * nwords, field % 8;
             && op != 4 && a + n <= |mem| && out + n <= |mem| && (op == 3 ==> addr2 + n <= |mem|) && i < |mem|
             && (out == a || Apart(out, n, a, n)) && (op == 3 ==> out == addr2 || Apart(out, n, addr2, n))
    ensures ElementEngine(mem, field, nwords, addr2, a, len, out)[i] ==
            if out <= i < out + 16 * nwords
            then ByteOp(field % 8, mem[a + (i - out)], if field % 8 == 3 then mem[addr2 + (i - out)] else 0,
                        field / 256 % 256)
            else mem[i]
  {
    hide ByteOp, ByteRun;
    ByteRunAt(mem, field % 8, field / 256 % 256, addr2, a, out, 16 * nwords, i);
  }

  /** One out of range changes nothing. */
  lemma ElementRefused(mem: seq<byte>, field: nat, nwords: nat, addr2: nat, a: nat, len: nat, out: nat)
    requires var n, op := 16 * nwords, field % 8;
             || a + n > |mem| || ((op == 3 || op == 4) && addr2 + n > |mem|)
             || out + (if op == 4 then (nwords + 3) / 4 * 16 else n) > |mem|
    ensures ElementEngine(mem, field, nwords, addr2, a, len, out) == mem
  {
    hide ByteOp, ByteRun;
  }

  // ----- the matrix engine and the epilogue -----

  /** A matrix request that reaches beyond memory changes nothing. */
  lemma MatrixRefused(mem: seq<byte>, w: nat, x: nat, y: nat, M: nat, K: nat)
    requires w + M * K > |mem| || x + K > |mem| || y + 4 * M > |mem|
    ensures FcEngine(mem, w, x, y, M, K) == mem
  {
  }

  /** Any other, if its sums overlap neither operand, leaves the dot product of each row, of no columns too, and changes
      nothing else. */
  lemma MatrixValue(mem: seq<byte>, w: nat, x: nat, y: nat, M: nat, K: nat, j: nat)
    requires w + M * K <= |mem| && x + K <= |mem| && y + 4 * M <= |mem| && j < M
    requires Apart(y, 4 * M, w, M * K) && Apart(y, 4 * M, x, K)
    ensures 0 <= j * K && w + j * K + K <= |mem|
    ensures RdI32(FcEngine(mem, w, x, y, M, K), y + 4 * j) == DotAt(mem, w + j * K, mem, x, K)
    ensures forall i :: 0 <= i < |mem| && !(y <= i < y + 4 * M) ==> FcEngine(mem, w, x, y, M, K)[i] == mem[i]
  {
    hide FcAccRun, RdI32, DotAt, Apart;
    RowBound(j, M, K);
    FcAccFrame(mem, w, K, x, y, M);
    FcAccValue(mem, w, K, x, y, M, M, j);
  }

  /** The epilogue of nwords words of sums, if its output overlaps neither operand: one requantised byte for each sum,
      zeros to the end of the last output word, and nothing else changed. */
  lemma EpilogueValue(mem: seq<byte>, field: nat, nwords: nat, addr2: nat, a: nat, len: nat, out: nat, i: nat)
    requires var nout := (nwords + 3) / 4 * 16;
             && field % 8 == 4 && a + 16 * nwords <= |mem| && addr2 + 16 * nwords <= |mem| && out + nout <= |mem|
             && Apart(out, nout, a, 16 * nwords) && Apart(out, nout, addr2, 16 * nwords) && i < |mem|
    ensures var nout, scale := (nwords + 3) / 4 * 16, field / 256 % 256;
            ElementEngine(mem, field, nwords, addr2, a, len, out)[i] ==
            if out <= i < out + 4 * nwords
            then U8(Epi(RdI32(mem, a + 4 * (i - out)), RdI32(mem, addr2 + 4 * (i - out)), Sext16(len), scale % 32,
                        scale >= 128))
            else if out <= i < out + nout then 0 else mem[i]
  {
    hide EpiRun, RdI32, Epi, U8, Sext16, Splice;
    var nout, scale := (nwords + 3) / 4 * 16, field / 256 % 256;
    var clear := Splice(mem, out, Zeros(nout));
    ClearedOutside(mem, out, nout);
    assert 4 * nwords <= nout;
    EpiFrame(clear, a, addr2, Sext16(len), scale % 32, scale / 128 == 1, out, 4 * nwords);
    if out <= i < out + 4 * nwords {
      var j := i - out;
      EpiValue(clear, a, addr2, Sext16(len), scale % 32, scale / 128 == 1, out, 4 * nwords, 4 * nwords, j);
      RdSame(mem, out, nout, a + 4 * j);
      RdSame(mem, out, nout, addr2 + 4 * j);
    }
  }

  lemma ClearedOutside(mem: seq<byte>, out: nat, n: nat)
    requires out + n <= |mem|
    ensures forall i :: 0 <= i < |mem| ==> Splice(mem, out, Zeros(n))[i] == if out <= i < out + n then 0 else mem[i]
  {
  }

  lemma RdSame(mem: seq<byte>, out: nat, n: nat, a: nat)
    requires out + n <= |mem| && a + 4 <= |mem| && Apart(out, n, a, 4)
    ensures RdI32(Splice(mem, out, Zeros(n)), a) == RdI32(mem, a)
  {
    hide RdI32, Splice;
    ClearedOutside(mem, out, n);
    RdFrame(Splice(mem, out, Zeros(n)), a, mem, a);
  }
}
