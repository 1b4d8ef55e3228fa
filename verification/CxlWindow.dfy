/** The window object of cxlwin.c: page states, protections and contents updated in place,
    each call proved against the page-level specification. */
module CxlWindow {
  import opened Bytes
  import opened PageWindow
  import Kernels

  // ----- from arrays to pages -----

  lemma PageApart(p: nat, q: nat, page: nat)
    requires p < q
    ensures 0 <= p * page && p * page + page <= q * page
  {
    MulLe(p + 1, q, page);
    assert (p + 1) * page == p * page + page;
  }

  function Slice(mem: seq<byte>, at: nat, page: nat, p: nat): (s: seq<byte>)
    requires 0 <= p * page && at + p * page + page <= |mem|
    ensures |s| == page
  {
    mem[at + p * page..at + p * page + page]
  }

  predicate Live(s: PageState) {
    s == Shared || s == Modified || s == Flushing
  }

  /** Arrays large enough for n pages. */
  predicate Fits(st: seq<PageState>, pr: seq<Prot>, base: seq<byte>, dev: seq<byte>, at: nat, page: nat, n: nat) {
    |st| == |pr| == n && n * page <= |base| && at + n * page <= |dev| && page > 0
  }

  function PageOf(st: seq<PageState>, pr: seq<Prot>, base: seq<byte>, dev: seq<byte>, at: nat, page: nat, n: nat,
          p: nat): Page
    requires Fits(st, pr, base, dev, at, page, n) && p < n
  {
    RowBound(p, n, page);
    Page(st[p], pr[p], if Live(st[p]) then Slice(base, 0, page, p) else [], Slice(dev, at, page, p))
  }

  function ViewOf(st: seq<PageState>, pr: seq<Prot>, base: seq<byte>, dev: seq<byte>, at: nat, page: nat,
          n: nat): (w: Pages)
    requires Fits(st, pr, base, dev, at, page, n)
    ensures |w| == n
  {
    seq(n, p requires 0 <= p < n => PageOf(st, pr, base, dev, at, page, n, p))
  }

  /** Copying a run of pages replaces exactly those pages. */
  lemma SplicePages(dst: seq<byte>, at: nat, src: seq<byte>, from: nat, page: nat, n: nat, lo: nat, k: nat, p: nat)
    requires lo + k <= n && p < n && at + n * page <= |dst| && from + n * page <= |src|
    requires 0 <= lo * page && 0 <= k * page && lo * page + k * page <= n * page
    requires 0 <= p * page && p * page + page <= n * page
    ensures Slice(Splice(dst, at + lo * page, src[from + lo * page..from + lo * page + k * page]), at, page, p) ==
            if lo <= p < lo + k then Slice(src, from, page, p) else Slice(dst, at, page, p)
  {
    var d := src[from + lo * page..from + lo * page + k * page];
    var r := Splice(dst, at + lo * page, d);
    hide Splice;
    assert lo * page + k * page == (lo + k) * page;
    if p < lo {
      PageApart(p, lo, page);
    } else if p >= lo + k {
      MulLe(lo + k, p, page);
    } else {
      MulLe(lo, p, page);
      PageApart(p, lo + k, page);
      forall i | 0 <= i < page
        ensures Slice(r, at, page, p)[i] == Slice(src, from, page, p)[i]
      {
        assert r[at + p * page + i] == d[p * page + i - lo * page];
      }
    }
  }

  lemma PageRange(lo: nat, k: nat, n: nat, page: nat)
    requires lo + k <= n
    ensures 0 <= lo * page && 0 <= k * page && lo * page + k * page <= n * page
  {
    MulLe(lo + k, n, page);
    assert (lo + k) * page == lo * page + k * page;
  }

  class Window {
    const page: nat
    const npages: nat
    const devBase: nat
    const prefetch: nat
    const strict: bool
    const base: array<byte>
    const dev: array<byte>
    const state: array<PageState>
    const prot: array<Prot>
    var readFaults: nat
    var writeUpgrades: nat
    var pagesFetched: nat
    var pagesFlushed: nat
    var fetchCalls: nat
    var flushCalls: nat
    var biasViolations: nat

    ghost predicate Shape()
      reads state, prot, base, dev
    {
      Fits(state[..], prot[..], base[..], dev[..], devBase, page, npages) && base != dev && base.Length == npages * page
    }

    ghost function View(): (w: Pages)
      reads state, prot, base, dev
      requires Shape()
      ensures |w| == npages
    {
      ViewOf(state[..], prot[..], base[..], dev[..], devBase, page, npages)
    }

    ghost predicate Valid()
      reads state, prot, base, dev
    {
      Shape() && Coherent(View(), page)
    }

    /** `cxlwin_create`: the size is rounded up to whole pages and every page starts INVALID. */
    constructor (size: nat, devBase: nat, prefetchPages: nat, strict: bool, dev: array<byte>, page: nat)
      requires page > 0 && devBase + CeilDiv(size, page) * page <= dev.Length
      ensures Valid() && fresh(base) && fresh(state) && fresh(prot) && this.dev == dev && this.page == page
      ensures npages == CeilDiv(size, page) && this.devBase == devBase && this.strict == strict
      ensures prefetch == if prefetchPages > 0 then prefetchPages else 1
      ensures forall p :: 0 <= p < npages ==> View()[p].state == Invalid
      ensures fetchCalls == pagesFetched == readFaults == 0
    {
      var n := CeilDiv(size, page);
      this.page, npages, this.devBase, this.strict, this.dev := page, n, devBase, strict, dev;
      prefetch := if prefetchPages > 0 then prefetchPages else 1;
      state := new PageState[n](_ => Invalid);
      prot := new Prot[n](_ => NoAccess);
      base := new byte[n * page](_ => 0);
      readFaults, writeUpgrades, pagesFetched, pagesFlushed := 0, 0, 0, 0;
      fetchCalls, flushCalls, biasViolations := 0, 0, 0;
    }

    method SetStates(lo: nat, k: nat, s: PageState)
      requires lo + k <= state.Length
      modifies state
      ensures forall p :: 0 <= p < state.Length ==> state[p] == if lo <= p < lo + k then s else old(state[p])
    {
      forall p | lo <= p < lo + k {
        state[p] := s;
      }
    }

    /** `mprotect` on a run of pages. */
    method Protect(lo: nat, k: nat, q: Prot)
      requires lo + k <= prot.Length
      modifies prot
      ensures forall p :: 0 <= p < prot.Length ==> prot[p] == if lo <= p < lo + k then q else old(prot[p])
    {
      forall p | lo <= p < lo + k {
        prot[p] := q;
      }
    }

    /** The backend read of k pages; a failed one may leave any prefix behind. */
    method BackendRead(lo: nat, k: nat, ok: bool)
      requires Shape() && lo + k <= npages && 0 <= lo * page && 0 <= k * page && lo * page + k * page <= npages * page
      modifies base
      ensures ok ==> base[..] == Splice(old(base[..]), lo * page,
              dev[devBase + lo * page..devBase + lo * page + k * page])
      ensures forall i :: 0 <= i < base.Length && !(lo * page <= i < lo * page + k * page) ==> base[i] == old(base[i])
    {
      var len := k * page;
      if !ok {
        len :| 0 <= len <= k * page;
      }
      Kernels.Copy(base, lo * page, dev[devBase + lo * page..devBase + lo * page + len]);
      assert forall i :: 0 <= i < base.Length ==> base[i] == base[..][i];
    }

    /** The two trimming loops of `fetch_pages`. */
    method Trim(first: nat, count: nat) returns (lo: nat, n: nat)
      requires Valid() && first + count <= npages
      ensures lo == Lo(View(), first, first + count) && lo + n == Hi(View(), lo, first + count)
    {
      hide Coherent, ViewOf, PageOf, Fits;
      StatesOf();
      lo, n := first, count;
      while n > 0 && state[lo] != Invalid && state[lo] != Device
        invariant lo + n == first + count && first <= lo
        invariant Lo(View(), first, first + count) == Lo(View(), lo, first + count)
        decreases n
      {
        lo, n := lo + 1, n - 1;
      }
      while n > 0 && state[lo + n - 1] != Invalid && state[lo + n - 1] != Device
        invariant lo + n <= first + count && lo == Lo(View(), first, first + count)
        invariant Hi(View(), lo, first + count) == Hi(View(), lo, lo + n)
        decreases n
      {
        n := n - 1;
      }
    }

    method FetchPages(first: nat, count: nat, ok: bool) returns (rc: int)
      requires Valid() && first + count <= npages
      modifies state, prot, base, this`pagesFetched, this`fetchCalls
      ensures Valid() && View() == Fetch(old(View()), first, count, ok)
      ensures var lo := Lo(old(View()), first, first + count);
              var hi := Hi(old(View()), lo, first + count);
              && rc == (if lo < hi && !ok then -1 else 0)
              && fetchCalls == old(fetchCalls) + (if lo < hi then 1 else 0)
              && pagesFetched == old(pagesFetched) + (if lo < hi && ok then hi - lo else 0)
    {
      hide Coherent, ViewOf, PageOf, Splice, Lo, Hi;
      ghost var w := View();
      var lo, n := Trim(first, count);
      FetchOk(w, page, first, count, ok);
      if n == 0 {
        return 0;
      }
      PageRange(lo, n, npages, page);
      ghost var st, pr, bs := state[..], prot[..], base[..];
      SetStates(lo, n, Fetching);
      Protect(lo, n, ReadWrite);
      BackendRead(lo, n, ok);
      fetchCalls := fetchCalls + 1;
      if !ok {
        Protect(lo, n, NoAccess);
        SetStates(lo, n, Invalid);
        FetchedView(w, st, pr, bs, first, count, lo, n, ok);
        return -1;
      }
      pagesFetched := pagesFetched + n;
      Protect(lo, n, ReadOnly);
      SetStates(lo, n, Shared);
      FetchedView(w, st, pr, bs, first, count, lo, n, ok);
      return 0;
    }

    lemma StatesOf()
      requires Shape()
      ensures state.Length == prot.Length == npages && base.Length == npages * page
              && devBase + npages * page <= dev.Length && page > 0
      ensures forall p :: 0 <= p < npages ==> View()[p].state == state[p] && View()[p].prot == prot[p]
    {
    }

    lemma FetchedView(w: Pages, st: seq<PageState>, pr: seq<Prot>, bs: seq<byte>, first: nat, count: nat, lo: nat,
            n: nat, ok: bool)
      requires base != dev && base.Length == npages * page == |bs| && state.Length == prot.Length == npages
      requires Fits(st, pr, bs, dev[..], devBase, page, npages)
               && w == ViewOf(st, pr, bs, dev[..], devBase, page, npages)
      requires first + count <= npages && lo == Lo(w, first, first + count) && n > 0
               && lo + n == Hi(w, lo, first + count)
      requires 0 <= lo * page && 0 <= n * page && lo * page + n * page <= npages * page
      requires forall p :: 0 <= p < npages ==> state[p] == if lo <= p < lo + n then (if ok then Shared else Invalid)
               else st[p]
      requires forall p :: 0 <= p < npages ==> prot[p] == if lo <= p < lo + n then (if ok then ReadOnly else NoAccess)
               else pr[p]
      requires ok ==> base[..] == Splice(bs, lo * page, dev[devBase + lo * page..devBase + lo * page + n * page])
      requires forall i :: 0 <= i < base.Length && !(lo * page <= i < lo * page + n * page) ==> base[i] == bs[i]
      ensures Shape() && View() == Fetch(w, first, count, ok)
    {
      hide Lo, Hi, Splice, PageOf;
      forall p | 0 <= p < npages
        ensures View()[p] == Fetch(w, first, count, ok)[p]
      {
        FetchedPageView(w, st, pr, bs, lo, n, ok, p);
      }
    }

    lemma FetchedPageView(w: Pages, st: seq<PageState>, pr: seq<Prot>, bs: seq<byte>, lo: nat, n: nat, ok: bool, p: nat)
      requires base != dev && base.Length == npages * page == |bs| && state.Length == prot.Length == npages
      requires Fits(st, pr, bs, dev[..], devBase, page, npages)
               && w == ViewOf(st, pr, bs, dev[..], devBase, page, npages)
      requires lo + n <= npages && p < npages
      requires 0 <= lo * page && 0 <= n * page && lo * page + n * page <= npages * page
      requires state[p] == if lo <= p < lo + n then (if ok then Shared else Invalid) else st[p]
      requires prot[p] == if lo <= p < lo + n then (if ok then ReadOnly else NoAccess) else pr[p]
      requires ok ==> base[..] == Splice(bs, lo * page, dev[devBase + lo * page..devBase + lo * page + n * page])
      requires forall i :: 0 <= i < base.Length && !(lo * page <= i < lo * page + n * page) ==> base[i] == bs[i]
      ensures Shape() && View()[p] == if lo <= p < lo + n then FetchedPage(w[p], ok) else w[p]
    {
      hide Splice, Slice;
      RowBound(p, npages, page);
      assert View()[p] == PageOf(state[..], prot[..], base[..], dev[..], devBase, page, npages, p);
      assert w[p] == PageOf(st, pr, bs, dev[..], devBase, page, npages, p);
      if lo <= p < lo + n {
        if ok {
          SplicePages(bs, 0, dev[..], devBase, page, npages, lo, n, p);
          assert dev[..][devBase + lo * page..devBase + lo * page + n * page]
                 == dev[devBase + lo * page..devBase + lo * page + n * page];
        }
      } else {
        OtherPage(bs, lo, n, p);
      }
    }

    lemma OtherPage(bs: seq<byte>, lo: nat, n: nat, p: nat)
      requires base.Length == npages * page == |bs| && lo + n <= npages && p < npages && !(lo <= p < lo + n)
      requires forall i :: 0 <= i < base.Length && !(lo * page <= i < lo * page + n * page) ==> base[i] == bs[i]
      requires 0 <= p * page && p * page + page <= npages * page
      ensures Slice(base[..], 0, page, p) == Slice(bs, 0, page, p)
    {
      assert lo * page + n * page == (lo + n) * page;
      if p < lo {
        PageApart(p, lo, page);
      } else {
        MulLe(lo + n, p, page);
      }
    }

    /** Only page p changed, in state, protection or contents. */
    lemma OneView(w: Pages, st: seq<PageState>, pr: seq<Prot>, bs: seq<byte>, dv: seq<byte>, p: nat)
      requires base != dev && base.Length == npages * page == |bs| && dev.Length == |dv|
               && state.Length == prot.Length == npages
      requires Fits(st, pr, bs, dv, devBase, page, npages) && w == ViewOf(st, pr, bs, dv, devBase, page, npages)
               && p < npages
      requires forall q :: 0 <= q < npages && q != p ==> state[q] == st[q] && prot[q] == pr[q]
      requires forall i :: 0 <= i < base.Length && !(p * page <= i < p * page + page) ==> base[i] == bs[i]
      requires forall i :: 0 <= i < dev.Length && !(devBase + p * page <= i < devBase + p * page + page)
                 ==> dev[i] == dv[i]
      ensures Shape() && View() == w[p := PageOf(state[..], prot[..], base[..], dev[..], devBase, page, npages, p)]
    {
      hide Slice, PageOf;
      forall q | 0 <= q < npages && q != p
        ensures View()[q] == w[q]
      {
        SamePage(w, st, pr, bs, dv, p, q);
      }
    }

    lemma SamePage(w: Pages, st: seq<PageState>, pr: seq<Prot>, bs: seq<byte>, dv: seq<byte>, p: nat, q: nat)
      requires base != dev && base.Length == npages * page == |bs| && dev.Length == |dv|
               && state.Length == prot.Length == npages
      requires Fits(st, pr, bs, dv, devBase, page, npages) && w == ViewOf(st, pr, bs, dv, devBase, page, npages)
      requires p < npages && q < npages && q != p && state[q] == st[q] && prot[q] == pr[q]
      requires forall i :: 0 <= i < base.Length && !(p * page <= i < p * page + page) ==> base[i] == bs[i]
      requires forall i :: 0 <= i < dev.Length && !(devBase + p * page <= i < devBase + p * page + page)
                 ==> dev[i] == dv[i]
      ensures Shape() && View()[q] == w[q]
    {
      RowBound(q, npages, page);
      RowBound(p, npages, page);
      assert View()[q] == PageOf(state[..], prot[..], base[..], dev[..], devBase, page, npages, q);
      assert w[q] == PageOf(st, pr, bs, dv, devBase, page, npages, q);
      if q < p {
        PageApart(q, p, page);
      } else {
        PageApart(p, q, page);
      }
      assert Slice(base[..], 0, page, q) == Slice(bs, 0, page, q);
      assert Slice(dev[..], devBase, page, q) == Slice(dv, devBase, page, q);
    }

    /** The page as it stands. */
    lemma ThePage(p: nat)
      requires Shape() && p < npages
      ensures 0 <= p * page && p * page + page <= npages * page
      ensures View()[p] == PageOf(state[..], prot[..], base[..], dev[..], devBase, page, npages, p)
      ensures View()[p] == Page(state[p], prot[p], if Live(state[p]) then Slice(base[..], 0, page, p) else [],
              Slice(dev[..], devBase, page, p))
    {
      RowBound(p, npages, page);
    }

    lemma KeepCoherent(w: Pages, p: nat, g: Page)
      requires Shape() && Coherent(w, page) && |w| == npages && p < npages && View() == w[p := g] && PageOk(g, page)
      ensures Valid()
    {
    }

    /** `flush_page`: write a dirty page back; the outcome of the backend write is `ok`. */
    method FlushPage(p: nat, ok: bool) returns (rc: int)
      requires Valid() && p < npages
      modifies state, prot, dev, this`pagesFlushed, this`flushCalls
      ensures Valid() && View() == old(View())[p := OnPage(Flush, old(View()[p]), ok)]
      ensures rc == if old(View()[p].state) == Modified && !ok then -1 else 0
      ensures flushCalls == old(flushCalls) + if old(View()[p].state) == Modified then 1 else 0
      ensures pagesFlushed == old(pagesFlushed) + if old(View()[p].state) == Modified && ok then 1 else 0
    {
      hide Coherent, ViewOf, PageOf, Splice, Slice, Fits;
      ghost var w, st, pr, bs, dv := View(), state[..], prot[..], base[..], dev[..];
      ThePage(p);
      PageAt(w, page, p);
      StatesOf();
      if state[p] != Modified {
        assert w[p := w[p]] == w;
        return 0;
      }
      state[p] := Flushing;
      flushCalls := flushCalls + 1;
      if !ok {
        state[p] := Modified;
        OneView(w, st, pr, bs, dv, p);
        ThePage(p);
        assert View()[p] == w[p];
        KeepCoherent(w, p, w[p]);
        return -1;
      }
      Kernels.Copy(dev, devBase + p * page, base[p * page..p * page + page]);
      pagesFlushed := pagesFlushed + 1;
      prot[p] := ReadOnly;
      state[p] := Shared;
      Written(dv, p);
      OneView(w, st, pr, bs, dv, p);
      ThePage(p);
      assert View()[p] == OnPage(Flush, w[p], ok);
      KeepCoherent(w, p, View()[p]);
      return 0;
    }

    lemma Written(dv: seq<byte>, p: nat)
      requires p < npages && 0 <= p * page && p * page + page <= npages * page == base.Length
               && devBase + npages * page <= dev.Length == |dv|
      requires dev[..] == Splice(dv, devBase + p * page, base[p * page..p * page + page])
      ensures Slice(dev[..], devBase, page, p) == Slice(base[..], 0, page, p)
      ensures forall i :: 0 <= i < dev.Length && !(devBase + p * page <= i < devBase + p * page + page)
                ==> dev[i] == dv[i]
    {
      assert forall i :: 0 <= i < dev.Length ==> dev[i] == dev[..][i];
    }

    /** State and protection of one page set, contents untouched. */
    method Mark(p: nat, s: PageState, q: Prot)
      requires Shape() && p < npages && state.Length == npages && (Live(s) ==> Live(state[p]))
      modifies state, prot
      ensures Shape() && state.Length == npages && state[p] == s
      ensures View() == old(View())[p := Page(s, q, if Live(s) then old(View())[p].host else [], old(View())[p].dev)]
    {
      hide ViewOf, PageOf, Slice;
      ghost var w, st, pr, bs, dv := View(), state[..], prot[..], base[..], dev[..];
      ThePage(p);
      state[p] := s;
      prot[p] := q;
      OneView(w, st, pr, bs, dv, p);
      ThePage(p);
    }

    // ----- faults -----

    /** `service_fault`; a strict window reports an abort on a DEVICE page. */
    method ServiceFault(p: nat, ok: bool) returns (aborted: bool)
      requires Valid() && p < npages
      modifies state, prot, base, this`pagesFetched, this`fetchCalls, this`readFaults, this`writeUpgrades,
        this`biasViolations
      ensures Valid() && aborted == (strict && old(View()[p].state) == Device)
      ensures View() == if aborted then old(View()) else Fault(old(View()), p, prefetch, ok)
      ensures var was := old(View()[p].state);
              && readFaults == old(readFaults) + (if was == Invalid || (was == Device && !strict) then 1 else 0)
              && writeUpgrades == old(writeUpgrades) + (if was == Shared then 1 else 0)
              && biasViolations == old(biasViolations) + (if was == Device then 1 else 0)
      ensures old(View()[p].state) == Invalid ==>
                var n := BatchSize(prefetch, p, npages);
                var lo := Lo(old(View()), p, p + n); var hi := Hi(old(View()), lo, p + n);
                && fetchCalls == old(fetchCalls) + (if lo < hi then 1 else 0)
                && pagesFetched == old(pagesFetched) + (if lo < hi && ok then hi - lo else 0)
    {
      hide Coherent, ViewOf, PageOf, Fetch, Lo, Hi, Slice, Fits;
      ghost var w := View();
      ThePage(p);
      PageAt(w, page, p);
      StatesOf();
      match state[p] {
        case Device =>
          biasViolations := biasViolations + 1;
          if strict {
            return true;
          }
          readFaults := readFaults + 1;
          var rc := FetchPages(p, BatchSize(prefetch, p, npages), ok);
        case Invalid =>
          readFaults := readFaults + 1;
          var rc := FetchPages(p, BatchSize(prefetch, p, npages), ok);
        case Shared =>
          writeUpgrades := writeUpgrades + 1;
          Mark(p, Modified, ReadWrite);
          ThePage(p);
          KeepCoherent(w, p, View()[p]);
        case Modified =>
          Mark(p, Modified, ReadWrite);
          ThePage(p);
          KeepCoherent(w, p, View()[p]);
        case _ =>
      }
      return false;
    }

    // ----- the public operations -----

    /** `range_pages`: the pages [a, b) of a byte range, if it starts inside the window; length 0 means "to the end". */
    function PagesOf(off: nat, len: nat): (r: (bool, nat, nat))
      requires page > 0
      ensures r.0 == (off < npages * page)
      ensures r.1 <= r.2 <= npages
      ensures r.0 ==> r.1 == off / page && r.1 < r.2
    {
      var size := npages * page;
      if off >= size then (false, 0, 0)
      else
        var l := if len == 0 || off + len > size then size - off else len;
        LastPage(off + l - 1);
        DivLe(off, off + l - 1, page);
        (true, off / page, (off + l - 1) / page + 1)
    }

    /** Byte i of the window is asked for: at or behind off, and in front of off + len unless len is 0. */
    predicate Asked(off: nat, len: nat, i: nat) {
      off <= i < npages * page && (len == 0 || i < off + len)
    }

    /** Page q holds a byte that is asked for. */
    ghost predicate Hit(off: nat, len: nat, q: nat)
      requires page > 0
    {
      exists i: nat :: Asked(off, len, i) && i / page == q
    }

    /** The page range is that of the bytes asked for: every page that holds one of them, and no other. */
    lemma PagesAreHit(off: nat, len: nat)
      requires page > 0
      ensures var r := PagesOf(off, len);
              && (r.0 <==> Asked(off, len, off))
              && forall q: nat :: Hit(off, len, q) <==> r.0 && r.1 <= q < r.2
    {
      var r := PagesOf(off, len);
      forall q: nat
        ensures Hit(off, len, q) <==> r.0 && r.1 <= q < r.2
      {
        if r.0 && r.1 <= q < r.2 {
          HitPage(off, len, q);
        }
        if i: nat :| Asked(off, len, i) && i / page == q {
          DivLe(off, i, page);
          DivLe(i, if len == 0 || off + len > npages * page then npages * page - 1 else off + len - 1, page);
        }
      }
    }

    lemma HitPage(off: nat, len: nat, q: nat)
      requires page > 0 && PagesOf(off, len).0 && PagesOf(off, len).1 <= q < PagesOf(off, len).2
      ensures Hit(off, len, q)
    {
      var size := npages * page;
      var l := if len == 0 || off + len > size then size - off else len;
      if q == off / page {
        assert Asked(off, len, off);
      } else {
        var i := q * page;
        DivBound(off, q, page);
        DivBound(off + l - 1, q, page);
        DivModUnique(i, page, q, 0);
        assert Asked(off, len, i);
      }
    }

    /** Length 0 from the start is the whole window. */
    lemma AllHit(q: nat)
      requires page > 0 && q < npages
      ensures Hit(0, 0, q)
    {
      PageStart(q);
      assert Asked(0, 0, q * page);
    }

    /** The page of a byte asked for. */
    lemma AskedPage(off: nat, len: nat, i: nat)
      requires page > 0 && Asked(off, len, i)
      ensures i / page < npages && i % page < page && i == i / page * page + i % page && Hit(off, len, i / page)
    {
      LastPage(i);
    }

    /** Every dirty page hit is written back. */
    ghost predicate AllWritten(w: Pages, off: nat, len: nat, ok: nat -> bool)
      requires page > 0
    {
      forall q :: 0 <= q < |w| && Hit(off, len, q) && w[q].state == Modified ==> ok(q)
    }

    /** One write-back for each dirty page of the range, and one page written for each that succeeds. */
    ghost predicate FlushCounted(w: Pages, off: nat, len: nat, ok: nat -> bool, calls: nat, pages: nat)
      reads this
      requires page > 0 && |w| == npages
    {
      var r := PagesOf(off, len);
      flushCalls == calls + Dirty(w, r.1, r.2, _ => true) && pagesFlushed == pages + Dirty(w, r.1, r.2, ok)
    }

    /** A range operation on the pages hit, and on no other. */
    ghost predicate Did(w: Pages, op: RangeOp, off: nat, len: nat, ok: nat -> bool)
      reads state, prot, base, dev
      requires Shape() && |w| == npages
    {
      forall q :: 0 <= q < npages ==> View()[q] == if Hit(off, len, q) then OnPage(op, w[q], ok(q)) else w[q]
    }

    lemma DidRange(w: Pages, op: RangeOp, off: nat, len: nat, ok: nat -> bool)
      requires Shape() && |w| == npages && PagesOf(off, len).0
      requires View() == OnRange(w, op, PagesOf(off, len).1, PagesOf(off, len).2, ok)
      ensures Did(w, op, off, len, ok)
    {
      hide PagesOf, Hit, OnPage, ViewOf, Fits;
      PagesAreHit(off, len);
    }

    /** What the host would load from byte i: the host copy of a dirty page, else the device. */
    ghost function Current(i: nat): byte
      reads state, prot, base, dev
      requires Shape() && i < npages * page
    {
      LastPage(i);
      RowBound(i / page, npages, page);
      if state[i / page] == Modified then base[i] else dev[devBase + i]
    }

    /** What an engine would read there. */
    ghost function OnDevice(i: nat): byte
      reads state, prot, base, dev
      requires Shape() && i < npages * page
    {
      dev[devBase + i]
    }

    ghost function StateOf(i: nat): PageState
      reads state, prot, base, dev
      requires Shape() && i < npages * page
    {
      LastPage(i);
      state[i / page]
    }

    /** The same in a page view. */
    ghost function TruthAt(w: Pages, i: nat): byte
      requires page > 0
    {
      if i / page < |w| && i % page < |Truth(w[i / page])| then Truth(w[i / page])[i % page] else 0
    }

    ghost function DevAt(w: Pages, i: nat): byte
      requires page > 0
    {
      if i / page < |w| && i % page < |w[i / page].dev| then w[i / page].dev[i % page] else 0
    }

    ghost function StateAt(w: Pages, i: nat): PageState
      requires page > 0
    {
      if i / page < |w| then w[i / page].state else Invalid
    }

    /** A dirty page that is written back becomes SHARED. */
    ghost function FlushedState(w: Pages, ok: nat -> bool, i: nat): PageState
      requires page > 0
    {
      if StateAt(w, i) == Modified && ok(i / page) then Shared else StateAt(w, i)
    }

    lemma CurrentIs(i: nat)
      requires Valid() && i < npages * page
      ensures Current(i) == TruthAt(View(), i) && OnDevice(i) == DevAt(View(), i) && StateOf(i) == StateAt(View(), i)
    {
      hide Coherent, ViewOf, Fits;
      StatesOf();
      PageOfByte(i);
      ThePage(i / page);
      PageAt(View(), page, i / page);
    }

    lemma CurrentsAre()
      requires Valid()
      ensures page > 0
      ensures forall i: nat :: i < npages * page ==> Current(i) == TruthAt(View(), i)
      ensures forall i: nat :: i < npages * page ==> OnDevice(i) == DevAt(View(), i)
      ensures forall i: nat :: i < npages * page ==> StateOf(i) == StateAt(View(), i)
    {
      hide Coherent, ViewOf, PageOf, Fits, Current, OnDevice, StateOf, TruthAt, DevAt, StateAt;
      StatesOf();
      forall i: nat | i < npages * page
        ensures Current(i) == TruthAt(View(), i) && OnDevice(i) == DevAt(View(), i)
        ensures StateOf(i) == StateAt(View(), i)
      {
        CurrentIs(i);
      }
    }

    /** A range operation, byte by byte. */
    lemma DidByte(w: Pages, op: RangeOp, off: nat, len: nat, ok: nat -> bool, i: nat)
      requires Valid() && |w| == npages && Coherent(w, page) && Did(w, op, off, len, ok) && Asked(off, len, i)
      ensures i / page < npages && Hit(off, len, i / page)
      ensures op == Release ==> StateOf(i) == Device
      ensures (op == Release || op == Flush) && (w[i / page].state == Modified ==> ok(i / page)) ==>
                OnDevice(i) == Current(i) == TruthAt(w, i)
      ensures op == Acquire ==> StateOf(i) == if StateAt(w, i) == Device then Invalid else StateAt(w, i)
      ensures op == Acquire ==> Current(i) == TruthAt(w, i)
      ensures op == Invalidate ==> StateOf(i) == if StateAt(w, i) == Device then Device else Invalid
      ensures op == Invalidate ==> Current(i) == OnDevice(i) == DevAt(w, i)
      ensures op == Flush ==> Current(i) == TruthAt(w, i)
      ensures op == Flush ==> StateOf(i) == FlushedState(w, ok, i)
    {
      hide Coherent, ViewOf, PageOf, Fits, Hit, Current, OnDevice, StateOf, OnPage, PageOk;
      StatesOf();
      AskedPage(off, len, i);
      CurrentIs(i);
      PageAt(w, page, i / page);
      assert View()[i / page] == OnPage(op, w[i / page], ok(i / page));
      OnPageDoes(op, w[i / page], ok(i / page), page);
    }

    /** Pages written back leave every byte asked for on the device. */
    lemma WrittenBytes(w: Pages, op: RangeOp, off: nat, len: nat, ok: nat -> bool)
      requires Valid() && |w| == npages && Coherent(w, page) && Did(w, op, off, len, ok) && page > 0
      requires op == Release || op == Flush
      ensures AllWritten(w, off, len, ok) ==>
                forall i: nat :: Asked(off, len, i) ==> OnDevice(i) == Current(i) == TruthAt(w, i)
      ensures op == Release ==> forall i: nat :: Asked(off, len, i) ==> StateOf(i) == Device
      ensures op == Flush ==> forall i: nat :: Asked(off, len, i) ==>
                Current(i) == TruthAt(w, i) && StateOf(i) == FlushedState(w, ok, i)
    {
      hide Coherent, ViewOf, PageOf, Fits, Hit, Did, Current, OnDevice, StateOf, TruthAt, FlushedState;
      forall i: nat | Asked(off, len, i)
        ensures op == Release ==> StateOf(i) == Device
        ensures op == Flush ==> Current(i) == TruthAt(w, i)
        ensures op == Flush ==> StateOf(i) == FlushedState(w, ok, i)
        ensures i / page < npages && Hit(off, len, i / page)
        ensures (w[i / page].state == Modified ==> ok(i / page)) ==> OnDevice(i) == Current(i) == TruthAt(w, i)
      {
        DidByte(w, op, off, len, ok, i);
      }
    }

    lemma LastPage(i: nat)
      requires page > 0 && i < npages * page
      ensures i / page < npages
    {
      assert i == i / page * page + i % page;
      if i / page >= npages {
        MulLe(npages, i / page, page);
      }
    }

    /** The state of the window after a range operation has reached page q. */
    lemma RangeNext(w: Pages, op: RangeOp, a: nat, q: nat, ok: nat -> bool)
      requires a <= q < |w|
      ensures OnRange(w, op, a, q, ok)[q] == w[q]
      ensures OnRange(w, op, a, q + 1, ok) == OnRange(w, op, a, q, ok)[q := OnPage(op, w[q], ok(q))]
    {
    }

    lemma RangeNone(w: Pages, op: RangeOp, a: nat, ok: nat -> bool)
      ensures OnRange(w, op, a, a, ok) == w
    {
    }

    method ReleasePage(p: nat, ok: bool) returns (rc: int)
      requires Valid() && p < npages
      modifies state, prot, dev, this`pagesFlushed, this`flushCalls
      ensures Valid() && View() == old(View())[p := OnPage(Release, old(View()[p]), ok)]
      ensures rc == if old(View()[p].state) == Modified && !ok then -1 else 0
      ensures flushCalls == old(flushCalls) + if old(View()[p].state) == Modified then 1 else 0
      ensures pagesFlushed == old(pagesFlushed) + if old(View()[p].state) == Modified && ok then 1 else 0
    {
      hide Coherent, ViewOf, PageOf, Fits, Slice;
      ghost var w := View();
      StatesOf();
      ThePage(p);
      PageAt(w, page, p);
      rc := 0;
      if state[p] == Modified {
        rc := FlushPage(p, ok);
      }
      StatesOf();
      ghost var v := View();
      Mark(p, Device, NoAccess);
      KeepCoherent(v, p, View()[p]);
    }

    /** The loop of `cxlwin_release`. */
    method ReleasePages(a: nat, b: nat, ok: nat -> bool) returns (rc: int)
      requires Valid() && a <= b <= npages
      modifies state, prot, dev, this`pagesFlushed, this`flushCalls
      ensures Valid() && View() == OnRange(old(View()), Release, a, b, ok) && (rc == 0 || rc == -1)
      ensures rc == 0 <==> forall q :: a <= q < b && old(View())[q].state == Modified ==> ok(q)
      ensures flushCalls == old(flushCalls) + Dirty(old(View()), a, b, _ => true)
      ensures pagesFlushed == old(pagesFlushed) + Dirty(old(View()), a, b, ok)
    {
      hide Coherent, ViewOf, PageOf, Fits, Slice, OnPage, OnRange;
      StatesOf();
      ghost var w := View();
      rc := 0;
      var p := a;
      RangeNone(w, Release, a, ok);
      while p < b
        invariant a <= p <= b && Valid() && View() == OnRange(w, Release, a, p, ok)
        invariant flushCalls == old(flushCalls) + Dirty(w, a, p, _ => true)
        invariant pagesFlushed == old(pagesFlushed) + Dirty(w, a, p, ok)
        invariant rc == 0 || rc == -1
        invariant rc == 0 <==> forall q :: a <= q < p && w[q].state == Modified ==> ok(q)
      {
        RangeNext(w, Release, a, p, ok);
        var c := ReleasePage(p, ok(p));
        if c != 0 {
          rc := -1;
        }
        p := p + 1;
      }
    }

    /** `cxlwin_release`: write dirty pages back and hand the range to the device. */
    method ReleaseRange(off: nat, len: nat, ok: nat -> bool) returns (rc: int)
      requires Valid()
      modifies state, prot, dev, this`pagesFlushed, this`flushCalls
      ensures Valid()
      ensures off >= npages * page ==> rc == -1 && View() == old(View())
      ensures off < npages * page ==> Did(old(View()), Release, off, len, ok)
      ensures off < npages * page ==> rc == if AllWritten(old(View()), off, len, ok) then 0 else -1
      ensures off < npages * page ==> FlushCounted(old(View()), off, len, ok, old(flushCalls), old(pagesFlushed))
      ensures forall i: nat :: Asked(off, len, i) ==> StateOf(i) == Device
      ensures rc == 0 ==> forall i: nat :: Asked(off, len, i) ==> OnDevice(i) == Current(i) == old(Current(i))
    {
      hide Coherent, ViewOf, PageOf, Fits, OnPage, OnRange, Hit, Did, Current, OnDevice, StateOf, TruthAt, Dirty,
           PagesOf;
      StatesOf();
      PagesAreHit(off, len);
      CurrentsAre();
      var r := PagesOf(off, len);
      if !r.0 {
        return -1;
      }
      ghost var w := View();
      rc := ReleasePages(r.1, r.2, ok);
      DidRange(w, Release, off, len, ok);
      WrittenBytes(w, Release, off, len, ok);
    }

    /** The loop of `cxlwin_flush`. */
    method FlushPages(a: nat, b: nat, ok: nat -> bool) returns (rc: int)
      requires Valid() && a <= b <= npages
      modifies state, prot, dev, this`pagesFlushed, this`flushCalls
      ensures Valid() && View() == OnRange(old(View()), Flush, a, b, ok) && (rc == 0 || rc == -1)
      ensures rc == 0 <==> forall q :: a <= q < b && old(View())[q].state == Modified ==> ok(q)
      ensures flushCalls == old(flushCalls) + Dirty(old(View()), a, b, _ => true)
      ensures pagesFlushed == old(pagesFlushed) + Dirty(old(View()), a, b, ok)
    {
      hide Coherent, ViewOf, PageOf, Fits, Slice, OnPage, OnRange;
      StatesOf();
      ghost var w := View();
      rc := 0;
      var p := a;
      RangeNone(w, Flush, a, ok);
      while p < b
        invariant a <= p <= b && Valid() && View() == OnRange(w, Flush, a, p, ok)
        invariant flushCalls == old(flushCalls) + Dirty(w, a, p, _ => true)
        invariant pagesFlushed == old(pagesFlushed) + Dirty(w, a, p, ok)
        invariant rc == 0 || rc == -1
        invariant rc == 0 <==> forall q :: a <= q < p && w[q].state == Modified ==> ok(q)
      {
        RangeNext(w, Flush, a, p, ok);
        var c := FlushPage(p, ok(p));
        if c != 0 {
          rc := -1;
        }
        p := p + 1;
      }
    }

    /** `cxlwin_flush`: write dirty pages back and keep the host copies. */
    method FlushRange(off: nat, len: nat, ok: nat -> bool) returns (rc: int)
      requires Valid()
      modifies state, prot, dev, this`pagesFlushed, this`flushCalls
      ensures Valid()
      ensures off >= npages * page ==> rc == -1 && View() == old(View())
      ensures off < npages * page ==> Did(old(View()), Flush, off, len, ok)
      ensures off < npages * page ==> rc == if AllWritten(old(View()), off, len, ok) then 0 else -1
      ensures off < npages * page ==> FlushCounted(old(View()), off, len, ok, old(flushCalls), old(pagesFlushed))
      ensures rc == 0 ==> forall i: nat :: Asked(off, len, i) ==> OnDevice(i) == Current(i) == old(Current(i))
      ensures forall i: nat :: Asked(off, len, i) ==>
                Current(i) == old(Current(i)) && StateOf(i) == FlushedState(old(View()), ok, i)
    {
      hide Coherent, ViewOf, PageOf, Fits, OnPage, OnRange, Hit, Did, Current, OnDevice, StateOf, TruthAt, Dirty,
           PagesOf, FlushedState;
      StatesOf();
      PagesAreHit(off, len);
      CurrentsAre();
      var r := PagesOf(off, len);
      if !r.0 {
        return -1;
      }
      ghost var w := View();
      rc := FlushPages(r.1, r.2, ok);
      DidRange(w, Flush, off, len, ok);
      WrittenBytes(w, Flush, off, len, ok);
    }

    /** `cxlwin_acquire`: take DEVICE pages back; they are refilled on demand. */
    method AcquireRange(off: nat, len: nat) returns (rc: int)
      requires Valid()
      modifies state, prot
      ensures Valid()
      ensures off >= npages * page ==> rc == -1 && View() == old(View())
      ensures off < npages * page ==> rc == 0 && Did(old(View()), Acquire, off, len, _ => true)
      ensures forall i: nat :: Asked(off, len, i) ==>
                StateOf(i) == (if old(StateOf(i)) == Device then Invalid else old(StateOf(i)))
                && Current(i) == old(Current(i))
    {
      hide Coherent, ViewOf, PageOf, Fits, Slice, OnRange, Hit, Did, Current, OnDevice, StateOf;
      StatesOf();
      PagesAreHit(off, len);
      CurrentsAre();
      var r := PagesOf(off, len);
      if !r.0 {
        return -1;
      }
      ghost var w := View();
      var p := r.1;
      ghost var ok: nat -> bool := _ => true;
      RangeNone(w, Acquire, r.1, ok);
      while p < r.2
        invariant r.1 <= p <= r.2 && Valid() && View() == OnRange(w, Acquire, r.1, p, ok)
      {
        RangeNext(w, Acquire, r.1, p, ok);
        StatesOf();
        ThePage(p);
        ghost var v := View();
        PageAt(v, page, p);
        if state[p] == Device {
          Mark(p, Invalid, NoAccess);
          KeepCoherent(v, p, View()[p]);
        } else {
          assert v[p := v[p]] == v;
        }
        p := p + 1;
      }
      DidRange(w, Acquire, off, len, ok);
      forall i: nat | Asked(off, len, i)
        ensures StateOf(i) == (if old(StateOf(i)) == Device then Invalid else old(StateOf(i)))
                && Current(i) == old(Current(i))
      {
        AskedPage(off, len, i);
        DidByte(w, Acquire, off, len, ok, i);
      }
      rc := 0;
    }

    /** `cxlwin_invalidate`: drop host copies without write-back. */
    method InvalidateRange(off: nat, len: nat) returns (rc: int)
      requires Valid()
      modifies state, prot
      ensures Valid()
      ensures off >= npages * page ==> rc == -1 && View() == old(View())
      ensures off < npages * page ==> rc == 0 && Did(old(View()), Invalidate, off, len, _ => true)
      ensures forall i: nat :: Asked(off, len, i) ==>
                StateOf(i) == (if old(StateOf(i)) == Device then Device else Invalid)
                && Current(i) == OnDevice(i) == old(OnDevice(i))
    {
      hide Coherent, ViewOf, PageOf, Fits, Slice, OnRange, Hit, Did, Current, OnDevice, StateOf;
      StatesOf();
      PagesAreHit(off, len);
      CurrentsAre();
      var r := PagesOf(off, len);
      if !r.0 {
        return -1;
      }
      ghost var w := View();
      var p := r.1;
      ghost var ok: nat -> bool := _ => true;
      RangeNone(w, Invalidate, r.1, ok);
      while p < r.2
        invariant r.1 <= p <= r.2 && Valid() && View() == OnRange(w, Invalidate, r.1, p, ok)
      {
        RangeNext(w, Invalidate, r.1, p, ok);
        StatesOf();
        ThePage(p);
        ghost var v := View();
        PageAt(v, page, p);
        if state[p] == Device {
          assert v[p := v[p]] == v;
        } else {
          Mark(p, Invalid, NoAccess);
          KeepCoherent(v, p, View()[p]);
        }
        p := p + 1;
      }
      DidRange(w, Invalidate, off, len, ok);
      forall i: nat | Asked(off, len, i)
        ensures StateOf(i) == (if old(StateOf(i)) == Device then Device else Invalid)
                && Current(i) == OnDevice(i) == old(OnDevice(i))
      {
        AskedPage(off, len, i);
        DidByte(w, Invalidate, off, len, ok, i);
      }
      rc := 0;
    }

    /** The inner loop of `cxlwin_prefetch`: the end of a run of INVALID pages. */
    method FindRunEnd(p: nat, b: nat) returns (q: nat)
      requires Valid() && p <= b <= npages
      ensures q == RunEnd(View(), p, b)
    {
      hide Coherent, ViewOf, PageOf, Fits;
      StatesOf();
      q := p;
      while q < b && state[q] == Invalid
        invariant p <= q <= b && RunEnd(View(), p, b) == RunEnd(View(), q, b)
      {
        q := q + 1;
      }
    }

    /** The run of INVALID pages at p in one backend call. */
    method FetchRun(p: nat, b: nat, ok: bool) returns (q: nat, rc: int)
      requires Valid() && p < b <= npages && View()[p].state == Invalid
      modifies state, prot, base, this`pagesFetched, this`fetchCalls
      ensures Valid() && q == RunEnd(old(View()), p, b) && View() == Fetch(old(View()), p, q - p, ok)
      ensures p < q && rc == if ok then 0 else -1
      ensures fetchCalls == old(fetchCalls) + 1 && pagesFetched == old(pagesFetched) + if ok then q - p else 0
    {
      hide Coherent, ViewOf, PageOf, Fits, Slice, Fetch, RunEnd, Lo, Hi;
      q := FindRunEnd(p, b);
      RunProgress(View(), p, b);
      RunEdges(View(), p, b);
      RunTrimmed(View(), p, q);
      rc := FetchPages(p, q - p, ok);
    }

    /** `cxlwin_prefetch`: every maximal run of INVALID pages in one backend call; zero exactly when all are served. */
    method PrefetchRange(off: nat, len: nat, ok: nat -> bool) returns (rc: int)
      requires Valid()
      modifies state, prot, base, this`pagesFetched, this`fetchCalls
      ensures Valid()
      ensures var r := PagesOf(off, len);
              if !r.0 then rc == -1 && View() == old(View()) && fetchCalls == old(fetchCalls)
                && pagesFetched == old(pagesFetched)
              else
                && View() == Prefetch(old(View()), r.1, r.2, ok)
                && fetchCalls == old(fetchCalls) + RunStarts(old(View()), r.1, r.2)
                && rc == (if RunsServed(old(View()), r.1, r.2, ok) then 0 else -1)
                && (rc == 0 ==> pagesFetched == old(pagesFetched) + Invalids(old(View()), r.1, r.2))
      ensures forall i: nat :: i < npages * page ==> Current(i) == old(Current(i))
      ensures rc == 0 ==> forall i: nat :: Asked(off, len, i) ==>
                StateOf(i) == if old(StateOf(i)) == Invalid then Shared else old(StateOf(i))
    {
      hide Coherent, ViewOf, PageOf, Fits, Slice, Fetch, RunEnd, Prefetch, RunStarts, Invalids, RunsServed, Current,
           OnDevice, StateOf, TruthAt, DevAt, StateAt, Hit;
      StatesOf();
      CurrentsAre();
      var r := PagesOf(off, len);
      if !r.0 {
        return -1;
      }
      ghost var w := View();
      var a, b := r.1, r.2;
      var p := a;
      rc := 0;
      RunsNone(w, a, ok);
      while p < b
        invariant a <= p <= b <= npages && Valid() && Prefetch(View(), p, b, ok) == Prefetch(w, a, b, ok)
        invariant forall i :: p <= i < b ==> View()[i] == w[i]
        invariant p < b && w[p].state == Invalid ==> RunStart(w, a, p)
        invariant fetchCalls == old(fetchCalls) + RunStarts(w, a, p)
        invariant rc == if RunsServed(w, a, p, ok) then 0 else -1
        invariant rc == 0 ==> pagesFetched == old(pagesFetched) + Invalids(w, a, p)
        decreases b - p
      {
        StatesOf();
        PrefetchNext(View(), p, b, ok);
        if state[p] != Invalid {
          NoRunHere(w, a, p, ok);
          p := p + 1;
        } else {
          ghost var v := View();
          var q, c := FetchRun(p, b, ok(p));
          RunEdges(v, p, b);
          RunServed(w, a, p, q, ok);
          FetchOutside(v, p, q - p, ok(p));
          if c != 0 {
            rc := -1;
          }
          p := q;
        }
      }
      PrefetchDone(View(), b, ok);
      CurrentsAre();
      PrefetchBytes(w, a, b, ok);
      if rc == 0 {
        PrefetchStates(w, View(), off, len, ok);
      }
    }

    lemma PrefetchBytes(w: Pages, a: nat, b: nat, ok: nat -> bool)
      requires Valid() && |w| == npages && Coherent(w, page) && a <= b <= npages && View() == Prefetch(w, a, b, ok)
      requires page > 0
      ensures forall i: nat :: i < npages * page ==> TruthAt(View(), i) == TruthAt(w, i)
    {
      hide Coherent, ViewOf, Fits, Prefetch, Truth;
      PrefetchKeeps(w, page, a, b, ok);
      forall i: nat | i < npages * page
        ensures TruthAt(View(), i) == TruthAt(w, i)
      {
        LastPage(i);
        FlatAt(w, i / page);
        FlatAt(View(), i / page);
      }
    }

    lemma PrefetchStates(w: Pages, v: Pages, off: nat, len: nat, ok: nat -> bool)
      requires |w| == npages && page > 0 && PagesOf(off, len).0
      requires v == Prefetch(w, PagesOf(off, len).1, PagesOf(off, len).2, ok)
      requires RunsServed(w, PagesOf(off, len).1, PagesOf(off, len).2, ok)
      ensures forall i: nat :: Asked(off, len, i) ==>
                StateAt(v, i) == if StateAt(w, i) == Invalid then Shared else StateAt(w, i)
    {
      hide Prefetch, RunsServed, Hit, PagesOf, Asked;
      var a, b := PagesOf(off, len).1, PagesOf(off, len).2;
      PagesAreHit(off, len);
      PrefetchFills(w, w, a, a, b, ok);
      forall i: nat | Asked(off, len, i)
        ensures StateAt(v, i) == if StateAt(w, i) == Invalid then Shared else StateAt(w, i)
      {
        AskedPage(off, len, i);
        assert v[i / page] == if w[i / page].state == Invalid then FetchedPage(w[i / page], true) else w[i / page];
      }
    }

    lemma RunsNone(w: Pages, a: nat, ok: nat -> bool)
      requires a <= |w|
      ensures RunStarts(w, a, a) == 0 && Invalids(w, a, a) == 0 && RunsServed(w, a, a, ok)
    {
    }

    lemma RunEdges(w: Pages, p: nat, b: nat)
      requires p <= b <= |w|
      ensures var q := RunEnd(w, p, b);
              p <= q <= b && (forall i :: p <= i < q ==> w[i].state == Invalid) && (q < b ==> w[q].state != Invalid)
    {
    }

    lemma FetchOutside(w: Pages, a: nat, n: nat, ok: bool)
      requires a + n <= |w|
      ensures forall i :: a + n <= i < |w| ==> Fetch(w, a, n, ok)[i] == w[i]
    {
      hide Lo, Hi;
    }

    lemma PrefetchNext(w: Pages, p: nat, b: nat, ok: nat -> bool)
      requires p < b <= |w|
      ensures Prefetch(w, p, b, ok) ==
              if w[p].state != Invalid then Prefetch(w, p + 1, b, ok)
              else Prefetch(Fetch(w, p, RunEnd(w, p, b) - p, ok(p)), RunEnd(w, p, b), b, ok)
    {
    }

    lemma PrefetchDone(w: Pages, b: nat, ok: nat -> bool)
      requires b <= |w|
      ensures Prefetch(w, b, b, ok) == w
    {
    }

    lemma RunProgress(w: Pages, p: nat, b: nat)
      requires p < b <= |w| && w[p].state == Invalid
      ensures RunEnd(w, p, b) > p
    {
    }

    lemma PageOfByte(off: nat)
      requires page > 0 && off < npages * page
      ensures off / page < npages && off == off / page * page + off % page
    {
      LastPage(off);
    }

    /** One load attempt by the host. An absent page faults; a failed fetch leaves the access to fault again,
        a working backend makes it succeed at once. */
    method LoadByte(off: nat, ok: bool) returns (got: bool, v: byte)
      requires Valid() && off < npages * page && off / page < npages && (strict ==> View()[off / page].state != Device)
      modifies state, prot, base, this`pagesFetched, this`fetchCalls, this`readFaults, this`writeUpgrades,
        this`biasViolations
      ensures Valid()
      ensures ok ==> got && View() == Readable(old(View()), off / page, prefetch)
      ensures ok ==> |View()[off / page].host| == page && v == View()[off / page].host[off % page]
      ensures old(View()[off / page].state) == Invalid && ok
              ==> FetchCounted(old(View()), off / page, old(fetchCalls), old(pagesFetched))
      ensures old(View()[off / page].prot) != NoAccess ==>
                fetchCalls == old(fetchCalls)
                && pagesFetched == old(pagesFetched)
    {
      hide Coherent, ViewOf, PageOf, Fits, Slice, Fetch, Fault, Lo, Hi, BatchSize;
      var p := off / page;
      ghost var w := View();
      PageOfByte(off);
      StatesOf();
      PageAt(w, page, p);
      ReadableOk(w, page, prefetch, p);
      if prot[p] == NoAccess {
        var aborted := ServiceFault(p, ok);
      }
      StatesOf();
      if prot[p] == NoAccess {
        return false, 0;
      }
      ThePage(p);
      PageAt(View(), page, p);
      got, v := true, base[p * page + off % page];
      SliceAt(p, off);
    }

    lemma SliceAt(p: nat, off: nat)
      requires page > 0 && p < npages && base.Length == npages * page && off == p * page + off % page
               && p * page + page <= npages * page
      ensures Slice(base[..], 0, page, p)[off % page] == base[p * page + off % page]
    {
    }

    /** The statistics after one demand batch at page p. */
    ghost predicate FetchCounted(w: Pages, p: nat, calls: nat, pages: nat)
      reads this
      requires |w| == npages && p < npages
    {
      var n := BatchSize(prefetch, p, npages);
      var lo := Lo(w, p, p + n);
      var hi := Hi(w, lo, p + n);
      fetchCalls == calls + (if lo < hi then 1 else 0) && pagesFetched == pages + (hi - lo)
    }

    /** A byte of a dirty page's host copy rewritten. */
    method PutHost(p: nat, i: nat, v: byte)
      requires Valid() && p < npages && i < page && View()[p].state == Modified
      modifies base
      ensures Valid() && i < |old(View())[p].host|
      ensures View() == old(View())[p := old(View())[p].(host := Put(old(View())[p].host, i, v))]
    {
      hide Coherent, ViewOf, PageOf, Fits, Slice, Put;
      ghost var w, st, pr, bs, dv := View(), state[..], prot[..], base[..], dev[..];
      StatesOf();
      PageAt(w, page, p);
      ThePage(p);
      base[p * page + i] := v;
      assert base[..] == bs[p * page + i := v];
      OneView(w, st, pr, bs, dv, p);
      ThePage(p);
      SlicePut(bs, p, i, v);
      KeepCoherent(w, p, View()[p]);
    }

    /** One store attempt by the host: an absent page is fetched, a clean page upgraded, then the byte lands
        in the host copy. */
    method StoreByte(off: nat, v: byte, ok: bool) returns (done: bool)
      requires Valid() && off < npages * page && off / page < npages && (strict ==> View()[off / page].state != Device)
      modifies state, prot, base, this`pagesFetched, this`fetchCalls, this`readFaults, this`writeUpgrades,
        this`biasViolations
      ensures Valid()
      ensures ok ==>
                done && off % page < page
                && View() == Step(old(View()), page, prefetch, Store(off / page, off % page, v))
    {
      hide Coherent, View, Fits, Fetch, Lo, Hi, BatchSize, Readable, Put;
      var p := off / page;
      ghost var w := View();
      PageOfByte(off);
      ReadableOk(w, page, prefetch, p);
      var got, u := LoadByte(off, ok);
      if !got {
        return false;
      }
      StatesOf();
      PageAt(View(), page, p);
      if prot[p] == ReadOnly {
        var aborted := ServiceFault(p, true);
      }
      StatesOf();
      PageAt(View(), page, p);
      if prot[p] != ReadWrite {
        return false;
      }
      PutHost(p, off % page, v);
      done := true;
    }

    lemma SlicePut(bs: seq<byte>, p: nat, i: nat, v: byte)
      requires i < page && p * page + page <= npages * page == base.Length == |bs| && 0 <= p * page
      requires base[..] == bs[p * page + i := v]
      ensures Slice(base[..], 0, page, p) == Put(Slice(bs, 0, page, p), i, v)
    {
    }

    /** An engine rewrites a page it owns. */
    method EngineWrite(p: nat, data: seq<byte>)
      requires Valid() && p < npages && View()[p].state == Device && |data| == page
      modifies dev
      ensures Valid() && View() == Step(old(View()), page, prefetch, Engine(p, data))
    {
      hide Coherent, ViewOf, PageOf, Fits, Slice;
      ghost var w, st, pr, bs, dv := View(), state[..], prot[..], base[..], dev[..];
      StatesOf();
      PageAt(w, page, p);
      ThePage(p);
      Kernels.Copy(dev, devBase + p * page, data);
      assert forall i :: 0 <= i < dev.Length ==> dev[i] == dev[..][i];
      OneView(w, st, pr, bs, dv, p);
      ThePage(p);
      SliceWritten(dv, p, data);
      KeepCoherent(w, p, View()[p]);
    }

    lemma SliceWritten(dv: seq<byte>, p: nat, data: seq<byte>)
      requires |data| == page && 0 <= p * page && p * page + page <= npages * page
               && devBase + npages * page <= dev.Length == |dv|
      requires dev[..] == Splice(dv, devBase + p * page, data)
      ensures Slice(dev[..], devBase, page, p) == data
    {
    }

    // ----- a sequential sweep -----

    /** The first `covered` pages are clean, the rest absent. */
    ghost predicate Swept(covered: nat)
      reads state, prot, base, dev
      requires Shape()
    {
      forall p :: 0 <= p < npages ==> View()[p].state == if p < covered then Shared else Invalid
    }

    /** Loading one byte of each page of an absent window, first to last: the number of backend reads the cost
        model charges, and every page fetched once. */
    method Sweep()
      requires Valid() && prefetch >= 1 && Swept(0)
      modifies state, prot, base, this`pagesFetched, this`fetchCalls, this`readFaults, this`writeUpgrades,
        this`biasViolations
      ensures Valid() && Swept(npages)
      ensures fetchCalls == old(fetchCalls) + CeilDiv(npages, prefetch)
      ensures pagesFetched == old(pagesFetched) + npages
    {
      hide Coherent, ViewOf, PageOf, Fits, Slice, Readable, FetchCounted, CeilDiv;
      var p := 0;
      ghost var k, covered := 0, 0;
      StatesOf();
      while p < npages
        invariant p <= covered <= npages && Valid() && Swept(covered)
        invariant covered == npages || covered == k * prefetch
        invariant covered <= k * prefetch && (k == 0 || (k - 1) * prefetch < p)
        invariant fetchCalls == old(fetchCalls) + k && pagesFetched == old(pagesFetched) + covered
      {
        PageStart(p);
        StatesOf();
        PageAt(View(), page, p);
        ghost var w := View();
        var got, v := LoadByte(p * page, true);
        if p < covered {
          SweptStill(w, p);
        } else {
          SweptMore(w, p, old(fetchCalls) + k, old(pagesFetched) + covered);
          covered := p + BatchSize(prefetch, p, npages);
          assert (k + 1) * prefetch == k * prefetch + prefetch;
          k := k + 1;
        }
        p := p + 1;
      }
      CeilUnique(npages, prefetch, k);
    }

    lemma PageStart(p: nat)
      requires page > 0 && p < npages
      ensures 0 <= p * page < npages * page && p * page / page == p && p * page % page == 0
    {
      RowBound(p, npages, page);
      DivModUnique(p * page, page, p, 0);
    }

    lemma SweptStill(w: Pages, p: nat)
      requires Shape() && |w| == npages && p < npages && w[p].prot != NoAccess && View() == Readable(w, p, prefetch)
      ensures View() == w
    {
    }

    lemma SweptMore(w: Pages, p: nat, calls: nat, pages: nat)
      requires Shape() && |w| == npages && p < npages && prefetch >= 1 && w[p].prot == NoAccess
      requires forall q :: 0 <= q < npages ==> w[q].state == if q < p then Shared else Invalid
      requires View() == Readable(w, p, prefetch) && FetchCounted(w, p, calls, pages)
      ensures Swept(p + BatchSize(prefetch, p, npages))
      ensures fetchCalls == calls + 1 && pagesFetched == pages + BatchSize(prefetch, p, npages)
    {
      hide ViewOf, PageOf, Fits;
      var n := BatchSize(prefetch, p, npages);
      LoAtNeed(w, p, p + n);
      assert Needs(w[p + n - 1]);
      assert Hi(w, p, p + n) == p + n;
    }
  }

  lemma DivBound(x: nat, q: nat, d: nat)
    requires d > 0
    ensures q <= x / d ==> q * d <= x
    ensures x / d < q ==> x < q * d
  {
    assert x == x / d * d + x % d;
    if q <= x / d {
      MulLe(q, x / d, d);
    } else {
      MulLe(x / d + 1, q, d);
      assert (x / d + 1) * d == x / d * d + d;
    }
  }

  lemma CeilUnique(n: nat, d: nat, k: nat)
    requires d > 0 && n <= k * d && (k == 0 || (k - 1) * d < n)
    ensures CeilDiv(n, d) == k
  {
    var r := n + d - 1 - k * d;
    if k > 0 {
      assert (k - 1) * d == k * d - d;
    }
    DivModUnique(n + d - 1, d, k, r);
  }
}
