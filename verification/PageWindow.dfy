/** cxlwin.c: a load/store window onto device memory, kept coherent page by page. */
module PageWindow {
  import opened Bytes

  datatype PageState = Invalid | Fetching | Shared | Modified | Flushing | Device
  datatype Prot = NoAccess | ReadOnly | ReadWrite

  /** One page: its state and protection, the host copy while it means something ([] otherwise), the device copy. */
  datatype Page = Page(state: PageState, prot: Prot, host: seq<byte>, dev: seq<byte>)

  type Pages = seq<Page>

  /** The current content of a page: the host copy if dirty, else the device copy. */
  function Truth(g: Page): seq<byte> {
    if g.state == Modified then g.host else g.dev
  }

  /** The one flat memory the window stands for, as a sequence of pages. */
  function Flat(w: Pages): (f: seq<seq<byte>>)
    ensures |f| == |w|
  {
    seq(|w|, p requires 0 <= p < |w| => Truth(w[p]))
  }

  function ProtOf(s: PageState): Prot {
    match s
    case Shared => ReadOnly
    case Modified => ReadWrite
    case Flushing => ReadOnly
    case _ => NoAccess
  }

  /** Between calls: no transient state, protection follows state, clean copies equal the device. */
  predicate PageOk(g: Page, page: nat) {
    && |g.dev| == page && g.state != Fetching && g.state != Flushing && g.prot == ProtOf(g.state)
    && (g.state == Shared ==> g.host == g.dev)
    && (g.state == Modified ==> |g.host| == page)
    && (g.state == Invalid || g.state == Device ==> g.host == [])
  }

  predicate Coherent(w: Pages, page: nat) {
    forall p :: 0 <= p < |w| ==> PageOk(w[p], page)
  }

  // ----- fetch -----

  predicate Needs(g: Page) {
    g.state == Invalid || g.state == Device
  }

  /** First page of [a, b) that needs fetching, or b. */
  function Lo(w: Pages, a: nat, b: nat): (r: nat)
    requires a <= b <= |w|
    ensures a <= r <= b && (r < b ==> Needs(w[r]))
    ensures forall p :: a <= p < r ==> !Needs(w[p])
    decreases b - a
  {
    if a < b && !Needs(w[a]) then Lo(w, a + 1, b) else a
  }

  /** One past the last page of [a, b) that needs fetching, or a. */
  function Hi(w: Pages, a: nat, b: nat): (r: nat)
    requires a <= b <= |w|
    ensures a <= r <= b && (a < r ==> Needs(w[r - 1]))
    ensures forall p :: r <= p < b ==> !Needs(w[p])
    decreases b
  {
    if a < b && !Needs(w[b - 1]) then Hi(w, a, b - 1) else b
  }

  function FetchedPage(g: Page, ok: bool): Page {
    if ok then Page(Shared, ReadOnly, g.dev, g.dev) else Page(Invalid, NoAccess, [], g.dev)
  }

  /** `fetch_pages` on [a, a+n): both ends are trimmed, what lies between is refilled whatever its state. */
  function Fetch(w: Pages, a: nat, n: nat, ok: bool): (w': Pages)
    requires a + n <= |w|
    ensures |w'| == |w|
  {
    var lo := Lo(w, a, a + n);
    var hi := Hi(w, lo, a + n);
    seq(|w|, p requires 0 <= p < |w| => if lo <= p < hi then FetchedPage(w[p], ok) else w[p])
  }

  /** No MODIFIED page lies between two pages of the batch that need fetching. */
  predicate NoDirtyInside(w: Pages, a: nat, n: nat)
    requires a + n <= |w|
  {
    forall p :: Lo(w, a, a + n) <= p < Hi(w, Lo(w, a, a + n), a + n) ==> w[p].state != Modified
  }

  /** What a fetch does to the flat memory, whether or not the backend succeeds. */
  lemma FetchFlat(w: Pages, a: nat, n: nat, ok: bool)
    requires a + n <= |w|
    ensures var lo := Lo(w, a, a + n); var hi := Hi(w, lo, a + n);
            forall p :: 0 <= p < |w| ==> Flat(Fetch(w, a, n, ok))[p] == if lo <= p < hi then w[p].dev else Flat(w)[p]
  {
    hide Lo, Hi;
  }

  lemma FetchKeeps(w: Pages, a: nat, n: nat, ok: bool)
    requires a + n <= |w| && NoDirtyInside(w, a, n)
    ensures Flat(Fetch(w, a, n, ok)) == Flat(w)
  {
    hide Lo, Hi;
    FetchFlat(w, a, n, ok);
  }

  function States(w: Pages): (s: seq<PageState>)
    ensures |s| == |w|
  {
    seq(|w|, p requires 0 <= p < |w| => w[p].state)
  }

  lemma {:induction false} SameLo(w: Pages, v: Pages, a: nat, b: nat)
    requires a <= b <= |w| == |v| && forall p :: 0 <= p < |w| ==> v[p].state == w[p].state
    ensures Lo(v, a, b) == Lo(w, a, b)
    decreases b - a
  {
    if a < b && !Needs(w[a]) {
      SameLo(w, v, a + 1, b);
    }
  }

  lemma {:induction false} SameHi(w: Pages, v: Pages, a: nat, b: nat)
    requires a <= b <= |w| == |v| && forall p :: 0 <= p < |w| ==> v[p].state == w[p].state
    ensures Hi(v, a, b) == Hi(w, a, b)
    decreases b
  {
    if a < b && !Needs(w[b - 1]) {
      SameHi(w, v, a, b - 1);
    }
  }

  /** A demand batch keeps the memory whatever the pages hold exactly when it has no dirty page inside. */
  lemma FetchKeepsIff(w: Pages, a: nat, n: nat, ok: bool, page: nat)
    requires a + n <= |w| && page > 0 && Coherent(w, page)
    ensures NoDirtyInside(w, a, n) <==>
            forall v: Pages :: |v| == |w| && States(v) == States(w) && Coherent(v, page)
              ==> Flat(Fetch(v, a, n, ok)) == Flat(v)
  {
    hide Lo, Hi, Coherent;
    if NoDirtyInside(w, a, n) {
      forall v: Pages | |v| == |w| && States(v) == States(w) && Coherent(v, page)
        ensures Flat(Fetch(v, a, n, ok)) == Flat(v)
      {
        SameStates(w, v);
        SameLo(w, v, a, a + n);
        SameHi(w, v, Lo(w, a, a + n), a + n);
        FetchKeeps(v, a, n, ok);
      }
    } else {
      var v := DirtyInsideLoses(w, a, n, ok, page);
      assert Flat(Fetch(v, a, n, ok)) != Flat(v);
    }
  }

  lemma SameStates(w: Pages, v: Pages)
    requires |v| == |w| && States(v) == States(w)
    ensures forall p :: 0 <= p < |w| ==> v[p].state == w[p].state
  {
    forall p | 0 <= p < |w|
      ensures v[p].state == w[p].state
    {
      assert States(v)[p] == States(w)[p];
    }
  }

  /** The stores of a dirty page caught inside a batch are lost: same states, one store that differs. */
  lemma DirtyInsideLoses(w: Pages, a: nat, n: nat, ok: bool, page: nat) returns (v: Pages)
    requires a + n <= |w| && page > 0 && Coherent(w, page) && !NoDirtyInside(w, a, n)
    ensures |v| == |w| && States(v) == States(w) && Coherent(v, page) && Flat(Fetch(v, a, n, ok)) != Flat(v)
  {
    hide Lo, Hi, Coherent, Flat, States;
    var p :| Lo(w, a, a + n) <= p < Hi(w, Lo(w, a, a + n), a + n) && w[p].state == Modified;
    v := StoreDiffers(w, p, page);
    SameStates(w, v);
    SameLo(w, v, a, a + n);
    SameHi(w, v, Lo(w, a, a + n), a + n);
    FetchFlat(v, a, n, ok);
    FlatAt(v, p);
  }

  /** The same states with a store on dirty page p that the device has not seen. */
  lemma StoreDiffers(w: Pages, p: nat, page: nat) returns (v: Pages)
    requires p < |w| && page > 0 && Coherent(w, page) && w[p].state == Modified
    ensures |v| == |w| && States(v) == States(w) && Coherent(v, page) && v[p].state == Modified && v[p].host != v[p].dev
  {
    var g := w[p];
    assert PageOk(g, page);
    var first: int := g.dev[0];
    var stored := Put(g.dev, 0, (first + 1) % 256);
    assert stored[0] != g.dev[0];
    v := w[p := g.(host := stored)];
  }

  /** Demand batches of one or two pages have no inside. */
  lemma ShortBatch(w: Pages, a: nat, n: nat)
    requires a + n <= |w| && 1 <= n <= 2 && Needs(w[a])
    ensures NoDirtyInside(w, a, n)
  {
  }

  // ----- faults -----

  function BatchSize(prefetch: nat, p: nat, npages: nat): (n: nat)
    requires p < npages
    ensures 1 <= n && p + n <= npages
  {
    var c := if prefetch > 0 then prefetch else 1;
    if p + c > npages then npages - p else c
  }

  /** `service_fault` on page p (a strict window aborts on a DEVICE page instead). */
  function Fault(w: Pages, p: nat, prefetch: nat, ok: bool): (w': Pages)
    requires p < |w|
    ensures |w'| == |w|
  {
    match w[p].state
    case Device => Fetch(w, p, BatchSize(prefetch, p, |w|), ok)
    case Invalid => Fetch(w, p, BatchSize(prefetch, p, |w|), ok)
    case Shared => w[p := w[p].(state := Modified, prot := ReadWrite)]
    case Modified => w[p := w[p].(prot := ReadWrite)]
    case _ => w
  }

  // ----- range operations -----

  datatype RangeOp = Release | Acquire | Flush | Invalidate

  /** What a range operation does to one page; `ok` is the backend's verdict on its write-back, if any. */
  function OnPage(op: RangeOp, g: Page, ok: bool): Page {
    match op
    case Release => Page(Device, NoAccess, [], if g.state == Modified && ok then g.host else g.dev)
    case Acquire => if g.state == Device then g.(state := Invalid) else g
    case Flush => if g.state == Modified && ok then Page(Shared, ReadOnly, g.host, g.host) else g
    case Invalidate => if g.state == Device then g else Page(Invalid, NoAccess, [], g.dev)
  }

  function OnRange(w: Pages, op: RangeOp, a: nat, b: nat, ok: nat -> bool): (w': Pages)
    ensures |w'| == |w|
  {
    seq(|w|, p requires 0 <= p < |w| => if a <= p < b then OnPage(op, w[p], ok(p)) else w[p])
  }

  /** The end of the run of INVALID pages at p. */
  function RunEnd(w: Pages, p: nat, b: nat): (q: nat)
    requires p <= b <= |w|
    ensures p <= q <= b && (forall i :: p <= i < q ==> w[i].state == Invalid) && (q < b ==> w[q].state != Invalid)
    decreases b - p
  {
    if p < b && w[p].state == Invalid then RunEnd(w, p + 1, b) else p
  }

  /** `cxlwin_prefetch` from page p on: each maximal run of INVALID pages is one fetch. */
  function Prefetch(w: Pages, p: nat, b: nat, ok: nat -> bool): (w': Pages)
    requires p <= b <= |w|
    ensures |w'| == |w|
    decreases b - p
  {
    if p == b then w
    else if w[p].state != Invalid then Prefetch(w, p + 1, b, ok)
    else
      var q := RunEnd(w, p, b);
      Prefetch(Fetch(w, p, q - p, ok(p)), q, b, ok)
  }

  /** A maximal run of INVALID pages of [a, ...) starts here. */
  predicate RunStart(w: Pages, a: nat, p: nat)
    requires a <= p < |w|
  {
    w[p].state == Invalid && (p == a || w[p - 1].state != Invalid)
  }

  /** How many runs start in [a, b). */
  function RunStarts(w: Pages, a: nat, b: nat): nat
    requires a <= b <= |w|
    decreases b
  {
    if a == b then 0 else RunStarts(w, a, b - 1) + if RunStart(w, a, b - 1) then 1 else 0
  }

  /** How many pages of [a, b) are INVALID. */
  function Invalids(w: Pages, a: nat, b: nat): nat
    requires a <= b <= |w|
    decreases b
  {
    if a == b then 0 else Invalids(w, a, b - 1) + if w[b - 1].state == Invalid then 1 else 0
  }

  /** How many pages of [a, b) are MODIFIED and written back. */
  function Dirty(w: Pages, a: nat, b: nat, ok: nat -> bool): nat
    requires a <= b <= |w|
    decreases b
  {
    if a == b then 0 else Dirty(w, a, b - 1, ok) + if w[b - 1].state == Modified && ok(b - 1) then 1 else 0
  }

  /** The backend serves every run that starts in [a, b). */
  predicate RunsServed(w: Pages, a: nat, b: nat, ok: nat -> bool)
    requires a <= b <= |w|
  {
    forall p :: a <= p < b && RunStart(w, a, p) ==> ok(p)
  }

  /** A page that is not INVALID starts no run. */
  lemma NoRunHere(w: Pages, a: nat, p: nat, ok: nat -> bool)
    requires a <= p < |w| && w[p].state != Invalid
    ensures RunStarts(w, a, p + 1) == RunStarts(w, a, p) && Invalids(w, a, p + 1) == Invalids(w, a, p)
    ensures RunsServed(w, a, p + 1, ok) <==> RunsServed(w, a, p, ok)
  {
  }

  /** One run more. */
  lemma RunServed(w: Pages, a: nat, p: nat, q: nat, ok: nat -> bool)
    requires a <= p < q <= |w| && RunStart(w, a, p) && forall i :: p <= i < q ==> w[i].state == Invalid
    ensures RunsServed(w, a, q, ok) <==> RunsServed(w, a, p, ok) && ok(p)
    ensures RunStarts(w, a, q) == RunStarts(w, a, p) + 1 && Invalids(w, a, q) == Invalids(w, a, p) + (q - p)
  {
    RunCounted(w, a, p, q);
  }

  /** A run of INVALID pages has one start and counts each page. */
  lemma {:induction false} RunCounted(w: Pages, a: nat, p: nat, q: nat)
    requires a <= p < q <= |w| && RunStart(w, a, p) && forall i :: p <= i < q ==> w[i].state == Invalid
    ensures RunStarts(w, a, q) == RunStarts(w, a, p) + 1 && Invalids(w, a, q) == Invalids(w, a, p) + (q - p)
    decreases q
  {
    if q > p + 1 {
      RunCounted(w, a, p, q - 1);
    }
  }

  // ----- the refinement -----

  /** Everything that can happen to a window, faults resolved by a working backend. */
  datatype Op =
    | Load(p: nat)
    | Store(p: nat, i: nat, v: byte)
    | Range(op: RangeOp, a: nat, b: nat)
    | Ahead(a: nat, b: nat)
    | Engine(p: nat, data: seq<byte>)

  /** The page made readable. */
  function Readable(w: Pages, p: nat, prefetch: nat): (w': Pages)
    requires p < |w|
    ensures |w'| == |w|
  {
    if w[p].prot == NoAccess then Fault(w, p, prefetch, true) else w
  }

  /** The page made writable: a store to an absent page faults twice. */
  function Writable(w: Pages, p: nat, prefetch: nat): (w': Pages)
    requires p < |w|
    ensures |w'| == |w|
  {
    var r := Readable(w, p, prefetch);
    if r[p].prot == ReadOnly then Fault(r, p, prefetch, true) else r
  }

  predicate InBounds(n: nat, page: nat, op: Op) {
    match op
    case Load(p) => p < n
    case Store(p, i, _) => p < n && i < page
    case Range(_, a, b) => a <= b <= n
    case Ahead(a, b) => a <= b <= n
    case Engine(p, data) => p < n && |data| == page
  }

  /** The caller's obligations: engines write DEVICE pages only, and a demand batch encloses no dirty page. */
  predicate Allowed(w: Pages, page: nat, prefetch: nat, op: Op) {
    && InBounds(|w|, page, op)
    && match op
       case Load(p) => Needs(w[p]) ==> NoDirtyInside(w, p, BatchSize(prefetch, p, |w|))
       case Store(p, _, _) => Needs(w[p]) ==> NoDirtyInside(w, p, BatchSize(prefetch, p, |w|))
       case Engine(p, _) => w[p].state == Device
       case _ => true
  }

  function Step(w: Pages, page: nat, prefetch: nat, op: Op): (w': Pages)
    requires InBounds(|w|, page, op)
    ensures |w'| == |w|
  {
    match op
    case Load(p) => Readable(w, p, prefetch)
    case Store(p, i, v) =>
      var r := Writable(w, p, prefetch);
      if i < |r[p].host| then r[p := r[p].(host := Put(r[p].host, i, v))] else r
    case Range(o, a, b) => OnRange(w, o, a, b, _ => true)
    case Ahead(a, b) => Prefetch(w, a, b, _ => true)
    case Engine(p, data) => w[p := w[p].(dev := data)]
  }

  /** The same operations on one flat memory: only stores, engine writes and discarding dirty pages change it. */
  function FlatStep(f: seq<seq<byte>>, w: Pages, page: nat, op: Op): seq<seq<byte>>
    requires |f| == |w| && InBounds(|w|, page, op) && forall p :: 0 <= p < |f| ==> |f[p]| == page
  {
    match op
    case Store(p, i, v) => f[p := Put(f[p], i, v)]
    case Engine(p, data) => f[p := data]
    case Range(Invalidate, a, b) =>
      seq(|w|, p requires 0 <= p < |w| => if a <= p < b && w[p].state == Modified then w[p].dev else f[p])
    case _ => f
  }

  lemma FetchOk(w: Pages, page: nat, a: nat, n: nat, ok: bool)
    requires a + n <= |w| && Coherent(w, page)
    ensures Coherent(Fetch(w, a, n, ok), page)
  {
    hide Lo, Hi;
  }

  /** With a working backend one fault makes the page readable, whatever the batch enclosed. */
  lemma ReadableOk(w: Pages, page: nat, prefetch: nat, p: nat)
    requires p < |w| && Coherent(w, page)
    ensures var r := Readable(w, p, prefetch);
            Coherent(r, page) && r[p].prot != NoAccess && |r[p].host| == page
  {
    hide Lo, Hi, Coherent;
    PageAt(w, page, p);
    if Needs(w[p]) {
      var n := BatchSize(prefetch, p, |w|);
      FetchOk(w, page, p, n, true);
      LoAtNeed(w, p, p + n);
    }
    PageAt(Readable(w, p, prefetch), page, p);
  }

  /** A working backend makes the page readable with its current content and leaves the memory alone. */
  lemma ReadableKeeps(w: Pages, page: nat, prefetch: nat, p: nat)
    requires p < |w| && Coherent(w, page) && (Needs(w[p]) ==> NoDirtyInside(w, p, BatchSize(prefetch, p, |w|)))
    ensures var r := Readable(w, p, prefetch);
            Coherent(r, page) && Flat(r) == Flat(w) && r[p].prot != NoAccess && r[p].host == Flat(w)[p]
              && |r[p].host| == page
  {
    hide Lo, Coherent, Flat;
    assert PageOk(w[p], page) by { PageAt(w, page, p); }
    var r := Readable(w, p, prefetch);
    if Needs(w[p]) {
      var n := BatchSize(prefetch, p, |w|);
      FetchOk(w, page, p, n, true);
      FetchKeeps(w, p, n, true);
      LoAtNeed(w, p, p + n);
      assert r[p] == FetchedPage(w[p], true);
    }
    PageAt(r, page, p);
    FlatAt(w, p);
  }

  lemma PageAt(w: Pages, page: nat, p: nat)
    requires p < |w| && Coherent(w, page)
    ensures PageOk(w[p], page)
  {
  }

  lemma FlatAt(w: Pages, p: nat)
    requires p < |w|
    ensures Flat(w)[p] == Truth(w[p])
  {
  }

  lemma LoAtNeed(w: Pages, a: nat, b: nat)
    requires a < b <= |w| && Needs(w[a])
    ensures Lo(w, a, b) == a && Hi(w, a, b) > a
  {
  }

  lemma {:induction false} PrefetchKeeps(w: Pages, page: nat, p: nat, b: nat, ok: nat -> bool)
    requires p <= b <= |w| && Coherent(w, page)
    ensures Coherent(Prefetch(w, p, b, ok), page) && Flat(Prefetch(w, p, b, ok)) == Flat(w)
    decreases b - p
  {
    hide Lo, Hi, Coherent, Flat, Fetch;
    if p < b {
      if w[p].state != Invalid {
        PrefetchKeeps(w, page, p + 1, b, ok);
      } else {
        var q := RunEnd(w, p, b);
        FetchOk(w, page, p, q - p, ok(p));
        FetchKeeps(w, p, q - p, ok(p));
        PrefetchKeeps(Fetch(w, p, q - p, ok(p)), page, q, b, ok);
      }
    }
  }

  /** When every run is served, prefetch fills the INVALID pages from page p on and leaves the others alone. */
  lemma {:induction false} PrefetchFills(w: Pages, v: Pages, a: nat, p: nat, b: nat, ok: nat -> bool)
    requires a <= p <= b <= |w| == |v| && RunsServed(w, a, b, ok) && forall i :: p <= i < |w| ==> v[i] == w[i]
    requires p < b && w[p].state == Invalid ==> RunStart(w, a, p)
    ensures forall i :: p <= i < b ==>
              Prefetch(v, p, b, ok)[i] == if w[i].state == Invalid then FetchedPage(w[i], true) else w[i]
    ensures forall i :: 0 <= i < |v| && (i < p || i >= b) ==> Prefetch(v, p, b, ok)[i] == v[i]
    decreases b - p
  {
    hide Lo, Hi, FetchedPage;
    if p < b {
      if v[p].state != Invalid {
        PrefetchFills(w, v, a, p + 1, b, ok);
      } else {
        var q := RunEnd(v, p, b);
        RunTrimmed(v, p, q);
        PrefetchFills(w, Fetch(v, p, q - p, ok(p)), a, q, b, ok);
      }
    }
  }

  /** A run of INVALID pages is fetched untrimmed. */
  lemma RunTrimmed(w: Pages, p: nat, q: nat)
    requires p < q <= |w| && forall i :: p <= i < q ==> w[i].state == Invalid
    ensures Lo(w, p, q) == p && Hi(w, p, q) == q
  {
  }

  lemma StoreKeeps(w: Pages, page: nat, prefetch: nat, p: nat, i: nat, v: byte)
    requires Coherent(w, page) && Allowed(w, page, prefetch, Store(p, i, v))
    ensures Coherent(Step(w, page, prefetch, Store(p, i, v)), page)
    ensures |Flat(w)[p]| == page && Flat(Step(w, page, prefetch, Store(p, i, v))) == Flat(w)[p := Put(Flat(w)[p], i, v)]
  {
    hide Lo, Hi, Fetch, NoDirtyInside, BatchSize;
    ReadableKeeps(w, page, prefetch, p);
    var r := Readable(w, p, prefetch);
    PageAt(r, page, p);
    var s := Writable(w, p, prefetch);
    assert s == r[p := r[p].(state := Modified, prot := ReadWrite)];
    var t := Step(w, page, prefetch, Store(p, i, v));
    assert t == s[p := s[p].(host := Put(s[p].host, i, v))];
    forall q | 0 <= q < |w|
      ensures Flat(t)[q] == Flat(w)[p := Put(Flat(w)[p], i, v)][q] && PageOk(t[q], page)
    {
      assert Flat(r)[q] == Flat(w)[q];
    }
  }

  /** Whatever the backend answers, a range operation leaves a coherent window; it changes the memory only on
      pages whose dirty data it discards: all of them for an invalidate, for a release those whose write-back failed. */
  lemma RangeKeeps(w: Pages, page: nat, op: RangeOp, a: nat, b: nat, ok: nat -> bool)
    requires Coherent(w, page)
    ensures Coherent(OnRange(w, op, a, b, ok), page)
    ensures forall p :: 0 <= p < |w| ==>
              Flat(OnRange(w, op, a, b, ok))[p] == if a <= p < b && Discards(op, w[p], ok(p)) then w[p].dev
                else Flat(w)[p]
    ensures forall p :: a <= p < b && p < |w| && op == Release ==>
              OnRange(w, op, a, b, ok)[p].state == Device
                && OnRange(w, op, a, b, ok)[p].dev == Flat(OnRange(w, op, a, b, ok))[p]
  {
    var u := OnRange(w, op, a, b, ok);
    forall p | 0 <= p < |w|
      ensures PageOk(u[p], page)
      ensures Flat(u)[p] == if a <= p < b && Discards(op, w[p], ok(p)) then w[p].dev else Flat(w)[p]
    {
      assert PageOk(w[p], page);
      OnPageOk(op, w[p], ok(p), page);
      assert u[p] == if a <= p < b then OnPage(op, w[p], ok(p)) else w[p];
    }
  }

  predicate Discards(op: RangeOp, g: Page, ok: bool) {
    g.state == Modified && (op == Invalidate || (op == Release && !ok))
  }

  lemma OnPageOk(op: RangeOp, g: Page, ok: bool, page: nat)
    requires PageOk(g, page)
    ensures PageOk(OnPage(op, g, ok), page)
    ensures Truth(OnPage(op, g, ok)) == if Discards(op, g, ok) then g.dev else Truth(g)
  {
  }

  /** The page behind each operation: its state, its current content and its device copy. */
  lemma OnPageDoes(op: RangeOp, g: Page, ok: bool, page: nat)
    requires PageOk(g, page)
    ensures OnPage(op, g, ok).state ==
            match op
            case Release => Device
            case Acquire => (if g.state == Device then Invalid else g.state)
            case Flush => (if g.state == Modified && ok then Shared else g.state)
            case Invalidate => (if g.state == Device then Device else Invalid)
    ensures Truth(OnPage(op, g, ok)) == if Discards(op, g, ok) then g.dev else Truth(g)
    ensures OnPage(op, g, ok).dev == if (op == Release || op == Flush) && ok then Truth(g) else g.dev
  {
  }

  /** A release keeps the memory, whatever the pages hold, exactly when no write-back fails. */
  lemma ReleaseKeepsIff(w: Pages, page: nat, a: nat, b: nat, ok: nat -> bool)
    requires Coherent(w, page) && page > 0
    ensures (forall p :: a <= p < b && p < |w| && w[p].state == Modified ==> ok(p)) <==>
            forall v: Pages :: |v| == |w| && States(v) == States(w) && Coherent(v, page) ==>
              Flat(OnRange(v, Release, a, b, ok)) == Flat(v)
  {
    hide Coherent, Flat, OnRange;
    if p :| a <= p < b && p < |w| && w[p].state == Modified && !ok(p) {
      var v := StoreDiffers(w, p, page);
      SameStates(w, v);
      RangeKeeps(v, page, Release, a, b, ok);
      FlatAt(v, p);
      assert Flat(OnRange(v, Release, a, b, ok))[p] == v[p].dev;
    } else {
      forall v: Pages | |v| == |w| && States(v) == States(w) && Coherent(v, page)
        ensures Flat(OnRange(v, Release, a, b, ok)) == Flat(v)
      {
        SameStates(w, v);
        RangeKeeps(v, page, Release, a, b, ok);
      }
    }
  }

  /** One step of the window is one step of the flat memory, and coherence is kept. */
  lemma StepRefines(w: Pages, page: nat, prefetch: nat, op: Op)
    requires Coherent(w, page) && Allowed(w, page, prefetch, op)
    ensures Coherent(Step(w, page, prefetch, op), page)
    ensures forall p :: 0 <= p < |w| ==> |Flat(w)[p]| == page
    ensures Flat(Step(w, page, prefetch, op)) == FlatStep(Flat(w), w, page, op)
  {
    hide Lo, Hi, Fetch, NoDirtyInside, BatchSize, RunEnd, Prefetch, Readable, Writable;
    match op
    case Load(p) => ReadableKeeps(w, page, prefetch, p);
    case Store(p, i, v) => StoreKeeps(w, page, prefetch, p, i, v);
    case Range(o, a, b) => RangeKeeps(w, page, o, a, b, _ => true);
    case Ahead(a, b) => PrefetchKeeps(w, page, a, b, _ => true);
    case Engine(p, data) =>
      var s := Step(w, page, prefetch, op);
      assert forall q :: 0 <= q < |w| ==> PageOk(w[q], page) && PageOk(s[q], page);
      assert forall q :: 0 <= q < |w| ==> Flat(s)[q] == FlatStep(Flat(w), w, page, op)[q];
  }

  /** What a load returns once the page is readable. */
  function Loaded(w: Pages, prefetch: nat, p: nat): seq<byte>
    requires p < |w|
  {
    Readable(w, p, prefetch)[p].host
  }

  // ----- whole runs -----

  function Run(w: Pages, page: nat, prefetch: nat, ops: seq<Op>): (w': Pages)
    requires forall k :: 0 <= k < |ops| ==> InBounds(|w|, page, ops[k])
    ensures |w'| == |w|
  {
    if ops == [] then w else Step(Run(w, page, prefetch, ops[..|ops| - 1]), page, prefetch, ops[|ops| - 1])
  }

  /** Every operation meets its obligation when its turn comes. */
  predicate RunAllowed(w: Pages, page: nat, prefetch: nat, ops: seq<Op>)
    requires forall k :: 0 <= k < |ops| ==> InBounds(|w|, page, ops[k])
  {
    forall k :: 0 <= k < |ops| ==> Allowed(Run(w, page, prefetch, ops[..k]), page, prefetch, ops[k])
  }

  /** The last value stored to page p at offset i since the run began, if nothing replaced the page since:
      the meaning of "the latest value" without any page state. */
  function Latest(w: Pages, page: nat, prefetch: nat, ops: seq<Op>, p: nat, i: nat): byte
    requires p < |w| && i < page && Coherent(w, page)
    requires forall k :: 0 <= k < |ops| ==> InBounds(|w|, page, ops[k])
  {
    if ops == [] then (FlatSize(w, page, p); Flat(w)[p][i])
    else
      var front, op := ops[..|ops| - 1], ops[|ops| - 1];
      assert InBounds(|w|, page, op);
      match op
      case Store(q, j, v) => if q == p && j == i then v else Latest(w, page, prefetch, front, p, i)
      case Engine(q, data) => if q == p then data[i] else Latest(w, page, prefetch, front, p, i)
      case Range(Invalidate, a, b) =>
        var u := Run(w, page, prefetch, front);
        if a <= p < b && u[p].state == Modified && i < |u[p].dev| then u[p].dev[i]
          else Latest(w, page, prefetch, front, p, i)
      case _ => Latest(w, page, prefetch, front, p, i)
  }

  lemma FlatSize(w: Pages, page: nat, p: nat)
    requires p < |w| && Coherent(w, page)
    ensures |Flat(w)[p]| == page
  {
  }

  /** After any allowed run, the window is coherent and a load of any byte returns the latest value. */
  lemma {:induction false} RunRefines(w: Pages, page: nat, prefetch: nat, ops: seq<Op>, p: nat, i: nat)
    requires p < |w| && i < page && Coherent(w, page)
    requires forall k :: 0 <= k < |ops| ==> InBounds(|w|, page, ops[k])
    requires RunAllowed(w, page, prefetch, ops)
    ensures var u := Run(w, page, prefetch, ops);
            && Coherent(u, page) && |Flat(u)[p]| == page && Flat(u)[p][i] == Latest(w, page, prefetch, ops, p, i)
            && (Allowed(u, page, prefetch, Load(p)) ==>
                  |Loaded(u, prefetch, p)| == page && Loaded(u, prefetch, p)[i] == Latest(w, page, prefetch, ops, p, i))
    decreases |ops|
  {
    hide Coherent, Flat, Step, Readable, Allowed;
    var u := Run(w, page, prefetch, ops);
    if ops != [] {
      var front, op := ops[..|ops| - 1], ops[|ops| - 1];
      var v := Run(w, page, prefetch, front);
      forall k | 0 <= k < |front|
        ensures Allowed(Run(w, page, prefetch, front[..k]), page, prefetch, front[k])
      {
        assert front[..k] == ops[..k];
        assert Allowed(Run(w, page, prefetch, ops[..k]), page, prefetch, ops[k]);
      }
      RunRefines(w, page, prefetch, front, p, i);
      assert Allowed(Run(w, page, prefetch, ops[..|ops| - 1]), page, prefetch, ops[|ops| - 1]);
      StepRefines(v, page, prefetch, op);
      if op.Range? && op.op == Invalidate {
        PageAt(v, page, p);
      }
    }
    FlatSize(u, page, p);
    if Allowed(u, page, prefetch, Load(p)) {
      LoadAllowed(u, page, prefetch, p);
      ReadableKeeps(u, page, prefetch, p);
    }
  }

  lemma LoadAllowed(w: Pages, page: nat, prefetch: nat, p: nat)
    requires p < |w| && Allowed(w, page, prefetch, Load(p))
    ensures Needs(w[p]) ==> NoDirtyInside(w, p, BatchSize(prefetch, p, |w|))
  {
  }
}
