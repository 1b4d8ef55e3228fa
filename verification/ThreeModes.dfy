/** The claim the three execution modes share: one program, any sequence of inputs, one INT32 answer. */
module ThreeModes {
  import opened Bytes
  import opened Program
  import opened Steps
  import HostMode
  import NmcMode
  import PoolMode

  /** What a run reports: nothing when an input is missing, else the reference's output. */
  ghost function Answer(p: Program, feed: Feed): (r: (bool, seq<int>))
    requires WellFormed(p) && Offered(p, feed)
  {
    if AllThere(p, feed) then (AllFed(p, feed); (true, RefOutput(p, feed))) else (false, [])
  }

  lemma AllFed(p: Program, feed: Feed)
    requires Offered(p, feed) && AllThere(p, feed)
    ensures FeedOk(p, feed)
  {
    hide InputFed;
  }

  ghost predicate Answers(p: Program, feeds: seq<Feed>, outs: seq<(bool, seq<int>)>)
    requires WellFormed(p) && forall k :: 0 <= k < |feeds| ==> Offered(p, feeds[k])
  {
    |outs| == |feeds| && forall k :: 0 <= k < |feeds| ==> outs[k] == Answer(p, feeds[k])
  }

  /** One host executor, fed one input after another. */
  method HostAll(p: Program, feeds: seq<Feed>, host: HostMode.HostExecutor) returns (outs: seq<(bool, seq<int>)>)
    requires WellFormed(p) && forall k :: 0 <= k < |feeds| ==> Offered(p, feeds[k])
    modifies host
    ensures Answers(p, feeds, outs)
  {
    hide WellFormed, Answer, Offered, AllThere, FeedOk, RefOutput;
    host.Prepare(p);
    outs := [];
    while |outs| < |feeds|
      invariant |outs| <= |feeds| && fresh(host.mem) && host.Ready(p)
      invariant forall i :: 0 <= i < |outs| ==> outs[i] == Answer(p, feeds[i])
    {
      var feed := feeds[|outs|];
      var ok, out := host.Run(p, feed);
      Answered(p, feed, ok, out);
      outs := outs + [(ok, if ok then out else [])];
    }
  }

  /** One near-memory executor: what an earlier run left in device memory never shows. */
  method NmcAll(p: Program, feeds: seq<Feed>, nmc: NmcMode.NmcExecutor) returns (outs: seq<(bool, seq<int>)>)
    requires WellFormed(p) && forall k :: 0 <= k < |feeds| ==> Offered(p, feeds[k])
    requires nmc.link.Quiet() && p.layoutEnd <= nmc.link.t.ddr2.Length
    modifies nmc, nmc.link, nmc.link.t, nmc.link.t.ddr2, nmc.link.t.rx
    ensures Answers(p, feeds, outs)
  {
    hide WellFormed, Answer, Offered, AllThere, FeedOk, RefOutput;
    var ok := nmc.Prepare(p);
    outs := [];
    while |outs| < |feeds|
      invariant |outs| <= |feeds| && nmc.Ready(p)
      invariant forall i :: 0 <= i < |outs| ==> outs[i] == Answer(p, feeds[i])
    {
      var feed := feeds[|outs|];
      var out;
      ok, out := nmc.Run(p, feed);
      Answered(p, feed, ok, out);
      outs := outs + [(ok, if ok then out else [])];
    }
  }

  /** One pool executor, reset between iterations: the pages are dropped unless the window is kept warm. */
  method PoolAll(p: Program, feeds: seq<Feed>, pool: PoolMode.PoolExecutor) returns (resident: bool,
          outs: seq<(bool, seq<int>)>)
    requires WellFormed(p) && forall k :: 0 <= k < |feeds| ==> Offered(p, feeds[k])
    requires pool.link.Quiet() && pool.page > 0
             && CeilDiv(p.layoutEnd, pool.page) * pool.page <= pool.link.t.ddr2.Length
    modifies pool, pool.link, pool.link.t, pool.link.t.ddr2, pool.link.t.rx
    ensures resident == !p.streaming
    ensures resident ==> Answers(p, feeds, outs)
  {
    hide WellFormed, Answer, Offered, AllThere, FeedOk, RefOutput, CeilDiv;
    resident := pool.Prepare(p);
    outs := [];
    if !resident {
      return;
    }
    while |outs| < |feeds|
      invariant |outs| <= |feeds| && pool.Ready(p) && fresh(pool.Parts()) && fresh(pool.act)
      invariant forall i :: 0 <= i < |outs| ==> outs[i] == Answer(p, feeds[i])
    {
      var feed := feeds[|outs|];
      var ok, out := pool.Run(p, feed);
      Answered(p, feed, ok, out);
      outs := outs + [(ok, if ok then out else [])];
      pool.Reset(p);
    }
  }

  /** The three modes agree on every input of every sequence; the pool alone refuses a streaming program. */
  method RunAll(p: Program, feeds: seq<Feed>, host: HostMode.HostExecutor, nmc: NmcMode.NmcExecutor,
          pool: PoolMode.PoolExecutor)
    returns (hostOut: seq<(bool, seq<int>)>, nmcOut: seq<(bool, seq<int>)>, resident: bool,
      poolOut: seq<(bool, seq<int>)>)
    requires WellFormed(p) && forall k :: 0 <= k < |feeds| ==> Offered(p, feeds[k])
    requires nmc.link.Quiet() && p.layoutEnd <= nmc.link.t.ddr2.Length
    requires pool.link.Quiet() && pool.page > 0
             && CeilDiv(p.layoutEnd, pool.page) * pool.page <= pool.link.t.ddr2.Length
    requires nmc.link != pool.link && nmc.link.t != pool.link.t
    requires {nmc.link.t.ddr2, nmc.link.t.rx} !! {pool.link.t.ddr2, pool.link.t.rx}
    modifies host, nmc, nmc.link, nmc.link.t, nmc.link.t.ddr2, nmc.link.t.rx
    modifies pool, pool.link, pool.link.t, pool.link.t.ddr2, pool.link.t.rx
    ensures Answers(p, feeds, hostOut) && nmcOut == hostOut
    ensures resident == !p.streaming && (resident ==> poolOut == hostOut)
  {
    hide WellFormed, Answer, Offered, CeilDiv;
    hostOut := HostAll(p, feeds, host);
    nmcOut := NmcAll(p, feeds, nmc);
    resident, poolOut := PoolAll(p, feeds, pool);
  }

  lemma Answered(p: Program, feed: Feed, ok: bool, out: seq<int>)
    requires WellFormed(p) && Offered(p, feed) && ok == AllThere(p, feed)
    requires ok ==> FeedOk(p, feed) && out == RefOutput(p, feed)
    ensures (ok, if ok then out else []) == Answer(p, feed)
  {
    hide WellFormed, AllThere, FeedOk, RefOutput, Offered;
  }
}
