/** Programs run with the stride prefetcher: what the table asks for is in the cache. */
module StrideRuns {
  import opened Arithmetic
  import opened CacheInvariant
  import opened CacheModel
  import opened CacheReplacement
  import opened StridePrefetcher

  function BlockOf(g: Config, a: nat): nat
    requires Legal(g)
  {
    a / g.bsize
  }

  function BringWanted(g: Config, c: Cache, wanted: Wanted, r: nat): Cache
    requires CacheOk(g, c)
  {
    match wanted
    case Nothing => c
    case Address(a) => Bring(g, c, BlockOf(g, a), r)
  }

  /** One demand access by instruction pc, with the draws for the access and for the prefetch. */
  datatype Demand = Demand(q: Request, pc: nat, r: nat, r': nat)

  predicate DemandFits(g: Config, x: Demand) {
    Fits(g, x.q) && AddressOf(g, x) < WORD
  }

  function AddressOf(g: Config, x: Demand): nat {
    x.q.bn * g.bsize + x.q.ofs
  }

  /** What the prefetcher has seen. */
  function History(g: Config, xs: seq<Demand>): (h: seq<Seen>)
    ensures |h| == |xs|
  {
    seq(|xs|, i requires 0 <= i < |xs| => Seen(xs[i].pc, AddressOf(g, xs[i])))
  }

  /** What the table asks for after an access by pc to addr, the last of history h. */
  function Asked(size: nat, h: seq<Seen>, pc: nat, addr: nat): Wanted
    requires size > 0
  {
    WantedBy(After(size, h)[RowOf(pc, size)], addr)
  }

  /** The last access of a run and its prefetch, from the cache c that the accesses before leave. */
  function StrideStep(g: Config, c: Cache, x: Demand, h: seq<Seen>): Cache
    requires CacheOk(g, c) && DemandFits(g, x) && g.prefetch > 2
  {
    LookasideOk(g, c, x.q, false, x.r);
    BringWanted(g, Lookaside(g, c, x.q, false, x.r), Asked(g.prefetch, h, x.pc, AddressOf(g, x)), x.r')
  }

  lemma {:induction false} StrideStepOk(g: Config, c: Cache, x: Demand, h: seq<Seen>)
    requires CacheOk(g, c) && DemandFits(g, x) && g.prefetch > 2
    ensures CacheOk(g, StrideStep(g, c, x, h))
  {
    hide Lookaside;
    hide Bring;
    hide Asked;
    hide WaysOk;
    hide IsPow2;
    LookasideOk(g, c, x.q, false, x.r);
    match Asked(g.prefetch, h, x.pc, AddressOf(g, x))
    case Nothing =>
    case Address(a) => BringOk(g, Lookaside(g, c, x.q, false, x.r), BlockOf(g, a), x.r');
  }

  /** A whole run from a new cache and a new table. */
  function StrideRun(g: Config, xs: seq<Demand>): (c: Cache)
    requires Legal(g) && g.prefetch > 2 && forall i :: 0 <= i < |xs| ==> DemandFits(g, xs[i])
    ensures CacheOk(g, c)
  {
    EmptyOk(g, map[]);
    if xs == [] then Empty(g, map[])
    else
      var c := StrideRun(g, xs[..|xs| - 1]);
      StrideStepOk(g, c, xs[|xs| - 1], History(g, xs));
      StrideStep(g, c, xs[|xs| - 1], History(g, xs))
  }

  /** The instruction of the last access shares its row with no other and has kept its stride d since its access
      number `from`, for three steps at least. */
  ghost predicate Converged(g: Config, xs: seq<Demand>, from: nat, d: int)
    requires g.prefetch > 2 && |xs| > 0
  {
    var pc, h := xs[|xs| - 1].pc, History(g, xs);
    Alone(g.prefetch, h, pc) && from + 3 < |AddressesOf(h, pc)| && Strides(AddressesOf(h, pc), from, d)
  }

  /** In any run: once the instruction of the last access has converged, the block of the next address at that stride
      is in the cache. */
  lemma {:induction false} StrideRunFetchesNext(g: Config, xs: seq<Demand>, from: nat, d: int, next: nat)
    requires Legal(g) && g.prefetch > 2 && |xs| > 0 && forall i :: 0 <= i < |xs| ==> DemandFits(g, xs[i])
    requires Converged(g, xs, from, d)
    requires next < WORD && Delta(next, AddressOf(g, xs[|xs| - 1])) == d
    ensures Hit(g, StrideRun(g, xs), BlockOf(g, next))
  {
    hide Delta;
    hide Hit;
    hide Bring;
    hide Lookaside;
    hide CacheOk;
    hide IsPow2;
    hide Alone;
    hide Strides;
    hide After;
    hide RowOf;
    hide WantedBy;
    var n := |xs| - 1;
    var x, h, c := xs[n], History(g, xs), StrideRun(g, xs[..n]);
    LastAddress(g, xs);
    StrideConverges(g.prefetch, h, x.pc, from, d, next);
    LookasideOk(g, c, x.q, false, x.r);
    BroughtIn(g, Lookaside(g, c, x.q, false, x.r), BlockOf(g, next), x.r');
  }

  lemma {:induction false} LastAddress(g: Config, xs: seq<Demand>)
    requires |xs| > 0
    ensures var x, seen := xs[|xs| - 1], AddressesOf(History(g, xs), xs[|xs| - 1].pc);
            |seen| > 0 && seen[|seen| - 1] == AddressOf(g, x)
  {
  }

  /** A prefetched block is present, whether it was already or had to be fetched. */
  lemma {:induction false} BroughtIn(g: Config, c: Cache, bn: nat, r: nat)
    requires CacheOk(g, c)
    ensures CacheOk(g, Bring(g, c, bn, r)) && Hit(g, Bring(g, c, bn, r), bn)
  {
    hide Hit;
    hide Lookaside;
    BringOk(g, c, bn, r);
    if !Hit(g, c, bn) {
      ResidentAfter(g, c, Request(Read, bn, 0, g.bsize, []), true, r);
    }
  }

  /** So if that address is what the program asks for next, the access is counted as a hit. */
  lemma {:induction false} ConvergedAccessHits(g: Config, xs: seq<Demand>, from: nat, d: int, y: Demand)
    requires Legal(g) && g.prefetch > 2 && |xs| > 0 && forall i :: 0 <= i < |xs| ==> DemandFits(g, xs[i])
    requires Converged(g, xs, from, d)
    requires DemandFits(g, y) && y.q.ofs < g.bsize && Delta(AddressOf(g, y), AddressOf(g, xs[|xs| - 1])) == d
    ensures var before, after := StrideRun(g, xs).stats, Lookaside(g, StrideRun(g, xs), y.q, false, y.r).stats;
            after.hits == before.hits + 1 && after.misses == before.misses
  {
    hide Delta;
    hide Converged;
    hide IsPow2;
    hide StrideRun;
    DivModUnique(AddressOf(g, y), g.bsize, y.q.bn, y.q.ofs);
    StrideRunFetchesNext(g, xs, from, d, AddressOf(g, y));
    HitCounted(g, StrideRun(g, xs), y.q, y.r);
  }

  lemma {:induction false} HitCounted(g: Config, c: Cache, q: Request, r: nat)
    requires CacheOk(g, c) && Fits(g, q) && Hit(g, c, q.bn)
    ensures var t := Lookaside(g, c, q, false, r).stats; t.hits == c.stats.hits + 1 && t.misses == c.stats.misses
  {
    hide IsPow2;
    hide HitWays;
    hide WaysOk;
    hide MissWays;
  }
}
