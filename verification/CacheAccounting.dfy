/** The counters and the write log of the cache over whole runs, told by what is resident and by the requests alone. */
module CacheAccounting {
  import opened Arithmetic
  import opened CacheInvariant
  import opened CacheModel
  import opened CacheReplacement
  import opened CacheTransparency
  import opened FlatMemory

  // ----- write-backs

  /** How often block bn was handed to the next level for writing. */
  function Logged(t: Stats, bn: nat): nat {
    multiset(t.written)[bn]
  }

  predicate WritesTo(op: Op, bn: nat) {
    op.Access? && op.q.cmd == Write && op.q.bn == bn
  }

  /** After an operation bn is dirty when it is resident and was dirty or has just been written;
      and it was logged once more when it was dirty and is no longer resident. */
  ghost predicate StepLogged(g: Config, c: Cache, c': Cache, bn: nat, writes: bool)
    requires CacheOk(g, c) && CacheOk(g, c')
  {
    && (IsDirty(g, c', bn) <==> Hit(g, c', bn) && (IsDirty(g, c, bn) || writes))
    && Logged(c'.stats, bn) == Logged(c.stats, bn) + (if IsDirty(g, c, bn) && !Hit(g, c', bn) then 1 else 0)
    && |c'.stats.written| - c'.stats.writebacks == |c.stats.written| - c.stats.writebacks
  }

  lemma {:induction false} LoggedMore(a: seq<nat>, b: seq<nat>, bn: nat)
    ensures multiset(a + b)[bn] == multiset(a)[bn] + multiset(b)[bn]
  {
  }

  lemma {:induction false} WriteOfCount(g: Config, l: Line, s: nat, bn: nat)
    requires Legal(g) && s < g.nsets
    ensures multiset(WriteOf(g, l, s))[bn] == if SetOf(g, bn) == s && DirtyLine(l, TagOf(g, bn)) then 1 else 0
  {
    hide SetOf;
    hide TagOf;
    hide BlockNumber;
    hide IsPow2;
    BlockNumberInverts(g, bn);
    BlockNumberParts(g, l.tag, s);
  }

  /** A line that holds the tag is the one found. */
  lemma {:induction false} DirtyIs(g: Config, w: Ways, i: nat, tag: nat)
    requires WaysOk(g, w) && i < |w|
    ensures DirtyLine(w[i], tag) <==> Holds(w[i], tag) && Find(w, tag).Found? && Find(w, tag).line.dirty
  {
    if Holds(w[i], tag) { FindIn(g, w, tag, i); }
  }

  lemma {:induction false} HitLogged(g: Config, c: Cache, q: Request, prefetch: bool, r: nat, bn: nat)
    requires CacheOk(g, c) && Fits(g, q) && Hit(g, c, q.bn)
    ensures CacheOk(g, Lookaside(g, c, q, prefetch, r))
    ensures StepLogged(g, c, Lookaside(g, c, q, prefetch, r), bn, q.cmd == Write && q.bn == bn)
  {
    hide SetOf;
    hide TagOf;
    hide BlockNumber;
    hide IsPow2;
    LookasideOk(g, c, q, prefetch, r);
    var s, tag := SetOf(g, q.bn), TagOf(g, q.bn);
    var w := c.sets[s];
    BlockNumberInverts(g, bn);
    BlockNumberInverts(g, q.bn);
    if SetOf(g, bn) == s { FindAfterHit(g, w, Lookup(w, tag), q, TagOf(g, bn)); }
  }

  lemma {:induction false} MissDirty(g: Config, c: Cache, q: Request, prefetch: bool, r: nat, bn: nat)
    requires CacheOk(g, c) && Fits(g, q) && !Hit(g, c, q.bn)
    ensures CacheOk(g, Lookaside(g, c, q, prefetch, r))
    ensures var c' := Lookaside(g, c, q, prefetch, r);
            IsDirty(g, c', bn) <==> Hit(g, c', bn) && (IsDirty(g, c, bn) || (q.cmd == Write && q.bn == bn))
  {
    hide SetOf;
    hide TagOf;
    hide BlockNumber;
    hide IsPow2;
    hide WriteOf;
    LookasideOk(g, c, q, prefetch, r);
    var s, tag := SetOf(g, q.bn), TagOf(g, q.bn);
    var w := c.sets[s];
    var v := Victim(g, w, r);
    var store := WrittenBack(g, c.store, w[v], s);
    StoreOk(g, c, w[v], s);
    BlockNumberInverts(g, bn);
    BlockNumberInverts(g, q.bn);
    if SetOf(g, bn) == s {
      FindAfterMiss(g, w, v, tag, Block(g, store, q.bn), q, TagOf(g, bn));
    }
  }

  /** The victim is bn, and dirty. */
  predicate Evicts(g: Config, c: Cache, q: Request, r: nat, bn: nat)
    requires CacheOk(g, c)
  {
    var w := c.sets[SetOf(g, q.bn)];
    SetOf(g, bn) == SetOf(g, q.bn) && Holds(w[Victim(g, w, r)], TagOf(g, bn)) && w[Victim(g, w, r)].dirty
  }

  lemma {:induction false} MissEvicts(g: Config, c: Cache, q: Request, prefetch: bool, r: nat, bn: nat)
    requires CacheOk(g, c) && Fits(g, q) && !Hit(g, c, q.bn)
    ensures CacheOk(g, Lookaside(g, c, q, prefetch, r))
    ensures Evicts(g, c, q, r, bn) <==> IsDirty(g, c, bn) && !Hit(g, Lookaside(g, c, q, prefetch, r), bn)
  {
    hide SetOf;
    hide TagOf;
    hide IsPow2;
    hide Lookaside;
    hide Victim;
    LookasideOk(g, c, q, prefetch, r);
    var w := c.sets[SetOf(g, q.bn)];
    var v := Victim(g, w, r);
    if Hit(g, c, bn) { Survives(g, c, q, prefetch, r, bn); }
    if SetOf(g, bn) == SetOf(g, q.bn) && Holds(w[v], TagOf(g, bn)) { FindIn(g, w, TagOf(g, bn), v); }
  }

  lemma {:induction false} MissLog(g: Config, c: Cache, q: Request, prefetch: bool, r: nat, bn: nat)
    requires CacheOk(g, c) && Fits(g, q) && !Hit(g, c, q.bn)
    ensures var t, t' := c.stats, Lookaside(g, c, q, prefetch, r).stats;
            && Logged(t', bn) == Logged(t, bn) + (if Evicts(g, c, q, r, bn) then 1 else 0)
            && |t'.written| - t'.writebacks == |t.written| - t.writebacks
  {
    hide SetOf;
    hide TagOf;
    hide IsPow2;
    hide WriteOf;
    hide MissWays;
    hide WrittenBack;
    var s := SetOf(g, q.bn);
    var w := c.sets[s];
    var v := Victim(g, w, r);
    WriteOfCount(g, w[v], s, bn);
    LoggedMore(c.stats.written, WriteOf(g, w[v], s), bn);
    InvalidUnlogged(g, w[v], s);
  }

  lemma {:induction false} MissLogged(g: Config, c: Cache, q: Request, prefetch: bool, r: nat, bn: nat)
    requires CacheOk(g, c) && Fits(g, q) && !Hit(g, c, q.bn)
    ensures CacheOk(g, Lookaside(g, c, q, prefetch, r))
    ensures StepLogged(g, c, Lookaside(g, c, q, prefetch, r), bn, q.cmd == Write && q.bn == bn)
  {
    hide CacheOk;
    hide IsDirty;
    hide Hit;
    hide Logged;
    hide Evicts;
    hide Lookaside;
    MissDirty(g, c, q, prefetch, r, bn);
    MissEvicts(g, c, q, prefetch, r, bn);
    MissLog(g, c, q, prefetch, r, bn);
  }

  lemma {:induction false} InvalidUnlogged(g: Config, l: Line, s: nat)
    ensures !l.valid ==> WriteOf(g, l, s) == []
  {
  }

  lemma {:induction false} FlushBlockLogged(g: Config, c: Cache, b: nat, bn: nat)
    requires CacheOk(g, c)
    ensures CacheOk(g, FlushBlock(g, c, b)) && StepLogged(g, c, FlushBlock(g, c, b), bn, false)
  {
    hide SetOf;
    hide TagOf;
    hide BlockNumber;
    hide IsPow2;
    hide WriteOf;
    hide DirtyLine;
    FlushBlockOk(g, c, b);
    var s := SetOf(g, b);
    var w := c.sets[s];
    var i := Lookup(w, TagOf(g, b));
    if i < |w| {
      WriteOfCount(g, w[i], s, bn);
      LoggedMore(c.stats.written, WriteOf(g, w[i], s), bn);
      if SetOf(g, bn) == s {
        FindRemoved(g, w, i, TagOf(g, bn));
        DirtyIs(g, w, i, TagOf(g, bn));
      }
    }
  }

  lemma {:induction false} DistinctCount(log: seq<nat>, bn: nat)
    requires forall i, j :: 0 <= i < j < |log| ==> log[i] != log[j]
    ensures multiset(log)[bn] == if bn in log then 1 else 0
  {
    if log != [] {
      var n := |log| - 1;
      DistinctCount(log[..n], bn);
      assert log == log[..n] + [log[n]];
      forall i | 0 <= i < n ensures log[..n][i] != log[n] { assert log[..n][i] == log[i]; }
    }
  }

  lemma {:induction false} NothingAfterFlush(g: Config, c: Cache, bn: nat)
    requires CacheOk(g, c)
    ensures CacheOk(g, Flush(g, c)) && !Hit(g, Flush(g, c), bn)
  {
    hide SetOf;
    hide TagOf;
    hide IsPow2;
    FlushSetsOk(g, c, |c.sets|);
    LookupAbsent(Flush(g, c).sets[SetOf(g, bn)], TagOf(g, bn));
  }

  lemma {:induction false} FlushLogged(g: Config, c: Cache, bn: nat)
    requires CacheOk(g, c)
    ensures CacheOk(g, Flush(g, c)) && StepLogged(g, c, Flush(g, c), bn, false)
  {
    hide Flush;
    hide CacheOk;
    hide SetOf;
    hide TagOf;
    hide IsPow2;
    hide LogSets;
    NothingAfterFlush(g, c, bn);
    FlushWritesEachDirtyBlockOnce(g, c);
    var log := LogSets(g, c.sets);
    DistinctCount(log, bn);
    LoggedMore(c.stats.written, log, bn);
  }

  lemma {:induction false} ApplyLogged(g: Config, c: Cache, op: Op, bn: nat)
    requires CacheOk(g, c) && OpFits(g, op)
    ensures CacheOk(g, Apply(g, c, op)) && StepLogged(g, c, Apply(g, c, op), bn, WritesTo(op, bn))
  {
    hide StepLogged;
    hide Lookaside;
    hide FlushBlock;
    hide Flush;
    match op
    case Access(q, p, r) => if Hit(g, c, q.bn) { HitLogged(g, c, q, p, r, bn); } else { MissLogged(g, c, q, p, r, bn); }
    case FlushAll => FlushLogged(g, c, bn);
    case FlushAddr(b) => FlushBlockLogged(g, c, b, bn);
  }

  /** How often, over a run, bn left the cache after it had been written there; owed says whether that is so already. */
  function TimesReturned(g: Config, c: Cache, ops: seq<Op>, bn: nat, owed: bool): nat
    requires CacheOk(g, c) && forall i :: 0 <= i < |ops| ==> OpFits(g, ops[i])
    decreases |ops|
  {
    if ops == [] then 0
    else
      ApplyOk(g, c, ops[0]);
      var c' := Apply(g, c, ops[0]);
      (if owed && !Hit(g, c', bn) then 1 else 0)
      + TimesReturned(g, c', ops[1..], bn, Hit(g, c', bn) && (owed || WritesTo(ops[0], bn)))
  }

  lemma {:induction false} RunLogged(g: Config, c: Cache, ops: seq<Op>, bn: nat)
    requires CacheOk(g, c) && (forall i :: 0 <= i < |ops| ==> OpFits(g, ops[i]))
             && |c.stats.written| == c.stats.writebacks
    ensures var t := Run(g, c, ops).stats;
            && Logged(t, bn) == Logged(c.stats, bn) + TimesReturned(g, c, ops, bn, IsDirty(g, c, bn))
            && |t.written| == t.writebacks
    decreases |ops|
  {
    hide Logged;
    hide CacheOk;
    hide OpFits;
    hide IsDirty;
    hide Hit;
    hide WritesTo;
    hide Apply;
    if ops != [] {
      ApplyLogged(g, c, ops[0], bn);
      RunLogged(g, Apply(g, c, ops[0]), ops[1..], bn);
    }
  }

  lemma {:induction false} CleanAtFirst(g: Config, bn: nat)
    requires Legal(g)
    ensures CacheOk(g, Empty(g, map[])) && !IsDirty(g, Empty(g, map[]), bn) && Empty(g, map[]).stats.written == []
    ensures Empty(g, map[]).stats.writebacks == 0
  {
    hide IsPow2;
    hide SetOf;
    hide TagOf;
    EmptyOk(g, map[]);
  }

  /** Since cache_create every block was written back exactly as often as it left the cache, by replacement or by a
      flush, after having been written there; and the counter of write-backs is the number of those writes. */
  lemma {:induction false} WritebacksExactly(g: Config, ops: seq<Op>, bn: nat)
    requires Legal(g) && forall i :: 0 <= i < |ops| ==> OpFits(g, ops[i])
    ensures CacheOk(g, Empty(g, map[]))
    ensures var t := Run(g, Empty(g, map[]), ops).stats;
            && multiset(t.written)[bn] == TimesReturned(g, Empty(g, map[]), ops, bn, false)
            && t.writebacks == |t.written|
  {
    hide Empty;
    hide CacheOk;
    hide IsDirty;
    hide OpFits;
    CleanAtFirst(g, bn);
    RunLogged(g, Empty(g, map[]), ops, bn);
  }

  // ----- hits and misses

  /** The accesses of a run that are prefetches or not, and reads where only those are asked for, and that find their
      block or not. */
  function Tally(g: Config, c: Cache, ops: seq<Op>, prefetch: bool, readsOnly: bool, found: bool): nat
    requires CacheOk(g, c) && forall i :: 0 <= i < |ops| ==> OpFits(g, ops[i])
    decreases |ops|
  {
    if ops == [] then 0
    else
      var op := ops[0];
      ApplyOk(g, c, op);
      (if op.Access? && op.prefetch == prefetch && (readsOnly ==> op.q.cmd == Read) && Hit(g, c, op.q.bn) == found
       then 1 else 0)
      + Tally(g, Apply(g, c, op), ops[1..], prefetch, readsOnly, found)
  }

  lemma {:induction false} FlushCounts(g: Config, c: Cache, n: nat)
    requires n <= |c.sets|
    ensures SameCounts(FlushSets(g, c, n).stats, c.stats)
  {
    hide FlushStore;
    hide FlushWays;
    hide CountFlush;
    if n > 0 {
      FlushCounts(g, c, n - 1);
      FlushWaysCounts(g, FlushSets(g, c, n - 1).stats, c.sets[n - 1], n - 1);
    }
  }

  predicate SameCounts(t: Stats, t': Stats) {
    t.hits == t'.hits && t.misses == t'.misses && t.readHits == t'.readHits && t.readMisses == t'.readMisses
        && t.prefetchHits == t'.prefetchHits && t.prefetchMisses == t'.prefetchMisses
  }

  lemma {:induction false} FlushWaysCounts(g: Config, t: Stats, w: Ways, s: nat)
    ensures SameCounts(CountFlush(g, t, w, s), t)
  {
    if w != [] { FlushWaysCounts(g, t, w[..|w| - 1], s); }
  }

  /** Since cache_create each of the six counters is the number of accesses of its kind. */
  lemma {:induction false} CountersExactly(g: Config, c: Cache, ops: seq<Op>)
    requires CacheOk(g, c) && forall i :: 0 <= i < |ops| ==> OpFits(g, ops[i])
    ensures var t, t' := c.stats, Run(g, c, ops).stats;
            && t'.hits == t.hits + Tally(g, c, ops, false, false, true)
            && t'.misses == t.misses + Tally(g, c, ops, false, false, false)
            && t'.readHits == t.readHits + Tally(g, c, ops, false, true, true)
            && t'.readMisses == t.readMisses + Tally(g, c, ops, false, true, false)
            && t'.prefetchHits == t.prefetchHits + Tally(g, c, ops, true, false, true)
            && t'.prefetchMisses == t.prefetchMisses + Tally(g, c, ops, true, false, false)
    decreases |ops|
  {
    hide CacheOk;
    hide Hit;
    hide Apply;
    if ops != [] {
      ApplyOk(g, c, ops[0]);
      ApplyCounts(g, c, ops[0]);
      CountersExactly(g, Apply(g, c, ops[0]), ops[1..]);
    }
  }

  lemma {:induction false} AccessCounts(g: Config, c: Cache, q: Request, prefetch: bool, r: nat)
    requires CacheOk(g, c) && Fits(g, q)
    ensures var t, t', hit, read := c.stats, Lookaside(g, c, q, prefetch, r).stats, Hit(g, c, q.bn), q.cmd == Read;
            && t'.hits == t.hits + (if !prefetch && hit then 1 else 0)
            && t'.misses == t.misses + (if !prefetch && !hit then 1 else 0)
            && t'.readHits == t.readHits + (if !prefetch && read && hit then 1 else 0)
            && t'.readMisses == t.readMisses + (if !prefetch && read && !hit then 1 else 0)
            && t'.prefetchHits == t.prefetchHits + (if prefetch && hit then 1 else 0)
            && t'.prefetchMisses == t.prefetchMisses + (if prefetch && !hit then 1 else 0)
  {
    hide SetOf;
    hide TagOf;
    hide IsPow2;
  }

  lemma {:induction false} ApplyCounts(g: Config, c: Cache, op: Op)
    requires CacheOk(g, c) && OpFits(g, op)
    ensures var t, t' := c.stats, Apply(g, c, op).stats;
            if !op.Access? then SameCounts(t', t)
            else
              var hit, read := Hit(g, c, op.q.bn), op.q.cmd == Read;
              && t'.hits == t.hits + (if !op.prefetch && hit then 1 else 0)
              && t'.misses == t.misses + (if !op.prefetch && !hit then 1 else 0)
              && t'.readHits == t.readHits + (if !op.prefetch && read && hit then 1 else 0)
              && t'.readMisses == t.readMisses + (if !op.prefetch && read && !hit then 1 else 0)
              && t'.prefetchHits == t.prefetchHits + (if op.prefetch && hit then 1 else 0)
              && t'.prefetchMisses == t.prefetchMisses + (if op.prefetch && !hit then 1 else 0)
  {
    hide Lookaside;
    hide FlushSets;
    hide Hit;
    match op
    case Access(q, p, r) => AccessCounts(g, c, q, p, r);
    case FlushAll => FlushCounts(g, c, |c.sets|);
    case FlushAddr(bn) => FlushBlockCounts(g, c, bn);
  }

  lemma {:induction false} FlushBlockCounts(g: Config, c: Cache, bn: nat)
    requires CacheOk(g, c)
    ensures SameCounts(FlushBlock(g, c, bn).stats, c.stats)
  {
    hide SetOf;
    hide TagOf;
    hide IsPow2;
  }

  // ----- the next line

  /** The block after bn, and block 0 after the last one of the 4 GB address space. */
  lemma {:induction false} NextBlockExactly(g: Config, bn: nat)
    requires Legal(g) && bn * g.bsize < 0x1_0000_0000
    ensures NextBlock(g, bn) == if (bn + 1) * g.bsize < 0x1_0000_0000 then bn + 1 else 0
  {
    hide IsPow2;
    if HasNext(g, bn) {
      NextIsAdjacent(g, bn);
    } else {
      LastBlock(g.bsize, ADDRESS_SPACE / g.bsize, bn);
    }
  }

  lemma {:induction false} LastBlock(bsize: nat, n: nat, bn: nat)
    requires bsize > 0 && bn * bsize < n * bsize <= (bn + 1) * bsize
    ensures bn + 1 == n && bn * bsize + bsize == n * bsize
  {
    assert bn * bsize + bsize == (bn + 1) * bsize;
    if n > bn + 1 {
      MultipleOutside(n - bn - 1, bsize);
      Distributes(n, bn + 1, bsize);
    } else if n <= bn {
      MultipleOutside(bn - n + 1, bsize);
      Distributes(bn + 1, n, bsize);
    }
  }

  lemma {:induction false} Distributes(a: nat, b: nat, m: nat)
    requires a >= b
    ensures (a - b) * m == a * m - b * m
  {
  }
}
