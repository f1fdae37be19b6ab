/** Which blocks stay: LRU is the recency stack, larger associativity includes smaller,
    valid blocks are accounted for, and the next-line prefetcher keeps two neighbours. */
module CacheReplacement {
  import opened Arithmetic
  import opened CacheInvariant
  import opened CacheModel
  import opened FlatMemory
  import opened NatSets

  // ----- the recency stack

  function PositionOf(r: seq<nat>, t: nat): (p: nat)
    ensures p <= |r| && (p < |r| ==> r[p] == t)
    ensures forall k :: 0 <= k < p ==> r[k] != t
  {
    if r == [] then 0 else if r[0] == t then 0 else 1 + PositionOf(r[1..], t)
  }

  /** t moves, or is added, to the front. */
  function Refer(r: seq<nat>, t: nat): (r': seq<nat>)
    ensures |r'| > 0
  {
    var p := PositionOf(r, t);
    [t] + r[..p] + if p < |r| then r[p + 1..] else []
  }

  lemma {:induction false} ReferAt(r: seq<nat>, t: nat)
    ensures var p, r' := PositionOf(r, t), Refer(r, t);
            && p <= |r| && (p < |r| ==> r[p] == t)
            && |r'| == (if p < |r| then |r| else |r| + 1)
            && forall k :: 0 <= k < |r'| ==> r'[k] == if k == 0 then t else if k <= p then r[k - 1] else r[k]
  {
  }

  /** The distinct tags of a history, the most recently used first. */
  function Recent(h: seq<nat>): seq<nat> {
    if h == [] then [] else Refer(Recent(h[..|h| - 1]), h[|h| - 1])
  }

  /** Position of the last use of t in h, -1 if there is none. */
  function LastUse(h: seq<nat>, t: nat): (u: int)
    ensures -1 <= u < |h|
    ensures u >= 0 ==> h[u] == t
    ensures forall k :: u < k < |h| ==> h[k] != t
  {
    if h == [] then -1 else if h[|h| - 1] == t then |h| - 1 else LastUse(h[..|h| - 1], t)
  }

  lemma {:induction false} ReferMembers(r: seq<nat>, t: nat, x: nat)
    ensures x in Refer(r, t) <==> x in r || x == t
  {
    var p := PositionOf(r, t);
    if p < |r| {
      assert r == r[..p] + [t] + r[p + 1..];
    } else {
      assert r == r[..p];
    }
  }

  lemma {:induction false} StackDistinct(h: seq<nat>)
    ensures forall i, j :: 0 <= i < j < |Recent(h)| ==> Recent(h)[i] != Recent(h)[j]
  {
    if h != [] {
      StackDistinct(h[..|h| - 1]);
      ReferAt(Recent(h[..|h| - 1]), h[|h| - 1]);
    }
  }

  /** Below the head the stack keeps its order. */
  lemma {:induction false} ReferKeepsOrder(r: seq<nat>, t: nat, i: nat, j: nat) returns (i': nat, j': nat)
    requires 0 < i < j < |Refer(r, t)| && forall a, b :: 0 <= a < b < |r| ==> r[a] != r[b]
    ensures i' < j' < |r| && Refer(r, t)[i] == r[i'] != t && Refer(r, t)[j] == r[j'] != t
  {
    ReferAt(r, t);
    var p := PositionOf(r, t);
    i' := if i <= p then i - 1 else i;
    j' := if j <= p then j - 1 else j;
  }

  lemma {:induction false} ReferHeadOnly(r: seq<nat>, t: nat, j: nat)
    requires 0 < j < |Refer(r, t)| && forall a, b :: 0 <= a < b < |r| ==> r[a] != r[b]
    ensures Refer(r, t)[j] != t
  {
    ReferAt(r, t);
  }

  /** The stack holds exactly the tags used. */
  lemma {:induction false} RecentMembers(h: seq<nat>, t: nat)
    ensures t in Recent(h) <==> t in h
  {
    if h != [] {
      assert h == h[..|h| - 1] + [h[|h| - 1]];
      RecentMembers(h[..|h| - 1], t);
      ReferMembers(Recent(h[..|h| - 1]), h[|h| - 1], t);
    }
  }

  /** And it holds them in the order of their last uses, latest first. */
  lemma {:induction false} RecentByLastUse(h: seq<nat>, i: nat, j: nat)
    requires i < j < |Recent(h)|
    ensures LastUse(h, Recent(h)[i]) > LastUse(h, Recent(h)[j])
  {
    var h0, t := h[..|h| - 1], h[|h| - 1];
    StackDistinct(h0);
    hide Refer;
    ReferHeadOnly(Recent(h0), t, j);
    if i > 0 {
      var i', j' := ReferKeepsOrder(Recent(h0), t, i, j);
      RecentByLastUse(h0, i', j');
    } else {
      ReferFront(Recent(h0), t);
    }
  }

  lemma {:induction false} ReferFront(r: seq<nat>, t: nat)
    ensures Refer(r, t)[0] == t
  {
  }

  /** The way list is the top of the stack r: as many valid blocks as the set has room for, the rest invalid. */
  ghost predicate Mirrors(w: Ways, r: seq<nat>) {
    forall k :: 0 <= k < |w| ==> if k < |r| then Holds(w[k], r[k]) else !w[k].valid
  }

  lemma {:induction false} MirroredLookup(g: Config, w: Ways, r: seq<nat>, t: nat)
    requires WaysOk(g, w) && Mirrors(w, r)
    ensures Lookup(w, t) == if PositionOf(r, t) < |r| && PositionOf(r, t) < |w| then PositionOf(r, t) else |w|
  {
    var p := PositionOf(r, t);
    if p < |r| && p < |w| {
      LookupUnique(g, w, t, p);
    } else {
      LookupAbsent(w, t);
    }
  }

  lemma {:induction false} ReferMirrors(w: Ways, r: seq<nat>, t: nat, i: nat, l: Line)
    requires Mirrors(w, r) && i < |w| && Holds(l, t)
    requires i == PositionOf(r, t) || (i == |w| - 1 && (PositionOf(r, t) >= |w| || PositionOf(r, t) == |r|))
    ensures Mirrors(ToHead(w, i, l), Refer(r, t))
  {
    ToHeadAt(w, i, l);
    ReferAt(r, t);
    hide ToHead;
    hide Refer;
  }

  /** One request under LRU. */
  lemma {:induction false} LruStep(g: Config, c: Cache, q: Request, prefetch: bool, v: nat, r: seq<nat>)
    requires CacheOk(g, c) && g.policy == LRU && Fits(g, q) && Mirrors(c.sets[SetOf(g, q.bn)], r)
    ensures CacheOk(g, Lookaside(g, c, q, prefetch, v))
    ensures Mirrors(Lookaside(g, c, q, prefetch, v).sets[SetOf(g, q.bn)], Refer(r, TagOf(g, q.bn)))
  {
    LookasideOk(g, c, q, prefetch, v);
    var s, tag := SetOf(g, q.bn), TagOf(g, q.bn);
    var w := c.sets[s];
    MirroredLookup(g, w, r, tag);
    var i := Lookup(w, tag);
    if i < |w| {
      ReferMirrors(w, r, tag, i, Touched(g, w[i], q));
    } else {
      var store := WrittenBack(g, c.store, w[|w| - 1], s);
      StoreOk(g, c, w[|w| - 1], s);
      ReferMirrors(w, r, tag, |w| - 1, Touched(g, Line(w[|w| - 1].blk, tag, true, false, Block(g, store, q.bn)), q));
    }
  }

  /** The tags requested in set s. */
  function History(g: Config, qs: seq<Request>, s: nat): seq<nat>
    requires g.nsets > 0
  {
    if qs == [] then []
    else
      var q := qs[|qs| - 1];
      History(g, qs[..|qs| - 1], s) + if SetOf(g, q.bn) == s then [TagOf(g, q.bn)] else []
  }

  /** A run of demand requests without flushes and without prefetching. */
  function Served(g: Config, qs: seq<Request>): (c: Cache)
    requires Legal(g) && forall i :: 0 <= i < |qs| ==> Fits(g, qs[i])
    ensures CacheOk(g, c)
  {
    if qs == [] then
      EmptyOk(g, map[]);
      Empty(g, map[])
    else
      LookasideOk(g, Served(g, qs[..|qs| - 1]), qs[|qs| - 1], false, 0);
      Lookaside(g, Served(g, qs[..|qs| - 1]), qs[|qs| - 1], false, 0)
  }

  lemma {:induction false} EmptyMirrors(g: Config, s: nat)
    requires Legal(g) && s < g.nsets
    ensures Mirrors(Empty(g, map[]).sets[s], [])
  {
  }

  lemma {:induction false} OtherSetUntouched(g: Config, c: Cache, q: Request, prefetch: bool, v: nat, s: nat)
    requires CacheOk(g, c) && Fits(g, q) && s < g.nsets && s != SetOf(g, q.bn)
    ensures CacheOk(g, Lookaside(g, c, q, prefetch, v)) && Lookaside(g, c, q, prefetch, v).sets[s] == c.sets[s]
  {
    LookasideOk(g, c, q, prefetch, v);
  }

  lemma {:induction false} RecentSnoc(h: seq<nat>, t: nat)
    ensures Recent(h + [t]) == Refer(Recent(h), t)
  {
    assert (h + [t])[..|h|] == h;
  }

  /** LRU keeps in every set exactly the most recently used tags, in order of last use. */
  lemma {:induction false} LruIsRecencyStack(g: Config, qs: seq<Request>, s: nat)
    requires Legal(g) && g.policy == LRU && s < g.nsets && forall i :: 0 <= i < |qs| ==> Fits(g, qs[i])
    ensures Mirrors(Served(g, qs).sets[s], Recent(History(g, qs, s)))
  {
    hide Mirrors;
    hide Refer;
    hide Lookaside;
    hide Empty;
    hide SetOf;
    hide TagOf;
    if qs == [] {
      EmptyMirrors(g, s);
    } else {
      var q, qs0 := qs[|qs| - 1], qs[..|qs| - 1];
      LruIsRecencyStack(g, qs0, s);
      var h := History(g, qs0, s);
      if SetOf(g, q.bn) == s {
        LruStep(g, Served(g, qs0), q, false, 0, Recent(h));
        RecentSnoc(h, TagOf(g, q.bn));
      } else {
        OtherSetUntouched(g, Served(g, qs0), q, false, 0, s);
        assert h + [] == h;
      }
    }
  }

  /** Same sets, same blocks, more ways. */
  predicate Wider(a: Config, b: Config) {
    a.nsets == b.nsets && a.bsize == b.bsize && a.balloc == b.balloc && a.policy == LRU && b.policy == LRU
        && a.assoc <= b.assoc
  }

  lemma {:induction false} SameHistory(a: Config, b: Config, qs: seq<Request>, s: nat)
    requires a.nsets == b.nsets && a.nsets > 0
    ensures History(a, qs, s) == History(b, qs, s)
  {
    if qs != [] {
      SameHistory(a, b, qs[..|qs| - 1], s);
    }
  }

  /** Inclusion: whatever the narrower cache holds the wider one holds too. */
  lemma {:induction false} WiderHoldsMore(a: Config, b: Config, qs: seq<Request>, bn: nat)
    requires Legal(a) && Legal(b) && Wider(a, b) && forall i :: 0 <= i < |qs| ==> Fits(a, qs[i]) && Fits(b, qs[i])
    ensures Hit(a, Served(a, qs), bn) ==> Hit(b, Served(b, qs), bn)
  {
    var s := SetOf(a, bn);
    LruIsRecencyStack(a, qs, s);
    LruIsRecencyStack(b, qs, s);
    SameHistory(a, b, qs, s);
    var r := Recent(History(a, qs, s));
    MirroredLookup(a, Served(a, qs).sets[s], r, TagOf(a, bn));
    MirroredLookup(b, Served(b, qs).sets[s], r, TagOf(b, bn));
  }

  lemma {:induction false} HitCounted(g: Config, c: Cache, q: Request, r: nat)
    requires CacheOk(g, c) && Fits(g, q)
    ensures Lookaside(g, c, q, false, r).stats.hits == c.stats.hits + if Hit(g, c, q.bn) then 1 else 0
  {
  }

  /** So the wider cache never counts fewer hits. */
  lemma {:induction false} WiderHitsMore(a: Config, b: Config, qs: seq<Request>)
    requires Legal(a) && Legal(b) && Wider(a, b) && forall i :: 0 <= i < |qs| ==> Fits(a, qs[i]) && Fits(b, qs[i])
    ensures Served(a, qs).stats.hits <= Served(b, qs).stats.hits
  {
    if qs != [] {
      var q, qs0 := qs[|qs| - 1], qs[..|qs| - 1];
      WiderHitsMore(a, b, qs0);
      WiderHoldsMore(a, b, qs0, q.bn);
      HitCounted(a, Served(a, qs0), q, 0);
      HitCounted(b, Served(b, qs0), q, 0);
    }
  }

  // ----- accounting

  function Valids(w: Ways): nat {
    if w == [] then 0 else Valids(w[..|w| - 1]) + if w[|w| - 1].valid then 1 else 0
  }

  function ValidBlocks(sets: seq<Ways>): nat {
    if sets == [] then 0 else ValidBlocks(sets[..|sets| - 1]) + Valids(sets[|sets| - 1])
  }

  lemma {:induction false} ValidsConcat(a: Ways, b: Ways)
    ensures Valids(a + b) == Valids(a) + Valids(b)
  {
    if b == [] {
      assert a + b == a;
    } else {
      ValidsConcat(a, b[..|b| - 1]);
      assert (a + b)[..|a + b| - 1] == a + b[..|b| - 1];
    }
  }

  lemma {:induction false} ValidsSplit(w: Ways, i: nat)
    requires i < |w|
    ensures Valids(w) == Valids(w[..i]) + (if w[i].valid then 1 else 0) + Valids(w[i + 1..])
  {
    ValidsConcat(w[..i], w[i..]);
    ValidsConcat([w[i]], w[i + 1..]);
    assert w == w[..i] + w[i..] && w[i..] == [w[i]] + w[i + 1..];
    assert Valids([w[i]]) == if w[i].valid then 1 else 0;
  }

  /** Replacing one line anywhere in the list, moved or not, changes the count by that line alone. */
  lemma {:induction false} ValidsMoved(w: Ways, i: nat, l: Line)
    requires i < |w|
    ensures Valids(ToHead(w, i, l)) == Valids(ToTail(w, i, l)) == Valids(w[..i]) + Valids(w[i + 1..]) + Valids([l])
  {
    hide Valids;
    ValidsConcat(w[..i], w[i + 1..]);
    ValidsConcat([l] + w[..i], w[i + 1..]);
    ValidsConcat([l], w[..i]);
    ValidsConcat(w[..i] + w[i + 1..], [l]);
  }

  lemma {:induction false} ValidsReplaced(w: Ways, i: nat, l: Line)
    requires i < |w|
    ensures Valids(ToHead(w, i, l)) == Valids(w[i := l]) == Valids(ToTail(w, i, l)) ==
            Valids(w) - (if w[i].valid then 1 else 0) + if l.valid then 1 else 0
  {
    hide ToHead;
    hide ToTail;
    assert Valids([l]) == if l.valid then 1 else 0;
    ValidsMoved(w, i, l);
    ValidsSplit(w, i);
    ValidsSplit(w[i := l], i);
    assert w[i := l][..i] == w[..i] && w[i := l][i + 1..] == w[i + 1..];
  }

  lemma {:induction false} BlocksReplaced(sets: seq<Ways>, s: nat, w: Ways)
    requires s < |sets|
    ensures ValidBlocks(sets[s := w]) == ValidBlocks(sets) - Valids(sets[s]) + Valids(w)
  {
    var n := |sets| - 1;
    if s < n {
      BlocksReplaced(sets[..n], s, w);
      assert sets[s := w][..n] == sets[..n][s := w];
    } else {
      assert sets[s := w][..n] == sets[..n];
    }
  }

  /** Blocks enter by misses and leave by replacement and invalidation. */
  ghost predicate Accounted(c: Cache) {
    ValidBlocks(c.sets) + c.stats.replacements + c.stats.invalidations == c.stats.misses + c.stats.prefetchMisses
  }

  lemma {:induction false} LookasideAccounted(g: Config, c: Cache, q: Request, prefetch: bool, r: nat)
    requires CacheOk(g, c) && Fits(g, q) && Accounted(c)
    ensures Accounted(Lookaside(g, c, q, prefetch, r))
  {
    hide ToHead;
    hide ValidBlocks;
    hide Valids;
    var s, tag := SetOf(g, q.bn), TagOf(g, q.bn);
    var w := c.sets[s];
    var i := Lookup(w, tag);
    if i < |w| {
      ValidsReplaced(w, i, Touched(g, w[i], q));
      BlocksReplaced(c.sets, s, HitWays(g, w, i, q));
    } else {
      var v := Victim(g, w, r);
      var store := WrittenBack(g, c.store, w[v], s);
      StoreOk(g, c, w[v], s);
      ValidsReplaced(w, v, Touched(g, Line(w[v].blk, tag, true, false, Block(g, store, q.bn)), q));
      BlocksReplaced(c.sets, s, MissWays(g, w, v, tag, Block(g, store, q.bn), q));
    }
  }

  lemma {:induction false} FlushBlockAccounted(g: Config, c: Cache, bn: nat)
    requires CacheOk(g, c) && Accounted(c)
    ensures Accounted(FlushBlock(g, c, bn))
  {
    hide ToTail;
    hide ValidBlocks;
    hide SetOf;
    hide TagOf;
    hide IsPow2;
    var s := SetOf(g, bn);
    var w := c.sets[s];
    var i := Lookup(w, TagOf(g, bn));
    if i < |w| {
      ValidsReplaced(w, i, Invalidated(w[i]));
      BlocksReplaced(c.sets, s, ToTail(w, i, Invalidated(w[i])));
      FlushWaysCount(g, c.stats, [w[i]], s);
      assert Valids([w[i]]) == 1;
      hide Valids;
      hide WaysOk;
    }
  }

  lemma {:induction false} FlushWaysCount(g: Config, t: Stats, w: Ways, s: nat)
    ensures var t' := CountFlush(g, t, w, s);
            t' == t.(invalidations := t.invalidations + Valids(w), writebacks := t'.writebacks, written := t'.written)
  {
    if w != [] {
      FlushWaysCount(g, t, w[..|w| - 1], s);
    }
  }

  lemma {:induction false} NoneValid(w: Ways)
    requires forall i :: 0 <= i < |w| ==> !w[i].valid
    ensures Valids(w) == 0
  {
    if w != [] {
      NoneValid(w[..|w| - 1]);
    }
  }

  lemma {:induction false} FlushOneAccounted(g: Config, f: Cache, s: nat)
    requires s < |f.sets| && Accounted(f)
    ensures Accounted(FlushedSet(g, f, s))
  {
    hide ValidBlocks;
    hide Valids;
    hide CountFlush;
    var w := f.sets[s];
    FlushWaysCount(g, f.stats, w, s);
    NoneValid(FlushWays(w));
    BlocksReplaced(f.sets, s, FlushWays(w));
  }

  lemma {:induction false} FlushSetsAccounted(g: Config, c: Cache, n: nat)
    requires n <= |c.sets| && Accounted(c)
    ensures Accounted(FlushSets(g, c, n))
  {
    hide Accounted;
    hide FlushWays;
    hide FlushStore;
    hide CountFlush;
    if n > 0 {
      FlushSetsAccounted(g, c, n - 1);
      FlushSetsStep(g, c, n - 1);
      FlushOneAccounted(g, FlushSets(g, c, n - 1), n - 1);
    }
  }

  lemma {:induction false} ApplyAccounted(g: Config, c: Cache, op: Op)
    requires CacheOk(g, c) && OpFits(g, op) && Accounted(c)
    ensures Accounted(Apply(g, c, op))
  {
    match op
    case Access(q, p, r) => LookasideAccounted(g, c, q, p, r);
    case FlushAll => FlushSetsAccounted(g, c, |c.sets|);
    case FlushAddr(bn) => FlushBlockAccounted(g, c, bn);
  }

  /** For every policy and every mix of accesses, prefetches and flushes. */
  lemma {:induction false} RunAccounted(g: Config, c: Cache, ops: seq<Op>)
    requires CacheOk(g, c) && Accounted(c) && forall i :: 0 <= i < |ops| ==> OpFits(g, ops[i])
    ensures Accounted(Run(g, c, ops))
    decreases |ops|
  {
    hide Accounted;
    hide Apply;
    if ops != [] {
      ApplyAccounted(g, c, ops[0]);
      ApplyOk(g, c, ops[0]);
      RunAccounted(g, Apply(g, c, ops[0]), ops[1..]);
    }
  }

  lemma {:induction false} EmptySetsCount(g: Config, sets: seq<Ways>)
    requires forall s :: 0 <= s < |sets| ==> sets[s] == EmptyWays(g)
    ensures ValidBlocks(sets) == 0
  {
    if sets != [] {
      EmptySetsCount(g, sets[..|sets| - 1]);
      NoneValid(EmptyWays(g));
    }
  }

  /** Whatever was done since cache_create, the counters account for the valid blocks. */
  lemma {:induction false} ValidBlocksAccounted(g: Config, ops: seq<Op>)
    requires Legal(g) && forall i :: 0 <= i < |ops| ==> OpFits(g, ops[i])
    ensures CacheOk(g, Empty(g, map[]))
    ensures var c := Run(g, Empty(g, map[]), ops);
            ValidBlocks(c.sets)
                == c.stats.misses + c.stats.prefetchMisses - c.stats.replacements - c.stats.invalidations
  {
    EmptyOk(g, map[]);
    EmptySetsCount(g, Empty(g, map[]).sets);
    RunAccounted(g, Empty(g, map[]), ops);
  }

  // ----- invalid blocks stay at the tail

  ghost predicate InvalidTail(w: Ways) {
    forall i, j :: 0 <= i < j < |w| && w[j].valid ==> w[i].valid
  }

  ghost predicate InvalidTails(c: Cache) {
    forall s :: 0 <= s < |c.sets| ==> InvalidTail(c.sets[s])
  }

  lemma {:induction false} LookasideTails(g: Config, c: Cache, q: Request, prefetch: bool, r: nat)
    requires CacheOk(g, c) && Fits(g, q) && g.policy != Random && InvalidTails(c)
    ensures InvalidTails(Lookaside(g, c, q, prefetch, r))
  {
    hide InvalidTail;
    hide HitWays;
    hide MissWays;
    hide SetOf;
    hide TagOf;
    hide IsPow2;
    hide WrittenBack;
    var s, tag := SetOf(g, q.bn), TagOf(g, q.bn);
    var w := c.sets[s];
    var i := Lookup(w, tag);
    if i < |w| {
      HitTail(g, w, i, q);
    } else {
      var store := WrittenBack(g, c.store, w[|w| - 1], s);
      StoreOk(g, c, w[|w| - 1], s);
      MissTail(g, w, tag, Block(g, store, q.bn), q);
    }
  }

  lemma {:induction false} HitTail(g: Config, w: Ways, i: nat, q: Request)
    requires InvalidTail(w) && i < |w| && w[i].valid && Fits(g, q) && (g.balloc ==> |w[i].data| == g.bsize)
    ensures InvalidTail(HitWays(g, w, i, q))
  {
    ToHeadAt(w, i, Touched(g, w[i], q));
    hide ToHead;
  }

  lemma {:induction false} MissTail(g: Config, w: Ways, tag: nat, fill: seq<Byte>, q: Request)
    requires InvalidTail(w) && |w| > 0 && g.policy != Random && Fits(g, q) && (g.balloc ==> |fill| == g.bsize)
    ensures InvalidTail(MissWays(g, w, |w| - 1, tag, fill, q))
  {
    ToHeadAt(w, |w| - 1, Touched(g, Line(w[|w| - 1].blk, tag, true, false, fill), q));
    hide ToHead;
  }

  lemma {:induction false} FlushBlockTails(g: Config, c: Cache, bn: nat)
    requires CacheOk(g, c) && InvalidTails(c)
    ensures InvalidTails(FlushBlock(g, c, bn))
  {
    var s := SetOf(g, bn);
    var w := c.sets[s];
    var i := Lookup(w, TagOf(g, bn));
    if i < |w| {
      assert InvalidTail(w);
      assert InvalidTail(ToTail(w, i, Invalidated(w[i])));
    }
  }

  lemma {:induction false} FlushTails(g: Config, c: Cache)
    ensures InvalidTails(Flush(g, c))
  {
  }

  lemma {:induction false} TailsKept(g: Config, c: Cache, ops: seq<Op>)
    requires CacheOk(g, c) && g.policy != Random && InvalidTails(c) && forall i :: 0 <= i < |ops| ==> OpFits(g, ops[i])
    ensures InvalidTails(Run(g, c, ops))
    decreases |ops|
  {
    if ops != [] {
      ApplyOk(g, c, ops[0]);
      match ops[0] {
        case Access(q, p, r) => LookasideTails(g, c, q, p, r);
        case FlushAll => FlushTails(g, c);
        case FlushAddr(bn) => FlushBlockTails(g, c, bn);
      }
      hide InvalidTails;
      hide Apply;
      TailsKept(g, Apply(g, c, ops[0]), ops[1..]);
    }
  }

  /** Under LRU and FIFO the invalid blocks of a set are at the tail of its way list, whatever was done since
      cache_create. */
  lemma {:induction false} RunTails(g: Config, ops: seq<Op>)
    requires Legal(g) && g.policy != Random && forall i :: 0 <= i < |ops| ==> OpFits(g, ops[i])
    ensures CacheOk(g, Empty(g, map[])) && InvalidTails(Run(g, Empty(g, map[]), ops))
  {
    EmptyOk(g, map[]);
    TailsKept(g, Empty(g, map[]), ops);
  }

  lemma {:induction false} ReplacedIsTail(g: Config, c: Cache, q: Request, prefetch: bool, r: nat, i: nat)
    requires CacheOk(g, c) && Fits(g, q) && g.policy != Random && InvalidTails(c) && i < g.assoc
    requires Lookaside(g, c, q, prefetch, r).stats.replacements > c.stats.replacements
    ensures c.sets[SetOf(g, q.bn)][i].valid
  {
    var w := c.sets[SetOf(g, q.bn)];
    assert InvalidTail(w);
    assert w[|w| - 1].valid;
  }

  /** So in every run a valid block is replaced only when its whole set is valid. */
  lemma {:induction false} ReplacesOnlyFullSets(g: Config, ops: seq<Op>, q: Request, prefetch: bool, r: nat, i: nat)
    requires Legal(g) && g.policy != Random && (forall k :: 0 <= k < |ops| ==> OpFits(g, ops[k])) && Fits(g, q)
             && i < g.assoc
    requires CacheOk(g, Empty(g, map[]))
    ensures var c := Run(g, Empty(g, map[]), ops);
            var c' := Lookaside(g, c, q, prefetch, r);
            c'.stats.replacements > c.stats.replacements ==> c.sets[SetOf(g, q.bn)][i].valid
  {
    hide Run;
    hide InvalidTails;
    hide Lookaside;
    RunTails(g, ops);
    var c := Run(g, Empty(g, map[]), ops);
    RunKeepsOk(g, Empty(g, map[]), ops);
    if Lookaside(g, c, q, prefetch, r).stats.replacements > c.stats.replacements {
      ReplacedIsTail(g, c, q, prefetch, r, i);
    }
  }

  lemma {:induction false} RunKeepsOk(g: Config, c: Cache, ops: seq<Op>)
    requires CacheOk(g, c) && forall i :: 0 <= i < |ops| ==> OpFits(g, ops[i])
    ensures CacheOk(g, Run(g, c, ops))
  {
  }

  // ----- next-line prefetching

  /** A demand access with the next-line prefetcher on. */
  function DemandNext(g: Config, c: Cache, q: Request, r: nat, r': nat): Cache
    requires CacheOk(g, c) && Fits(g, q)
  {
    LookasideOk(g, c, q, false, r);
    Bring(g, Lookaside(g, c, q, false, r), NextBlock(g, q.bn), r')
  }

  lemma {:induction false} ResidentAfter(g: Config, c: Cache, q: Request, prefetch: bool, r: nat)
    requires CacheOk(g, c) && Fits(g, q)
    ensures var c' := Lookaside(g, c, q, prefetch, r);
            && CacheOk(g, c') && Hit(g, c', q.bn)
            && (g.policy == LRU ==> Holds(c'.sets[SetOf(g, q.bn)][0], TagOf(g, q.bn)))
  {
    LookasideOk(g, c, q, prefetch, r);
    var s, tag := SetOf(g, q.bn), TagOf(g, q.bn);
    var w := c.sets[s];
    var i := Lookup(w, tag);
    if i < |w| {
      FindAfterHit(g, w, i, q, tag);
    } else {
      var v := Victim(g, w, r);
      var store := WrittenBack(g, c.store, w[v], s);
      StoreOk(g, c, w[v], s);
      FindAfterMiss(g, w, v, tag, Block(g, store, q.bn), q, tag);
    }
  }

  /** A block of the same set survives a request unless it is the victim of a miss. */
  lemma {:induction false} Survives(g: Config, c: Cache, q: Request, prefetch: bool, r: nat, bn: nat)
    requires CacheOk(g, c) && Fits(g, q) && Hit(g, c, bn)
    ensures CacheOk(g, Lookaside(g, c, q, prefetch, r))
    ensures Hit(g, Lookaside(g, c, q, prefetch, r), bn) <==>
            (SetOf(g, bn) != SetOf(g, q.bn) || Hit(g, c, q.bn) || TagOf(g, bn) == TagOf(g, q.bn)
             || !Holds(c.sets[SetOf(g, q.bn)][Victim(g, c.sets[SetOf(g, q.bn)], r)], TagOf(g, bn)))
  {
    LookasideOk(g, c, q, prefetch, r);
    var s, tag := SetOf(g, q.bn), TagOf(g, q.bn);
    var w := c.sets[s];
    var i := Lookup(w, tag);
    if SetOf(g, bn) == s {
      if i < |w| {
        FindAfterHit(g, w, i, q, TagOf(g, bn));
      } else {
        var v := Victim(g, w, r);
        var store := WrittenBack(g, c.store, w[v], s);
        StoreOk(g, c, w[v], s);
        FindAfterMiss(g, w, v, tag, Block(g, store, q.bn), q, TagOf(g, bn));
      }
    }
  }

  /** The address after the block does not wrap around to block 0. */
  predicate HasNext(g: Config, bn: nat) {
    (bn + 1) * g.bsize < ADDRESS_SPACE
  }

  lemma {:induction false} NextIsAdjacent(g: Config, bn: nat)
    requires Legal(g) && HasNext(g, bn)
    ensures NextBlock(g, bn) == bn + 1
    ensures g.nsets >= 2 ==> SetOf(g, bn + 1) != SetOf(g, bn)
  {
    assert (bn * g.bsize + g.bsize) == (bn + 1) * g.bsize + 0;
    DivModUnique((bn + 1) * g.bsize, g.bsize, bn + 1, 0);
    if g.nsets >= 2 {
      NeighbourSets(bn, g.nsets);
    }
  }

  lemma {:induction false} NeighbourSets(a: nat, n: nat)
    requires n >= 2
    ensures (a + 1) % n != a % n
  {
    var q, r := a / n, a % n;
    assert a == q * n + r;
    if r + 1 < n {
      DivModUnique(a + 1, n, q, r + 1);
    } else {
      assert a + 1 == (q + 1) * n + 0;
      DivModUnique(a + 1, n, q + 1, 0);
    }
  }

  /** What a prefetch of block p does to a resident block bn. */
  lemma {:induction false} BringKeeps(g: Config, c: Cache, p: nat, r: nat, bn: nat)
    requires CacheOk(g, c) && Hit(g, c, bn)
    ensures CacheOk(g, Bring(g, c, p, r)) && Hit(g, Bring(g, c, p, r), p)
    ensures Hit(g, Bring(g, c, p, r), bn) <==>
            (Hit(g, c, p) || SetOf(g, bn) != SetOf(g, p) || TagOf(g, bn) == TagOf(g, p)
             || !Holds(c.sets[SetOf(g, p)][Victim(g, c.sets[SetOf(g, p)], r)], TagOf(g, bn)))
  {
    var q := Request(Read, p, 0, g.bsize, []);
    if !Hit(g, c, p) {
      ResidentAfter(g, c, q, true, r);
      Survives(g, c, q, true, r, bn);
    }
  }

  lemma {:induction false} VictimIsNotHead(g: Config, c: Cache, bn: nat, r: nat)
    requires CacheOk(g, c) && g.policy == LRU && g.assoc >= 2 ==> Holds(c.sets[SetOf(g, bn)][0], TagOf(g, bn))
    requires CacheOk(g, c)
    ensures g.policy == LRU && g.assoc >= 2 ==>
              !Holds(c.sets[SetOf(g, bn)][Victim(g, c.sets[SetOf(g, bn)], r)], TagOf(g, bn))
  {
    if g.policy == LRU && g.assoc >= 2 {
      var w := c.sets[SetOf(g, bn)];
      assert Apart(w[0], w[|w| - 1]);
    }
  }

  /** After a demand access both the block and the one after it are resident. */
  lemma {:induction false} NextLineKeepsBoth(g: Config, c: Cache, q: Request, r: nat, r': nat)
    requires CacheOk(g, c) && Fits(g, q) && HasNext(g, q.bn)
    requires g.nsets >= 2 || (g.policy == LRU && g.assoc >= 2)
    ensures var c' := DemandNext(g, c, q, r, r');
            CacheOk(g, c') && Hit(g, c', q.bn) && Hit(g, c', q.bn + 1)
  {
    hide Lookaside;
    hide Bring;
    hide NextBlock;
    hide Victim;
    hide Hit;
    hide SetOf;
    hide TagOf;
    hide WaysOk;
    hide IsPow2;
    hide Holds;
    var c1 := Lookaside(g, c, q, false, r);
    ResidentAfter(g, c, q, false, r);
    NextIsAdjacent(g, q.bn);
    BringKeeps(g, c1, q.bn + 1, r', q.bn);
    VictimIsNotHead(g, c1, q.bn, r');
  }

  /** Prefetches never count as hits: each follows a probe that failed. */
  lemma {:induction false} NextLineNeverHits(g: Config, c: Cache, q: Request, r: nat, r': nat)
    requires CacheOk(g, c) && Fits(g, q)
    ensures DemandNext(g, c, q, r, r').stats.prefetchHits == c.stats.prefetchHits
  {
    LookasideOk(g, c, q, false, r);
  }

  /** A run of demand accesses with the next-line prefetcher on; draws supplies the random victims. */
  function DemandRun(g: Config, qs: seq<Request>, draws: nat -> nat): (c: Cache)
    requires Legal(g) && forall i :: 0 <= i < |qs| ==> Fits(g, qs[i])
    ensures CacheOk(g, c)
  {
    if qs == [] then
      EmptyOk(g, map[]);
      Empty(g, map[])
    else
      var n := |qs| - 1;
      var c := DemandRun(g, qs[..n], draws);
      LookasideOk(g, c, qs[n], false, draws(2 * n));
      BringOk(g, Lookaside(g, c, qs[n], false, draws(2 * n)), NextBlock(g, qs[n].bn), draws(2 * n + 1));
      DemandNext(g, c, qs[n], draws(2 * n), draws(2 * n + 1))
  }

  lemma {:induction false} NextLineRunNeverHits(g: Config, qs: seq<Request>, draws: nat -> nat)
    requires Legal(g) && forall i :: 0 <= i < |qs| ==> Fits(g, qs[i])
    ensures DemandRun(g, qs, draws).stats.prefetchHits == 0
  {
    hide DemandNext;
    hide Lookaside;
    if qs != [] {
      var n := |qs| - 1;
      NextLineRunNeverHits(g, qs[..n], draws);
      NextLineNeverHits(g, DemandRun(g, qs[..n], draws), qs[n], draws(2 * n), draws(2 * n + 1));
    }
  }

  lemma {:induction false} NextLineRunKeepsBoth(g: Config, qs: seq<Request>, draws: nat -> nat)
    requires Legal(g) && |qs| > 0 && forall i :: 0 <= i < |qs| ==> Fits(g, qs[i])
    requires HasNext(g, qs[|qs| - 1].bn) && (g.nsets >= 2 || (g.policy == LRU && g.assoc >= 2))
    ensures Hit(g, DemandRun(g, qs, draws), qs[|qs| - 1].bn) && Hit(g, DemandRun(g, qs, draws), qs[|qs| - 1].bn + 1)
  {
    hide DemandNext;
    hide Lookaside;
    var n := |qs| - 1;
    NextLineKeepsBoth(g, DemandRun(g, qs[..n], draws), qs[n], draws(2 * n), draws(2 * n + 1));
  }

  /** With one set the demanded block is lost when the prefetch misses and takes its slot. */
  lemma {:induction false} LostToPrefetch(g: Config, c: Cache, q: Request, r: nat, r': nat)
    requires CacheOk(g, c) && Fits(g, q) && HasNext(g, q.bn) && g.nsets == 1
    ensures var c1 := Lookaside(g, c, q, false, r);
            && CacheOk(g, c1) && CacheOk(g, DemandNext(g, c, q, r, r'))
            && (Hit(g, DemandNext(g, c, q, r, r'), q.bn) <==>
                Hit(g, c1, q.bn + 1) || !Holds(c1.sets[0][Victim(g, c1.sets[0], r')], q.bn))
  {
    hide Lookaside;
    hide Bring;
    hide NextBlock;
    hide Victim;
    hide Hit;
    hide SetOf;
    hide TagOf;
    hide WaysOk;
    hide IsPow2;
    hide Holds;
    var c1 := Lookaside(g, c, q, false, r);
    ResidentAfter(g, c, q, false, r);
    NextIsAdjacent(g, q.bn);
    BringKeeps(g, c1, q.bn + 1, r', q.bn);
    OnlySet(g, q.bn);
    OnlySet(g, q.bn + 1);
  }

  lemma {:induction false} OnlySet(g: Config, bn: nat)
    requires g.nsets == 1
    ensures SetOf(g, bn) == 0 && TagOf(g, bn) == bn
  {
  }

  /** A one-block cache: the read of block 1 is followed by a prefetch that throws it out again. */
  lemma {:induction false} NextLineCanEvict()
    ensures var g := Config(1, 8, 1, LRU, false, 1);
            var c := Empty(g, map[]);
            var q := Request(Read, 1, 0, 8, []);
            && Legal(g) && CacheOk(g, c) && Fits(g, q) && !Hit(g, DemandNext(g, c, q, 0, 0), 1)
  {
    var g := Config(1, 8, 1, LRU, false, 1);
    var c := Empty(g, map[]);
    var q := Request(Read, 1, 0, 8, []);
    assert IsPow2(8);
    EmptyOk(g, map[]);
    LookasideOk(g, c, q, false, 0);
    NextIsAdjacent(g, 1);
    var c1 := Lookaside(g, c, q, false, 0);
    hide IsPow2;
    assert c1.sets[0] == [Line(0, 1, true, false, [])];
    hide Lookaside;
  }

  /** The slot that an access to tag t leaves t in is the one that the next miss would replace: i is where t was
      found, |w| if it was not; r and r' are the draws of random replacement. */
  predicate IsNextVictim(g: Config, w: Ways, i: nat, r: nat, r': nat)
    requires |w| > 0 && i <= |w|
  {
    match g.policy
    case LRU => g.assoc == 1
    case FIFO => g.assoc == 1 || i == g.assoc - 1
    case Random => r' == if i < |w| then w[i].blk else r
  }

  /** Where a demanded tag ends up in its set. */
  lemma {:induction false} DemandedAt(g: Config, w: Ways, w1: Ways, t: nat, fill: seq<Byte>, q: Request, r: nat)
    returns (p: nat)
    requires WaysOk(g, w) && Fits(g, q) && g.assoc > 0 && |fill| == if g.balloc then g.bsize else 0
    requires forall j :: 0 <= j < |w| ==> (g.balloc ==> |w[j].data| == g.bsize)
    requires w1 == if Lookup(w, t) < |w| then HitWays(g, w, Lookup(w, t), q)
                   else MissWays(g, w, Victim(g, w, r), t, fill, q)
    requires g.policy == Random ==> IndexOf(w, r) < |w|
    ensures |w1| == |w| && p < |w1| && Holds(w1[p], t)
    ensures g.policy != Random ==> (p == |w| - 1 <==> IsNextVictim(g, w, Lookup(w, t), r, 0))
    ensures g.policy == Random ==> w1[p].blk == (if Lookup(w, t) < |w| then w[Lookup(w, t)].blk else r)
  {
    var i := Lookup(w, t);
    if i < |w| {
      p := if g.policy == LRU then 0 else i;
    } else {
      p := if g.policy == Random then Victim(g, w, r) else 0;
    }
  }

  /** The line a random draw names in a well-formed set. */
  lemma {:induction false} DrawnLine(g: Config, w: Ways, p: nat, r: nat)
    requires WaysOk(g, w) && p < |w| && IndexOf(w, r) < |w|
    ensures IndexOf(w, r) == p <==> w[p].blk == r
  {
    var k := IndexOf(w, r);
    if k != p { assert Apart(w[if k < p then k else p], w[if k < p then p else k]); }
  }

  /** What a request brings in is its own block only. */
  lemma {:induction false} NothingElseBrought(g: Config, c: Cache, q: Request, prefetch: bool, r: nat, bn: nat)
    requires CacheOk(g, c) && Fits(g, q) && !Hit(g, c, bn) && bn != q.bn
    ensures CacheOk(g, Lookaside(g, c, q, prefetch, r)) && !Hit(g, Lookaside(g, c, q, prefetch, r), bn)
  {
    LookasideOk(g, c, q, prefetch, r);
    var s, tag := SetOf(g, q.bn), TagOf(g, q.bn);
    var w := c.sets[s];
    var i := Lookup(w, tag);
    if SetOf(g, bn) == s {
      BlockNumberInverts(g, bn);
      BlockNumberInverts(g, q.bn);
      if i < |w| {
        FindAfterHit(g, w, i, q, TagOf(g, bn));
      } else {
        var v := Victim(g, w, r);
        var store := WrittenBack(g, c.store, w[v], s);
        StoreOk(g, c, w[v], s);
        FindAfterMiss(g, w, v, tag, Block(g, store, q.bn), q, TagOf(g, bn));
      }
    }
  }

  ghost function Blocks(w: Ways, n: nat): set<nat>
    requires n <= |w|
  {
    set i | 0 <= i < n :: w[i].blk
  }

  lemma {:induction false} BlocksDistinct(g: Config, w: Ways, n: nat)
    requires WaysOk(g, w) && n <= |w|
    ensures |Blocks(w, n)| == n
  {
    if n > 0 {
      BlocksDistinct(g, w, n - 1);
      assert Blocks(w, n) == Blocks(w, n - 1) + {w[n - 1].blk};
      forall i | 0 <= i < n - 1 ensures w[i].blk != w[n - 1].blk { assert Apart(w[i], w[n - 1]); }
    }
  }

  /** Every number below the associativity names a block of the set. */
  lemma {:induction false} DrawNamesBlock(g: Config, w: Ways, r: nat)
    requires WaysOk(g, w) && r < g.assoc
    ensures IndexOf(w, r) < |w|
  {
    BlocksDistinct(g, w, |w|);
    forall i | 0 <= i < |w| ensures w[i].blk < g.assoc { assert LineOk(g, w[i]); }
    BoundedSize(Blocks(w, |w|) + {r}, g.assoc);
    assert r in Blocks(w, |w|);
    var i :| 0 <= i < |w| && w[i].blk == r;
    assert w[i].blk == r;
  }

  /** The successor of the demanded block is there after the access, before the prefetch is considered. */
  predicate SuccessorStays(g: Config, c: Cache, bn: nat, r: nat)
    requires CacheOk(g, c) && g.nsets == 1
  {
    var w := c.sets[0];
    Hit(g, c, bn + 1) && (Hit(g, c, bn) || !Holds(w[Victim(g, w, r)], bn + 1))
  }

  lemma {:induction false} SuccessorAfter(g: Config, c: Cache, q: Request, r: nat)
    requires CacheOk(g, c) && Fits(g, q) && g.nsets == 1
    ensures CacheOk(g, Lookaside(g, c, q, false, r))
    ensures Hit(g, Lookaside(g, c, q, false, r), q.bn + 1) <==> SuccessorStays(g, c, q.bn, r)
  {
    hide Lookaside;
    hide Hit;
    hide SetOf;
    hide TagOf;
    hide IsPow2;
    hide WaysOk;
    hide Holds;
    hide Victim;
    OnlySet(g, q.bn);
    OnlySet(g, q.bn + 1);
    LookasideOk(g, c, q, false, r);
    if Hit(g, c, q.bn + 1) {
      Survives(g, c, q, false, r, q.bn + 1);
    } else {
      NothingElseBrought(g, c, q, false, r, q.bn + 1);
    }
  }

  lemma {:induction false} DemandedIsVictim(g: Config, c: Cache, q: Request, r: nat, r': nat)
    requires CacheOk(g, c) && Fits(g, q) && g.nsets == 1 && (g.policy == Random ==> r < g.assoc && r' < g.assoc)
    ensures var c1 := Lookaside(g, c, q, false, r);
            && CacheOk(g, c1)
            && (Holds(c1.sets[0][Victim(g, c1.sets[0], r')], q.bn) <==>
                IsNextVictim(g, c.sets[0], Lookup(c.sets[0], q.bn), r, r'))
  {
    var c1 := Lookaside(g, c, q, false, r);
    var w, w1 := c.sets[0], c1.sets[0];
    LookasideOk(g, c, q, false, r);
    OnlySet(g, q.bn);
    hide SetOf;
    hide TagOf;
    hide IsPow2;
    if g.policy == Random {
      DrawNamesBlock(g, w, r);
      DrawNamesBlock(g, w1, r');
    }
    var v := Victim(g, w, r);
    var fill := Block(g, WrittenBack(g, c.store, w[v], 0), q.bn);
    StoreOk(g, c, w[v], 0);
    var p := DemandedAt(g, w, w1, q.bn, fill, q, r);
    LookupUnique(g, w1, q.bn, p);
    hide Lookaside;
    hide HitWays;
    hide MissWays;
    var k := Victim(g, w1, r');
    if Holds(w1[k], q.bn) { LookupUnique(g, w1, q.bn, k); }
    if g.policy == Random { DrawnLine(g, w1, p, r'); }
  }

  /** With one set the demanded block is still resident after the prefetch exactly when its successor was resident and
      stays, so that nothing is fetched, or its own slot is not the one the prefetch replaces. */
  lemma {:induction false} NextLineOneSet(g: Config, c: Cache, q: Request, r: nat, r': nat)
    requires CacheOk(g, c) && Fits(g, q) && HasNext(g, q.bn) && g.nsets == 1
    requires g.policy == Random ==> r < g.assoc && r' < g.assoc
    ensures CacheOk(g, DemandNext(g, c, q, r, r'))
    ensures Hit(g, DemandNext(g, c, q, r, r'), q.bn) <==>
              SuccessorStays(g, c, q.bn, r) || !IsNextVictim(g, c.sets[0], Lookup(c.sets[0], q.bn), r, r')
  {
    hide CacheOk;
    hide Lookaside;
    hide Bring;
    hide DemandNext;
    hide Hit;
    hide Holds;
    hide SuccessorStays;
    hide IsNextVictim;
    hide Victim;
    hide Lookup;
    OneSetSize(g, c);
    LostToPrefetch(g, c, q, r, r');
    SuccessorAfter(g, c, q, r);
    DemandedIsVictim(g, c, q, r, r');
  }

  lemma {:induction false} OneSetSize(g: Config, c: Cache)
    requires CacheOk(g, c)
    ensures |c.sets| == g.nsets && (g.nsets == 1 ==> |c.sets[0]| == g.assoc && g.assoc > 0)
  {
    if g.nsets == 1 { assert WaysOk(g, c.sets[0]); }
  }
}
