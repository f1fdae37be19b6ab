/** cache.c: the last-block shortcut, the per-set search, replacement and flushing, over
    sets of linked blocks; every operation computes its function in CacheModel. */
module CacheMachine {
  import opened Arithmetic
  import opened CacheInvariant
  import opened CacheModel
  import opened CacheReplacement
  import opened CacheSets
  import opened CacheTransparency
  import opened FlatMemory
  import opened StridePrefetcher
  import opened StrideRuns

  lemma {:induction false} MissAtHead(g: Config, w: Ways, v: nat, tag: nat, fill: seq<Byte>, q: Request)
    requires v < |w| && Fits(g, q) && |fill| == if g.balloc then g.bsize else 0
    ensures var w1 := if g.policy == Random then w else ToHead(w, v, w[v]);
            var j := if g.policy == Random then v else 0;
            MissWays(g, w, v, tag, fill, q) == w1[j := Touched(g, Line(w[v].blk, tag, true, false, fill), q)]
  {
  }

  lemma {:induction false} TailOfInvalidated(w: Ways, i: nat)
    requires i < |w|
    ensures ToTail(w[i := Invalidated(w[i])], i, w[i := Invalidated(w[i])][i]) == ToTail(w, i, Invalidated(w[i]))
  {
  }

  /** A flush of the ways w of set s has reached line k: f, store and t are what it has made so far. */
  ghost predicate FlushedTo(g: Config, w: Ways, f: Ways, k: nat, store0: map<nat, seq<Byte>>,
                            store: map<nat, seq<Byte>>, t0: Stats, t: Stats, s: nat) {
    && |f| == |w| && k <= |w| && (forall i :: 0 <= i < |w| ==> f[i] == if i < k then Invalidated(w[i]) else w[i])
    && store == FlushStore(g, store0, w[..k], s) && t == CountFlush(g, t0, w[..k], s)
  }

  lemma {:induction false} FlushedNone(g: Config, w: Ways, store: map<nat, seq<Byte>>, t: Stats, s: nat)
    ensures FlushedTo(g, w, w, 0, store, store, t, t, s)
  {
  }

  lemma {:induction false} FlushedStep(g: Config, w: Ways, f: Ways, k: nat, store0: map<nat, seq<Byte>>,
                                       store: map<nat, seq<Byte>>, t0: Stats, t: Stats, s: nat)
    requires FlushedTo(g, w, f, k, store0, store, t0, t, s) && k < |w|
    ensures k < |f| && FlushedTo(g, w, if f[k].valid then f[k := Invalidated(f[k])] else f, k + 1, store0,
                      WrittenBack(g, store, f[k], s), t0, CountFlushed(g, t, f[k], s), s)
  {
    assert w[..k + 1][..k] == w[..k];
  }

  lemma {:induction false} FlushedAll(g: Config, w: Ways, f: Ways, store0: map<nat, seq<Byte>>,
                                      store: map<nat, seq<Byte>>, t0: Stats, t: Stats, s: nat)
    requires FlushedTo(g, w, f, |w|, store0, store, t0, t, s)
    ensures f == FlushWays(w) && store == FlushStore(g, store0, w, s) && t == CountFlush(g, t0, w, s)
  {
    assert w[..|w|] == w;
  }

  /** A hit in terms of the line it hits. */
  lemma {:induction false} HitEffect(g: Config, c: Cache, q: Request, prefetch: bool, r: nat, k: nat)
    requires CacheOk(g, c) && Fits(g, q)
    requires var w := c.sets[SetOf(g, q.bn)]; k == Lookup(w, TagOf(g, q.bn)) && k < |w|
    ensures var s := SetOf(g, q.bn);
            var w := c.sets[s];
            && Holds(w[k], TagOf(g, q.bn)) && WaysOk(g, w) && |w| == g.assoc && (g.balloc ==> |w[k].data| == g.bsize)
            && Lookaside(g, c, q, prefetch, r)
               == Cache(c.sets[s := HitWays(g, w, k, q)], c.store, CountHit(c.stats, q.cmd, prefetch))
            && Output(g, c, q) == if q.cmd == Write || !g.balloc then [] else w[k].data[q.ofs..q.ofs + q.n]
    ensures CacheOk(g, Lookaside(g, c, q, prefetch, r))
  {
    LookasideOk(g, c, q, prefetch, r);
    hide IsPow2;
  }

  /** A miss in terms of the set it fills. */
  lemma {:induction false} MissEffect(g: Config, c: Cache, q: Request, prefetch: bool, r: nat)
    requires CacheOk(g, c) && Fits(g, q) && !Hit(g, c, q.bn)
    ensures var s := SetOf(g, q.bn);
            var w := c.sets[s];
            var v := Victim(g, w, r);
            var store := WrittenBack(g, c.store, w[v], s);
            && WaysOk(g, w) && |w| == g.assoc && Lookup(w, TagOf(g, q.bn)) == |w|
            && |Block(g, store, q.bn)| == (if g.balloc then g.bsize else 0)
            && Lookaside(g, c, q, prefetch, r)
               == Cache(c.sets[s := MissWays(g, w, v, TagOf(g, q.bn), Block(g, store, q.bn), q)], store,
                        CountVictim(g, CountMiss(c.stats, q.cmd, prefetch), w[v], s))
            && Output(g, c, q)
               == (if q.cmd == Write || !g.balloc then [] else Block(g, c.store, q.bn)[q.ofs..q.ofs + q.n])
            && Block(g, store, q.bn) == Block(g, c.store, q.bn)
    ensures CacheOk(g, Lookaside(g, c, q, prefetch, r))
  {
    var s := SetOf(g, q.bn);
    var v := Victim(g, c.sets[s], r);
    LookasideOk(g, c, q, prefetch, r);
    StoreOk(g, c, c.sets[s][v], s);
    hide IsPow2;
    assert c.sets[s][v].valid ==> c.sets[s][v].tag != TagOf(g, q.bn) by { assert !Holds(c.sets[s][v], TagOf(g, q.bn)); }
    if c.sets[s][v].valid {
      BlockNumberParts(g, c.sets[s][v].tag, s);
    }
  }

  /** A flush of one block in terms of its set. */
  lemma {:induction false} FlushEffect(g: Config, c: Cache, bn: nat)
    requires CacheOk(g, c)
    ensures CacheOk(g, FlushBlock(g, c, bn))
    ensures var s := SetOf(g, bn);
            var w := c.sets[s];
            var i := Lookup(w, TagOf(g, bn));
            && WaysOk(g, w) && i <= |w| && (Hit(g, c, bn) <==> i < |w|)
            && (i == |w| ==> FlushBlock(g, c, bn) == c)
            && (i < |w| ==>
                  && w[i].valid
                  && FlushBlock(g, c, bn) == Cache(c.sets[s := ToTail(w, i, Invalidated(w[i]))],
                                                   WrittenBack(g, c.store, w[i], s), CountFlushed(g, c.stats, w[i], s)))
  {
    hide IsPow2;
    FlushBlockOk(g, c, bn);
  }

  /** The sets of an empty cache. */
  method BuildSets(g: Config) returns (cs: seq<CacheSet>, ghost repr: set<object>)
    requires g.assoc > 0
    ensures |cs| == g.nsets && fresh(repr)
    ensures forall s :: 0 <= s < |cs| ==> cs[s] in repr && cs[s].Repr <= repr && cs[s].g == g
    ensures forall s, s' :: 0 <= s < s' < |cs| ==> cs[s].Repr !! cs[s'].Repr
    ensures forall s :: 0 <= s < |cs| ==> cs[s].Valid() && cs[s].Model() == EmptyWays(g)
  {
    hide EmptyWays;
    hide Linked;
    hide Chained;
    hide LinesOf;
    hide Hash;
    hide CacheSet.Hashed;
    hide HashChains.Valid;
    hide WayList.Valid;
    cs, repr := [], {};
    while |cs| < g.nsets
      invariant |cs| <= g.nsets && fresh(repr)
      invariant forall s :: 0 <= s < |cs| ==> cs[s] in repr && cs[s].Repr <= repr && cs[s].g == g
      invariant forall s, s' :: 0 <= s < s' < |cs| ==> cs[s].Repr !! cs[s'].Repr
      invariant forall s :: 0 <= s < |cs| ==> cs[s].Valid() && cs[s].Model() == EmptyWays(g)
    {
      var one := new CacheSet(g);
      repr := repr + one.Repr;
      cs := cs + [one];
    }
  }

  /** Whether there is a last block after an operation, given whether there was one before. */
  function LastAfter(g: Config, c: Cache, op: Op, last: bool): bool
    requires CacheOk(g, c)
  {
    match op
    case Access(q, _, _) => Hit(g, c, q.bn)
    case FlushAll => false
    case FlushAddr(bn) => last && !Hit(g, c, bn)
  }

  /** No access to block 0 comes while there is no last block. */
  predicate Safe(g: Config, c: Cache, ops: seq<Op>, last: bool)
    requires CacheOk(g, c) && forall i :: 0 <= i < |ops| ==> OpFits(g, ops[i])
    decreases |ops|
  {
    ops == [] ||
    (ApplyOk(g, c, ops[0]);
     (ops[0].Access? ==> ops[0].q.bn != 0 || last)
     && Safe(g, Apply(g, c, ops[0]), ops[1..], LastAfter(g, c, ops[0], last)))
  }

  class CacheUnit {
    const g: Config
    const sets: seq<CacheSet>
    var lastTagset: nat  // block number of the block that hit last, 0 when lastBlk is NULL
    var lastBlk: int
    var stats: Stats
    var store: map<nat, seq<Byte>>
    ghost var ways: seq<Ways>
    ghost const Repr: set<object>

    ghost predicate Separate() {
      && Legal(g) && |sets| == g.nsets && this !in Repr
      && (forall s :: 0 <= s < |sets| ==> sets[s] in Repr && sets[s].Repr <= Repr && sets[s].g == g)
      && (forall s, s' :: 0 <= s < s' < |sets| ==> sets[s].Repr !! sets[s'].Repr)
    }

    ghost predicate SetsValid()
      reads this`ways, Repr
    {
      && Separate() && |ways| == g.nsets
      && forall s :: 0 <= s < |sets| ==> sets[s].Valid() && sets[s].Model() == ways[s]
    }

    ghost function Model(): Cache
      reads this
    {
      Cache(ways, store, stats)
    }

    /** The last block is a valid block that holds lastTagset, and under LRU the head of its set. */
    ghost predicate LastOk()
      requires SetsValid()
      reads this, Repr
    {
      if lastBlk == NULL then lastTagset == 0
      else
        var cs := sets[SetOf(g, lastTagset)];
        && 0 <= lastBlk < g.assoc
        && cs.blks[lastBlk].valid && cs.blks[lastBlk].tag == TagOf(g, lastTagset)
        && (g.policy == LRU ==> cs.ways.head == lastBlk)
    }

    ghost predicate Valid()
      reads this, Repr
    {
      SetsValid() && CacheOk(g, Model()) && LastOk()
    }

    /** cache_create */
    constructor (g: Config)
      requires Legal(g)
      ensures Valid() && fresh(Repr) && this.g == g && Model() == Empty(g, map[]) && lastBlk == NULL
    {
      hide CacheOk;
      hide IsPow2;
      hide EmptyWays;
      hide Linked;
      hide Chained;
      hide LinesOf;
      hide Hash;
      var cs, repr := BuildSets(g);
      this.g := g;
      sets, Repr := cs, repr;
      lastTagset, lastBlk, stats, store := 0, NULL, NO_STATS, map[];
      ways := seq(g.nsets, _ => EmptyWays(g));
      new;
      EmptyOk(g, map[]);
    }

    /** After a change inside set s the other sets are as they were. */
    twostate lemma Recorded(s: nat)
      requires old(SetsValid()) && s < |sets| && sets[s].Valid()
      requires ways == old(ways)[s := sets[s].Model()]
      requires forall o :: o in Repr && o !in sets[s].Repr ==> unchanged(o)
      ensures SetsValid()
    {
      forall s' | 0 <= s' < |sets| ensures sets[s'].Valid() && sets[s'].Model() == ways[s'] {
        if s' != s {
          assert sets[s'].Repr !! sets[s].Repr;
          assert old(sets[s'].Valid());
        }
      }
    }

    /** The block that holds lastTagset is where a search would find it. */
    lemma {:induction false} LastFound() returns (k: nat)
      requires Valid() && lastBlk != NULL
      ensures var cs := sets[SetOf(g, lastTagset)];
              && k == Lookup(ways[SetOf(g, lastTagset)], TagOf(g, lastTagset)) && k < g.assoc
              && cs.ways.order[k] == lastBlk && ways[SetOf(g, lastTagset)][k] == LineOf(lastBlk, cs.blks[lastBlk])
    {
      var s := SetOf(g, lastTagset);
      k := sets[s].PositionOf(lastBlk);
      LookupUnique(g, ways[s], TagOf(g, lastTagset), k);
    }

    /** CACHE_BCOPY for a read. */
    method CopyOut(s: nat, blk: nat, q: Request, ghost k: nat) returns (out: seq<Byte>)
      requires SetsValid() && Fits(g, q) && s < g.nsets && k < |ways[s]| && blk < g.assoc
      requires g.balloc ==> |ways[s][k].data| == g.bsize
      requires ways[s][k] == LineOf(blk, sets[s].blks[blk])
      ensures out == if q.cmd == Write || !g.balloc then [] else ways[s][k].data[q.ofs..q.ofs + q.n]
    {
      var cs := sets[s];
      if q.cmd == Read && g.balloc {
        out := cs.blks[blk].data[q.ofs..q.ofs + q.n];
      } else {
        out := [];
      }
    }

    /** The part of a hit that works inside the set. */
    method HitOn(cs: CacheSet, blk: nat, q: Request, fast: bool, ghost k: nat)
      requires cs.Valid() && Fits(cs.g, q) && WaysOk(cs.g, cs.Model()) && k < cs.g.assoc && blk < cs.g.assoc
      requires cs.ways.order[k] == blk && (cs.g.balloc ==> |cs.Model()[k].data| == cs.g.bsize)
      requires fast && cs.g.policy == LRU ==> cs.ways.head == blk
      modifies cs.Repr
      ensures cs.Valid() && cs.Model() == HitWays(cs.g, old(cs.Model()), k, q)
      ensures cs.g.policy == LRU ==> cs.ways.head == blk
      ensures cs.blks[blk].tag == old(cs.blks[blk].tag) && cs.blks[blk].valid == old(cs.blks[blk].valid)
    {
      hide WaysOk;
      hide HitWays;
      if fast {
        cs.FastHit(blk, q, k);
      } else {
        cs.SlowHit(blk, q, k);
      }
    }

    method HitInSet(s: nat, blk: nat, q: Request, fast: bool, ghost k: nat)
      requires SetsValid() && Fits(g, q) && s < g.nsets && WaysOk(g, ways[s]) && k < g.assoc && blk < g.assoc
      requires sets[s].ways.order[k] == blk
      requires g.balloc ==> |ways[s][k].data| == g.bsize
      requires fast && g.policy == LRU ==> sets[s].ways.head == blk
      modifies this`ways, Repr
      ensures SetsValid() && ways == old(ways)[s := HitWays(g, old(ways)[s], k, q)]
      ensures g.policy == LRU ==> sets[s].ways.head == blk
      ensures sets[s].blks[blk].tag == old(sets[s].blks[blk].tag)
              && sets[s].blks[blk].valid == old(sets[s].blks[blk].valid)
    {
      hide WaysOk;
      hide HitWays;
      hide Legal;
      hide Linked;
      hide Chained;
      HitOn(sets[s], blk, q, fast, k);
      ways := ways[s := sets[s].Model()];
      Recorded(s);
    }

    /** Records the last block to hit, or NULL, and the counters. */
    method Remember(bn: nat, blk: int, t: Stats)
      requires SetsValid()
      requires if blk == NULL then bn == 0
               else
                 var cs := sets[SetOf(g, bn)];
                 && 0 <= blk < g.assoc && cs.blks[blk].valid && cs.blks[blk].tag == TagOf(g, bn)
                 && (g.policy == LRU ==> cs.ways.head == blk)
      modifies this`lastTagset, this`lastBlk, this`stats
      ensures SetsValid() && LastOk() && lastTagset == bn && lastBlk == blk && stats == t
    {
      assert this !in Repr;
      hide Legal;
      stats := t;
      lastTagset, lastBlk := bn, blk;
    }

    /** What a hit does to its set, and the bytes it answers with. */
    method ServeHit(s: nat, blk: nat, q: Request, fast: bool, ghost k: nat) returns (out: seq<Byte>)
      requires SetsValid() && Fits(g, q) && s < g.nsets && WaysOk(g, ways[s]) && k < g.assoc == |ways[s]|
               && blk < g.assoc
      requires sets[s].ways.order[k] == blk
      requires g.balloc ==> |ways[s][k].data| == g.bsize
      requires fast && g.policy == LRU ==> sets[s].ways.head == blk
      modifies this`ways, Repr
      ensures SetsValid() && ways == old(ways)[s := HitWays(g, old(ways)[s], k, q)]
      ensures out == if q.cmd == Write || !g.balloc then [] else old(ways)[s][k].data[q.ofs..q.ofs + q.n]
      ensures g.policy == LRU ==> sets[s].ways.head == blk
      ensures sets[s].blks[blk].tag == old(ways)[s][k].tag && sets[s].blks[blk].valid == old(ways)[s][k].valid
    {
      hide WaysOk;
      hide HitWays;
      hide Legal;
      hide Linked;
      hide Chained;
      sets[s].ModelAt(k);
      out := CopyOut(s, blk, q, k);
      HitInSet(s, blk, q, fast, k);
    }

    /** cache_hit, and cache_fast_hit for the block that hit last. */
    method HitAccess(blk: nat, q: Request, prefetch: bool, fast: bool, ghost r: nat, ghost k: nat)
      returns (out: seq<Byte>)
      requires Valid() && Fits(g, q) && blk < g.assoc
      requires k == Lookup(ways[SetOf(g, q.bn)], TagOf(g, q.bn)) && k < |ways[SetOf(g, q.bn)]|
      requires sets[SetOf(g, q.bn)].ways.order[k] == blk
      requires fast && g.policy == LRU ==> sets[SetOf(g, q.bn)].ways.head == blk
      modifies this, Repr
      ensures Valid() && Model() == Lookaside(g, old(Model()), q, prefetch, r) && out == Output(g, old(Model()), q)
      ensures lastTagset == q.bn && lastBlk == blk
    {
      hide CacheOk;
      hide Lookaside;
      hide Lookup;
      hide HitWays;
      hide WaysOk;
      hide Output;
      hide Legal;
      hide Linked;
      hide Chained;
      hide CountHit;
      var s := SetOf(g, q.bn);
      ghost var c := Model();
      HitEffect(g, c, q, prefetch, r, k);
      out := ServeHit(s, blk, q, fast, k);
      hide SetsValid;
      hide LastOk;
      Remember(q.bn, blk, CountHit(stats, q.cmd, prefetch));
      assert Model() == Cache(ways, store, stats);
    }

    /** The replaced block leaves: counted if it was valid, written back if it was also dirty. */
    method Replace(b: Slot, s: nat, ghost l: Line)
      requires l == LineOf(l.blk, b)
      modifies this`store, this`stats
      ensures store == WrittenBack(g, old(store), l, s) && stats == CountVictim(g, old(stats), l, s)
    {
      if b.valid {
        stats := stats.(replacements := stats.replacements + 1);
        if b.dirty {
          stats := stats.(writebacks := stats.writebacks + 1, written := stats.written + [BlockNumber(g, b.tag, s)]);
          store := store[BlockNumber(g, b.tag, s) := b.data];
        }
      }
    }

    /** A miss: the victim of set s goes and the block comes in. */
    method Refill(cs: CacheSet, s: nat, q: Request, r: nat) returns (fill: seq<Byte>)
      requires this !in cs.Repr && cs.g == g && cs.Valid() && Fits(g, q) && WaysOk(g, cs.Model())
      requires g.nsets > 0 && |cs.Model()| > 0 && (g.policy == Random ==> r < g.assoc)
      requires var w := cs.Model();
               |Block(g, WrittenBack(g, store, w[Victim(g, w, r)], s), q.bn)| == if g.balloc then g.bsize else 0
      modifies this`store, this`stats, cs.Repr
      ensures cs.Valid()
      ensures var w := old(cs.Model());
              var v := Victim(g, w, r);
              && store == WrittenBack(g, old(store), w[v], s) && stats == CountVictim(g, old(stats), w[v], s)
              && fill == Block(g, store, q.bn)
              && cs.Model() == MissWays(g, w, v, TagOf(g, q.bn), fill, q)
    {
      hide WaysOk;
      hide Victim;
      hide MissWays;
      hide WrittenBack;
      hide CountVictim;
      hide Block;
      hide ToHead;
      ghost var w := cs.Model();
      var blk, k := cs.Evict(r);
      Replace(cs.blks[blk], s, w[k]);
      fill := Block(g, store, q.bn);
      MissAtHead(g, w, k, TagOf(g, q.bn), fill, q);
      cs.Install(blk, TagOf(g, q.bn), fill, q, if g.policy == Random then k else 0);
    }

    method RefillSet(s: nat, q: Request, r: nat) returns (fill: seq<Byte>)
      requires SetsValid() && Fits(g, q) && s < g.nsets && WaysOk(g, ways[s]) && (g.policy == Random ==> r < g.assoc)
      requires var w := ways[s];
               && |w| > 0
               && |Block(g, WrittenBack(g, store, w[Victim(g, w, r)], s), q.bn)| == if g.balloc then g.bsize else 0
      modifies this`ways, this`store, this`stats, Repr
      ensures SetsValid()
      ensures var w := old(ways)[s];
              var v := Victim(g, w, r);
              && store == WrittenBack(g, old(store), w[v], s) && stats == CountVictim(g, old(stats), w[v], s)
              && fill == Block(g, store, q.bn)
              && ways == old(ways)[s := MissWays(g, w, v, TagOf(g, q.bn), fill, q)]
    {
      hide WaysOk;
      hide MissWays;
      hide Legal;
      hide Victim;
      hide WrittenBack;
      hide CountVictim;
      hide Block;
      fill := Refill(sets[s], s, q, r);
      ways := ways[s := sets[s].Model()];
      Recorded(s);
    }

    /** cache_access on a miss, up to the prefetch. */
    method MissAccess(q: Request, prefetch: bool, r: nat) returns (out: seq<Byte>)
      requires Valid() && Fits(g, q) && !Hit(g, Model(), q.bn) && (g.policy == Random ==> r < g.assoc)
      modifies this, Repr
      ensures Valid() && Model() == Lookaside(g, old(Model()), q, prefetch, r) && out == Output(g, old(Model()), q)
      ensures lastBlk == NULL
    {
      hide CacheOk;
      hide Lookaside;
      hide Lookup;
      hide MissWays;
      hide WaysOk;
      hide Output;
      hide IsPow2;
      hide Victim;
      hide WrittenBack;
      hide CountVictim;
      hide CountMiss;
      hide Linked;
      hide Chained;
      hide Block;
      hide Hit;
      var s := SetOf(g, q.bn);
      ghost var c := Model();
      MissEffect(g, c, q, prefetch, r);
      hide LastOk;
      Remember(0, NULL, CountMiss(stats, q.cmd, prefetch));
      hide Legal;
      var fill := RefillSet(s, q, r);
      out := if q.cmd == Write || !g.balloc then [] else fill[q.ofs..q.ofs + q.n];
      assert Model() == Cache(ways, store, stats);
    }

    /** The per-set search, by hash chain or way list. */
    method FindBlock(s: nat, t: nat) returns (blk: int, ghost k: nat)
      requires SetsValid() && s < g.nsets && WaysOk(g, ways[s])
      ensures k == Lookup(ways[s], t) && (blk == NULL <==> k == |ways[s]|)
      ensures blk != NULL ==> 0 <= blk < g.assoc && k < g.assoc && sets[s].ways.order[k] == blk
    {
      assert |ways[s]| == g.assoc;
      k := Lookup(ways[s], t);
      hide WaysOk;
      hide Legal;
      hide Lookup;
      blk := sets[s].Search(t);
      if blk != NULL {
        ghost var j := sets[s].PositionOf(blk);
      }
    }

    lemma {:induction false} SetOk(bn: nat)
      requires Valid()
      ensures WaysOk(g, ways[SetOf(g, bn)])
    {
    }

    /** cache_probe: whether the next access to the block counts a hit. */
    method Probe(bn: nat) returns (present: bool)
      requires Valid()
      ensures present <==> Hit(g, Model(), bn)
    {
      hide CacheOk;
      hide WaysOk;
      hide Lookup;
      hide IsPow2;
      SetOk(bn);
      var blk, k := FindBlock(SetOf(g, bn), TagOf(g, bn));
      present := blk != NULL;
    }

    /** cache_access up to the prefetch. The last-block test would take the shortcut to NULL for block 0. */
    method Access(q: Request, prefetch: bool, r: nat) returns (out: seq<Byte>)
      requires Valid() && Fits(g, q) && (g.policy == Random ==> r < g.assoc)
      requires lastBlk == NULL ==> q.bn != 0
      modifies this, Repr
      ensures Valid() && Model() == Lookaside(g, old(Model()), q, prefetch, r) && out == Output(g, old(Model()), q)
      ensures lastBlk != NULL <==> Hit(g, old(Model()), q.bn)
    {
      hide CacheOk;
      hide WaysOk;
      hide IsPow2;
      hide Lookup;
      hide Lookaside;
      hide Output;
      hide Linked;
      hide Chained;
      SetOk(q.bn);
      if q.bn == lastTagset {
        ghost var k := LastFound();
        out := HitAccess(lastBlk, q, prefetch, true, r, k);
      } else {
        var blk, k := FindBlock(SetOf(g, q.bn), TagOf(g, q.bn));
        if blk != NULL {
          out := HitAccess(blk, q, prefetch, false, r, k);
        } else {
          out := MissAccess(q, prefetch, r);
        }
      }
    }

    /** A block that was invalidated is counted, and written back if it was dirty. */
    method Depart(b: Slot, s: nat, ghost l: Line)
      requires l == LineOf(l.blk, b) && l.valid
      modifies this`store, this`stats
      ensures store == WrittenBack(g, old(store), l, s)
      ensures stats == CountFlushed(g, old(stats), l, s)
    {
      stats := stats.(invalidations := stats.invalidations + 1);
      if b.dirty {
        stats := stats.(writebacks := stats.writebacks + 1, written := stats.written + [BlockNumber(g, b.tag, s)]);
        store := store[BlockNumber(g, b.tag, s) := b.data];
      }
    }

    method FlushSlot(cs: CacheSet, s: nat, blk: nat, ghost k: nat)
      requires this !in cs.Repr && cs.Valid() && blk < cs.g.assoc && k < cs.g.assoc && cs.ways.order[k] == blk
      modifies this`store, this`stats, cs.blks
      ensures cs.Valid()
      ensures var l := old(cs.Model())[k];
              && cs.Model() == (if l.valid then old(cs.Model())[k := Invalidated(l)] else old(cs.Model()))
              && store == WrittenBack(g, old(store), l, s)
              && stats == CountFlushed(g, old(stats), l, s)
    {
      hide Linked;
      hide Chained;
      hide LinesOf;
      cs.Sizes(NULL);
      cs.ModelAt(k);
      ghost var l := cs.Model()[k];
      var b := cs.blks[blk];
      if b.valid {
        cs.Invalidate(blk, k);
        Depart(b, s, l);
      }
    }

    /** One step of the walk along the way list. */
    method FlushOne(cs: CacheSet, s: nat, blk: nat, ghost w: Ways, ghost k: nat, ghost store0: map<nat, seq<Byte>>,
                    ghost t0: Stats)
      returns (next: int)
      requires this !in cs.Repr && cs.Valid() && blk < cs.g.assoc && k < |w| == cs.g.assoc && cs.ways.order[k] == blk
      requires FlushedTo(g, w, cs.Model(), k, store0, store, t0, stats, s)
      modifies this`store, this`stats, cs.blks
      ensures cs.Valid() && FlushedTo(g, w, cs.Model(), k + 1, store0, store, t0, stats, s)
      ensures next < cs.g.assoc == |cs.ways.order| && next == Succ(cs.ways.order, k)
    {
      hide FlushedTo;
      hide WrittenBack;
      hide CountFlushed;
      FlushedStep(g, w, cs.Model(), k, store0, store, t0, stats, s);
      FlushSlot(cs, s, blk, k);
      next := cs.NextBlock(k, blk);
    }

    /** The flush of one set, along its way list. */
    method FlushSet(cs: CacheSet, s: nat)
      requires this !in cs.Repr && cs.Valid()
      modifies this`store, this`stats, cs.Repr
      ensures cs.Valid() && cs.Model() == FlushWays(old(cs.Model()))
      ensures store == FlushStore(g, old(store), old(cs.Model()), s)
              && stats == CountFlush(g, old(stats), old(cs.Model()), s)
    {
      hide FlushedTo;
      hide FlushWays;
      hide FlushStore;
      hide CountFlush;
      hide Linked;
      hide Chained;
      ghost var w, order, k := cs.Model(), cs.ways.order, 0;
      var blk := cs.FirstBlock();
      FlushedNone(g, w, store, stats, s);
      while blk != NULL
        invariant cs.Valid() && cs.ways.order == order && |order| == |w| == cs.g.assoc
        invariant k <= |w| && blk < cs.g.assoc && blk == if k < |w| then order[k] else NULL
        invariant FlushedTo(g, w, cs.Model(), k, old(store), store, old(stats), stats, s)
        decreases |w| - k
        modifies this`store, this`stats, cs.blks
      {
        blk := FlushOne(cs, s, blk, w, k, old(store), old(stats));
        k := k + 1;
      }
      FlushedAll(g, w, cs.Model(), old(store), store, old(stats), stats, s);
    }

    method FlushNext(s: nat)
      requires SetsValid() && s < g.nsets
      modifies this`ways, this`store, this`stats, Repr
      ensures SetsValid() && ways == old(ways)[s := FlushWays(old(ways)[s])]
      ensures store == FlushStore(g, old(store), old(ways)[s], s) && stats == CountFlush(g, old(stats), old(ways)[s], s)
    {
      hide FlushStore;
      hide CountFlush;
      hide FlushWays;
      hide Legal;
      FlushSet(sets[s], s);
      ways := ways[s := sets[s].Model()];
      Recorded(s);
    }

    /** The sets before s have been flushed, starting from c. */
    ghost predicate FlushedBefore(c: Cache, s: nat)
      reads this
    {
      s <= |c.sets| && var f := FlushSets(g, c, s); ways == f.sets && store == f.store && stats == f.stats
    }

    lemma {:induction false} NothingFlushed()
      ensures FlushedBefore(Model(), 0)
    {
    }

    method FlushStepFrom(ghost c: Cache, s: nat)
      requires SetsValid() && s < g.nsets == |c.sets| && FlushedBefore(c, s)
      modifies this`ways, this`store, this`stats, Repr
      ensures SetsValid() && FlushedBefore(c, s + 1)
    {
      FlushSetsStep(g, c, s);
      hide SetsValid;
      FlushNext(s);
    }

    method FlushEach()
      requires SetsValid()
      modifies this`ways, this`store, this`stats, Repr
      ensures SetsValid() && FlushedBefore(old(Model()), g.nsets)
    {
      hide FlushedBefore;
      hide Legal;
      ghost var c := Model();
      var s := 0;
      NothingFlushed();
      while s < |sets|
        invariant SetsValid() && s <= |sets| == g.nsets && FlushedBefore(c, s)
      {
        FlushStepFrom(c, s);
        s := s + 1;
      }
    }

    /** cache_flush: writes back and invalidates every block; the way lists stay as they are. */
    method Flush()
      requires Valid()
      modifies this, Repr
      ensures Valid() && Model() == CacheModel.Flush(g, old(Model())) && lastBlk == NULL
    {
      hide CacheOk;
      hide FlushSets;
      hide Legal;
      FlushSetsOk(g, Model(), |ways|);
      Remember(0, NULL, stats);
      FlushEach();
    }

    /** The block was found: no last block is left, and it leaves the cache. */
    method FlushFound(bn: nat, blk: nat, ghost k: nat)
      requires Valid() && blk < g.assoc && k < g.assoc && k < |ways[SetOf(g, bn)]|
      requires k == Lookup(ways[SetOf(g, bn)], TagOf(g, bn)) && sets[SetOf(g, bn)].ways.order[k] == blk
      modifies this, Repr
      ensures Valid() && Model() == FlushBlock(g, old(Model()), bn) && lastBlk == NULL
    {
      hide CacheOk;
      hide WaysOk;
      hide IsPow2;
      hide Hit;
      hide Lookup;
      hide FlushBlock;
      hide ToTail;
      hide WrittenBack;
      hide CountFlushed;
      hide Linked;
      hide Chained;
      hide LinesOf;
      ghost var c := Model();
      FlushEffect(g, c, bn);
      hide LastOk;
      Remember(0, NULL, stats);
      FlushOut(SetOf(g, bn), blk, k);
      assert Model() == Cache(ways, store, stats);
    }

    /** cache_flush_addr: a block that is present is written back if dirty and goes to the tail. */
    method FlushAddr(bn: nat)
      requires Valid()
      modifies this, Repr
      ensures Valid() && Model() == FlushBlock(g, old(Model()), bn)
      ensures lastBlk != NULL <==> old(lastBlk) != NULL && !Hit(g, old(Model()), bn)
    {
      hide CacheOk;
      hide WaysOk;
      hide IsPow2;
      hide Hit;
      hide Lookup;
      hide FlushBlock;
      FlushEffect(g, Model(), bn);
      var blk, k := FindBlock(SetOf(g, bn), TagOf(g, bn));
      if blk != NULL {
        FlushFound(bn, blk, k);
      }
    }

    method FlushOut(s: nat, blk: nat, ghost k: nat)
      requires SetsValid() && s < g.nsets && blk < g.assoc && k < g.assoc && sets[s].ways.order[k] == blk
               && ways[s][k].valid
      modifies this`ways, this`store, this`stats, Repr
      ensures SetsValid() && ways == old(ways)[s := ToTail(old(ways)[s], k, Invalidated(old(ways)[s][k]))]
      ensures store == WrittenBack(g, old(store), old(ways)[s][k], s)
              && stats == CountFlushed(g, old(stats), old(ways)[s][k], s)
    {
      hide ToTail;
      hide WrittenBack;
      hide CountFlushed;
      hide Legal;
      hide Linked;
      hide Chained;
      hide LinesOf;
      ghost var w := ways[s];
      sets[s].Sizes(NULL);
      TailOfInvalidated(w, k);
      FlushSlot(sets[s], s, blk, k);
      sets[s].Demote(blk, k);
      ways := ways[s := sets[s].Model()];
      Recorded(s);
    }

    /** A prefetcher's probe, and the prefetch when it fails. */
    method Prefetch(bn: nat, r: nat)
      requires Valid() && (g.policy == Random ==> r < g.assoc)
      requires lastBlk == NULL ==> bn != 0 || Hit(g, Model(), bn)
      modifies this, Repr
      ensures Valid() && Model() == Bring(g, old(Model()), bn, r)
    {
      hide CacheOk;
      hide Lookaside;
      hide Hit;
      hide SetsValid;
      hide LastOk;
      var present := Probe(bn);
      if !present {
        var out := Access(Request(Read, bn, 0, g.bsize, []), true, r);
      }
    }

    /** cache_access by a program, with prefetching off or with the next-line prefetcher. */
    method Demand(q: Request, r: nat, r': nat) returns (out: seq<Byte>)
      requires Valid() && Fits(g, q) && g.prefetch <= 1
      requires g.policy == Random ==> r < g.assoc && r' < g.assoc
      requires lastBlk == NULL ==> q.bn != 0
      requires g.prefetch == 1 && NextBlock(g, q.bn) == 0 ==>
                 Hit(g, Model(), q.bn)
                     || (CacheOk(g, Lookaside(g, Model(), q, false, r))
                         && Hit(g, Lookaside(g, Model(), q, false, r), 0))
      modifies this, Repr
      ensures Valid() && out == Output(g, old(Model()), q)
      ensures g.prefetch == 0 ==> Model() == Lookaside(g, old(Model()), q, false, r)
      ensures g.prefetch == 1 ==> Model() == DemandNext(g, old(Model()), q, r, r')
    {
      out := Access(q, false, r);
      if g.prefetch == 1 {
        Prefetch(NextBlock(g, q.bn), r');
      }
    }

    /** What the stride prefetcher does with the address its entry asks for. */
    method PrefetchWanted(wanted: Wanted, r: nat)
      requires Valid() && (g.policy == Random ==> r < g.assoc)
      requires wanted.Address? && lastBlk == NULL ==> wanted.a / g.bsize != 0 || Hit(g, Model(), 0)
      modifies this, Repr
      ensures Valid() && Model() == BringWanted(g, old(Model()), wanted, r)
    {
      hide CacheOk;
      hide Bring;
      hide Hit;
      hide LastOk;
      hide IsPow2;
      match wanted {
        case Nothing =>
        case Address(a) =>
          Prefetch(a / g.bsize, r);
      }
    }

    /** The table is not part of the cache. */
    method Consult(addr: nat, rpt: Table, pc: nat, ghost h: seq<Seen>) returns (wanted: Wanted)
      requires Valid() && rpt.rpt !in Repr && rpt.rpt.Length > 0 && rpt.rpt[..] == After(rpt.rpt.Length, h)
      modifies rpt.rpt
      ensures Valid() && rpt.rpt[..] == After(rpt.rpt.Length, h + [Seen(pc, addr)])
      ensures wanted == WantedBy(rpt.rpt[RowOf(pc, rpt.rpt.Length)], addr)
    {
      hide After;
      hide RowOf;
      hide WantedBy;
      wanted := rpt.Observe(addr, pc, h);
    }

    /** cache_access by a program with the stride prefetcher: the table entry of pc decides what to fetch. */
    method DemandStride(q: Request, addr: nat, r: nat, r': nat, rpt: Table, pc: nat, ghost h: seq<Seen>)
      returns (out: seq<Byte>, wanted: Wanted)
      requires Valid() && Fits(g, q) && g.prefetch > 2 && addr / g.bsize == q.bn
      requires g.policy == Random ==> r < g.assoc && r' < g.assoc
      requires lastBlk == NULL ==> q.bn != 0
      requires rpt.rpt !in Repr && rpt.rpt.Length == g.prefetch && rpt.rpt[..] == After(g.prefetch, h)
      requires var w := WantedBy(After(g.prefetch, h + [Seen(pc, addr)])[RowOf(pc, g.prefetch)], addr);
               w.Address? && w.a / g.bsize == 0 ==>
                 Hit(g, Model(), q.bn)
                     || (CacheOk(g, Lookaside(g, Model(), q, false, r))
                         && Hit(g, Lookaside(g, Model(), q, false, r), 0))
      modifies this, Repr, rpt.rpt
      ensures Valid() && out == Output(g, old(Model()), q)
      ensures rpt.rpt[..] == After(g.prefetch, h + [Seen(pc, addr)])
      ensures wanted == WantedBy(rpt.rpt[RowOf(pc, g.prefetch)], addr)
      ensures var c1 := Lookaside(g, old(Model()), q, false, r);
              CacheOk(g, c1) && Model() == BringWanted(g, c1, wanted, r')
    {
      hide CacheOk;
      hide Lookaside;
      hide Output;
      hide BringWanted;
      hide RowOf;
      hide WantedBy;
      hide After;
      hide Legal;
      out := Access(q, false, r);
      wanted := Consult(addr, rpt, pc, h);
      PrefetchWanted(wanted, r');
    }

    /** One operation of a program; a flush answers nothing. */
    method Perform(op: Op) returns (out: seq<Byte>)
      requires Valid() && OpFits(g, op) && (g.policy == Random && op.Access? ==> op.r < g.assoc)
      requires op.Access? ==> op.q.bn != 0 || lastBlk != NULL
      modifies this, Repr
      ensures Valid() && Model() == Apply(g, old(Model()), op) && out == Answer(g, old(Model()), op)
      ensures lastBlk != NULL <==> LastAfter(g, old(Model()), op, old(lastBlk) != NULL)
    {
      hide CacheOk;
      hide Hit;
      hide Lookaside;
      hide Output;
      hide FlushSets;
      hide FlushBlock;
      hide LastOk;
      out := [];
      match op {
        case Access(q, prefetch, r) => out := Access(q, prefetch, r);
        case FlushAll => Flush();
        case FlushAddr(bn) => FlushAddr(bn);
      }
    }

    /** A whole program: the machine gives the answers of the model, operation by operation. */
    method Serve(ops: seq<Op>) returns (outs: seq<seq<Byte>>)
      requires Valid() && forall i :: 0 <= i < |ops| ==> OpFits(g, ops[i])
      requires forall i :: 0 <= i < |ops| && ops[i].Access? ==> g.policy == Random ==> ops[i].r < g.assoc
      requires Safe(g, Model(), ops, lastBlk != NULL)
      modifies this, Repr
      ensures Valid() && Model() == Run(g, old(Model()), ops) && outs == Answers(g, old(Model()), ops)
    {
      hide CacheOk;
      hide Apply;
      hide Answer;
      hide LastAfter;
      hide SetsValid;
      hide LastOk;
      ghost var c := Model();
      outs := [];
      var i := 0;
      assert ops[0..] == ops;
      while i < |ops|
        invariant i <= |ops| && Valid() && CacheOk(g, c)
        invariant Safe(g, Model(), ops[i..], lastBlk != NULL)
        invariant Run(g, c, ops) == Run(g, Model(), ops[i..])
                  && Answers(g, c, ops) == outs + Answers(g, Model(), ops[i..])
      {
        assert ops[i..][0] == ops[i] && ops[i..][1..] == ops[i + 1..];
        var out := Perform(ops[i]);
        outs := outs + [out];
        i := i + 1;
      }
      assert ops[i..] == [];
    }
  }

  /** A new data cache serves a program and is flushed: the answers, and the bytes left in the next level,
      are those of a flat zero-initialised memory. */
  method ServeAndFlush(g: Config, ops: seq<Op>) returns (outs: seq<seq<Byte>>, store: map<nat, seq<Byte>>)
    requires Legal(g) && g.balloc && forall i :: 0 <= i < |ops| ==> OpFits(g, ops[i])
    requires forall i :: 0 <= i < |ops| && ops[i].Access? ==> g.policy == Random ==> ops[i].r < g.assoc
    requires CacheOk(g, Empty(g, map[])) && Safe(g, Empty(g, map[]), ops, false)
    ensures outs == FlatAnswers(g, map[], ops)
    ensures forall bn: nat :: |Block(g, store, bn)| == g.bsize
    ensures forall bn: nat, k: nat :: k < g.bsize ==>
              Block(g, store, bn)[k] == Fetch(FlatRun(g, map[], ops), ByteAddress(g, bn, k))
  {
    hide CacheOk;
    hide Run;
    hide Answers;
    hide FlatRun;
    hide FlatAnswers;
    hide FlushSets;
    hide Block;
    hide ByteAddress;
    hide Empty;
    var cp := new CacheUnit(g);
    outs := cp.Serve(ops);
    cp.Flush();
    store := cp.store;
    ghost var c := cp.Model();
    forall bn: nat ensures |Block(g, store, bn)| == g.bsize {
      BlockSize(g, c, bn);
    }
    forall bn: nat, k: nat | k < g.bsize
      ensures Block(g, store, bn)[k] == Fetch(FlatRun(g, map[], ops), ByteAddress(g, bn, k)) {
      TransparentCache(g, ops, bn, k);
    }
    EmptyOk(g, map[]);
    FirstAnswers(g, ops);
  }

  lemma {:induction false} BlockSize(g: Config, c: Cache, bn: nat)
    requires CacheOk(g, c) && g.balloc
    ensures |Block(g, c.store, bn)| == g.bsize
  {
  }

  lemma {:induction false} FirstAnswers(g: Config, ops: seq<Op>)
    requires Legal(g) && g.balloc && CacheOk(g, Empty(g, map[])) && forall i :: 0 <= i < |ops| ==> OpFits(g, ops[i])
    ensures Answers(g, Empty(g, map[]), ops) == FlatAnswers(g, map[], ops)
  {
    TransparentCache(g, ops, 0, 0);
  }
}
