/** What every operation keeps: each set is a permutation of its blocks and no two
    valid blocks of a set carry the same tag. */
module CacheInvariant {
  import opened Arithmetic
  import opened CacheModel
  import opened FlatMemory

  lemma {:induction false} LookupUnique(g: Config, w: Ways, tag: nat, i: nat)
    requires WaysOk(g, w) && i < |w| && Holds(w[i], tag)
    ensures Lookup(w, tag) == i
  {
  }

  lemma {:induction false} LookupAbsent(w: Ways, tag: nat)
    requires forall i :: 0 <= i < |w| ==> !Holds(w[i], tag)
    ensures Lookup(w, tag) == |w|
  {
  }

  lemma {:induction false} ToHeadAt(w: Ways, i: nat, l: Line)
    requires i < |w|
    ensures |ToHead(w, i, l)| == |w|
    ensures forall k :: 0 <= k < |w| ==> ToHead(w, i, l)[k] == if k == 0 then l else if k <= i then w[k - 1] else w[k]
  {
  }

  /** The list with line i replaced by l, in its place or at the head. */
  function Replaced(w: Ways, i: nat, l: Line, head: bool): Ways
    requires i < |w|
  {
    if head then ToHead(w, i, l) else w[i := l]
  }

  lemma {:induction false} ReplacedAt(w: Ways, i: nat, l: Line, head: bool, j: nat)
    requires i < |w| && j < |w|
    ensures |Replaced(w, i, l, head)| == |w|
    ensures Replaced(w, i, l, head)[j] ==
            if j == (if head then 0 else i) then l else if head && j <= i then w[j - 1] else w[j]
  {
    ToHeadAt(w, i, l);
    hide ToHead;
  }

  lemma {:induction false} ToHeadOk(g: Config, w: Ways, i: nat, l: Line)
    requires WaysOk(g, w) && i < |w| && LineOk(g, l) && forall j :: 0 <= j < |w| && j != i ==> Apart(l, w[j])
    ensures WaysOk(g, ToHead(w, i, l))
  {
    ToHeadAt(w, i, l);
    hide ToHead;
  }

  /** Replacing line i, in place or moved to the head, by one with the same block and a tag no other valid line has. */
  lemma {:induction false} ReplaceOk(g: Config, w: Ways, i: nat, l: Line, head: bool)
    requires WaysOk(g, w) && i < |w| && l.blk == w[i].blk && |l.data| == if g.balloc then g.bsize else 0
    requires forall j :: 0 <= j < |w| && j != i && w[j].valid ==> w[j].tag != l.tag
    ensures WaysOk(g, Replaced(w, i, l, head))
  {
    forall j | 0 <= j < |w| && j != i ensures Apart(l, w[j]) {
      assert Apart(w[if i < j then i else j], w[if i < j then j else i]);
    }
    if head {
      ToHeadOk(g, w, i, l);
    } else {
      var w' := w[i := l];
      forall j, k | 0 <= j < k < |w'| ensures Apart(w'[j], w'[k]) {
        assert Apart(w[j], w[k]);
      }
    }
  }

  lemma {:induction false} HitWaysOk(g: Config, w: Ways, i: nat, q: Request)
    requires WaysOk(g, w) && i < |w| && w[i].valid && Fits(g, q)
    ensures WaysOk(g, HitWays(g, w, i, q))
  {
    ReplaceOk(g, w, i, Touched(g, w[i], q), g.policy == LRU);
  }

  lemma {:induction false} MissWaysOk(g: Config, w: Ways, v: nat, tag: nat, fill: seq<Byte>, q: Request)
    requires WaysOk(g, w) && v < |w| && Fits(g, q) && |fill| == (if g.balloc then g.bsize else 0)
    requires Lookup(w, tag) == |w|
    ensures WaysOk(g, MissWays(g, w, v, tag, fill, q))
  {
    ReplaceOk(g, w, v, Touched(g, Line(w[v].blk, tag, true, false, fill), q), g.policy != Random);
  }

  lemma {:induction false} LookasideOk(g: Config, c: Cache, q: Request, prefetch: bool, r: nat)
    requires CacheOk(g, c) && Fits(g, q)
    ensures CacheOk(g, Lookaside(g, c, q, prefetch, r))
  {
    var s, tag := SetOf(g, q.bn), TagOf(g, q.bn);
    var w := c.sets[s];
    var i := Lookup(w, tag);
    if i < |w| {
      HitWaysOk(g, w, i, q);
    } else {
      var v := Victim(g, w, r);
      StoreOk(g, c, w[v], s);
      MissWaysOk(g, w, v, tag, Block(g, WrittenBack(g, c.store, w[v], s), q.bn), q);
    }
  }

  lemma {:induction false} BringOk(g: Config, c: Cache, bn: nat, r: nat)
    requires CacheOk(g, c)
    ensures CacheOk(g, Bring(g, c, bn, r))
  {
    if !Hit(g, c, bn) {
      LookasideOk(g, c, Request(Read, bn, 0, g.bsize, []), true, r);
    }
  }

  lemma {:induction false} FlushStoreOk(g: Config, store: map<nat, seq<Byte>>, w: Ways, s: nat)
    requires forall i :: 0 <= i < |w| ==> |w[i].data| == if g.balloc then g.bsize else 0
    requires forall bn :: bn in store ==> |store[bn]| == if g.balloc then g.bsize else 0
    ensures forall bn :: bn in FlushStore(g, store, w, s) ==>
              |FlushStore(g, store, w, s)[bn]| == if g.balloc then g.bsize else 0
  {
    if w != [] {
      FlushStoreOk(g, store, w[..|w| - 1], s);
    }
  }

  lemma {:induction false} FlushWaysOk(g: Config, w: Ways)
    requires WaysOk(g, w)
    ensures WaysOk(g, FlushWays(w))
  {
  }

  lemma {:induction false} FlushOneOk(g: Config, f: Cache, s: nat)
    requires CacheOk(g, f) && s < |f.sets|
    ensures CacheOk(g, FlushedSet(g, f, s))
  {
    FlushWaysOk(g, f.sets[s]);
    FlushStoreOk(g, f.store, f.sets[s], s);
  }

  lemma {:induction false} FlushSetsStep(g: Config, c: Cache, n: nat)
    requires n < |c.sets|
    ensures var f := FlushSets(g, c, n);
            f.sets[n] == c.sets[n] && FlushSets(g, c, n + 1) == FlushedSet(g, f, n)
  {
  }

  lemma {:induction false} FlushSetsOk(g: Config, c: Cache, n: nat)
    requires CacheOk(g, c) && n <= |c.sets|
    ensures CacheOk(g, FlushSets(g, c, n))
  {
    hide CacheOk;
    hide FlushedSet;
    if n > 0 {
      FlushSetsOk(g, c, n - 1);
      FlushOneOk(g, FlushSets(g, c, n - 1), n - 1);
    }
  }

  lemma {:induction false} ToTailOk(g: Config, w: Ways, i: nat)
    requires WaysOk(g, w) && i < |w|
    ensures WaysOk(g, ToTail(w, i, Invalidated(w[i])))
  {
    var f := ToTail(w, i, Invalidated(w[i]));
    hide ToTail;
    forall j, k | 0 <= j < k < |w| ensures Apart(f[j], f[k]) {
      var j', k' := if j < i then j else j + 1, if k < i then k else if k < |w| - 1 then k + 1 else i;
      assert Apart(w[if j' < k' then j' else k'], w[if j' < k' then k' else j']);
    }
  }

  lemma {:induction false} FlushBlockOk(g: Config, c: Cache, bn: nat)
    requires CacheOk(g, c)
    ensures CacheOk(g, FlushBlock(g, c, bn))
  {
    hide IsPow2;
    var s := SetOf(g, bn);
    var w := c.sets[s];
    var i := Lookup(w, TagOf(g, bn));
    if i < |w| {
      ToTailOk(g, w, i);
      StoreOk(g, c, w[i], s);
      assert FlushBlock(g, c, bn).sets == c.sets[s := ToTail(w, i, Invalidated(w[i]))];
      hide WaysOk;
    }
  }

  lemma {:induction false} EmptyOk(g: Config, store: map<nat, seq<Byte>>)
    requires Legal(g) && forall bn :: bn in store ==> |store[bn]| == if g.balloc then g.bsize else 0
    ensures CacheOk(g, Empty(g, store))
  {
    assert WaysOk(g, EmptyWays(g));
  }

  // ----- what a lookup finds afterwards

  lemma {:induction false} FindIn(g: Config, w: Ways, tag: nat, i: nat)
    requires WaysOk(g, w) && i < |w| && Holds(w[i], tag)
    ensures Find(w, tag) == Found(w[i])
  {
    LookupUnique(g, w, tag, i);
  }

  lemma {:induction false} FindReplaced(g: Config, w: Ways, i: nat, l: Line, head: bool, tag: nat)
    requires WaysOk(g, w) && i < |w| && l.blk == w[i].blk && |l.data| == (if g.balloc then g.bsize else 0) && l.valid
    requires forall j :: 0 <= j < |w| && j != i && w[j].valid ==> w[j].tag != l.tag
    ensures Find(Replaced(w, i, l, head), tag) ==
            if tag == l.tag then Found(l) else if Holds(w[i], tag) then Absent else Find(w, tag)
  {
    var w' := Replaced(w, i, l, head);
    hide Replaced;
    hide WaysOk;
    ReplaceOk(g, w, i, l, head);
    ReplacedAt(w, i, l, head, 0);
    var j := Lookup(w, tag);
    if tag == l.tag {
      ReplacedAt(w, i, l, head, i);
      FindIn(g, w', tag, if head then 0 else i);
    } else if j < |w| && j != i {
      var j' := if head && j < i then j + 1 else j;
      ReplacedAt(w, i, l, head, j');
      FindIn(g, w', tag, j');
      if Holds(w[i], tag) { LookupUnique(g, w, tag, i); }
    } else {
      OnlyAt(g, w, tag, i);
      forall k | 0 <= k < |w'| ensures !Holds(w'[k], tag) {
        ReplacedAt(w, i, l, head, k);
      }
      LookupAbsent(w', tag);
    }
  }

  lemma {:induction false} OnlyAt(g: Config, w: Ways, tag: nat, i: nat)
    requires WaysOk(g, w) && i < |w| && (Lookup(w, tag) == i || Lookup(w, tag) == |w|)
    ensures forall k :: 0 <= k < |w| && k != i ==> !Holds(w[k], tag)
  {
    forall k | 0 <= k < |w| && k != i ensures !Holds(w[k], tag) {
      if Holds(w[k], tag) {
        LookupUnique(g, w, tag, k);
      }
    }
  }

  lemma {:induction false} FindAfterHit(g: Config, w: Ways, i: nat, q: Request, tag: nat)
    requires WaysOk(g, w) && i < |w| && w[i].valid && Fits(g, q)
    ensures Find(HitWays(g, w, i, q), tag) == if tag == w[i].tag then Found(Touched(g, w[i], q)) else Find(w, tag)
  {
    FindReplaced(g, w, i, Touched(g, w[i], q), g.policy == LRU, tag);
  }

  lemma {:induction false} FindAfterMiss(g: Config, w: Ways, v: nat, t: nat, fill: seq<Byte>, q: Request, tag: nat)
    requires WaysOk(g, w) && v < |w| && Fits(g, q) && |fill| == (if g.balloc then g.bsize else 0)
    requires Lookup(w, t) == |w|
    ensures Find(MissWays(g, w, v, t, fill, q), tag) ==
            if tag == t then Found(Touched(g, Line(w[v].blk, t, true, false, fill), q))
            else if Holds(w[v], tag) then Absent else Find(w, tag)
  {
    FindReplaced(g, w, v, Touched(g, Line(w[v].blk, t, true, false, fill), q), g.policy != Random, tag);
  }

  // ----- sequences of operations

  datatype Op = Access(q: Request, prefetch: bool, r: nat) | FlushAll | FlushAddr(bn: nat)

  predicate OpFits(g: Config, op: Op) {
    op.Access? ==> Fits(g, op.q)
  }

  function Apply(g: Config, c: Cache, op: Op): Cache
    requires CacheOk(g, c) && OpFits(g, op)
  {
    match op
    case Access(q, p, r) => Lookaside(g, c, q, p, r)
    case FlushAll => Flush(g, c)
    case FlushAddr(bn) => FlushBlock(g, c, bn)
  }

  function Run(g: Config, c: Cache, ops: seq<Op>): (c': Cache)
    requires CacheOk(g, c) && forall i :: 0 <= i < |ops| ==> OpFits(g, ops[i])
    ensures CacheOk(g, c')
    decreases |ops|
  {
    if ops == [] then c
    else
      ApplyOk(g, c, ops[0]);
      Run(g, Apply(g, c, ops[0]), ops[1..])
  }

  lemma {:induction false} ApplyOk(g: Config, c: Cache, op: Op)
    requires CacheOk(g, c) && OpFits(g, op)
    ensures CacheOk(g, Apply(g, c, op))
  {
    match op
    case Access(q, p, r) => LookasideOk(g, c, q, p, r);
    case FlushAll => FlushSetsOk(g, c, |c.sets|);
    case FlushAddr(bn) => FlushBlockOk(g, c, bn);
  }
}
