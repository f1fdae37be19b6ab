/** With data allocated, the cache in front of the store is a flat byte memory. */
module CacheTransparency {
  import opened Arithmetic
  import opened CacheInvariant
  import opened CacheModel
  import opened FlatMemory

  /** A clean valid block is a copy of the store. */
  ghost predicate Coherent(g: Config, c: Cache)
    requires CacheOk(g, c)
  {
    forall s, i :: 0 <= s < |c.sets| && 0 <= i < |c.sets[s]| ==> LineCoherent(g, c.store, s, c.sets[s][i])
  }

  predicate LineCoherent(g: Config, store: map<nat, seq<Byte>>, s: nat, l: Line) {
    l.valid && !l.dirty ==> l.data == Block(g, store, BlockNumber(g, l.tag, s))
  }

  /** What the store holds for bn once line l of set s has been written back. */
  lemma {:induction false} WrittenBackBlock(g: Config, store: map<nat, seq<Byte>>, l: Line, s: nat, bn: nat)
    requires Legal(g) && g.balloc && s < g.nsets
    ensures Block(g, WrittenBack(g, store, l, s), bn) ==
            if l.valid && l.dirty && TagOf(g, bn) == l.tag && SetOf(g, bn) == s then l.data else Block(g, store, bn)
  {
    hide SetOf;
    hide TagOf;
    hide BlockNumber;
    hide IsPow2;
    BlockNumberInverts(g, bn);
    BlockNumberParts(g, l.tag, s);
  }

  lemma {:induction false} CoherentLine(g: Config, c: Cache, bn: nat)
    requires CacheOk(g, c) && Coherent(g, c)
    ensures match Find(c.sets[SetOf(g, bn)], TagOf(g, bn))
            case Found(l) => l.valid && l.tag == TagOf(g, bn) && (!l.dirty ==> l.data == Block(g, c.store, bn))
            case Absent => true
  {
    hide SetOf;
    hide TagOf;
    hide BlockNumber;
    hide IsPow2;
    BlockNumberInverts(g, bn);
  }

  /** A request changes the contents of its own block only, and only when it writes. */
  lemma {:induction false} LookasideLogical(g: Config, c: Cache, q: Request, prefetch: bool, r: nat, bn: nat)
    requires CacheOk(g, c) && Coherent(g, c) && g.balloc && Fits(g, q)
    ensures CacheOk(g, Lookaside(g, c, q, prefetch, r))
    ensures Logical(g, Lookaside(g, c, q, prefetch, r), bn) ==
            if bn == q.bn && q.cmd == Write then Poke(Logical(g, c, bn), q.ofs, q.bytes) else Logical(g, c, bn)
  {
    hide SetOf;
    hide TagOf;
    hide BlockNumber;
    hide IsPow2;
    LookasideOk(g, c, q, prefetch, r);
    var c' := Lookaside(g, c, q, prefetch, r);
    var s, tag := SetOf(g, q.bn), TagOf(g, q.bn);
    var w := c.sets[s];
    var i := Lookup(w, tag);
    BlockNumberInverts(g, bn);
    BlockNumberInverts(g, q.bn);
    CoherentLine(g, c, bn);
    if i < |w| {
      if SetOf(g, bn) == s {
        FindAfterHit(g, w, i, q, TagOf(g, bn));
      }
    } else {
      var v := Victim(g, w, r);
      WrittenBackBlock(g, c.store, w[v], s, bn);
      WrittenBackBlock(g, c.store, w[v], s, q.bn);
      if SetOf(g, bn) == s {
        FindAfterMiss(g, w, v, tag, Block(g, WrittenBack(g, c.store, w[v], s), q.bn), q, TagOf(g, bn));
        if Holds(w[v], TagOf(g, bn)) {
          FindIn(g, w, TagOf(g, bn), v);
        }
      }
    }
  }

  /** Writing one block back does not disturb the lines of other blocks. */
  lemma {:induction false} OthersCoherent(g: Config, store: map<nat, seq<Byte>>, l: Line, s: nat, m: Line, s': nat)
    requires Legal(g) && g.balloc && s < g.nsets && s' < g.nsets
    requires LineCoherent(g, store, s', m) && (s == s' && l.valid && m.valid ==> l.tag != m.tag)
    ensures LineCoherent(g, WrittenBack(g, store, l, s), s', m)
  {
    hide IsPow2;
    hide WrittenBack;
    BlockNumberParts(g, m.tag, s');
    WrittenBackBlock(g, store, l, s, BlockNumber(g, m.tag, s'));
  }

  /** Writing line i of set s back, or not, leaves every other line coherent. */
  lemma {:induction false} KeptCoherent(g: Config, c: Cache, s: nat, i: nat, store: map<nat, seq<Byte>>, s': nat,
                                        k: nat)
    requires CacheOk(g, c) && Coherent(g, c) && g.balloc && s < |c.sets| && i < |c.sets[s]|
    requires store == WrittenBack(g, c.store, c.sets[s][i], s) || store == c.store
    requires s' < |c.sets| && k < |c.sets[s']| && !(s' == s && k == i)
    ensures LineCoherent(g, store, s', c.sets[s'][k])
  {
    hide LineCoherent;
    hide WrittenBack;
    hide LineOk;
    if s' == s {
      assert Apart(c.sets[s][if i < k then i else k], c.sets[s][if i < k then k else i]);
    }
    OthersCoherent(g, c.store, c.sets[s][i], s, c.sets[s'][k], s');
  }

  lemma {:induction false} ReplaceCoherent(g: Config, c: Cache, s: nat, i: nat, l: Line, head: bool,
                                           store: map<nat, seq<Byte>>)
    requires CacheOk(g, c) && Coherent(g, c) && g.balloc && s < |c.sets| && i < |c.sets[s]|
    requires store == WrittenBack(g, c.store, c.sets[s][i], s) || store == c.store
    requires LineCoherent(g, store, s, l)
    requires CacheOk(g, Cache(c.sets[s := Replaced(c.sets[s], i, l, head)], store, c.stats))
    ensures Coherent(g, Cache(c.sets[s := Replaced(c.sets[s], i, l, head)], store, c.stats))
  {
    hide CacheOk;
    hide LineCoherent;
    hide WrittenBack;
    hide Replaced;
    var w := Replaced(c.sets[s], i, l, head);
    var sets := c.sets[s := w];
    forall s', j | 0 <= s' < |sets| && 0 <= j < |sets[s']| ensures LineCoherent(g, store, s', sets[s'][j]) {
      if s' != s {
        KeptCoherent(g, c, s, i, store, s', j);
      } else {
        ReplacedAt(c.sets[s], i, l, head, 0);
        ReplacedAt(c.sets[s], i, l, head, j);
        if j != if head then 0 else i {
          KeptCoherent(g, c, s, i, store, s, if head && j <= i then j - 1 else j);
        }
      }
    }
  }

  lemma {:induction false} LookasideCoherent(g: Config, c: Cache, q: Request, prefetch: bool, r: nat)
    requires CacheOk(g, c) && Coherent(g, c) && g.balloc && Fits(g, q)
    ensures CacheOk(g, Lookaside(g, c, q, prefetch, r)) && Coherent(g, Lookaside(g, c, q, prefetch, r))
  {
    hide SetOf;
    hide TagOf;
    hide BlockNumber;
    hide IsPow2;
    LookasideOk(g, c, q, prefetch, r);
    var s, tag := SetOf(g, q.bn), TagOf(g, q.bn);
    var w := c.sets[s];
    var i := Lookup(w, tag);
    BlockNumberInverts(g, q.bn);
    if i < |w| {
      ReplaceCoherent(g, c, s, i, Touched(g, w[i], q), g.policy == LRU, c.store);
    } else {
      var v := Victim(g, w, r);
      var store := WrittenBack(g, c.store, w[v], s);
      ReplaceCoherent(g, c, s, v, Touched(g, Line(w[v].blk, tag, true, false, Block(g, store, q.bn)), q),
                      g.policy != Random, store);
    }
  }

  // ----- flushing one block

  lemma {:induction false} FindRemoved(g: Config, w: Ways, i: nat, tag: nat)
    requires WaysOk(g, w) && i < |w|
    ensures Find(ToTail(w, i, Invalidated(w[i])), tag) == if Holds(w[i], tag) then Absent else Find(w, tag)
  {
    var f := ToTail(w, i, Invalidated(w[i]));
    ToTailOk(g, w, i);
    hide ToTail;
    var j := Lookup(w, tag);
    if j < |w| && j != i {
      FindIn(g, f, tag, if j < i then j else j - 1);
      FindIn(g, w, tag, j);
      assert Holds(w[i], tag) ==> Lookup(w, tag) == i by { if Holds(w[i], tag) { LookupUnique(g, w, tag, i); } }
    } else {
      OnlyAt(g, w, tag, i);
      hide WaysOk;
      LookupAbsent(f, tag);
    }
  }

  /** Flushing one block changes no contents, and leaves the flushed block uncached and up to date in the store. */
  lemma {:induction false} FlushBlockStores(g: Config, c: Cache, b: nat)
    requires CacheOk(g, c) && Coherent(g, c) && g.balloc
    ensures CacheOk(g, FlushBlock(g, c, b)) && !Hit(g, FlushBlock(g, c, b), b)
    ensures Block(g, FlushBlock(g, c, b).store, b) == Logical(g, c, b)
    ensures forall bn: nat :: Logical(g, FlushBlock(g, c, b), bn) == Logical(g, c, bn)
  {
    hide Logical;
    hide FlushBlock;
    hide Coherent;
    hide SetOf;
    hide TagOf;
    hide IsPow2;
    hide Hit;
    FlushBlockOk(g, c, b);
    StoredByFlush(g, c, b);
    GoneAfterFlush(g, c, b);
    forall bn: nat ensures Logical(g, FlushBlock(g, c, b), bn) == Logical(g, c, bn) {
      FlushBlockLogical(g, c, b, bn);
    }
  }

  lemma {:induction false} GoneAfterFlush(g: Config, c: Cache, b: nat)
    requires CacheOk(g, c)
    ensures CacheOk(g, FlushBlock(g, c, b)) && !Hit(g, FlushBlock(g, c, b), b)
  {
    hide SetOf;
    hide TagOf;
    hide IsPow2;
    FlushBlockOk(g, c, b);
    var w := c.sets[SetOf(g, b)];
    var i := Lookup(w, TagOf(g, b));
    if i < |w| {
      FindRemoved(g, w, i, TagOf(g, b));
      hide WaysOk;
      hide ToTail;
    }
  }

  lemma {:induction false} FlushBlockLogical(g: Config, c: Cache, b: nat, bn: nat)
    requires CacheOk(g, c) && Coherent(g, c) && g.balloc
    ensures CacheOk(g, FlushBlock(g, c, b)) && Logical(g, FlushBlock(g, c, b), bn) == Logical(g, c, bn)
  {
    hide SetOf;
    hide TagOf;
    hide BlockNumber;
    hide IsPow2;
    FlushBlockOk(g, c, b);
    CoherentLine(g, c, bn);
    BlockNumberInverts(g, b);
    BlockNumberInverts(g, bn);
    hide Coherent;
    var s := SetOf(g, b);
    var w := c.sets[s];
    var i := Lookup(w, TagOf(g, b));
    if i < |w| {
      WrittenBackBlock(g, c.store, w[i], s, bn);
      FindRemoved(g, w, i, TagOf(g, bn));
      hide WaysOk;
      hide ToTail;
    }
  }

  lemma {:induction false} StoredByFlush(g: Config, c: Cache, b: nat)
    requires CacheOk(g, c) && Coherent(g, c) && g.balloc
    ensures Block(g, FlushBlock(g, c, b).store, b) == Logical(g, c, b)
  {
    hide SetOf;
    hide TagOf;
    hide BlockNumber;
    hide IsPow2;
    CoherentLine(g, c, b);
    var w := c.sets[SetOf(g, b)];
    var i := Lookup(w, TagOf(g, b));
    if i < |w| {
      WrittenBackBlock(g, c.store, w[i], SetOf(g, b), b);
    }
  }

  lemma {:induction false} FlushBlockCoherent(g: Config, c: Cache, b: nat)
    requires CacheOk(g, c) && Coherent(g, c) && g.balloc
    ensures CacheOk(g, FlushBlock(g, c, b)) && Coherent(g, FlushBlock(g, c, b))
  {
    hide SetOf;
    hide TagOf;
    hide BlockNumber;
    hide IsPow2;
    FlushBlockOk(g, c, b);
    var s := SetOf(g, b);
    var w := c.sets[s];
    var i := Lookup(w, TagOf(g, b));
    var c' := FlushBlock(g, c, b);
    if i < |w| {
      forall s', j | 0 <= s' < |c'.sets| && 0 <= j < |c'.sets[s']| && !(s' == s && j == |w| - 1)
        ensures LineCoherent(g, c'.store, s', c'.sets[s'][j])
      {
        var k := if s' == s && j >= i then j + 1 else j;
        assert c'.sets[s'][j] == c.sets[s'][k];
        if s' == s {
          assert Apart(w[if i < k then i else k], w[if i < k then k else i]);
        }
        OthersCoherent(g, c.store, w[i], s, c.sets[s'][k], s');
      }
    }
  }

  // ----- flushing everything

  ghost predicate DirtyLine(l: Line, tag: nat) {
    l.valid && l.dirty && l.tag == tag
  }

  lemma {:induction false} FlushStoreBlock(g: Config, store: map<nat, seq<Byte>>, w: Ways, s: nat, bn: nat)
    requires Legal(g) && g.balloc && s < g.nsets
    requires forall i, j :: 0 <= i < j < |w| ==> Apart(w[i], w[j])
    ensures SetOf(g, bn) != s || (forall i :: 0 <= i < |w| ==> !DirtyLine(w[i], TagOf(g, bn))) ==>
              Block(g, FlushStore(g, store, w, s), bn) == Block(g, store, bn)
    ensures SetOf(g, bn) == s ==> forall i :: 0 <= i < |w| && DirtyLine(w[i], TagOf(g, bn)) ==>
              Block(g, FlushStore(g, store, w, s), bn) == w[i].data
  {
    hide SetOf;
    hide TagOf;
    hide BlockNumber;
    hide IsPow2;
    if w != [] {
      var v, l := w[..|w| - 1], w[|w| - 1];
      FlushStoreBlock(g, store, v, s, bn);
      WrittenBackBlock(g, FlushStore(g, store, v, s), l, s, bn);
    }
  }

  lemma {:induction false} FlushSetBlock(g: Config, store: map<nat, seq<Byte>>, w: Ways, s: nat, bn: nat)
    requires Legal(g) && g.balloc && WaysOk(g, w) && s < g.nsets && SetOf(g, bn) == s
    ensures Block(g, FlushStore(g, store, w, s), bn) ==
            match Find(w, TagOf(g, bn))
            case Found(l) => if l.dirty then l.data else Block(g, store, bn)
            case Absent => Block(g, store, bn)
  {
    hide IsPow2;
    hide SetOf;
    hide TagOf;
    hide BlockNumber;
    hide Block;
    var tag := TagOf(g, bn);
    FlushStoreBlock(g, store, w, s, bn);
    hide FlushStore;
    var i := Lookup(w, tag);
    if i < |w| && w[i].dirty {
      assert DirtyLine(w[i], tag);
    } else {
      forall j | 0 <= j < |w| ensures !DirtyLine(w[j], tag) {
        if DirtyLine(w[j], tag) { LookupUnique(g, w, tag, j); }
      }
    }
  }

  lemma {:induction false} FlushOtherSet(g: Config, store: map<nat, seq<Byte>>, w: Ways, s: nat, bn: nat)
    requires Legal(g) && g.balloc && WaysOk(g, w) && s < g.nsets && SetOf(g, bn) != s
    ensures Block(g, FlushStore(g, store, w, s), bn) == Block(g, store, bn)
  {
    FlushStoreBlock(g, store, w, s, bn);
  }

  lemma {:induction false} FlushSetStep(g: Config, c: Cache, store: map<nat, seq<Byte>>, s: nat, bn: nat)
    requires CacheOk(g, c) && Coherent(g, c) && g.balloc && s < |c.sets|
    requires Block(g, store, bn) == if SetOf(g, bn) < s then Logical(g, c, bn) else Block(g, c.store, bn)
    ensures Block(g, FlushStore(g, store, c.sets[s], s), bn) == if SetOf(g, bn) <= s then Logical(g, c, bn)
            else Block(g, c.store, bn)
  {
    if SetOf(g, bn) == s {
      CoherentLine(g, c, bn);
      hide Coherent;
      hide Block;
      hide FlushStore;
      hide SetOf;
      hide TagOf;
      FlushSetBlock(g, store, c.sets[s], s, bn);
      hide WaysOk;
    } else {
      FlushOtherSet(g, store, c.sets[s], s, bn);
    }
  }

  lemma {:induction false} FlushNoneBlock(g: Config, c: Cache, bn: nat)
    requires CacheOk(g, c) && g.balloc
    ensures Block(g, FlushSets(g, c, 0).store, bn) == Block(g, c.store, bn)
  {
  }

  lemma {:induction false} FlushSetsBlock(g: Config, c: Cache, n: nat, bn: nat)
    requires CacheOk(g, c) && Coherent(g, c) && g.balloc && n <= |c.sets|
    ensures Block(g, FlushSets(g, c, n).store, bn) ==
            if SetOf(g, bn) < n then Logical(g, c, bn) else Block(g, c.store, bn)
  {
    hide CacheOk;
    hide Coherent;
    hide Logical;
    hide Block;
    hide FlushStore;
    hide FlushSets;
    hide FlushWays;
    hide CountFlush;
    if n == 0 {
      FlushNoneBlock(g, c, bn);
    } else {
      FlushSetsBlock(g, c, n - 1, bn);
      FlushSetsStep(g, c, n - 1);
      FlushSetStep(g, c, FlushSets(g, c, n - 1).store, n - 1, bn);
    }
  }

  /** After a flush nothing is cached and the store alone is the memory the program saw. */
  lemma {:induction false} FlushLogical(g: Config, c: Cache, bn: nat)
    requires CacheOk(g, c) && Coherent(g, c) && g.balloc
    ensures CacheOk(g, Flush(g, c)) && Coherent(g, Flush(g, c))
    ensures Block(g, Flush(g, c).store, bn) == Logical(g, Flush(g, c), bn) == Logical(g, c, bn)
    ensures !Hit(g, Flush(g, c), bn)
  {
    hide SetOf;
    hide TagOf;
    hide BlockNumber;
    hide IsPow2;
    FlushSetsOk(g, c, |c.sets|);
    FlushSetsBlock(g, c, |c.sets|, bn);
    LookupAbsent(Flush(g, c).sets[SetOf(g, bn)], TagOf(g, bn));
  }

  // ----- which blocks a flush writes

  /** The blocks a flush of set s writes, from the head of its way list on. */
  function LogWays(g: Config, w: Ways, s: nat): seq<nat> {
    if w == [] then [] else LogWays(g, w[..|w| - 1], s) + WriteOf(g, w[|w| - 1], s)
  }

  /** The blocks a flush writes, set by set. */
  function LogSets(g: Config, sets: seq<Ways>): seq<nat> {
    if sets == [] then [] else LogSets(g, sets[..|sets| - 1]) + LogWays(g, sets[|sets| - 1], |sets| - 1)
  }

  predicate IsDirty(g: Config, c: Cache, bn: nat)
    requires CacheOk(g, c)
  {
    var f := Find(c.sets[SetOf(g, bn)], TagOf(g, bn));
    f.Found? && f.line.dirty
  }

  lemma {:induction false} LogWaysMembers(g: Config, w: Ways, s: nat, bn: nat)
    requires Legal(g) && s < g.nsets
    ensures bn in LogWays(g, w, s) <==> SetOf(g, bn) == s && exists i :: 0 <= i < |w| && DirtyLine(w[i], TagOf(g, bn))
  {
    hide SetOf;
    hide TagOf;
    hide BlockNumber;
    hide IsPow2;
    if w != [] {
      var n := |w| - 1;
      LogWaysMembers(g, w[..n], s, bn);
      BlockNumberInverts(g, bn);
      BlockNumberParts(g, w[n].tag, s);
      if i :| 0 <= i < |w| && DirtyLine(w[i], TagOf(g, bn)) {
        assert i < n ==> w[..n][i] == w[i];
      }
      if i :| 0 <= i < n && DirtyLine(w[..n][i], TagOf(g, bn)) {
        assert w[..n][i] == w[i];
      }
    }
  }

  lemma {:induction false} LogWaysDistinct(g: Config, w: Ways, s: nat)
    requires Legal(g) && s < g.nsets && forall i, j :: 0 <= i < j < |w| ==> Apart(w[i], w[j])
    ensures forall i, j :: 0 <= i < j < |LogWays(g, w, s)| ==> LogWays(g, w, s)[i] != LogWays(g, w, s)[j]
  {
    hide BlockNumber;
    hide IsPow2;
    if w != [] {
      var n := |w| - 1;
      var v, l := w[..n], w[n];
      LogWaysDistinct(g, v, s);
      if l.valid && l.dirty {
        var bn := BlockNumber(g, l.tag, s);
        LogWaysMembers(g, v, s, bn);
        BlockNumberParts(g, l.tag, s);
        hide SetOf;
        hide TagOf;
        if i :| 0 <= i < |v| && DirtyLine(v[i], TagOf(g, bn)) {
          assert Apart(w[i], w[n]);
        }
      }
    }
  }

  lemma {:induction false} LogSetsMembers(g: Config, sets: seq<Ways>, bn: nat)
    requires Legal(g) && |sets| <= g.nsets
    ensures bn in LogSets(g, sets) <==>
              && SetOf(g, bn) < |sets|
              && exists i :: 0 <= i < |sets[SetOf(g, bn)]| && DirtyLine(sets[SetOf(g, bn)][i], TagOf(g, bn))
  {
    hide SetOf;
    hide TagOf;
    hide LogWays;
    hide IsPow2;
    if sets != [] {
      var n := |sets| - 1;
      LogSetsMembers(g, sets[..n], bn);
      LogWaysMembers(g, sets[n], n, bn);
    }
  }

  lemma {:induction false} LogSetsDistinct(g: Config, sets: seq<Ways>)
    requires Legal(g) && |sets| <= g.nsets && forall s :: 0 <= s < |sets| ==> WaysOk(g, sets[s])
    ensures forall i, j :: 0 <= i < j < |LogSets(g, sets)| ==> LogSets(g, sets)[i] != LogSets(g, sets)[j]
  {
    hide SetOf;
    hide TagOf;
    hide LogWays;
    hide IsPow2;
    if sets != [] {
      var n := |sets| - 1;
      var a, b := LogSets(g, sets[..n]), LogWays(g, sets[n], n);
      LogSetsDistinct(g, sets[..n]);
      assert WaysOk(g, sets[n]);
      LogWaysDistinct(g, sets[n], n);
      forall i, j | 0 <= i < |a| && 0 <= j < |b| ensures a[i] != b[j] {
        assert a[i] in a && b[j] in b;
        LogSetsMembers(g, sets[..n], a[i]);
        LogWaysMembers(g, sets[n], n, b[j]);
      }
    }
  }

  /** From t to t', the blocks of log were written and counted. */
  predicate Wrote(t: Stats, t': Stats, log: seq<nat>) {
    t'.written == t.written + log && t'.writebacks == t.writebacks + |log|
  }

  lemma {:induction false} WroteThen(t: Stats, t1: Stats, t2: Stats, a: seq<nat>, b: seq<nat>)
    requires Wrote(t, t1, a) && Wrote(t1, t2, b)
    ensures Wrote(t, t2, a + b)
  {
    assert t.written + a + b == t.written + (a + b);
  }

  lemma {:induction false} CountFlushWrites(g: Config, t: Stats, w: Ways, s: nat)
    ensures Wrote(t, CountFlush(g, t, w, s), LogWays(g, w, s))
  {
    if w != [] {
      hide BlockNumber;
      var v, l := w[..|w| - 1], w[|w| - 1];
      CountFlushWrites(g, t, v, s);
      assert Wrote(CountFlush(g, t, v, s), CountFlush(g, t, w, s), WriteOf(g, l, s));
      WroteThen(t, CountFlush(g, t, v, s), CountFlush(g, t, w, s), LogWays(g, v, s), WriteOf(g, l, s));
    }
  }

  lemma {:induction false} LogSetsStep(g: Config, c: Cache, n: nat)
    requires 0 < n <= |c.sets|
    ensures LogSets(g, c.sets[..n]) == LogSets(g, c.sets[..n - 1]) + LogWays(g, c.sets[n - 1], n - 1)
  {
    hide LogWays;
    assert c.sets[..n][..n - 1] == c.sets[..n - 1];
  }

  lemma {:induction false} FlushSetWrites(g: Config, c: Cache, n: nat)
    requires n < |c.sets|
    ensures Wrote(FlushSets(g, c, n).stats, FlushSets(g, c, n + 1).stats, LogWays(g, c.sets[n], n))
  {
    hide Wrote;
    hide LogWays;
    hide CountFlush;
    hide FlushStore;
    FlushSetsStep(g, c, n);
    hide FlushSets;
    CountFlushWrites(g, FlushSets(g, c, n).stats, c.sets[n], n);
  }

  lemma {:induction false} FlushNoneWrites(g: Config, c: Cache)
    ensures Wrote(c.stats, FlushSets(g, c, 0).stats, LogSets(g, c.sets[..0]))
  {
  }

  lemma {:induction false} FlushSetsWrites(g: Config, c: Cache, n: nat)
    requires n <= |c.sets|
    ensures Wrote(c.stats, FlushSets(g, c, n).stats, LogSets(g, c.sets[..n]))
  {
    hide FlushSets;
    hide LogSets;
    hide LogWays;
    hide Wrote;
    if n == 0 {
      FlushNoneWrites(g, c);
    } else {
      FlushSetsWrites(g, c, n - 1);
      FlushSetWrites(g, c, n - 1);
      LogSetsStep(g, c, n);
      WroteThen(c.stats, FlushSets(g, c, n - 1).stats, FlushSets(g, c, n).stats,
                LogSets(g, c.sets[..n - 1]), LogWays(g, c.sets[n - 1], n - 1));
    }
  }

  lemma {:induction false} DirtyFound(g: Config, c: Cache, bn: nat)
    requires CacheOk(g, c)
    ensures var w := c.sets[SetOf(g, bn)];
            IsDirty(g, c, bn) <==> exists i :: 0 <= i < |w| && DirtyLine(w[i], TagOf(g, bn))
  {
    hide SetOf;
    hide TagOf;
    var w, tag := c.sets[SetOf(g, bn)], TagOf(g, bn);
    var k := Lookup(w, tag);
    if i :| 0 <= i < |w| && DirtyLine(w[i], tag) {
      LookupUnique(g, w, tag, i);
    }
    if k < |w| && w[k].dirty {
      assert DirtyLine(w[k], tag);
    }
  }

  /** A flush writes every block that was valid and dirty, each once, and no other. */
  lemma {:induction false} FlushWritesEachDirtyBlockOnce(g: Config, c: Cache)
    requires CacheOk(g, c)
    ensures var log := LogSets(g, c.sets);
            && (forall bn :: bn in log <==> IsDirty(g, c, bn))
            && (forall i, j :: 0 <= i < j < |log| ==> log[i] != log[j])
            && Flush(g, c).stats.written == c.stats.written + log
            && Flush(g, c).stats.writebacks == c.stats.writebacks + |log|
  {
    hide LogSets;
    hide IsDirty;
    hide FlushSets;
    hide WaysOk;
    FlushSetsWrites(g, c, |c.sets|);
    assert c.sets[..|c.sets|] == c.sets;
    LogSetsDistinct(g, c.sets);
    forall bn ensures bn in LogSets(g, c.sets) <==> IsDirty(g, c, bn) {
      LogSetsMembers(g, c.sets, bn);
      DirtyFound(g, c, bn);
      hide IsPow2;
    }
  }

  // ----- against a flat byte memory

  function Answer(g: Config, c: Cache, op: Op): seq<Byte>
    requires CacheOk(g, c) && OpFits(g, op)
  {
    if op.Access? then Output(g, c, op.q) else []
  }

  function FlatApply(g: Config, m: Flat, op: Op): Flat {
    if op.Access? && op.q.cmd == Write then Put(m, ByteAddress(g, op.q.bn, op.q.ofs), op.q.bytes) else m
  }

  function FlatAnswer(g: Config, m: Flat, op: Op): seq<Byte> {
    if op.Access? && op.q.cmd == Read then FetchBytes(m, ByteAddress(g, op.q.bn, op.q.ofs), op.q.n) else []
  }

  function ByteAddress(g: Config, bn: nat, k: nat): nat {
    bn * g.bsize + k
  }

  /** Block contents are the bytes of the flat memory. */
  ghost predicate Represents(g: Config, c: Cache, m: Flat)
    requires CacheOk(g, c) && g.balloc
  {
    forall bn: nat, k: nat :: k < g.bsize ==> Logical(g, c, bn)[k] == Fetch(m, ByteAddress(g, bn, k))
  }

  lemma {:induction false} SameBlock(n: nat, bn: nat, k: nat, bn': nat, a: nat, len: nat)
    requires n > 0 && k < n && a + len <= n && bn != bn'
    ensures !(bn' * n + a <= bn * n + k < bn' * n + a + len)
  {
    if bn < bn' {
      assert (bn + 1) * n <= bn' * n;
    } else {
      assert (bn' + 1) * n <= bn * n;
    }
  }

  /** Writing into one block, byte by byte. */
  lemma {:induction false} PokedByte(g: Config, d: seq<Byte>, q: Request, bn: nat, k: nat, m: Flat, b: Byte)
    requires k < g.bsize == |d| && d[k] == Fetch(m, ByteAddress(g, bn, k)) && q.ofs + |q.bytes| <= g.bsize
    requires b == if bn == q.bn then Poke(d, q.ofs, q.bytes)[k] else d[k]
    ensures b == Fetch(Put(m, ByteAddress(g, q.bn, q.ofs), q.bytes), ByteAddress(g, bn, k))
  {
    if bn != q.bn { SameBlock(g.bsize, bn, k, q.bn, q.ofs, |q.bytes|); }
  }

  lemma {:induction false} AccessByte(g: Config, c: Cache, m: Flat, q: Request, p: bool, r: nat, bn: nat, k: nat)
    requires CacheOk(g, c) && Coherent(g, c) && g.balloc && Fits(g, q) && k < g.bsize
    requires Logical(g, c, bn)[k] == Fetch(m, ByteAddress(g, bn, k))
    ensures CacheOk(g, Lookaside(g, c, q, p, r))
    ensures Logical(g, Lookaside(g, c, q, p, r), bn)[k]
            == Fetch(FlatApply(g, m, Access(q, p, r)), ByteAddress(g, bn, k))
  {
    hide SetOf;
    hide TagOf;
    hide BlockNumber;
    hide IsPow2;
    LookasideLogical(g, c, q, p, r, bn);
    hide Lookaside;
    hide Logical;
    hide CacheOk;
    hide Coherent;
    hide ByteAddress;
    hide Poke;
    if q.cmd == Write {
      PokedByte(g, Logical(g, c, bn), q, bn, k, m, Logical(g, Lookaside(g, c, q, p, r), bn)[k]);
    }
  }

  lemma {:induction false} AccessRepresents(g: Config, c: Cache, m: Flat, q: Request, p: bool, r: nat)
    requires CacheOk(g, c) && Coherent(g, c) && g.balloc && Fits(g, q) && Represents(g, c, m)
    ensures CacheOk(g, Lookaside(g, c, q, p, r))
    ensures Represents(g, Lookaside(g, c, q, p, r), FlatApply(g, m, Access(q, p, r)))
  {
    hide SetOf;
    hide TagOf;
    hide BlockNumber;
    hide IsPow2;
    LookasideOk(g, c, q, p, r);
    hide Lookaside;
    hide Logical;
    hide CacheOk;
    hide Coherent;
    hide FlatApply;
    hide ByteAddress;
    hide Fetch;
    forall bn: nat, k: nat | k < g.bsize
      ensures Logical(g, Lookaside(g, c, q, p, r), bn)[k]
              == Fetch(FlatApply(g, m, Access(q, p, r)), ByteAddress(g, bn, k))
    {
      AccessByte(g, c, m, q, p, r, bn, k);
    }
  }

  lemma {:induction false} AnswerRepresents(g: Config, c: Cache, m: Flat, op: Op)
    requires CacheOk(g, c) && g.balloc && OpFits(g, op) && Represents(g, c, m)
    ensures Answer(g, c, op) == FlatAnswer(g, m, op)
  {
  }

  lemma {:induction false} FlushRepresents(g: Config, c: Cache, m: Flat, op: Op)
    requires CacheOk(g, c) && Coherent(g, c) && g.balloc && !op.Access? && Represents(g, c, m)
    ensures CacheOk(g, Apply(g, c, op)) && Coherent(g, Apply(g, c, op)) && Represents(g, Apply(g, c, op), m)
  {
    hide SetOf;
    hide TagOf;
    hide BlockNumber;
    hide IsPow2;
    hide Coherent;
    hide Logical;
    if op == FlushAll {
      FlushLogical(g, c, 0);
    } else {
      FlushBlockCoherent(g, c, op.bn);
    }
    hide CacheOk;
    forall bn: nat, k: nat | k < g.bsize ensures Logical(g, Apply(g, c, op), bn)[k] == Fetch(m, ByteAddress(g, bn, k)) {
      if op == FlushAll {
        FlushLogical(g, c, bn);
      } else {
        FlushBlockLogical(g, c, op.bn, bn);
      }
    }
  }

  lemma {:induction false} ApplyRepresents(g: Config, c: Cache, m: Flat, op: Op)
    requires CacheOk(g, c) && Coherent(g, c) && g.balloc && OpFits(g, op) && Represents(g, c, m)
    ensures CacheOk(g, Apply(g, c, op)) && Coherent(g, Apply(g, c, op))
    ensures Represents(g, Apply(g, c, op), FlatApply(g, m, op))
    ensures Answer(g, c, op) == FlatAnswer(g, m, op)
  {
    hide CacheOk;
    hide Coherent;
    hide Represents;
    AnswerRepresents(g, c, m, op);
    if op.Access? {
      LookasideCoherent(g, c, op.q, op.prefetch, op.r);
      AccessRepresents(g, c, m, op.q, op.prefetch, op.r);
    } else {
      FlushRepresents(g, c, m, op);
    }
  }

  function Answers(g: Config, c: Cache, ops: seq<Op>): seq<seq<Byte>>
    requires CacheOk(g, c) && forall i :: 0 <= i < |ops| ==> OpFits(g, ops[i])
    decreases |ops|
  {
    if ops == [] then []
    else
      ApplyOk(g, c, ops[0]);
      [Answer(g, c, ops[0])] + Answers(g, Apply(g, c, ops[0]), ops[1..])
  }

  function FlatRun(g: Config, m: Flat, ops: seq<Op>): Flat
    decreases |ops|
  {
    if ops == [] then m else FlatRun(g, FlatApply(g, m, ops[0]), ops[1..])
  }

  function FlatAnswers(g: Config, m: Flat, ops: seq<Op>): seq<seq<Byte>>
    decreases |ops|
  {
    if ops == [] then [] else [FlatAnswer(g, m, ops[0])] + FlatAnswers(g, FlatApply(g, m, ops[0]), ops[1..])
  }

  /** Over any sequence of accesses and flushes every read returns what the flat memory holds. */
  lemma {:induction false} RunsLikeFlatMemory(g: Config, c: Cache, m: Flat, ops: seq<Op>)
    requires CacheOk(g, c) && Coherent(g, c) && g.balloc && Represents(g, c, m)
    requires forall i :: 0 <= i < |ops| ==> OpFits(g, ops[i])
    ensures Answers(g, c, ops) == FlatAnswers(g, m, ops)
    ensures Coherent(g, Run(g, c, ops)) && Represents(g, Run(g, c, ops), FlatRun(g, m, ops))
    decreases |ops|
  {
    if ops != [] {
      ApplyRepresents(g, c, m, ops[0]);
      RunsLikeFlatMemory(g, Apply(g, c, ops[0]), FlatApply(g, m, ops[0]), ops[1..]);
    }
  }

  lemma {:induction false} EmptyCoherent(g: Config, store: map<nat, seq<Byte>>)
    requires CacheOk(g, Empty(g, store))
    ensures Coherent(g, Empty(g, store))
  {
  }

  lemma {:induction false} EmptyRepresents(g: Config)
    requires Legal(g) && g.balloc
    ensures CacheOk(g, Empty(g, map[])) && Coherent(g, Empty(g, map[])) && Represents(g, Empty(g, map[]), map[])
  {
    hide SetOf;
    hide TagOf;
    hide BlockNumber;
    hide IsPow2;
    EmptyOk(g, map[]);
    EmptyCoherent(g, map[]);
    forall b: nat, j: nat | j < g.bsize ensures Logical(g, Empty(g, map[]), b)[j] == 0 {
      LookupAbsent(Empty(g, map[]).sets[SetOf(g, b)], TagOf(g, b));
    }
  }

  /** From a new cache over a zero store, and with a final flush, the store is the flat memory. */
  lemma {:induction false} TransparentCache(g: Config, ops: seq<Op>, bn: nat, k: nat)
    requires Legal(g) && g.balloc && k < g.bsize
    requires forall i :: 0 <= i < |ops| ==> OpFits(g, ops[i])
    ensures CacheOk(g, Empty(g, map[])) && Answers(g, Empty(g, map[]), ops) == FlatAnswers(g, map[], ops)
    ensures CacheOk(g, Flush(g, Run(g, Empty(g, map[]), ops)))
    ensures Block(g, Flush(g, Run(g, Empty(g, map[]), ops)).store, bn)[k]
            == Fetch(FlatRun(g, map[], ops), ByteAddress(g, bn, k))
  {
    hide Coherent;
    hide Run;
    hide Answers;
    EmptyRepresents(g);
    hide CacheOk;
    hide Empty;
    hide Flush;
    hide Logical;
    hide Block;
    hide FlatRun;
    hide FlatAnswers;
    hide Fetch;
    RunsLikeFlatMemory(g, Empty(g, map[]), map[], ops);
    FlushLogical(g, Run(g, Empty(g, map[]), ops), bn);
  }
}
