/** The cache of cache.c reduced to what it decides: each set is the list of its blocks
    in way order, searched from the head. Neither the last-block shortcut nor the hash
    chains appear here; the class in Cache.dfy has both and computes these functions. */
module CacheModel {
  import opened Arithmetic
  import opened FlatMemory

  datatype Policy = LRU | Random | FIFO

  datatype Command = Read | Write

  /** `prefetch` is the prefetcher type: 0 none, 1 next line, 3 and up the size of the stride prefetcher's table. */
  datatype Config = Config(nsets: nat, bsize: nat, assoc: nat, policy: Policy, balloc: bool, prefetch: nat)

  /** The parameters cache_create accepts, in a 32-bit address space. The open-ended prefetcher
      is not part of the model, and cached data rules out prefetching, which passes no buffer. */
  predicate Legal(g: Config) {
    && IsPow2(g.nsets) && IsPow2(g.bsize) && IsPow2(g.assoc) && g.bsize >= 8
    && g.nsets > 0 && g.assoc > 0
    && ADDRESS_SPACE % g.bsize == 0
    && g.prefetch != 2
    && (g.balloc ==> g.prefetch == 0)
  }

  datatype Line = Line(blk: nat, tag: nat, valid: bool, dirty: bool, data: seq<Byte>)

  type Ways = seq<Line>

  /** The counters, and in `written` the blocks handed to blk_access_fn for writing, in order. */
  datatype Stats = Stats(hits: nat, misses: nat, readHits: nat, readMisses: nat, prefetchHits: nat, prefetchMisses: nat,
                         replacements: nat, writebacks: nat, invalidations: nat, written: seq<nat>)

  /** `store` is the next level of memory, by block number; blocks never written there are zero. */
  datatype Cache = Cache(sets: seq<Ways>, store: map<nat, seq<Byte>>, stats: Stats)

  // ----- addresses, by block number

  function SetOf(g: Config, bn: nat): (s: nat)
    requires g.nsets > 0
    ensures s < g.nsets
  {
    bn % g.nsets
  }

  function TagOf(g: Config, bn: nat): nat
    requires g.nsets > 0
  {
    bn / g.nsets
  }

  /** CACHE_MK_BADDR */
  function BlockNumber(g: Config, tag: nat, s: nat): nat {
    tag * g.nsets + s
  }

  lemma {:induction false} BlockNumberInverts(g: Config, bn: nat)
    requires Legal(g)
    ensures BlockNumber(g, TagOf(g, bn), SetOf(g, bn)) == bn
  {
  }

  lemma {:induction false} BlockNumberParts(g: Config, tag: nat, s: nat)
    requires Legal(g) && s < g.nsets
    ensures SetOf(g, BlockNumber(g, tag, s)) == s && TagOf(g, BlockNumber(g, tag, s)) == tag
  {
    var bn := BlockNumber(g, tag, s);
    DivModUnique(bn, g.nsets, tag, s);
  }

  // ----- one set

  predicate Holds(l: Line, tag: nat) {
    l.valid && l.tag == tag
  }

  /** Where a search from the head finds the tag; |w| on a miss. */
  function Lookup(w: Ways, tag: nat): (i: nat)
    ensures i <= |w| && (i < |w| ==> Holds(w[i], tag))
    ensures forall j :: 0 <= j < i ==> !Holds(w[j], tag)
  {
    if w == [] then 0
    else if Holds(w[0], tag) then 0
    else 1 + Lookup(w[1..], tag)
  }

  /** The line that holds a tag, if any. */
  datatype Found = Absent | Found(line: Line)

  function Find(w: Ways, tag: nat): Found {
    var i := Lookup(w, tag);
    if i < |w| then Found(w[i]) else Absent
  }

  function Poke(data: seq<Byte>, ofs: nat, bytes: seq<Byte>): seq<Byte>
    requires ofs + |bytes| <= |data|
  {
    data[..ofs] + bytes + data[ofs + |bytes|..]
  }

  /** A request that has passed the checks: for a read n bytes, for a write the bytes. */
  datatype Request = Request(cmd: Command, bn: nat, ofs: nat, n: nat, bytes: seq<Byte>)

  predicate Fits(g: Config, q: Request) {
    && q.ofs + q.n <= g.bsize
    && (q.cmd == Write && g.balloc ==> |q.bytes| == q.n)
  }

  /** CACHE_BCOPY and the dirty bit. */
  function Touched(g: Config, l: Line, q: Request): Line
    requires Fits(g, q) && (g.balloc ==> |l.data| == g.bsize)
  {
    if q.cmd == Read then l
    else l.(dirty := true, data := if g.balloc then Poke(l.data, q.ofs, q.bytes) else l.data)
  }

  function ToHead(w: Ways, i: nat, l: Line): Ways
    requires i < |w|
  {
    [l] + w[..i] + w[i + 1..]
  }

  /** A hit reorders the list under LRU only. */
  function HitWays(g: Config, w: Ways, i: nat, q: Request): Ways
    requires i < |w| && Fits(g, q) && (g.balloc ==> |w[i].data| == g.bsize)
  {
    var l := Touched(g, w[i], q);
    if g.policy == LRU then ToHead(w, i, l) else w[i := l]
  }

  function IndexOf(w: Ways, blk: nat): (i: nat)
    ensures i <= |w| && (i < |w| ==> w[i].blk == blk)
    ensures forall j :: 0 <= j < i ==> w[j].blk != blk
  {
    if w == [] then 0
    else if w[0].blk == blk then 0
    else 1 + IndexOf(w[1..], blk)
  }

  /** The block to replace: the tail of the way list, or the one drawn. */
  function Victim(g: Config, w: Ways, r: nat): (v: nat)
    requires |w| > 0
    ensures v < |w|
  {
    if g.policy == Random && IndexOf(w, r) < |w| then IndexOf(w, r) else |w| - 1
  }

  function MissWays(g: Config, w: Ways, v: nat, tag: nat, fill: seq<Byte>, q: Request): Ways
    requires v < |w| && Fits(g, q) && (g.balloc ==> |fill| == g.bsize)
  {
    var l := Touched(g, Line(w[v].blk, tag, true, false, fill), q);
    if g.policy == Random then w[v := l] else ToHead(w, v, l)
  }

  // ----- the whole cache

  /** What blk_access_fn copies in for a read of block bn. */
  function Block(g: Config, store: map<nat, seq<Byte>>, bn: nat): seq<Byte> {
    if !g.balloc then [] else if bn in store then store[bn] else Zeros(g.bsize)
  }

  predicate LineOk(g: Config, l: Line) {
    l.blk < g.assoc && |l.data| == if g.balloc then g.bsize else 0
  }

  /** Two lines of a set are different blocks, and hold different tags when both are valid. */
  predicate Apart(l: Line, m: Line) {
    l.blk != m.blk && (l.valid && m.valid ==> l.tag != m.tag)
  }

  ghost predicate WaysOk(g: Config, w: Ways) {
    && |w| == g.assoc
    && (forall i :: 0 <= i < |w| ==> LineOk(g, w[i]))
    && (forall i, j :: 0 <= i < j < |w| ==> Apart(w[i], w[j]))
  }

  ghost predicate CacheOk(g: Config, c: Cache) {
    && Legal(g) && |c.sets| == g.nsets
    && (forall s :: 0 <= s < |c.sets| ==> WaysOk(g, c.sets[s]))
    && (forall bn :: bn in c.store ==> |c.store[bn]| == if g.balloc then g.bsize else 0)
  }

  function CountHit(t: Stats, cmd: Command, prefetch: bool): Stats {
    if prefetch then t.(prefetchHits := t.prefetchHits + 1)
    else t.(hits := t.hits + 1, readHits := t.readHits + if cmd == Read then 1 else 0)
  }

  function CountMiss(t: Stats, cmd: Command, prefetch: bool): Stats {
    if prefetch then t.(prefetchMisses := t.prefetchMisses + 1)
    else t.(misses := t.misses + 1, readMisses := t.readMisses + if cmd == Read then 1 else 0)
  }

  /** The store after the victim has left set s. */
  function WrittenBack(g: Config, store: map<nat, seq<Byte>>, l: Line, s: nat): map<nat, seq<Byte>> {
    if l.valid && l.dirty then store[BlockNumber(g, l.tag, s) := l.data] else store
  }

  /** The block written when line l leaves set s. */
  function WriteOf(g: Config, l: Line, s: nat): seq<nat> {
    if l.valid && l.dirty then [BlockNumber(g, l.tag, s)] else []
  }

  function CountVictim(g: Config, t: Stats, l: Line, s: nat): Stats {
    if !l.valid then t
    else t.(replacements := t.replacements + 1, writebacks := t.writebacks + |WriteOf(g, l, s)|,
            written := t.written + WriteOf(g, l, s))
  }

  predicate Hit(g: Config, c: Cache, bn: nat)
    requires Legal(g) && |c.sets| == g.nsets
  {
    Find(c.sets[SetOf(g, bn)], TagOf(g, bn)).Found?
  }

  /** cache_access up to the prefetch: r is the draw used by random replacement. */
  function Lookaside(g: Config, c: Cache, q: Request, prefetch: bool, r: nat): Cache
    requires CacheOk(g, c) && Fits(g, q)
  {
    var s, tag := SetOf(g, q.bn), TagOf(g, q.bn);
    var w := c.sets[s];
    var i := Lookup(w, tag);
    if i < |w| then
      c.(sets := c.sets[s := HitWays(g, w, i, q)], stats := CountHit(c.stats, q.cmd, prefetch))
    else
      var v := Victim(g, w, r);
      var store := WrittenBack(g, c.store, w[v], s);
      StoreOk(g, c, w[v], s);
      Cache(c.sets[s := MissWays(g, w, v, tag, Block(g, store, q.bn), q)], store,
            CountVictim(g, CountMiss(c.stats, q.cmd, prefetch), w[v], s))
  }

  lemma {:induction false} StoreOk(g: Config, c: Cache, l: Line, s: nat)
    requires CacheOk(g, c) && |l.data| == if g.balloc then g.bsize else 0
    ensures forall bn :: bn in WrittenBack(g, c.store, l, s) ==>
              |WrittenBack(g, c.store, l, s)[bn]| == if g.balloc then g.bsize else 0
  {
  }

  /** The bytes a read copies out of the block it hit or filled. */
  function Output(g: Config, c: Cache, q: Request): seq<Byte>
    requires CacheOk(g, c) && Fits(g, q)
  {
    if q.cmd == Write || !g.balloc then [] else Logical(g, c, q.bn)[q.ofs..q.ofs + q.n]
  }

  /** Block bn as the program sees it: the cached copy if there is one. */
  function Logical(g: Config, c: Cache, bn: nat): (d: seq<Byte>)
    requires CacheOk(g, c)
    ensures |d| == if g.balloc then g.bsize else 0
  {
    match Find(c.sets[SetOf(g, bn)], TagOf(g, bn))
    case Found(l) => l.data
    case Absent => Block(g, c.store, bn)
  }

  // ----- prefetching

  function Bring(g: Config, c: Cache, bn: nat, r: nat): Cache
    requires CacheOk(g, c)
  {
    if Hit(g, c, bn) then c else Lookaside(g, c, Request(Read, bn, 0, g.bsize, []), true, r)
  }

  /** The block the next-line prefetcher asks for, with 32-bit wrap-around. */
  function NextBlock(g: Config, bn: nat): nat
    requires Legal(g)
  {
    (bn * g.bsize + g.bsize) % ADDRESS_SPACE / g.bsize
  }

  // ----- flushing

  function Invalidated(l: Line): Line {
    l.(valid := false)
  }

  function FlushWays(w: Ways): (f: Ways)
    ensures |f| == |w|
    ensures forall i :: 0 <= i < |w| ==> f[i] == Invalidated(w[i])
  {
    seq(|w|, i requires 0 <= i < |w| => Invalidated(w[i]))
  }

  /** Writes back the dirty lines of a set from the head on. */
  function FlushStore(g: Config, store: map<nat, seq<Byte>>, w: Ways, s: nat): map<nat, seq<Byte>>
  {
    if w == [] then store
    else WrittenBack(g, FlushStore(g, store, w[..|w| - 1], s), w[|w| - 1], s)
  }

  function CountFlushed(g: Config, t: Stats, l: Line, s: nat): Stats {
    if !l.valid then t
    else t.(invalidations := t.invalidations + 1, writebacks := t.writebacks + |WriteOf(g, l, s)|,
            written := t.written + WriteOf(g, l, s))
  }

  function CountFlush(g: Config, t: Stats, w: Ways, s: nat): Stats {
    if w == [] then t else CountFlushed(g, CountFlush(g, t, w[..|w| - 1], s), w[|w| - 1], s)
  }

  /** The cache with set s flushed. */
  function FlushedSet(g: Config, f: Cache, s: nat): Cache
    requires s < |f.sets|
  {
    var w := f.sets[s];
    Cache(f.sets[s := FlushWays(w)], FlushStore(g, f.store, w, s), CountFlush(g, f.stats, w, s))
  }

  function FlushSets(g: Config, c: Cache, n: nat): (f: Cache)
    requires n <= |c.sets|
    ensures |f.sets| == |c.sets|
    ensures forall s :: 0 <= s < |c.sets| ==> f.sets[s] == if s < n then FlushWays(c.sets[s]) else c.sets[s]
  {
    if n == 0 then c else FlushedSet(g, FlushSets(g, c, n - 1), n - 1)
  }

  /** cache_flush */
  function Flush(g: Config, c: Cache): Cache {
    FlushSets(g, c, |c.sets|)
  }

  /** The ways with line i taken out and l put at the tail. */
  function ToTail(w: Ways, i: nat, l: Line): (f: Ways)
    requires i < |w|
    ensures |f| == |w|
    ensures forall k :: 0 <= k < |w| ==> f[k] == if k < i then w[k] else if k < |w| - 1 then w[k + 1] else l
  {
    w[..i] + w[i + 1..] + [l]
  }

  /** cache_flush_addr: the block leaves and its slot goes to the tail. */
  function FlushBlock(g: Config, c: Cache, bn: nat): Cache
    requires CacheOk(g, c)
  {
    var s := SetOf(g, bn);
    var w := c.sets[s];
    var i := Lookup(w, TagOf(g, bn));
    if i == |w| then c
    else
      Cache(c.sets[s := ToTail(w, i, Invalidated(w[i]))], WrittenBack(g, c.store, w[i], s),
            CountFlushed(g, c.stats, w[i], s))
  }

  // ----- the initial cache

  function EmptyLine(g: Config, blk: nat): Line {
    Line(blk, 0, false, false, Zeros(if g.balloc then g.bsize else 0))
  }

  /** cache_create inserts each new block at the head of its way list. */
  function EmptyWays(g: Config): (w: Ways)
    ensures |w| == g.assoc
    ensures forall i :: 0 <= i < g.assoc ==> w[i] == EmptyLine(g, g.assoc - 1 - i)
  {
    seq(g.assoc, i requires 0 <= i < g.assoc => EmptyLine(g, g.assoc - 1 - i))
  }

  const NO_STATS := Stats(0, 0, 0, 0, 0, 0, 0, 0, 0, [])

  function Empty(g: Config, store: map<nat, seq<Byte>>): Cache {
    Cache(seq(g.nsets, _ => EmptyWays(g)), store, NO_STATS)
  }
}
