/** What the move-to-front buckets of memory.c come to over a run: which pages exist, the order in which a bucket
    lists them, and how many lookups succeed at its head. Pages are told by number, address divided by 4096. */
module PageRecency {
  import opened Arithmetic
  import opened FlatMemory
  import opened MemoryModel
  import opened MemoryTheorems

  // ----- the tags of a bucket

  function Tags(b: Bucket): (ts: seq<nat>)
    ensures |ts| == |b| && forall i :: 0 <= i < |b| ==> ts[i] == b[i].tag
  {
    seq(|b|, i requires 0 <= i < |b| => b[i].tag)
  }

  function Removed(ts: seq<nat>, t: nat): seq<nat> {
    if ts == [] then [] else (if ts[0] == t then [] else [ts[0]]) + Removed(ts[1..], t)
  }

  /** t first, then the others in their order. */
  function Bumped(ts: seq<nat>, t: nat): seq<nat> {
    [t] + Removed(ts, t)
  }

  lemma {:induction false} RemovedAbsent(ts: seq<nat>, t: nat)
    requires t !in ts
    ensures Removed(ts, t) == ts
  {
    if ts != [] {
      RemovedAbsent(ts[1..], t);
      assert ts == [ts[0]] + ts[1..];
    }
  }

  lemma {:induction false} RemovedMembers(ts: seq<nat>, t: nat, x: nat)
    ensures x in Removed(ts, t) <==> x != t && x in ts
  {
    if ts != [] { RemovedMembers(ts[1..], t, x); }
  }

  lemma {:induction false} RemovedNone(t: nat)
    ensures Removed([], t) == []
  {
  }

  lemma {:induction false} RemovedStep(ts: seq<nat>, t: nat)
    requires ts != []
    ensures Removed(ts, t) == (if ts[0] == t then [] else [ts[0]]) + Removed(ts[1..], t)
  {
  }

  lemma {:induction false} Regrouped(a: seq<nat>, b: seq<nat>, c: seq<nat>)
    ensures a + (b + c) == a + b + c
  {
  }

  lemma {:induction false} RemovedConcat(a: seq<nat>, b: seq<nat>, t: nat)
    ensures Removed(a + b, t) == Removed(a, t) + Removed(b, t)
  {
    hide Removed;
    if a == [] {
      RemovedNone(t);
      assert a + b == b;
    } else {
      RemovedConcat(a[1..], b, t);
      RemovedStep(a, t);
      RemovedStep(a + b, t);
      assert (a + b)[1..] == a[1..] + b;
      Regrouped(if a[0] == t then [] else [a[0]], Removed(a[1..], t), Removed(b, t));
    }
  }

  lemma {:induction false} RemovedHead(ts: seq<nat>, t: nat)
    ensures Removed([t] + ts, t) == Removed(ts, t)
  {
    assert ([t] + ts)[1..] == ts;
  }

  lemma {:induction false} BumpedTwice(ts: seq<nat>, t: nat)
    ensures Bumped(Bumped(ts, t), t) == Bumped(ts, t)
  {
    hide Removed;
    RemovedMembers(ts, t, t);
    RemovedAbsent(Removed(ts, t), t);
    RemovedHead(Removed(ts, t), t);
  }

  /** Taking the one occurrence out. */
  lemma {:induction false} BumpedAt(ts: seq<nat>, i: nat)
    requires i < |ts| && forall j :: 0 <= j < |ts| && j != i ==> ts[j] != ts[i]
    ensures Bumped(ts, ts[i]) == [ts[i]] + ts[..i] + ts[i + 1..]
  {
    hide Removed;
    var t := ts[i];
    assert ts == ts[..i] + ([t] + ts[i + 1..]);
    RemovedConcat(ts[..i], [t] + ts[i + 1..], t);
    RemovedHead(ts[i + 1..], t);
    RemovedAbsent(ts[..i], t);
    RemovedAbsent(ts[i + 1..], t);
  }

  // ----- one lookup

  /** The page of a is the first of its bucket. */
  predicate AtHead(t: Table, a: nat)
    requires |t| == BUCKETS
  {
    t[SetOf(a)] != [] && t[SetOf(a)][0].tag == TagOf(a)
  }

  /** From t to t' one page was bumped to the head of its bucket, entering it if it was not there. */
  ghost predicate BumpedIn(t: Table, t': Table, a: nat) {
    && |t| == |t'| == BUCKETS
    && (forall s :: 0 <= s < BUCKETS && s != SetOf(a) ==> Tags(t'[s]) == Tags(t[s]))
    && Tags(t'[SetOf(a)]) == Bumped(Tags(t[SetOf(a)]), TagOf(a))
  }

  lemma {:induction false} BumpedHead(t: Table, t': Table, a: nat)
    requires BumpedIn(t, t', a)
    ensures AtHead(t', a)
  {
    assert Tags(t'[SetOf(a)])[0] == TagOf(a);
  }

  lemma {:induction false} BumpedChain(t1: Table, t2: Table, t3: Table, a: nat, b: nat)
    requires BumpedIn(t1, t2, a) && BumpedIn(t2, t3, b) && SetOf(a) == SetOf(b) && TagOf(a) == TagOf(b)
    ensures BumpedIn(t1, t3, a)
  {
    hide Tags;
    hide SetOf;
    hide TagOf;
    hide Bumped;
    BumpedTwice(Tags(t1[SetOf(a)]), TagOf(a));
  }

  lemma {:induction false} FrontTags(b: Bucket, i: nat)
    requires i < |b|
    ensures Tags(ToFront(b, i)) == [Tags(b)[i]] + Tags(b)[..i] + Tags(b)[i + 1..]
  {
  }

  lemma {:induction false} BumpedByFront(b: Bucket, i: nat)
    requires BucketOk(b) && i < |b|
    ensures Tags(ToFront(b, i)) == Bumped(Tags(b), b[i].tag)
  {
    hide Bumped;
    hide ToFront;
    hide Tags;
    FrontTags(b, i);
    BumpedAt(Tags(b), i);
  }

  lemma {:induction false} HeadIndex(b: Bucket, tag: nat)
    ensures b != [] && b[0].tag == tag <==> Index(b, tag) == 0 && b != []
  {
  }

  lemma {:induction false} FrontItself(b: Bucket)
    requires b != []
    ensures ToFront(b, 0) == b
  {
  }

  /** A lookup counts itself, and a miss unless the page is at the head; it bumps the page, if there is one. */
  lemma {:induction false} LookupCounts(m: Mem, a: nat)
    requires MemOk(m)
    ensures var m' := Locate(m, a);
            && m'.accesses == m.accesses + 1 && m'.misses == m.misses + (if AtHead(m.table, a) then 0 else 1)
            && m'.pageCount == m.pageCount
            && (if Mapped(m.table, a) then BumpedIn(m.table, m'.table, a) else m'.table == m.table)
  {
    hide Entries;
    hide SetOf;
    hide TagOf;
    hide ToFront;
    hide Tags;
    hide Bumped;
    var b := m.table[SetOf(a)];
    var i := Index(b, TagOf(a));
    HeadIndex(b, TagOf(a));
    if i < |b| {
      BumpedByFront(b, i);
      if i == 0 { FrontItself(b); }
    }
  }

  lemma {:induction false} HeadMapped(t: Table, a: nat)
    requires |t| == BUCKETS && AtHead(t, a)
    ensures Mapped(t, a)
  {
    HeadIndex(t[SetOf(a)], TagOf(a));
  }

  // ----- one byte

  /** n bytes were looked up twice each, with at most the first of these lookups a miss, and the page bumped. */
  ghost predicate Looked(m: Mem, m': Mem, a: nat, n: nat)
    requires |m.table| == BUCKETS
  {
    && m'.accesses == m.accesses + 2 * n
    && m'.misses == m.misses + (if AtHead(m.table, a) then 0 else 1)
    && BumpedIn(m.table, m'.table, a)
  }

  lemma {:induction false} ReadLooks(m: Mem, a: nat)
    requires |m.table| == BUCKETS && MemOk(m) && Mapped(m.table, a)
    ensures Looked(m, AfterRead(m, a), a, 1)
  {
    hide MemOk;
    hide Locate;
    hide Mapped;
    hide BumpedIn;
    hide AtHead;
    var m1 := Locate(m, a);
    LocateOk(m, a);
    LookupCounts(m, a);
    BumpedHead(m.table, m1.table, a);
    HeadMapped(m1.table, a);
    LookupCounts(m1, a);
    BumpedChain(m.table, m1.table, Locate(m1, a).table, a, a);
  }

  lemma {:induction false} FreshBumps(m: Mem, a: nat)
    requires |m.table| == BUCKETS && !Mapped(m.table, a)
    ensures BumpedIn(m.table, NewPage(m, a).table, a)
  {
    hide SetOf;
    hide TagOf;
    hide Zeros;
    var b := m.table[SetOf(a)];
    forall i | 0 <= i < |b| ensures b[i].tag != TagOf(a) { }
    RemovedAbsent(Tags(b), TagOf(a));
    hide Removed;
    assert Tags([Pte(TagOf(a), Zeros(PAGE_SIZE))] + b) == [TagOf(a)] + Tags(b);
  }

  lemma {:induction false} PokeTags(b: Bucket, o: nat, v: Byte)
    ensures Tags(Poke(b, o, v)) == Tags(b)
  {
  }

  lemma {:induction false} PokeBumps(t: Table, t1: Table, a: nat, v: Byte)
    requires BumpedIn(t, t1, a)
    ensures BumpedIn(t, t1[SetOf(a) := Poke(t1[SetOf(a)], OffsetOf(a), v)], a)
  {
    hide Tags;
    hide Bumped;
    hide Poke;
    hide SetOf;
    hide TagOf;
    hide OffsetOf;
    PokeTags(t1[SetOf(a)], OffsetOf(a), v);
  }

  lemma {:induction false} MemSize(m: Mem)
    requires MemOk(m)
    ensures |m.table| == BUCKETS
  {
  }

  /** The tickle of a write: one lookup, and the page is at the head afterwards. */
  lemma {:induction false} TickleLooks(m: Mem, a: nat)
    requires |m.table| == BUCKETS && MemOk(m) && a < ADDRESS_SPACE
    ensures var m' := Tickled(m, a);
            && |m'.table| == BUCKETS && MemOk(m') && m'.accesses == m.accesses + 1 && BumpedIn(m.table, m'.table, a)
            && m'.misses == m.misses + (if AtHead(m.table, a) then 0 else 1)
  {
    hide MemOk;
    hide Locate;
    hide Mapped;
    hide BumpedIn;
    hide AtHead;
    hide NewPage;
    TickledOk(m, a);
    MemSize(Tickled(m, a));
    LookupCounts(m, a);
    if !Mapped(m.table, a) {
      FreshBumps(Locate(m, a), a);
      NewPageCounts(Locate(m, a), a);
    }
  }

  lemma {:induction false} NewPageCounts(m: Mem, a: nat)
    requires |m.table| == BUCKETS
    ensures NewPage(m, a).accesses == m.accesses && NewPage(m, a).misses == m.misses
  {
  }

  lemma {:induction false} WriteLooks(m: Mem, a: nat, v: Byte)
    requires |m.table| == BUCKETS && MemOk(m) && a < ADDRESS_SPACE
    ensures Looked(m, AfterWrite(m, a, v), a, 1)
  {
    hide MemOk;
    hide Locate;
    hide Tickled;
    hide BumpedIn;
    hide AtHead;
    hide Poke;
    hide SetOf;
    hide OffsetOf;
    var m1 := Tickled(m, a);
    TickleLooks(m, a);
    var m2 := Locate(m1, a);
    BumpedHead(m.table, m1.table, a);
    HeadMapped(m1.table, a);
    LookupCounts(m1, a);
    BumpedChain(m.table, m1.table, m2.table, a, a);
    PokeBumps(m.table, m2.table, a, v);
  }

  // ----- one access

  /** Bytes of one page have one set and one tag. */
  predicate OnePage(a: nat, b: nat) {
    SetOf(a) == SetOf(b) && TagOf(a) == TagOf(b)
  }

  lemma {:induction false} SamePage(a: nat, b: nat)
    requires a / PAGE_SIZE == b / PAGE_SIZE
    ensures OnePage(a, b)
  {
    TagOfPage(a);
    TagOfPage(b);
  }

  lemma {:induction false} TagOfPage(a: nat)
    ensures TagOf(a) == a / 4096 / 32768 && SetOf(a) == a / 4096 % 32768
  {
    var p := a / 4096;
    DivModUnique(a, PAGE_SIZE * BUCKETS, p / 32768, p % 32768 * 4096 + a % 4096);
  }

  /** The same one byte later. */
  lemma {:induction false} LookedStep(m: Mem, m1: Mem, m2: Mem, a: nat, b: nat, n: nat)
    requires |m.table| == |m1.table| == BUCKETS && Looked(m, m1, a, n) && Looked(m1, m2, b, 1) && OnePage(a, b)
    ensures Looked(m, m2, a, n + 1)
  {
    hide BumpedIn;
    BumpedHead(m.table, m1.table, a);
    BumpedChain(m.table, m1.table, m2.table, a, b);
  }

  lemma {:induction false} MappedElsewhere(t: Table, a: nat, b: nat)
    requires |t| == BUCKETS && OnePage(a, b)
    ensures Mapped(t, a) <==> Mapped(t, b)
  {
    hide SetOf;
    hide TagOf;
  }

  lemma {:induction false} ReadNone(m: Mem, a: nat)
    requires |m.table| == BUCKETS
    ensures ReadBytes(m, a, 0) == m
  {
  }

  lemma {:induction false} ReadBytesLook(m: Mem, a: nat, n: nat)
    requires |m.table| == BUCKETS && MemOk(m) && Mapped(m.table, a) && n > 0 && a / PAGE_SIZE == (a + n - 1) / PAGE_SIZE
    ensures Looked(m, ReadBytes(m, a, n), a, n)
  {
    hide MemOk;
    hide Mapped;
    hide Looked;
    hide AfterRead;
    hide Load;
    hide OnePage;
    if n == 1 {
      ReadNone(m, a);
      ReadLooks(m, a);
    } else {
      PageBetween(a, n);
      var m1 := ReadBytes(m, a, n - 1);
      var b := a + n - 1;
      ReadBytesLook(m, a, n - 1);
      ReadBytesOk(m, a, n - 1);
      SamePage(a, b);
      MappedElsewhere(m1.table, a, b);
      ReadLooks(m1, b);
      LookedStep(m, m1, AfterRead(m1, b), a, b, n - 1);
    }
  }

  lemma {:induction false} PageBetween(a: nat, n: nat)
    requires n > 1 && a / PAGE_SIZE == (a + n - 1) / PAGE_SIZE
    ensures a / PAGE_SIZE == (a + n - 2) / PAGE_SIZE
  {
  }

  lemma {:induction false} ReadInVain(m: Mem, a: nat)
    requires |m.table| == BUCKETS && MemOk(m) && !Mapped(m.table, a)
    ensures AfterRead(m, a) == m.(accesses := m.accesses + 1, misses := m.misses + 1)
  {
    hide MemOk;
    hide Mapped;
    hide Locate;
    hide AtHead;
    LookupCounts(m, a);
    if AtHead(m.table, a) { HeadMapped(m.table, a); }
  }

  lemma {:induction false} SameOk(m: Mem, n: nat)
    requires MemOk(m)
    ensures MemOk(m.(accesses := m.accesses + n, misses := m.misses + n))
  {
  }

  /** Bytes of a page that does not exist are looked up once each, in vain. */
  lemma {:induction false} ReadNowhere(m: Mem, a: nat, n: nat)
    requires |m.table| == BUCKETS && MemOk(m) && !Mapped(m.table, a)
    requires n > 0 ==> a / PAGE_SIZE == (a + n - 1) / PAGE_SIZE
    ensures ReadBytes(m, a, n) == m.(accesses := m.accesses + n, misses := m.misses + n)
  {
    hide MemOk;
    hide Mapped;
    hide AfterRead;
    hide OnePage;
    if n > 0 {
      if n > 1 { PageBetween(a, n); }
      ReadNowhere(m, a, n - 1);
      SameOk(m, n - 1);
      SamePage(a, a + n - 1);
      MappedElsewhere(m.table, a, a + n - 1);
      ReadInVain(ReadBytes(m, a, n - 1), a + n - 1);
    }
  }

  lemma {:induction false} WriteNone(m: Mem, a: nat)
    requires |m.table| == BUCKETS
    ensures WriteBytes(m, a, []) == m
  {
  }

  lemma {:induction false} WriteBytesLook(m: Mem, a: nat, bytes: seq<Byte>)
    requires |m.table| == BUCKETS && MemOk(m) && bytes != [] && a + |bytes| <= ADDRESS_SPACE
    requires a / PAGE_SIZE == (a + |bytes| - 1) / PAGE_SIZE
    ensures Looked(m, WriteBytes(m, a, bytes), a, |bytes|)
  {
    hide MemOk;
    hide Looked;
    hide AfterWrite;
    hide Written;
    hide OnePage;
    var n := |bytes| - 1;
    if n == 0 {
      WriteNone(m, a);
      assert bytes[..0] == [];
      WriteLooks(m, a, bytes[0]);
    } else {
      PageBetween(a, n + 1);
      var m1 := WriteBytes(m, a, bytes[..n]);
      WriteBytesLook(m, a, bytes[..n]);
      WriteBytesOk(m, a, bytes[..n]);
      SamePage(a, a + n);
      WriteLooks(m1, a + n, bytes[n]);
      LookedStep(m, m1, AfterWrite(m1, a + n, bytes[n]), a, a + n, n);
    }
  }

  lemma {:induction false} AtHeadElsewhere(t: Table, t': Table, a: nat, b: nat)
    requires BumpedIn(t, t', a) && OnePage(a, b)
    ensures Mapped(t', b)
  {
    hide SetOf;
    hide TagOf;
    BumpedHead(t, t', a);
    HeadMapped(t', b);
  }

  /** A write adds a page exactly when its page does not exist. */
  lemma {:induction false} WriteBytesPages(m: Mem, a: nat, bytes: seq<Byte>)
    requires |m.table| == BUCKETS && MemOk(m) && bytes != [] && a + |bytes| <= ADDRESS_SPACE
    requires a / PAGE_SIZE == (a + |bytes| - 1) / PAGE_SIZE
    ensures WriteBytes(m, a, bytes).pageCount == m.pageCount + if Mapped(m.table, a) then 0 else 1
  {
    hide MemOk;
    hide Mapped;
    hide BumpedIn;
    hide AfterWrite;
    hide Written;
    hide OnePage;
    hide Load;
    var n := |bytes| - 1;
    if n == 0 {
      WriteNone(m, a);
      assert bytes[..0] == [];
      WriteOk(m, a, bytes[0]);
    } else {
      PageBetween(a, n + 1);
      var m1 := WriteBytes(m, a, bytes[..n]);
      WriteBytesPages(m, a, bytes[..n]);
      WriteBytesLook(m, a, bytes[..n]);
      WriteBytesOk(m, a, bytes[..n]);
      SamePage(a, a + n);
      AtHeadElsewhere(m.table, m1.table, a, a + n);
      WriteOk(m1, a + n, bytes[n]);
    }
  }

  // ----- a run

  /** The access is carried out, and inside page p. */
  predicate Reaches(x: Access, p: nat) {
    Size(x) > 0 && 4096 % Size(x) == 0 && x.addr % Size(x) == 0 && x.addr / 4096 == p
  }

  /** The pages written by a run. */
  function WrittenPages(xs: seq<Access>): set<nat> {
    if xs == [] then {}
    else
      var x := xs[|xs| - 1];
      WrittenPages(xs[..|xs| - 1]) + if x.Write? && Reaches(x, x.addr / 4096) then {x.addr / 4096} else {}
  }

  /** When page p was last read or written: the number of accesses until then, 0 for never. */
  function LastUse(xs: seq<Access>, p: nat): (n: nat)
    ensures n <= |xs|
  {
    if xs == [] then 0 else if Reaches(xs[|xs| - 1], p) then |xs| else LastUse(xs[..|xs| - 1], p)
  }

  /** The page with this tag in bucket s. */
  function PageOf(tag: nat, s: nat): nat {
    tag * 32768 + s
  }

  lemma {:induction false} PageOfParts(tag: nat, s: nat)
    requires s < 32768
    ensures PageOf(tag, s) / 32768 == tag && PageOf(tag, s) % 32768 == s
  {
    DivModUnique(PageOf(tag, s), 32768, tag, s);
  }

  lemma {:induction false} PageOfAddress(a: nat)
    ensures PageOf(TagOf(a), SetOf(a)) == a / 4096
  {
    TagOfPage(a);
  }

  /** The tags of bucket s are those of the written pages, in the order of their last use, latest first. */
  ghost predicate Recent(ts: seq<nat>, xs: seq<Access>, s: nat) {
    && (forall t: nat :: t in ts <==> PageOf(t, s) in WrittenPages(xs))
    && (forall i, j :: 0 <= i < j < |ts| ==> LastUse(xs, PageOf(ts[i], s)) > LastUse(xs, PageOf(ts[j], s)))
  }

  lemma {:induction false} RemovedOrder(ts: seq<nat>, xs: seq<Access>, s: nat, t: nat)
    requires forall i, j :: 0 <= i < j < |ts| ==> LastUse(xs, PageOf(ts[i], s)) > LastUse(xs, PageOf(ts[j], s))
    ensures var r := Removed(ts, t);
            forall i, j :: 0 <= i < j < |r| ==> LastUse(xs, PageOf(r[i], s)) > LastUse(xs, PageOf(r[j], s))
  {
    hide LastUse;
    hide PageOf;
    if ts != [] {
      var r := Removed(ts[1..], t);
      RemovedOrder(ts[1..], xs, s, t);
      forall j | 0 <= j < |r| ensures LastUse(xs, PageOf(ts[0], s)) > LastUse(xs, PageOf(r[j], s)) {
        RemovedMembers(ts[1..], t, r[j]);
        var k :| 0 <= k < |ts[1..]| && ts[1..][k] == r[j];
        assert ts[k + 1] == r[j];
      }
    }
  }

  lemma {:induction false} UseStep(xs: seq<Access>, x: Access, p: nat)
    ensures LastUse(xs + [x], p) == if Reaches(x, p) then |xs| + 1 else LastUse(xs, p)
    ensures WrittenPages(xs + [x]) ==
            WrittenPages(xs) + if x.Write? && Reaches(x, x.addr / 4096) then {x.addr / 4096} else {}
  {
    assert (xs + [x])[..|xs|] == xs;
  }

  /** The bucket of the page that was reached. */
  lemma {:induction false} BumpedRecent(ts: seq<nat>, xs: seq<Access>, x: Access, t: nat, s: nat)
    requires Recent(ts, xs, s) && s < 32768 && Reaches(x, PageOf(t, s)) && (x.Write? || t in ts)
    ensures Recent(Bumped(ts, t), xs + [x], s)
  {
    hide LastUse;
    hide WrittenPages;
    hide Removed;
    var p := PageOf(t, s);
    var r := Removed(ts, t);
    RemovedOrder(ts, xs, s, t);
    hide PageOf;
    forall u: nat ensures u in Bumped(ts, t) <==> PageOf(u, s) in WrittenPages(xs + [x]) {
      RemovedMembers(ts, t, u);
      PageOfParts(u, s);
      PageOfParts(t, s);
      UseStep(xs, x, p);
    }
    forall k | 0 <= k < |r|
      ensures LastUse(xs + [x], PageOf(r[k], s)) == LastUse(xs, PageOf(r[k], s)) < LastUse(xs + [x], p)
    {
      RemovedMembers(ts, t, r[k]);
      PageOfParts(r[k], s);
      PageOfParts(t, s);
      UseStep(xs, x, PageOf(r[k], s));
      UseStep(xs, x, p);
    }
  }

  /** Any other bucket. */
  lemma {:induction false} OtherRecent(ts: seq<nat>, xs: seq<Access>, x: Access, s: nat)
    requires Recent(ts, xs, s) && s < 32768
    requires Reaches(x, x.addr / 4096) ==> x.addr / 4096 % 32768 != s || (x.Read? && x.addr / 4096 / 32768 !in ts)
    ensures Recent(ts, xs + [x], s)
  {
    hide LastUse;
    hide WrittenPages;
    forall u: nat ensures u in ts <==> PageOf(u, s) in WrittenPages(xs + [x]) {
      PageOfParts(u, s);
      UseStep(xs, x, PageOf(u, s));
    }
    forall u: nat | u in ts ensures LastUse(xs + [x], PageOf(u, s)) == LastUse(xs, PageOf(u, s)) {
      PageOfParts(u, s);
      UseStep(xs, x, PageOf(u, s));
    }
  }

  /** An access that reaches a page stays in it. */
  lemma {:induction false} ReachedPage(x: Access)
    requires Reaches(x, x.addr / 4096) && x.addr < ADDRESS_SPACE
    ensures Check(x.addr, Size(x)) == NoFault && x.addr + Size(x) <= ADDRESS_SPACE
    ensures x.addr / PAGE_SIZE == (x.addr + Size(x) - 1) / PAGE_SIZE
  {
    hide Check;
    CheckByDivision(x.addr, Size(x));
    WithinPage(x.addr, Size(x));
  }

  lemma {:induction false} NotReached(m: Mem, x: Access)
    requires |m.table| == BUCKETS && !Reaches(x, x.addr / 4096)
    ensures After(m, x) == m
  {
    hide Check;
    CheckByDivision(x.addr, Size(x));
    ReadNone(m, x.addr);
    WriteNone(m, x.addr);
  }

  /** The tables, tags and counters after one access. */
  lemma {:induction false} AccessLooks(m: Mem, x: Access)
    requires |m.table| == BUCKETS && MemOk(m) && x.addr < ADDRESS_SPACE && Reaches(x, x.addr / 4096)
    ensures var m', n := After(m, x), Size(x);
            if x.Read? && !Mapped(m.table, x.addr) then m' == m.(accesses := m.accesses + n, misses := m.misses + n)
            else Looked(m, m', x.addr, n) && m'.pageCount == m.pageCount + if Mapped(m.table, x.addr) then 0 else 1
  {
    hide MemOk;
    hide Mapped;
    hide Looked;
    hide Check;
    hide ReadBytes;
    hide WriteBytes;
    ReachedPage(x);
    if x.Write? {
      WriteBytesLook(m, x.addr, x.bytes);
      WriteBytesPages(m, x.addr, x.bytes);
    } else if Mapped(m.table, x.addr) {
      ReadBytesLook(m, x.addr, |x.buf|);
      ReadBytesOk(m, x.addr, |x.buf|);
    } else {
      ReadNowhere(m, x.addr, |x.buf|);
    }
  }

  /** What holds of the memory after the run xs. */
  ghost predicate Kept(m: Mem, xs: seq<Access>) {
    && |m.table| == BUCKETS && MemOk(m) && m.pageCount == |WrittenPages(xs)|
    && forall s :: 0 <= s < BUCKETS ==> Recent(Tags(m.table[s]), xs, s)
  }

  lemma {:induction false} MappedIs(t: Table, a: nat)
    requires |t| == BUCKETS
    ensures Mapped(t, a) <==> TagOf(a) in Tags(t[SetOf(a)])
  {
    hide SetOf;
    hide TagOf;
    var b, tag := t[SetOf(a)], TagOf(a);
    var k := Index(b, tag);
    assert k < |b| ==> Tags(b)[k] == tag;
  }

  /** A page exists exactly when it has been written. */
  lemma {:induction false} MappedWritten(m: Mem, xs: seq<Access>, a: nat)
    requires Kept(m, xs)
    ensures Mapped(m.table, a) <==> a / 4096 in WrittenPages(xs)
  {
    hide MemOk;
    hide Tags;
    hide Mapped;
    hide SetOf;
    hide TagOf;
    hide WrittenPages;
    hide PageOf;
    hide LastUse;
    MappedIs(m.table, a);
    PageOfAddress(a);
    assert Recent(Tags(m.table[SetOf(a)]), xs, SetOf(a));
  }

  lemma {:induction false} KeptBucket(m: Mem, m': Mem, xs: seq<Access>, x: Access, s: nat)
    requires Kept(m, xs) && s < BUCKETS && Reaches(x, x.addr / 4096)
    requires BumpedIn(m.table, m'.table, x.addr) && (x.Write? || TagOf(x.addr) in Tags(m.table[SetOf(x.addr)]))
    ensures Recent(Tags(m'.table[s]), xs + [x], s)
  {
    hide MemOk;
    hide Tags;
    hide Bumped;
    hide Recent;
    hide Reaches;
    hide PageOf;
    hide SetOf;
    hide TagOf;
    PageOfAddress(x.addr);
    TagOfPage(x.addr);
    if s == SetOf(x.addr) {
      BumpedRecent(Tags(m.table[s]), xs, x, TagOf(x.addr), s);
    } else {
      OtherRecent(Tags(m.table[s]), xs, x, s);
    }
  }

  lemma {:induction false} KeptUnmapped(m: Mem, m': Mem, xs: seq<Access>, x: Access, s: nat)
    requires Kept(m, xs) && s < BUCKETS && m'.table == m.table
    requires Reaches(x, x.addr / 4096) ==> x.Read? && TagOf(x.addr) !in Tags(m.table[SetOf(x.addr)])
    ensures Recent(Tags(m'.table[s]), xs + [x], s)
  {
    hide MemOk;
    hide Tags;
    hide Recent;
    hide Reaches;
    TagOfPage(x.addr);
    hide SetOf;
    hide TagOf;
    OtherRecent(Tags(m.table[s]), xs, x, s);
  }

  lemma {:induction false} WrittenCount(xs: seq<Access>, x: Access)
    ensures var p, w := x.addr / 4096, WrittenPages(xs);
            |WrittenPages(xs + [x])| == |w| + if x.Write? && Reaches(x, p) && p !in w then 1 else 0
  {
    hide WrittenPages;
    hide Reaches;
    UseStep(xs, x, 0);
    var p, w := x.addr / 4096, WrittenPages(xs);
    assert w + {} == w;
    assert p in w ==> w + {p} == w;
  }

  lemma {:induction false} KeptCount(m: Mem, xs: seq<Access>, x: Access)
    requires Kept(m, xs) && x.addr < ADDRESS_SPACE && MemOk(After(m, x))
    ensures After(m, x).pageCount == |WrittenPages(xs + [x])|
  {
    hide MemOk;
    hide Mapped;
    hide Recent;
    hide Reaches;
    hide After;
    hide BumpedIn;
    hide WrittenPages;
    WrittenCount(xs, x);
    MappedWritten(m, xs, x.addr);
    if Reaches(x, x.addr / 4096) {
      AccessLooks(m, x);
    } else {
      NotReached(m, x);
    }
  }

  lemma {:induction false} KeptStep(m: Mem, xs: seq<Access>, x: Access)
    requires Kept(m, xs) && x.addr < ADDRESS_SPACE && MemOk(After(m, x))
    ensures Kept(After(m, x), xs + [x])
  {
    hide MemOk;
    hide Tags;
    hide Mapped;
    hide Recent;
    hide Reaches;
    hide After;
    hide BumpedIn;
    hide WrittenPages;
    var m' := After(m, x);
    MemSize(m');
    KeptCount(m, xs, x);
    MappedWritten(m, xs, x.addr);
    MappedIs(m.table, x.addr);
    var bumped := Reaches(x, x.addr / 4096) && (x.Write? || Mapped(m.table, x.addr));
    if Reaches(x, x.addr / 4096) { AccessLooks(m, x); } else { NotReached(m, x); }
    forall s | 0 <= s < BUCKETS ensures Recent(Tags(m'.table[s]), xs + [x], s) {
      if bumped { KeptBucket(m, m', xs, x, s); } else { KeptUnmapped(m, m', xs, x, s); }
    }
  }

  lemma {:induction false} KeptNone()
    ensures Kept(Empty(), [])
  {
    EmptyOk();
  }

  lemma {:induction false} KeptRun(xs: seq<Access>)
    requires forall i :: 0 <= i < |xs| ==> xs[i].addr < ADDRESS_SPACE
    ensures Kept(Run(Empty(), xs), xs)
  {
    hide MemOk;
    hide Kept;
    hide Agree;
    hide After;
    hide FlatAfter;
    hide Empty;
    if xs == [] {
      KeptNone();
    } else {
      var n := |xs| - 1;
      KeptRun(xs[..n]);
      EmptyOk();
      RunRefines(Empty(), map[], xs);
      KeptStep(Run(Empty(), xs[..n]), xs[..n], xs[n]);
      assert xs[..n] + [xs[n]] == xs;
    }
  }

  lemma {:induction false} PageOfNumber(q: nat, s: nat)
    requires q % 32768 == s
    ensures PageOf(q / 32768, s) == q
  {
  }

  /** Bucket s has an entry for every page written, in the order of their last use, the latest first, and no other. */
  ghost predicate Lists(b: Bucket, s: nat, xs: seq<Access>) {
    && (forall i :: 0 <= i < |b| ==> b[i].tag * 32768 + s in WrittenPages(xs))
    && (forall p :: p in WrittenPages(xs) && p % 32768 == s ==> exists i :: 0 <= i < |b| && b[i].tag == p / 32768)
    && (forall i, j :: 0 <= i < j < |b| ==> LastUse(xs, b[i].tag * 32768 + s) > LastUse(xs, b[j].tag * 32768 + s))
  }

  lemma {:induction false} RecentPair(b: Bucket, s: nat, xs: seq<Access>, i: nat, j: nat)
    requires Recent(Tags(b), xs, s) && i < j < |b|
    ensures LastUse(xs, b[i].tag * 32768 + s) > LastUse(xs, b[j].tag * 32768 + s)
  {
    hide WrittenPages;
    hide LastUse;
    assert LastUse(xs, PageOf(Tags(b)[i], s)) > LastUse(xs, PageOf(Tags(b)[j], s));
  }

  lemma {:induction false} RecentPage(b: Bucket, s: nat, xs: seq<Access>, p: nat) returns (i: nat)
    requires Recent(Tags(b), xs, s) && p in WrittenPages(xs) && p % 32768 == s
    ensures i < |b| && b[i].tag == p / 32768
  {
    hide WrittenPages;
    hide LastUse;
    PageOfNumber(p, s);
    i :| 0 <= i < |Tags(b)| && Tags(b)[i] == p / 32768;
  }

  lemma {:induction false} RecentLists(b: Bucket, s: nat, xs: seq<Access>)
    requires Recent(Tags(b), xs, s) && s < 32768
    ensures Lists(b, s, xs)
  {
    hide WrittenPages;
    hide LastUse;
    forall i | 0 <= i < |b| ensures b[i].tag * 32768 + s in WrittenPages(xs) { assert Tags(b)[i] in Tags(b); }
    hide Recent;
    forall p | p in WrittenPages(xs) && p % 32768 == s ensures exists i :: 0 <= i < |b| && b[i].tag == p / 32768 {
      var i := RecentPage(b, s, xs, p);
    }
    forall i, j | 0 <= i < j < |b|
      ensures LastUse(xs, b[i].tag * 32768 + s) > LastUse(xs, b[j].tag * 32768 + s)
    {
      RecentPair(b, s, xs, i, j);
    }
  }

  /** After any run the entries of a bucket are the pages written so far, each once, the last used one first;
      and the page count is the number of pages written. */
  lemma {:induction false} BucketsByRecency(xs: seq<Access>, s: nat)
    requires s < 32768 && forall i :: 0 <= i < |xs| ==> xs[i].addr < ADDRESS_SPACE
    ensures var m := Run(Empty(), xs); m.pageCount == |WrittenPages(xs)| && Lists(m.table[s], s, xs)
  {
    hide MemOk;
    hide Run;
    hide Empty;
    hide Recent;
    hide Lists;
    hide WrittenPages;
    KeptRun(xs);
    RecentLists(Run(Empty(), xs).table[s], s, xs);
  }

  /** No page of the same bucket was used after page p. */
  ghost predicate Newest(xs: seq<Access>, p: nat) {
    p in WrittenPages(xs) && forall q :: q in WrittenPages(xs) && q != p && q % 32768 == p % 32768 ==>
                               LastUse(xs, q) < LastUse(xs, p)
  }

  lemma {:induction false} HeadIsNewest(m: Mem, xs: seq<Access>, a: nat)
    requires Kept(m, xs)
    ensures AtHead(m.table, a) <==> Newest(xs, a / 4096)
  {
    hide MemOk;
    hide WrittenPages;
    hide LastUse;
    hide PageOf;
    TagOfPage(a);
    hide SetOf;
    hide TagOf;
    var p, s, tag := a / 4096, SetOf(a), TagOf(a);
    var ts := Tags(m.table[s]);
    assert Recent(ts, xs, s);
    PageOfAddress(a);
    if AtHead(m.table, a) {
      assert ts[0] == tag && tag in ts;
      forall q | q in WrittenPages(xs) && q != p && q % 32768 == p % 32768 ensures LastUse(xs, q) < LastUse(xs, p) {
        PageOfNumber(q, s);
        var j :| 0 <= j < |ts| && ts[j] == q / 32768;
        assert j > 0;
      }
    } else if tag in ts {
      var i :| 0 <= i < |ts| && ts[i] == tag;
      var q := PageOf(ts[0], s);
      assert i > 0 && LastUse(xs, q) > LastUse(xs, p);
      PageOfParts(ts[0], s);
      assert ts[0] in ts;
    }
  }

  /** The lookups of an access after any run. One that is refused, or is of size 0, makes none. A read of a page never
      written looks every byte up once and misses every time. Any other access looks every byte up twice, and misses
      at most once, exactly when its page is not the last used of its bucket. */
  lemma {:induction false} LookupsExactly(xs: seq<Access>, x: Access)
    requires x.addr < ADDRESS_SPACE && forall i :: 0 <= i < |xs| ==> xs[i].addr < ADDRESS_SPACE
    ensures var m := Run(Empty(), xs);
            var m', n, p := After(m, x), Size(x), x.addr / 4096;
            if n == 0 || 4096 % n != 0 || x.addr % n != 0 then m' == m
            else if x.Read? && p !in WrittenPages(xs) then
              m'.accesses == m.accesses + n && m'.misses == m.misses + n
            else
              m'.accesses == m.accesses + 2 * n && m'.misses == m.misses + if Newest(xs, p) then 0 else 1
  {
    hide MemOk;
    hide Run;
    hide Empty;
    hide WrittenPages;
    hide LastUse;
    hide Newest;
    hide Mapped;
    hide AtHead;
    hide BumpedIn;
    hide After;
    hide Recent;
    KeptRun(xs);
    var m := Run(Empty(), xs);
    MappedWritten(m, xs, x.addr);
    HeadIsNewest(m, xs, x.addr);
    if Reaches(x, x.addr / 4096) { AccessLooks(m, x); } else { NotReached(m, x); }
  }
}
