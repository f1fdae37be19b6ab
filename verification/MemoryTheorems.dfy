/** The page table refines a flat, zero-initialised byte map: reordering a bucket changes no
    translation, reads allocate nothing, and the page count is the number of entries. */
module MemoryTheorems {
  import opened Arithmetic
  import opened FlatMemory
  import opened MemoryModel

  // ----- one bucket

  lemma {:induction false} IndexUnique(b: Bucket, tag: nat, i: nat)
    requires BucketOk(b) && i < |b| && b[i].tag == tag
    ensures Index(b, tag) == i
  {
  }

  lemma {:induction false} IndexAbsent(b: Bucket, tag: nat)
    requires forall i :: 0 <= i < |b| ==> b[i].tag != tag
    ensures Index(b, tag) == |b|
  {
  }

  lemma {:induction false} ToFrontOk(b: Bucket, i: nat)
    requires BucketOk(b) && i < |b|
    ensures BucketOk(ToFront(b, i)) && Index(ToFront(b, i), b[i].tag) == 0
  {
    hide ToFront;
    assert ToFront(b, i)[0] == b[i] by { ToFrontAt(b, i, 0); }
    forall j, k | 0 <= j < k < |b| ensures |ToFront(b, i)| == |b| && ToFront(b, i)[j].tag != ToFront(b, i)[k].tag {
      ToFrontAt(b, i, j);
      ToFrontAt(b, i, k);
    }
    forall j | 0 <= j < |b|
      ensures |ToFront(b, i)| == |b| && ToFront(b, i)[j].tag < TAGS && |ToFront(b, i)[j].page| == PAGE_SIZE {
      ToFrontAt(b, i, j);
    }
  }

  lemma {:induction false} ToFrontAt(b: Bucket, i: nat, k: nat)
    requires i < |b| && k < |b|
    ensures |ToFront(b, i)| == |b| && ToFront(b, i)[k] == if k == 0 then b[i] else if k <= i then b[k - 1] else b[k]
  {
  }

  /** Moving an entry to the front changes no translation. */
  lemma {:induction false} ToFrontTranslates(b: Bucket, i: nat, tag: nat)
    requires BucketOk(b) && i < |b|
    ensures PageIn(ToFront(b, i), tag) == PageIn(b, tag)
    ensures Index(ToFront(b, i), tag) < |b| <==> Index(b, tag) < |b|
  {
    ToFrontOk(b, i);
    var f, j := ToFront(b, i), Index(b, tag);
    if j < |b| {
      var k := if j == i then 0 else if j < i then j + 1 else j;
      ToFrontAt(b, i, k);
      hide ToFront;
      IndexUnique(f, tag, k);
    } else {
      forall k | 0 <= k < |f| ensures f[k].tag != tag {
        ToFrontAt(b, i, k);
      }
      IndexAbsent(f, tag);
    }
  }

  lemma {:induction false} FreshOk(b: Bucket, tag: nat)
    requires BucketOk(b) && tag < TAGS && Index(b, tag) == |b|
    ensures BucketOk([Pte(tag, Zeros(PAGE_SIZE))] + b) && Index([Pte(tag, Zeros(PAGE_SIZE))] + b, tag) == 0
  {
    var f := [Pte(tag, Zeros(PAGE_SIZE))] + b;
    assert f[0].tag == tag && forall k :: 0 < k < |f| ==> f[k] == b[k - 1];
  }

  lemma {:induction false} FreshTranslates(b: Bucket, tag: nat, t: nat)
    requires BucketOk(b) && tag < TAGS && Index(b, tag) == |b|
    ensures var f := [Pte(tag, Zeros(PAGE_SIZE))] + b;
            && BucketOk(f) && Index(f, tag) == 0
            && PageIn(f, t) == (if t == tag then Zeros(PAGE_SIZE) else PageIn(b, t))
            && (Index(f, t) < |f| <==> t == tag || Index(b, t) < |b|)
  {
    hide BucketOk;
    var p := Pte(tag, Zeros(PAGE_SIZE));
    var f := [p] + b;
    FreshOk(b, tag);
    hide Zeros;
    assert f[0] == p && forall k :: 0 < k < |f| ==> f[k] == b[k - 1];
    var j := Index(b, t);
    if t == tag {
    } else if j < |b| {
      IndexUnique(f, t, j + 1);
    } else {
      IndexAbsent(f, t);
    }
  }

  lemma {:induction false} PokeTranslates(b: Bucket, tag: nat, o: nat, v: Byte, t: nat)
    requires BucketOk(b) && |b| > 0 && b[0].tag == tag && o < PAGE_SIZE
    ensures var f := Poke(b, o, v);
            && BucketOk(f) && |f| == |b|
            && PageIn(f, t) == (if t == tag then PageIn(b, t)[o := v] else PageIn(b, t))
            && (Index(f, t) < |f| <==> Index(b, t) < |b|)
  {
    var f := Poke(b, o, v);
    assert BucketOk(f);
    var j := Index(b, t);
    if j < |b| {
      IndexUnique(f, t, j);
      if t == tag { IndexUnique(b, t, 0); }
    } else {
      IndexAbsent(f, t);
    }
  }

  // ----- one table

  lemma {:induction false} EntriesUpdate(t: Table, s: nat, b: Bucket)
    requires s < |t|
    ensures Entries(t[s := b]) == Entries(t) - |t[s]| + |b|
  {
    var n := |t| - 1;
    if s == n {
      assert t[s := b][..n] == t[..n];
    } else {
      EntriesUpdate(t[..n], s, b);
      assert t[s := b][..n] == t[..n][s := b];
    }
  }

  /** t2 translates every address as t1 does. */
  ghost predicate Same(t1: Table, t2: Table) {
    && |t1| == |t2| == BUCKETS
    && forall x: nat :: Load(t2, x) == Load(t1, x) && (Mapped(t2, x) <==> Mapped(t1, x))
  }

  lemma {:induction false} LocateOk(m: Mem, a: nat)
    requires MemOk(m)
    ensures var m' := Locate(m, a);
            && MemOk(m') && Same(m.table, m'.table) && m'.pageCount == m.pageCount
            && (Mapped(m.table, a) ==> |m'.table[SetOf(a)]| > 0 && m'.table[SetOf(a)][0].tag == TagOf(a))
  {
    hide Entries;
    hide SetOf;
    hide TagOf;
    hide ToFront;
    var s, tag := SetOf(a), TagOf(a);
    var b := m.table[s];
    var i := Index(b, tag);
    if 0 < i < |b| {
      ToFrontOk(b, i);
      ToFrontAt(b, i, 0);
      EntriesUpdate(m.table, s, ToFront(b, i));
      var t' := m.table[s := ToFront(b, i)];
      hide Index;
      forall x: nat ensures Load(t', x) == Load(m.table, x) && (Mapped(t', x) <==> Mapped(m.table, x)) {
        ToFrontTranslates(b, i, TagOf(x));
      }
    }
  }

  lemma {:induction false} NewPageOk(m: Mem, a: nat)
    requires MemOk(m) && !Mapped(m.table, a) && a < ADDRESS_SPACE
    ensures var m' := NewPage(m, a);
            && MemOk(m') && m'.pageCount == m.pageCount + 1
            && |m'.table[SetOf(a)]| > 0 && m'.table[SetOf(a)][0].tag == TagOf(a)
            && forall x: nat :: Load(m'.table, x) == Load(m.table, x)
                 && (Mapped(m'.table, x) <==> Mapped(m.table, x) || (SetOf(x) == SetOf(a) && TagOf(x) == TagOf(a)))
  {
    var s, tag := SetOf(a), TagOf(a);
    var b := m.table[s];
    AddressParts(a);
    FreshTranslates(b, tag, tag);
    var f := [Pte(tag, Zeros(PAGE_SIZE))] + b;
    EntriesUpdate(m.table, s, f);
    var t' := m.table[s := f];
    forall x: nat ensures Load(t', x) == Load(m.table, x)
                  && (Mapped(t', x) <==> Mapped(m.table, x) || (SetOf(x) == s && TagOf(x) == tag)) {
      FreshTranslates(b, tag, TagOf(x));
      hide Index;
    }
  }

  /** A read changes no byte and allocates nothing. */
  lemma {:induction false} ReadOk(m: Mem, a: nat)
    requires MemOk(m)
    ensures var m' := AfterRead(m, a);
            MemOk(m') && Same(m.table, m'.table) && m'.pageCount == m.pageCount
  {
    LocateOk(m, a);
    LocateOk(Locate(m, a), a);
  }

  lemma {:induction false} TickledOk(m: Mem, a: nat)
    requires MemOk(m) && a < ADDRESS_SPACE
    ensures var m' := Tickled(m, a);
            && MemOk(m') && Mapped(m'.table, a)
            && m'.pageCount == m.pageCount + (if Mapped(m.table, a) then 0 else 1)
            && forall x: nat :: Load(m'.table, x) == Load(m.table, x)
                 && (Mapped(m'.table, x) <==> Mapped(m.table, x) || (SetOf(x) == SetOf(a) && TagOf(x) == TagOf(a)))
  {
    LocateOk(m, a);
    if !Mapped(m.table, a) {
      NewPageOk(Locate(m, a), a);
    }
  }

  lemma {:induction false} StoreOk(m: Mem, a: nat, v: Byte)
    requires MemOk(m) && a < ADDRESS_SPACE && |m.table[SetOf(a)]| > 0 && m.table[SetOf(a)][0].tag == TagOf(a)
    ensures var t' := m.table[SetOf(a) := Poke(m.table[SetOf(a)], OffsetOf(a), v)];
            && MemOk(m.(table := t'))
            && forall x: nat :: x < ADDRESS_SPACE ==>
                 Load(t', x) == (if x == a then v else Load(m.table, x)) && (Mapped(t', x) <==> Mapped(m.table, x))
  {
    var s := SetOf(a);
    var b := m.table[s];
    PokeTranslates(b, TagOf(a), OffsetOf(a), v, TagOf(a));
    EntriesUpdate(m.table, s, Poke(b, OffsetOf(a), v));
    var t' := m.table[s := Poke(b, OffsetOf(a), v)];
    forall x: nat | x < ADDRESS_SPACE
      ensures Load(t', x) == (if x == a then v else Load(m.table, x)) && (Mapped(t', x) <==> Mapped(m.table, x)) {
      StoredByte(m.table, a, v, x);
    }
  }

  lemma {:induction false} StoredByte(t: Table, a: nat, v: Byte, x: nat)
    requires TableOk(t) && a < ADDRESS_SPACE && x < ADDRESS_SPACE && |t[SetOf(a)]| > 0 && t[SetOf(a)][0].tag == TagOf(a)
    ensures var t' := t[SetOf(a) := Poke(t[SetOf(a)], OffsetOf(a), v)];
            Load(t', x) == (if x == a then v else Load(t, x)) && (Mapped(t', x) <==> Mapped(t, x))
  {
    var b := t[SetOf(a)];
    PokeTranslates(b, TagOf(a), OffsetOf(a), v, TagOf(x));
    SamePlace(x, a);
    IndexUnique(b, TagOf(a), 0);
    hide Index;
    hide Poke;
    hide SetOf;
    hide TagOf;
    hide OffsetOf;
  }

  /** A write changes the byte it writes and no other, and maps the page it writes and no other. */
  lemma {:induction false} WriteOk(m: Mem, a: nat, v: Byte)
    requires MemOk(m) && a < ADDRESS_SPACE
    ensures var m' := AfterWrite(m, a, v);
            && MemOk(m') && m'.pageCount == m.pageCount + (if Mapped(m.table, a) then 0 else 1)
            && forall x: nat :: x < ADDRESS_SPACE ==>
                 && Load(m'.table, x) == (if x == a then v else Load(m.table, x))
                 && (Mapped(m'.table, x) <==> Mapped(m.table, x) || (SetOf(x) == SetOf(a) && TagOf(x) == TagOf(a)))
  {
    var m1 := Tickled(m, a);
    TickledOk(m, a);
    LocateOk(m1, a);
    hide Locate;
    hide Tickled;
    hide Load;
    hide Mapped;
    StoreOk(Locate(m1, a), a, v);
  }

  // ----- whole accesses

  /** An access without a fault lies inside one page, so the address does not wrap. */
  lemma {:induction false} WithinPage(a: nat, n: nat)
    requires a < ADDRESS_SPACE && n > 0 && Check(a, n) == NoFault
    ensures a + n <= ADDRESS_SPACE && a / PAGE_SIZE == (a + n - 1) / PAGE_SIZE
  {
    WordIsPow2();
    Pow2Divides(n, PAGE_SIZE);
    Pow2Divides(n, ADDRESS_SPACE);
    MultiplesApart(a, ADDRESS_SPACE, n);
    var p, o := a / PAGE_SIZE, a % PAGE_SIZE;
    OffsetMultiple(a, n);
    MultiplesApart(o, PAGE_SIZE, n);
    DivModUnique(a + n - 1, PAGE_SIZE, p, o + n - 1);
  }

  lemma {:induction false} OffsetMultiple(a: nat, n: nat)
    requires n > 0 && a % n == 0 && PAGE_SIZE % n == 0
    ensures a % PAGE_SIZE % n == 0
  {
    var k, j, p := PAGE_SIZE / n, a / n, a / PAGE_SIZE;
    assert a == j * n && PAGE_SIZE == k * n;
    assert p * (k * n) == (p * k) * n;
    assert a % PAGE_SIZE == a - p * PAGE_SIZE;
    assert (j - p * k) * n == j * n - (p * k) * n;
    if j < p * k { MultipleOutside(j - p * k, n); }
    DivModUnique(a % PAGE_SIZE, n, j - p * k, 0);
  }

  lemma {:induction false} SameChain(t1: Table, t2: Table, t3: Table)
    requires Same(t1, t2) && Same(t2, t3)
    ensures Same(t1, t3)
  {
  }

  lemma {:induction false} SameItself(t: Table)
    requires |t| == BUCKETS
    ensures Same(t, t)
  {
  }

  /** What a read makes of m. */
  ghost predicate Unaltered(m: Mem, m': Mem) {
    MemOk(m') && m'.pageCount == m.pageCount && Same(m.table, m'.table)
  }

  lemma {:induction false} UnalteredStep(m: Mem, m1: Mem, a: nat)
    requires Unaltered(m, m1)
    ensures Unaltered(m, AfterRead(m1, a))
  {
    ReadOk(m1, a);
    hide AfterRead;
    hide Same;
    SameChain(m.table, m1.table, AfterRead(m1, a).table);
  }

  lemma {:induction false} UnalteredNone(m: Mem)
    requires MemOk(m)
    ensures Unaltered(m, m)
  {
  }

  lemma {:induction false} ReadBytesOk(m: Mem, a: nat, n: nat)
    requires |m.table| == BUCKETS && MemOk(m)
    ensures Unaltered(m, ReadBytes(m, a, n))
  {
    hide AfterRead;
    hide Unaltered;
    hide MemOk;
    if n > 0 {
      ReadBytesOk(m, a, n - 1);
      UnalteredStep(m, ReadBytes(m, a, n - 1), a + n - 1);
    } else {
      UnalteredNone(m);
    }
  }

  /** t2 holds bytes from a on and is otherwise as t1. */
  ghost predicate Written(t1: Table, t2: Table, a: nat, bytes: seq<Byte>) {
    && |t1| == |t2| == BUCKETS
    && forall x: nat :: x < ADDRESS_SPACE ==>
         Load(t2, x) == if a <= x < a + |bytes| then bytes[x - a] else Load(t1, x)
  }

  lemma {:induction false} WrittenChain(t1: Table, t2: Table, t3: Table, a: nat, bytes: seq<Byte>, v: Byte)
    requires Written(t1, t2, a, bytes) && Written(t2, t3, a + |bytes|, [v])
    ensures Written(t1, t3, a, bytes + [v])
  {
    hide Load;
    forall x: nat | x < ADDRESS_SPACE
      ensures Load(t3, x) == if a <= x < a + |bytes + [v]| then (bytes + [v])[x - a] else Load(t1, x) {
    }
  }

  lemma {:induction false} WriteOne(m: Mem, a: nat, v: Byte)
    requires MemOk(m) && a < ADDRESS_SPACE
    ensures MemOk(AfterWrite(m, a, v)) && Written(m.table, AfterWrite(m, a, v).table, a, [v])
    ensures AfterWrite(m, a, v).pageCount >= m.pageCount
  {
    WriteOk(m, a, v);
    hide AfterWrite;
    hide Load;
    hide Mapped;
  }

  /** What a write of the bytes at a makes of m. */
  ghost predicate Stored(m: Mem, m': Mem, a: nat, bytes: seq<Byte>) {
    MemOk(m') && m'.pageCount >= m.pageCount && Written(m.table, m'.table, a, bytes)
  }

  lemma {:induction false} StoredStep(m: Mem, m1: Mem, a: nat, bytes: seq<Byte>)
    requires |bytes| > 0 && a + |bytes| <= ADDRESS_SPACE
    requires |m.table| == BUCKETS && |m1.table| == BUCKETS && MemOk(m1) && m1.pageCount >= m.pageCount
    requires Written(m.table, m1.table, a, bytes[..|bytes| - 1])
    ensures Stored(m, AfterWrite(m1, a + |bytes| - 1, bytes[|bytes| - 1]), a, bytes)
  {
    hide AfterWrite;
    hide Written;
    hide MemOk;
    var n := |bytes|;
    WriteOne(m1, a + n - 1, bytes[n - 1]);
    WrittenChain(m.table, m1.table, AfterWrite(m1, a + n - 1, bytes[n - 1]).table, a, bytes[..n - 1], bytes[n - 1]);
    assert bytes[..n - 1] + [bytes[n - 1]] == bytes;
  }

  lemma {:induction false} StoredNone(m: Mem, a: nat)
    requires MemOk(m)
    ensures Stored(m, m, a, [])
  {
  }

  lemma {:induction false} WriteBytesOk(m: Mem, a: nat, bytes: seq<Byte>)
    requires |m.table| == BUCKETS && MemOk(m) && a + |bytes| <= ADDRESS_SPACE
    ensures Stored(m, WriteBytes(m, a, bytes), a, bytes)
  {
    hide AfterWrite;
    hide Written;
    hide MemOk;
    if bytes != [] {
      WriteBytesOk(m, a, bytes[..|bytes| - 1]);
      StoredStep(m, WriteBytes(m, a, bytes[..|bytes| - 1]), a, bytes);
    } else {
      StoredNone(m, a);
    }
  }

  // ----- the flat memory

  /** Which accesses the flat memory refuses, by division alone: the size must divide a page and the address. */
  function FlatFault(a: nat, n: nat): Fault {
    if n == 0 then if a == 0 then NoFault else AlignmentFault
    else if 4096 % n != 0 then AccessFault
    else if a % n != 0 then AlignmentFault
    else NoFault
  }

  lemma {:induction false} CheckByDivision(a: nat, n: nat)
    ensures Check(a, n) == FlatFault(a, n)
  {
    WordIsPow2();
    if n > 0 {
      if IsPow2(n) && n <= 4096 {
        Pow2Divides(n, 4096);
      } else if 4096 % n == 0 {
        DivisorIsPow2(4096, n);
      }
    }
  }

  /** An access of a positive size succeeds exactly when the size divides 4096 and the address; a size that does not
      divide 4096 is an access fault, one that does but not the address an alignment fault. A size of 0 passes at
      address 0 only. */
  lemma {:induction false} FaultsExactly(m: Mem, x: Access)
    requires |m.table| == BUCKETS
    ensures var f, n := AnswerTo(m, x).fault, Size(x);
            && (n > 0 ==> (f == NoFault <==> 4096 % n == 0 && x.addr % n == 0) && (f == AccessFault <==> 4096 % n != 0))
            && (n == 0 ==> f == if x.addr == 0 then NoFault else AlignmentFault)
  {
    CheckByDivision(x.addr, Size(x));
    hide Check;
  }

  function FlatAnswer(f: Flat, x: Access): Answer {
    var e := FlatFault(x.addr, Size(x));
    Answer(e, if x.Write? then [] else if e == NoFault then FetchBytes(f, x.addr, |x.buf|) else x.buf)
  }

  function FlatAfter(f: Flat, x: Access): Flat {
    if x.Read? || FlatFault(x.addr, Size(x)) != NoFault then f else Put(f, x.addr, x.bytes)
  }

  ghost predicate Agree(m: Mem, f: Flat)
    requires |m.table| == BUCKETS
  {
    forall x: nat :: x < ADDRESS_SPACE ==> Load(m.table, x) == Fetch(f, x)
  }

  lemma {:induction false} ReadRefines(m: Mem, f: Flat, a: nat, n: nat)
    requires MemOk(m) && Agree(m, f) && a + n <= ADDRESS_SPACE
    ensures Agree(ReadBytes(m, a, n), f)
    ensures LoadBytes(m.table, a, n) == FetchBytes(f, a, n)
  {
    assert |m.table| == BUCKETS;
    hide MemOk;
    hide Load;
    hide Mapped;
    hide ReadBytes;
    ReadBytesOk(m, a, n);
  }

  lemma {:induction false} WriteRefines(m: Mem, f: Flat, a: nat, bytes: seq<Byte>)
    requires MemOk(m) && Agree(m, f) && a + |bytes| <= ADDRESS_SPACE
    ensures Agree(WriteBytes(m, a, bytes), Put(f, a, bytes))
  {
    assert |m.table| == BUCKETS;
    hide MemOk;
    hide Load;
    hide WriteBytes;
    WriteBytesOk(m, a, bytes);
    PutAt(f, a, bytes);
    hide Put;
    hide Fetch;
  }

  lemma {:induction false} StepRefines(m: Mem, f: Flat, x: Access)
    requires MemOk(m) && Agree(m, f) && x.addr < ADDRESS_SPACE
    ensures MemOk(After(m, x)) && Agree(After(m, x), FlatAfter(f, x)) && AnswerTo(m, x) == FlatAnswer(f, x)
    ensures After(m, x).pageCount >= m.pageCount
    ensures x.Read? ==> After(m, x).pageCount == m.pageCount && Same(m.table, After(m, x).table)
  {
    assert |m.table| == BUCKETS;
    SameItself(m.table);
    CheckByDivision(x.addr, Size(x));
    if Check(x.addr, Size(x)) == NoFault {
      if Size(x) > 0 { WithinPage(x.addr, Size(x)); }
      hide ReadBytes;
      hide WriteBytes;
      hide Agree;
      hide Same;
      hide MemOk;
      hide Check;
      hide Put;
      if x.Read? {
        ReadBytesOk(m, x.addr, |x.buf|);
        ReadRefines(m, f, x.addr, |x.buf|);
      } else {
        WriteBytesOk(m, x.addr, x.bytes);
        WriteRefines(m, f, x.addr, x.bytes);
      }
    }
  }

  /** What has been written is read back, by one access of the same size: in particular every aligned byte, half
      word, word and quad word. */
  lemma {:induction false} WriteThenRead(m: Mem, a: nat, bytes: seq<Byte>, buf: seq<Byte>)
    requires |m.table| == BUCKETS && MemOk(m) && a < ADDRESS_SPACE && |buf| == |bytes| > 0
    requires 4096 % |bytes| == 0 && a % |bytes| == 0
    ensures AnswerTo(m, Write(a, bytes)) == Answer(NoFault, [])
    ensures AnswerTo(After(m, Write(a, bytes)), Read(a, buf)) == Answer(NoFault, bytes)
  {
    hide MemOk;
    hide Load;
    hide WriteBytes;
    CheckByDivision(a, |bytes|);
    WithinPage(a, |bytes|);
    hide Check;
    WriteBytesOk(m, a, bytes);
    assert LoadBytes(WriteBytes(m, a, bytes).table, a, |bytes|) == bytes;
  }

  function Run(m: Mem, xs: seq<Access>): (m': Mem)
    requires |m.table| == BUCKETS
    ensures |m'.table| == BUCKETS
  {
    if xs == [] then m else After(Run(m, xs[..|xs| - 1]), xs[|xs| - 1])
  }

  function FlatRun(f: Flat, xs: seq<Access>): Flat {
    if xs == [] then f else FlatAfter(FlatRun(f, xs[..|xs| - 1]), xs[|xs| - 1])
  }

  lemma {:induction false} EntriesEmpty(n: nat)
    ensures Entries(seq(n, _ => [])) == 0
  {
    if n > 0 {
      EntriesEmpty(n - 1);
      assert seq<Bucket>(n, _ => [])[..n - 1] == seq<Bucket>(n - 1, _ => []);
    }
  }

  lemma {:induction false} EmptyOk()
    ensures MemOk(Empty()) && Agree(Empty(), map[])
  {
    EntriesEmpty(BUCKETS);
  }

  lemma {:induction false} RunRefines(m: Mem, f: Flat, xs: seq<Access>)
    requires MemOk(m) && Agree(m, f) && forall i :: 0 <= i < |xs| ==> xs[i].addr < ADDRESS_SPACE
    ensures MemOk(Run(m, xs)) && Agree(Run(m, xs), FlatRun(f, xs))
    ensures Run(m, xs).pageCount >= m.pageCount
    ensures (forall i :: 0 <= i < |xs| ==> xs[i].Read?) ==> Run(m, xs).pageCount == m.pageCount
  {
    assert |m.table| == BUCKETS;
    hide MemOk;
    hide Agree;
    hide After;
    hide FlatAfter;
    if xs != [] {
      RunRefines(m, f, xs[..|xs| - 1]);
      StepRefines(Run(m, xs[..|xs| - 1]), FlatRun(f, xs[..|xs| - 1]), xs[|xs| - 1]);
    }
  }

  /** Every access of a run from an initialised memory is answered as a flat byte map would answer it,
      faults included; pages are only ever added, the count of entries is kept, and reads add none. */
  lemma {:induction false} PagedRefinesFlat(xs: seq<Access>, k: nat)
    requires k < |xs| && forall i :: 0 <= i < |xs| ==> xs[i].addr < ADDRESS_SPACE
    ensures AnswerTo(Run(Empty(), xs[..k]), xs[k]) == FlatAnswer(FlatRun(map[], xs[..k]), xs[k])
    ensures var before, after := Run(Empty(), xs[..k]), Run(Empty(), xs[..k + 1]);
            && MemOk(after) && after.pageCount == Entries(after.table)
            && after.pageCount >= before.pageCount
            && (xs[k].Read? ==> after.pageCount == before.pageCount)
  {
    EmptyOk();
    hide Agree;
    hide After;
    hide FlatAfter;
    hide Empty;
    hide AnswerTo;
    hide FlatAnswer;
    RunRefines(Empty(), map[], xs[..k]);
    StepRefines(Run(Empty(), xs[..k]), FlatRun(map[], xs[..k]), xs[k]);
    assert xs[..k + 1][..k] == xs[..k];
  }
}
