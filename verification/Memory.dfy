/** memory.c and the accessor macros of memory.h, over a page table updated in place. */
module Memory {
  import opened Arithmetic
  import opened FlatMemory
  import opened MemoryModel
  import opened MemoryTheorems

  lemma {:induction false} PageFound(b: Bucket, tag: nat)
    requires BucketOk(b)
    ensures PageIn(b, tag) == [] <==> Index(b, tag) == |b|
    ensures PageIn(b, tag) != [] ==> |PageIn(b, tag)| == PAGE_SIZE
  {
  }

  lemma {:induction false} IndexNext(b: Bucket, tag: nat, i: nat)
    requires i <= |b| && forall j :: 0 <= j < i ==> b[j].tag != tag
    ensures i == |b| ==> Index(b, tag) == i
    ensures i < |b| && b[i].tag == tag ==> Index(b, tag) == i
  {
  }

  class PageTable {
    const ptab: array<Bucket>
    var pageCount: nat
    var misses: nat
    var accesses: nat

    ghost function State(): Mem
      reads this, ptab
    {
      Mem(ptab[..], pageCount, misses, accesses)
    }

    ghost predicate Valid()
      reads this, ptab
    {
      ptab.Length == BUCKETS && MemOk(State())
    }

    /** mem_create and mem_init */
    constructor ()
      ensures Valid() && fresh(ptab) && State() == Empty()
    {
      ptab := new Bucket[BUCKETS](_ => []);
      pageCount, misses, accesses := 0, 0, 0;
      new;
      EmptyOk();
      assert ptab[..] == seq<Bucket>(BUCKETS, _ => []);
    }

    /** mem_translate: a walk of the bucket that moves the entry it finds to the front. */
    method Translate(addr: nat) returns (page: seq<Byte>)
      requires Valid()
      modifies this`misses, this`accesses, ptab
      ensures var s, b := SetOf(addr), old(ptab[SetOf(addr)]);
              var i := Index(b, TagOf(addr));
              && ptab[..] == (if i < |b| then old(ptab[..])[s := ToFront(b, i)] else old(ptab[..]))
              && misses == old(misses) + 1 && accesses == old(accesses) + 1
              && page == PageIn(b, TagOf(addr))
    {
      hide MemOk;
      hide Index;
      hide SetOf;
      hide TagOf;
      misses, accesses := misses + 1, accesses + 1;
      SetInRange(addr);
      var s := SetOf(addr);
      var i := 0;
      while i < |ptab[s]|
        invariant i <= |ptab[s]| && forall j :: 0 <= j < i ==> ptab[s][j].tag != TagOf(addr)
        invariant ptab[..] == old(ptab[..])
      {
        if ptab[s][i].tag == TagOf(addr) {
          IndexNext(ptab[s], TagOf(addr), i);
          page := ptab[s][i].page;
          if i > 0 {
            ptab[s] := [ptab[s][i]] + ptab[s][..i] + ptab[s][i + 1..];
          } else {
            assert [ptab[s][0]] + ptab[s][..0] + ptab[s][1..] == ptab[s];
          }
          return;
        }
        i := i + 1;
      }
      IndexNext(ptab[s], TagOf(addr), i);
      page := [];
    }

    lemma {:induction false} SetInRange(addr: nat)
      ensures SetOf(addr) < BUCKETS
    {
    }

    /** MEM_PAGE; [] is the NULL of a page not allocated yet. */
    method Page(addr: nat) returns (page: seq<Byte>)
      requires Valid()
      modifies this`misses, this`accesses, ptab
      ensures Valid() && State() == Locate(old(State()), addr)
      ensures page == PageIn(old(ptab[SetOf(addr)]), TagOf(addr))
    {
      hide MemOk;
      hide Index;
      hide ToFront;
      hide SetOf;
      hide TagOf;
      LocateOk(State(), addr);
      SetInRange(addr);
      var s := SetOf(addr);
      AtHead(ptab[s], TagOf(addr));
      if |ptab[s]| > 0 && ptab[s][0].tag == TagOf(addr) {
        accesses := accesses + 1;
        page := ptab[s][0].page;
      } else {
        page := Translate(addr);
      }
    }

    lemma {:induction false} AtHead(b: Bucket, tag: nat)
      ensures Index(b, tag) <= |b| && (|b| > 0 ==> (b[0].tag == tag <==> Index(b, tag) == 0))
    {
    }

    /** mem_newpage */
    method AllocatePage(addr: nat)
      requires Valid() && !Mapped(ptab[..], addr) && addr < ADDRESS_SPACE
      modifies this`pageCount, ptab
      ensures Valid() && State() == NewPage(old(State()), addr)
    {
      NewPageOk(State(), addr);
      hide MemOk;
      var s := SetOf(addr);
      ptab[s] := [Pte(TagOf(addr), Zeros(PAGE_SIZE))] + ptab[s];
      pageCount := pageCount + 1;
    }

    /** MEM_READ_BYTE */
    method ReadByte(addr: nat) returns (v: Byte)
      requires Valid()
      modifies this`misses, this`accesses, ptab
      ensures Valid() && State() == AfterRead(old(State()), addr) && v == Load(old(ptab[..]), addr)
    {
      ghost var m := State();
      LocateOk(m, addr);
      PageFound(ptab[SetOf(addr)], TagOf(addr));
      hide MemOk;
      hide Locate;
      var page := Page(addr);
      if page != [] {
        var again := Page(addr);
        v := again[OffsetOf(addr)];
      } else {
        v := 0;
      }
    }

    /** MEM_TICKLE: allocates the page at its first write. */
    method Tickle(addr: nat)
      requires Valid() && addr < ADDRESS_SPACE
      modifies this, ptab
      ensures Valid() && State() == Tickled(old(State()), addr)
    {
      ghost var m := State();
      LocateOk(m, addr);
      PageFound(ptab[SetOf(addr)], TagOf(addr));
      hide MemOk;
      hide Locate;
      hide NewPage;
      var page := Page(addr);
      if page == [] {
        AllocatePage(addr);
      }
    }

    /** MEM_WRITE_BYTE */
    method WriteByte(addr: nat, v: Byte)
      requires Valid() && addr < ADDRESS_SPACE
      modifies this, ptab
      ensures Valid() && State() == AfterWrite(old(State()), addr, v)
    {
      ghost var m := State();
      TickledOk(m, addr);
      LocateOk(Tickled(m, addr), addr);
      WriteOk(m, addr, v);
      hide MemOk;
      hide Locate;
      hide Tickled;
      Tickle(addr);
      var page := Page(addr);
      StorePoint(addr, v);
    }

    method StorePoint(addr: nat, v: Byte)
      requires Valid() && |ptab[SetOf(addr)]| > 0
      modifies ptab
      ensures ptab[..] == old(ptab[..])[SetOf(addr) := Poke(old(ptab[SetOf(addr)]), OffsetOf(addr), v)]
    {
      var s := SetOf(addr);
      var head := ptab[s][0];
      ptab[s] := ptab[s][0 := head.(page := head.page[OffsetOf(addr) := v])];
    }

    method CopyOut(addr: nat, n: nat) returns (data: seq<Byte>)
      requires Valid() && addr + n <= ADDRESS_SPACE
      modifies this, ptab
      ensures Valid() && State() == ReadBytes(old(State()), addr, n) && data == LoadBytes(old(ptab[..]), addr, n)
    {
      hide MemOk;
      hide AfterRead;
      hide Load;
      hide Mapped;
      ghost var m := State();
      data := [];
      while |data| < n
        invariant |data| <= n && Valid() && State() == ReadBytes(m, addr, |data|)
        invariant forall i :: 0 <= i < |data| ==> data[i] == Load(m.table, addr + i)
      {
        ReadBytesOk(m, addr, |data|);
        var v := ReadByte(addr + |data|);
        data := data + [v];
      }
    }

    method CopyIn(addr: nat, bytes: seq<Byte>)
      requires Valid() && addr + |bytes| <= ADDRESS_SPACE
      modifies this, ptab
      ensures Valid() && State() == WriteBytes(old(State()), addr, bytes)
    {
      hide MemOk;
      hide AfterWrite;
      ghost var m := State();
      var i := 0;
      assert bytes[..0] == [];
      while i < |bytes|
        invariant i <= |bytes| && Valid() && State() == WriteBytes(m, addr, bytes[..i])
      {
        assert bytes[..i + 1][..i] == bytes[..i];
        WriteByte(addr + i, bytes[i]);
        i := i + 1;
      }
      assert bytes[..i] == bytes;
    }

    /** mem_access */
    method MemAccess(x: Access) returns (ans: Answer)
      requires Valid() && x.addr < ADDRESS_SPACE
      modifies this, ptab
      ensures Valid() && State() == After(old(State()), x) && ans == AnswerTo(old(State()), x)
    {
      hide MemOk;
      hide ReadBytes;
      hide WriteBytes;
      hide LoadBytes;
      if !(Size(x) == 0 || IsPow2(Size(x))) || Size(x) > PAGE_SIZE {
        return Answer(AccessFault, if x.Read? then x.buf else []);
      }
      if (if Size(x) == 0 then x.addr != 0 else x.addr % Size(x) != 0) {
        return Answer(AlignmentFault, if x.Read? then x.buf else []);
      }
      if Size(x) > 0 { WithinPage(x.addr, Size(x)); }
      match x
      case Read(addr, buf) =>
        var data := CopyOut(addr, |buf|);
        ans := Answer(NoFault, data);
      case Write(addr, bytes) =>
        CopyIn(addr, bytes);
        ans := Answer(NoFault, []);
    }
  }
}
