/** Checkpoints of architected state: registers, loader variables and every memory page, written to and
    read from an EIO file. */
module Checkpoint {
  import opened Arithmetic
  import opened Exo
  import opened FlatMemory
  import opened Memory
  import opened MemoryModel
  import opened MemoryTheorems
  import opened NatSets
  import opened SyscallReplay
  import opened SyscallTrace

  datatype Misc = Misc(icnt: nat, pc: nat, npc: nat, hi: int, lo: int, fcc: int)

  datatype Loader = Loader(brk: nat, stackMin: nat, textBase: nat, textSize: nat, dataBase: nat, dataSize: nat,
                           stackBase: nat, stackSize: nat)

  datatype Machine = Machine(misc: Misc, iregs: seq<int>, fregs: seq<int>, loader: Loader)

  ghost predicate LoaderOk(l: Loader) {
    && l.brk < ADDRESS_SPACE && l.stackMin < ADDRESS_SPACE && l.textBase < ADDRESS_SPACE && l.textSize < ADDRESS_SPACE
    && l.dataBase < ADDRESS_SPACE && l.dataSize < ADDRESS_SPACE && l.stackBase < ADDRESS_SPACE
       && l.stackSize < ADDRESS_SPACE
  }

  ghost predicate MiscOk(c: Misc) {
    && c.icnt < QWORD && c.pc < ADDRESS_SPACE && c.npc < ADDRESS_SPACE
    && IsRegister(c.hi) && IsRegister(c.lo) && IsRegister(c.fcc)
  }

  ghost predicate MachineOk(c: Machine) {
    MiscOk(c.misc) && RegsOk(c.iregs) && RegsOk(c.fregs) && LoaderOk(c.loader)
  }

  // ----- pages

  function PageTerm(p: Pte, s: nat): Term {
    List([Address(Widen(PageAddress(p.tag, s))), Blob(p.page)])
  }

  function BucketTerms(b: Bucket, s: nat): (ts: seq<Term>)
    ensures |ts| == |b| && forall i :: 0 <= i < |b| ==> ts[i] == PageTerm(b[i], s)
  {
    seq(|b|, i requires 0 <= i < |b| => PageTerm(b[i], s))
  }

  /** The pages in the order MEM_FORALL visits them. */
  function PageTerms(t: Table): seq<Term> {
    if t == [] then [] else PageTerms(t[..|t| - 1]) + BucketTerms(t[|t| - 1], |t| - 1)
  }

  /** MEM_FORALL visits as many pages as the table has entries. */
  lemma {:induction false} PageTermsCount(t: Table)
    ensures |PageTerms(t)| == Entries(t)
  {
    hide PageTerm;
    if t != [] { PageTermsCount(t[..|t| - 1]); }
  }

  /** Reads pages back: each is written byte by byte. */
  function Restore(m: Mem, ts: seq<Term>): (r: Result<Mem>)
    requires |m.table| == BUCKETS
    ensures r.Ok? ==> |r.value.table| == BUCKETS
  {
    if ts == [] then Ok(m)
    else
      match Restore(m, ts[..|ts| - 1])
      case Fatal(e) => Fatal(e)
      case Ok(m1) => if IsRecord(ts[|ts| - 1]) then Ok(Store(m1, CellsOf(ts[|ts| - 1]))) else Fatal(BadPage)
  }

  lemma {:induction false} RestoreJoin(m: Mem, a: seq<Term>, b: seq<Term>)
    requires |m.table| == BUCKETS && Restore(m, a).Ok?
    ensures Restore(m, a + b) == Restore(Restore(m, a).value, b)
  {
    hide Store;
    hide CellsOf;
    if b == [] {
      assert a + b == a;
    } else {
      RestoreJoin(m, a, b[..|b| - 1]);
      assert (a + b)[..|a + b| - 1] == a + b[..|b| - 1];
    }
  }

  // ----- one page

  /** Storing the first k bytes of page p, which m does not have, at address a. */
  ghost predicate PageStored(m: Mem, m': Mem, a: nat, page: seq<Byte>, k: nat)
    requires |m.table| == BUCKETS
  {
    && MemOk(m') && m'.pageCount == m.pageCount + (if k > 0 then 1 else 0)
    && k <= |page|
    && forall x: nat :: x < ADDRESS_SPACE ==>
         && Load(m'.table, x) == (if a <= x < a + k then page[x - a] else Load(m.table, x))
         && (Mapped(m'.table, x) <==> Mapped(m.table, x) || (k > 0 && SetOf(x) == SetOf(a) && TagOf(x) == TagOf(a)))
  }

  lemma {:induction false} PageStep(m: Mem, m': Mem, a: nat, page: seq<Byte>, k: nat)
    requires |m.table| == BUCKETS && |m'.table| == BUCKETS && PageStored(m, m', a, page, k) && k < |page| == PAGE_SIZE
    requires !Mapped(m.table, a) && a + k < ADDRESS_SPACE && SetOf(a + k) == SetOf(a) && TagOf(a + k) == TagOf(a)
    ensures PageStored(m, AfterWrite(m', a + k, page[k]), a, page, k + 1)
  {
    hide AfterWrite;
    hide Load;
    hide MemOk;
    hide SetOf;
    hide TagOf;
    hide Index;
    WriteOk(m', a + k, page[k]);
    assert a < ADDRESS_SPACE;
  }

  lemma {:induction false} PageCells(m: Mem, tag: nat, s: nat, page: seq<Byte>, k: nat)
    requires |m.table| == BUCKETS && MemOk(m) && tag < TAGS && s < BUCKETS && k <= |page| == PAGE_SIZE
    requires !Mapped(m.table, PageAddress(tag, s))
    ensures PageAddress(tag, s) < ADDRESS_SPACE
    ensures PageStored(m, Store(m, CellsAt(PageAddress(tag, s), page)[..k]), PageAddress(tag, s), page, k)
  {
    hide MemOk;
    hide PageStored;
    hide AfterWrite;
    hide PageAddress;
    hide Mapped;
    hide Store;
    var a := PageAddress(tag, s);
    PageAddressParts(tag, s, 0);
    var cs := CellsAt(a, page);
    if k > 0 {
      PageCells(m, tag, s, page, k - 1);
      PageAddressParts(tag, s, k - 1);
      StoreOneMore(m, cs, k);
      NarrowNone(a + k - 1);
      PageStep(m, Store(m, cs[..k - 1]), a, page, k - 1);
    } else {
      StoreNone(m);
      PageStoredNone(m, a, page);
    }
  }

  lemma {:induction false} StoreOneMore(m: Mem, cs: seq<Cell>, k: nat)
    requires |m.table| == BUCKETS && 0 < k <= |cs|
    ensures Store(m, cs[..k]) == AfterWrite(Store(m, cs[..k - 1]), cs[k - 1].loc, cs[k - 1].val)
  {
    hide AfterWrite;
    assert cs[..k][..k - 1] == cs[..k - 1];
  }

  lemma {:induction false} PageStoredNone(m: Mem, a: nat, page: seq<Byte>)
    requires |m.table| == BUCKETS && MemOk(m)
    ensures PageStored(m, m, a, page, 0)
  {
  }

  // ----- all pages

  /** Address x lies in a page among the first n buckets or the first k entries of bucket n. */
  predicate Covered(t: Table, n: nat, k: nat, x: nat)
    requires |t| == BUCKETS
  {
    SetOf(x) < n || (SetOf(x) == n && Index(t[SetOf(x)], TagOf(x)) < k)
  }

  /** m holds exactly the covered pages of t. */
  ghost predicate Copied(t: Table, n: nat, k: nat, m: Mem) {
    && |t| == BUCKETS && n <= BUCKETS && |m.table| == BUCKETS && MemOk(m) && m.pageCount == Entries(t[..n]) + k
    && (k == 0 || (n < BUCKETS && k <= |t[n]|))
    && forall x: nat :: x < ADDRESS_SPACE ==>
         && Load(m.table, x) == (if Covered(t, n, k, x) then Load(t, x) else 0)
         && (Mapped(m.table, x) <==> Covered(t, n, k, x) && Mapped(t, x))
  }

  /** x lies in page (tag, s) exactly when its set and tag say so. */
  lemma {:induction false} InPage(tag: nat, s: nat, x: nat)
    requires tag < TAGS && s < BUCKETS && x < ADDRESS_SPACE
    ensures var a := PageAddress(tag, s);
            && (a <= x < a + PAGE_SIZE <==> SetOf(x) == s && TagOf(x) == tag)
            && (a <= x < a + PAGE_SIZE ==> x - a == OffsetOf(x))
  {
    var a := PageAddress(tag, s);
    if a <= x < a + PAGE_SIZE {
      PageAddressParts(tag, s, x - a);
    }
    if SetOf(x) == s && TagOf(x) == tag {
      AddressParts(x);
    }
  }

  /** The effect of one more page on one address. */
  lemma {:induction false} CoveredStep(t: Table, n: nat, k: nat, x: nat)
    requires TableOk(t) && n < BUCKETS && k < |t[n]| && x < ADDRESS_SPACE
    ensures var p, a := t[n][k], PageAddress(t[n][k].tag, n);
            && p.tag < TAGS && |p.page| == PAGE_SIZE
            && (a <= x < a + PAGE_SIZE <==> SetOf(x) == n && TagOf(x) == p.tag)
            && (a <= x < a + PAGE_SIZE ==> !Covered(t, n, k, x) && Mapped(t, x) && Load(t, x) == p.page[x - a])
            && (Covered(t, n, k + 1, x) <==> Covered(t, n, k, x) || a <= x < a + PAGE_SIZE)
  {
    assert BucketOk(t[n]);
    var p := t[n][k];
    InPage(p.tag, n, x);
    IndexUnique(t[n], p.tag, k);
    hide PageAddress;
    hide Index;
    IndexTag(t[SetOf(x)], TagOf(x));
    hide SetOf;
    hide TagOf;
    hide OffsetOf;
  }

  lemma {:induction false} IndexTag(b: Bucket, tag: nat)
    ensures Index(b, tag) <= |b| && (Index(b, tag) < |b| ==> b[Index(b, tag)].tag == tag)
  {
  }

  lemma {:induction false} CopyPage(t: Table, n: nat, k: nat, m: Mem)
    requires TableOk(t) && Copied(t, n, k, m) && n < BUCKETS && k < |t[n]|
    ensures var p := t[n][k];
            && IsRecord(PageTerm(p, n))
            && Copied(t, n, k + 1, Store(m, CellsOf(PageTerm(p, n))))
  {
    hide Load;
    hide Mapped;
    hide Covered;
    hide MemOk;
    hide PageAddress;
    hide Store;
    var p, a := t[n][k], PageAddress(t[n][k].tag, n);
    PageStart(t, n, k);
    assert !Mapped(m.table, a);
    PageCells(m, p.tag, n, p.page, PAGE_SIZE);
    PageTermCells(p, n);
    var m' := Store(m, CellsOf(PageTerm(p, n)));
    forall x: nat | x < ADDRESS_SPACE
      ensures Load(m'.table, x) == (if Covered(t, n, k + 1, x) then Load(t, x) else 0)
      ensures Mapped(m'.table, x) <==> Covered(t, n, k + 1, x) && Mapped(t, x) {
      CoveredStep(t, n, k, x);
    }
  }

  lemma {:induction false} PageStart(t: Table, n: nat, k: nat)
    requires TableOk(t) && n < BUCKETS && k < |t[n]|
    ensures var p, a := t[n][k], PageAddress(t[n][k].tag, n);
            && p.tag < TAGS && |p.page| == PAGE_SIZE && a < ADDRESS_SPACE && SetOf(a) == n && TagOf(a) == p.tag
            && !Covered(t, n, k, a)
  {
    assert BucketOk(t[n]);
    PageAddressParts(t[n][k].tag, n, 0);
    IndexUnique(t[n], t[n][k].tag, k);
  }

  lemma {:induction false} PageTermCells(p: Pte, s: nat)
    requires p.tag < TAGS && s < BUCKETS && |p.page| == PAGE_SIZE
    ensures IsRecord(PageTerm(p, s)) && CellsOf(PageTerm(p, s)) == CellsAt(PageAddress(p.tag, s), p.page)[..PAGE_SIZE]
  {
    PageAddressParts(p.tag, s, 0);
    AddressRoundTrip(PageAddress(p.tag, s));
  }

  /** The first k pages of bucket n, on top of the buckets before it. */
  lemma {:induction false} CopyBucket(t: Table, n: nat, k: nat, m: Mem)
    requires TableOk(t) && |t| == BUCKETS && |m.table| == BUCKETS && Copied(t, n, 0, m) && n < BUCKETS && k <= |t[n]|
    ensures Restore(m, BucketTerms(t[n], n)[..k]).Ok?
    ensures Copied(t, n, k, Restore(m, BucketTerms(t[n], n)[..k]).value)
  {
    hide Copied;
    hide TableOk;
    hide Store;
    hide CellsOf;
    hide PageTerm;
    hide IsRecord;
    if k > 0 {
      CopyBucket(t, n, k - 1, m);
      var ts := BucketTerms(t[n], n);
      assert ts[..k][..k - 1] == ts[..k - 1];
      CopyPage(t, n, k - 1, Restore(m, ts[..k - 1]).value);
    }
  }

  lemma {:induction false} NextBucket(t: Table, n: nat, m: Mem)
    requires TableOk(t) && n < BUCKETS && Copied(t, n, |t[n]|, m)
    ensures Copied(t, n + 1, 0, m)
  {
    hide MemOk;
    assert t[..n + 1][..n] == t[..n];
    forall x: nat | x < ADDRESS_SPACE
      ensures Load(m.table, x) == (if Covered(t, n + 1, 0, x) then Load(t, x) else 0)
      ensures Mapped(m.table, x) <==> Covered(t, n + 1, 0, x) && Mapped(t, x) {
      IndexTag(t[SetOf(x)], TagOf(x));
      hide Index;
      hide SetOf;
      hide TagOf;
    }
  }

  /** Reading back the pages of the first n buckets into an empty memory. */
  lemma {:induction false} CopyTable(t: Table, n: nat)
    requires TableOk(t) && |t| == BUCKETS && n <= BUCKETS
    ensures Restore(Empty(), PageTerms(t[..n])).Ok?
    ensures Copied(t, n, 0, Restore(Empty(), PageTerms(t[..n])).value)
  {
    hide Copied;
    hide TableOk;
    hide Restore;
    hide BucketTerms;
    if n > 0 {
      CopyTable(t, n - 1);
      var m := Restore(Empty(), PageTerms(t[..n - 1])).value;
      RestoreSize(Empty(), PageTerms(t[..n - 1]));
      CopyBucket(t, n - 1, |t[n - 1]|, m);
      BucketTermsSize(t[n - 1], n - 1);
      NextBucket(t, n - 1, Restore(m, BucketTerms(t[n - 1], n - 1)).value);
      assert t[..n][..n - 1] == t[..n - 1];
      RestoreJoin(Empty(), PageTerms(t[..n - 1]), BucketTerms(t[n - 1], n - 1));
    } else {
      NothingCopied(t);
    }
  }

  lemma {:induction false} BucketTermsSize(b: Bucket, s: nat)
    ensures |BucketTerms(b, s)| == |b| && BucketTerms(b, s)[..|b|] == BucketTerms(b, s)
  {
  }

  lemma {:induction false} RestoreSize(m: Mem, ts: seq<Term>)
    requires |m.table| == BUCKETS && Restore(m, ts).Ok?
    ensures |Restore(m, ts).value.table| == BUCKETS
  {
  }

  lemma {:induction false} NothingCopied(t: Table)
    requires |t| == BUCKETS
    ensures Restore(Empty(), PageTerms(t[..0])) == Ok(Empty()) && Copied(t, 0, 0, Empty())
  {
    EmptyOk();
  }

  /** Reading back all pages into an empty memory gives every address its byte, the mapped pages and the page count. */
  lemma {:induction false} PagesRoundTrip(m: Mem)
    requires |m.table| == BUCKETS && MemOk(m)
    ensures Restore(Empty(), PageTerms(m.table)).Ok?
    ensures var m' := Restore(Empty(), PageTerms(m.table)).value;
            && |m'.table| == BUCKETS && MemOk(m') && m'.pageCount == m.pageCount == |PageTerms(m.table)|
            && forall x: nat :: x < ADDRESS_SPACE ==>
                 Load(m'.table, x) == Load(m.table, x) && (Mapped(m'.table, x) <==> Mapped(m.table, x))
  {
    CopyTable(m.table, BUCKETS);
    PageTermsCount(m.table);
    assert m.table[..BUCKETS] == m.table;
    hide Index;
    hide PageTerms;
    hide Restore;
    hide Load;
    hide Entries;
  }

  // ----- the whole checkpoint

  function MiscTerm(c: Misc): Term {
    List([Integer(Widen(c.icnt)), Address(Widen(c.pc)), Address(Widen(c.npc)),
          Integer(Widen(c.hi)), Integer(Widen(c.lo)), Integer(Widen(c.fcc))])
  }

  function SegmentTerm(base: nat, size: nat): Term {
    List([Address(Widen(base)), Integer(Widen(size))])
  }

  /** The terms eio_write_chkpt prints before the pages; trans is the EIO file pointer. */
  function Header(trans: nat, c: Machine, pageCount: nat): (ts: seq<Term>)
    ensures |ts| == 8
  {
    var l := c.loader;
    [Integer(Widen(trans)), MiscTerm(c.misc), List(RegisterTerms(c.iregs)), List(RegisterTerms(c.fregs)),
     List([Integer(Widen(pageCount)), Address(Widen(l.brk)), Address(Widen(l.stackMin))]),
     SegmentTerm(l.textBase, l.textSize), SegmentTerm(l.dataBase, l.dataSize), SegmentTerm(l.stackBase, l.stackSize)]
  }

  /** eio_write_chkpt */
  function Checkpoint(trans: nat, c: Machine, m: Mem): seq<Term> {
    Header(trans, c, m.pageCount) + PageTerms(m.table)
  }

  predicate IsMisc(t: Term) {
    && t.List? && |t.elts| == 6 && t.elts[0].Integer? && t.elts[1].Address? && t.elts[2].Address?
    && t.elts[3].Integer? && t.elts[4].Integer? && t.elts[5].Integer?
  }

  predicate IsSegment(t: Term) {
    t.List? && |t.elts| == 2 && t.elts[0].Address? && t.elts[1].Integer?
  }

  predicate IsMemoryConfig(t: Term) {
    t.List? && |t.elts| == 3 && t.elts[0].Integer? && t.elts[1].Address? && t.elts[2].Address?
  }

  predicate IsHeader(ts: seq<Term>) {
    && |ts| >= 8 && ts[0].Integer? && IsMisc(ts[1]) && ts[2].List? && ts[3].List? && IsMemoryConfig(ts[4])
    && IsSegment(ts[5]) && IsSegment(ts[6]) && IsSegment(ts[7])
  }

  /** Registers i to 31, each from its address term; exactly 32 terms are wanted. */
  function ReadRegisters(ts: seq<Term>): Result<seq<int>> {
    if |ts| != 32 || !(forall i :: 0 <= i < 32 ==> ts[i].Address?) then Fatal(BadRegister)
    else Ok(seq(32, i requires 0 <= i < 32 && |ts| == 32 && ts[i].Address? => RegisterOf(ts[i].v)))
  }

  function MiscOf(t: Term): Misc
    requires IsMisc(t)
  {
    Misc(t.elts[0].v, Narrow(t.elts[1].v), Narrow(t.elts[2].v), RegisterOf(t.elts[3].v), RegisterOf(t.elts[4].v),
         RegisterOf(t.elts[5].v))
  }

  function LoaderOf(ts: seq<Term>): Loader
    requires IsHeader(ts)
  {
    Loader(Narrow(ts[4].elts[1].v), Narrow(ts[4].elts[2].v),
           Narrow(ts[5].elts[0].v), Narrow(ts[5].elts[1].v),
           Narrow(ts[6].elts[0].v), Narrow(ts[6].elts[1].v),
           Narrow(ts[7].elts[0].v), Narrow(ts[7].elts[1].v))
  }

  datatype Restored = Restored(trans: nat, machine: Machine, mem: Mem, rest: seq<Term>)

  /** eio_read_chkpt, into memory m: takes the header and as many pages as it announces, and leaves the rest of the
      file. */
  function ReadBack(m: Mem, ts: seq<Term>): Result<Restored>
    requires |m.table| == BUCKETS
  {
    if !IsHeader(ts) then Fatal(BadCheckpoint)
    else
      match ReadRegisters(ts[2].elts)
      case Fatal(e) => Fatal(e)
      case Ok(iregs) =>
      match ReadRegisters(ts[3].elts)
      case Fatal(e) => Fatal(e)
      case Ok(fregs) =>
        var n := if Signed(ts[4].elts[0].v) > 0 then Signed(ts[4].elts[0].v) else 0;
        if 8 + n > |ts| then Fatal(BadPage)
        else
          match Restore(m, ts[8..8 + n])
          case Fatal(e) => Fatal(e)
          case Ok(m1) => Ok(Restored(ts[0].v, Machine(MiscOf(ts[1]), iregs, fregs, LoaderOf(ts)), m1, ts[8 + n..]))
  }

  lemma {:induction false} RegistersRoundTrip(regs: seq<int>)
    requires RegsOk(regs)
    ensures ReadRegisters(RegisterTerms(regs)) == Ok(regs)
  {
    hide RegisterOf;
    hide IsRegister;
    var ts := RegisterTerms(regs);
    forall i | 0 <= i < 32 ensures ts[i].Address? && RegisterOf(ts[i].v) == regs[i] {
      RegisterRoundTrip(regs[i]);
    }
    assert ReadRegisters(ts).Ok?;
    assert ReadRegisters(ts).value == regs;
  }

  lemma {:induction false} MiscRoundTrip(c: Misc)
    requires MiscOk(c)
    ensures IsMisc(MiscTerm(c)) && MiscOf(MiscTerm(c)) == c
  {
    hide RegisterOf;
    hide Narrow;
    hide IsRegister;
    AddressRoundTrip(c.pc);
    AddressRoundTrip(c.npc);
    RegisterRoundTrip(c.hi);
    RegisterRoundTrip(c.lo);
    RegisterRoundTrip(c.fcc);
  }

  lemma {:induction false} HeaderRoundTrip(trans: nat, c: Machine, pageCount: nat, rest: seq<Term>)
    requires LoaderOk(c.loader) && MiscOk(c.misc) && trans < QWORD
    ensures var ts := Header(trans, c, pageCount) + rest;
            && IsHeader(ts) && ts[0].v == trans && MiscOf(ts[1]) == c.misc && LoaderOf(ts) == c.loader
            && ts[2].elts == RegisterTerms(c.iregs) && ts[3].elts == RegisterTerms(c.fregs)
            && ts[4].elts[0].v == Widen(pageCount)
  {
    hide Narrow;
    hide MiscOf;
    hide IsMisc;
    hide MiscTerm;
    hide RegisterTerms;
    MiscRoundTrip(c.misc);
    var l := c.loader;
    AddressRoundTrip(l.brk);
    AddressRoundTrip(l.stackMin);
    AddressRoundTrip(l.textBase);
    AddressRoundTrip(l.textSize);
    AddressRoundTrip(l.dataBase);
    AddressRoundTrip(l.dataSize);
    AddressRoundTrip(l.stackBase);
    AddressRoundTrip(l.stackSize);
  }

  /** A bucket has at most one entry for each tag. */
  lemma {:induction false} BucketSize(b: Bucket)
    requires BucketOk(b)
    ensures |b| <= TAGS
  {
    var tags := set i | 0 <= i < |b| :: b[i].tag;
    TagsDistinct(b, |b|);
    BoundedSize(set i | 0 <= i < |b| :: b[i].tag, TAGS);
  }

  lemma {:induction false} TagsDistinct(b: Bucket, n: nat)
    requires BucketOk(b) && n <= |b|
    ensures |set i | 0 <= i < n :: b[i].tag| == n
  {
    if n > 0 {
      TagsDistinct(b, n - 1);
      assert (set i | 0 <= i < n :: b[i].tag) == (set i | 0 <= i < n - 1 :: b[i].tag) + {b[n - 1].tag};
    }
  }

  lemma {:induction false} EntriesBounded(t: Table)
    requires forall s :: 0 <= s < |t| ==> BucketOk(t[s])
    ensures Entries(t) <= |t| * TAGS
  {
    hide BucketOk;
    if t != [] {
      EntriesBounded(t[..|t| - 1]);
      BucketSize(t[|t| - 1]);
    }
  }

  /** The number of pages survives the cast to a 32-bit int. */
  lemma {:induction false} PageCountRoundTrip(m: Mem)
    requires MemOk(m)
    ensures Signed(Widen(m.pageCount)) == m.pageCount
  {
    EntriesBounded(m.table);
  }

  /** Reading a written checkpoint into an initialised memory gives back the file pointer, every register and
      loader variable, and at every address the same byte; what follows it in the file is left alone. */
  lemma {:induction false} CheckpointRoundTrip(trans: nat, c: Machine, m: Mem, rest: seq<Term>)
    requires |m.table| == BUCKETS && MemOk(m) && MachineOk(c) && trans < QWORD
    ensures var r := ReadBack(Empty(), Checkpoint(trans, c, m) + rest);
            && r.Ok? && r.value.trans == trans && r.value.machine == c && r.value.rest == rest
            && |r.value.mem.table| == BUCKETS && MemOk(r.value.mem) && r.value.mem.pageCount == m.pageCount
            && forall x: nat :: x < ADDRESS_SPACE ==>
                 Load(r.value.mem.table, x) == Load(m.table, x)
                     && (Mapped(r.value.mem.table, x) <==> Mapped(m.table, x))
  {
    hide MemOk;
    hide RegsOk;
    hide LoaderOk;
    hide MiscOk;
    hide Header;
    hide IsHeader;
    hide MiscOf;
    hide LoaderOf;
    hide ReadRegisters;
    hide PageTerms;
    hide Restore;
    hide Load;
    hide Mapped;
    hide Signed;
    hide Widen;
    var pages := PageTerms(m.table);
    var header := Header(trans, c, m.pageCount);
    var ts := Checkpoint(trans, c, m) + rest;
    HeaderSize(trans, c, m.pageCount);
    assert ts == header + (pages + rest);
    HeaderRoundTrip(trans, c, m.pageCount, pages + rest);
    RegistersRoundTrip(c.iregs);
    RegistersRoundTrip(c.fregs);
    PageCountRoundTrip(m);
    PagesRoundTrip(m);
    assert ts[8..8 + |pages|] == pages && ts[8 + |pages|..] == rest;
  }

  lemma {:induction false} HeaderSize(trans: nat, c: Machine, pageCount: nat)
    ensures |Header(trans, c, pageCount)| == 8
  {
  }

  // ----- a replay that starts from a checkpoint

  ghost predicate SameBytes(m1: Mem, m2: Mem) {
    && |m1.table| == |m2.table| == BUCKETS && MemOk(m1) && MemOk(m2)
    && forall x: nat :: x < ADDRESS_SPACE ==> Load(m1.table, x) == Load(m2.table, x)
  }

  lemma {:induction false} WriteSame(m1: Mem, m2: Mem, a: nat, v: Byte)
    requires SameBytes(m1, m2) && a < ADDRESS_SPACE
    ensures |m1.table| == |m2.table| == BUCKETS && SameBytes(AfterWrite(m1, a, v), AfterWrite(m2, a, v))
  {
    hide MemOk;
    hide AfterWrite;
    hide Load;
    hide Mapped;
    WriteOk(m1, a, v);
    WriteOk(m2, a, v);
    MemOkSize(AfterWrite(m1, a, v));
    MemOkSize(AfterWrite(m2, a, v));
  }

  lemma {:induction false} MemOkSize(m: Mem)
    requires MemOk(m)
    ensures |m.table| == BUCKETS
  {
  }

  lemma {:induction false} StoreSame(m1: Mem, m2: Mem, cs: seq<Cell>)
    requires |m1.table| == |m2.table| == BUCKETS && SameBytes(m1, m2) && InSpace(cs)
    ensures SameBytes(Store(m1, cs), Store(m2, cs))
  {
    hide SameBytes;
    hide AfterWrite;
    if cs != [] {
      StoreSame(m1, m2, cs[..|cs| - 1]);
      WriteSame(Store(m1, cs[..|cs| - 1]), Store(m2, cs[..|cs| - 1]), cs[|cs| - 1].loc, cs[|cs| - 1].val);
    }
  }

  lemma {:induction false} TouchSame(m1: Mem, m2: Mem, cs: seq<Cell>)
    requires |m1.table| == |m2.table| == BUCKETS && SameBytes(m1, m2)
    ensures SameBytes(Touch(m1, cs), Touch(m2, cs))
  {
    hide MemOk;
    hide Load;
    hide Mapped;
    hide Touch;
    TouchOk(m1, cs);
    TouchOk(m2, cs);
  }

  lemma {:induction false} HoldsSame(m1: Mem, m2: Mem, cs: seq<Cell>)
    requires |m1.table| == |m2.table| == BUCKETS && SameBytes(m1, m2) && InSpace(cs)
    ensures Holds(m1.table, cs) <==> Holds(m2.table, cs)
  {
    hide MemOk;
    hide Load;
    assert forall i :: 0 <= i < |cs| ==> Load(m1.table, cs[i].loc) == Load(m2.table, cs[i].loc);
  }

  /** A call recorded in memory m replays in any memory with the same bytes, and both end with the same bytes. */
  lemma {:induction false} ReplayOnSameBytes(icnt: nat, pc: nat, regs: seq<int>, m: Mem, m': Mem, call: Call)
    requires |m.table| == |m'.table| == BUCKETS && MemOk(m) && SameBytes(m, m')
    requires |regs| == 32 && |call.out.regs| == 32 && CallOk(regs, call) && icnt < QWORD && pc < ADDRESS_SPACE
    ensures Record(m, call.accesses).Ok?
    ensures var r := Replay(icnt, pc, regs, m', Recorded(icnt, pc, regs, m, call));
            && r.Ok? && r.value.brk == call.out.brk && r.value.regs == call.out.regs
            && SameBytes(Run(m, call.accesses), r.value.mem)
  {
    hide SameBytes;
    hide Holds;
    hide Replay;
    hide Transaction;
    hide RecsOk;
    hide RegsOk;
    hide MemOk;
    hide Smooth;
    hide ReadsFirst;
    hide Record;
    hide Run;
    hide Taken;
    hide Touch;
    hide Store;
    hide InSpace;
    var xs := call.accesses;
    SmoothAddressed(xs);
    RecordsEverything(m, xs);
    var r := Record(m, xs).value;
    ReadCellsHold(m, xs);
    RecordedInSpace(r.input);
    RecordedInSpace(r.output);
    HoldsSame(m, m', Cells(r.input));
    SameOk(m, m');
    ReplaysExactly(icnt, pc, regs, r.input, call.out, r.output, icnt, pc, regs, m');
    RunIsTouchStore(m, xs);
    TakenIsOut(regs, call.out.regs);
    TouchSame(m, m', Cells(r.input));
    StoreSame(Touch(m, Cells(r.input)), Touch(m', Cells(r.input)), Cells(r.output));
  }

  lemma {:induction false} SameOk(m: Mem, m': Mem)
    requires SameBytes(m, m')
    ensures MemOk(m')
  {
  }

  /** A machine restored from a checkpoint replays the next recorded call as the original machine made it. */
  lemma {:induction false} CheckpointThenReplay(trans: nat, c: Machine, m: Mem, icnt: nat, pc: nat, call: Call)
    requires |m.table| == BUCKETS && MemOk(m) && MachineOk(c) && trans < QWORD && icnt < QWORD && pc < ADDRESS_SPACE
    requires |c.iregs| == 32 && |call.out.regs| == 32 && CallOk(c.iregs, call)
    ensures Record(m, call.accesses).Ok?
    ensures var file := Checkpoint(trans, c, m) + [Recorded(icnt, pc, c.iregs, m, call)];
            var back := ReadBack(Empty(), file);
            && back.Ok? && back.value.rest == [Recorded(icnt, pc, c.iregs, m, call)]
               && |back.value.mem.table| == BUCKETS
            && |back.value.machine.iregs| == 32
            && var r := Replay(icnt, pc, back.value.machine.iregs, back.value.mem, back.value.rest[0]);
               && r.Ok? && r.value.brk == call.out.brk && r.value.regs == call.out.regs
               && SameBytes(Run(m, call.accesses), r.value.mem)
  {
    hide Replay;
    hide Recorded;
    hide MachineOk;
    hide CallOk;
    hide Checkpoint;
    hide ReadBack;
    hide Record;
    hide Run;
    hide Mapped;
    hide Load;
    hide MemOk;
    CallRecords(m, c.iregs, call);
    var t := Recorded(icnt, pc, c.iregs, m, call);
    CheckpointRoundTrip(trans, c, m, [t]);
    var back := ReadBack(Empty(), Checkpoint(trans, c, m) + [t]);
    ReplayOnSameBytes(icnt, pc, c.iregs, m, back.value.mem, call);
  }

  lemma {:induction false} CallRecords(m: Mem, regs: seq<int>, call: Call)
    requires |m.table| == BUCKETS && |regs| == 32 && |call.out.regs| == 32 && CallOk(regs, call)
    ensures Record(m, call.accesses).Ok?
  {
    SmoothAddressed(call.accesses);
    RecordsEverything(m, call.accesses);
  }

  // ----- the loops

  /** eio_write_chkpt: the header, then every page in bucket order. */
  method WriteCheckpoint(trans: nat, c: Machine, mem: PageTable) returns (ts: seq<Term>)
    requires mem.Valid()
    ensures ts == Checkpoint(trans, c, mem.State())
  {
    hide MemOk;
    hide Header;
    ghost var t := mem.ptab[..];
    var pages := [];
    var i := 0;
    while i < BUCKETS
      invariant i <= BUCKETS && pages == PageTerms(t[..i])
    {
      assert t[..i + 1][..i] == t[..i];
      ghost var before := pages;
      var j := 0;
      while j < |mem.ptab[i]|
        invariant j <= |mem.ptab[i]| && pages == before + BucketTerms(t[i], i)[..j]
      {
        pages := pages + [PageTerm(mem.ptab[i][j], i)];
        j := j + 1;
      }
      assert BucketTerms(t[i], i)[..j] == BucketTerms(t[i], i);
      i := i + 1;
    }
    assert t[..i] == t;
    ts := Header(trans, c, mem.pageCount) + pages;
  }

  lemma {:induction false} RestoreFails(m: Mem, ts: seq<Term>, k: nat)
    requires |m.table| == BUCKETS && k <= |ts| && Restore(m, ts[..k]).Fatal?
    ensures Restore(m, ts) == Restore(m, ts[..k])
  {
    hide Store;
    if k < |ts| {
      assert ts[..|ts| - 1][..k] == ts[..k];
      RestoreFails(m, ts[..|ts| - 1], k);
    } else {
      assert ts[..k] == ts;
    }
  }

  /** The page loop of eio_read_chkpt. */
  method ReadPages(mem: PageTable, ts: seq<Term>) returns (r: Result<()>)
    requires mem.Valid()
    modifies mem, mem.ptab
    ensures mem.Valid()
    ensures match Restore(old(mem.State()), ts)
            case Ok(m) => mem.State() == m && r == Ok(())
            case Fatal(e) => r == Fatal(e)
  {
    hide MemOk;
    hide Store;
    hide CellsAt;
    ghost var m := mem.State();
    var i := 0;
    while i < |ts|
      invariant i <= |ts| && mem.Valid() && Restore(m, ts[..i]) == Ok(mem.State())
    {
      assert ts[..i + 1][..i] == ts[..i];
      if !IsRecord(ts[i]) {
        RestoreFails(m, ts, i + 1);
        return Fatal(BadPage);
      }
      PutPage(mem, Narrow(ts[i].elts[0].v), ts[i].elts[1].data);
      i := i + 1;
    }
    assert ts[..i] == ts;
    r := Ok(());
  }

  /** Writes a page byte by byte, without the checks of mem_access. */
  method PutPage(mem: PageTable, addr: nat, data: seq<Byte>)
    requires mem.Valid() && addr < ADDRESS_SPACE
    modifies mem, mem.ptab
    ensures mem.Valid() && mem.State() == Store(old(mem.State()), CellsAt(addr, data))
  {
    hide MemOk;
    hide AfterWrite;
    hide Narrow;
    NarrowNone(addr);
    ghost var m, cs := mem.State(), CellsAt(addr, data);
    var pageAddr, j := addr, 0;
    while j < |data|
      invariant j <= |data| && mem.Valid() && pageAddr == Narrow(addr + j) && pageAddr < ADDRESS_SPACE
      invariant mem.State() == Store(m, cs[..j])
    {
      assert cs[..j + 1][..j] == cs[..j];
      mem.WriteByte(pageAddr, data[j]);
      NarrowAdd(addr + j, 1);
      NarrowRange(addr + j + 1);
      pageAddr := Narrow(pageAddr + 1);
      j := j + 1;
    }
    assert cs[..j] == cs;
  }

  /** eio_read_chkpt */
  method ReadCheckpoint(mem: PageTable, ts: seq<Term>) returns (r: Result<(nat, Machine, seq<Term>)>)
    requires mem.Valid()
    modifies mem, mem.ptab
    ensures mem.Valid()
    ensures match ReadBack(old(mem.State()), ts)
            case Ok(v) => mem.State() == v.mem && r == Ok((v.trans, v.machine, v.rest))
            case Fatal(e) => r == Fatal(e)
  {
    hide MemOk;
    hide Restore;
    hide ReadRegisters;
    if !IsHeader(ts) { return Fatal(BadCheckpoint); }
    var iregs := ReadRegisters(ts[2].elts);
    if iregs.Fatal? { return Fatal(iregs.reason); }
    var fregs := ReadRegisters(ts[3].elts);
    if fregs.Fatal? { return Fatal(fregs.reason); }
    var n := if Signed(ts[4].elts[0].v) > 0 then Signed(ts[4].elts[0].v) else 0;
    if 8 + n > |ts| { return Fatal(BadPage); }
    var done := ReadPages(mem, ts[8..8 + n]);
    if done.Fatal? { return Fatal(done.reason); }
    r := Ok((ts[0].v, Machine(MiscOf(ts[1]), iregs.value, fregs.value, LoaderOf(ts)), ts[8 + n..]));
  }
}
