/** The simulated memory of memory.c: an inverted page table of 32K buckets, each a list of
    page table entries that is reordered by every lookup, over 4K pages allocated when first written. */
module MemoryModel {
  import opened Arithmetic
  import opened FlatMemory

  const PAGE_SIZE: nat := 4096
  const BUCKETS: nat := 32768
  const TAGS: nat := 32

  // ----- the address macros

  /** MEM_PTAB_SET */
  function SetOf(a: nat): (s: nat)
    ensures s < BUCKETS
  {
    a / PAGE_SIZE % BUCKETS
  }

  /** MEM_PTAB_TAG */
  function TagOf(a: nat): nat {
    a / (PAGE_SIZE * BUCKETS)
  }

  /** MEM_OFFSET */
  function OffsetOf(a: nat): (o: nat)
    ensures o < PAGE_SIZE
  {
    a % PAGE_SIZE
  }

  /** MEM_PTE_ADDR: the shifted fields do not overlap, so the bitwise or is a sum. */
  function PageAddress(tag: nat, s: nat): nat {
    tag * (PAGE_SIZE * BUCKETS) + s * PAGE_SIZE
  }

  /** MEM_PTE_ADDR inverts the set and tag macros. */
  lemma {:induction false} PageAddressParts(tag: nat, s: nat, o: nat)
    requires tag < TAGS && s < BUCKETS && o < PAGE_SIZE
    ensures var a := PageAddress(tag, s) + o;
            a < ADDRESS_SPACE && SetOf(a) == s && TagOf(a) == tag && OffsetOf(a) == o
  {
    var a := PageAddress(tag, s) + o;
    DivModUnique(a, PAGE_SIZE, tag * BUCKETS + s, o);
    DivModUnique(tag * BUCKETS + s, BUCKETS, tag, s);
    DivModUnique(a, PAGE_SIZE * BUCKETS, tag, s * PAGE_SIZE + o);
  }

  lemma {:induction false} AddressParts(a: nat)
    requires a < ADDRESS_SPACE
    ensures TagOf(a) < TAGS && a == PageAddress(TagOf(a), SetOf(a)) + OffsetOf(a)
  {
  }

  /** Two addresses are the same location exactly when set, tag and offset agree. */
  lemma {:induction false} SamePlace(a: nat, b: nat)
    requires a < ADDRESS_SPACE && b < ADDRESS_SPACE
    ensures a == b <==> SetOf(a) == SetOf(b) && TagOf(a) == TagOf(b) && OffsetOf(a) == OffsetOf(b)
  {
    AddressParts(a);
    AddressParts(b);
  }

  // ----- buckets

  datatype Pte = Pte(tag: nat, page: seq<Byte>)

  type Bucket = seq<Pte>

  type Table = seq<Bucket>

  function Index(b: Bucket, tag: nat): (i: nat)
    ensures i <= |b| && (i < |b| ==> b[i].tag == tag)
    ensures forall j :: 0 <= j < i ==> b[j].tag != tag
  {
    if b == [] then 0 else if b[0].tag == tag then 0 else 1 + Index(b[1..], tag)
  }

  function ToFront(b: Bucket, i: nat): (f: Bucket)
    requires i < |b|
    ensures |f| == |b|
    ensures forall k :: 0 <= k < |b| ==> f[k] == if k == 0 then b[i] else if k <= i then b[k - 1] else b[k]
  {
    [b[i]] + b[..i] + b[i + 1..]
  }

  ghost predicate BucketOk(b: Bucket) {
    && (forall i :: 0 <= i < |b| ==> b[i].tag < TAGS && |b[i].page| == PAGE_SIZE)
    && (forall i, j :: 0 <= i < j < |b| ==> b[i].tag != b[j].tag)
  }

  ghost predicate TableOk(t: Table) {
    |t| == BUCKETS && forall s :: 0 <= s < BUCKETS ==> BucketOk(t[s])
  }

  /** The page that holds a tag, [] when there is none. */
  function PageIn(b: Bucket, tag: nat): seq<Byte> {
    var i := Index(b, tag);
    if i < |b| then b[i].page else []
  }

  // ----- the memory state

  datatype Mem = Mem(table: Table, pageCount: nat, misses: nat, accesses: nat)

  ghost predicate MemOk(m: Mem) {
    TableOk(m.table) && m.pageCount == Entries(m.table)
  }

  /** The number of page table entries. */
  function Entries(t: Table): nat {
    if t == [] then 0 else Entries(t[..|t| - 1]) + |t[|t| - 1]|
  }

  predicate Mapped(t: Table, a: nat)
    requires |t| == BUCKETS
  {
    Index(t[SetOf(a)], TagOf(a)) < |t[SetOf(a)]|
  }

  /** The byte at an address; pages never written read as zero. */
  function Load(t: Table, a: nat): Byte
    requires |t| == BUCKETS
  {
    var p := PageIn(t[SetOf(a)], TagOf(a));
    if OffsetOf(a) < |p| then p[OffsetOf(a)] else 0
  }

  /** MEM_PAGE: a hit in the head entry, else mem_translate, which moves what it finds to the front. */
  function Locate(m: Mem, a: nat): Mem
    requires |m.table| == BUCKETS
  {
    var s := SetOf(a);
    var b := m.table[s];
    var i := Index(b, TagOf(a));
    if i == 0 && |b| > 0 then m.(accesses := m.accesses + 1)
    else m.(table := if i < |b| then m.table[s := ToFront(b, i)] else m.table,
            misses := m.misses + 1, accesses := m.accesses + 1)
  }

  /** mem_newpage */
  function NewPage(m: Mem, a: nat): Mem
    requires |m.table| == BUCKETS
  {
    var s := SetOf(a);
    m.(table := m.table[s := [Pte(TagOf(a), Zeros(PAGE_SIZE))] + m.table[s]], pageCount := m.pageCount + 1)
  }

  /** MEM_READ of a byte: looks the page up a second time when it exists. */
  function AfterRead(m: Mem, a: nat): Mem
    requires |m.table| == BUCKETS
  {
    if Mapped(m.table, a) then Locate(Locate(m, a), a) else Locate(m, a)
  }

  /** MEM_TICKLE */
  function Tickled(m: Mem, a: nat): Mem
    requires |m.table| == BUCKETS
  {
    if Mapped(m.table, a) then Locate(m, a) else NewPage(Locate(m, a), a)
  }

  function Poke(b: Bucket, o: nat, v: Byte): Bucket {
    if |b| > 0 && o < |b[0].page| then b[0 := b[0].(page := b[0].page[o := v])] else b
  }

  /** MEM_WRITE of a byte. */
  function AfterWrite(m: Mem, a: nat, v: Byte): Mem
    requires |m.table| == BUCKETS
  {
    var m' := Locate(Tickled(m, a), a);
    m'.(table := m'.table[SetOf(a) := Poke(m'.table[SetOf(a)], OffsetOf(a), v)])
  }

  function Empty(): Mem {
    Mem(seq(BUCKETS, _ => []), 0, 0, 0)
  }

  // ----- mem_access

  datatype Fault = NoFault | AccessFault | AlignmentFault

  /** n & (n - 1) == 0 holds of the powers of two and of 0, and a & (n - 1) of 0 is all of a. */
  function Check(a: nat, n: nat): Fault {
    if !(n == 0 || IsPow2(n)) || n > PAGE_SIZE then AccessFault
    else if (if n == 0 then a != 0 else a % n != 0) then AlignmentFault
    else NoFault
  }

  function ReadBytes(m: Mem, a: nat, n: nat): (m': Mem)
    requires |m.table| == BUCKETS
    ensures |m'.table| == BUCKETS
  {
    if n == 0 then m else AfterRead(ReadBytes(m, a, n - 1), a + n - 1)
  }

  function WriteBytes(m: Mem, a: nat, bytes: seq<Byte>): (m': Mem)
    requires |m.table| == BUCKETS
    ensures |m'.table| == BUCKETS
  {
    if bytes == [] then m else AfterWrite(WriteBytes(m, a, bytes[..|bytes| - 1]), a + |bytes| - 1, bytes[|bytes| - 1])
  }

  function LoadBytes(t: Table, a: nat, n: nat): (d: seq<Byte>)
    requires |t| == BUCKETS
    ensures |d| == n && forall i :: 0 <= i < n ==> d[i] == Load(t, a + i)
  {
    seq(n, i requires 0 <= i < n => Load(t, a + i))
  }

  /** A read names the buffer to fill by what it holds before. */
  datatype Access = Read(addr: nat, buf: seq<Byte>) | Write(addr: nat, bytes: seq<Byte>)

  /** What the caller gets back: the fault, and for a read what its buffer holds. */
  datatype Answer = Answer(fault: Fault, data: seq<Byte>)

  function Size(x: Access): nat {
    if x.Read? then |x.buf| else |x.bytes|
  }

  /** mem_access */
  function After(m: Mem, x: Access): (m': Mem)
    requires |m.table| == BUCKETS
    ensures |m'.table| == BUCKETS
  {
    if Check(x.addr, Size(x)) != NoFault then m
    else if x.Read? then ReadBytes(m, x.addr, |x.buf|)
    else WriteBytes(m, x.addr, x.bytes)
  }

  function AnswerTo(m: Mem, x: Access): Answer
    requires |m.table| == BUCKETS
  {
    var f := Check(x.addr, Size(x));
    Answer(f, if x.Write? then [] else if f == NoFault then LoadBytes(m.table, x.addr, |x.buf|) else x.buf)
  }
}
