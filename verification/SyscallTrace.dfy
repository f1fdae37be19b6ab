/** Recording a system call as an EIO transaction and replaying it: what is recorded, what a
    replay checks, and that a replay repeats the call exactly when the inputs are as recorded. */
module SyscallTrace {
  import opened Exo
  import opened FlatMemory
  import opened MemoryModel
  import opened MemoryTheorems

  // ----- blobs

  const BLOB_TAIL_SIZE: nat := 256

  const FIRST_REG: nat := 2
  const LAST_REG: nat := 7

  const EXIT_SYSCALL: int := 1

  /** A recorded stretch of memory; room is the size its blob was allocated with. */
  datatype Rec = Rec(addr: nat, data: seq<Byte>, room: nat)

  datatype Cell = Cell(loc: nat, val: Byte)

  /** The bytes of a blob with their addresses, which wrap at 32 bits. */
  function CellsAt(addr: nat, bytes: seq<Byte>): (cs: seq<Cell>)
    ensures |cs| == |bytes|
    ensures forall i :: 0 <= i < |bytes| ==> cs[i] == Cell(Narrow(addr + i), bytes[i])
  {
    seq(|bytes|, i requires 0 <= i < |bytes| => Cell(Narrow(addr + i), bytes[i]))
  }

  function Cells(rs: seq<Rec>): seq<Cell> {
    if rs == [] then [] else Cells(rs[..|rs| - 1]) + CellsAt(rs[|rs| - 1].addr, rs[|rs| - 1].data)
  }

  /** The new access continues the last blob and still leaves it below its allocation. */
  predicate Continues(rs: seq<Rec>, addr: nat, bytes: seq<Byte>) {
    && rs != []
    && var l := rs[|rs| - 1]; Narrow(l.addr + |l.data|) == addr && |l.data| + |bytes| < l.room
  }

  function Extend(l: Rec, bytes: seq<Byte>): Rec {
    l.(data := l.data + bytes)
  }

  /** The coalescing of my_mem_fn. */
  function Add(rs: seq<Rec>, addr: nat, bytes: seq<Byte>): seq<Rec> {
    if Continues(rs, addr, bytes) then rs[..|rs| - 1] + [Extend(rs[|rs| - 1], bytes)]
    else rs + [Rec(addr, bytes, |bytes| + BLOB_TAIL_SIZE)]
  }

  ghost predicate RecsOk(rs: seq<Rec>) {
    forall i :: 0 <= i < |rs| ==> rs[i].addr < ADDRESS_SPACE && |rs[i].data| < rs[i].room
  }

  lemma {:induction false} NarrowAdd(a: nat, i: nat)
    ensures Narrow(Narrow(a) + i) == Narrow(a + i)
  {
  }

  lemma {:induction false} CellsAtJoin(addr: nat, a: seq<Byte>, b: seq<Byte>)
    ensures CellsAt(addr, a + b) == CellsAt(addr, a) + CellsAt(Narrow(addr + |a|), b)
  {
    hide Narrow;
    var c := CellsAt(addr, a) + CellsAt(Narrow(addr + |a|), b);
    forall k | 0 <= k < |c| ensures CellsAt(addr, a + b)[k] == c[k] {
      if k >= |a| { NarrowAdd(addr + |a|, k - |a|); }
    }
  }

  lemma {:induction false} CellsLast(rs: seq<Rec>, r: Rec)
    ensures Cells(rs + [r]) == Cells(rs) + CellsAt(r.addr, r.data)
  {
    assert (rs + [r])[..|rs|] == rs;
  }

  /** Coalescing loses nothing: flattened, the blobs are the accesses one after the other; and no blob
      outgrows its allocation. */
  lemma {:induction false} AddCells(rs: seq<Rec>, addr: nat, bytes: seq<Byte>)
    requires RecsOk(rs) && addr < ADDRESS_SPACE
    ensures Cells(Add(rs, addr, bytes)) == Cells(rs) + CellsAt(addr, bytes)
    ensures RecsOk(Add(rs, addr, bytes))
  {
    hide Cells;
    hide CellsAt;
    hide Narrow;
    if Continues(rs, addr, bytes) {
      var rs0, l := rs[..|rs| - 1], rs[|rs| - 1];
      assert rs == rs0 + [l];
      CellsLast(rs0, l);
      CellsLast(rs0, Extend(l, bytes));
      CellsAtJoin(l.addr, l.data, bytes);
    } else {
      CellsLast(rs, Rec(addr, bytes, |bytes| + BLOB_TAIL_SIZE));
    }
  }

  // ----- recording

  datatype Recording = Recording(input: seq<Rec>, output: seq<Rec>, mem: Mem, seenWrite: bool)

  /** my_mem_fn */
  function Step(r: Recording, x: Access): Result<Recording>
    requires |r.mem.table| == BUCKETS
  {
    if x.Read? then
      if r.seenWrite then Fatal(ReadAfterWrite)
      else Ok(r.(input := Add(r.input, x.addr, AnswerTo(r.mem, x).data), mem := After(r.mem, x)))
    else Ok(r.(output := Add(r.output, x.addr, x.bytes), mem := After(r.mem, x), seenWrite := true))
  }

  /** The accesses of one call, recorded from the memory it starts in. */
  function Record(m: Mem, xs: seq<Access>): (r: Result<Recording>)
    requires |m.table| == BUCKETS
    ensures r.Ok? ==> |r.value.mem.table| == BUCKETS
  {
    if xs == [] then Ok(Recording([], [], m, false))
    else
      match Record(m, xs[..|xs| - 1])
      case Fatal(e) => Fatal(e)
      case Ok(r) => Step(r, xs[|xs| - 1])
  }

  /** Addresses are 32-bit. */
  ghost predicate Addressed(xs: seq<Access>) {
    forall i :: 0 <= i < |xs| ==> xs[i].addr < ADDRESS_SPACE
  }

  /** The accesses do not fault. */
  ghost predicate Smooth(xs: seq<Access>) {
    forall i :: 0 <= i < |xs| ==> xs[i].addr < ADDRESS_SPACE && Check(xs[i].addr, Size(xs[i])) == NoFault
  }

  ghost predicate ReadsFirst(xs: seq<Access>) {
    forall i, j :: 0 <= i < j < |xs| ==> xs[j].Read? ==> xs[i].Read?
  }

  /** What the buffers of the call's reads hold afterwards, byte by byte. */
  function ReadCells(m: Mem, xs: seq<Access>): seq<Cell>
    requires |m.table| == BUCKETS
  {
    if xs == [] then []
    else
      var x := xs[|xs| - 1];
      ReadCells(m, xs[..|xs| - 1])
      + if x.Read? then CellsAt(x.addr, AnswerTo(Run(m, xs[..|xs| - 1]), x).data) else []
  }

  /** What the call wrote, byte by byte. */
  function WriteCells(xs: seq<Access>): seq<Cell> {
    if xs == [] then []
    else
      var x := xs[|xs| - 1];
      WriteCells(xs[..|xs| - 1]) + if x.Write? then CellsAt(x.addr, x.bytes) else []
  }

  predicate HasWrite(xs: seq<Access>) {
    xs != [] && (HasWrite(xs[..|xs| - 1]) || xs[|xs| - 1].Write?)
  }

  lemma {:induction false} HasWriteAt(xs: seq<Access>, i: nat)
    requires i < |xs| && xs[i].Write?
    ensures HasWrite(xs)
  {
    if i < |xs| - 1 { HasWriteAt(xs[..|xs| - 1], i); }
  }

  lemma {:induction false} WriteIn(xs: seq<Access>) returns (i: nat)
    requires HasWrite(xs)
    ensures i < |xs| && xs[i].Write?
  {
    i := |xs| - 1;
    if !xs[i].Write? { i := WriteIn(xs[..i]); }
  }

  lemma {:induction false} ReadsFirstStep(xs: seq<Access>)
    requires |xs| > 0
    ensures ReadsFirst(xs) <==> ReadsFirst(xs[..|xs| - 1]) && (xs[|xs| - 1].Read? ==> !HasWrite(xs[..|xs| - 1]))
  {
    var n := |xs| - 1;
    var xs0, x := xs[..n], xs[n];
    if x.Read? && HasWrite(xs0) {
      var i := WriteIn(xs0);
      assert xs[i].Write? && xs[n].Read?;
    } else if ReadsFirst(xs0) {
      forall i, j | 0 <= i < j < |xs| && xs[j].Read? ensures xs[i].Read? {
        assert i < n && xs0[i] == xs[i];
        if xs[i].Write? { HasWriteAt(xs0, i); }
      }
    } else {
      var i, j :| 0 <= i < j < |xs0| && xs0[j].Read? && !xs0[i].Read?;
      assert xs[j].Read? && !xs[i].Read?;
    }
  }

  /** Recording fails exactly when a read follows a write; otherwise the call runs as it would without
      recording and the blobs flatten to its reads and its writes, in order. A faulting access is recorded
      like any other, a read by what its buffer holds. */
  lemma {:induction false} RecordsEverything(m: Mem, xs: seq<Access>)
    requires |m.table| == BUCKETS && Addressed(xs)
    ensures Record(m, xs).Ok? <==> ReadsFirst(xs)
    ensures Record(m, xs).Fatal? ==> Record(m, xs).reason == ReadAfterWrite
    ensures Record(m, xs).Ok? ==>
              var r := Record(m, xs).value;
              && r.mem == Run(m, xs) && RecsOk(r.input) && RecsOk(r.output)
              && Cells(r.input) == ReadCells(m, xs) && Cells(r.output) == WriteCells(xs)
              && (r.seenWrite <==> HasWrite(xs))
  {
    hide After;
    hide AnswerTo;
    hide Add;
    hide Cells;
    hide CellsAt;
    hide RecsOk;
    hide ReadsFirst;
    if xs != [] {
      var xs0, x := xs[..|xs| - 1], xs[|xs| - 1];
      assert Addressed(xs0);
      RecordsEverything(m, xs0);
      ReadsFirstStep(xs);
      if Record(m, xs0).Ok? {
        var r := Record(m, xs0).value;
        AddCells(r.input, x.addr, AnswerTo(r.mem, x).data);
        if x.Write? { AddCells(r.output, x.addr, x.bytes); }
      }
    } else {
      NoCells();
    }
  }

  lemma {:induction false} NoCells()
    ensures Cells([]) == [] && RecsOk([]) && ReadsFirst([])
  {
  }

  // ----- memory effects, cell by cell

  /** Reads of the cells' locations, in order. */
  function Touch(m: Mem, cs: seq<Cell>): (m': Mem)
    requires |m.table| == BUCKETS
    ensures |m'.table| == BUCKETS
  {
    if cs == [] then m else AfterRead(Touch(m, cs[..|cs| - 1]), cs[|cs| - 1].loc)
  }

  /** Writes of the cells, in order. */
  function Store(m: Mem, cs: seq<Cell>): (m': Mem)
    requires |m.table| == BUCKETS
    ensures |m'.table| == BUCKETS
  {
    if cs == [] then m else AfterWrite(Store(m, cs[..|cs| - 1]), cs[|cs| - 1].loc, cs[|cs| - 1].val)
  }

  lemma {:induction false} TouchJoin(m: Mem, a: seq<Cell>, b: seq<Cell>)
    requires |m.table| == BUCKETS
    ensures Touch(m, a + b) == Touch(Touch(m, a), b)
  {
    hide AfterRead;
    if b == [] {
      assert a + b == a;
    } else {
      TouchJoin(m, a, b[..|b| - 1]);
      assert (a + b)[..|a + b| - 1] == a + b[..|b| - 1];
    }
  }

  lemma {:induction false} StoreJoin(m: Mem, a: seq<Cell>, b: seq<Cell>)
    requires |m.table| == BUCKETS
    ensures Store(m, a + b) == Store(Store(m, a), b)
  {
    hide AfterWrite;
    if b == [] {
      assert a + b == a;
    } else {
      StoreJoin(m, a, b[..|b| - 1]);
      assert (a + b)[..|a + b| - 1] == a + b[..|b| - 1];
    }
  }

  lemma {:induction false} CellsAtPrefix(addr: nat, bytes: seq<Byte>)
    requires |bytes| > 0 && addr + |bytes| <= ADDRESS_SPACE
    ensures var n := |bytes| - 1; CellsAt(addr, bytes)[..n] == CellsAt(addr, bytes[..n])
                                  && CellsAt(addr, bytes)[n] == Cell(addr + n, bytes[n])
  {
  }

  /** A read of n bytes touches them one by one. */
  lemma {:induction false} ReadBytesTouch(m: Mem, a: nat, data: seq<Byte>)
    requires |m.table| == BUCKETS && a + |data| <= ADDRESS_SPACE
    ensures ReadBytes(m, a, |data|) == Touch(m, CellsAt(a, data))
  {
    hide AfterRead;
    hide CellsAt;
    CellsAtSize(a, data);
    if data != [] {
      CellsAtPrefix(a, data);
      ReadBytesTouch(m, a, data[..|data| - 1]);
    }
  }

  lemma {:induction false} CellsAtSize(a: nat, data: seq<Byte>)
    ensures |CellsAt(a, data)| == |data|
  {
  }

  lemma {:induction false} WriteBytesStore(m: Mem, a: nat, bytes: seq<Byte>)
    requires |m.table| == BUCKETS && a + |bytes| <= ADDRESS_SPACE
    ensures WriteBytes(m, a, bytes) == Store(m, CellsAt(a, bytes))
  {
    hide AfterWrite;
    hide CellsAt;
    CellsAtSize(a, bytes);
    if bytes != [] {
      CellsAtPrefix(a, bytes);
      WriteBytesStore(m, a, bytes[..|bytes| - 1]);
    }
  }

  lemma {:induction false} AccessCells(m: Mem, x: Access)
    requires |m.table| == BUCKETS && x.addr < ADDRESS_SPACE && Check(x.addr, Size(x)) == NoFault
    ensures After(m, x) == if x.Read? then Touch(m, CellsAt(x.addr, AnswerTo(m, x).data))
            else Store(m, CellsAt(x.addr, x.bytes))
  {
    hide Check;
    hide ReadBytes;
    hide WriteBytes;
    hide Touch;
    hide Store;
    hide CellsAt;
    if Size(x) > 0 { WithinPage(x.addr, Size(x)); }
    match x
    case Read(a, _) => ReadBytesTouch(m, a, AnswerTo(m, x).data);
    case Write(a, bytes) => WriteBytesStore(m, a, bytes);
  }

  lemma {:induction false} NoWriteCells(xs: seq<Access>)
    requires !HasWrite(xs)
    ensures WriteCells(xs) == []
  {
    if xs != [] { NoWriteCells(xs[..|xs| - 1]); }
  }

  /** A call that reads first leaves the memory that touching its read cells and then storing its written cells
      leaves. */
  lemma {:induction false} RunIsTouchStore(m: Mem, xs: seq<Access>)
    requires |m.table| == BUCKETS && Smooth(xs) && ReadsFirst(xs)
    ensures Run(m, xs) == Store(Touch(m, ReadCells(m, xs)), WriteCells(xs))
  {
    hide After;
    hide AnswerTo;
    hide CellsAt;
    hide ReadsFirst;
    hide AfterRead;
    hide AfterWrite;
    if xs != [] {
      var xs0, x := xs[..|xs| - 1], xs[|xs| - 1];
      assert Smooth(xs0);
      ReadsFirstStep(xs);
      RunIsTouchStore(m, xs0);
      AccessCells(Run(m, xs0), x);
      if x.Read? {
        NoWriteCells(xs0);
        TouchJoin(m, ReadCells(m, xs0), CellsAt(x.addr, AnswerTo(Run(m, xs0), x).data));
      } else {
        assert ReadCells(m, xs) == ReadCells(m, xs0);
        StoreJoin(Touch(m, ReadCells(m, xs0)), WriteCells(xs0), CellsAt(x.addr, x.bytes));
      }
    }
  }

  // ----- the transaction

  function RecTerm(r: Rec): Term {
    List([Address(Widen(r.addr)), Blob(r.data)])
  }

  function RecTerms(rs: seq<Rec>): (ts: seq<Term>)
    ensures |ts| == |rs| && forall i :: 0 <= i < |rs| ==> ts[i] == RecTerm(rs[i])
  {
    seq(|rs|, i requires 0 <= i < |rs| => RecTerm(rs[i]))
  }

  /** What a call leaves behind besides memory. */
  datatype Outcome = Outcome(brk: nat, regs: seq<int>)

  ghost predicate RegsOk(regs: seq<int>) {
    |regs| == 32 && forall i :: 0 <= i < 32 ==> IsRegister(regs[i])
  }

  /** The term eio_write_trace prints. */
  function Transaction(icnt: nat, pc: nat, regs: seq<int>, input: seq<Rec>, out: Outcome, output: seq<Rec>): Term
    requires |regs| == 32 && |out.regs| == 32
  {
    List([Integer(Widen(icnt)), Address(Widen(pc)),
          List(RegisterTerms(regs[FIRST_REG..LAST_REG + 1])), List(RecTerms(input)),
          List([Address(Widen(out.brk))] + RegisterTerms(out.regs[FIRST_REG..LAST_REG + 1])), List(RecTerms(output))])
  }

  // ----- replay

  predicate IsTransaction(t: Term) {
    && t.List? && |t.elts| == 6
    && t.elts[0].Integer? && t.elts[1].Address? && t.elts[2].List? && t.elts[3].List? && t.elts[4].List?
       && t.elts[5].List?
  }

  predicate IsRecord(t: Term) {
    t.List? && |t.elts| == 2 && t.elts[0].Address? && t.elts[1].Blob?
  }

  /** Checks input registers i to LAST_REG against the terms from ts[i - FIRST_REG] on. */
  function CheckRegisters(regs: seq<int>, ts: seq<Term>, i: nat): Result<()>
    requires |regs| == 32 && FIRST_REG <= i <= LAST_REG + 1
    decreases LAST_REG + 1 - i
  {
    var k := i - FIRST_REG;
    if i > LAST_REG then if |ts| > k then Fatal(TooManyRegisters) else Ok(())
    else if k >= |ts| || !ts[k].Address? then Fatal(MissingRegister)
    else if regs[i] != RegisterOf(ts[k].v) then Fatal(InputMismatch)
    else CheckRegisters(regs, ts, i + 1)
  }

  /** Writes output registers i to LAST_REG from the terms after the break point. */
  function SetRegisters(regs: seq<int>, ts: seq<Term>, i: nat): (r: Result<seq<int>>)
    requires |regs| == 32 && FIRST_REG <= i <= LAST_REG + 1
    decreases LAST_REG + 1 - i
  {
    var k := i - FIRST_REG;
    if i > LAST_REG then if |ts| > k then Fatal(TooManyRegisters) else Ok(regs)
    else if k >= |ts| || !ts[k].Address? then Fatal(MissingRegister)
    else SetRegisters(regs[i := RegisterOf(ts[k].v)], ts, i + 1)
  }

  /** Reads the cells one by one and compares. */
  function CheckCells(m: Mem, cs: seq<Cell>): (r: Result<Mem>)
    requires |m.table| == BUCKETS
    ensures r.Ok? ==> |r.value.table| == BUCKETS
  {
    if cs == [] then Ok(m)
    else
      var c := cs[|cs| - 1];
      match CheckCells(m, cs[..|cs| - 1])
      case Fatal(e) => Fatal(e)
      case Ok(m1) => if Load(m1.table, c.loc) != c.val then Fatal(InputMismatch) else Ok(AfterRead(m1, c.loc))
  }

  function CellsOf(t: Term): seq<Cell>
    requires IsRecord(t)
  {
    CellsAt(Narrow(t.elts[0].v), t.elts[1].data)
  }

  function CheckInputs(m: Mem, ts: seq<Term>): (r: Result<Mem>)
    requires |m.table| == BUCKETS
    ensures r.Ok? ==> |r.value.table| == BUCKETS
  {
    if ts == [] then Ok(m)
    else
      match CheckInputs(m, ts[..|ts| - 1])
      case Fatal(e) => Fatal(e)
      case Ok(m1) =>
        if IsRecord(ts[|ts| - 1]) then CheckCells(m1, CellsOf(ts[|ts| - 1])) else Fatal(BadMemoryTransaction)
  }

  function WriteOutputs(m: Mem, ts: seq<Term>): (r: Result<Mem>)
    requires |m.table| == BUCKETS
    ensures r.Ok? ==> |r.value.table| == BUCKETS
  {
    if ts == [] then Ok(m)
    else
      match WriteOutputs(m, ts[..|ts| - 1])
      case Fatal(e) => Fatal(e)
      case Ok(m1) =>
        if IsRecord(ts[|ts| - 1]) then Ok(Store(m1, CellsOf(ts[|ts| - 1]))) else Fatal(BadMemoryTransaction)
  }

  datatype Replayed = Replayed(brk: nat, regs: seq<int>, mem: Mem)

  /** eio_read_trace. An exit call is executed for real, whatever the trace holds, and ends the replay. */
  function Replay(icnt: nat, pc: nat, regs: seq<int>, m: Mem, t: Term): Result<Replayed>
    requires |regs| == 32 && |m.table| == BUCKETS
  {
    if regs[FIRST_REG] == EXIT_SYSCALL then Fatal(ExitCall)
    else if !IsTransaction(t) then Fatal(BadTransaction)
    else if t.elts[0].v != Widen(icnt) then Fatal(IcntMismatch)
    else if Narrow(t.elts[1].v) != pc then Fatal(PcMismatch)
    else
      match CheckRegisters(regs, t.elts[2].elts, FIRST_REG)
      case Fatal(e) => Fatal(e)
      case Ok(_) =>
      match CheckInputs(m, t.elts[3].elts)
      case Fatal(e) => Fatal(e)
      case Ok(m1) =>
        var outs := t.elts[4].elts;
        if outs == [] || !outs[0].Address? then Fatal(MissingBreak)
        else
          match SetRegisters(regs, outs[1..], FIRST_REG)
          case Fatal(e) => Fatal(e)
          case Ok(regs1) =>
          match WriteOutputs(m1, t.elts[5].elts)
          case Fatal(e) => Fatal(e)
          case Ok(m2) => Ok(Replayed(Narrow(outs[0].v), regs1, m2))
  }
}
