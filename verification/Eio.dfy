/** eio.c: the tracing memory accessor, and the writing and reading of system call transactions, over the
    simulated memory. */
module Eio {
  import opened Arithmetic
  import opened Exo
  import opened FlatMemory
  import opened Memory
  import opened MemoryModel
  import opened MemoryTheorems
  import opened SyscallReplay
  import opened SyscallTrace

  /** The memory recorder: the blobs so far in each direction and whether a write has been seen. */
  class Tracer {
    const mem: PageTable
    var input: seq<Rec>
    var output: seq<Rec>
    var seenWrite: bool

    ghost function State(): Recording
      reads this, mem, mem.ptab
    {
      Recording(input, output, mem.State(), seenWrite)
    }

    constructor (mem: PageTable)
      ensures this.mem == mem && input == [] && output == [] && !seenWrite
    {
      this.mem := mem;
      input, output, seenWrite := [], [], false;
    }

    /** my_mem_fn */
    method Trace(x: Access) returns (r: Result<Answer>)
      requires mem.Valid() && x.addr < ADDRESS_SPACE
      modifies this, mem, mem.ptab
      ensures mem.Valid()
      ensures match Step(old(State()), x)
              case Ok(s) => State() == s && r == Ok(AnswerTo(old(mem.State()), x))
              case Fatal(e) => r == Fatal(e)
    {
      hide MemOk;
      hide After;
      hide AnswerTo;
      hide Check;
      if x.Read? && seenWrite {
        return Fatal(ReadAfterWrite);
      }
      if x.Write? {
        seenWrite := true;
        output := Coalesce(output, x.addr, x.bytes);
        var ans := mem.MemAccess(x);
        r := Ok(ans);
      } else {
        var ans := mem.MemAccess(x);
        input := Coalesce(input, x.addr, ans.data);
        r := Ok(ans);
      }
    }

    /** Adds to the last blob, or starts a new one. */
    static method Coalesce(rs: seq<Rec>, addr: nat, bytes: seq<Byte>) returns (rs': seq<Rec>)
      ensures rs' == Add(rs, addr, bytes)
    {
      if |rs| > 0 && Narrow(rs[|rs| - 1].addr + |rs[|rs| - 1].data|) == addr
         && |rs[|rs| - 1].data| + |bytes| < rs[|rs| - 1].room {
        var l := rs[|rs| - 1];
        rs' := rs[|rs| - 1 := l.(data := l.data + bytes)];
        assert rs' == rs[..|rs| - 1] + [Extend(l, bytes)];
      } else {
        rs' := rs + [Rec(addr, bytes, |bytes| + BLOB_TAIL_SIZE)];
      }
    }

    /** eio_write_trace: the call is run through the recorder and its transaction returned. */
    method WriteTrace(icnt: nat, pc: nat, regs: seq<int>, call: Call) returns (r: Result<Term>)
      requires mem.Valid() && Addressed(call.accesses) && |regs| == 32 && |call.out.regs| == 32
      requires input == [] && output == [] && !seenWrite
      modifies this, mem, mem.ptab
      ensures mem.Valid()
      ensures match Record(old(mem.State()), call.accesses)
              case Ok(s) => State() == s && r == Ok(Recorded(icnt, pc, regs, old(mem.State()), call))
              case Fatal(e) => r == Fatal(e)
    {
      hide MemOk;
      hide After;
      hide Step;
      hide Check;
      ghost var m := mem.State();
      var inputRegs := RegisterTerms(regs[FIRST_REG..LAST_REG + 1]);
      var i := 0;
      while i < |call.accesses|
        invariant i <= |call.accesses| && mem.Valid() && Record(m, call.accesses[..i]) == Ok(State())
      {
        assert call.accesses[..i + 1][..i] == call.accesses[..i];
        var ans := Trace(call.accesses[i]);
        i := i + 1;
        if ans.Fatal? {
          FatalStays(m, call.accesses, i);
          return Fatal(ans.reason);
        }
      }
      assert call.accesses[..i] == call.accesses;
      r := Ok(List([Integer(Widen(icnt)), Address(Widen(pc)), List(inputRegs), List(RecTerms(input)),
                    List([Address(Widen(call.out.brk))] + RegisterTerms(call.out.regs[FIRST_REG..LAST_REG + 1])),
                    List(RecTerms(output))]));
    }
  }

  lemma {:induction false} FatalStays(m: Mem, xs: seq<Access>, k: nat)
    requires |m.table| == BUCKETS && k <= |xs| && Record(m, xs[..k]).Fatal?
    ensures Record(m, xs) == Record(m, xs[..k])
  {
    hide Step;
    if k < |xs| {
      assert xs[..|xs| - 1][..k] == xs[..k];
      FatalStays(m, xs[..|xs| - 1], k);
    } else {
      assert xs[..k] == xs;
    }
  }

  // ----- replay

  /** An access to one byte never faults. */
  lemma {:induction false} ByteAccess(m: Mem, a: nat, v: Byte)
    requires |m.table| == BUCKETS
    ensures After(m, Read(a, [0])) == AfterRead(m, a)
            && AnswerTo(m, Read(a, [0])) == Answer(NoFault, [Load(m.table, a)])
    ensures After(m, Write(a, [v])) == AfterWrite(m, a, v)
  {
    hide AfterRead;
    hide AfterWrite;
    hide Load;
    assert a % 1 == 0 && IsPow2(1);
    assert LoadBytes(m.table, a, 1) == [Load(m.table, a)];
    assert ReadBytes(m, a, 0) == m;
    assert [v][..0] == [] && WriteBytes(m, a, []) == m;
  }

  lemma {:induction false} CheckCellsFails(m: Mem, cs: seq<Cell>, k: nat)
    requires |m.table| == BUCKETS && k <= |cs| && CheckCells(m, cs[..k]).Fatal?
    ensures CheckCells(m, cs) == CheckCells(m, cs[..k])
  {
    hide AfterRead;
    hide Load;
    if k < |cs| {
      assert cs[..|cs| - 1][..k] == cs[..k];
      CheckCellsFails(m, cs[..|cs| - 1], k);
    } else {
      assert cs[..k] == cs;
    }
  }

  lemma {:induction false} CheckInputsFails(m: Mem, ts: seq<Term>, k: nat)
    requires |m.table| == BUCKETS && k <= |ts| && CheckInputs(m, ts[..k]).Fatal?
    ensures CheckInputs(m, ts) == CheckInputs(m, ts[..k])
  {
    hide CheckCells;
    if k < |ts| {
      assert ts[..|ts| - 1][..k] == ts[..k];
      CheckInputsFails(m, ts[..|ts| - 1], k);
    } else {
      assert ts[..k] == ts;
    }
  }

  lemma {:induction false} WriteOutputsFails(m: Mem, ts: seq<Term>, k: nat)
    requires |m.table| == BUCKETS && k <= |ts| && WriteOutputs(m, ts[..k]).Fatal?
    ensures WriteOutputs(m, ts) == WriteOutputs(m, ts[..k])
  {
    hide Store;
    if k < |ts| {
      assert ts[..|ts| - 1][..k] == ts[..k];
      WriteOutputsFails(m, ts[..|ts| - 1], k);
    } else {
      assert ts[..k] == ts;
    }
  }

  lemma {:induction false} CheckNoCells(m: Mem, cs: seq<Cell>)
    requires |m.table| == BUCKETS
    ensures CheckCells(m, cs[..0]) == Ok(m)
  {
  }

  lemma {:induction false} CheckCellsStep(m: Mem, cs: seq<Cell>, i: nat, m1: Mem)
    requires |m.table| == |m1.table| == BUCKETS && i < |cs| && CheckCells(m, cs[..i]) == Ok(m1)
    ensures CheckCells(m, cs[..i + 1]) ==
            if Load(m1.table, cs[i].loc) != cs[i].val then Fatal(InputMismatch) else Ok(AfterRead(m1, cs[i].loc))
  {
    hide Load;
    hide AfterRead;
    assert cs[..i + 1][..i] == cs[..i];
  }

  lemma {:induction false} CellsAtEach(addr: nat, bytes: seq<Byte>)
    ensures |CellsAt(addr, bytes)| == |bytes|
    ensures forall i :: 0 <= i < |bytes| ==> CellsAt(addr, bytes)[i] == Cell(Narrow(addr + i), bytes[i])
  {
  }

  /** Reads a recorded blob back byte by byte and compares. */
  method CompareBlob(mem: PageTable, addr: nat, data: seq<Byte>) returns (r: Result<()>)
    requires mem.Valid() && addr < ADDRESS_SPACE
    modifies mem, mem.ptab
    ensures mem.Valid()
    ensures match CheckCells(old(mem.State()), CellsAt(addr, data))
            case Ok(m) => mem.State() == m && r == Ok(())
            case Fatal(e) => r == Fatal(e)
  {
    hide MemOk;
    hide After;
    hide AnswerTo;
    hide AfterRead;
    hide Load;
    hide Narrow;
    hide CellsAt;
    hide CheckCells;
    NarrowNone(addr);
    ghost var m, cs := mem.State(), CellsAt(addr, data);
    CellsAtEach(addr, data);
    CheckNoCells(m, cs);
    var loc, i := addr, 0;
    while i < |data|
      invariant i <= |data| && mem.Valid() && loc == Narrow(addr + i) && loc < ADDRESS_SPACE
      invariant CheckCells(m, cs[..i]) == Ok(mem.State())
    {
      CheckCellsStep(m, cs, i, mem.State());
      ByteAccess(mem.State(), loc, 0);
      var ans := mem.MemAccess(Read(loc, [0]));
      if ans.data != [data[i]] {
        CheckCellsFails(m, cs, i + 1);
        return Fatal(InputMismatch);
      }
      NarrowAdd(addr + i, 1);
      NarrowRange(addr + i + 1);
      loc := Narrow(loc + 1);
      i := i + 1;
    }
    assert cs[..i] == cs;
    r := Ok(());
  }

  /** Writes a recorded blob byte by byte. */
  method WriteBlob(mem: PageTable, addr: nat, data: seq<Byte>)
    requires mem.Valid() && addr < ADDRESS_SPACE
    modifies mem, mem.ptab
    ensures mem.Valid() && mem.State() == Store(old(mem.State()), CellsAt(addr, data))
  {
    hide MemOk;
    hide After;
    hide AnswerTo;
    hide AfterWrite;
    hide Narrow;
    NarrowNone(addr);
    ghost var m, cs := mem.State(), CellsAt(addr, data);
    var loc, i := addr, 0;
    while i < |data|
      invariant i <= |data| && mem.Valid() && loc == Narrow(addr + i) && loc < ADDRESS_SPACE
      invariant mem.State() == Store(m, cs[..i])
    {
      assert cs[..i + 1][..i] == cs[..i];
      ByteAccess(mem.State(), loc, data[i]);
      var ans := mem.MemAccess(Write(loc, [data[i]]));
      NarrowAdd(addr + i, 1);
      NarrowRange(addr + i + 1);
      loc := Narrow(loc + 1);
      i := i + 1;
    }
    assert cs[..i] == cs;
  }

  /** The memory inputs of a transaction. */
  method CheckMemory(mem: PageTable, ts: seq<Term>) returns (r: Result<()>)
    requires mem.Valid()
    modifies mem, mem.ptab
    ensures mem.Valid()
    ensures match CheckInputs(old(mem.State()), ts)
            case Ok(m) => mem.State() == m && r == Ok(())
            case Fatal(e) => r == Fatal(e)
  {
    hide MemOk;
    hide CheckCells;
    hide CellsAt;
    ghost var m := mem.State();
    var i := 0;
    while i < |ts|
      invariant i <= |ts| && mem.Valid() && CheckInputs(m, ts[..i]) == Ok(mem.State())
    {
      assert ts[..i + 1][..i] == ts[..i];
      if !IsRecord(ts[i]) {
        CheckInputsFails(m, ts, i + 1);
        return Fatal(BadMemoryTransaction);
      }
      var same := CompareBlob(mem, Narrow(ts[i].elts[0].v), ts[i].elts[1].data);
      if same.Fatal? {
        CheckInputsFails(m, ts, i + 1);
        return same;
      }
      i := i + 1;
    }
    assert ts[..i] == ts;
    r := Ok(());
  }

  /** The memory outputs of a transaction. */
  method WriteMemory(mem: PageTable, ts: seq<Term>) returns (r: Result<()>)
    requires mem.Valid()
    modifies mem, mem.ptab
    ensures mem.Valid()
    ensures match WriteOutputs(old(mem.State()), ts)
            case Ok(m) => mem.State() == m && r == Ok(())
            case Fatal(e) => r == Fatal(e)
  {
    hide MemOk;
    hide Store;
    hide CellsAt;
    ghost var m := mem.State();
    var i := 0;
    while i < |ts|
      invariant i <= |ts| && mem.Valid() && WriteOutputs(m, ts[..i]) == Ok(mem.State())
    {
      assert ts[..i + 1][..i] == ts[..i];
      if !IsRecord(ts[i]) {
        WriteOutputsFails(m, ts, i + 1);
        return Fatal(BadMemoryTransaction);
      }
      WriteBlob(mem, Narrow(ts[i].elts[0].v), ts[i].elts[1].data);
      i := i + 1;
    }
    assert ts[..i] == ts;
    r := Ok(());
  }

  /** Compares the input registers with the recorded ones. */
  method CompareRegisters(regs: seq<int>, ts: seq<Term>) returns (r: Result<()>)
    requires |regs| == 32
    ensures r == CheckRegisters(regs, ts, FIRST_REG)
  {
    var i := FIRST_REG;
    while i <= LAST_REG
      invariant FIRST_REG <= i <= LAST_REG + 1
      invariant CheckRegisters(regs, ts, FIRST_REG) == CheckRegisters(regs, ts, i)
    {
      if i - FIRST_REG >= |ts| || !ts[i - FIRST_REG].Address? {
        return Fatal(MissingRegister);
      }
      if regs[i] != RegisterOf(ts[i - FIRST_REG].v) {
        return Fatal(InputMismatch);
      }
      i := i + 1;
    }
    r := if |ts| > i - FIRST_REG then Fatal(TooManyRegisters) else Ok(());
  }

  /** Takes the output registers from the transaction. */
  method LoadRegisters(regs0: seq<int>, ts: seq<Term>) returns (r: Result<seq<int>>)
    requires |regs0| == 32
    ensures r == SetRegisters(regs0, ts, FIRST_REG)
  {
    var i, regs := FIRST_REG, regs0;
    while i <= LAST_REG
      invariant FIRST_REG <= i <= LAST_REG + 1 && |regs| == 32
      invariant SetRegisters(regs0, ts, FIRST_REG) == SetRegisters(regs, ts, i)
    {
      if i - FIRST_REG >= |ts| || !ts[i - FIRST_REG].Address? {
        return Fatal(MissingRegister);
      }
      regs := regs[i := RegisterOf(ts[i - FIRST_REG].v)];
      i := i + 1;
    }
    r := if |ts| > i - FIRST_REG then Fatal(TooManyRegisters) else Ok(regs);
  }

  /** eio_read_trace; returns the new break point and registers. */
  method ReadTrace(mem: PageTable, icnt: nat, pc: nat, regs: seq<int>, t: Term) returns (r: Result<Outcome>)
    requires mem.Valid() && |regs| == 32
    modifies mem, mem.ptab
    ensures mem.Valid()
    ensures match Replay(icnt, pc, regs, old(mem.State()), t)
            case Ok(v) => mem.State() == v.mem && r == Ok(Outcome(v.brk, v.regs))
            case Fatal(e) => r == Fatal(e)
  {
    hide MemOk;
    hide CheckInputs;
    hide WriteOutputs;
    hide CheckRegisters;
    hide SetRegisters;
    if regs[FIRST_REG] == EXIT_SYSCALL { return Fatal(ExitCall); }
    if !IsTransaction(t) { return Fatal(BadTransaction); }
    if t.elts[0].v != Widen(icnt) { return Fatal(IcntMismatch); }
    if Narrow(t.elts[1].v) != pc { return Fatal(PcMismatch); }
    var same := CompareRegisters(regs, t.elts[2].elts);
    if same.Fatal? { return Fatal(same.reason); }
    same := CheckMemory(mem, t.elts[3].elts);
    if same.Fatal? { return Fatal(same.reason); }
    var outs := t.elts[4].elts;
    if |outs| == 0 || !outs[0].Address? { return Fatal(MissingBreak); }
    var regs1 := LoadRegisters(regs, outs[1..]);
    if regs1.Fatal? { return Fatal(regs1.reason); }
    same := WriteMemory(mem, t.elts[5].elts);
    if same.Fatal? { return Fatal(same.reason); }
    r := Ok(Outcome(Narrow(outs[0].v), regs1.value));
  }
}
