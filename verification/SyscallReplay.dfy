/** A recorded system call replays exactly where its inputs are as recorded, and repeats the call there. */
module SyscallReplay {
  import opened Exo
  import opened FlatMemory
  import opened MemoryModel
  import opened MemoryTheorems
  import opened SyscallTrace

  // ----- registers

  /** Registers i to 7 of a are those of b. */
  predicate AgreeFrom(a: seq<int>, b: seq<int>, i: nat)
    requires |a| == 32 && |b| == 32
  {
    forall j :: i <= j <= 7 ==> a[j] == b[j]
  }

  lemma {:induction false} RegisterTermAt(regs: seq<int>, i: nat)
    requires RegsOk(regs) && FIRST_REG <= i <= LAST_REG
    ensures var ts := RegisterTerms(regs[FIRST_REG..LAST_REG + 1]);
            i - FIRST_REG < |ts| == LAST_REG + 1 - FIRST_REG && ts[i - FIRST_REG].Address?
                && RegisterOf(ts[i - FIRST_REG].v) == regs[i]
  {
    RegisterRoundTrip(regs[i]);
  }

  lemma {:induction false} CheckRegistersExactly(regs: seq<int>, was: seq<int>, i: nat)
    requires |regs| == 32 && RegsOk(was) && FIRST_REG <= i <= LAST_REG + 1
    ensures CheckRegisters(regs, RegisterTerms(was[FIRST_REG..LAST_REG + 1]), i)
            == if AgreeFrom(regs, was, i) then Ok(()) else Fatal(InputMismatch)
    decreases LAST_REG + 1 - i
  {
    hide RegisterOf;
    if i <= LAST_REG {
      RegisterTermAt(was, i);
      CheckRegistersExactly(regs, was, i + 1);
    }
  }

  /** regs with registers i to 7 taken from out. */
  function Taken(regs: seq<int>, out: seq<int>, i: nat): (r: seq<int>)
    requires |regs| == 32 && |out| == 32
  {
    seq(32, j requires 0 <= j < 32 => if i <= j <= 7 then out[j] else regs[j])
  }

  lemma {:induction false} SetRegistersExactly(regs: seq<int>, out: seq<int>, i: nat)
    requires |regs| == 32 && |out| == 32 && RegsOk(out) && FIRST_REG <= i <= LAST_REG + 1
    ensures SetRegisters(regs, RegisterTerms(out[FIRST_REG..LAST_REG + 1]), i) == Ok(Taken(regs, out, i))
    decreases LAST_REG + 1 - i
  {
    hide RegisterOf;
    hide RegsOk;
    if i <= LAST_REG {
      RegisterTermAt(out, i);
      SetRegistersExactly(regs[i := out[i]], out, i + 1);
      assert Taken(regs[i := out[i]], out, i + 1) == Taken(regs, out, i);
    } else {
      assert Taken(regs, out, i) == regs;
    }
  }

  // ----- memory inputs

  /** The memory holds the cells. */
  ghost predicate Holds(t: Table, cs: seq<Cell>)
    requires |t| == BUCKETS
  {
    forall i :: 0 <= i < |cs| ==> Load(t, cs[i].loc) == cs[i].val
  }

  lemma {:induction false} TouchOk(m: Mem, cs: seq<Cell>)
    requires |m.table| == BUCKETS && MemOk(m)
    ensures Unaltered(m, Touch(m, cs))
  {
    hide AfterRead;
    hide Unaltered;
    hide MemOk;
    if cs != [] {
      TouchOk(m, cs[..|cs| - 1]);
      UnalteredStep(m, Touch(m, cs[..|cs| - 1]), cs[|cs| - 1].loc);
    } else {
      UnalteredNone(m);
    }
  }

  lemma {:induction false} UnalteredLoads(m: Mem, m': Mem, a: nat)
    requires |m.table| == BUCKETS && Unaltered(m, m')
    ensures |m'.table| == BUCKETS && Load(m'.table, a) == Load(m.table, a)
  {
  }

  lemma {:induction false} HoldsStep(t: Table, cs: seq<Cell>)
    requires |t| == BUCKETS && |cs| > 0
    ensures Holds(t, cs) <==> Holds(t, cs[..|cs| - 1]) && Load(t, cs[|cs| - 1].loc) == cs[|cs| - 1].val
  {
    hide Load;
    if Holds(t, cs[..|cs| - 1]) && Load(t, cs[|cs| - 1].loc) == cs[|cs| - 1].val {
      forall i | 0 <= i < |cs| ensures Load(t, cs[i].loc) == cs[i].val {
        assert i < |cs| - 1 ==> cs[..|cs| - 1][i] == cs[i];
      }
    }
  }

  lemma {:induction false} HoldsNone(t: Table)
    requires |t| == BUCKETS
    ensures Holds(t, [])
  {
  }

  lemma {:induction false} CheckCellsExactly(m: Mem, cs: seq<Cell>)
    requires |m.table| == BUCKETS && MemOk(m)
    ensures CheckCells(m, cs) == if Holds(m.table, cs) then Ok(Touch(m, cs)) else Fatal(InputMismatch)
  {
    hide AfterRead;
    hide MemOk;
    hide Holds;
    hide Load;
    hide Unaltered;
    if cs != [] {
      var cs0 := cs[..|cs| - 1];
      CheckCellsExactly(m, cs0);
      TouchOk(m, cs0);
      UnalteredLoads(m, Touch(m, cs0), cs[|cs| - 1].loc);
      HoldsStep(m.table, cs);
    } else {
      HoldsNone(m.table);
    }
  }

  lemma {:induction false} HoldsJoin(t: Table, a: seq<Cell>, b: seq<Cell>)
    requires |t| == BUCKETS
    ensures Holds(t, a + b) <==> Holds(t, a) && Holds(t, b)
  {
    hide Load;
    if Holds(t, a + b) {
      forall i | 0 <= i < |a| ensures Load(t, a[i].loc) == a[i].val { assert (a + b)[i] == a[i]; }
      forall i | 0 <= i < |b| ensures Load(t, b[i].loc) == b[i].val { assert (a + b)[|a| + i] == b[i]; }
    }
  }

  lemma {:induction false} HoldsUnaltered(m: Mem, m': Mem, cs: seq<Cell>)
    requires |m.table| == BUCKETS && Unaltered(m, m')
    ensures |m'.table| == BUCKETS && (Holds(m'.table, cs) <==> Holds(m.table, cs))
  {
    hide Load;
    hide MemOk;
    hide Mapped;
  }

  lemma {:induction false} RecTermCells(r: Rec)
    requires r.addr < ADDRESS_SPACE
    ensures IsRecord(RecTerm(r)) && CellsOf(RecTerm(r)) == CellsAt(r.addr, r.data)
  {
    AddressRoundTrip(r.addr);
  }

  lemma {:induction false} RecTermsPrefix(rs: seq<Rec>)
    requires |rs| > 0
    ensures RecTerms(rs)[..|rs| - 1] == RecTerms(rs[..|rs| - 1]) && RecTerms(rs)[|rs| - 1] == RecTerm(rs[|rs| - 1])
  {
  }

  lemma {:induction false} CheckInputsExactly(m: Mem, rs: seq<Rec>)
    requires |m.table| == BUCKETS && MemOk(m) && RecsOk(rs)
    ensures CheckInputs(m, RecTerms(rs)) == if Holds(m.table, Cells(rs)) then Ok(Touch(m, Cells(rs)))
            else Fatal(InputMismatch)
  {
    hide MemOk;
    hide Holds;
    hide Load;
    hide Unaltered;
    hide Touch;
    hide CheckCells;
    hide CellsAt;
    hide RecTerm;
    hide CellsOf;
    if rs != [] {
      var rs0, r := rs[..|rs| - 1], rs[|rs| - 1];
      CheckInputsExactly(m, rs0);
      RecTermsPrefix(rs);
      RecTermCells(r);
      HoldsJoin(m.table, Cells(rs0), CellsAt(r.addr, r.data));
      if Holds(m.table, Cells(rs0)) {
        var m1 := Touch(m, Cells(rs0));
        TouchOk(m, Cells(rs0));
        UnalteredOk(m, m1);
        CheckCellsExactly(m1, CellsAt(r.addr, r.data));
        HoldsUnaltered(m, m1, CellsAt(r.addr, r.data));
        TouchJoin(m, Cells(rs0), CellsAt(r.addr, r.data));
      }
    } else {
      HoldsNone(m.table);
      TouchNone(m);
    }
  }

  lemma {:induction false} UnalteredOk(m: Mem, m': Mem)
    requires Unaltered(m, m')
    ensures MemOk(m') && |m'.table| == BUCKETS
  {
  }

  lemma {:induction false} TouchNone(m: Mem)
    requires |m.table| == BUCKETS
    ensures Touch(m, []) == m
  {
  }

  lemma {:induction false} WriteOutputsExactly(m: Mem, rs: seq<Rec>)
    requires |m.table| == BUCKETS && RecsOk(rs)
    ensures WriteOutputs(m, RecTerms(rs)) == Ok(Store(m, Cells(rs)))
  {
    hide Store;
    hide CellsAt;
    hide RecTerm;
    hide CellsOf;
    if rs != [] {
      var rs0, r := rs[..|rs| - 1], rs[|rs| - 1];
      WriteOutputsExactly(m, rs0);
      RecTermsPrefix(rs);
      RecTermCells(r);
      StoreJoin(m, Cells(rs0), CellsAt(r.addr, r.data));
    } else {
      StoreNone(m);
    }
  }

  lemma {:induction false} StoreNone(m: Mem)
    requires |m.table| == BUCKETS
    ensures Store(m, []) == m
  {
  }

  // ----- replay

  /** A replay passes every check exactly when the call is not exit and the instruction count, the PC, the input
      registers and every recorded input byte are as recorded; it then yields the recorded break point and output
      registers and stores the recorded output bytes. */
  lemma {:induction false} ReplaysExactly(icnt: nat, pc: nat, regs: seq<int>, input: seq<Rec>, out: Outcome,
                                          output: seq<Rec>, icnt': nat, pc': nat, regs': seq<int>, m: Mem)
    requires icnt < QWORD && icnt' < QWORD && pc < ADDRESS_SPACE && pc' < ADDRESS_SPACE && out.brk < ADDRESS_SPACE
    requires |regs| == 32 && |out.regs| == 32 && |regs'| == 32 && RegsOk(regs) && RegsOk(out.regs)
             && |m.table| == BUCKETS && MemOk(m)
    requires RecsOk(input) && RecsOk(output)
    ensures var r := Replay(icnt', pc', regs', m, Transaction(icnt, pc, regs, input, out, output));
            && (r.Ok? <==> regs'[2] != 1 && icnt' == icnt && pc' == pc
                           && AgreeFrom(regs', regs, 2) && Holds(m.table, Cells(input)))
            && (r.Ok? ==> r.value == Replayed(out.brk, Taken(regs', out.regs, 2),
                                              Store(Touch(m, Cells(input)), Cells(output))))
            && (icnt' == icnt && pc' == pc && r.Fatal? ==>
                  r.reason == if regs'[2] == 1 then ExitCall else InputMismatch)
  {
    hide RegsOk;
    hide MemOk;
    hide RecsOk;
    hide Holds;
    hide AgreeFrom;
    hide Taken;
    hide Touch;
    hide Store;
    hide CheckRegisters;
    hide CheckInputs;
    hide SetRegisters;
    hide WriteOutputs;
    hide Widen;
    hide Narrow;
    hide RegisterTerms;
    hide RecTerms;
    AddressRoundTrip(pc);
    AddressRoundTrip(out.brk);
    CountRoundTrip(icnt);
    CountRoundTrip(icnt');
    CheckRegistersExactly(regs', regs, FIRST_REG);
    CheckInputsExactly(m, input);
    SetRegistersExactly(regs', out.regs, FIRST_REG);
    WriteOutputsExactly(Touch(m, Cells(input)), output);
    var ts := RegisterTerms(out.regs[FIRST_REG..LAST_REG + 1]);
    assert ([Address(Widen(out.brk))] + ts)[1..] == ts;
  }

  // ----- recording and replaying one call

  lemma {:induction false} SmoothAddressed(xs: seq<Access>)
    requires Smooth(xs)
    ensures Addressed(xs)
  {
    hide Check;
  }

  lemma {:induction false} SmoothPrefix(xs: seq<Access>)
    requires Smooth(xs) && |xs| > 0
    ensures Smooth(xs[..|xs| - 1]) && xs[|xs| - 1].addr < ADDRESS_SPACE
            && Check(xs[|xs| - 1].addr, Size(xs[|xs| - 1])) == NoFault
  {
    hide Check;
    assert xs[|xs| - 1] in xs;
    forall i | 0 <= i < |xs| - 1 ensures xs[..|xs| - 1][i] == xs[i] {
    }
  }

  /** Before the first write every read sees the memory the call started in. */
  lemma {:induction false} ReadsLeaveMemory(m: Mem, xs: seq<Access>)
    requires |m.table| == BUCKETS && MemOk(m) && Smooth(xs) && !HasWrite(xs)
    ensures Unaltered(m, Run(m, xs))
  {
    hide MemOk;
    hide Unaltered;
    hide After;
    hide Smooth;
    if xs != [] {
      var xs0, x := xs[..|xs| - 1], xs[|xs| - 1];
      SmoothPrefix(xs);
      ReadsLeaveMemory(m, xs0);
      ReadLeavesMemory(m, Run(m, xs0), x);
    } else {
      UnalteredNone(m);
    }
  }

  lemma {:induction false} ReadLeavesMemory(m: Mem, m1: Mem, x: Access)
    requires |m.table| == BUCKETS && |m1.table| == BUCKETS && Unaltered(m, m1) && x.Read?
    ensures Unaltered(m, After(m1, x))
  {
    hide ReadBytes;
    hide Check;
    hide MemOk;
    hide Same;
    UnalteredOk(m, m1);
    ReadBytesOk(m1, x.addr, |x.buf|);
    SameChain(m.table, m1.table, ReadBytes(m1, x.addr, |x.buf|).table);
  }

  lemma {:induction false} AnswerHolds(m: Mem, x: Access)
    requires |m.table| == BUCKETS && x.Read? && x.addr < ADDRESS_SPACE && Check(x.addr, Size(x)) == NoFault
    ensures Holds(m.table, CellsAt(x.addr, AnswerTo(m, x).data))
  {
    hide Check;
    hide Load;
    if Size(x) > 0 { WithinPage(x.addr, Size(x)); }
  }

  /** The bytes a call reads are in the memory it starts in. */
  lemma {:induction false} ReadCellsHold(m: Mem, xs: seq<Access>)
    requires |m.table| == BUCKETS && MemOk(m) && Smooth(xs) && ReadsFirst(xs)
    ensures Holds(m.table, ReadCells(m, xs))
  {
    hide MemOk;
    hide Holds;
    hide After;
    hide Smooth;
    hide AnswerTo;
    hide CellsAt;
    hide Unaltered;
    hide ReadsFirst;
    if xs != [] {
      var xs0, x := xs[..|xs| - 1], xs[|xs| - 1];
      SmoothPrefix(xs);
      ReadsFirstStep(xs);
      ReadCellsHold(m, xs0);
      if x.Read? {
        ReadsLeaveMemory(m, xs0);
        AnswerHolds(Run(m, xs0), x);
        HoldsUnaltered(m, Run(m, xs0), CellsAt(x.addr, AnswerTo(Run(m, xs0), x).data));
        HoldsJoin(m.table, ReadCells(m, xs0), CellsAt(x.addr, AnswerTo(Run(m, xs0), x).data));
      } else {
        assert ReadCells(m, xs) == ReadCells(m, xs0);
      }
    } else {
      HoldsNone(m.table);
    }
  }

  /** What a system call that returns does: its memory accesses, then its results. */
  datatype Call = Call(accesses: seq<Access>, out: Outcome)

  /** The call is not exit, none of its accesses faults, it reads before it writes, and of the registers only
      2 to 7 change. */
  ghost predicate CallOk(regs: seq<int>, call: Call) {
    && |regs| == 32 && |call.out.regs| == 32 && RegsOk(regs) && RegsOk(call.out.regs)
    && regs[2] != 1
    && Smooth(call.accesses) && ReadsFirst(call.accesses) && call.out.brk < ADDRESS_SPACE
    && forall j :: 0 <= j < 32 && !(2 <= j <= 7) ==> call.out.regs[j] == regs[j]
  }

  /** The transaction recorded for a call. */
  function Recorded(icnt: nat, pc: nat, regs: seq<int>, m: Mem, call: Call): Term
    requires |regs| == 32 && |call.out.regs| == 32 && |m.table| == BUCKETS && Record(m, call.accesses).Ok?
  {
    var r := Record(m, call.accesses).value;
    Transaction(icnt, pc, regs, r.input, call.out, r.output)
  }

  lemma {:induction false} TakenIsOut(regs: seq<int>, out: seq<int>)
    requires |regs| == 32 && |out| == 32
    requires forall j :: 0 <= j < 32 && !(2 <= j <= 7) ==> out[j] == regs[j]
    ensures Taken(regs, out, 2) == out
  {
  }

  /** Replaying a recorded call from the state it was recorded in passes every check and ends in the very
      same memory, registers and break point. */
  lemma {:induction false} RecordThenReplay(icnt: nat, pc: nat, regs: seq<int>, m: Mem, call: Call)
    requires |m.table| == BUCKETS && MemOk(m) && |regs| == 32 && |call.out.regs| == 32 && CallOk(regs, call)
    requires icnt < QWORD && pc < ADDRESS_SPACE
    ensures Record(m, call.accesses).Ok?
    ensures Replay(icnt, pc, regs, m, Recorded(icnt, pc, regs, m, call))
            == Ok(Replayed(call.out.brk, call.out.regs, Run(m, call.accesses)))
  {
    hide MemOk;
    hide Holds;
    hide Replay;
    hide Transaction;
    hide RecsOk;
    hide RegsOk;
    hide Smooth;
    hide ReadsFirst;
    hide Record;
    hide Run;
    hide Taken;
    hide Touch;
    hide Store;
    var xs := call.accesses;
    SmoothAddressed(xs);
    RecordsEverything(m, xs);
    var r := Record(m, xs).value;
    ReadCellsHold(m, xs);
    ReplaysExactly(icnt, pc, regs, r.input, call.out, r.output, icnt, pc, regs, m);
    RunIsTouchStore(m, xs);
    TakenIsOut(regs, call.out.regs);
  }

  /** A replay elsewhere is rejected as soon as one byte the call read, or one input register, is different. */
  lemma {:induction false} ChangedInputRejected(icnt: nat, pc: nat, regs: seq<int>, m: Mem, call: Call,
                                                regs': seq<int>, m': Mem)
    requires |m.table| == BUCKETS && MemOk(m) && |m'.table| == BUCKETS && MemOk(m')
    requires |regs| == 32 && |call.out.regs| == 32 && CallOk(regs, call) && |regs'| == 32
    requires icnt < QWORD && pc < ADDRESS_SPACE
    requires !AgreeFrom(regs', regs, 2) || !Holds(m'.table, ReadCells(m, call.accesses))
    ensures Record(m, call.accesses).Ok?
    ensures Replay(icnt, pc, regs', m', Recorded(icnt, pc, regs, m, call))
            == Fatal(if regs'[2] == 1 then ExitCall else InputMismatch)
  {
    hide MemOk;
    hide Holds;
    hide Replay;
    hide Transaction;
    hide RecsOk;
    hide RegsOk;
    hide Smooth;
    hide ReadsFirst;
    hide Record;
    hide AgreeFrom;
    var xs := call.accesses;
    SmoothAddressed(xs);
    RecordsEverything(m, xs);
    var r := Record(m, xs).value;
    ReplaysExactly(icnt, pc, regs, r.input, call.out, r.output, icnt, pc, regs', m');
  }

  // ----- recording a replay

  /** The accesses eio_read_trace makes: every recorded input byte is read, every recorded output byte written. */
  function ByteReads(cs: seq<Cell>): (xs: seq<Access>)
    ensures |xs| == |cs| && forall i :: 0 <= i < |cs| ==> xs[i] == Read(cs[i].loc, [0])
  {
    seq(|cs|, i requires 0 <= i < |cs| => Read(cs[i].loc, [0]))
  }

  function ByteWrites(cs: seq<Cell>): (xs: seq<Access>)
    ensures |xs| == |cs| && forall i :: 0 <= i < |cs| ==> xs[i] == Write(cs[i].loc, [cs[i].val])
  {
    seq(|cs|, i requires 0 <= i < |cs| => Write(cs[i].loc, [cs[i].val]))
  }

  ghost predicate InSpace(cs: seq<Cell>) {
    forall i :: 0 <= i < |cs| ==> cs[i].loc < ADDRESS_SPACE
  }

  lemma {:induction false} ByteChecks(a: nat)
    ensures Check(a, 1) == NoFault
  {
    assert a % 1 == 0;
  }

  lemma {:induction false} ReplayAccessesOk(a: seq<Cell>, b: seq<Cell>)
    requires InSpace(a) && InSpace(b)
    ensures Smooth(ByteReads(a) + ByteWrites(b)) && ReadsFirst(ByteReads(a) + ByteWrites(b))
  {
    hide Check;
    var xs := ByteReads(a) + ByteWrites(b);
    forall i | 0 <= i < |xs| ensures xs[i].addr < ADDRESS_SPACE && Check(xs[i].addr, Size(xs[i])) == NoFault {
      ByteChecks(xs[i].addr);
    }
  }

  lemma {:induction false} OneCell(c: Cell)
    requires c.loc < ADDRESS_SPACE
    ensures CellsAt(c.loc, [c.val]) == [c]
  {
  }

  lemma {:induction false} ByteReadsPrefix(cs: seq<Cell>)
    requires |cs| > 0
    ensures ByteReads(cs)[..|cs| - 1] == ByteReads(cs[..|cs| - 1])
    ensures ByteWrites(cs)[..|cs| - 1] == ByteWrites(cs[..|cs| - 1])
  {
  }

  lemma {:induction false} NoWriteInReads(cs: seq<Cell>)
    ensures !HasWrite(ByteReads(cs))
  {
    if cs != [] {
      ByteReadsPrefix(cs);
      NoWriteInReads(cs[..|cs| - 1]);
    }
  }

  lemma {:induction false} ByteAnswer(m: Mem, c: Cell)
    requires |m.table| == BUCKETS && Load(m.table, c.loc) == c.val
    ensures AnswerTo(m, Read(c.loc, [0])).data == [c.val]
  {
    hide Load;
    ByteChecks(c.loc);
    assert LoadBytes(m.table, c.loc, 1) == [c.val];
  }

  lemma {:induction false} ByteReadsSmooth(cs: seq<Cell>)
    requires InSpace(cs)
    ensures Smooth(ByteReads(cs))
  {
    hide Check;
    forall i | 0 <= i < |cs| ensures Check(cs[i].loc, 1) == NoFault {
      ByteChecks(cs[i].loc);
    }
  }

  lemma {:induction false} InSpacePrefix(cs: seq<Cell>)
    requires InSpace(cs) && |cs| > 0
    ensures InSpace(cs[..|cs| - 1]) && cs[|cs| - 1].loc < ADDRESS_SPACE
  {
  }

  lemma {:induction false} ByteReadCells(m: Mem, cs: seq<Cell>)
    requires |m.table| == BUCKETS && MemOk(m) && InSpace(cs) && Holds(m.table, cs)
    ensures ReadCells(m, ByteReads(cs)) == cs
  {
    hide MemOk;
    hide Load;
    hide AnswerTo;
    hide CellsAt;
    hide Run;
    hide Unaltered;
    hide ByteReads;
    hide Holds;
    hide Smooth;
    hide InSpace;
    hide HasWrite;
    ByteReadsSize(cs);
    if cs != [] {
      var n := |cs| - 1;
      var c := cs[n];
      ByteReadsPrefix(cs);
      HoldsStep(m.table, cs);
      InSpacePrefix(cs);
      ByteReadCells(m, cs[..n]);
      NoWriteInReads(cs[..n]);
      ByteReadsSmooth(cs[..n]);
      ReadsLeaveMemory(m, ByteReads(cs[..n]));
      UnalteredLoads(m, Run(m, ByteReads(cs[..n])), c.loc);
      ByteAnswer(Run(m, ByteReads(cs[..n])), c);
      OneCell(c);
    }
  }

  lemma {:induction false} ByteReadsSize(cs: seq<Cell>)
    ensures |ByteReads(cs)| == |cs| && forall i :: 0 <= i < |cs| ==> ByteReads(cs)[i] == Read(cs[i].loc, [0])
  {
  }

  lemma {:induction false} ByteWritesSize(cs: seq<Cell>)
    ensures |ByteWrites(cs)| == |cs| && forall i :: 0 <= i < |cs| ==> ByteWrites(cs)[i] == Write(cs[i].loc, [cs[i].val])
  {
  }

  lemma {:induction false} ByteWriteCells(cs: seq<Cell>)
    requires InSpace(cs)
    ensures WriteCells(ByteWrites(cs)) == cs
  {
    hide CellsAt;
    hide ByteWrites;
    hide ByteReads;
    hide InSpace;
    ByteWritesSize(cs);
    if cs != [] {
      InSpacePrefix(cs);
      ByteReadsPrefix(cs);
      ByteWriteCells(cs[..|cs| - 1]);
      OneCell(cs[|cs| - 1]);
    }
  }

  lemma {:induction false} CellsThenWrites(m: Mem, xs: seq<Access>, cs: seq<Cell>)
    requires |m.table| == BUCKETS && !HasWrite(xs)
    ensures ReadCells(m, xs + ByteWrites(cs)) == ReadCells(m, xs)
    ensures WriteCells(xs + ByteWrites(cs)) == WriteCells(ByteWrites(cs))
  {
    hide AnswerTo;
    hide CellsAt;
    hide Run;
    hide ByteWrites;
    hide HasWrite;
    var ws := ByteWrites(cs);
    ByteWritesSize(cs);
    if cs == [] {
      assert xs + ws == xs;
      NoWriteCells(xs);
    } else {
      ByteReadsPrefix(cs);
      CellsThenWrites(m, xs, cs[..|cs| - 1]);
      AppendWrite(m, xs, ws);
    }
  }

  lemma {:induction false} AppendWrite(m: Mem, xs: seq<Access>, ws: seq<Access>)
    requires |m.table| == BUCKETS && |ws| > 0 && ws[|ws| - 1].Write?
    requires ReadCells(m, xs + ws[..|ws| - 1]) == ReadCells(m, xs)
    requires WriteCells(xs + ws[..|ws| - 1]) == WriteCells(ws[..|ws| - 1])
    ensures ReadCells(m, xs + ws) == ReadCells(m, xs) && WriteCells(xs + ws) == WriteCells(ws)
  {
    hide AnswerTo;
    hide CellsAt;
    hide Run;
    var ys := xs + ws;
    assert ys[..|ys| - 1] == xs + ws[..|ws| - 1] && ys[|ys| - 1] == ws[|ws| - 1];
  }

  lemma {:induction false} RecordedInSpace(rs: seq<Rec>)
    ensures InSpace(Cells(rs))
  {
    hide CellsAt;
    if rs != [] {
      RecordedInSpace(rs[..|rs| - 1]);
      CellsAtInSpace(rs[|rs| - 1].addr, rs[|rs| - 1].data);
    }
  }

  lemma {:induction false} CellsAtInSpace(a: nat, bytes: seq<Byte>)
    ensures InSpace(CellsAt(a, bytes))
  {
  }

  /** Tracing a replay writes a transaction with the same bytes at the same places, whatever blobs it is cut
      into this time; so by ReplaysExactly it accepts the same states and has the same effect. */
  lemma {:induction false} RerecordingKeepsCells(m: Mem, input: seq<Rec>, output: seq<Rec>)
    requires |m.table| == BUCKETS && MemOk(m) && Holds(m.table, Cells(input))
    ensures var again := Record(m, ByteReads(Cells(input)) + ByteWrites(Cells(output)));
            && again.Ok? && RecsOk(again.value.input) && RecsOk(again.value.output)
            && Cells(again.value.input) == Cells(input) && Cells(again.value.output) == Cells(output)
            && again.value.mem == Store(Touch(m, Cells(input)), Cells(output))
  {
    hide MemOk;
    hide Holds;
    hide Record;
    hide RecsOk;
    hide Run;
    hide Touch;
    hide Store;
    hide ReadCells;
    hide WriteCells;
    hide InSpace;
    var a, b := Cells(input), Cells(output);
    RecordedInSpace(input);
    RecordedInSpace(output);
    ReplayAccessesOk(a, b);
    SmoothAddressed(ByteReads(a) + ByteWrites(b));
    RecordsEverything(m, ByteReads(a) + ByteWrites(b));
    RunIsTouchStore(m, ByteReads(a) + ByteWrites(b));
    NoWriteInReads(a);
    CellsThenWrites(m, ByteReads(a), b);
    ByteReadCells(m, a);
    ByteWriteCells(b);
  }
}
