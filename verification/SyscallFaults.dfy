/** Calls whose memory accesses may fault. The recorder notes a faulting access like any other, a read by
    what its buffer holds and a write by the bytes it would have written, so a replay need not repeat the
    call; here is exactly when it does. */
module SyscallFaults {
  import opened Arithmetic
  import opened Exo
  import opened FlatMemory
  import opened MemoryModel
  import opened MemoryTheorems
  import opened SyscallReplay
  import opened SyscallTrace

  predicate Faults(x: Access) {
    Check(x.addr, Size(x)) != NoFault
  }

  // ----- the reads

  /** Every buffer a faulting read was given already holds the bytes the memory has at the place. */
  ghost predicate BuffersMatch(m: Mem, xs: seq<Access>)
    requires |m.table| == BUCKETS
  {
    forall i :: 0 <= i < |xs| && xs[i].Read? && Faults(xs[i]) ==> Holds(m.table, CellsAt(xs[i].addr, xs[i].buf))
  }

  lemma {:induction false} BuffersMatchStep(m: Mem, xs: seq<Access>)
    requires |m.table| == BUCKETS && |xs| > 0
    ensures var x := xs[|xs| - 1];
            BuffersMatch(m, xs) <==>
              BuffersMatch(m, xs[..|xs| - 1]) && (x.Read? && Faults(x) ==> Holds(m.table, CellsAt(x.addr, x.buf)))
  {
    hide Holds;
    hide CellsAt;
    hide Faults;
    var xs0 := xs[..|xs| - 1];
    if BuffersMatch(m, xs) {
      forall i | 0 <= i < |xs0| && xs0[i].Read? && Faults(xs0[i])
        ensures Holds(m.table, CellsAt(xs0[i].addr, xs0[i].buf)) {
        assert xs[i] == xs0[i];
      }
    } else {
      var i :| 0 <= i < |xs| && xs[i].Read? && Faults(xs[i]) && !Holds(m.table, CellsAt(xs[i].addr, xs[i].buf));
      assert i < |xs0| ==> xs0[i] == xs[i];
    }
  }

  /** Before the first write the memory is as it was, faults or not. */
  lemma {:induction false} NoWriteNoChange(m: Mem, xs: seq<Access>)
    requires |m.table| == BUCKETS && MemOk(m) && !HasWrite(xs)
    ensures Unaltered(m, Run(m, xs))
  {
    hide MemOk;
    hide Unaltered;
    hide After;
    if xs != [] {
      NoWriteNoChange(m, xs[..|xs| - 1]);
      ReadLeavesMemory(m, Run(m, xs[..|xs| - 1]), xs[|xs| - 1]);
    } else {
      UnalteredNone(m);
    }
  }

  lemma {:induction false} AddressedPrefix(xs: seq<Access>)
    requires Addressed(xs) && |xs| > 0
    ensures Addressed(xs[..|xs| - 1]) && xs[|xs| - 1].addr < ADDRESS_SPACE
  {
  }

  /** What one more read adds to the recorded cells is in memory unless the read faults with other bytes in its
      buffer. */
  lemma {:induction false} ReadAdds(m: Mem, m1: Mem, x: Access)
    requires |m.table| == BUCKETS && Unaltered(m, m1) && x.Read? && x.addr < ADDRESS_SPACE
    ensures |m1.table| == BUCKETS
    ensures Holds(m.table, CellsAt(x.addr, AnswerTo(m1, x).data)) <==>
              (Faults(x) ==> Holds(m.table, CellsAt(x.addr, x.buf)))
  {
    hide MemOk;
    hide Holds;
    hide CellsAt;
    hide Load;
    hide Mapped;
    if !Faults(x) {
      AnswerHolds(m1, x);
      HoldsUnaltered(m, m1, CellsAt(x.addr, AnswerTo(m1, x).data));
    }
  }

  lemma {:induction false} ReadCellsMatch(m: Mem, xs: seq<Access>)
    requires |m.table| == BUCKETS && MemOk(m) && Addressed(xs) && ReadsFirst(xs)
    ensures Holds(m.table, ReadCells(m, xs)) <==> BuffersMatch(m, xs)
  {
    hide MemOk;
    hide Holds;
    hide After;
    hide AnswerTo;
    hide CellsAt;
    hide Unaltered;
    hide ReadsFirst;
    hide Addressed;
    hide BuffersMatch;
    hide Faults;
    if xs != [] {
      var xs0, x := xs[..|xs| - 1], xs[|xs| - 1];
      AddressedPrefix(xs);
      ReadsFirstStep(xs);
      ReadCellsMatch(m, xs0);
      BuffersMatchStep(m, xs);
      if x.Read? {
        NoWriteNoChange(m, xs0);
        ReadAdds(m, Run(m, xs0), x);
        HoldsJoin(m.table, ReadCells(m, xs0), CellsAt(x.addr, AnswerTo(Run(m, xs0), x).data));
      } else {
        assert ReadCells(m, xs) == ReadCells(m, xs0) + [] == ReadCells(m, xs0);
      }
    } else {
      NothingMatches(m);
    }
  }

  lemma {:induction false} NothingMatches(m: Mem)
    requires |m.table| == BUCKETS
    ensures Holds(m.table, ReadCells(m, [])) && BuffersMatch(m, [])
  {
  }

  // ----- the writes

  /** The byte at a after the cells have been written over v. */
  function Final(cs: seq<Cell>, a: nat, v: Byte): Byte {
    if cs == [] then v
    else if cs[|cs| - 1].loc == a then cs[|cs| - 1].val
    else Final(cs[..|cs| - 1], a, v)
  }

  predicate Covers(cs: seq<Cell>, a: nat) {
    exists i :: 0 <= i < |cs| && cs[i].loc == a
  }

  lemma {:induction false} FinalJoin(b: seq<Cell>, c: seq<Cell>, a: nat, v: Byte)
    ensures Final(b + c, a, v) == Final(c, a, Final(b, a, v))
  {
    if c == [] {
      assert b + c == b;
    } else {
      var d := b + c;
      assert d[..|d| - 1] == b + c[..|c| - 1] && d[|d| - 1] == c[|c| - 1];
      FinalJoin(b, c[..|c| - 1], a, v);
    }
  }

  lemma {:induction false} FinalCovered(cs: seq<Cell>, a: nat, v: Byte, w: Byte)
    ensures if Covers(cs, a) then Final(cs, a, v) == Final(cs, a, w) else Final(cs, a, v) == v
  {
    if cs != [] {
      var n := |cs| - 1;
      FinalCovered(cs[..n], a, v, w);
      if Covers(cs, a) && cs[n].loc != a {
        var i :| 0 <= i < |cs| && cs[i].loc == a;
        assert cs[..n][i].loc == a;
      } else if Covers(cs[..n], a) {
        var i :| 0 <= i < n && cs[..n][i].loc == a;
        assert cs[i].loc == a;
      } else if cs[n].loc == a {
        assert Covers(cs, a);
      }
    }
  }

  lemma {:induction false} StoreLoads(m: Mem, cs: seq<Cell>, a: nat)
    requires |m.table| == BUCKETS && MemOk(m) && InSpace(cs) && a < ADDRESS_SPACE
    ensures MemOk(Store(m, cs)) && Load(Store(m, cs).table, a) == Final(cs, a, Load(m.table, a))
  {
    hide MemOk;
    hide Load;
    hide AfterWrite;
    hide Mapped;
    if cs != [] {
      StoreLoads(m, cs[..|cs| - 1], a);
      WriteOk(Store(m, cs[..|cs| - 1]), cs[|cs| - 1].loc, cs[|cs| - 1].val);
    }
  }

  /** The last write that covers a either did not fault or would have written the byte that is there. */
  predicate Landed(m: Mem, xs: seq<Access>, a: nat)
    requires |m.table| == BUCKETS
  {
    if xs == [] then true
    else
      var xs0, x := xs[..|xs| - 1], xs[|xs| - 1];
      if x.Write? && Covers(CellsAt(x.addr, x.bytes), a) then
        var there := Load(Run(m, xs0).table, a);
        Faults(x) ==> Final(CellsAt(x.addr, x.bytes), a, there) == there
      else Landed(m, xs0, a)
  }

  /** One write, in the memory that the accesses before it leave. */
  lemma {:induction false} WriteLands(m: Mem, x: Access, a: nat)
    requires |m.table| == BUCKETS && MemOk(m) && x.Write? && x.addr < ADDRESS_SPACE && a < ADDRESS_SPACE
    ensures var there := Load(m.table, a);
            Load(After(m, x).table, a) == if Faults(x) then there else Final(CellsAt(x.addr, x.bytes), a, there)
  {
    hide MemOk;
    hide Load;
    hide Final;
    hide Store;
    hide CellsAt;
    if !Faults(x) {
      AccessCells(m, x);
      hide After;
      CellsAtInSpace(x.addr, x.bytes);
      StoreLoads(m, CellsAt(x.addr, x.bytes), a);
    }
  }

  lemma {:induction false} ReadLands(m: Mem, x: Access, a: nat)
    requires |m.table| == BUCKETS && MemOk(m) && x.Read?
    ensures Load(After(m, x).table, a) == Load(m.table, a)
  {
    hide MemOk;
    hide Load;
    hide After;
    hide Unaltered;
    UnalteredNone(m);
    ReadLeavesMemory(m, m, x);
    UnalteredLoads(m, After(m, x), a);
  }

  lemma {:induction false} RunOk(m: Mem, xs: seq<Access>)
    requires |m.table| == BUCKETS && MemOk(m) && Addressed(xs)
    ensures MemOk(Run(m, xs))
  {
    hide MemOk;
    hide After;
    if xs != [] {
      RunOk(m, xs[..|xs| - 1]);
      StepOk(Run(m, xs[..|xs| - 1]), xs[|xs| - 1]);
    }
  }

  lemma {:induction false} StepOk(m: Mem, x: Access)
    requires |m.table| == BUCKETS && MemOk(m) && x.addr < ADDRESS_SPACE
    ensures MemOk(After(m, x))
  {
    hide MemOk;
    hide ReadBytes;
    hide WriteBytes;
    hide Check;
    if !Faults(x) {
      if Size(x) > 0 { WithinPage(x.addr, Size(x)); }
      if x.Read? {
        ReadBytesOk(m, x.addr, |x.buf|);
      } else {
        WriteBytesOk(m, x.addr, x.bytes);
      }
    }
  }

  lemma {:induction false} WritesLand(m: Mem, xs: seq<Access>, a: nat)
    requires |m.table| == BUCKETS && MemOk(m) && Addressed(xs) && a < ADDRESS_SPACE
    ensures Final(WriteCells(xs), a, Load(m.table, a)) == Load(Run(m, xs).table, a) <==> Landed(m, xs, a)
  {
    hide MemOk;
    hide Load;
    hide After;
    hide CellsAt;
    hide Covers;
    hide Final;
    hide Faults;
    hide Addressed;
    if xs == [] {
      NothingFinal(a, Load(m.table, a));
    } else {
      var xs0, x := xs[..|xs| - 1], xs[|xs| - 1];
      AddressedPrefix(xs);
      WritesLand(m, xs0, a);
      RunOk(m, xs0);
      if x.Read? {
        ReadLands(Run(m, xs0), x, a);
        assert WriteCells(xs) == WriteCells(xs0) + [] == WriteCells(xs0);
      } else {
        var c, v := CellsAt(x.addr, x.bytes), Load(m.table, a);
        WriteLands(Run(m, xs0), x, a);
        FinalJoin(WriteCells(xs0), c, a, v);
        FinalCovered(c, a, Final(WriteCells(xs0), a, v), Load(Run(m, xs0).table, a));
        FinalCovered(c, a, Load(Run(m, xs0).table, a), v);
      }
    }
  }

  lemma {:induction false} NothingFinal(a: nat, v: Byte)
    ensures Final([], a, v) == v
  {
  }

  // ----- replaying a call that may fault

  /** Like CallOk, but accesses may fault. */
  ghost predicate AnyCallOk(regs: seq<int>, call: Call) {
    && |regs| == 32 && |call.out.regs| == 32 && RegsOk(regs) && RegsOk(call.out.regs)
    && regs[2] != 1
    && Addressed(call.accesses) && ReadsFirst(call.accesses) && call.out.brk < ADDRESS_SPACE
    && forall j :: 0 <= j < 32 && !(2 <= j <= 7) ==> call.out.regs[j] == regs[j]
  }

  /** A recorded call that reads before it writes is replayed from the state it was recorded in exactly when the
      buffers of its faulting reads match that memory, and then with the same registers and break point; the byte
      at an address ends as in the call exactly when the last write there landed. */
  lemma {:induction false} ReplayWithFaults(icnt: nat, pc: nat, regs: seq<int>, m: Mem, call: Call, a: nat)
    requires |m.table| == BUCKETS && MemOk(m) && |regs| == 32 && |call.out.regs| == 32 && AnyCallOk(regs, call)
    requires icnt < QWORD && pc < ADDRESS_SPACE && a < ADDRESS_SPACE
    ensures Record(m, call.accesses).Ok?
    ensures var r := Replay(icnt, pc, regs, m, Recorded(icnt, pc, regs, m, call));
            && (r.Ok? <==> BuffersMatch(m, call.accesses))
            && (r.Ok? ==>
                  && r.value.brk == call.out.brk && r.value.regs == call.out.regs && |r.value.mem.table| == BUCKETS
                  && Load(r.value.mem.table, a) == Final(WriteCells(call.accesses), a, Load(m.table, a))
                  && (Load(r.value.mem.table, a) == Load(Run(m, call.accesses).table, a)
                      <==> Landed(m, call.accesses, a)))
  {
    hide MemOk;
    hide Holds;
    hide Replay;
    hide Transaction;
    hide RecsOk;
    hide RegsOk;
    hide Addressed;
    hide ReadsFirst;
    hide Record;
    hide Run;
    hide Taken;
    hide Touch;
    hide Store;
    hide Load;
    hide Final;
    hide Landed;
    hide BuffersMatch;
    hide Unaltered;
    hide InSpace;
    var xs := call.accesses;
    RecordsEverything(m, xs);
    var r := Record(m, xs).value;
    ReadCellsMatch(m, xs);
    ReplaysExactly(icnt, pc, regs, r.input, call.out, r.output, icnt, pc, regs, m);
    TakenIsOut(regs, call.out.regs);
    var m1 := Touch(m, Cells(r.input));
    TouchOk(m, Cells(r.input));
    UnalteredOk(m, m1);
    UnalteredLoads(m, m1, a);
    RecordedInSpace(r.output);
    StoreLoads(m1, Cells(r.output), a);
    WritesLand(m, xs, a);
  }

  /** A misaligned write of two bytes to untouched memory: the call leaves zeros, its replay stores the bytes. */
  lemma {:induction false} FaultingWriteReplays(icnt: nat, pc: nat, regs: seq<int>)
    requires |regs| == 32 && RegsOk(regs) && regs[2] != 1 && icnt < QWORD && pc < ADDRESS_SPACE
    ensures var call := Call([Write(1, [7, 7])], Outcome(0, regs));
            && Record(Empty(), call.accesses).Ok? && Load(Run(Empty(), call.accesses).table, 1) == 0
            && var r := Replay(icnt, pc, regs, Empty(), Recorded(icnt, pc, regs, Empty(), call));
               r.Ok? && |r.value.mem.table| == BUCKETS && Load(r.value.mem.table, 1) == 7
  {
    var x := Write(1, [7, 7]);
    var call := Call([x], Outcome(0, regs));
    hide MemOk;
    hide Agree;
    hide Record;
    hide Replay;
    hide Recorded;
    hide WriteCells;
    hide Run;
    hide Load;
    hide RegsOk;
    hide BuffersMatch;
    hide Landed;
    EmptyOk();
    OneFault(x);
    ReplayWithFaults(icnt, pc, regs, Empty(), call, 1);
  }

  lemma {:induction false} OneFault(x: Access)
    requires x == Write(1, [7, 7])
    ensures |Empty().table| == BUCKETS && Load(Empty().table, 1) == 0 && Run(Empty(), [x]) == Empty()
    ensures WriteCells([x]) == [Cell(1, 7), Cell(2, 7)] && Final(WriteCells([x]), 1, 0) == 7
    ensures BuffersMatch(Empty(), [x])
  {
    assert Check(1, 2) == AlignmentFault by { assert IsPow2(2); }
    assert [x][..0] == [];
    assert Run(Empty(), []) == Empty();
    assert CellsAt(1, [7, 7]) == [Cell(1, 7), Cell(2, 7)];
    assert WriteCells([x]) == WriteCells([]) + CellsAt(1, [7, 7]);
    var cs := [Cell(1, 7), Cell(2, 7)];
    assert cs[..1] == [Cell(1, 7)];
    assert Final(cs[..1], 1, 0) == 7;
  }
}
