/** Which terms of an EIO file the readers accept, whoever wrote them, and what they make of them: the layout of a
    transaction and of a checkpoint, element by element. */
module EioTerms {
  import opened Arithmetic
  import opened Checkpoint
  import opened Exo
  import opened FlatMemory
  import opened MemoryModel
  import opened MemoryTheorems
  import opened SyscallReplay
  import opened SyscallTrace

  /** All the terms are addresses. */
  predicate Addresses(ts: seq<Term>) {
    forall k :: 0 <= k < |ts| ==> ts[k].Address?
  }

  /** All the terms are pairs of an address and bytes. */
  predicate Records(ts: seq<Term>) {
    forall k :: 0 <= k < |ts| ==>
      ts[k].List? && |ts[k].elts| == 2 && ts[k].elts[0].Address? && ts[k].elts[1].Blob?
  }

  /** The memory cells that a list of such pairs names. */
  function CellsNamed(ts: seq<Term>): seq<Cell>
    requires Records(ts)
  {
    if ts == [] then []
    else
      var r := ts[|ts| - 1].elts;
      CellsNamed(ts[..|ts| - 1]) + CellsAt(r[0].v % 0x1_0000_0000, r[1].data)
  }

  // ----- registers

  /** The terms from number i - 2 on are as registers i to 7 say. */
  predicate RegistersAre(regs: seq<int>, ts: seq<Term>, i: nat)
    requires |regs| == 32
  {
    forall k :: i - 2 <= k < 6 && 0 <= k < |ts| ==> ts[k].Address? && Signed(ts[k].v) == regs[k + 2]
  }

  lemma {:induction false} CheckRegistersAccepts(regs: seq<int>, ts: seq<Term>, i: nat)
    requires |regs| == 32 && 2 <= i <= 8
    ensures CheckRegisters(regs, ts, i).Ok? <==> |ts| <= 6 && (i <= 7 ==> |ts| == 6) && RegistersAre(regs, ts, i)
    decreases 8 - i
  {
    hide Signed;
    if i <= 7 { CheckRegistersAccepts(regs, ts, i + 1); }
  }

  /** regs with registers i to 7 taken from the terms. */
  function FromTerms(regs: seq<int>, ts: seq<Term>, i: nat): (r: seq<int>)
    requires |regs| == 32 && |ts| == 6 && 2 <= i && forall k :: i - 2 <= k < 6 ==> ts[k].Address?
    ensures |r| == 32
  {
    seq(32, j requires 0 <= j < 32 => if i <= j <= 7 then Signed(ts[j - 2].v) else regs[j])
  }

  lemma {:induction false} SetRegistersAccepts(regs: seq<int>, ts: seq<Term>, i: nat)
    requires |regs| == 32 && 2 <= i <= 8
    ensures var r := SetRegisters(regs, ts, i);
            && (r.Ok? <==> |ts| <= 6 && (i <= 7 ==> |ts| == 6) && forall k :: i - 2 <= k < |ts| ==> ts[k].Address?)
            && (r.Ok? && |ts| == 6 ==> r.value == FromTerms(regs, ts, i))
    decreases 8 - i
  {
    hide Signed;
    if i <= 7 && i - 2 < |ts| && ts[i - 2].Address? {
      SetRegistersAccepts(regs[i := RegisterOf(ts[i - 2].v)], ts, i + 1);
    }
  }

  // ----- memory records

  lemma {:induction false} RecordsStep(ts: seq<Term>)
    requires ts != []
    ensures Records(ts) <==> Records(ts[..|ts| - 1]) && IsRecord(ts[|ts| - 1])
    ensures Records(ts) ==> CellsNamed(ts) == CellsNamed(ts[..|ts| - 1]) + CellsOf(ts[|ts| - 1])
  {
    hide CellsAt;
    var n := |ts| - 1;
    forall k | 0 <= k < n ensures ts[..n][k] == ts[k] { }
  }

  lemma {:induction false} CheckInputsAccepts(m: Mem, ts: seq<Term>)
    requires |m.table| == BUCKETS && MemOk(m)
    ensures var r := CheckInputs(m, ts);
            && (r.Ok? <==> Records(ts) && Holds(m.table, CellsNamed(ts)))
            && (r.Ok? ==> r.value == Touch(m, CellsNamed(ts)))
  {
    hide MemOk;
    hide Holds;
    hide Load;
    hide Unaltered;
    hide Touch;
    hide CheckCells;
    hide CellsOf;
    hide CellsNamed;
    hide Records;
    hide IsRecord;
    if ts == [] {
      NothingNamed();
      HoldsNone(m.table);
      TouchNone(m);
    } else {
      var ts0, t := ts[..|ts| - 1], ts[|ts| - 1];
      CheckInputsAccepts(m, ts0);
      RecordsStep(ts);
      if Records(ts) {
        HoldsJoin(m.table, CellsNamed(ts0), CellsOf(t));
        if Holds(m.table, CellsNamed(ts0)) {
          var m1 := Touch(m, CellsNamed(ts0));
          TouchOk(m, CellsNamed(ts0));
          UnalteredOk(m, m1);
          CheckCellsExactly(m1, CellsOf(t));
          HoldsUnaltered(m, m1, CellsOf(t));
          TouchJoin(m, CellsNamed(ts0), CellsOf(t));
        }
      }
    }
  }

  lemma {:induction false} NothingNamed()
    ensures Records([]) && CellsNamed([]) == []
  {
  }

  lemma {:induction false} WriteOutputsAccepts(m: Mem, ts: seq<Term>)
    requires |m.table| == BUCKETS
    ensures var r := WriteOutputs(m, ts);
            && (r.Ok? <==> Records(ts))
            && (r.Ok? ==> r.value == Store(m, CellsNamed(ts)))
  {
    hide Store;
    hide CellsOf;
    hide CellsNamed;
    hide Records;
    hide IsRecord;
    if ts == [] {
      NothingNamed();
      StoreNone(m);
    } else {
      var ts0, t := ts[..|ts| - 1], ts[|ts| - 1];
      WriteOutputsAccepts(m, ts0);
      RecordsStep(ts);
      if Records(ts) { StoreJoin(m, CellsNamed(ts0), CellsOf(t)); }
    }
  }

  // ----- transactions

  /** The kinds of the elements of a transaction: the instruction count, the PC, six registers, the bytes read, the
      break point with six registers, the bytes written. */
  predicate TransactionShape(t: Term) {
    && t.List? && |t.elts| == 6
    && var e := t.elts;
       && e[0].Integer? && e[1].Address?
       && e[2].List? && |e[2].elts| == 6 && Addresses(e[2].elts)
       && e[3].List? && Records(e[3].elts)
       && e[4].List? && |e[4].elts| == 7 && Addresses(e[4].elts)
       && e[5].List? && Records(e[5].elts)
  }

  lemma {:induction false} AddressesAfter(ts: seq<Term>)
    ensures |ts| == 7 && Addresses(ts) <==>
              ts != [] && ts[0].Address? && |ts[1..]| == 6 && forall k :: 0 <= k < |ts[1..]| ==> ts[1..][k].Address?
  {
    if ts != [] && ts[0].Address? && |ts[1..]| == 6 && forall k :: 0 <= k < |ts[1..]| ==> ts[1..][k].Address? {
      forall k | 0 <= k < |ts| ensures ts[k].Address? { assert k > 0 ==> ts[k] == ts[1..][k - 1]; }
    }
  }

  lemma {:induction false} RegistersAll(regs: seq<int>, ts: seq<Term>)
    requires |regs| == 32 && |ts| == 6
    ensures RegistersAre(regs, ts, 2) <==> Addresses(ts) && forall k :: 0 <= k < 6 ==> Signed(ts[k].v) == regs[k + 2]
  {
    hide Signed;
  }

  /** Whatever term is offered as a transaction, it is accepted exactly when the call is not exit, the term has the
      shape of a transaction, and its count, its PC, its six input registers and its input bytes are those of the
      machine; it then gives the break point, registers 2 to 7 and the memory. */
  lemma {:induction false} AcceptedExactly(icnt: nat, pc: nat, regs: seq<int>, m: Mem, t: Term)
    requires icnt < QWORD && |regs| == 32 && |m.table| == BUCKETS && MemOk(m)
    ensures var r := Replay(icnt, pc, regs, m, t);
            && (r.Ok? <==>
                  && regs[2] != 1 && TransactionShape(t)
                  && var e := t.elts;
                     && e[0].v == icnt && e[1].v % 0x1_0000_0000 == pc
                     && (forall k :: 0 <= k < 6 ==> Signed(e[2].elts[k].v) == regs[k + 2])
                     && Holds(m.table, CellsNamed(e[3].elts)))
            && (r.Ok? ==>
                  && TransactionShape(t)
                  && var e := t.elts;
                     && r.value.brk == e[4].elts[0].v % 0x1_0000_0000
                     && |r.value.regs| == 32
                     && (forall j :: 0 <= j < 32 ==>
                           r.value.regs[j] == if 2 <= j <= 7 then Signed(e[4].elts[j - 1].v) else regs[j])
                     && r.value.mem == Store(Touch(m, CellsNamed(e[3].elts)), CellsNamed(e[5].elts)))
  {
    hide MemOk;
    hide Holds;
    hide Touch;
    hide Store;
    hide CheckRegisters;
    hide CheckInputs;
    hide SetRegisters;
    hide WriteOutputs;
    hide Signed;
    hide CellsNamed;
    hide Records;
    hide Addresses;
    hide RegistersAre;
    if t.List? && |t.elts| == 6 {
      var e := t.elts;
      if e[2].List? && e[3].List? && e[4].List? && e[5].List? {
        CheckRegistersAccepts(regs, e[2].elts, 2);
        if |e[2].elts| == 6 { RegistersAll(regs, e[2].elts); }
        CheckInputsAccepts(m, e[3].elts);
        AddressesAfter(e[4].elts);
        if e[4].elts != [] { SetRegistersAccepts(regs, e[4].elts[1..], 2); }
        if Records(e[3].elts) { WriteOutputsAccepts(Touch(m, CellsNamed(e[3].elts)), e[5].elts); }
      }
    }
  }

  // ----- checkpoints

  lemma {:induction false} RestoreAccepts(m: Mem, ts: seq<Term>)
    requires |m.table| == BUCKETS
    ensures var r := Restore(m, ts);
            && (r.Ok? <==> Records(ts))
            && (r.Ok? ==> r.value == Store(m, CellsNamed(ts)))
  {
    hide Store;
    hide CellsOf;
    hide CellsNamed;
    hide Records;
    hide IsRecord;
    if ts == [] {
      NothingNamed();
      StoreNone(m);
    } else {
      var ts0, t := ts[..|ts| - 1], ts[|ts| - 1];
      RestoreAccepts(m, ts0);
      RecordsStep(ts);
      if Records(ts) { StoreJoin(m, CellsNamed(ts0), CellsOf(t)); }
    }
  }

  /** The kinds of the eight terms before the pages: the transaction number; the counters and special registers; the
      integer and the floating-point registers; the page count, break point and stack minimum; three segments. */
  predicate HeaderShape(ts: seq<Term>) {
    && |ts| >= 8 && ts[0].Integer? && (forall k :: 1 <= k < 8 ==> ts[k].List?)
    && |ts[1].elts| == 6 && ts[1].elts[0].Integer? && Addresses(ts[1].elts[1..3])
    && ts[1].elts[3].Integer? && ts[1].elts[4].Integer? && ts[1].elts[5].Integer?
    && |ts[2].elts| == 32 && Addresses(ts[2].elts) && |ts[3].elts| == 32 && Addresses(ts[3].elts)
    && |ts[4].elts| == 3 && ts[4].elts[0].Integer? && Addresses(ts[4].elts[1..3])
    && forall k :: 5 <= k < 8 ==> |ts[k].elts| == 2 && ts[k].elts[0].Address? && ts[k].elts[1].Integer?
  }

  lemma {:induction false} TwoAddresses(ts: seq<Term>)
    requires |ts| >= 3
    ensures Addresses(ts[1..3]) <==> ts[1].Address? && ts[2].Address?
  {
    assert ts[1..3] == [ts[1], ts[2]];
  }

  lemma {:induction false} HeaderShapeIs(ts: seq<Term>)
    ensures HeaderShape(ts) <==> IsHeader(ts) && |ts[2].elts| == 32 && Addresses(ts[2].elts)
                                 && |ts[3].elts| == 32 && Addresses(ts[3].elts)
  {
    if |ts| >= 8 && ts[1].List? && |ts[1].elts| == 6 && ts[4].List? && |ts[4].elts| == 3 {
      TwoAddresses(ts[1].elts);
      TwoAddresses(ts[4].elts);
    }
    hide Addresses;
  }

  lemma {:induction false} ReadRegistersAccepts(ts: seq<Term>)
    ensures var r := ReadRegisters(ts);
            && (r.Ok? <==> |ts| == 32 && Addresses(ts))
            && (r.Ok? ==> |r.value| == 32 && forall i :: 0 <= i < 32 ==> r.value[i] == Signed(ts[i].v))
  {
    hide Signed;
  }

  /** Whatever terms are offered as a checkpoint, they are accepted exactly when they begin with such a header and as
      many pages follow as it says; every value is then taken from its own place. */
  lemma {:induction false} RestoredExactly(m: Mem, ts: seq<Term>)
    requires |m.table| == BUCKETS
    ensures var r := ReadBack(m, ts);
            && (r.Ok? <==>
                  && HeaderShape(ts)
                  && var n := Signed(ts[4].elts[0].v); 8 + n <= |ts| && (n > 0 ==> Records(ts[8..8 + n])))
            && (r.Ok? ==>
                  && HeaderShape(ts)
                  && var n, c := Signed(ts[4].elts[0].v), r.value.machine;
                     && r.value.trans == ts[0].v
                     && c.misc == Misc(ts[1].elts[0].v, ts[1].elts[1].v % 0x1_0000_0000,
                                       ts[1].elts[2].v % 0x1_0000_0000, Signed(ts[1].elts[3].v),
                                       Signed(ts[1].elts[4].v), Signed(ts[1].elts[5].v))
                     && |c.iregs| == |c.fregs| == 32
                     && (forall i :: 0 <= i < 32 ==> c.iregs[i] == Signed(ts[2].elts[i].v))
                     && (forall i :: 0 <= i < 32 ==> c.fregs[i] == Signed(ts[3].elts[i].v))
                     && c.loader.brk == ts[4].elts[1].v % 0x1_0000_0000
                     && c.loader.stackMin == ts[4].elts[2].v % 0x1_0000_0000
                     && c.loader.textBase == ts[5].elts[0].v % 0x1_0000_0000
                     && c.loader.textSize == ts[5].elts[1].v % 0x1_0000_0000
                     && c.loader.dataBase == ts[6].elts[0].v % 0x1_0000_0000
                     && c.loader.dataSize == ts[6].elts[1].v % 0x1_0000_0000
                     && c.loader.stackBase == ts[7].elts[0].v % 0x1_0000_0000
                     && c.loader.stackSize == ts[7].elts[1].v % 0x1_0000_0000
                     && (if n > 0 then Records(ts[8..8 + n]) && r.value.mem == Store(m, CellsNamed(ts[8..8 + n]))
                                       && r.value.rest == ts[8 + n..]
                         else r.value.mem == m && r.value.rest == ts[8..]))
  {
    hide Restore;
    hide ReadRegisters;
    hide Store;
    hide CellsNamed;
    hide Records;
    hide Addresses;
    hide HeaderShape;
    hide Signed;
    HeaderShapeIs(ts);
    if IsHeader(ts) {
      ReadRegistersAccepts(ts[2].elts);
      ReadRegistersAccepts(ts[3].elts);
      var n := if Signed(ts[4].elts[0].v) > 0 then Signed(ts[4].elts[0].v) else 0;
      if 8 + n <= |ts| {
        RestoreAccepts(m, ts[8..8 + n]);
        NothingNamed();
        StoreNone(m);
        assert ts[8..8] == [];
      }
    }
  }
}
