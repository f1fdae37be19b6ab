/** The reference prediction table of the stride prefetcher. */
module StridePrefetcher {
  import opened Arithmetic

  /** The stride from address `from` to address `to`, as a signed 32-bit number. */
  function Delta(to: int, from: int): int {
    Signed(to - from)
  }

  lemma {:induction false} DeltaReaches(to: int, from: int)
    requires 0 <= to < WORD
    ensures (from + Delta(to, from)) % WORD == to
  {
  }

  /** The stride is the one signed 32-bit number that leads from one address to the other, modulo the address space. */
  lemma {:induction false} DeltaExactly(to: nat, from: nat, d: int)
    requires to < 0x1_0000_0000 && from < 0x1_0000_0000
    ensures Delta(to, from) == d <==> -0x8000_0000 <= d < 0x8000_0000 && (from + d) % 0x1_0000_0000 == to
  {
  }

  datatype Phase = INIT | TRANSIENT | STEADY | NO_PREDICTION

  datatype Entry = Entry(tag: nat, prevAddr: nat, stride: int, phase: Phase)

  const CLEARED := Entry(0, 0, 0, INIT)

  /** update_entry */
  function Update(e: Entry, addr: nat, pc: nat): Entry {
    if e.tag != pc then Entry(pc, addr, 0, INIT)
    else
      var s := Delta(addr, e.prevAddr);
      match e.phase
      case INIT => if s == e.stride then Entry(pc, addr, s, STEADY) else Entry(pc, addr, s, TRANSIENT)
      case TRANSIENT => if s == e.stride then Entry(pc, addr, s, STEADY) else Entry(pc, addr, s, NO_PREDICTION)
      case STEADY => if s == e.stride then Entry(pc, addr, s, STEADY) else Entry(pc, addr, e.stride, INIT)
      case NO_PREDICTION => if s == e.stride then Entry(pc, addr, s, TRANSIENT) else Entry(pc, addr, s, NO_PREDICTION)
  }

  /** The address prefetched for, if any. */
  datatype Wanted = Nothing | Address(a: nat)

  function WantedBy(e: Entry, addr: nat): Wanted {
    if e.phase == NO_PREDICTION then Nothing else Address((addr + e.stride) % WORD)
  }

  /** From any entry of this instruction, three accesses at distance d settle it. */
  lemma {:induction false} ThreeStridesSettle(e: Entry, pc: nat, a: nat, b: nat, c: nat, d: int)
    requires e.tag == pc
    requires Delta(a, e.prevAddr) == d && Delta(b, a) == d && Delta(c, b) == d
    ensures Update(Update(Update(e, a, pc), b, pc), c, pc) == Entry(pc, c, d, STEADY)
  {
    hide Delta;
  }

  /** Two settle it exactly when it was initial or already had that stride; in particular an entry of another
      stride that is steady, transient or without a prediction is not settled by two. */
  lemma {:induction false} TwoStridesSettle(e: Entry, pc: nat, a: nat, b: nat, d: int)
    requires e.tag == pc && Delta(a, e.prevAddr) == d && Delta(b, a) == d
    ensures Update(Update(e, a, pc), b, pc).phase == STEADY <==> e.phase == INIT || e.stride == d
  {
    hide Delta;
  }

  /** One entry for each of these phases. */
  lemma {:induction false} TwoStridesDoNotSettle(phase: Phase)
    requires phase != INIT
    ensures Update(Update(Entry(7, 0, 4, phase), 8, 7), 16, 7).phase != STEADY
  {
    TwoStridesSettle(Entry(7, 0, 4, phase), 7, 8, 16, 8);
  }

  // ----- the whole table

  function RowOf(pc: nat, size: nat): (k: nat)
    requires size > 0
    ensures k < size
  {
    pc / 8 % size
  }

  /** One access seen by the prefetcher. */
  datatype Seen = Seen(pc: nat, addr: nat)

  function After(size: nat, h: seq<Seen>): (t: seq<Entry>)
    requires size > 0
    ensures |t| == size
  {
    if h == [] then Blank(size)
    else
      var t, x := After(size, h[..|h| - 1]), h[|h| - 1];
      t[RowOf(x.pc, size) := Update(t[RowOf(x.pc, size)], x.addr, x.pc)]
  }

  /** Bits 3 and up of the instruction addresses agree modulo the table size. */
  predicate SameRow(p: nat, q: nat, size: nat)
    requires size > 0
  {
    p / 8 % size == q / 8 % size
  }

  /** No other instruction of the history uses the slot of pc. */
  ghost predicate Alone(size: nat, h: seq<Seen>, pc: nat)
    requires size > 0
  {
    forall i :: 0 <= i < |h| && SameRow(h[i].pc, pc, size) ==> h[i].pc == pc
  }

  function AddressesOf(h: seq<Seen>, pc: nat): seq<nat> {
    if h == [] then []
    else AddressesOf(h[..|h| - 1], pc) + if h[|h| - 1].pc == pc then [h[|h| - 1].addr] else []
  }

  function Replay(e: Entry, pc: nat, addrs: seq<nat>): Entry {
    if addrs == [] then e else Update(Replay(e, pc, addrs[..|addrs| - 1]), addrs[|addrs| - 1], pc)
  }

  /** A slot that is not shared sees the accesses of its own instruction only. */
  lemma {:induction false} SlotReplays(size: nat, h: seq<Seen>, pc: nat)
    requires size > 0 && Alone(size, h, pc)
    ensures After(size, h)[RowOf(pc, size)] == Replay(CLEARED, pc, AddressesOf(h, pc))
  {
    if h != [] {
      var h0, x := h[..|h| - 1], h[|h| - 1];
      SlotReplays(size, h0, pc);
      if x.pc == pc {
        var a := AddressesOf(h0, pc);
        assert (a + [x.addr])[..|a|] == a;
      } else {
        assert AddressesOf(h, pc) == AddressesOf(h0, pc);
      }
    }
  }

  /** The last access that used the row of pc was by another instruction. */
  ghost predicate Foreign(size: nat, h: seq<Seen>, pc: nat)
    requires size > 0
    decreases |h|
  {
    h != [] && var x := h[|h| - 1];
    if SameRow(x.pc, pc, size) then x.pc != pc else Foreign(size, h[..|h| - 1], pc)
  }

  lemma {:induction false} ForeignTag(size: nat, h: seq<Seen>, pc: nat)
    requires size > 0 && Foreign(size, h, pc)
    ensures After(size, h)[RowOf(pc, size)].tag != pc
  {
    hide Delta;
    var x, h0 := h[|h| - 1], h[..|h| - 1];
    if !SameRow(x.pc, pc, size) { ForeignTag(size, h0, pc); }
  }

  lemma {:induction false} FirstAddress(h: seq<Seen>, x: Seen, pc: nat)
    ensures AddressesOf(h + [x], pc) == if x.pc == pc then AddressesOf(h, pc) + [x.addr] else AddressesOf(h, pc)
  {
    assert (h + [x])[..|h|] == h;
  }

  lemma {:induction false} RowAfter(size: nat, h: seq<Seen>, x: Seen, pc: nat)
    requires size > 0
    ensures After(size, h + [x])[RowOf(pc, size)] ==
            if SameRow(x.pc, pc, size) then Update(After(size, h)[RowOf(pc, size)], x.addr, x.pc)
            else After(size, h)[RowOf(pc, size)]
  {
    hide Update;
    assert (h + [x])[..|h|] == h;
  }

  lemma {:induction false} ReplayNext(e: Entry, pc: nat, addrs: seq<nat>, a: nat)
    ensures Replay(e, pc, addrs + [a]) == Update(Replay(e, pc, addrs), a, pc)
  {
    hide Update;
    assert (addrs + [a])[..|addrs|] == addrs;
  }

  lemma {:induction false} FirstUpdate(e: Entry, pc: nat, a: nat)
    requires e.tag != pc && pc != 0
    ensures Update(e, a, pc) == Replay(CLEARED, pc, [a])
  {
    assert [a][..0] == [];
  }

  lemma {:induction false} AloneLast(size: nat, g: seq<Seen>, pc: nat)
    requires size > 0 && |g| > 0 && Alone(size, g, pc)
    ensures Alone(size, g[..|g| - 1], pc)
    ensures SameRow(g[|g| - 1].pc, pc, size) <==> g[|g| - 1].pc == pc
  {
  }

  lemma {:induction false} TakenStep(size: nat, h: seq<Seen>, g: seq<Seen>, x: Seen, pc: nat)
    requires size > 0 && pc != 0 && (SameRow(x.pc, pc, size) <==> x.pc == pc)
    requires var e := After(size, h)[RowOf(pc, size)];
             if AddressesOf(g, pc) == [] then e.tag != pc
                 && x.pc == pc else e == Replay(CLEARED, pc, AddressesOf(g, pc))
    ensures After(size, h + [x])[RowOf(pc, size)] == Replay(CLEARED, pc, AddressesOf(g + [x], pc))
  {
    hide Update;
    hide After;
    hide RowOf;
    hide Replay;
    hide SameRow;
    hide AddressesOf;
    var a := AddressesOf(g, pc);
    FirstAddress(g, x, pc);
    RowAfter(size, h, x, pc);
    ReplayNext(CLEARED, pc, a, x.addr);
    if a == [] {
      FirstUpdate(After(size, h)[RowOf(pc, size)], pc, x.addr);
      assert a + [x.addr] == [x.addr];
    }
  }

  /** An instruction that takes a row over from another starts afresh: the row depends on nothing before. */
  lemma {:induction false} RowTakenOver(size: nat, h: seq<Seen>, g: seq<Seen>, pc: nat)
    requires size > 0 && pc != 0 && Foreign(size, h, pc) && Alone(size, g, pc) && AddressesOf(g, pc) != []
    ensures After(size, h + g)[RowOf(pc, size)] == Replay(CLEARED, pc, AddressesOf(g, pc))
  {
    hide Update;
    hide After;
    hide RowOf;
    hide Replay;
    hide Foreign;
    hide Alone;
    hide SameRow;
    if g != [] {
      var g0, x := g[..|g| - 1], g[|g| - 1];
      assert g == g0 + [x] && h + g == h + g0 + [x];
      AloneLast(size, g, pc);
      if AddressesOf(g0, pc) != [] {
        RowTakenOver(size, h, g0, pc);
      } else {
        Untouched(size, h, g0, pc);
        ForeignTag(size, h, pc);
      }
      TakenStep(size, h + g0, g0, x, pc);
    }
  }

  lemma {:induction false} Untouched(size: nat, h: seq<Seen>, g: seq<Seen>, pc: nat)
    requires size > 0 && Alone(size, g, pc) && AddressesOf(g, pc) == []
    ensures After(size, h + g)[RowOf(pc, size)] == After(size, h)[RowOf(pc, size)]
  {
    if g == [] {
      assert h + g == h;
    } else {
      var n := |g| - 1;
      assert (h + g)[..|h + g| - 1] == h + g[..n];
      Untouched(size, h, g[..n], pc);
    }
  }

  lemma {:induction false} ReplayTag(pc: nat, addrs: seq<nat>)
    requires addrs != []
    ensures Replay(CLEARED, pc, addrs).tag == pc && Replay(CLEARED, pc, addrs).prevAddr == addrs[|addrs| - 1]
  {
  }

  ghost predicate Strides(addrs: seq<nat>, from: nat, d: int) {
    forall i :: from < i < |addrs| ==> Delta(addrs[i], addrs[i - 1]) == d
  }

  lemma {:induction false} ReplayLast(pc: nat, addrs: seq<nat>)
    requires addrs != []
    ensures Replay(CLEARED, pc, addrs) == Update(Replay(CLEARED, pc, addrs[..|addrs| - 1]), addrs[|addrs| - 1], pc)
  {
  }

  lemma {:induction false} StaysSettled(pc: nat, a: nat, b: nat, d: int)
    requires Delta(b, a) == d
    ensures Update(Entry(pc, a, d, STEADY), b, pc) == Entry(pc, b, d, STEADY)
  {
  }

  lemma {:induction false} ReplaySettles(pc: nat, addrs: seq<nat>, from: nat, d: int)
    requires from + 3 < |addrs| && Strides(addrs, from, d)
    ensures Replay(CLEARED, pc, addrs) == Entry(pc, addrs[|addrs| - 1], d, STEADY)
  {
    hide Delta;
    hide Update;
    var n := |addrs|;
    if n == from + 4 {
      var a := addrs[..n - 3];
      ReplayTag(pc, a);
      ReplayLast(pc, addrs[..n - 2]);
      ReplayLast(pc, addrs[..n - 1]);
      ReplayLast(pc, addrs);
      assert addrs[..n - 1][..n - 2] == addrs[..n - 2] && addrs[..n - 2][..n - 3] == a;
      ThreeStridesSettle(Replay(CLEARED, pc, a), pc, addrs[n - 3], addrs[n - 2], addrs[n - 1], d);
    } else {
      ReplaySettles(pc, addrs[..n - 1], from, d);
      StaysSettled(pc, addrs[n - 2], addrs[n - 1], d);
    }
  }

  /** Once an unshared instruction has kept its stride for three steps, its entry is settled and
      every further access asks for exactly the next address, whatever other instructions do in between. */
  lemma {:induction false} StrideConverges(size: nat, h: seq<Seen>, pc: nat, from: nat, d: int, next: nat)
    requires size > 0 && Alone(size, h, pc)
    requires from + 3 < |AddressesOf(h, pc)| && Strides(AddressesOf(h, pc), from, d)
    requires var last := AddressesOf(h, pc)[|AddressesOf(h, pc)| - 1];
             last < WORD && next < WORD && Delta(next, last) == d
    ensures var last := AddressesOf(h, pc)[|AddressesOf(h, pc)| - 1];
            && After(size, h)[RowOf(pc, size)] == Entry(pc, last, d, STEADY)
            && WantedBy(After(size, h)[RowOf(pc, size)], last) == Address(next)
  {
    hide Delta;
    hide Update;
    hide RowOf;
    SlotReplays(size, h, pc);
    ReplaySettles(pc, AddressesOf(h, pc), from, d);
    var last := AddressesOf(h, pc)[|AddressesOf(h, pc)| - 1];
    DeltaReaches(next, last);
  }

  // ----- misses: one is forgiven, two in a row are not

  /** The distance of access i from the one before. */
  function StepTo(addrs: seq<nat>, i: nat): int
    requires 0 < i < |addrs|
  {
    Delta(addrs[i], addrs[i - 1])
  }

  /** After three equal strides d the first m addresses are settled on d, and of the later ones no two in a row
      are off the stride. */
  ghost predicate MostlyStrides(addrs: seq<nat>, from: nat, d: int, m: nat) {
    && from + 3 < m <= |addrs| && Strides(addrs[..m], from, d)
    && forall i :: m <= i && i + 1 < |addrs| ==> StepTo(addrs, i) == d || StepTo(addrs, i + 1) == d
  }

  lemma {:induction false} MostlyStridesPrefix(addrs: seq<nat>, from: nat, d: int, m: nat, n: nat)
    requires MostlyStrides(addrs, from, d, m) && m <= n <= |addrs|
    ensures MostlyStrides(addrs[..n], from, d, m)
  {
    hide Delta;
    assert addrs[..n][..m] == addrs[..m];
    forall i | m <= i && i + 1 < n ensures StepTo(addrs[..n], i) == d || StepTo(addrs[..n], i + 1) == d {
      assert StepTo(addrs[..n], i) == StepTo(addrs, i) && StepTo(addrs[..n], i + 1) == StepTo(addrs, i + 1);
    }
  }

  lemma {:induction false} ReplayMostly(pc: nat, addrs: seq<nat>, from: nat, d: int, m: nat)
    requires MostlyStrides(addrs, from, d, m)
    ensures var n := |addrs|;
            Replay(CLEARED, pc, addrs)
            == Entry(pc, addrs[n - 1], d, if n == m || StepTo(addrs, n - 1) == d then STEADY else INIT)
  {
    hide Delta;
    hide Update;
    hide Strides;
    var n := |addrs|;
    if n == m {
      assert addrs[..m] == addrs;
      ReplaySettles(pc, addrs, from, d);
    } else {
      MostlyStridesPrefix(addrs, from, d, m, n - 1);
      ReplayMostly(pc, addrs[..n - 1], from, d, m);
      ReplayLast(pc, addrs);
      if n - 1 > m { assert StepTo(addrs[..n - 1], n - 2) == StepTo(addrs, n - 2); }
      MissOrNot(pc, addrs[n - 2], addrs[n - 1], d);
    }
  }

  /** One more access of a settled entry, and of one that has just missed. */
  lemma {:induction false} MissOrNot(pc: nat, a: nat, b: nat, d: int)
    ensures Update(Entry(pc, a, d, STEADY), b, pc) == Entry(pc, b, d, if Delta(b, a) == d then STEADY else INIT)
    ensures Delta(b, a) == d ==> Update(Entry(pc, a, d, INIT), b, pc) == Entry(pc, b, d, STEADY)
  {
  }

  /** A settled instruction that shares its row with no other keeps its stride through any number of misses that
      do not follow each other, and every access, the missing one included, asks for its own address plus d. */
  lemma {:induction false} MissesForgiven(size: nat, h: seq<Seen>, pc: nat, from: nat, d: int, m: nat)
    requires size > 0 && Alone(size, h, pc) && MostlyStrides(AddressesOf(h, pc), from, d, m)
    ensures var addrs := AddressesOf(h, pc);
            var last := addrs[|addrs| - 1];
            && After(size, h)[RowOf(pc, size)]
               == Entry(pc, last, d, if |addrs| == m || StepTo(addrs, |addrs| - 1) == d then STEADY else INIT)
            && WantedBy(After(size, h)[RowOf(pc, size)], last) == Address((last + d) % WORD)
  {
    hide Delta;
    hide Update;
    hide RowOf;
    hide MostlyStrides;
    hide Replay;
    SlotReplays(size, h, pc);
    SomeAddresses(AddressesOf(h, pc), from, d, m);
    ReplayMostly(pc, AddressesOf(h, pc), from, d, m);
  }

  lemma {:induction false} SomeAddresses(addrs: seq<nat>, from: nat, d: int, m: nat)
    requires MostlyStrides(addrs, from, d, m)
    ensures 3 < m <= |addrs|
  {
  }

  /** The last two of the first j addresses were both off the stride d the row had. */
  ghost predicate MissedTwice(addrs: seq<nat>, j: nat, from: nat, d: int, m: nat)
    requires 2 <= j <= |addrs|
  {
    && from + 3 < m <= j - 2 && MostlyStrides(addrs[..j - 1], from, d, m)
    && StepTo(addrs, j - 2) != d && StepTo(addrs, j - 1) != d
  }

  /** After the first j addresses the row has no stride to trust: they are the instruction's first two, at a
      distance, or the last two steps among them were both off the stride the row had. */
  ghost predicate Lost(pc: nat, addrs: seq<nat>, j: nat) {
    && 2 <= j <= |addrs|
    && ((pc != 0 && j == 2 && StepTo(addrs, 1) != 0) || exists from, d, m :: MissedTwice(addrs, j, from, d, m))
  }

  lemma {:induction false} LostEntry(pc: nat, addrs: seq<nat>, j: nat)
    requires Lost(pc, addrs, j)
    ensures Replay(CLEARED, pc, addrs[..j]) == Entry(pc, addrs[j - 1], StepTo(addrs, j - 1), TRANSIENT)
  {
    hide Delta;
    ReplayLast(pc, addrs[..j]);
    assert addrs[..j][..j - 1] == addrs[..j - 1];
    if pc != 0 && j == 2 && StepTo(addrs, 1) != 0 {
      ReplayLast(pc, addrs[..1]);
      assert addrs[..1][..0] == [];
    } else {
      var from, d, m :| MissedTwice(addrs, j, from, d, m);
      ReplayMostly(pc, addrs[..j - 1], from, d, m);
      assert StepTo(addrs[..j - 1], j - 2) == StepTo(addrs, j - 2);
    }
  }

  /** From address j on no stride has occurred three times in a row, nor twice at once. */
  ghost predicate Restless(addrs: seq<nat>, j: nat) {
    && 2 <= j < |addrs| && StepTo(addrs, j) != StepTo(addrs, j - 1)
    && forall i :: j <= i && i + 2 < |addrs| ==>
         !(StepTo(addrs, i) == StepTo(addrs, i + 1) == StepTo(addrs, i + 2))
  }

  lemma {:induction false} RestlessPrefix(addrs: seq<nat>, j: nat)
    requires Restless(addrs, j) && j + 1 < |addrs|
    ensures Restless(addrs[..|addrs| - 1], j)
  {
    hide Delta;
    var p := addrs[..|addrs| - 1];
    assert forall i :: 0 < i < |p| ==> StepTo(p, i) == StepTo(addrs, i);
  }

  lemma {:induction false} ReplayRestless(pc: nat, addrs: seq<nat>, j: nat)
    requires Lost(pc, addrs, j) && Restless(addrs, j)
    ensures var n := |addrs|;
            Replay(CLEARED, pc, addrs)
            == Entry(pc, addrs[n - 1], StepTo(addrs, n - 1),
                     if StepTo(addrs, n - 1) == StepTo(addrs, n - 2) then TRANSIENT else NO_PREDICTION)
  {
    hide Delta;
    hide Lost;
    var n := |addrs|;
    ReplayLast(pc, addrs);
    if n == j + 1 {
      LostEntry(pc, addrs, j);
    } else {
      var p := addrs[..n - 1];
      RestlessPrefix(addrs, j);
      LostPrefix(pc, addrs, j, n - 1);
      ReplayRestless(pc, p, j);
      assert StepTo(p, n - 2) == StepTo(addrs, n - 2) && StepTo(p, n - 3) == StepTo(addrs, n - 3);
    }
  }

  lemma {:induction false} LostPrefix(pc: nat, addrs: seq<nat>, j: nat, n: nat)
    requires Lost(pc, addrs, j) && j <= n <= |addrs|
    ensures Lost(pc, addrs[..n], j)
  {
    hide Delta;
    hide MostlyStrides;
    var p := addrs[..n];
    assert forall i :: 0 < i < n ==> StepTo(p, i) == StepTo(addrs, i);
    assert p[..j - 1] == addrs[..j - 1];
    if from, d, m :| MissedTwice(addrs, j, from, d, m) {
      assert MissedTwice(p, j, from, d, m);
    }
  }

  /** Once it has lost its stride, and until it settles again, an access of an unshared instruction asks for
      nothing exactly when its step differs from the step before; else it asks for the next address at that step. */
  lemma {:induction false} AsksNothingExactly(size: nat, h: seq<Seen>, pc: nat, j: nat)
    requires size > 0 && Alone(size, h, pc) && Lost(pc, AddressesOf(h, pc), j) && Restless(AddressesOf(h, pc), j)
    ensures var addrs := AddressesOf(h, pc);
            var n := |addrs|;
            WantedBy(After(size, h)[RowOf(pc, size)], addrs[n - 1])
            == if StepTo(addrs, n - 1) != StepTo(addrs, n - 2) then Nothing
               else Address((addrs[n - 1] + StepTo(addrs, n - 1)) % WORD)
  {
    hide Delta;
    hide Update;
    hide RowOf;
    hide Lost;
    hide Replay;
    SlotReplays(size, h, pc);
    ReplayRestless(pc, AddressesOf(h, pc), j);
  }

  /** The table itself, updated in place. */
  class Table {
    const rpt: array<Entry>

    constructor (size: nat)
      ensures fresh(rpt) && rpt[..] == Blank(size)
    {
      rpt := new Entry[size](_ => CLEARED);
    }

    /** One access by instruction pc; returns what to prefetch for. */
    method Observe(addr: nat, pc: nat, ghost h: seq<Seen>) returns (wanted: Wanted)
      requires rpt.Length > 0 && rpt[..] == After(rpt.Length, h)
      modifies rpt
      ensures rpt[..] == After(rpt.Length, h + [Seen(pc, addr)])
      ensures wanted == WantedBy(rpt[RowOf(pc, rpt.Length)], addr)
    {
      var index := pc / 8 % rpt.Length;
      var e := rpt[index];
      if e.tag != pc {
        e := e.(stride := 0, phase := INIT);
      } else {
        var newStride := Delta(addr, e.prevAddr);
        var strideCond := newStride == e.stride;
        match e.phase {
          case INIT =>
            if strideCond { e := e.(phase := STEADY); } else { e := e.(phase := TRANSIENT, stride := newStride); }
          case TRANSIENT =>
            if strideCond { e := e.(phase := STEADY); } else { e := e.(phase := NO_PREDICTION, stride := newStride); }
          case STEADY =>
            if !strideCond { e := e.(phase := INIT); }
          case NO_PREDICTION =>
            if strideCond { e := e.(phase := TRANSIENT); } else { e := e.(stride := newStride); }
        }
      }
      e := e.(prevAddr := addr, tag := pc);
      rpt[index] := e;
      assert (h + [Seen(pc, addr)])[..|h|] == h;
      wanted := if e.phase != NO_PREDICTION then Address((addr + e.stride) % WORD) else Nothing;
    }
  }

  function Blank(size: nat): seq<Entry> {
    seq(size, _ => CLEARED)
  }
}
