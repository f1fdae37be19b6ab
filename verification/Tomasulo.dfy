/** The simulator itself: the static arrays of tomasulo.c, updated in place by one
    method per pipeline stage, each equal to its stage in TomasuloModel. */
module Tomasulo {
  import InstrTrace
  import opened NatSets
  import opened TomasuloModel
  import opened TomasuloInvariant
  import opened TomasuloTheorems

  ghost function Occupants(a: seq<nat>): set<nat> {
    set x | x in a && x != 0
  }

  /** Stations or functional units of one kind: each slot is NULL or an instruction of that kind, none twice. */
  ghost predicate Slots(t: Trace, a: seq<nat>, u: Unit) {
    && (forall i :: 0 <= i < |a| && a[i] != 0 ==> a[i] < |t| && UnitOf(t[a[i]]) == u)
    && (forall i, j :: 0 <= i < j < |a| && a[i] != 0 ==> a[i] != a[j])
  }

  function Nulls(a: seq<nat>): (n: nat)
    ensures n <= |a|
  {
    if a == [] then 0 else Nulls(a[..|a| - 1]) + if a[|a| - 1] == 0 then 1 else 0
  }

  lemma {:induction false} OccupantsSnoc(a: seq<nat>, x: nat)
    ensures Occupants(a + [x]) == Occupants(a) + if x == 0 then {} else {x}
  {
  }

  lemma {:induction false} CountOccupants(t: Trace, a: seq<nat>, u: Unit)
    requires Slots(t, a, u)
    ensures |Occupants(a)| == |a| - Nulls(a)
  {
    if a != [] {
      var b, x := a[..|a| - 1], a[|a| - 1];
      CountOccupants(t, b, u);
      assert a == b + [x];
      OccupantsSnoc(b, x);
      assert x != 0 ==> x !in b;
    }
  }

  lemma {:induction false} NoNulls(a: seq<nat>)
    ensures Nulls(a) == 0 <==> forall i :: 0 <= i < |a| ==> a[i] != 0
  {
    if a != [] {
      NoNulls(a[..|a| - 1]);
    }
  }

  lemma {:induction false} FillSlot(t: Trace, a: seq<nat>, u: Unit, i: nat, x: nat)
    requires Slots(t, a, u) && i < |a| && a[i] == 0 && 0 < x < |t| && UnitOf(t[x]) == u && x !in a
    ensures Slots(t, a[i := x], u) && Occupants(a[i := x]) == Occupants(a) + {x}
  {
    var b := a[i := x];
    assert b[i] == x;
    forall y | y in Occupants(a) ensures y in b {
      var j :| 0 <= j < |a| && a[j] == y;
      assert b[j] == y;
    }
  }

  /** The ready_instrs array of one stage: distinct members of s. */
  ghost predicate Lists(a: seq<nat>, s: set<nat>) {
    Elements(a) == s && forall i, j :: 0 <= i < j < |a| ==> a[i] != a[j]
  }

  lemma {:induction false} SwapLists(a: seq<nat>, s: set<nat>, i: nat, j: nat)
    requires Lists(a, s) && i < |a| && j < |a|
    ensures Lists(a[i := a[j]][j := a[i]], s)
  {
    var b := a[i := a[j]][j := a[i]];
    forall x | x in a ensures x in b {
      var k :| 0 <= k < |a| && a[k] == x;
      assert b[if k == i then j else if k == j then i else k] == x;
    }
  }

  /** The exchange sort the stages use: oldest instruction first. */
  method SortOldestFirst(a: array<nat>, n: nat)
    requires n <= a.Length && Lists(a[..n], Elements(a[..n]))
    modifies a
    ensures Ascending(a[..n]) && Elements(a[..n]) == old(Elements(a[..n]))
  {
    ghost var s := Elements(a[..n]);
    var i := 0;
    while i < n
      invariant i <= n && Lists(a[..n], s)
      invariant forall k, l :: 0 <= k < i && k < l < n ==> a[k] < a[l]
    {
      var j := i + 1;
      while j < n
        invariant i < j <= n && Lists(a[..n], s)
        invariant forall k, l :: 0 <= k < i && k < l < n ==> a[k] < a[l]
        invariant forall l :: i < l < j ==> a[i] < a[l]
      {
        assert a[..n][i] != a[..n][j];
        if a[i] > a[j] {
          SwapLists(a[..n], s, i, j);
          ghost var before := a[..n];
          var temp := a[i];
          a[i] := a[j];
          a[j] := temp;
          assert a[..n] == before[i := before[j]][j := before[i]];
        }
        j := j + 1;
      }
      i := i + 1;
    }
  }

  method AllNull(a: array<nat>) returns (empty: bool)
    ensures empty <==> forall i :: 0 <= i < a.Length ==> a[i] == 0
  {
    for i := 0 to a.Length
      invariant forall j :: 0 <= j < i ==> a[j] == 0
    {
      if a[i] != 0 {
        return false;
      }
    }
    return true;
  }

  /** Sets every slot that holds x to NULL. */
  method Vacate(a: array<nat>, x: nat)
    requires x != 0
    modifies a
    ensures forall i :: 0 <= i < a.Length ==> a[i] == Cleared(old(a[i]), x)
    ensures Occupants(a[..]) == old(Occupants(a[..])) - {x}
  {
    for j := 0 to a.Length
      invariant forall i :: 0 <= i < j ==> a[i] == Cleared(old(a[i]), x)
      invariant forall i :: j <= i < a.Length ==> a[i] == old(a[i])
    {
      if a[j] == x {
        a[j] := 0;
      }
    }
    ClearedOccupants(old(a[..]), a[..], x);
  }

  lemma {:induction false} ClearedOccupants(a: seq<nat>, b: seq<nat>, x: nat)
    requires |a| == |b| && x != 0 && forall i :: 0 <= i < |a| ==> b[i] == Cleared(a[i], x)
    ensures Occupants(b) == Occupants(a) - {x}
  {
    forall y | y in Occupants(a) && y != x ensures y in b {
      var i :| 0 <= i < |a| && a[i] == y;
      assert b[i] == y;
    }
  }

  // ----- issue_To_execute, one kind of unit

  predicate CanStart(p: Progress) {
    p.execute == 0 && p.q == [0, 0, 0]
  }

  ghost function Resolvable(a: seq<nat>, ins: seq<Progress>): set<nat> {
    set x | x in Occupants(a) && x < |ins| && CanStart(ins[x])
  }

  /** Collects the instructions that can start, sorts them, and gives each the first free unit while there is one. */
  method GrantUnits(ghost t: Trace, ghost u: Unit, reserv: array<nat>, fu: array<nat>, ins: array<Progress>, cycle: nat)
    requires reserv != fu && ins.Length == |t|
    requires Slots(t, reserv[..], u) && Slots(t, fu[..], u)
    requires forall x :: x in Occupants(fu[..]) ==> ins[x].execute != 0
    modifies fu, ins
    ensures Slots(t, fu[..], u)
    ensures var g := Oldest(old(Resolvable(reserv[..], ins[..])), old(Nulls(fu[..])));
            && Occupants(fu[..]) == old(Occupants(fu[..])) + g
            && forall i :: 0 <= i < ins.Length ==>
                 ins[i] == if i in g then old(ins[i]).(execute := cycle) else old(ins[i])
  {
    hide Oldest;
    hide Resolvable;
    hide Contenders;
    NoNulls(fu[..]);
    var full := true;
    for i := 0 to fu.Length
      invariant full <==> forall j :: 0 <= j < i ==> fu[j] != 0
    {
      if fu[i] == 0 {
        full := false;
      }
    }
    if full {
      assert Nulls(fu[..]) == 0;
      OldestNone(Resolvable(reserv[..], ins[..]));
      return;
    }
    var ready := new nat[reserv.Length];
    var count := ListReady(t, u, reserv, ins, ready);
    SortOldestFirst(ready, count);
    ReadyContend(t, u, reserv[..], ins[..], fu[..], ready[..count]);
    AssignUnits(t, u, ready, count, fu, ins, cycle);
  }

  lemma {:induction false} OldestNone(s: set<nat>)
    ensures Oldest(s, 0) == {}
  {
  }

  lemma {:induction false} ReadyContend(t: Trace, u: Unit, reserv: seq<nat>, ins: seq<Progress>, fu: seq<nat>,
                                        a: seq<nat>)
    requires |ins| == |t| && Slots(t, reserv, u) && Slots(t, fu, u)
    requires forall x :: x in Occupants(fu) ==> x < |ins| && ins[x].execute != 0
    requires Ascending(a) && Elements(a) == Resolvable(reserv, ins)
    ensures Contenders(t, u, fu, a)
  {
    forall i | 0 <= i < |a| ensures 0 < a[i] < |t| && UnitOf(t[a[i]]) == u && a[i] !in fu {
      assert a[i] in Elements(a);
    }
  }

  method ListReady(ghost t: Trace, ghost u: Unit, reserv: array<nat>, ins: array<Progress>, ready: array<nat>)
    returns (count: nat)
    requires ready != reserv && ready.Length == reserv.Length && ins.Length == |t| && Slots(t, reserv[..], u)
    modifies ready
    ensures count <= ready.Length && Lists(ready[..count], Resolvable(reserv[..], ins[..]))
  {
    count := 0;
    for i := 0 to reserv.Length
      invariant count <= i
      invariant Lists(ready[..count], Resolvable(reserv[..i], ins[..]))
    {
      var x := reserv[i];
      OccupantsSnoc(reserv[..i], x);
      assert reserv[..i + 1] == reserv[..i] + [x];
      if x != 0 && ins[x].execute == 0 && ins[x].q == [0, 0, 0] {
        ghost var before := ready[..count];
        assert x !in reserv[..i];
        ready[count] := x;
        count := count + 1;
        assert ready[..count] == before + [x];
        assert Elements(ready[..count]) == Elements(before) + {x};
      }
    }
    assert reserv[..reserv.Length] == reserv[..];
  }

  /** The first m of the listed instructions have been given units. */
  ghost predicate Assigned(t: Trace, u: Unit, fu0: seq<nat>, ins0: seq<Progress>, a: seq<nat>, m: nat, c: nat,
                           fu: seq<nat>, ins: seq<Progress>)
  {
    && m <= |a| && |fu| == |fu0| && |ins| == |ins0| && Slots(t, fu, u)
    && Occupants(fu) == Occupants(fu0) + Elements(a[..m])
    && (forall i :: 0 <= i < |ins| ==> ins[i] == if i in a[..m] then ins0[i].(execute := c) else ins0[i])
  }

  /** Instructions of this kind, oldest first, none of them in a unit yet. */
  ghost predicate Contenders(t: Trace, u: Unit, fu0: seq<nat>, a: seq<nat>) {
    && Ascending(a) && Slots(t, fu0, u)
    && (forall i :: 0 <= i < |a| ==> 0 < a[i] < |t| && UnitOf(t[a[i]]) == u && a[i] !in fu0)
  }

  lemma {:induction false} AssignRoom(t: Trace, u: Unit, fu0: seq<nat>, ins0: seq<Progress>, a: seq<nat>, m: nat,
                                      c: nat, fu: seq<nat>, ins: seq<Progress>)
    requires Contenders(t, u, fu0, a) && Assigned(t, u, fu0, ins0, a, m, c, fu, ins)
    ensures Nulls(fu) == Nulls(fu0) - m
  {
    CountOccupants(t, fu0, u);
    CountOccupants(t, fu, u);
    AscendingSize(a[..m]);
    forall x | x in Elements(a[..m]) ensures x !in Occupants(fu0) {
      var i :| 0 <= i < m && a[i] == x;
    }
    assert Occupants(fu0) !! Elements(a[..m]);
  }

  lemma {:induction false} AssignStep(t: Trace, u: Unit, fu0: seq<nat>, ins0: seq<Progress>, a: seq<nat>, m: nat,
                                      c: nat, fu: seq<nat>, ins: seq<Progress>, j: nat)
    requires Contenders(t, u, fu0, a) && Assigned(t, u, fu0, ins0, a, m, c, fu, ins)
    requires |ins| == |t| && m < |a| && j < |fu| && fu[j] == 0
    ensures Assigned(t, u, fu0, ins0, a, m + 1, c, fu[j := a[m]], ins[a[m] := ins[a[m]].(execute := c)])
  {
    var x := a[m];
    assert a[..m + 1] == a[..m] + [x];
    assert x !in a[..m];
    assert x !in fu by { assert x in fu ==> x in Occupants(fu); }
    FillSlot(t, fu, u, j, x);
    assert Elements(a[..m + 1]) == Elements(a[..m]) + {x};
  }

  method AssignUnits(ghost t: Trace, ghost u: Unit, ready: array<nat>, count: nat, fu: array<nat>,
                     ins: array<Progress>, cycle: nat)
    requires ready != fu && count <= ready.Length && ins.Length == |t| && Contenders(t, u, fu[..], ready[..count])
    modifies fu, ins
    ensures Slots(t, fu[..], u)
    ensures var g := Oldest(old(Elements(ready[..count])), old(Nulls(fu[..])));
            && Occupants(fu[..]) == old(Occupants(fu[..])) + g
            && forall i :: 0 <= i < ins.Length ==>
                 ins[i] == if i in g then old(ins[i]).(execute := cycle) else old(ins[i])
  {
    hide Contenders;
    hide Assigned;
    hide Oldest;
    ghost var fu0, ins0, a := fu[..], ins[..], ready[..count];
    ghost var free := Nulls(fu0);
    ghost var m := 0;
    AssignNone(t, u, fu0, ins0, a, cycle);
    for i := 0 to count
      invariant m == if i <= free then i else free
      invariant Assigned(t, u, fu0, ins0, a, m, cycle, fu[..], ins[..])
    {
      AssignRoom(t, u, fu0, ins0, a, m, cycle, fu[..], ins[..]);
      NoNulls(fu[..]);
      var j := 0;
      while j < fu.Length && fu[j] != 0
        invariant j <= fu.Length && forall l :: 0 <= l < j ==> fu[l] != 0
      {
        j := j + 1;
      }
      if j < fu.Length {
        AssignStep(t, u, fu0, ins0, a, m, cycle, fu[..], ins[..], j);
        ContenderInTrace(t, u, fu0, a, i);
        ghost var fu1, ins1 := fu[..], ins[..];
        fu[j] := ready[i];
        ins[ready[i]] := ins[ready[i]].(execute := cycle);
        assert fu[..] == fu1[j := a[m]];
        assert ins[..] == ins1[a[m] := ins1[a[m]].(execute := cycle)];
        m := m + 1;
      }
    }
    AssignAll(t, u, fu0, ins0, a, m, cycle, fu[..], ins[..]);
  }

  lemma {:induction false} AssignNone(t: Trace, u: Unit, fu0: seq<nat>, ins0: seq<Progress>, a: seq<nat>, c: nat)
    requires Contenders(t, u, fu0, a)
    ensures Assigned(t, u, fu0, ins0, a, 0, c, fu0, ins0)
  {
  }

  lemma {:induction false} ContenderInTrace(t: Trace, u: Unit, fu0: seq<nat>, a: seq<nat>, i: nat)
    requires Contenders(t, u, fu0, a) && i < |a|
    ensures 0 < a[i] < |t|
  {
  }

  lemma {:induction false} AssignAll(t: Trace, u: Unit, fu0: seq<nat>, ins0: seq<Progress>, a: seq<nat>, m: nat, c: nat,
                                     fu: seq<nat>, ins: seq<Progress>)
    requires Contenders(t, u, fu0, a) && Assigned(t, u, fu0, ins0, a, m, c, fu, ins)
    requires m == if |a| <= Nulls(fu0) then |a| else Nulls(fu0)
    ensures var g := Oldest(Elements(a), Nulls(fu0));
            && Slots(t, fu, u) && Occupants(fu) == Occupants(fu0) + g
            && forall i :: 0 <= i < |ins| ==> ins[i] == if i in g then ins0[i].(execute := c) else ins0[i]
  {
    if |a| <= Nulls(fu0) {
      assert a[..m] == a;
      AscendingSize(a);
    } else {
      PrefixIsOldest(a, Nulls(fu0));
    }
    assert Elements(a[..m]) == Oldest(Elements(a), Nulls(fu0));
  }

  // ----- execute_To_CDB, the parts that look at one array

  ghost function LatencyOver(a: seq<nat>, ins: seq<Progress>, latency: nat, c: nat): set<nat> {
    set x | x in Occupants(a) && x < |ins| && ins[x].execute + latency <= c
  }

  /** Appends the instructions of fu whose latency has run out. */
  method ListFinished(ghost t: Trace, ghost u: Unit, fu: array<nat>, ins: array<Progress>, latency: nat, cycle: nat,
                      ready: array<nat>, count0: nat, ghost s0: set<nat>) returns (count: nat)
    requires ready != fu && count0 + fu.Length <= ready.Length && ins.Length == |t| && Slots(t, fu[..], u)
    requires Lists(ready[..count0], s0) && s0 !! Occupants(fu[..])
    modifies ready
    ensures count0 <= count <= count0 + fu.Length
    ensures Lists(ready[..count], s0 + LatencyOver(fu[..], ins[..], latency, cycle))
  {
    count := count0;
    for i := 0 to fu.Length
      invariant count0 <= count <= count0 + i
      invariant Lists(ready[..count], s0 + LatencyOver(fu[..i], ins[..], latency, cycle))
    {
      var x := fu[i];
      OccupantsSnoc(fu[..i], x);
      assert fu[..i + 1] == fu[..i] + [x];
      if x != 0 && ins[x].execute + latency <= cycle {
        ghost var before := ready[..count];
        assert x !in fu[..i] && x in fu[..];
        ready[count] := x;
        count := count + 1;
        assert ready[..count] == before + [x];
        assert Elements(ready[..count]) == Elements(before) + {x};
      }
    }
    assert fu[..fu.Length] == fu[..];
  }

  ghost function StoresOf(t: Trace, a: seq<nat>): set<nat> {
    set x | x in a && x < |t| && t[x].op.store
  }

  /** b is the first instruction of a that is not a store, 0 if all are. */
  ghost predicate FirstWriter(t: Trace, a: seq<nat>, b: nat) {
    if b == 0 then forall x :: x in a && x < |t| ==> t[x].op.store
    else b in a && b < |t| && !t[b].op.store && forall x :: x in a && x < |t| && !t[x].op.store ==> b <= x
  }

  lemma {:induction false} PickStep(t: Trace, a: seq<nat>, m: nat, b: nat)
    requires m < |a| && Ascending(a) && 0 < a[m] < |t| && FirstWriter(t, a[..m], b)
    ensures StoresOf(t, a[..m + 1]) == StoresOf(t, a[..m]) + if t[a[m]].op.store then {a[m]} else {}
    ensures FirstWriter(t, a[..m + 1], if b == 0 && !t[a[m]].op.store then a[m] else b)
  {
    assert a[..m + 1] == a[..m] + [a[m]];
    assert b in a[..m] ==> b < a[m];
  }

  /** After the first m instructions b is what goes on the bus, and listed is what leaves. */
  ghost predicate Picked(t: Trace, a: seq<nat>, m: nat, b: nat, listed: set<nat>) {
    m <= |a| && FirstWriter(t, a[..m], b) && listed == StoresOf(t, a[..m]) + if b == 0 then {} else {b}
  }

  lemma {:induction false} PickedStep(t: Trace, a: seq<nat>, m: nat, b: nat, listed: set<nat>)
    requires m < |a| && Ascending(a) && 0 < a[m] < |t| && Picked(t, a, m, b, listed)
    ensures var x, store := a[m], t[a[m]].op.store;
            Picked(t, a, m + 1, if b == 0 && !store then x else b, if store || b == 0 then listed + {x} else listed)
  {
    PickStep(t, a, m, b);
    hide FirstWriter;
    hide StoresOf;
    hide Ascending;
  }

  lemma {:induction false} PickedNone(t: Trace, a: seq<nat>)
    ensures Picked(t, a, 0, 0, Elements([]))
  {
  }

  lemma {:induction false} PickedAll(t: Trace, a: seq<nat>, b: nat, listed: set<nat>)
    requires Picked(t, a, |a|, b, listed)
    ensures FirstWriter(t, a, b) && listed == StoresOf(t, a) + if b == 0 then {} else {b}
  {
    assert a[..|a|] == a;
  }

  lemma {:induction false} ElementsSnoc(a: seq<nat>, x: nat)
    ensures Elements(a + [x]) == Elements(a) + {x}
  {
  }

  /** The selection loop: all stores, and the first instruction that is not one. */
  method Pick(t: Trace, ready: array<nat>, count: nat, clear: array<nat>) returns (bus: nat, n: nat)
    requires ready != clear && count <= ready.Length <= clear.Length
    requires Ascending(ready[..count]) && forall i :: 0 <= i < count ==> 0 < ready[i] < |t|
    modifies clear
    ensures n <= count && FirstWriter(t, ready[..count], bus)
    ensures Elements(clear[..n]) == StoresOf(t, ready[..count]) + if bus == 0 then {} else {bus}
  {
    hide Picked;
    hide FirstWriter;
    hide StoresOf;
    hide Elements;
    hide Ascending;
    ghost var a := ready[..count];
    var nonStoreFound := false;
    bus, n := 0, 0;
    PickedNone(t, a);
    assert clear[..0] == [];
    for i := 0 to count
      invariant n <= i && ready[..count] == a && (nonStoreFound <==> bus != 0)
      invariant Picked(t, a, i, bus, Elements(clear[..n]))
    {
      var x := ready[i];
      assert x == a[i];
      PickedStep(t, a, i, bus, Elements(clear[..n]));
      ghost var before := clear[..n];
      if t[x].op.store || !nonStoreFound {
        if !t[x].op.store {
          bus := x;
          nonStoreFound := true;
        }
        clear[n] := x;
        n := n + 1;
        assert clear[..n] == before + [x];
        ElementsSnoc(before, x);
      }
    }
    PickedAll(t, a, bus, Elements(clear[..n]));
  }

  lemma {:induction false} ClearedSlots(t: Trace, u: Unit, a: seq<nat>, b: seq<nat>, x: nat)
    requires Slots(t, a, u) && |a| == |b| && forall i :: 0 <= i < |a| ==> b[i] == Cleared(a[i], x)
    ensures Slots(t, b, u)
  {
  }

  lemma {:induction false} OtherKind(t: Trace, u: Unit, a: seq<nat>, x: nat)
    requires Slots(t, a, u) && 0 < x < |t| && UnitOf(t[x]) != u
    ensures x !in Occupants(a)
  {
  }

  method VacateKind(ghost t: Trace, ghost u: Unit, reserv: array<nat>, fu: array<nat>, x: nat)
    requires x != 0 && reserv != fu && Slots(t, reserv[..], u) && Slots(t, fu[..], u)
    modifies reserv, fu
    ensures Slots(t, reserv[..], u) && Slots(t, fu[..], u)
    ensures Occupants(reserv[..]) == old(Occupants(reserv[..])) - {x}
    ensures Occupants(fu[..]) == old(Occupants(fu[..])) - {x}
  {
    Vacate(reserv, x);
    ClearedSlots(t, u, old(reserv[..]), reserv[..], x);
    Vacate(fu, x);
    ClearedSlots(t, u, old(fu[..]), fu[..], x);
  }

  /** Takes the listed instructions out of the stations and units of their kind. */
  method VacateAll(t: Trace, clear: array<nat>, n: nat, reservInt: array<nat>, fuInt: array<nat>,
                   reservFp: array<nat>, fuFp: array<nat>)
    requires n <= clear.Length && forall i :: 0 <= i < n ==> 0 < clear[i] < |t| && UnitOf(t[clear[i]]) != NoUnit
    requires clear != reservInt && clear != fuInt && clear != reservFp && clear != fuFp
    requires reservInt != fuInt && reservInt != reservFp && reservInt != fuFp && fuInt != reservFp && fuInt != fuFp
             && reservFp != fuFp
    requires Slots(t, reservInt[..], Int) && Slots(t, fuInt[..], Int) && Slots(t, reservFp[..], Fp)
             && Slots(t, fuFp[..], Fp)
    modifies reservInt, fuInt, reservFp, fuFp
    ensures Slots(t, reservInt[..], Int) && Slots(t, fuInt[..], Int) && Slots(t, reservFp[..], Fp)
            && Slots(t, fuFp[..], Fp)
    ensures Occupants(reservInt[..]) == old(Occupants(reservInt[..])) - Elements(clear[..n])
    ensures Occupants(fuInt[..]) == old(Occupants(fuInt[..])) - Elements(clear[..n])
    ensures Occupants(reservFp[..]) == old(Occupants(reservFp[..])) - Elements(clear[..n])
    ensures Occupants(fuFp[..]) == old(Occupants(fuFp[..])) - Elements(clear[..n])
  {
    hide Slots;
    hide Occupants;
    ghost var gone := Elements(clear[..0]);
    for i := 0 to n
      invariant clear[..] == old(clear[..]) && gone == Elements(clear[..i])
      invariant Slots(t, reservInt[..], Int) && Slots(t, fuInt[..], Int) && Slots(t, reservFp[..], Fp)
                && Slots(t, fuFp[..], Fp)
      invariant Occupants(reservInt[..]) == old(Occupants(reservInt[..])) - gone
      invariant Occupants(fuInt[..]) == old(Occupants(fuInt[..])) - gone
      invariant Occupants(reservFp[..]) == old(Occupants(reservFp[..])) - gone
      invariant Occupants(fuFp[..]) == old(Occupants(fuFp[..])) - gone
    {
      var x := clear[i];
      assert clear[..i + 1] == clear[..i] + [x];
      gone := gone + {x};
      assert Elements(clear[..i + 1]) == gone;
      if UnitOf(t[x]) == Int {
        OtherKind(t, Fp, reservFp[..], x);
        OtherKind(t, Fp, fuFp[..], x);
        VacateKind(t, Int, reservInt, fuInt, x);
      } else if UnitOf(t[x]) == Fp {
        OtherKind(t, Int, reservInt[..], x);
        OtherKind(t, Int, fuInt[..], x);
        VacateKind(t, Fp, reservFp, fuFp, x);
      }
    }
  }

  lemma {:induction false} FinishedIsReady(t: Trace, s: State, fuInt: seq<nat>, fuFp: seq<nat>, c: nat)
    requires Shape(t, s) && s.units == Occupants(fuInt) + Occupants(fuFp) && Slots(t, fuInt, Int) && Slots(t, fuFp, Fp)
    ensures LatencyOver(fuInt, s.ins, FU_INT_LATENCY, c) + LatencyOver(fuFp, s.ins, FU_FP_LATENCY, c) == Ready(t, s, c)
  {
    forall x | x in Occupants(fuInt) ensures UnitOf(t[x]) == Int {
      var i :| 0 <= i < |fuInt| && fuInt[i] == x;
    }
    forall x | x in Occupants(fuFp) ensures UnitOf(t[x]) == Fp {
      var i :| 0 <= i < |fuFp| && fuFp[i] == x;
    }
  }

  lemma {:induction false} PickedToBus(t: Trace, s: State, s': State, a: seq<nat>, b: nat, c: nat)
    requires Shape(t, s) && Elements(a) == Ready(t, s, c) && FirstWriter(t, a, b)
    requires var gone := StoresOf(t, a) + if b == 0 then {} else {b};
             s' == s.(stations := s.stations - gone, units := s.units - gone, bus := if b == 0 then s.bus else b,
                      ins := if b == 0 || b >= |s.ins| then s.ins else s.ins[b := s.ins[b].(cdb := c)])
    ensures s' == ToBus(t, s, c)
  {
    forall x ensures x in a <==> x in Ready(t, s, c) {
      assert x in a <==> x in Elements(a);
    }
    assert StoresOf(t, a) == ReadyStores(t, s, c);
    if b == 0 {
      assert ReadyWriters(t, s, c) == {};
    } else {
      assert IsMin(b, ReadyWriters(t, s, c));
    }
  }

  // ----- fetch

  /** Moves the first n entries up one slot. */
  method ShiftUp(a: array<nat>, n: nat)
    requires n < a.Length
    modifies a
    ensures a[1..n + 1] == old(a[..n]) && a[n + 1..] == old(a[n + 1..])
  {
    var i := n;
    while i > 0
      invariant 0 <= i <= n
      invariant forall k :: 0 <= k < a.Length ==> a[k] == if i < k <= n then old(a[k - 1]) else old(a[k])
    {
      a[i] := a[i - 1];
      i := i - 1;
    }
  }

  // ----- CDB_To_retire, one array of stations

  /** Clears the Q tags of the instructions in the stations that wait for the bus. */
  method WakeStations(ghost t: Trace, ghost u: Unit, reserv: array<nat>, ins: array<Progress>, bus: nat)
    requires bus != 0 && ins.Length == |t| && Slots(t, reserv[..], u)
    requires forall i :: 0 <= i < ins.Length ==> |ins[i].q| == 3
    modifies ins
    ensures forall i :: 0 <= i < ins.Length ==>
              |ins[i].q| == 3 && ins[i] == if i in Occupants(reserv[..]) then Wake(old(ins[i]), bus) else old(ins[i])
  {
    for i := 0 to reserv.Length
      invariant forall k :: 0 <= k < ins.Length ==>
        |ins[k].q| == 3 && ins[k] == if k in Occupants(reserv[..i]) then Wake(old(ins[k]), bus) else old(ins[k])
    {
      var x := reserv[i];
      OccupantsSnoc(reserv[..i], x);
      assert reserv[..i + 1] == reserv[..i] + [x];
      if x != 0 {
        assert x !in reserv[..i];
        if ins[x].q[0] == bus {
          ins[x] := ins[x].(q := ins[x].q[0 := 0]);
        }
        if ins[x].q[1] == bus {
          ins[x] := ins[x].(q := ins[x].q[1 := 0]);
        }
        if ins[x].q[2] == bus {
          ins[x] := ins[x].(q := ins[x].q[2 := 0]);
        }
        assert ins[x].q == Wake(old(ins[x]), bus).q;
      }
    }
    assert reserv[..reserv.Length] == reserv[..];
  }

  /** The static variables of the simulator and the mutable fields of the traced instructions.
      An instruction pointer is the instruction's trace index, NULL is 0. */
  class Pipeline {
    const trace: Trace
    const ins: array<Progress>
    const instrQueue: array<nat>
    var instrQueueSize: nat
    const reservInt: array<nat>
    const reservFp: array<nat>
    const fuInt: array<nat>
    const fuFp: array<nat>
    var commonDataBus: nat
    const mapTable: array<nat>
    var fetchIndex: nat

    ghost predicate Layout() {
      && WellFormed(trace) && ins.Length == |trace|
      && instrQueue.Length == INSTR_QUEUE_SIZE && mapTable.Length == MD_TOTAL_REGS
      && reservInt.Length == RESERV_INT_SIZE && reservFp.Length == RESERV_FP_SIZE
      && fuInt.Length == FU_INT_SIZE && fuFp.Length == FU_FP_SIZE
      && instrQueue != reservInt && instrQueue != reservFp && instrQueue != fuInt && instrQueue != fuFp
         && instrQueue != mapTable
      && reservInt != reservFp && reservInt != fuInt && reservInt != fuFp && reservInt != mapTable
      && reservFp != fuInt && reservFp != fuFp && reservFp != mapTable
      && fuInt != fuFp && fuInt != mapTable && fuFp != mapTable
    }

    ghost predicate Valid()
      reads this, ins, instrQueue, reservInt, reservFp, fuInt, fuFp, mapTable
      ensures Valid() ==> Layout() && instrQueueSize <= INSTR_QUEUE_SIZE && Shape(trace, Model())
    {
      && Layout()
      && instrQueueSize <= INSTR_QUEUE_SIZE
      && (forall i :: instrQueueSize <= i < INSTR_QUEUE_SIZE ==> instrQueue[i] == 0)
      && Slots(trace, reservInt[..], Int) && Slots(trace, reservFp[..], Fp)
      && Slots(trace, fuInt[..], Int) && Slots(trace, fuFp[..], Fp)
      && Shape(trace, Model())
    }

    ghost function Model(): State
      requires instrQueueSize <= instrQueue.Length
      reads this, ins, instrQueue, reservInt, reservFp, fuInt, fuFp, mapTable
    {
      State(instrQueue[..instrQueueSize],
            Occupants(reservInt[..]) + Occupants(reservFp[..]),
            Occupants(fuInt[..]) + Occupants(fuFp[..]),
            commonDataBus, mapTable[..], ins[..], fetchIndex)
    }

    constructor (t: Trace)
      requires WellFormed(t)
      ensures Valid() && trace == t && Model() == Initial(t)
      ensures fresh(ins) && fresh(instrQueue) && fresh(reservInt) && fresh(reservFp) && fresh(fuInt) && fresh(fuFp)
              && fresh(mapTable)
    {
      hide Slots;
      hide Occupants;
      hide Shape;
      trace := t;
      ins := new Progress[|t|](_ => FRESH);
      instrQueue := new nat[INSTR_QUEUE_SIZE](_ => 0);
      instrQueueSize := 0;
      reservInt := new nat[RESERV_INT_SIZE](_ => 0);
      reservFp := new nat[RESERV_FP_SIZE](_ => 0);
      fuInt := new nat[FU_INT_SIZE](_ => 0);
      fuFp := new nat[FU_FP_SIZE](_ => 0);
      commonDataBus := 0;
      mapTable := new nat[MD_TOTAL_REGS](_ => 0);
      fetchIndex := 0;
      new;
      EmptySlots(t, reservInt[..], Int);
      EmptySlots(t, reservFp[..], Fp);
      EmptySlots(t, fuInt[..], Int);
      EmptySlots(t, fuFp[..], Fp);
      NewValues(t, Model());
    }

    method IsSimulationDone() returns (done: bool)
      requires Valid()
      ensures done <==> Done(Model())
    {
      EmptyOccupants(reservInt[..]);
      EmptyOccupants(reservFp[..]);
      EmptyOccupants(fuInt[..]);
      EmptyOccupants(fuFp[..]);
      var empty := AllNull(instrQueue);
      assert empty <==> instrQueueSize == 0 by { assert instrQueueSize > 0 ==> Model().queue[0] != 0; }
      if !empty { return false; }
      empty := AllNull(reservInt);
      if !empty { return false; }
      empty := AllNull(reservFp);
      if !empty { return false; }
      empty := AllNull(fuInt);
      if !empty { return false; }
      empty := AllNull(fuFp);
      if !empty { return false; }
      if commonDataBus != 0 { return false; }
      empty := AllNull(mapTable);
      return empty;
    }

    method CDBToRetire()
      requires Valid()
      modifies this`commonDataBus, ins, mapTable
      ensures Valid() && Model() == Retire(trace, old(Model()))
    {
      hide Shape;
      hide Retire;
      RetireIdle(trace, Model());
      if commonDataBus == 0 {
        return;
      }
      WakeStations(trace, Int, reservInt, ins, commonDataBus);
      WakeStations(trace, Fp, reservFp, ins, commonDataBus);
      Vacate(mapTable, commonDataBus);
      commonDataBus := 0;
      RetireValues(trace, old(Model()), Model());
    }

    /** The first half of the stage: the finished instructions, oldest first. */
    method GatherFinished(currentCycle: nat, ready: array<nat>) returns (count: nat)
      requires Valid() && ready.Length == RESERV_INT_SIZE + RESERV_FP_SIZE
      requires ready != instrQueue && ready != reservInt && ready != reservFp && ready != fuInt && ready != fuFp
               && ready != mapTable
      modifies ready
      ensures count <= ready.Length && Ascending(ready[..count])
      ensures Elements(ready[..count]) == Ready(trace, Model(), currentCycle)
    {
      hide LatencyOver;
      hide Ready;
      hide Shape;
      hide Slots;
      hide Occupants;
      RetireIdle(trace, Model());
      KindsDisjoint(trace, fuInt[..], fuFp[..]);
      FinishedIsReady(trace, Model(), fuInt[..], fuFp[..], currentCycle);
      FinishedOccupy(fuInt[..], ins[..], FU_INT_LATENCY, currentCycle);
      count := ListFinished(trace, Int, fuInt, ins, FU_INT_LATENCY, currentCycle, ready, 0, {});
      count := ListFinished(trace, Fp, fuFp, ins, FU_FP_LATENCY, currentCycle, ready, count,
                            {} + LatencyOver(fuInt[..], ins[..], FU_INT_LATENCY, currentCycle));
      SortOldestFirst(ready, count);
    }

    /** The second half: all finished stores and the oldest other instruction, listed for removal. */
    method SelectFinished(currentCycle: nat, clear: array<nat>) returns (bus: nat, n: nat, ghost a: seq<nat>)
      requires Valid() && clear.Length == RESERV_INT_SIZE + RESERV_FP_SIZE
      requires clear != instrQueue && clear != reservInt && clear != reservFp && clear != fuInt && clear != fuFp
               && clear != mapTable
      modifies clear
      ensures Elements(a) == Ready(trace, Model(), currentCycle) && FirstWriter(trace, a, bus) && bus < ins.Length
      ensures n <= clear.Length && Elements(clear[..n]) == StoresOf(trace, a) + if bus == 0 then {} else {bus}
      ensures forall i :: 0 <= i < n ==> 0 < clear[i] < |trace| && UnitOf(trace[clear[i]]) != NoUnit
    {
      hide Ready;
      hide Occupants;
      hide Elements;
      hide FirstWriter;
      hide StoresOf;
      hide Slots;
      hide Shape;
      RetireIdle(trace, Model());
      var ready := new nat[RESERV_INT_SIZE + RESERV_FP_SIZE];
      var count := GatherFinished(currentCycle, ready);
      a := ready[..count];
      PickedInTrace(trace, Model(), a, fuInt[..], fuFp[..], currentCycle);
      bus, n := Pick(trace, ready, count, clear);
      PickedAreListed(trace, a, bus, clear[..n]);
    }

    method ExecuteToCDB(currentCycle: nat)
      requires Valid()
      modifies this`commonDataBus, ins, reservInt, reservFp, fuInt, fuFp
      ensures Valid() && Model() == ToBus(trace, old(Model()), currentCycle)
    {
      hide Shape;
      hide Slots;
      hide Occupants;
      hide Elements;
      hide FirstWriter;
      hide StoresOf;
      hide ToBus;
      hide Ready;
      RetireIdle(trace, Model());
      var clear := new nat[RESERV_INT_SIZE + RESERV_FP_SIZE];
      var bus, n, a := SelectFinished(currentCycle, clear);
      if bus != 0 {
        commonDataBus := bus;
        ins[bus] := ins[bus].(cdb := currentCycle);
      }
      VacateAll(trace, clear, n, reservInt, fuInt, reservFp, fuFp);
      PickedToBus(trace, old(Model()), Model(), a, bus, currentCycle);
    }

    method IssueToExecute(currentCycle: nat)
      requires Valid() && forall x :: x in Model().units ==> Model().ins[x].execute != 0
      requires currentCycle > 0
      modifies ins, fuInt, fuFp
      ensures Valid() && Model() == ToExecute(trace, old(Model()), currentCycle)
    {
      hide Shape;
      hide Slots;
      hide Grant;
      RetireIdle(trace, Model());
      IssueInt(currentCycle);
      IssueFp(currentCycle);
    }

    method IssueInt(currentCycle: nat)
      requires Valid() && currentCycle > 0 && forall x :: x in Model().units ==> Model().ins[x].execute != 0
      modifies ins, fuInt
      ensures Valid() && Model() == Grant(trace, old(Model()), Int, currentCycle)
      ensures forall x :: x in Model().units ==> Model().ins[x].execute != 0
    {
      hide Occupants;
      hide Resolvable;
      hide Nulls;
      hide Shape;
      hide Slots;
      hide Oldest;
      hide Granted;
      hide Grant;
      RetireIdle(trace, Model());
      UnitsStarted(trace, Model(), fuInt[..], fuFp[..]);
      ghost var s := Model();
      GrantedSlots(trace, s, Int, reservInt[..], reservFp[..], fuInt[..], fuFp[..]);
      ghost var g := Granted(trace, s, Int);
      GrantUnits(trace, Int, reservInt, fuInt, ins, currentCycle);
      assert Model().units == s.units + g;
      GrantValues(trace, s, Model(), Int, currentCycle, g);
    }

    method IssueFp(currentCycle: nat)
      requires Valid() && currentCycle > 0 && forall x :: x in Model().units ==> Model().ins[x].execute != 0
      modifies ins, fuFp
      ensures Valid() && Model() == Grant(trace, old(Model()), Fp, currentCycle)
      ensures forall x :: x in Model().units ==> Model().ins[x].execute != 0
    {
      hide Occupants;
      hide Resolvable;
      hide Nulls;
      hide Shape;
      hide Slots;
      hide Oldest;
      hide Granted;
      hide Grant;
      RetireIdle(trace, Model());
      UnitsStarted(trace, Model(), fuFp[..], fuInt[..]);
      ghost var s := Model();
      GrantedSlots(trace, s, Fp, reservFp[..], reservInt[..], fuFp[..], fuInt[..]);
      ghost var g := Granted(trace, s, Fp);
      GrantUnits(trace, Fp, reservFp, fuFp, ins, currentCycle);
      assert Model().units == s.units + g;
      GrantValues(trace, s, Model(), Fp, currentCycle, g);
    }

    /** Puts x into the first free station of its kind. */
    method TakeStation(x: nat, ghost u: Unit, reserv: array<nat>) returns (hazard: bool)
      requires 0 < x < |trace| && UnitOf(trace[x]) == u && Slots(trace, reserv[..], u) && x !in Occupants(reserv[..])
      modifies reserv
      ensures Slots(trace, reserv[..], u)
      ensures hazard <==> old(|Occupants(reserv[..])|) >= reserv.Length
      ensures hazard ==> reserv[..] == old(reserv[..])
      ensures !hazard ==> Occupants(reserv[..]) == old(Occupants(reserv[..])) + {x}
    {
      CountOccupants(trace, reserv[..], u);
      NoNulls(reserv[..]);
      var i := 0;
      while i < reserv.Length && reserv[i] != 0
        invariant i <= reserv.Length && forall j :: 0 <= j < i ==> reserv[j] != 0
      {
        i := i + 1;
      }
      hazard := i == reserv.Length;
      if !hazard {
        FillSlot(trace, reserv[..], u, i, x);
        ghost var before := reserv[..];
        reserv[i] := x;
        assert reserv[..] == before[i := x];
      }
    }

    /** Reads the producers of the operands from the map table, then enters the results. */
    method Rename(x: nat)
      requires WellFormed(trace) && 0 < x < |trace| && ins.Length == |trace| && mapTable.Length == MD_TOTAL_REGS
               && |ins[x].q| == 3
      modifies ins, mapTable
      ensures forall i :: 0 <= i < ins.Length && i != x ==> ins[i] == old(ins[i])
      ensures ins[x] == if !Tracked(trace[x]) then old(ins[x]) else
                old(ins[x].(q := [Lookup(mapTable[..], trace[x].rIn[0], ins[x].q[0]),
                                  Lookup(mapTable[..], trace[x].rIn[1], ins[x].q[1]),
                                  Lookup(mapTable[..], trace[x].rIn[2], ins[x].q[2])]))
      ensures mapTable[..] == if !Tracked(trace[x]) then old(mapTable[..]) else
                Recorded(Recorded(old(mapTable[..]), trace[x].rOut[0], x), trace[x].rOut[1], x)
    {
      var instr := trace[x];
      if instr.op.uncond || instr.op.cond {
        return;
      }
      if instr.rIn[0] > 0 { ins[x] := ins[x].(q := ins[x].q[0 := mapTable[instr.rIn[0]]]); }
      if instr.rIn[1] > 0 { ins[x] := ins[x].(q := ins[x].q[1 := mapTable[instr.rIn[1]]]); }
      if instr.rIn[2] > 0 { ins[x] := ins[x].(q := ins[x].q[2 := mapTable[instr.rIn[2]]]); }
      assert ins[x].q == [ins[x].q[0], ins[x].q[1], ins[x].q[2]];
      if instr.rOut[0] > 0 { mapTable[instr.rOut[0]] := x; }
      if instr.rOut[1] > 0 { mapTable[instr.rOut[1]] := x; }
    }

    /** Moves x to a free station of its kind; a control instruction needs none. */
    method Station(x: nat, currentCycle: nat) returns (hazard: bool)
      requires Valid() && Model().queue != [] && x == Model().queue[|Model().queue| - 1] && x !in Model().stations
      modifies ins, reservInt, reservFp
      ensures Valid() && hazard == Hazard(trace, old(Model()))
      ensures Model() == old(if hazard || UnitOf(trace[x]) == NoUnit then Model()
                             else Model().(stations := Model().stations + {x},
                                           ins := ins[..][x := ins[x].(issue := currentCycle)]))
    {
      hide Slots;
      hide Occupants;
      hide OfUnit;
      hide Shape;
      ghost var s := Model();
      RetireIdle(trace, s);
      StationShape(trace, s, x, currentCycle);
      OneKind(trace, Int, reservInt[..], reservFp[..]);
      OneKindFp(trace, reservInt[..], reservFp[..]);
      hazard := false;
      if UnitOf(trace[x]) == Int {
        hazard := TakeStation(x, Int, reservInt);
      } else if UnitOf(trace[x]) == Fp {
        hazard := TakeStation(x, Fp, reservFp);
      }
      if !hazard && UnitOf(trace[x]) != NoUnit {
        ins[x] := ins[x].(issue := currentCycle);
        assert Model().stations == s.stations + {x};
        assert ins[..] == s.ins[x := s.ins[x].(issue := currentCycle)];
      }
    }

    method DispatchToIssue(currentCycle: nat)
      requires Valid()
      requires Model().queue != [] ==> Model().queue[|Model().queue| - 1] !in Model().stations
      modifies this`instrQueueSize, instrQueue, ins, reservInt, reservFp, mapTable
      ensures Valid() && Model() == ToIssue(trace, old(Model()), currentCycle)
    {
      hide Slots;
      hide Occupants;
      hide OfUnit;
      hide Shape;
      hide Hazard;
      if instrQueueSize == 0 {
        return;
      }
      var x := instrQueue[instrQueueSize - 1];
      assert x == Model().queue[|Model().queue| - 1];
      QueuedInTrace(trace, Model());
      var hazard := Station(x, currentCycle);
      if hazard {
        return;
      }
      RetireIdle(trace, Model());
      Rename(x);
      instrQueue[instrQueueSize - 1] := 0;
      instrQueueSize := instrQueueSize - 1;
      IssueValues(trace, old(Model()), Model(), x, currentCycle);
    }

    /** Puts x at the front of the queue. */
    method Enqueue(x: nat)
      requires instrQueue.Length == INSTR_QUEUE_SIZE && instrQueueSize < INSTR_QUEUE_SIZE
      requires forall i :: instrQueueSize <= i < INSTR_QUEUE_SIZE ==> instrQueue[i] == 0
      modifies this`instrQueueSize, instrQueue
      ensures instrQueueSize == old(instrQueueSize) + 1
      ensures instrQueue[..instrQueueSize] == [x] + old(instrQueue[..instrQueueSize])
      ensures forall i :: instrQueueSize <= i < INSTR_QUEUE_SIZE ==> instrQueue[i] == 0
    {
      ShiftUp(instrQueue, instrQueueSize);
      instrQueue[0] := x;
      instrQueueSize := instrQueueSize + 1;
      forall i | instrQueueSize <= i < INSTR_QUEUE_SIZE ensures instrQueue[i] == 0 {
        assert instrQueue[i] == instrQueue[instrQueueSize..][i - instrQueueSize];
      }
    }

    /** get_instr for the next index, until it is not a trap, and into the queue. */
    method Fetch(source: InstrTrace.Trace<Instr>)
      requires source.Valid() && source.Contents() == trace
      requires Valid() && fetchIndex < |trace| - 1 && instrQueueSize < INSTR_QUEUE_SIZE
      modifies this`fetchIndex, this`instrQueueSize, instrQueue
      ensures fetchIndex == SkipTraps(trace, old(fetchIndex) + 1)
      ensures instrQueueSize == old(instrQueueSize) + 1
      ensures instrQueue[..instrQueueSize] == [fetchIndex] + old(instrQueue[..instrQueueSize])
      ensures forall i :: instrQueueSize <= i < INSTR_QUEUE_SIZE ==> instrQueue[i] == 0
    {
      hide Slots;
      hide Occupants;
      source.Allocated();
      fetchIndex := fetchIndex + 1;
      var instr := source.Get(fetchIndex);
      while instr.op.trap
        invariant fetchIndex < |trace| && instr == trace[fetchIndex]
        invariant SkipTraps(trace, fetchIndex) == SkipTraps(trace, old(fetchIndex) + 1)
        invariant instrQueueSize == old(instrQueueSize) && instrQueue[..] == old(instrQueue[..])
        decreases |trace| - fetchIndex
      {
        fetchIndex := fetchIndex + 1;
        instr := source.Get(fetchIndex);
      }
      Enqueue(fetchIndex);
    }

    method FetchToDispatch(source: InstrTrace.Trace<Instr>, currentCycle: nat)
      requires Valid() && source.Valid() && source.Contents() == trace
      modifies this`fetchIndex, this`instrQueueSize, instrQueue, ins
      ensures Valid() && Model() == ToDispatch(trace, old(Model()), currentCycle)
    {
      if fetchIndex >= |trace| - 1 {
        return;
      }
      if instrQueueSize < INSTR_QUEUE_SIZE {
        Fetch(source);
        ins[instrQueue[0]] := ins[instrQueue[0]].(dispatch := currentCycle);
        assert instrQueue[..instrQueueSize][0] == fetchIndex;
        assert Model() == ToDispatch(trace, old(Model()), currentCycle);
      }
    }

    /** runTomasulo: one cycle after the other until the pipeline is empty; the returned cycle count
        is one more than the number of cycles run. */
    method RunTomasulo(source: InstrTrace.Trace<Instr>) returns (cycle: nat)
      requires source.Valid() && source.Contents() == trace
      requires Valid() && Model() == Initial(trace) && Drainable(trace)
      modifies this`instrQueueSize, this`commonDataBus, this`fetchIndex
      modifies ins, instrQueue, reservInt, reservFp, fuInt, fuFp, mapTable
      ensures Valid() && cycle > 0 && ExitsAfter(trace, cycle - 1) && Model() == StateAfter(trace, cycle - 1)
      ensures NonTraps(trace, |trace|) < cycle <= 1 + Max(1, TotalDemand(trace, |trace|))
    {
      hide Shape;
      hide Slots;
      hide Occupants;
      hide Drainable;
      hide BoundaryInv;
      hide Cycle;
      hide StateAfter;
      ghost var k := ExitsInTime(trace);
      FirstState(trace);
      cycle := 1;
      while true
        invariant Valid() && 1 <= cycle <= k
        invariant Model() == StateAfter(trace, cycle - 1)
        invariant forall j :: 1 <= j < cycle ==> !Done(StateAfter(trace, j))
        decreases k - cycle
      {
        Reachable(trace, cycle - 1);
        NextState(trace, cycle - 1);
        OneCycle(source, cycle);
        cycle := cycle + 1;
        var done := IsSimulationDone();
        if done {
          ExitUnique(trace, cycle - 1, k);
          break;
        }
      }
      OneCycleEach(trace, cycle - 1);
    }

    /** The loop body of runTomasulo, back to front through the pipeline. */
    method OneCycle(source: InstrTrace.Trace<Instr>, cycle: nat)
      requires source.Valid() && source.Contents() == trace
      requires Valid() && cycle > 0 && BoundaryInv(trace, Model(), cycle)
      modifies this`instrQueueSize, this`commonDataBus, this`fetchIndex
      modifies ins, instrQueue, reservInt, reservFp, fuInt, fuFp, mapTable
      ensures Valid() && Model() == Cycle(trace, old(Model()), cycle)
    {
      hide Shape;
      hide Slots;
      hide Occupants;
      hide Retire;
      hide ToBus;
      hide ToExecute;
      hide ToIssue;
      hide ToDispatch;
      hide Inv;
      StageGuards(trace, Model(), cycle);
      CDBToRetire();
      ExecuteToCDB(cycle);
      IssueToExecute(cycle);
      DispatchToIssue(cycle);
      FetchToDispatch(source, cycle);
    }
  }

  lemma {:induction false} PickedInTrace(t: Trace, s: State, a: seq<nat>, fuInt: seq<nat>, fuFp: seq<nat>, c: nat)
    requires Shape(t, s) && s.units == Occupants(fuInt) + Occupants(fuFp) && Slots(t, fuInt, Int) && Slots(t, fuFp, Fp)
    requires Elements(a) == Ready(t, s, c)
    ensures forall i :: 0 <= i < |a| ==> 0 < a[i] < |t| && UnitOf(t[a[i]]) != NoUnit
  {
    forall i | 0 <= i < |a| ensures 0 < a[i] < |t| && UnitOf(t[a[i]]) != NoUnit {
      assert a[i] in Elements(a);
      assert a[i] in s.units;
      assert (exists j :: 0 <= j < |fuInt| && fuInt[j] == a[i]) || (exists j :: 0 <= j < |fuFp| && fuFp[j] == a[i]);
    }
  }

  lemma {:induction false} FinishedOccupy(a: seq<nat>, ins: seq<Progress>, latency: nat, c: nat)
    ensures LatencyOver(a, ins, latency, c) <= Occupants(a)
  {
  }

  lemma {:induction false} PickedAreListed(t: Trace, a: seq<nat>, b: nat, clear: seq<nat>)
    requires FirstWriter(t, a, b) && Elements(clear) == StoresOf(t, a) + if b == 0 then {} else {b}
    requires forall i :: 0 <= i < |a| ==> 0 < a[i] < |t| && UnitOf(t[a[i]]) != NoUnit
    ensures forall i :: 0 <= i < |clear| ==> 0 < clear[i] < |t| && UnitOf(t[clear[i]]) != NoUnit
    ensures b != 0 ==> 0 < b < |t|
  {
    forall i | 0 <= i < |clear| ensures clear[i] in a {
      assert clear[i] in Elements(clear);
    }
  }

  lemma {:induction false} OccupantsKind(t: Trace, a: seq<nat>, u: Unit, x: nat)
    requires Slots(t, a, u) && x in Occupants(a)
    ensures x < |t| && UnitOf(t[x]) == u
  {
  }

  function OtherUnit(u: Unit): Unit {
    if u == Int then Fp else Int
  }

  lemma {:induction false} OneKind(t: Trace, u: Unit, a: seq<nat>, b: seq<nat>)
    requires u != NoUnit && Slots(t, a, u) && Slots(t, b, OtherUnit(u))
    ensures OfUnit(t, Occupants(a) + Occupants(b), u) == Occupants(a)
  {
    hide Slots;
    forall x | x in Occupants(a) ensures x < |t| && UnitOf(t[x]) == u { OccupantsKind(t, a, u, x); }
    forall x | x in Occupants(b) ensures x < |t| && UnitOf(t[x]) != u { OccupantsKind(t, b, OtherUnit(u), x); }
  }

  lemma {:induction false} OneKindFp(t: Trace, a: seq<nat>, b: seq<nat>)
    requires Slots(t, a, Int) && Slots(t, b, Fp)
    ensures OfUnit(t, Occupants(a) + Occupants(b), Fp) == Occupants(b)
  {
    OneKind(t, Fp, b, a);
    assert Occupants(a) + Occupants(b) == Occupants(b) + Occupants(a);
  }

  lemma {:induction false} IssueValues(t: Trace, s: State, s': State, x: nat, c: nat)
    requires WellFormed(t) && Shape(t, s) && s.queue != [] && !Hazard(t, s) && x == s.queue[|s.queue| - 1]
    requires s' == s.(queue := s.queue[..|s.queue| - 1], stations := s'.stations, ins := s'.ins, table := s'.table)
    requires s'.stations == if UnitOf(t[x]) == NoUnit then s.stations else s.stations + {x}
    requires |s'.ins| == |s.ins| && forall i :: 0 <= i < |s.ins| && i != x ==> s'.ins[i] == s.ins[i]
    requires var p := if UnitOf(t[x]) == NoUnit then s.ins[x] else s.ins[x].(issue := c);
             s'.ins[x] == if !Tracked(t[x]) then p else
               p.(q := [Lookup(s.table, t[x].rIn[0], p.q[0]), Lookup(s.table, t[x].rIn[1], p.q[1]),
                        Lookup(s.table, t[x].rIn[2], p.q[2])])
    requires s'.table == if !Tracked(t[x]) then s.table
             else Recorded(Recorded(s.table, t[x].rOut[0], x), t[x].rOut[1], x)
    ensures s' == ToIssue(t, s, c)
  {
    assert s'.ins == ToIssue(t, s, c).ins;
  }

  lemma {:induction false} StationShape(t: Trace, s: State, x: nat, c: nat)
    requires Shape(t, s) && s.queue != [] && x == s.queue[|s.queue| - 1]
    ensures 0 < x < |t| && Shape(t, s.(stations := s.stations + {x}, ins := s.ins[x := s.ins[x].(issue := c)]))
    ensures Hazard(t, s) <==> UnitOf(t[x]) != NoUnit && |OfUnit(t, s.stations, UnitOf(t[x]))| >= Stations(UnitOf(t[x]))
  {
  }

  /** What the stage methods rely on holds when the loop reaches them. */
  lemma {:induction false} StageGuards(t: Trace, s: State, c: nat)
    requires WellFormed(t) && Shape(t, s) && c > 0 && BoundaryInv(t, s, c)
    ensures var s2, s3 := ToBus(t, Retire(t, s), c), ToExecute(t, ToBus(t, Retire(t, s), c), c);
            && (forall x :: x in s2.units ==> s2.ins[x].execute != 0)
            && (s3.queue != [] ==> s3.queue[|s3.queue| - 1] !in s3.stations)
  {
    hide Retire;
    hide ToBus;
    hide ToExecute;
    hide ToIssue;
    hide Inv;
    StageInvariants(t, s, c);
    StageGuard(t, AtBus(t, s, c), Bounds(c, c, c, c + 1));
    StageGuard(t, AtIssue(t, s, c), Bounds(c, c, c + 1, c + 1));
  }

  lemma {:induction false} StageGuard(t: Trace, s: State, b: Bounds)
    requires Inv(t, s, b)
    ensures forall x :: x in s.units ==> s.ins[x].execute != 0
    ensures s.queue != [] ==> s.queue[|s.queue| - 1] !in s.stations
  {
  }

  lemma {:induction false} FirstState(t: Trace)
    requires WellFormed(t)
    ensures StateAfter(t, 0) == Initial(t)
  {
  }

  lemma {:induction false} ExitUnique(t: Trace, j: nat, k: nat)
    requires WellFormed(t) && ExitsAfter(t, j) && ExitsAfter(t, k)
    ensures j == k
  {
    hide StateAfter;
  }

  lemma {:induction false} WaitingSlots(t: Trace, s: State, u: Unit, reserv: seq<nat>)
    requires Shape(t, s) && OfUnit(t, s.stations, u) == Occupants(reserv)
    ensures Waiting(t, s, u) == Resolvable(reserv, s.ins)
  {
    forall x ensures x in Waiting(t, s, u) <==> x in OfUnit(t, s.stations, u) && x < |s.ins| && CanStart(s.ins[x]) {
    }
  }

  /** The sets of the model, read off the arrays of one kind. */
  lemma {:induction false} GrantedSlots(t: Trace, s: State, u: Unit, reserv: seq<nat>, reserv': seq<nat>,
                                        fu: seq<nat>, fu': seq<nat>)
    requires Shape(t, s) && u != NoUnit && |fu| == Units(u)
    requires s.stations == Occupants(reserv) + Occupants(reserv') && s.units == Occupants(fu) + Occupants(fu')
    requires Slots(t, reserv, u) && Slots(t, reserv', OtherUnit(u)) && Slots(t, fu, u) && Slots(t, fu', OtherUnit(u))
    ensures Granted(t, s, u) == Oldest(Resolvable(reserv, s.ins), Nulls(fu))
  {
    hide Slots;
    hide Oldest;
    hide Waiting;
    hide Resolvable;
    OneKind(t, u, reserv, reserv');
    OneKind(t, u, fu, fu');
    WaitingSlots(t, s, u, reserv);
    CountOccupants(t, fu, u);
  }

  lemma {:induction false} UnitsStarted(t: Trace, s: State, fu: seq<nat>, fu': seq<nat>)
    requires Shape(t, s) && s.units == Occupants(fu) + Occupants(fu')
    requires forall x :: x in s.units ==> s.ins[x].execute != 0
    ensures forall x :: x in Occupants(fu) ==> x < |s.ins| && s.ins[x].execute != 0
  {
  }

  lemma {:induction false} GrantValues(t: Trace, s: State, s': State, u: Unit, c: nat, g: set<nat>)
    requires Shape(t, s) && g == Granted(t, s, u)
    requires s' == s.(units := s.units + g, ins := s'.ins) && |s'.ins| == |s.ins|
    requires forall i :: 0 <= i < |s.ins| ==> s'.ins[i] == if i in g then s.ins[i].(execute := c) else s.ins[i]
    ensures s' == Grant(t, s, u, c)
    ensures c > 0 && (forall x :: x in s.units ==> s.ins[x].execute != 0) ==>
              forall x :: x in s'.units ==> s'.ins[x].execute != 0
  {
    hide Oldest;
  }

  lemma {:induction false} KindsDisjoint(t: Trace, a: seq<nat>, b: seq<nat>)
    requires Slots(t, a, Int) && Slots(t, b, Fp)
    ensures Occupants(a) !! Occupants(b)
  {
  }

  lemma {:induction false} RetireIdle(t: Trace, s: State)
    requires Shape(t, s)
    ensures s.bus == 0 ==> Retire(t, s) == s
    ensures |s.ins| == |t| && |s.table| == MD_TOTAL_REGS && forall i :: 0 <= i < |s.ins| ==> |s.ins[i].q| == 3
  {
  }

  lemma {:induction false} NewValues(t: Trace, s: State)
    requires WellFormed(t) && s.queue == [] && s.stations == {} && s.units == {} && s.bus == 0 && s.fetched == 0
    requires |s.table| == MD_TOTAL_REGS && forall r :: 0 <= r < |s.table| ==> s.table[r] == 0
    requires |s.ins| == |t| && forall i :: 0 <= i < |s.ins| ==> s.ins[i] == FRESH
    ensures s == Initial(t) && Shape(t, s)
  {
    assert s.table == Initial(t).table;
  }

  lemma {:induction false} QueuedInTrace(t: Trace, s: State)
    requires Shape(t, s)
    ensures forall a :: 0 <= a < |s.queue| ==> 0 < s.queue[a] < |t|
  {
  }

  lemma {:induction false} RetireValues(t: Trace, s: State, s': State)
    requires Shape(t, s) && s.bus != 0
    requires s' == s.(bus := 0, ins := s'.ins, table := s'.table) && |s'.ins| == |s.ins| && |s'.table| == |s.table|
    requires forall i :: 0 <= i < |s.ins| ==> s'.ins[i] == if i in s.stations then Wake(s.ins[i], s.bus) else s.ins[i]
    requires forall r :: 0 <= r < |s.table| ==> s'.table[r] == Cleared(s.table[r], s.bus)
    ensures s' == Retire(t, s)
  {
  }

  lemma {:induction false} EmptySlots(t: Trace, a: seq<nat>, u: Unit)
    requires forall i :: 0 <= i < |a| ==> a[i] == 0
    ensures Slots(t, a, u) && Occupants(a) == {}
  {
    EmptyOccupants(a);
  }

  lemma {:induction false} EmptyOccupants(a: seq<nat>)
    ensures Occupants(a) == {} <==> forall i :: 0 <= i < |a| ==> a[i] == 0
  {
    if i :| 0 <= i < |a| && a[i] != 0 {
      assert a[i] in Occupants(a);
    }
  }
}
