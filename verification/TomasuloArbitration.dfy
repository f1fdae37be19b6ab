/** Oldest first, read off the stamps of a whole run: whoever obtains a functional unit
    or the bus never overtakes an older instruction that could have taken it. */
module TomasuloArbitration {
  import opened NatSets
  import opened TomasuloModel
  import opened TomasuloInvariant
  import opened TomasuloTheorems

  /** A result that x reads had not been broadcast before cycle e. */
  ghost predicate HeldUp(t: Trace, s: State, x: nat, e: nat)
    requires WellFormed(t) && Shape(t, s) && x < |t|
  {
    exists k :: 0 <= k < 3 && LateOperand(t, s, x, k, e)
  }

  predicate LateOperand(t: Trace, s: State, x: nat, k: nat, e: nat)
    requires WellFormed(t) && Shape(t, s) && x < |t| && k < 3
  {
    var w := Dependence(t, x, k);
    w != 0 && (s.ins[w].cdb == 0 || s.ins[w].cdb >= e)
  }

  ghost predicate UnitFair(t: Trace, s: State)
    requires WellFormed(t) && Shape(t, s)
  {
    forall x, y :: 0 < x < y < |t| && !t[x].op.trap && UnitOf(t[x]) == UnitOf(t[y]) && s.ins[y].execute != 0 ==>
      || 0 < s.ins[x].execute <= s.ins[y].execute
      || HeldUp(t, s, x, s.ins[y].execute)
  }

  ghost predicate BusFair(t: Trace, s: State)
    requires WellFormed(t) && Shape(t, s)
  {
    forall x, y :: 0 < x < y < |t| && Producer(t[x]) && s.ins[y].cdb != 0 && s.ins[x].execute != 0 ==>
      || 0 < s.ins[x].cdb < s.ins[y].cdb
      || s.ins[y].cdb < s.ins[x].execute + Latency(UnitOf(t[x]))
  }

  ghost predicate Fair(t: Trace, s: State)
    requires WellFormed(t) && Shape(t, s)
  {
    UnitFair(t, s) && BusFair(t, s)
  }

  /** Stages that grant nothing. */
  ghost predicate SameGrants(t: Trace, s: State, s': State)
    requires Shape(t, s) && Shape(t, s')
  {
    forall i :: 0 <= i < |t| ==> s'.ins[i].execute == s.ins[i].execute && s'.ins[i].cdb == s.ins[i].cdb
  }

  lemma {:induction false} SameGrantsFair(t: Trace, s: State, s': State)
    requires WellFormed(t) && Shape(t, s) && Shape(t, s') && SameGrants(t, s, s') && Fair(t, s)
    ensures Fair(t, s')
  {
    forall x, y | 0 < x < y < |t| && !t[x].op.trap && UnitOf(t[x]) == UnitOf(t[y]) && s'.ins[y].execute != 0
      ensures 0 < s'.ins[x].execute <= s'.ins[y].execute || HeldUp(t, s', x, s'.ins[y].execute)
    {
      var e := s.ins[y].execute;
      if HeldUp(t, s, x, e) {
        var k :| 0 <= k < 3 && LateOperand(t, s, x, k, e);
        assert LateOperand(t, s', x, k, e);
      }
    }
  }

  lemma {:induction false} BusHeldUp(t: Trace, s: State, c: nat, x: nat, e: nat)
    requires WellFormed(t) && Shape(t, s) && s.bus == 0 && x < |t| && e <= c && HeldUp(t, s, x, e)
    requires forall z :: z in s.units ==> s.ins[z].cdb == 0
    ensures HeldUp(t, ToBus(t, s, c), x, e)
  {
    ToBusEffect(t, s, c);
    var k :| 0 <= k < 3 && LateOperand(t, s, x, k, e);
    assert LateOperand(t, ToBus(t, s, c), x, k, e);
  }

  lemma {:induction false} ToBusUnitFair(t: Trace, s: State, c: nat)
    requires WellFormed(t) && Shape(t, s) && s.bus == 0 && UnitFair(t, s)
    requires forall z :: z in s.units ==> s.ins[z].cdb == 0
    requires forall i :: 0 < i < |t| ==> s.ins[i].execute < c
    ensures UnitFair(t, ToBus(t, s, c))
  {
    hide ToBus;
    ToBusEffect(t, s, c);
    var s' := ToBus(t, s, c);
    forall x, y | 0 < x < y < |t| && !t[x].op.trap && UnitOf(t[x]) == UnitOf(t[y]) && s'.ins[y].execute != 0
      ensures 0 < s'.ins[x].execute <= s'.ins[y].execute || HeldUp(t, s', x, s'.ins[y].execute)
    {
      if HeldUp(t, s, x, s.ins[y].execute) { BusHeldUp(t, s, c, x, s.ins[y].execute); }
    }
  }

  lemma {:induction false} ToBusBusFair(t: Trace, s: State, c: nat)
    requires WellFormed(t) && Shape(t, s) && s.bus == 0 && BusFair(t, s)
    requires forall i :: 0 < i < |t| ==> s.ins[i].cdb < c
    requires forall i :: 0 < i < |t| && Producer(t[i]) && s.ins[i].execute != 0 && s.ins[i].cdb == 0 ==> i in s.units
    requires forall z :: z in s.units ==> s.ins[z].cdb == 0
    ensures BusFair(t, ToBus(t, s, c))
  {
    var s' := ToBus(t, s, c);
    forall x, y | 0 < x < y < |t| && Producer(t[x]) && s'.ins[y].cdb != 0 && s'.ins[x].execute != 0
      ensures 0 < s'.ins[x].cdb < s'.ins[y].cdb || s'.ins[y].cdb < s'.ins[x].execute + Latency(UnitOf(t[x]))
    {
      if y == s'.bus && s.ins[x].cdb == 0 {
        assert x !in ReadyWriters(t, s, c);
      }
    }
  }

  /** Not granted and not yet started: something x reads is still pending. */
  lemma {:induction false} NotWaitingHeldUp(t: Trace, s: State, x: nat, c: nat)
    requires WellFormed(t) && Shape(t, s) && WaitInv(t, s) && x in s.stations
    requires s.bus != 0 ==> s.ins[s.bus].cdb >= c
    requires s.ins[x].execute == 0 && x !in Waiting(t, s, UnitOf(t[x]))
    ensures HeldUp(t, s, x, c)
  {
    var k :| 0 <= k < 3 && s.ins[x].q[k] != 0;
    assert s.ins[x].q[k] == Pending(t, s, Dependence(t, x, k));
    assert LateOperand(t, s, x, k, c);
  }

  lemma {:induction false} GrantHeldUp(t: Trace, s: State, u: Unit, c: nat, x: nat, e: nat)
    requires WellFormed(t) && Shape(t, s) && x < |t| && HeldUp(t, s, x, e)
    ensures HeldUp(t, Grant(t, s, u, c), x, e)
  {
    hide Granted;
    var k :| 0 <= k < 3 && LateOperand(t, s, x, k, e);
    assert LateOperand(t, Grant(t, s, u, c), x, k, e);
  }

  lemma {:induction false} GrantUnitFair(t: Trace, s: State, u: Unit, c: nat)
    requires c > 0 && u != NoUnit && WellFormed(t) && Shape(t, s) && WaitInv(t, s) && UnitFair(t, s)
    requires s.bus != 0 ==> s.ins[s.bus].cdb >= c
    requires forall i :: 0 < i < |t| ==> s.ins[i].execute <= c
    requires forall x, y :: y in s.stations && 0 < x < y && !t[x].op.trap && UnitOf(t[x]) != NoUnit ==>
               x in s.stations || s.ins[x].execute != 0
    ensures UnitFair(t, Grant(t, s, u, c))
  {
    var s', g := Grant(t, s, u, c), Granted(t, s, u);
    forall x, y | 0 < x < y < |t| && !t[x].op.trap && UnitOf(t[x]) == UnitOf(t[y]) && s'.ins[y].execute != 0
      ensures 0 < s'.ins[x].execute <= s'.ins[y].execute || HeldUp(t, s', x, s'.ins[y].execute)
    {
      if y in g {
        if s.ins[x].execute == 0 && x !in g {
          NotWaitingHeldUp(t, s, x, c);
          GrantHeldUp(t, s, u, c, x, c);
        }
      } else if HeldUp(t, s, x, s.ins[y].execute) {
        GrantHeldUp(t, s, u, c, x, s.ins[y].execute);
      }
    }
  }

  lemma {:induction false} GrantBusFair(t: Trace, s: State, u: Unit, c: nat)
    requires WellFormed(t) && Shape(t, s) && BusFair(t, s)
    requires forall i :: 0 < i < |t| ==> s.ins[i].cdb <= c
    requires forall i :: i in s.stations ==> UnitOf(t[i]) != NoUnit
    ensures BusFair(t, Grant(t, s, u, c))
  {
    hide Granted;
  }

  lemma {:induction false} BusStageFair(t: Trace, s: State, c: nat)
    requires c > 0 && BoundaryInv(t, s, c) && s.bus == 0 && Fair(t, s)
    ensures Fair(t, ToBus(t, s, c))
  {
    hide ToBus;
    forall i | 0 < i < |t|
      ensures s.ins[i].execute < c && s.ins[i].cdb < c && (i in s.units ==> s.ins[i].cdb == 0)
      ensures Producer(t[i]) && s.ins[i].execute != 0 && s.ins[i].cdb == 0 ==> i in s.units
    {
      assert StageInv(t, s, i) && OrderInv(t, s, Bounds(c, c, c, c), i);
    }
    ToBusUnitFair(t, s, c);
    ToBusBusFair(t, s, c);
  }

  /** Both grants of a cycle start from states in which these hold. */
  lemma {:induction false} GrantReady(t: Trace, s: State, c: nat, b: Bounds)
    requires Inv(t, s, b) && b.cdb == c + 1 && b.execute <= c + 1
    ensures forall i :: 0 < i < |t| ==> s.ins[i].execute <= c && s.ins[i].cdb <= c
    ensures forall x, y :: y in s.stations && 0 < x < y && !t[x].op.trap && UnitOf(t[x]) != NoUnit ==>
              x in s.stations || s.ins[x].execute != 0
  {
    forall i | 0 < i < |t| ensures s.ins[i].execute <= c && s.ins[i].cdb <= c {
      assert OrderInv(t, s, b, i);
    }
    forall x, y | y in s.stations && 0 < x < y && !t[x].op.trap && UnitOf(t[x]) != NoUnit
      ensures x in s.stations || s.ins[x].execute != 0
    {
      assert StageInv(t, s, x);
    }
  }

  lemma {:induction false} GrantFair(t: Trace, s: State, u: Unit, c: nat, b: Bounds)
    requires c > 0 && u != NoUnit && Inv(t, s, b) && b.cdb == c + 1 && b.execute <= c + 1 && Fair(t, s)
    requires s.bus != 0 ==> s.ins[s.bus].cdb >= c
    ensures Fair(t, Grant(t, s, u, c))
    ensures s.bus != 0 ==> Grant(t, s, u, c).ins[s.bus].cdb >= c
  {
    GrantReady(t, s, c, b);
    GrantUnitFair(t, s, u, c);
    GrantBusFair(t, s, u, c);
  }

  lemma {:induction false} BusStamp(t: Trace, s: State, c: nat)
    requires Shape(t, s) && s.bus == 0
    ensures var s' := ToBus(t, s, c); s'.bus != 0 ==> s'.ins[s'.bus].cdb == c
  {
  }

  lemma {:induction false} ExecuteStageFair(t: Trace, s: State, c: nat)
    requires c > 0 && Inv(t, s, Bounds(c, c, c, c + 1)) && Fair(t, s)
    requires s.bus != 0 ==> s.ins[s.bus].cdb == c
    ensures Fair(t, ToExecute(t, s, c))
  {
    hide Granted;
    CdbBefore(t, s, c);
    GrantInv(t, s, Int, c, Bounds(c, c, c, c + 1));
    GrantFair(t, s, Int, c, Bounds(c, c, c, c + 1));
    GrantFair(t, Grant(t, s, Int, c), Fp, c, Bounds(c, c, c + 1, c + 1));
  }

  lemma {:induction false} OtherStagesGrantNothing(t: Trace, s: State, c: nat)
    requires WellFormed(t) && Shape(t, s)
    ensures SameGrants(t, s, Retire(t, s)) && SameGrants(t, s, ToIssue(t, s, c))
            && SameGrants(t, s, ToDispatch(t, s, c))
  {
    hide SameGrants;
    RetireGrantsNothing(t, s);
    IssueGrantsNothing(t, s, c);
    DispatchGrantsNothing(t, s, c);
  }

  lemma {:induction false} RetireGrantsNothing(t: Trace, s: State)
    requires WellFormed(t) && Shape(t, s)
    ensures SameGrants(t, s, Retire(t, s))
  {
  }

  lemma {:induction false} IssueGrantsNothing(t: Trace, s: State, c: nat)
    requires WellFormed(t) && Shape(t, s)
    ensures SameGrants(t, s, ToIssue(t, s, c))
  {
  }

  lemma {:induction false} DispatchGrantsNothing(t: Trace, s: State, c: nat)
    requires WellFormed(t) && Shape(t, s)
    ensures SameGrants(t, s, ToDispatch(t, s, c))
  {
  }

  lemma {:induction false} CycleFair(t: Trace, s: State, c: nat)
    requires c > 0 && WellFormed(t) && Shape(t, s) && BoundaryInv(t, s, c) && Fair(t, s)
    ensures Fair(t, Cycle(t, s, c))
  {
    hide Inv;
    hide Retire;
    hide ToBus;
    hide ToExecute;
    hide ToIssue;
    hide ToDispatch;
    hide Fair;
    var s1 := Retire(t, s);
    var s2 := ToBus(t, s1, c);
    var s3 := ToExecute(t, s2, c);
    var s4 := ToIssue(t, s3, c);
    StageInvariants(t, s, c);
    OtherStagesGrantNothing(t, s, c);
    SameGrantsFair(t, s, s1);
    BusStageFair(t, s1, c);
    BusStamp(t, s1, c);
    ExecuteStageFair(t, s2, c);
    OtherStagesGrantNothing(t, s3, c);
    SameGrantsFair(t, s3, s4);
    OtherStagesGrantNothing(t, s4, c);
    SameGrantsFair(t, s4, ToDispatch(t, s4, c));
  }

  lemma {:induction false} InitiallyFair(t: Trace)
    requires WellFormed(t)
    ensures Fair(t, StateAfter(t, 0))
  {
    assert StateAfter(t, 0) == Initial(t);
  }

  lemma {:induction false} RunsAreFair(t: Trace, n: nat)
    requires WellFormed(t)
    ensures Fair(t, StateAfter(t, n))
  {
    hide Cycle;
    hide Fair;
    hide BoundaryInv;
    hide WellFormed;
    if n == 0 {
      InitiallyFair(t);
    } else {
      Reachable(t, n - 1);
      RunsAreFair(t, n - 1);
      NextState(t, n - 1);
      CycleFair(t, StateAfter(t, n - 1), n);
    }
  }

  /** Of two instructions for the same kind of unit the younger starts first only while the older
      still waits for a result. */
  lemma {:induction false} OldestStartsFirst(t: Trace, n: nat, x: nat, y: nat)
    requires WellFormed(t) && 0 < x < y < |t| && !t[x].op.trap && UnitOf(t[x]) == UnitOf(t[y])
    requires StateAfter(t, n).ins[y].execute != 0
    ensures var s := StateAfter(t, n);
            || 0 < s.ins[x].execute <= s.ins[y].execute
            || exists k :: 0 <= k < 3 && LateOperand(t, s, x, k, s.ins[y].execute)
  {
    hide Cycle;
    RunsAreFair(t, n);
  }

  /** The younger of two results goes over the bus first only while the older is not ready. */
  lemma {:induction false} OldestWritesFirst(t: Trace, n: nat, x: nat, y: nat)
    requires WellFormed(t) && 0 < x < y < |t| && Producer(t[x])
    requires StateAfter(t, n).ins[y].cdb != 0 && StateAfter(t, n).ins[x].execute != 0
    ensures var p, q := StateAfter(t, n).ins[x], StateAfter(t, n).ins[y];
            0 < p.cdb < q.cdb || q.cdb < p.execute + Latency(UnitOf(t[x]))
  {
    hide Cycle;
    RunsAreFair(t, n);
  }
}
