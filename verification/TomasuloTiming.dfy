/** When every stage happens, cycle for cycle, in terms of the opcode flags and the sizes and latencies
    of the machine: an instruction moves on as early as it can, and what holds it up is one of four things. */
module TomasuloTiming {
  import opened NatSets
  import opened TomasuloModel
  import opened TomasuloInvariant
  import opened TomasuloTheorems

  // ----- stamps are set once

  predicate Grew(a: nat, b: nat, c: nat) {
    b == a || (a == 0 && b == c)
  }

  predicate StampsGrow(p: Progress, p': Progress, c: nat) {
    Grew(p.dispatch, p'.dispatch, c) && Grew(p.issue, p'.issue, c)
    && Grew(p.execute, p'.execute, c) && Grew(p.cdb, p'.cdb, c)
  }

  predicate SameStamps(p: Progress, p': Progress) {
    p'.dispatch == p.dispatch && p'.issue == p.issue && p'.execute == p.execute && p'.cdb == p.cdb
  }

  lemma {:induction false} RetireSameStamps(t: Trace, s: State, x: nat)
    requires Shape(t, s) && x < |t|
    ensures SameStamps(s.ins[x], Retire(t, s).ins[x])
    ensures Retire(t, s).stations == s.stations && Retire(t, s).units == s.units
    ensures Retire(t, s).queue == s.queue && Retire(t, s).fetched == s.fetched
  {
  }

  lemma {:induction false} BusStamps(t: Trace, s: State, c: nat, x: nat)
    requires Shape(t, s) && s.bus == 0 && x < |t| && forall z :: z in s.units ==> s.ins[z].cdb == 0
    ensures var p, p' := s.ins[x], ToBus(t, s, c).ins[x]; SameStamps(p.(cdb := p'.cdb), p') && Grew(p.cdb, p'.cdb, c)
  {
    ToBusEffect(t, s, c);
    hide ToBus;
  }

  lemma {:induction false} GrantStamps(t: Trace, s: State, u: Unit, c: nat, x: nat)
    requires Shape(t, s) && x < |t|
    ensures var p, p' := s.ins[x], Grant(t, s, u, c).ins[x];
            SameStamps(p.(execute := p'.execute), p') && Grew(p.execute, p'.execute, c)
  {
    GrantStarts(t, s, u, c);
    hide Grant;
    hide Granted;
  }

  lemma {:induction false} ExecuteStamps(t: Trace, s: State, c: nat, x: nat)
    requires Shape(t, s) && x < |t|
    ensures var p, p' := s.ins[x], ToExecute(t, s, c).ins[x];
            SameStamps(p.(execute := p'.execute), p') && Grew(p.execute, p'.execute, c)
  {
    hide Grant;
    GrantStamps(t, s, Int, c, x);
    GrantStamps(t, Grant(t, s, Int, c), Fp, c, x);
  }

  lemma {:induction false} IssueStamps(t: Trace, s: State, c: nat, x: nat)
    requires WellFormed(t) && Shape(t, s) && 0 < x < |t| && StageInv(t, s, x)
    ensures var p, p' := s.ins[x], ToIssue(t, s, c).ins[x];
            SameStamps(p.(issue := p'.issue), p') && Grew(p.issue, p'.issue, c)
  {
  }

  lemma {:induction false} DispatchStamps(t: Trace, s: State, c: nat, x: nat)
    requires WellFormed(t) && Shape(t, s) && 0 < x < |t| && StageInv(t, s, x)
    ensures var p, p' := s.ins[x], ToDispatch(t, s, c).ins[x];
            SameStamps(p.(dispatch := p'.dispatch), p') && Grew(p.dispatch, p'.dispatch, c)
  {
  }

  lemma {:induction false} CycleStamps(t: Trace, s: State, c: nat, x: nat)
    requires c > 0 && WellFormed(t) && Shape(t, s) && BoundaryInv(t, s, c) && 0 < x < |t|
    ensures StampsGrow(s.ins[x], Cycle(t, s, c).ins[x], c)
  {
    hide Inv;
    hide Retire;
    hide ToBus;
    hide ToExecute;
    hide ToIssue;
    hide ToDispatch;
    hide StageInv;
    hide Shape;
    hide WellFormed;
    StageInvariants(t, s, c);
    StageShapes(t, s, c);
    var s1, s2, s3 := Retire(t, s), AtBus(t, s, c), AtIssue(t, s, c);
    RetireSameStamps(t, s, x);
    UnitsUnsent(t, s1, c);
    BusStamps(t, s1, c, x);
    ExecuteStamps(t, s2, c, x);
    StageOf(t, s3, Bounds(c, c, c + 1, c + 1), x);
    IssueStamps(t, s3, c, x);
    StageOf(t, ToIssue(t, s3, c), Bounds(c, c + 1, c + 1, c + 1), x);
    DispatchStamps(t, ToIssue(t, s3, c), c, x);
  }

  lemma {:induction false} StageShapes(t: Trace, s: State, c: nat)
    requires WellFormed(t) && Shape(t, s)
    ensures |s.ins| == |t| && |Retire(t, s).ins| == |t| && |AtBus(t, s, c).ins| == |t| && |AtIssue(t, s, c).ins| == |t|
    ensures |ToIssue(t, AtIssue(t, s, c), c).ins| == |t| && |Cycle(t, s, c).ins| == |t|
  {
    hide Retire;
    hide ToBus;
    hide ToExecute;
    hide ToIssue;
    hide ToDispatch;
  }

  predicate KeptField(a: nat, b: nat, j: nat) {
    (a != 0 ==> b == a) && (b != 0 && b <= j ==> a == b)
  }

  /** q has the stamps of p, and those it has besides are later than cycle j. */
  predicate Kept(p: Progress, q: Progress, j: nat) {
    KeptField(p.dispatch, q.dispatch, j) && KeptField(p.issue, q.issue, j)
    && KeptField(p.execute, q.execute, j) && KeptField(p.cdb, q.cdb, j)
  }

  /** A stamp never changes, and is set in the cycle it names. */
  lemma {:induction false} StampsKept(t: Trace, j: nat, n: nat, x: nat)
    requires WellFormed(t) && j <= n && 0 < x < |t|
    ensures Kept(StateAfter(t, j).ins[x], StateAfter(t, n).ins[x], j)
  {
    hide StateAfter;
    hide Cycle;
    hide BoundaryInv;
    if j < n {
      StampsKept(t, j, n - 1, x);
      Reachable(t, n - 1);
      NextState(t, n - 1);
      CycleStamps(t, StateAfter(t, n - 1), n, x);
    }
  }

  /** Which stage of a cycle sets which stamp. */
  lemma {:induction false} StampParts(t: Trace, s: State, c: nat, x: nat)
    requires c > 0 && WellFormed(t) && Shape(t, s) && BoundaryInv(t, s, c) && 0 < x < |t|
    ensures |AtBus(t, s, c).ins| == |AtIssue(t, s, c).ins| == |ToIssue(t, AtIssue(t, s, c), c).ins| == |t|
    ensures var p := Cycle(t, s, c).ins[x];
            && p.cdb == AtBus(t, s, c).ins[x].cdb && p.execute == AtIssue(t, s, c).ins[x].execute
            && p.issue == ToIssue(t, AtIssue(t, s, c), c).ins[x].issue
            && AtBus(t, s, c).ins[x].execute == s.ins[x].execute && AtIssue(t, s, c).ins[x].issue == s.ins[x].issue
  {
    hide Inv;
    hide Retire;
    hide ToBus;
    hide ToExecute;
    hide ToIssue;
    hide ToDispatch;
    hide StageInv;
    hide Shape;
    hide WellFormed;
    StageInvariants(t, s, c);
    StageShapes(t, s, c);
    var s1, s2, s3 := Retire(t, s), AtBus(t, s, c), AtIssue(t, s, c);
    RetireSameStamps(t, s, x);
    UnitsUnsent(t, s1, c);
    BusStamps(t, s1, c, x);
    ExecuteStamps(t, s2, c, x);
    StageOf(t, s3, Bounds(c, c, c + 1, c + 1), x);
    IssueStamps(t, s3, c, x);
    StageOf(t, ToIssue(t, s3, c), Bounds(c, c + 1, c + 1, c + 1), x);
    DispatchStamps(t, ToIssue(t, s3, c), c, x);
  }

  // ----- the bus

  lemma {:induction false} UnitFlags(i: Instr)
    ensures UnitOf(i) == Int <==> IntOp(i)
    ensures UnitOf(i) == Fp <==> FpOp(i)
  {
  }

  /** A producer that has started and not sent its result is in a unit. */
  lemma {:induction false} ExecutingInUnit(t: Trace, s: State, b: Bounds, x: nat)
    requires Inv(t, s, b) && 0 < x < |t| && !t[x].op.store && s.ins[x].execute != 0 && s.ins[x].cdb == 0
    ensures x in s.units && x in s.stations
  {
    StageOf(t, s, b, x);
    hide QueueInv;
    hide StampInv;
    hide TableInv;
    hide WaitInv;
    hide RawSafe;
  }

  lemma {:induction false} ReadyGoes(t: Trace, s: State, c: nat, x: nat)
    requires Shape(t, s) && s.bus == 0 && x in s.units && !t[x].op.store
    requires s.ins[x].execute + (if IntOp(t[x]) then 5 else 7) <= c && UnitOf(t[x]) != NoUnit
    ensures var s' := ToBus(t, s, c); 0 < s'.bus <= x && s'.ins[s'.bus].cdb == c
  {
    assert x in ReadyWriters(t, s, c);
  }

  /** In a cycle that finds a result ready, it goes over the bus, or an older one does. */
  lemma {:induction false} BusTaken(t: Trace, s: State, c: nat, x: nat) returns (y: nat)
    requires c > 0 && WellFormed(t) && Shape(t, s) && BoundaryInv(t, s, c)
    requires 0 < x < |t| && !t[x].op.store && s.ins[x].cdb == 0
    requires s.ins[x].execute != 0 && s.ins[x].execute + (if IntOp(t[x]) then 5 else 7) <= c
    ensures 0 < y <= x && Cycle(t, s, c).ins[y].cdb == c
  {
    hide QueueInv;
    hide PlaceInv;
    hide TableInv;
    hide WaitInv;
    hide RawSafe;
    hide StampInv;
    hide Retire;
    hide ToBus;
    hide Cycle;
    ExecutingInUnit(t, s, Bounds(c, c, c, c), x);
    StageOf(t, s, Bounds(c, c, c, c), x);
    StageInvariants(t, s, c);
    RetireSameStamps(t, s, x);
    ReadyGoes(t, Retire(t, s), c, x);
    y := AtBus(t, s, c).bus;
    StampParts(t, s, c, y);
  }

  /** From the cycle on in which its latency (5 or 7) has passed, a result has gone over the bus, or in that very
      cycle an older one went. */
  lemma {:induction false} ResultTiming(t: Trace, n: nat, x: nat, d: nat)
    requires WellFormed(t) && 0 < x < |t| && !t[x].op.store && StateAfter(t, n).ins[x].execute != 0
    requires StateAfter(t, n).ins[x].execute + (if IntOp(t[x]) then 5 else 7) <= d <= n
    ensures 0 < StateAfter(t, n).ins[x].cdb <= d || exists y :: 0 < y < x && StateAfter(t, n).ins[y].cdb == d
  {
    hide StateAfter;
    hide Cycle;
    hide BoundaryInv;
    hide WellFormed;
    var s := StateAfter(t, d - 1);
    Reachable(t, d - 1);
    NextState(t, d - 1);
    StampsKept(t, d - 1, n, x);
    if s.ins[x].cdb == 0 {
      var y := BusTaken(t, s, d, x);
      StampsKept(t, d, n, y);
    } else {
      StageTiming(t, d - 1, x);
    }
  }

  // ----- the units and the stations, told by the stamps

  lemma {:induction false} BusLeavers(t: Trace, s: State, c: nat, x: nat)
    requires Shape(t, s) && s.bus == 0 && x in s.units && t[x].op.store
    ensures s.ins[x].execute + 5 <= c ==> x !in ToBus(t, s, c).stations
    ensures s.ins[x].execute + 5 > c ==> x in ToBus(t, s, c).stations
  {
    assert UnitOf(t[x]) == Int;
    assert s.ins[x].execute + 5 <= c ==> x in ReadyStores(t, s, c);
    ToBusEffect(t, s, c);
  }

  lemma {:induction false} ExecuteKeepsPlaces(t: Trace, s: State, c: nat)
    requires Shape(t, s)
    ensures ToExecute(t, s, c).stations == s.stations && ToExecute(t, s, c).queue == s.queue
    ensures ToExecute(t, s, c).fetched == s.fetched && s.units <= ToExecute(t, s, c).units
  {
    hide Granted;
  }

  lemma {:induction false} IssueKeepsUnits(t: Trace, s: State, c: nat)
    requires WellFormed(t) && Shape(t, s)
    ensures ToIssue(t, s, c).units == s.units && s.stations <= ToIssue(t, s, c).stations
  {
  }

  lemma {:induction false} DispatchKeepsPlaces(t: Trace, s: State, c: nat)
    requires WellFormed(t) && Shape(t, s)
    ensures ToDispatch(t, s, c).units == s.units && ToDispatch(t, s, c).stations == s.stations
  {
  }

  lemma {:induction false} NotIssuedTwice(t: Trace, s: State, c: nat, x: nat)
    requires WellFormed(t) && Shape(t, s) && 0 < x < |t| && StageInv(t, s, x) && s.ins[x].issue != 0
    ensures x in ToIssue(t, s, c).stations <==> x in s.stations
  {
  }

  /** Only ToBus takes from the stations, and only what is in a unit. */
  lemma {:induction false} StationParts(t: Trace, s: State, c: nat, x: nat)
    requires c > 0 && WellFormed(t) && Shape(t, s) && BoundaryInv(t, s, c) && 0 < x < |t|
    ensures s.ins[x].issue != 0 ==> (x in Cycle(t, s, c).stations <==> x in AtBus(t, s, c).stations)
    ensures AtBus(t, s, c).stations <= s.stations && (x in s.stations && x !in s.units ==> x in AtBus(t, s, c).stations)
    ensures Cycle(t, s, c).units == AtIssue(t, s, c).units && AtIssue(t, s, c).stations == AtBus(t, s, c).stations
  {
    hide Retire;
    hide ToBus;
    hide ToExecute;
    hide ToIssue;
    hide ToDispatch;
    hide Inv;
    hide StageInv;
    hide Shape;
    hide WellFormed;
    StageShapes(t, s, c);
    StageInvariants(t, s, c);
    RetireSameStamps(t, s, x);
    ToBusEffect(t, Retire(t, s), c);
    StampParts(t, s, c, x);
    var s3 := AtIssue(t, s, c);
    ExecuteKeepsPlaces(t, AtBus(t, s, c), c);
    IssueKeepsUnits(t, s3, c);
    DispatchKeepsPlaces(t, ToIssue(t, s3, c), c);
    if s.ins[x].issue != 0 {
      StageOf(t, s3, Bounds(c, c, c + 1, c + 1), x);
      NotIssuedTwice(t, s3, c, x);
    }
  }

  lemma {:induction false} StoreInUnit(t: Trace, s: State, b: Bounds, x: nat)
    requires Inv(t, s, b) && 0 < x < |t|
    ensures x in s.units <==> x in s.stations && s.ins[x].execute != 0
  {
    hide QueueInv;
    hide StampInv;
    hide TableInv;
    hide WaitInv;
    hide RawSafe;
  }

  lemma {:induction false} StartsFromStation(t: Trace, s: State, c: nat, x: nat)
    requires Shape(t, s) && x < |t|
    ensures ToExecute(t, s, c).ins[x].execute != s.ins[x].execute ==> x in s.stations
  {
    hide Granted;
  }

  lemma {:induction false} StationIssued(t: Trace, s: State, b: Bounds, x: nat)
    requires Inv(t, s, b) && 0 < x < |t|
    ensures x in s.stations ==> s.ins[x].issue != 0
  {
    StageOf(t, s, b, x);
    hide QueueInv;
    hide StampInv;
    hide TableInv;
    hide WaitInv;
    hide RawSafe;
  }

  /** One cycle of a store that has started. */
  lemma {:induction false} StoreStep(t: Trace, s: State, c: nat, x: nat)
    requires c > 0 && WellFormed(t) && Shape(t, s) && BoundaryInv(t, s, c) && 0 < x < |t| && t[x].op.store
    requires Cycle(t, s, c).ins[x].execute != 0
    ensures Cycle(t, s, c).ins[x].execute == if s.ins[x].execute != 0 then s.ins[x].execute else c
    ensures x in Cycle(t, s, c).stations <==>
              (s.ins[x].execute == 0 || (x in s.stations && c < s.ins[x].execute + 5))
  {
    hide Retire;
    hide ToBus;
    hide ToExecute;
    hide Cycle;
    hide Inv;
    hide StageInv;
    CycleStamps(t, s, c, x);
    StampParts(t, s, c, x);
    StationParts(t, s, c, x);
    StageInvariants(t, s, c);
    RetireSameStamps(t, s, x);
    StoreInUnit(t, s, Bounds(c, c, c, c), x);
    if s.ins[x].execute == 0 {
      StartsFromStation(t, AtBus(t, s, c), c, x);
      StationIssued(t, s, Bounds(c, c, c, c), x);
    } else if x in s.stations {
      StartedIssued(t, s, Bounds(c, c, c, c), x);
      BusLeavers(t, Retire(t, s), c, x);
    } else {
      StartedIssued(t, s, Bounds(c, c, c, c), x);
    }
  }

  lemma {:induction false} StartedIssued(t: Trace, s: State, b: Bounds, x: nat)
    requires Inv(t, s, b) && 0 < x < |t| && s.ins[x].execute != 0
    ensures s.ins[x].issue != 0
  {
    StageOf(t, s, b, x);
    hide Inv;
  }

  /** A store leaves its station and its unit exactly when its latency has passed. */
  lemma {:induction false} StoreLeaves(t: Trace, n: nat, x: nat)
    requires WellFormed(t) && 0 < x < |t| && t[x].op.store && StateAfter(t, n).ins[x].execute != 0
    ensures x in StateAfter(t, n).stations <==> n < StateAfter(t, n).ins[x].execute + 5
  {
    hide Cycle;
    hide BoundaryInv;
    hide WellFormed;
    StageTiming(t, n, x);
    if n > 0 {
      hide StateAfter;
      var s := StateAfter(t, n - 1);
      Reachable(t, n - 1);
      NextState(t, n - 1);
      StoreStep(t, s, n, x);
      if s.ins[x].execute != 0 { StoreLeaves(t, n - 1, x); }
    }
  }

  /** Whether an instruction is in a functional unit at the end of cycle n, told by its stamps. */
  ghost predicate Executing(t: Trace, n: nat, x: nat)
    requires WellFormed(t) && 0 < x < |t|
  {
    var p := StateAfter(t, n).ins[x];
    p.execute != 0 && if t[x].op.store then n < p.execute + 5 else p.cdb == 0
  }

  /** Whether it is in a reservation station. */
  ghost predicate Stationed(t: Trace, n: nat, x: nat)
    requires WellFormed(t) && 0 < x < |t|
  {
    var p := StateAfter(t, n).ins[x];
    p.issue != 0 && if t[x].op.store then p.execute == 0 || n < p.execute + 5 else p.cdb == 0
  }

  lemma {:induction false} StationInv(t: Trace, s: State, b: Bounds, x: nat)
    requires Inv(t, s, b) && 0 < x < |t|
    ensures x in s.units <==> x in s.stations && s.ins[x].execute != 0
    ensures x in s.stations ==> s.ins[x].issue != 0 && (IntOp(t[x]) || FpOp(t[x]))
    ensures s.ins[x].issue != 0 && s.ins[x].execute == 0 ==> x in s.stations
    ensures s.ins[x].execute != 0 ==> s.ins[x].issue != 0
    ensures !t[x].op.store && s.ins[x].issue != 0 ==> (x in s.stations <==> s.ins[x].cdb == 0)
  {
    StageOf(t, s, b, x);
    hide QueueInv;
    hide StampInv;
    hide TableInv;
    hide WaitInv;
    hide RawSafe;
  }

  /** The units and stations of the state are those the stamps tell. */
  lemma {:induction false} PlacesByStamps(t: Trace, n: nat, x: nat)
    requires WellFormed(t) && 0 < x < |t|
    ensures x in StateAfter(t, n).units <==> Executing(t, n, x)
    ensures x in StateAfter(t, n).stations <==> Stationed(t, n, x)
  {
    hide StateAfter;
    hide Inv;
    hide WellFormed;
    Reachable(t, n);
    StationInv(t, StateAfter(t, n), Bounds(n + 1, n + 1, n + 1, n + 1), x);
    if t[x].op.store && StateAfter(t, n).ins[x].execute != 0 { StoreLeaves(t, n, x); }
  }

  // ----- what holds up the start of execution

  /** A resolved instruction that gets no unit leaves none free. */
  lemma {:induction false} GrantedAll(t: Trace, s: State, u: Unit, x: nat)
    requires Shape(t, s) && x in Waiting(t, s, u) && x !in Granted(t, s, u)
    ensures |Granted(t, s, u)| == Free(t, s, u) && Granted(t, s, u) <= Waiting(t, s, u)
  {
    hide OfUnit;
    hide Free;
    hide Waiting;
  }

  lemma {:induction false} UnitsJoin(t: Trace, a: set<nat>, g: set<nat>, u: Unit)
    requires (forall z :: z in g ==> z < |t| && UnitOf(t[z]) == u) && a !! g
    ensures |OfUnit(t, a + g, u)| == |OfUnit(t, a, u)| + |g|
  {
    hide UnitOf;
    assert OfUnit(t, a + g, u) == OfUnit(t, a, u) + g;
    assert OfUnit(t, a, u) !! g;
  }

  lemma {:induction false} WaitingOutside(t: Trace, s: State, u: Unit, g: set<nat>)
    requires Shape(t, s) && g <= Waiting(t, s, u) && forall z :: z in s.units ==> s.ins[z].execute != 0
    ensures s.units !! g && forall z :: z in g ==> z < |t| && UnitOf(t[z]) == u
  {
    hide UnitOf;
  }

  lemma {:induction false} GrantFills(t: Trace, s: State, u: Unit, c: nat, x: nat)
    requires Shape(t, s) && x in Waiting(t, s, u) && x !in Granted(t, s, u) && |OfUnit(t, s.units, u)| <= Units(u)
    requires forall z :: z in s.units ==> s.ins[z].execute != 0
    ensures |OfUnit(t, Grant(t, s, u, c).units, u)| == Units(u)
  {
    hide OfUnit;
    hide Granted;
    hide Waiting;
    hide Shape;
    GrantedAll(t, s, u, x);
    WaitingOutside(t, s, u, Granted(t, s, u));
    UnitsJoin(t, s.units, Granted(t, s, u), u);
  }

  lemma {:induction false} GrantMarks(t: Trace, s: State, u: Unit, c: nat, x: nat)
    requires Shape(t, s) && x in Granted(t, s, u)
    ensures Grant(t, s, u, c).ins[x].execute == c
  {
    hide Granted;
  }

  /** With every operand broadcast in an earlier cycle an instruction waits for nothing but a unit. */
  lemma {:induction false} WaitsForUnit(t: Trace, s: State, c: nat, x: nat)
    requires WellFormed(t) && Shape(t, s) && WaitInv(t, s) && x in s.stations && s.ins[x].execute == 0
    requires s.bus != 0 ==> s.ins[s.bus].cdb >= c
    requires forall k :: 0 <= k < 3 && Dependence(t, x, k) != 0 ==> 0 < s.ins[Dependence(t, x, k)].cdb < c
    ensures x in Waiting(t, s, UnitOf(t[x]))
  {
    hide Dependence;
    hide WellFormed;
    forall k | 0 <= k < 3 ensures s.ins[x].q[k] == 0 {
      assert s.ins[x].q[k] == Pending(t, s, Dependence(t, x, k));
    }
  }

  lemma {:induction false} UnitBounds(t: Trace, s: State, b: Bounds)
    requires Inv(t, s, b)
    ensures Shape(t, s)
    ensures forall u :: u != NoUnit ==> |OfUnit(t, s.units, u)| <= Units(u) && |OfUnit(t, s.stations, u)| <= Stations(u)
    ensures forall z :: z in s.units ==> s.ins[z].execute != 0
    ensures WaitInv(t, s)
  {
    hide QueueInv;
    hide StampInv;
    hide TableInv;
    hide WaitInv;
    hide RawSafe;
    hide OfUnit;
  }

  /** An instruction that waits for a unit through both grants finds all units of its kind taken. */
  lemma {:induction false} UnitsTaken(t: Trace, s: State, c: nat, x: nat)
    requires c > 0 && Inv(t, s, Bounds(c, c, c, c + 1)) && x < |t| && ToExecute(t, s, c).ins[x].execute == 0
    requires UnitOf(t[x]) != NoUnit && x in Waiting(t, s, UnitOf(t[x]))
    ensures |OfUnit(t, ToExecute(t, s, c).units, UnitOf(t[x]))| == Units(UnitOf(t[x]))
  {
    hide Grant;
    hide Granted;
    hide Inv;
    hide Waiting;
    hide OfUnit;
    CdbEarlier(t, s, c);
    var s1 := Grant(t, s, Int, c);
    UnitBounds(t, s, Bounds(c, c, c, c + 1));
    GrantInv(t, s, Int, c, Bounds(c, c, c, c + 1));
    UnitBounds(t, s1, Bounds(c, c, c + 1, c + 1));
    GrantStamps(t, s1, Fp, c, x);
    GrantStarts(t, s, Int, c);
    GrantStarts(t, s1, Fp, c);
    if UnitOf(t[x]) == Int {
      if x in Granted(t, s, Int) { GrantMarks(t, s, Int, c, x); }
      GrantFills(t, s, Int, c, x);
      StartedKeepsOther(t, s1, ToExecute(t, s, c), Granted(t, s1, Fp), Fp, c, Int);
    } else {
      StartedKeepsOther(t, s, s1, Granted(t, s, Int), Int, c, Fp);
      if x in Granted(t, s1, Fp) { GrantMarks(t, s1, Fp, c, x); }
      GrantFills(t, s1, Fp, c, x);
    }
  }

  lemma {:induction false} CdbEarlier(t: Trace, s: State, c: nat)
    requires Inv(t, s, Bounds(c, c, c, c + 1))
    ensures Shape(t, s) && forall w :: 0 < w < |t| && w != s.bus ==> s.ins[w].cdb < c
  {
    CdbBefore(t, s, c);
  }

  lemma {:induction false} BusMark(t: Trace, s: State, c: nat)
    requires Shape(t, s) && Retire(t, s).bus == 0
    ensures AtBus(t, s, c).bus != 0 ==> AtBus(t, s, c).ins[AtBus(t, s, c).bus].cdb == c
  {
    ToBusEffect(t, Retire(t, s), c);
    hide ToBus;
    hide Retire;
  }

  lemma {:induction false} StallInCycle(t: Trace, s: State, c: nat, x: nat)
    requires c > 0 && WellFormed(t) && Shape(t, s) && BoundaryInv(t, s, c) && 0 < x < |t|
    requires s.ins[x].issue != 0 && Cycle(t, s, c).ins[x].execute == 0
    requires forall k :: 0 <= k < 3 && Dependence(t, x, k) != 0 ==> 0 < Cycle(t, s, c).ins[Dependence(t, x, k)].cdb < c
    ensures |OfUnit(t, Cycle(t, s, c).units, UnitOf(t[x]))| == Units(UnitOf(t[x]))
  {
    hide Retire;
    hide ToBus;
    hide ToExecute;
    hide Cycle;
    hide Inv;
    hide OfUnit;
    hide Waiting;
    hide Dependence;
    var s2 := AtBus(t, s, c);
    StageInvariants(t, s, c);
    CycleStamps(t, s, c, x);
    StampParts(t, s, c, x);
    StationInv(t, s, Bounds(c, c, c, c), x);
    StationParts(t, s, c, x);
    BusMark(t, s, c);
    forall k | 0 <= k < 3 && Dependence(t, x, k) != 0 ensures 0 < s2.ins[Dependence(t, x, k)].cdb < c {
      StampParts(t, s, c, Dependence(t, x, k));
    }
    UnitBounds(t, s2, Bounds(c, c, c, c + 1));
    WaitsForUnit(t, s2, c, x);
    UnitsTaken(t, s2, c, x);
  }

  /** The instructions of x's kind that are in a functional unit at the end of cycle n. */
  ghost function Rivals(t: Trace, n: nat, x: nat): set<nat>
    requires WellFormed(t) && 0 < x < |t|
  {
    set y | 0 < y < |t| && (if IntOp(t[x]) then IntOp(t[y]) else FpOp(t[y])) && Executing(t, n, y)
  }

  lemma {:induction false} RivalsInUnits(t: Trace, n: nat, x: nat)
    requires WellFormed(t) && 0 < x < |t| && UnitOf(t[x]) != NoUnit
    ensures Rivals(t, n, x) == OfUnit(t, StateAfter(t, n).units, UnitOf(t[x]))
  {
    hide StateAfter;
    hide Executing;
    hide WellFormed;
    UnitFlags(t[x]);
    assert Shape(t, StateAfter(t, n));
    forall y | 0 < y < |t| ensures y in StateAfter(t, n).units <==> Executing(t, n, y) {
      PlacesByStamps(t, n, y);
    }
    forall y | 0 < y < |t| ensures UnitOf(t[y]) == UnitOf(t[x]) <==> if IntOp(t[x]) then IntOp(t[y]) else FpOp(t[y]) {
      UnitFlags(t[y]);
    }
  }

  /** An issued instruction whose operands have all been broadcast in earlier cycles has started, or all units of
      its kind, three for integer operations and memory accesses, one for floating point, are occupied by others. */
  lemma {:induction false} StartTiming(t: Trace, n: nat, x: nat)
    requires WellFormed(t) && 0 < x < |t|
    requires 0 < StateAfter(t, n).ins[x].issue < n && StateAfter(t, n).ins[x].execute == 0
    requires forall k :: 0 <= k < 3 && Dependence(t, x, k) != 0 ==>
               0 < StateAfter(t, n).ins[Dependence(t, x, k)].cdb < n
    ensures x !in Rivals(t, n, x) && |Rivals(t, n, x)| == if IntOp(t[x]) then 3 else 1
  {
    hide StateAfter;
    hide Cycle;
    hide BoundaryInv;
    hide WellFormed;
    hide Dependence;
    Reachable(t, n - 1);
    NextState(t, n - 1);
    StampsKept(t, n - 1, n, x);
    StageTiming(t, n, x);
    UnitFlags(t[x]);
    StallInCycle(t, StateAfter(t, n - 1), n, x);
    RivalsInUnits(t, n, x);
  }

  // ----- what holds up issue

  /** The instructions of x's kind that are in a reservation station at the end of cycle n. */
  ghost function Neighbours(t: Trace, n: nat, x: nat): set<nat>
    requires WellFormed(t) && 0 < x < |t|
  {
    set y | 0 < y < |t| && (if IntOp(t[x]) then IntOp(t[y]) else FpOp(t[y])) && Stationed(t, n, y)
  }

  lemma {:induction false} NeighboursInStations(t: Trace, n: nat, x: nat)
    requires WellFormed(t) && 0 < x < |t| && UnitOf(t[x]) != NoUnit
    ensures Neighbours(t, n, x) == OfUnit(t, StateAfter(t, n).stations, UnitOf(t[x]))
  {
    hide StateAfter;
    hide Stationed;
    hide WellFormed;
    UnitFlags(t[x]);
    assert Shape(t, StateAfter(t, n));
    forall y | 0 < y < |t| ensures y in StateAfter(t, n).stations <==> Stationed(t, n, y) {
      PlacesByStamps(t, n, y);
    }
    forall y | 0 < y < |t| ensures UnitOf(t[y]) == UnitOf(t[x]) <==> if IntOp(t[x]) then IntOp(t[y]) else FpOp(t[y]) {
      UnitFlags(t[y]);
    }
  }

  /** What the issue stage does with the oldest instruction of the queue. */
  lemma {:induction false} IssueOrStall(t: Trace, s: State, c: nat)
    requires c > 0 && Inv(t, s, Bounds(c, c, c + 1, c + 1)) && s.queue != []
    ensures var x, s' := s.queue[|s.queue| - 1], ToIssue(t, s, c);
            && 0 < x < |t|
            && (|| (s'.queue == s.queue[..|s.queue| - 1] && (UnitOf(t[x]) != NoUnit ==> s'.ins[x].issue == c))
                || (s' == s && UnitOf(t[x]) != NoUnit
                    && |OfUnit(t, s.stations, UnitOf(t[x]))| == Stations(UnitOf(t[x]))))
  {
    UnitBounds(t, s, Bounds(c, c, c + 1, c + 1));
    hide QueueInv;
    hide PlaceInv;
    hide StampInv;
    hide TableInv;
    hide WaitInv;
    hide RawSafe;
    hide OfUnit;
  }

  lemma {:induction false} FetchKeepsOldest(t: Trace, s: State, b: Bounds, c: nat, x: nat)
    requires Inv(t, s, b) && 0 < x < |t| && x <= s.fetched
    ensures x in ToDispatch(t, s, c).queue <==> x in s.queue
  {
  }

  lemma {:induction false} QueueDistinct(t: Trace, s: State, b: Bounds)
    requires Inv(t, s, b) && s.queue != []
    ensures var x := s.queue[|s.queue| - 1]; x <= s.fetched && x !in s.queue[..|s.queue| - 1]
  {
  }

  lemma {:induction false} IssueInCycle(t: Trace, s: State, c: nat)
    requires c > 0 && WellFormed(t) && Shape(t, s) && BoundaryInv(t, s, c) && s.queue != []
    ensures var x, s' := s.queue[|s.queue| - 1], Cycle(t, s, c);
            && 0 < x < |t|
            && (x !in s'.queue ==> UnitOf(t[x]) == NoUnit || s'.ins[x].issue == c)
            && (x in s'.queue ==> UnitOf(t[x]) != NoUnit
                                  && |OfUnit(t, s'.stations, UnitOf(t[x]))| == Stations(UnitOf(t[x])))
  {
    hide Retire;
    hide ToBus;
    hide ToExecute;
    hide ToIssue;
    hide ToDispatch;
    hide Inv;
    hide OfUnit;
    hide Shape;
    hide WellFormed;
    var x := s.queue[|s.queue| - 1];
    StageInvariants(t, s, c);
    var s3 := AtIssue(t, s, c);
    InTrace(t, s, x);
    RetireSameStamps(t, s, x);
    ToBusEffect(t, Retire(t, s), c);
    ExecuteKeepsPlaces(t, AtBus(t, s, c), c);
    QueueDistinct(t, s3, Bounds(c, c, c + 1, c + 1));
    IssueOrStall(t, s3, c);
    StampParts(t, s, c, x);
    FetchedKept(t, s3, c);
    FetchKeepsOldest(t, ToIssue(t, s3, c), Bounds(c, c + 1, c + 1, c + 1), c, x);
    DispatchKeepsPlaces(t, ToIssue(t, s3, c), c);
  }

  lemma {:induction false} InTrace(t: Trace, s: State, x: nat)
    requires Shape(t, s) && x in s.queue
    ensures 0 < x < |t|
  {
  }

  lemma {:induction false} FetchedKept(t: Trace, s: State, c: nat)
    requires WellFormed(t) && Shape(t, s)
    ensures ToIssue(t, s, c).fetched == s.fetched
  {
  }

  /** The oldest instruction of the queue leaves it in the next cycle, for a station if it needs one, or all stations
      of its kind, five for integer operations and memory accesses, three for floating point, are occupied. */
  lemma {:induction false} IssueTiming(t: Trace, n: nat)
    requires WellFormed(t) && n > 0 && StateAfter(t, n - 1).queue != []
    ensures var x, s' := StateAfter(t, n - 1).queue[|StateAfter(t, n - 1).queue| - 1], StateAfter(t, n);
            && 0 < x < |t|
            && if x in s'.queue
               then (IntOp(t[x]) || FpOp(t[x])) && |Neighbours(t, n, x)| == if IntOp(t[x]) then 5 else 3
               else IntOp(t[x]) || FpOp(t[x]) ==> s'.ins[x].issue == n
  {
    hide StateAfter;
    hide Cycle;
    hide BoundaryInv;
    hide WellFormed;
    hide OfUnit;
    hide Neighbours;
    var s := StateAfter(t, n - 1);
    var x := s.queue[|s.queue| - 1];
    Reachable(t, n - 1);
    NextState(t, n - 1);
    IssueInCycle(t, s, n);
    UnitFlags(t[x]);
    if UnitOf(t[x]) != NoUnit { NeighboursInStations(t, n, x); }
  }

  // ----- what holds up dispatch

  lemma {:induction false} NextIsFetched(t: Trace, s: State, b: Bounds, c: nat, y: nat)
    requires Inv(t, s, b) && c > 0 && 0 < y < |t| && !t[y].op.trap && s.ins[y].dispatch == 0
    requires forall x :: 0 < x < y && !t[x].op.trap ==> s.ins[x].dispatch != 0
    ensures ToDispatch(t, s, c).ins[y].dispatch == c || |ToDispatch(t, s, c).queue| == 16
  {
    StageOf(t, s, b, y);
    forall x | 0 < x < y && !t[x].op.trap ensures x <= s.fetched { StageOf(t, s, b, x); }
    hide StampInv;
    hide PlaceInv;
    hide TableInv;
    hide WaitInv;
    hide RawSafe;
    if |s.queue| < 16 { assert SkipTraps(t, s.fetched + 1) == y; }
  }

  lemma {:induction false} DispatchInCycle(t: Trace, s: State, c: nat, y: nat)
    requires c > 0 && WellFormed(t) && Shape(t, s) && BoundaryInv(t, s, c) && 0 < y < |t| && !t[y].op.trap
    requires s.ins[y].dispatch == 0 && forall x :: 0 < x < y && !t[x].op.trap ==> s.ins[x].dispatch != 0
    ensures Cycle(t, s, c).ins[y].dispatch == c || |Cycle(t, s, c).queue| == 16
  {
    hide Retire;
    hide ToBus;
    hide ToExecute;
    hide ToIssue;
    hide ToDispatch;
    hide Inv;
    hide Shape;
    hide WellFormed;
    hide StageInv;
    StageInvariants(t, s, c);
    StageShapes(t, s, c);
    var s4 := ToIssue(t, AtIssue(t, s, c), c);
    forall x | 0 < x < |t| ensures s4.ins[x].dispatch == s.ins[x].dispatch { DispatchKept(t, s, c, x); }
    NextIsFetched(t, s4, Bounds(c, c + 1, c + 1, c + 1), c, y);
  }

  lemma {:induction false} DispatchKept(t: Trace, s: State, c: nat, x: nat)
    requires c > 0 && WellFormed(t) && Shape(t, s) && BoundaryInv(t, s, c) && 0 < x < |t|
    ensures |ToIssue(t, AtIssue(t, s, c), c).ins| == |t|
    ensures ToIssue(t, AtIssue(t, s, c), c).ins[x].dispatch == s.ins[x].dispatch
  {
    hide Inv;
    hide Retire;
    hide ToBus;
    hide ToExecute;
    hide ToIssue;
    hide StageInv;
    hide Shape;
    hide WellFormed;
    StageInvariants(t, s, c);
    StageShapes(t, s, c);
    var s1, s2, s3 := Retire(t, s), AtBus(t, s, c), AtIssue(t, s, c);
    RetireSameStamps(t, s, x);
    UnitsUnsent(t, s1, c);
    BusStamps(t, s1, c, x);
    ExecuteStamps(t, s2, c, x);
    StageOf(t, s3, Bounds(c, c, c + 1, c + 1), x);
    IssueStamps(t, s3, c, x);
  }

  /** In a cycle before which all older instructions have been dispatched, an instruction is dispatched, unless it
      was already or sixteen are waiting in the queue. */
  lemma {:induction false} DispatchTiming(t: Trace, n: nat, y: nat, c: nat)
    requires WellFormed(t) && 0 < c <= n && 0 < y < |t| && !t[y].op.trap
    requires forall x :: 0 < x < y && !t[x].op.trap ==> 0 < StateAfter(t, n).ins[x].dispatch < c
    ensures 0 < StateAfter(t, n).ins[y].dispatch <= c || |StateAfter(t, c).queue| == 16
  {
    hide StateAfter;
    hide Cycle;
    hide BoundaryInv;
    hide WellFormed;
    var s := StateAfter(t, c - 1);
    Reachable(t, c - 1);
    NextState(t, c - 1);
    StampsKept(t, c - 1, n, y);
    StampsKept(t, c, n, y);
    if s.ins[y].dispatch == 0 {
      forall x | 0 < x < y && !t[x].op.trap ensures s.ins[x].dispatch != 0 { StampsKept(t, c - 1, n, x); }
      DispatchInCycle(t, s, c, y);
    } else {
      StageTiming(t, c - 1, y);
    }
  }

  /** At no cycle end are there more in the units or in the stations than the machine has. */
  lemma {:induction false} Capacities(t: Trace, n: nat, x: nat)
    requires WellFormed(t) && 0 < x < |t| && (IntOp(t[x]) || FpOp(t[x]))
    ensures |Rivals(t, n, x)| <= if IntOp(t[x]) then 3 else 1
    ensures |Neighbours(t, n, x)| <= if IntOp(t[x]) then 5 else 3
  {
    hide StateAfter;
    hide BoundaryInv;
    hide WellFormed;
    hide OfUnit;
    hide Rivals;
    hide Neighbours;
    UnitFlags(t[x]);
    Reachable(t, n);
    BoundaryBounds(t, StateAfter(t, n), n + 1);
    RivalsInUnits(t, n, x);
    NeighboursInStations(t, n, x);
  }

  lemma {:induction false} BoundaryBounds(t: Trace, s: State, c: nat)
    requires BoundaryInv(t, s, c)
    ensures forall u :: u != NoUnit ==> |OfUnit(t, s.units, u)| <= Units(u) && |OfUnit(t, s.stations, u)| <= Stations(u)
  {
    UnitBounds(t, s, Bounds(c, c, c, c));
  }
}
