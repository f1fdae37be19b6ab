/** What every stage of every cycle keeps. The invariant is cut by concern, and
    each stage has one lemma per concern it can disturb. */
module TomasuloInvariant {
  import opened NatSets
  import opened TomasuloModel

  /** All stamps of a kind lie strictly below its bound; a stage raises its own bound only. */
  datatype Bounds = Bounds(dispatch: nat, issue: nat, execute: nat, cdb: nat)

  /** The next instruction to leave the queue; all earlier ones have left. */
  function Frontier(s: State): nat {
    if s.queue == [] then s.fetched + 1 else s.queue[|s.queue| - 1]
  }

  predicate Left(t: Trace, s: State, i: nat) {
    0 < i < |t| && i < Frontier(s) && !t[i].op.trap
  }

  /** w has written its result and the write has been broadcast. */
  predicate Resolved(t: Trace, s: State, w: nat)
    requires Shape(t, s)
  {
    0 < w < |t| && s.ins[w].cdb != 0 && w != s.bus
  }

  function Pending(t: Trace, s: State, w: nat): nat
    requires Shape(t, s)
  {
    if Resolved(t, s, w) then 0 else w
  }

  /** The queue holds, in order, the non-traps from the frontier to the last one fetched. */
  ghost predicate QueueInv(t: Trace, s: State)
    requires Shape(t, s)
  {
    && |s.queue| <= INSTR_QUEUE_SIZE
    && (forall a, b :: 0 <= a < b < |s.queue| ==> s.queue[b] < s.queue[a])
    && (forall a :: 0 <= a < |s.queue| ==> s.queue[a] <= s.fetched && !t[s.queue[a]].op.trap)
    && (forall i :: Frontier(s) <= i <= s.fetched && !t[i].op.trap ==> i in s.queue)
  }

  ghost predicate PlaceInv(t: Trace, s: State)
    requires Shape(t, s)
  {
    && (forall x :: x in s.stations ==> Left(t, s, x) && UnitOf(t[x]) != NoUnit)
    && (forall u :: u != NoUnit ==> |OfUnit(t, s.stations, u)| <= Stations(u) && |OfUnit(t, s.units, u)| <= Units(u))
    && (forall x :: x in s.stations ==> (x in s.units <==> s.ins[x].execute != 0))
    && (s.bus != 0 ==> Left(t, s, s.bus) && Producer(t[s.bus]) && s.bus !in s.stations)
  }

  /** Which stages an instruction has entered, read off where it is now. */
  ghost predicate StageInv(t: Trace, s: State, i: nat)
    requires Shape(t, s) && 0 < i < |t|
  {
    var p, u := s.ins[i], UnitOf(t[i]);
    && (p.dispatch != 0 <==> i <= s.fetched && !t[i].op.trap)
    && (p.issue != 0 <==> Left(t, s, i) && u != NoUnit)
    && (p.execute != 0 ==> p.issue != 0)
    && (p.issue != 0 && i !in s.stations ==> p.execute != 0)
    && (p.cdb != 0 <==> p.issue != 0 && !t[i].op.store && i !in s.stations)
  }

  ghost predicate OrderInv(t: Trace, s: State, b: Bounds, i: nat)
    requires Shape(t, s) && 0 < i < |t|
  {
    var p, u := s.ins[i], UnitOf(t[i]);
    && (p.issue != 0 ==> p.dispatch < p.issue)
    && (p.execute != 0 ==> p.issue < p.execute)
    && (p.cdb != 0 ==> p.execute + Latency(u) <= p.cdb)
    && p.dispatch < b.dispatch && p.issue < b.issue && p.execute < b.execute && p.cdb < b.cdb
    && (i != s.bus ==> p.cdb < b.execute)
  }

  ghost predicate StampInv(t: Trace, s: State, b: Bounds)
    requires Shape(t, s)
  {
    && (forall i :: 0 < i < |t| ==> StageInv(t, s, i) && OrderInv(t, s, b, i))
    && (forall i, j :: 0 < i < j < |t| && s.ins[j].dispatch != 0 ==> s.ins[i].dispatch < s.ins[j].dispatch)
    && (forall i, j :: 0 < i < j < |t| && s.ins[j].issue != 0 ==> s.ins[i].issue < s.ins[j].issue)
    && (forall i, j :: 0 < i < j < |t| && s.ins[i].cdb == s.ins[j].cdb ==> s.ins[i].cdb == 0)
  }

  /** The map table names the youngest writer that has left the queue, while its result is pending. */
  ghost predicate TableInv(t: Trace, s: State)
    requires WellFormed(t) && Shape(t, s) && Frontier(s) <= |t|
  {
    forall r :: 0 <= r < MD_TOTAL_REGS ==> s.table[r] == Pending(t, s, LastWriter(t, r, Frontier(s)))
  }

  /** A waiting instruction waits for exactly the pending producers of its operands. */
  ghost predicate WaitInv(t: Trace, s: State)
    requires WellFormed(t) && Shape(t, s)
  {
    && (forall x, k :: x in s.stations && 0 <= k < 3 ==> s.ins[x].q[k] == Pending(t, s, Dependence(t, x, k)))
    && (forall i :: Frontier(s) <= i < |t| ==> s.ins[i].q == [0, 0, 0])
  }

  /** Read-after-write safety: nothing started before the results it needs were broadcast. */
  ghost predicate RawSafe(t: Trace, s: State)
    requires WellFormed(t) && Shape(t, s)
  {
    forall x, k :: 0 < x < |t| && 0 <= k < 3 && s.ins[x].execute != 0 && Dependence(t, x, k) != 0 ==>
      0 < s.ins[Dependence(t, x, k)].cdb < s.ins[x].execute
  }

  ghost predicate Inv(t: Trace, s: State, b: Bounds) {
    && WellFormed(t) && Shape(t, s)
    && QueueInv(t, s) && PlaceInv(t, s) && StampInv(t, s, b)
    && TableInv(t, s) && WaitInv(t, s) && RawSafe(t, s)
  }

  ghost predicate BoundaryInv(t: Trace, s: State, c: nat) {
    Inv(t, s, Bounds(c, c, c, c))
  }

  lemma {:induction false} StampsWiden(t: Trace, s: State, b: Bounds, b': Bounds)
    requires Shape(t, s) && StampInv(t, s, b)
    requires b.dispatch <= b'.dispatch && b.issue <= b'.issue && b.execute <= b'.execute && b.cdb <= b'.cdb
    ensures StampInv(t, s, b')
  {
    forall i | 0 < i < |t| ensures StageInv(t, s, i) && OrderInv(t, s, b', i) {
      assert StageInv(t, s, i) && OrderInv(t, s, b, i);
    }
    assert forall i :: 0 < i < |t| ==> StageInv(t, s, i) && OrderInv(t, s, b', i);
  }

  // ----- the start

  lemma {:induction false} InitialInv(t: Trace)
    requires WellFormed(t)
    ensures BoundaryInv(t, Initial(t), 1)
  {
    var s := Initial(t);
    assert OfUnit(t, {}, Int) == {} && OfUnit(t, {}, Fp) == {};
    forall r | 0 <= r < MD_TOTAL_REGS ensures LastWriter(t, r, 1) == 0 {
    }
  }

  // ----- CDB_To_retire

  lemma {:induction false} RetirePending(t: Trace, s: State, w: nat)
    requires Shape(t, s) && s.bus != 0 && s.ins[s.bus].cdb != 0 && w < |t|
    ensures Pending(t, Retire(t, s), w) == Cleared(Pending(t, s, w), s.bus)
  {
  }

  lemma {:induction false} RetireStamps(t: Trace, s: State, c: nat)
    requires Shape(t, s) && s.bus != 0 && StampInv(t, s, Bounds(c, c, c, c))
    ensures StampInv(t, Retire(t, s), Bounds(c, c, c, c))
  {
    var s' := Retire(t, s);
    forall i | 0 < i < |t| ensures StageInv(t, s', i) && OrderInv(t, s', Bounds(c, c, c, c), i) {
      assert StageInv(t, s, i) && OrderInv(t, s, Bounds(c, c, c, c), i);
    }
  }

  lemma {:induction false} RetireTable(t: Trace, s: State)
    requires WellFormed(t) && Shape(t, s) && Frontier(s) <= |t| && TableInv(t, s)
    requires s.bus != 0 && s.ins[s.bus].cdb != 0
    ensures TableInv(t, Retire(t, s))
  {
    hide LastWriter;
    hide Pending;
    hide WellFormed;
    forall r | 0 <= r < MD_TOTAL_REGS
      ensures Retire(t, s).table[r] == Pending(t, Retire(t, s), LastWriter(t, r, Frontier(s)))
    {
      RetirePending(t, s, LastWriter(t, r, Frontier(s)));
    }
  }

  lemma {:induction false} RetireWait(t: Trace, s: State)
    requires WellFormed(t) && Shape(t, s) && WaitInv(t, s)
    requires forall x :: x in s.stations ==> x < Frontier(s)
    requires s.bus != 0 && s.ins[s.bus].cdb != 0
    ensures WaitInv(t, Retire(t, s))
  {
    hide Pending;
    hide Dependence;
    hide WellFormed;
    var s' := Retire(t, s);
    assert Frontier(s') == Frontier(s);
    hide Frontier;
    forall i | Frontier(s') <= i < |t| ensures s'.ins[i].q == [0, 0, 0] {
      assert i !in s.stations;
    }
    forall x, k | x in s.stations && 0 <= k < 3
      ensures s'.ins[x].q[k] == Pending(t, s', Dependence(t, x, k))
    {
      RetirePending(t, s, Dependence(t, x, k));
      assert s.ins[x].q[k] == Pending(t, s, Dependence(t, x, k));
    }
  }

  lemma {:induction false} RetirePlaces(t: Trace, s: State)
    requires Shape(t, s) && s.bus != 0 && PlaceInv(t, s)
    ensures PlaceInv(t, Retire(t, s))
  {
    hide OfUnit;
  }

  lemma {:induction false} RetireRaw(t: Trace, s: State)
    requires WellFormed(t) && Shape(t, s) && s.bus != 0 && RawSafe(t, s)
    ensures RawSafe(t, Retire(t, s))
  {
    hide Dependence;
    hide WellFormed;
    var s' := Retire(t, s);
    assert forall i :: 0 <= i < |t| ==> s'.ins[i].execute == s.ins[i].execute && s'.ins[i].cdb == s.ins[i].cdb;
    hide Retire;
  }

  lemma {:induction false} BusSent(t: Trace, s: State, c: nat)
    requires BoundaryInv(t, s, c) && s.bus != 0
    ensures 0 < s.bus < |t| && s.ins[s.bus].cdb != 0 && Frontier(s) <= |t|
    ensures forall x :: x in s.stations ==> x < Frontier(s)
  {
    hide TableInv;
    hide WaitInv;
    hide RawSafe;
    hide OrderInv;
    assert StageInv(t, s, s.bus);
  }

  lemma {:induction false} RetireRest(t: Trace, s: State, c: nat)
    requires BoundaryInv(t, s, c) && s.bus != 0
    ensures 0 < s.bus < |t| && s.ins[s.bus].cdb != 0 && Frontier(s) <= |t|
    ensures forall x :: x in s.stations ==> x < Frontier(s)
    ensures Retire(t, s).bus == 0
    ensures QueueInv(t, Retire(t, s)) && PlaceInv(t, Retire(t, s)) && RawSafe(t, Retire(t, s))
  {
    hide TableInv;
    hide WaitInv;
    hide StampInv;
    hide PlaceInv;
    hide RawSafe;
    hide QueueInv;
    BusSent(t, s, c);
    SameQueue(t, s, Retire(t, s));
    RetirePlaces(t, s);
    RetireRaw(t, s);
  }

  lemma {:induction false} RetireInv(t: Trace, s: State, c: nat)
    requires BoundaryInv(t, s, c)
    ensures BoundaryInv(t, Retire(t, s), c) && Retire(t, s).bus == 0
  {
    hide StampInv;
    hide TableInv;
    hide WaitInv;
    hide QueueInv;
    hide PlaceInv;
    hide RawSafe;
    if s.bus != 0 {
      RetireRest(t, s, c);
      RetireStamps(t, s, c);
      RetireTable(t, s);
      RetireWait(t, s);
    }
  }

  // ----- execute_To_CDB

  lemma {:induction false} OfUnitShrinks(t: Trace, a: set<nat>, b: set<nat>, u: Unit)
    requires a <= b
    ensures |OfUnit(t, a, u)| <= |OfUnit(t, b, u)|
  {
    SubsetSize(OfUnit(t, a, u), OfUnit(t, b, u));
  }

  lemma {:induction false} SameQueue(t: Trace, s: State, s': State)
    requires Shape(t, s) && Shape(t, s') && QueueInv(t, s) && s'.queue == s.queue && s'.fetched == s.fetched
    ensures QueueInv(t, s') && Frontier(s') == Frontier(s) <= |t|
  {
  }

  /** What leaves the stations has executed; what takes the bus is stamped with this cycle. */
  lemma {:induction false} ToBusEffect(t: Trace, s: State, c: nat)
    requires Shape(t, s) && s.bus == 0
    ensures var s' := ToBus(t, s, c);
            && s'.stations == s.stations - (s.units - s'.units) && s'.queue == s.queue && s'.fetched == s.fetched
            && (forall x :: x in s.units && x !in s'.units ==>
                  s.ins[x].execute + Latency(UnitOf(t[x])) <= c && (t[x].op.store || x == s'.bus))
            && (s'.bus != 0 ==> s'.bus in s.units && s'.bus !in s'.units && !t[s'.bus].op.store)
            && (forall i :: 0 <= i < |t| ==> s'.ins[i] == if i == s'.bus != 0 then s.ins[i].(cdb := c) else s.ins[i])
  {
  }

  lemma {:induction false} ToBusPlaces(t: Trace, s: State, c: nat)
    requires Shape(t, s) && s.bus == 0 && PlaceInv(t, s)
    ensures PlaceInv(t, ToBus(t, s, c))
  {
    var s' := ToBus(t, s, c);
    ToBusEffect(t, s, c);
    forall u | u != NoUnit
      ensures |OfUnit(t, s'.stations, u)| <= Stations(u) && |OfUnit(t, s'.units, u)| <= Units(u)
    {
      OfUnitShrinks(t, s'.stations, s.stations, u);
      OfUnitShrinks(t, s'.units, s.units, u);
    }
  }

  lemma {:induction false} ToBusStamps(t: Trace, s: State, c: nat)
    requires c > 0 && Shape(t, s) && s.bus == 0 && PlaceInv(t, s) && StampInv(t, s, Bounds(c, c, c, c))
    ensures StampInv(t, ToBus(t, s, c), Bounds(c, c, c, c + 1))
  {
    hide ToBus;
    hide StageInv;
    hide OrderInv;
    hide PlaceInv;
    var s' := ToBus(t, s, c);
    ToBusEffect(t, s, c);
    var b' := Bounds(c, c, c, c + 1);
    forall i | 0 < i < |t| ensures StageInv(t, s', i) && OrderInv(t, s', b', i) {
      ToBusStamp(t, s, c, i);
    }
    assert forall i :: 0 < i < |t| ==> StageInv(t, s', i) && OrderInv(t, s', b', i);
    forall i, j | 0 < i < j < |t| && s'.ins[i].cdb == s'.ins[j].cdb ensures s'.ins[i].cdb == 0 {
      CdbBounded(t, s, c, i);
      CdbBounded(t, s, c, j);
    }
  }

  lemma {:induction false} CdbBounded(t: Trace, s: State, c: nat, i: nat)
    requires Shape(t, s) && 0 < i < |t| && OrderInv(t, s, Bounds(c, c, c, c), i)
    ensures s.ins[i].cdb < c
  {
  }

  lemma {:induction false} ToBusStamp(t: Trace, s: State, c: nat, i: nat)
    requires c > 0 && Shape(t, s) && s.bus == 0 && PlaceInv(t, s) && 0 < i < |t|
    requires StageInv(t, s, i) && OrderInv(t, s, Bounds(c, c, c, c), i)
    ensures StageInv(t, ToBus(t, s, c), i) && OrderInv(t, ToBus(t, s, c), Bounds(c, c, c, c + 1), i)
  {
    hide OfUnit;
    ToBusEffect(t, s, c);
    hide ToBus;
  }

  lemma {:induction false} ToBusPending(t: Trace, s: State, c: nat, w: nat)
    requires c > 0 && Shape(t, s) && s.bus == 0 && w < |t|
    requires forall x :: x in s.units ==> s.ins[x].cdb == 0
    ensures Pending(t, ToBus(t, s, c), w) == Pending(t, s, w)
  {
    ToBusEffect(t, s, c);
  }

  lemma {:induction false} ToBusWaits(t: Trace, s: State, c: nat)
    requires c > 0 && WellFormed(t) && Shape(t, s) && s.bus == 0 && Frontier(s) <= |t|
    requires TableInv(t, s) && WaitInv(t, s)
    requires forall x :: x in s.units ==> s.ins[x].cdb == 0
    ensures TableInv(t, ToBus(t, s, c)) && WaitInv(t, ToBus(t, s, c))
  {
    var s' := ToBus(t, s, c);
    ToBusEffect(t, s, c);
    forall r | 0 <= r < MD_TOTAL_REGS ensures s'.table[r] == Pending(t, s', LastWriter(t, r, Frontier(s'))) {
      ToBusPending(t, s, c, LastWriter(t, r, Frontier(s)));
    }
    forall x, k | x in s'.stations && 0 <= k < 3 ensures s'.ins[x].q[k] == Pending(t, s', Dependence(t, x, k)) {
      ToBusPending(t, s, c, Dependence(t, x, k));
      assert s.ins[x].q[k] == Pending(t, s, Dependence(t, x, k));
    }
  }

  lemma {:induction false} ToBusRaw(t: Trace, s: State, c: nat)
    requires c > 0 && WellFormed(t) && Shape(t, s) && s.bus == 0 && RawSafe(t, s)
    requires forall x :: x in s.units ==> s.ins[x].cdb == 0
    ensures RawSafe(t, ToBus(t, s, c))
  {
    ToBusEffect(t, s, c);
    hide ToBus;
  }

  lemma {:induction false} UnitsUnsent(t: Trace, s: State, c: nat)
    requires BoundaryInv(t, s, c)
    ensures forall x :: x in s.units ==> s.ins[x].cdb == 0
  {
    forall x | x in s.units ensures s.ins[x].cdb == 0 { assert StageInv(t, s, x); }
  }

  lemma {:induction false} ToBusInv(t: Trace, s: State, c: nat)
    requires c > 0 && BoundaryInv(t, s, c) && s.bus == 0
    ensures Inv(t, ToBus(t, s, c), Bounds(c, c, c, c + 1))
  {
    hide ToBus;
    hide StampInv;
    hide TableInv;
    hide WaitInv;
    hide QueueInv;
    hide PlaceInv;
    hide RawSafe;
    ToBusShape(t, s, c);
    ToBusEffect(t, s, c);
    SameQueue(t, s, ToBus(t, s, c));
    UnitsUnsent(t, s, c);
    ToBusPlaces(t, s, c);
    ToBusStamps(t, s, c);
    ToBusWaits(t, s, c);
    ToBusRaw(t, s, c);
  }

  lemma {:induction false} ToBusShape(t: Trace, s: State, c: nat)
    requires Shape(t, s) && s.bus == 0
    ensures Shape(t, ToBus(t, s, c))
  {
  }

  // ----- issue_To_execute

  /** s' is s with the instructions g, all of them resolved and waiting, started on units of kind u. */
  ghost predicate Started(t: Trace, s: State, s': State, g: set<nat>, u: Unit, c: nat)
    requires Shape(t, s) && Shape(t, s')
  {
    && s' == s.(units := s.units + g, ins := s'.ins)
    && (forall x :: x in g ==> x in s.stations && UnitOf(t[x]) == u && s.ins[x].execute == 0 && s.ins[x].q == [0, 0, 0])
    && (forall i :: 0 <= i < |t| ==> s'.ins[i] == if i in g then s.ins[i].(execute := c) else s.ins[i])
    && |g| <= Free(t, s, u)
  }

  lemma {:induction false} GrantStarts(t: Trace, s: State, u: Unit, c: nat)
    requires Shape(t, s)
    ensures Started(t, s, Grant(t, s, u, c), Granted(t, s, u), u, c)
  {
  }

  /** Adding instructions of kind u changes the number of that kind only. */
  lemma {:induction false} KindAdded(t: Trace, a: set<nat>, g: set<nat>, u: Unit, v: Unit)
    requires forall x :: x in g ==> x < |t| && UnitOf(t[x]) == u
    ensures |OfUnit(t, a + g, v)| <= |OfUnit(t, a, v)| + if v == u then |g| else 0
  {
    hide UnitOf;
    if v == u {
      assert OfUnit(t, a + g, u) == OfUnit(t, a, u) + g;
    } else {
      assert OfUnit(t, a + g, v) == OfUnit(t, a, v);
    }
  }

  lemma {:induction false} StartedCount(t: Trace, s: State, s': State, g: set<nat>, u: Unit, c: nat, v: Unit)
    requires v != NoUnit && Shape(t, s) && Shape(t, s') && Started(t, s, s', g, u, c)
    requires |OfUnit(t, s.units, v)| <= Units(v)
    ensures |OfUnit(t, s'.units, v)| <= Units(v)
  {
    KindAdded(t, s.units, g, u, v);
  }

  lemma {:induction false} SameLeft(t: Trace, s: State, s': State)
    requires s'.queue == s.queue && s'.fetched == s.fetched
    ensures forall x :: Left(t, s', x) <==> Left(t, s, x)
  {
  }

  lemma {:induction false} StartedUnits(t: Trace, s: State, s': State, g: set<nat>, u: Unit, c: nat, x: nat)
    requires c > 0 && Shape(t, s) && Shape(t, s') && Started(t, s, s', g, u, c)
    requires x in s.stations && (x in s.units <==> s.ins[x].execute != 0)
    ensures x in s'.units <==> s'.ins[x].execute != 0
  {
  }

  lemma {:induction false} StartedSame(t: Trace, s: State, s': State, g: set<nat>, u: Unit, c: nat)
    requires Shape(t, s) && Shape(t, s') && Started(t, s, s', g, u, c)
    ensures s'.queue == s.queue && s'.fetched == s.fetched && s'.stations == s.stations && s'.bus == s.bus
  {
  }

  lemma {:induction false} StartedPlaces(t: Trace, s: State, s': State, g: set<nat>, u: Unit, c: nat)
    requires c > 0 && Shape(t, s) && Shape(t, s') && PlaceInv(t, s) && Started(t, s, s', g, u, c)
    ensures PlaceInv(t, s')
  {
    hide Started;
    hide OfUnit;
    hide Left;
    StartedSame(t, s, s', g, u, c);
    SameLeft(t, s, s');
    forall v | v != NoUnit ensures |OfUnit(t, s'.units, v)| <= Units(v) {
      StartedCount(t, s, s', g, u, c, v);
    }
    forall x | x in s'.stations ensures x in s'.units <==> s'.ins[x].execute != 0 {
      StartedUnits(t, s, s', g, u, c, x);
    }
  }

  lemma {:induction false} StartedStamp(t: Trace, s: State, s': State, g: set<nat>, u: Unit, c: nat, b: Bounds, i: nat)
    requires b == Bounds(c, c, c, c + 1) || b == Bounds(c, c, c + 1, c + 1)
    requires c > 0 && Shape(t, s) && Shape(t, s') && Started(t, s, s', g, u, c)
    requires 0 < i < |t| && StageInv(t, s, i) && OrderInv(t, s, b, i) && (i in g ==> Left(t, s, i) && u != NoUnit)
    ensures StageInv(t, s', i) && OrderInv(t, s', Bounds(c, c, c + 1, c + 1), i)
  {
    assert s'.ins[i] == if i in g then s.ins[i].(execute := c) else s.ins[i];
  }

  lemma {:induction false} StartedStamps(t: Trace, s: State, s': State, g: set<nat>, u: Unit, c: nat, b: Bounds)
    requires b == Bounds(c, c, c, c + 1) || b == Bounds(c, c, c + 1, c + 1)
    requires c > 0 && u != NoUnit && Shape(t, s) && Shape(t, s') && Started(t, s, s', g, u, c)
    requires StampInv(t, s, b) && forall x :: x in s.stations ==> Left(t, s, x)
    ensures StampInv(t, s', Bounds(c, c, c + 1, c + 1))
  {
    hide StageInv;
    hide OrderInv;
    hide Left;
    hide Free;
    var b' := Bounds(c, c, c + 1, c + 1);
    forall i | 0 < i < |t| ensures StageInv(t, s', i) && OrderInv(t, s', b', i) {
      StartedStamp(t, s, s', g, u, c, b, i);
    }
    assert forall i :: 0 < i < |t| ==> StageInv(t, s', i) && OrderInv(t, s', b', i);
  }

  /** Every granted instruction had all its results broadcast in an earlier cycle. */
  lemma {:induction false} StartedRaw(t: Trace, s: State, s': State, g: set<nat>, u: Unit, c: nat)
    requires WellFormed(t) && Shape(t, s) && Shape(t, s') && WaitInv(t, s) && RawSafe(t, s)
             && Started(t, s, s', g, u, c)
    requires forall w :: 0 < w < |t| && w != s.bus ==> s.ins[w].cdb < c
    ensures RawSafe(t, s')
  {
    hide Dependence;
    hide Free;
    hide Pending;
    hide WellFormed;
    forall x, k | 0 < x < |t| && 0 <= k < 3 && s'.ins[x].execute != 0 && Dependence(t, x, k) != 0
      ensures 0 < s'.ins[Dependence(t, x, k)].cdb < s'.ins[x].execute
    {
      if x in g {
        assert s.ins[x].q[k] == Pending(t, s, Dependence(t, x, k));
        NotPending(t, s, Dependence(t, x, k));
      }
    }
  }

  lemma {:induction false} NotPending(t: Trace, s: State, w: nat)
    requires Shape(t, s) && w != 0 && Pending(t, s, w) == 0
    ensures 0 < w < |t| && w != s.bus && s.ins[w].cdb != 0
  {
  }

  lemma {:induction false} StartedPending(t: Trace, s: State, s': State, g: set<nat>, u: Unit, c: nat, w: nat)
    requires Shape(t, s) && Shape(t, s') && Started(t, s, s', g, u, c) && w < |t|
    ensures Pending(t, s', w) == Pending(t, s, w)
  {
  }

  lemma {:induction false} StartedTable(t: Trace, s: State, s': State, g: set<nat>, u: Unit, c: nat)
    requires WellFormed(t) && Shape(t, s) && Shape(t, s') && Frontier(s') == Frontier(s) <= |t|
             && Started(t, s, s', g, u, c)
    requires TableInv(t, s)
    ensures TableInv(t, s')
  {
    hide Frontier;
    hide LastWriter;
    hide Free;
    hide Pending;
    hide WellFormed;
    forall r | 0 <= r < MD_TOTAL_REGS ensures s'.table[r] == Pending(t, s', LastWriter(t, r, Frontier(s'))) {
      StartedPending(t, s, s', g, u, c, LastWriter(t, r, Frontier(s)));
    }
  }

  lemma {:induction false} StartedWaits(t: Trace, s: State, s': State, g: set<nat>, u: Unit, c: nat)
    requires WellFormed(t) && Shape(t, s) && Shape(t, s') && Frontier(s') == Frontier(s)
             && Started(t, s, s', g, u, c) && WaitInv(t, s)
    ensures WaitInv(t, s')
  {
    hide Frontier;
    hide Dependence;
    hide Free;
    hide Pending;
    forall x, k | x in s'.stations && 0 <= k < 3 ensures s'.ins[x].q[k] == Pending(t, s', Dependence(t, x, k)) {
      StartedPending(t, s, s', g, u, c, Dependence(t, x, k));
      assert s.ins[x].q[k] == Pending(t, s, Dependence(t, x, k));
    }
  }

  lemma {:induction false} StationsLeft(t: Trace, s: State)
    requires Shape(t, s) && PlaceInv(t, s)
    ensures forall x :: x in s.stations ==> Left(t, s, x)
  {
  }

  lemma {:induction false} StartedInv(t: Trace, s: State, s': State, g: set<nat>, u: Unit, c: nat, b: Bounds)
    requires b == Bounds(c, c, c, c + 1) || b == Bounds(c, c, c + 1, c + 1)
    requires c > 0 && u != NoUnit && Inv(t, s, b) && Shape(t, s') && Started(t, s, s', g, u, c)
    requires forall w :: 0 < w < |t| && w != s.bus ==> s.ins[w].cdb < c
    ensures Inv(t, s', Bounds(c, c, c + 1, c + 1))
  {
    hide StampInv;
    hide TableInv;
    hide WaitInv;
    hide QueueInv;
    hide PlaceInv;
    hide RawSafe;
    hide Left;
    SameQueue(t, s, s');
    StationsLeft(t, s);
    StartedPlaces(t, s, s', g, u, c);
    StartedStamps(t, s, s', g, u, c, b);
    StartedRaw(t, s, s', g, u, c);
    StartedTable(t, s, s', g, u, c);
    StartedWaits(t, s, s', g, u, c);
  }

  lemma {:induction false} CdbBefore(t: Trace, s: State, c: nat)
    requires Shape(t, s) && (StampInv(t, s, Bounds(c, c, c, c + 1)))
    ensures forall w :: 0 < w < |t| && w != s.bus ==> s.ins[w].cdb < c
  {
    forall w | 0 < w < |t| && w != s.bus ensures s.ins[w].cdb < c {
      assert OrderInv(t, s, Bounds(c, c, c, c + 1), w);
    }
  }

  lemma {:induction false} GrantInv(t: Trace, s: State, u: Unit, c: nat, b: Bounds)
    requires b == Bounds(c, c, c, c + 1) || b == Bounds(c, c, c + 1, c + 1)
    requires c > 0 && u != NoUnit && Inv(t, s, b)
    requires forall w :: 0 < w < |t| && w != s.bus ==> s.ins[w].cdb < c
    ensures Inv(t, Grant(t, s, u, c), Bounds(c, c, c + 1, c + 1))
    ensures forall w :: 0 < w < |t| && w != s.bus ==> Grant(t, s, u, c).ins[w].cdb < c
  {
    hide Grant;
    hide Granted;
    hide StampInv;
    hide TableInv;
    hide WaitInv;
    hide QueueInv;
    hide PlaceInv;
    hide RawSafe;
    GrantShape(t, s, u, c);
    GrantStarts(t, s, u, c);
    StartedInv(t, s, Grant(t, s, u, c), Granted(t, s, u), u, c, b);
  }

  lemma {:induction false} GrantShape(t: Trace, s: State, u: Unit, c: nat)
    requires Shape(t, s)
    ensures Shape(t, Grant(t, s, u, c)) && Grant(t, s, u, c).bus == s.bus
  {
  }

  lemma {:induction false} ToExecuteInv(t: Trace, s: State, c: nat)
    requires c > 0 && Inv(t, s, Bounds(c, c, c, c + 1))
    ensures Inv(t, ToExecute(t, s, c), Bounds(c, c, c + 1, c + 1))
  {
    CdbBefore(t, s, c);
    GrantInv(t, s, Int, c, Bounds(c, c, c, c + 1));
    GrantInv(t, Grant(t, s, Int, c), Fp, c, Bounds(c, c, c + 1, c + 1));
  }

  // ----- dispatch_To_issue

  lemma {:induction false} LastWriterIs(t: Trace, r: int, i: nat, w: nat)
    requires WellFormed(t) && i <= |t| && w < |t|
    requires w != 0 ==> w < i && Writes(t[w], r)
    requires forall j :: w < j < i ==> !Writes(t[j], r)
    ensures LastWriter(t, r, i) == w
  {
  }

  /** s' is s after x, the frontier, has left the queue for a station or, as a control instruction, for good. */
  ghost predicate Issued(t: Trace, s: State, s': State, x: nat, c: nat)
    requires WellFormed(t) && Shape(t, s) && Shape(t, s') && x < |t|
  {
    var p, p' := s.ins[x], s'.ins[x];
    && s.queue != [] && x == s.queue[|s.queue| - 1]
    && s' == s.(queue := s.queue[..|s.queue| - 1], stations := s'.stations, table := s'.table, ins := s.ins[x := p'])
    && s'.stations == (if UnitOf(t[x]) == NoUnit then s.stations else s.stations + {x})
    && p' == p.(q := p'.q, issue := if UnitOf(t[x]) == NoUnit then p.issue else c)
    && (forall k :: 0 <= k < 3 ==> p'.q[k] == if Tracked(t[x]) then Lookup(s.table, t[x].rIn[k], p.q[k]) else p.q[k])
    && (forall r :: 0 <= r < MD_TOTAL_REGS ==>
          s'.table[r] == if !t[x].op.trap && Writes(t[x], r) then x else s.table[r])
    && (UnitOf(t[x]) != NoUnit ==> |OfUnit(t, s.stations, UnitOf(t[x]))| < Stations(UnitOf(t[x])))
  }

  lemma {:induction false} ToIssueIssues(t: Trace, s: State, c: nat)
    requires WellFormed(t) && Shape(t, s) && s.queue != [] && !Hazard(t, s) && !t[s.queue[|s.queue| - 1]].op.trap
    ensures Issued(t, s, ToIssue(t, s, c), s.queue[|s.queue| - 1], c)
  {
  }

  /** The frontier has moved from x to the next instruction that is not a trap. */
  ghost predicate Moved(t: Trace, s: State, s': State, x: nat) {
    && Frontier(s) == x < Frontier(s') <= |t|
    && forall i :: x < i < Frontier(s') ==> t[i].op.trap
  }

  lemma {:induction false} IssuedQueue(t: Trace, s: State, s': State, x: nat, c: nat)
    requires WellFormed(t) && Shape(t, s) && Shape(t, s') && x < |t| && QueueInv(t, s) && Issued(t, s, s', x, c)
    ensures x < Frontier(s') <= |t| && QueueInv(t, s')
    ensures forall i :: x < i <= s.fetched && !t[i].op.trap ==> i in s'.queue
  {
    hide WellFormed;
    hide OfUnit;
    hide Lookup;
    hide Writes;
    forall i | x < i <= s.fetched && !t[i].op.trap ensures i in s'.queue {
      var a :| 0 <= a < |s.queue| && s.queue[a] == i;
      assert s'.queue[a] == i;
    }
  }

  lemma {:induction false} IssuedFrontier(t: Trace, s: State, s': State, x: nat, c: nat)
    requires WellFormed(t) && Shape(t, s) && Shape(t, s') && x < |t| && QueueInv(t, s') && Issued(t, s, s', x, c)
    requires x < Frontier(s') <= |t| && forall i :: x < i <= s.fetched && !t[i].op.trap ==> i in s'.queue
    ensures Moved(t, s, s', x)
  {
  }

  lemma {:induction false} IssuedCount(t: Trace, s: State, s': State, x: nat, c: nat, u: Unit)
    requires WellFormed(t) && Shape(t, s) && Shape(t, s') && x < |t| && Issued(t, s, s', x, c)
    requires u != NoUnit && |OfUnit(t, s.stations, u)| <= Stations(u)
    ensures |OfUnit(t, s'.stations, u)| <= Stations(u)
  {
    if u == UnitOf(t[x]) {
      KindAdded(t, s.stations, {x}, u, u);
    } else if UnitOf(t[x]) != NoUnit {
      KindAdded(t, s.stations, {x}, UnitOf(t[x]), u);
    }
  }

  lemma {:induction false} IssuedPlaces(t: Trace, s: State, s': State, x: nat, c: nat)
    requires WellFormed(t) && Shape(t, s) && Shape(t, s') && x < |t| && Moved(t, s, s', x)
    requires PlaceInv(t, s) && Issued(t, s, s', x, c) && s.ins[x].execute == 0 && !t[x].op.trap
    ensures PlaceInv(t, s')
  {
    hide OfUnit;
    hide WellFormed;
    hide Lookup;
    hide Writes;
    forall u | u != NoUnit ensures |OfUnit(t, s'.stations, u)| <= Stations(u) {
      IssuedCount(t, s, s', x, c, u);
    }
  }

  lemma {:induction false} IssuedStamp(t: Trace, s: State, s': State, x: nat, c: nat, i: nat)
    requires c > 0 && WellFormed(t) && Shape(t, s) && Shape(t, s') && x < |t| && Moved(t, s, s', x)
    requires x <= s.fetched && !t[x].op.trap && Issued(t, s, s', x, c) && 0 < i < |t| && (i in s.stations ==> i != x)
    requires StageInv(t, s, i) && OrderInv(t, s, Bounds(c, c, c + 1, c + 1), i)
    ensures StageInv(t, s', i) && OrderInv(t, s', Bounds(c, c + 1, c + 1, c + 1), i)
  {
  }

  lemma {:induction false} IssuedStamps(t: Trace, s: State, s': State, x: nat, c: nat)
    requires c > 0 && WellFormed(t) && Shape(t, s) && Shape(t, s') && x < |t| && Moved(t, s, s', x)
    requires x <= s.fetched && !t[x].op.trap && Issued(t, s, s', x, c) && x !in s.stations
    requires StampInv(t, s, Bounds(c, c, c + 1, c + 1))
    ensures StampInv(t, s', Bounds(c, c + 1, c + 1, c + 1))
  {
    hide StageInv;
    hide OrderInv;
    hide WellFormed;
    hide Moved;
    hide Lookup;
    hide Writes;
    hide OfUnit;
    var b' := Bounds(c, c + 1, c + 1, c + 1);
    forall i | 0 < i < |t| ensures StageInv(t, s', i) && OrderInv(t, s', b', i) {
      IssuedStamp(t, s, s', x, c, i);
    }
    assert forall i :: 0 < i < |t| ==> StageInv(t, s', i) && OrderInv(t, s', b', i);
    forall i, j | 0 < i < j < |t| && s'.ins[j].issue != 0 ensures s'.ins[i].issue < s'.ins[j].issue {
      IssuedOrder(t, s, s', x, c, i, j);
    }
  }

  lemma {:induction false} IssuedOrder(t: Trace, s: State, s': State, x: nat, c: nat, i: nat, j: nat)
    requires c > 0 && WellFormed(t) && Shape(t, s) && Shape(t, s') && x < |t| && Moved(t, s, s', x)
    requires Issued(t, s, s', x, c) && 0 < i < j < |t| && StageInv(t, s, j)
    requires OrderInv(t, s, Bounds(c, c, c + 1, c + 1), i) && (s.ins[j].issue != 0 ==> s.ins[i].issue < s.ins[j].issue)
    ensures s'.ins[j].issue != 0 ==> s'.ins[i].issue < s'.ins[j].issue
  {
    hide WellFormed;
    hide Lookup;
    hide Writes;
    hide OfUnit;
  }

  lemma {:induction false} IssuedPending(t: Trace, s: State, s': State, x: nat, c: nat, w: nat)
    requires WellFormed(t) && Shape(t, s) && Shape(t, s') && x < |t| && Issued(t, s, s', x, c) && w < |t|
    ensures Pending(t, s', w) == Pending(t, s, w)
  {
  }

  lemma {:induction false} IssuedEntry(t: Trace, s: State, s': State, x: nat, c: nat, r: nat)
    requires WellFormed(t) && Shape(t, s) && Shape(t, s') && x < |t| && Moved(t, s, s', x) && Issued(t, s, s', x, c)
    requires r < MD_TOTAL_REGS && s.table[r] == Pending(t, s, LastWriter(t, r, x)) && s.ins[x].cdb == 0
    ensures s'.table[r] == Pending(t, s', LastWriter(t, r, Frontier(s')))
  {
    hide OfUnit;
    hide Lookup;
    hide Frontier;
    var w := if Writes(t[x], r) then x else LastWriter(t, r, x);
    LastWriterIs(t, r, Frontier(s'), w);
    IssuedPending(t, s, s', x, c, w);
  }

  lemma {:induction false} IssuedTable(t: Trace, s: State, s': State, x: nat, c: nat)
    requires WellFormed(t) && Shape(t, s) && Shape(t, s') && x < |t| && Moved(t, s, s', x) && Issued(t, s, s', x, c)
    requires TableInv(t, s) && s.ins[x].cdb == 0
    ensures TableInv(t, s')
  {
    hide WellFormed;
    hide Issued;
    hide Pending;
    hide LastWriter;
    hide Frontier;
    forall r | 0 <= r < MD_TOTAL_REGS ensures s'.table[r] == Pending(t, s', LastWriter(t, r, Frontier(s'))) {
      IssuedEntry(t, s, s', x, c, r);
    }
  }

  lemma {:induction false} IssuedWait(t: Trace, s: State, s': State, x: nat, c: nat, z: nat, k: nat)
    requires WellFormed(t) && Shape(t, s) && Shape(t, s') && x < |t| && Moved(t, s, s', x) && Issued(t, s, s', x, c)
    requires TableInv(t, s) && WaitInv(t, s) && x !in s.stations && z in s'.stations && k < 3
    ensures s'.ins[z].q[k] == Pending(t, s', Dependence(t, z, k))
  {
    hide OfUnit;
    hide LastWriter;
    hide Resolved;
    IssuedPending(t, s, s', x, c, Dependence(t, z, k));
    if z == x {
      assert s'.ins[x].q[k] == if Tracked(t[x]) then Lookup(s.table, t[x].rIn[k], s.ins[x].q[k]) else s.ins[x].q[k];
    } else {
      hide Dependence;
      assert s.ins[z].q[k] == Pending(t, s, Dependence(t, z, k));
    }
  }

  lemma {:induction false} IssuedWaits(t: Trace, s: State, s': State, x: nat, c: nat)
    requires WellFormed(t) && Shape(t, s) && Shape(t, s') && x < |t| && Moved(t, s, s', x) && Issued(t, s, s', x, c)
    requires TableInv(t, s) && WaitInv(t, s) && x !in s.stations
    ensures WaitInv(t, s')
  {
    hide WellFormed;
    hide TableInv;
    hide OfUnit;
    hide Pending;
    hide Dependence;
    hide Lookup;
    hide Writes;
    forall z, k | z in s'.stations && 0 <= k < 3 ensures s'.ins[z].q[k] == Pending(t, s', Dependence(t, z, k)) {
      IssuedWait(t, s, s', x, c, z, k);
    }
  }

  lemma {:induction false} IssuedRaw(t: Trace, s: State, s': State, x: nat, c: nat)
    requires WellFormed(t) && Shape(t, s) && Shape(t, s') && x < |t| && Issued(t, s, s', x, c) && RawSafe(t, s)
    ensures RawSafe(t, s')
  {
    forall z, k | 0 < z < |t| && 0 <= k < 3 && s'.ins[z].execute != 0 && Dependence(t, z, k) != 0
      ensures 0 < s'.ins[Dependence(t, z, k)].cdb < s'.ins[z].execute
    {
      assert s.ins[z].execute != 0;
    }
  }

  lemma {:induction false} IssuedInv(t: Trace, s: State, s': State, x: nat, c: nat)
    requires c > 0 && Inv(t, s, Bounds(c, c, c + 1, c + 1)) && Shape(t, s') && x < |t| && Issued(t, s, s', x, c)
    ensures Inv(t, s', Bounds(c, c + 1, c + 1, c + 1))
  {
    assert StageInv(t, s, x) && x !in s.stations && !t[x].op.trap;
    IssuedQueue(t, s, s', x, c);
    IssuedFrontier(t, s, s', x, c);
    IssuedPlaces(t, s, s', x, c);
    IssuedStamps(t, s, s', x, c);
    IssuedTable(t, s, s', x, c);
    IssuedWaits(t, s, s', x, c);
    IssuedRaw(t, s, s', x, c);
  }

  lemma {:induction false} ToIssueInv(t: Trace, s: State, c: nat)
    requires c > 0 && Inv(t, s, Bounds(c, c, c + 1, c + 1))
    ensures Inv(t, ToIssue(t, s, c), Bounds(c, c + 1, c + 1, c + 1))
  {
    if s.queue == [] || Hazard(t, s) {
      StampsWiden(t, s, Bounds(c, c, c + 1, c + 1), Bounds(c, c + 1, c + 1, c + 1));
    } else {
      ToIssueIssues(t, s, c);
      IssuedInv(t, s, ToIssue(t, s, c), s.queue[|s.queue| - 1], c);
    }
  }

  // ----- fetch_To_dispatch

  ghost predicate Took(t: Trace, s: State, s': State, x: nat, c: nat)
    requires Shape(t, s) && Shape(t, s') && x < |t|
  {
    && |s.queue| < INSTR_QUEUE_SIZE && s.fetched < x && !t[x].op.trap
    && (forall j :: s.fetched < j < x ==> t[j].op.trap)
    && s' == s.(queue := [x] + s.queue, fetched := x, ins := s.ins[x := s.ins[x].(dispatch := c)])
  }

  lemma {:induction false} TookFrontier(t: Trace, s: State, s': State, x: nat, c: nat)
    requires Shape(t, s) && Shape(t, s') && x < |t| && Took(t, s, s', x, c) && QueueInv(t, s)
    ensures Frontier(s) <= Frontier(s') <= |t| && forall i :: Frontier(s) <= i < Frontier(s') ==> t[i].op.trap
    ensures Frontier(s) <= s.fetched + 1
  {
  }

  lemma {:induction false} TookQueue(t: Trace, s: State, s': State, x: nat, c: nat)
    requires Shape(t, s) && Shape(t, s') && x < |t| && Took(t, s, s', x, c) && QueueInv(t, s)
    ensures QueueInv(t, s')
  {
    TookFrontier(t, s, s', x, c);
    assert forall a :: 0 < a < |s'.queue| ==> s'.queue[a] == s.queue[a - 1];
    forall i | Frontier(s') <= i <= x && !t[i].op.trap ensures i in s'.queue {
      TookMember(t, s, s', x, c, i);
    }
    hide Frontier;
  }

  lemma {:induction false} TookMember(t: Trace, s: State, s': State, x: nat, c: nat, i: nat)
    requires Shape(t, s) && Shape(t, s') && x < |t| && Took(t, s, s', x, c) && QueueInv(t, s)
    requires Frontier(s) <= Frontier(s') <= i <= x && !t[i].op.trap
    ensures i in s'.queue
  {
    assert s'.queue[0] == x;
    if i != x {
      assert i <= s.fetched;
      var a :| 0 <= a < |s.queue| && s.queue[a] == i;
      assert s'.queue[a + 1] == i;
    }
  }

  lemma {:induction false} TookStamps(t: Trace, s: State, s': State, x: nat, c: nat)
    requires c > 0 && Shape(t, s) && Shape(t, s') && x < |t| && Took(t, s, s', x, c)
    requires Frontier(s) <= s.fetched + 1
    requires Frontier(s) <= Frontier(s') && forall i :: Frontier(s) <= i < Frontier(s') ==> t[i].op.trap
    requires StampInv(t, s, Bounds(c, c + 1, c + 1, c + 1))
    ensures StampInv(t, s', Bounds(c + 1, c + 1, c + 1, c + 1))
  {
    hide StageInv;
    hide OrderInv;
    hide Frontier;
    var b' := Bounds(c + 1, c + 1, c + 1, c + 1);
    forall i | 0 < i < |t| ensures StageInv(t, s', i) && OrderInv(t, s', b', i) {
      TookStamp(t, s, s', x, c, i);
    }
    assert forall i :: 0 < i < |t| ==> StageInv(t, s', i) && OrderInv(t, s', b', i);
    forall i, j | 0 < i < j < |t| && s'.ins[j].dispatch != 0 ensures s'.ins[i].dispatch < s'.ins[j].dispatch {
      TookOrder(t, s, s', x, c, i, j);
    }
  }

  lemma {:induction false} TookStamp(t: Trace, s: State, s': State, x: nat, c: nat, i: nat)
    requires c > 0 && Shape(t, s) && Shape(t, s') && x < |t| && Took(t, s, s', x, c) && 0 < i < |t|
    requires Frontier(s) <= s.fetched + 1
    requires Frontier(s) <= Frontier(s') && forall i :: Frontier(s) <= i < Frontier(s') ==> t[i].op.trap
    requires StageInv(t, s, i) && OrderInv(t, s, Bounds(c, c + 1, c + 1, c + 1), i)
    ensures StageInv(t, s', i) && OrderInv(t, s', Bounds(c + 1, c + 1, c + 1, c + 1), i)
  {
    hide Frontier;
  }

  lemma {:induction false} TookOrder(t: Trace, s: State, s': State, x: nat, c: nat, i: nat, j: nat)
    requires c > 0 && Shape(t, s) && Shape(t, s') && x < |t| && Took(t, s, s', x, c) && 0 < i < j < |t|
    requires StageInv(t, s, j) && OrderInv(t, s, Bounds(c, c + 1, c + 1, c + 1), i)
    requires s.ins[j].dispatch != 0 ==> s.ins[i].dispatch < s.ins[j].dispatch
    ensures s'.ins[j].dispatch != 0 ==> s'.ins[i].dispatch < s'.ins[j].dispatch
  {
    hide Frontier;
  }

  lemma {:induction false} TookTable(t: Trace, s: State, s': State, x: nat, c: nat)
    requires WellFormed(t) && Shape(t, s) && Shape(t, s') && x < |t| && Took(t, s, s', x, c)
    requires Frontier(s) <= Frontier(s') <= |t| && forall i :: Frontier(s) <= i < Frontier(s') ==> t[i].op.trap
    requires TableInv(t, s)
    ensures TableInv(t, s')
  {
    hide LastWriter;
    hide Frontier;
    forall r | 0 <= r < MD_TOTAL_REGS ensures s'.table[r] == Pending(t, s', LastWriter(t, r, Frontier(s'))) {
      SameLastWriter(t, r, Frontier(s), Frontier(s'));
    }
  }

  /** Traps write nothing. */
  lemma {:induction false} SameLastWriter(t: Trace, r: int, i: nat, j: nat)
    requires WellFormed(t) && i <= j <= |t| && forall k :: i <= k < j ==> t[k].op.trap
    ensures LastWriter(t, r, j) == LastWriter(t, r, i)
  {
    LastWriterIs(t, r, j, LastWriter(t, r, i));
  }

  lemma {:induction false} TookWaits(t: Trace, s: State, s': State, x: nat, c: nat)
    requires WellFormed(t) && Shape(t, s) && Shape(t, s') && x < |t| && Took(t, s, s', x, c)
    requires Frontier(s) <= Frontier(s') <= |t| && WaitInv(t, s)
    ensures WaitInv(t, s')
  {
    hide Frontier;
    hide Dependence;
  }

  lemma {:induction false} TookRaw(t: Trace, s: State, s': State, x: nat, c: nat)
    requires WellFormed(t) && Shape(t, s) && Shape(t, s') && x < |t| && Took(t, s, s', x, c) && RawSafe(t, s)
    ensures RawSafe(t, s')
  {
    forall z, k | 0 < z < |t| && 0 <= k < 3 && s'.ins[z].execute != 0 && Dependence(t, z, k) != 0
      ensures 0 < s'.ins[Dependence(t, z, k)].cdb < s'.ins[z].execute
    {
      assert s.ins[z].execute != 0;
    }
  }

  lemma {:induction false} TookPlaces(t: Trace, s: State, s': State, x: nat, c: nat)
    requires Shape(t, s) && Shape(t, s') && x < |t| && Took(t, s, s', x, c) && QueueInv(t, s) && PlaceInv(t, s)
    ensures PlaceInv(t, s')
  {
    hide OfUnit;
    TookFrontier(t, s, s', x, c);
    hide Frontier;
    hide QueueInv;
  }

  lemma {:induction false} TookInv(t: Trace, s: State, s': State, x: nat, c: nat)
    requires c > 0 && Inv(t, s, Bounds(c, c + 1, c + 1, c + 1)) && Shape(t, s') && x < |t| && Took(t, s, s', x, c)
    ensures BoundaryInv(t, s', c + 1)
  {
    hide StampInv;
    hide TableInv;
    hide WaitInv;
    hide QueueInv;
    hide PlaceInv;
    hide RawSafe;
    hide Took;
    TookPlaces(t, s, s', x, c);
    TookFrontier(t, s, s', x, c);
    TookQueue(t, s, s', x, c);
    TookStamps(t, s, s', x, c);
    TookTable(t, s, s', x, c);
    TookWaits(t, s, s', x, c);
    TookRaw(t, s, s', x, c);
  }

  lemma {:induction false} ToDispatchInv(t: Trace, s: State, c: nat)
    requires c > 0 && Inv(t, s, Bounds(c, c + 1, c + 1, c + 1))
    ensures BoundaryInv(t, ToDispatch(t, s, c), c + 1)
  {
    if s.fetched >= |t| - 1 || |s.queue| >= INSTR_QUEUE_SIZE {
      StampsWiden(t, s, Bounds(c, c + 1, c + 1, c + 1), Bounds(c + 1, c + 1, c + 1, c + 1));
    } else {
      TookInv(t, s, ToDispatch(t, s, c), SkipTraps(t, s.fetched + 1), c);
    }
  }

  // ----- every cycle of every run

  lemma {:induction false} CycleInv(t: Trace, s: State, c: nat)
    requires c > 0 && BoundaryInv(t, s, c)
    ensures BoundaryInv(t, Cycle(t, s, c), c + 1)
  {
    var s1 := Retire(t, s);
    RetireInv(t, s, c);
    var s2 := ToBus(t, s1, c);
    ToBusInv(t, s1, c);
    var s3 := ToExecute(t, s2, c);
    ToExecuteInv(t, s2, c);
    ToIssueInv(t, s3, c);
    ToDispatchInv(t, ToIssue(t, s3, c), c);
  }

  lemma {:induction false} Reachable(t: Trace, k: nat)
    requires WellFormed(t)
    ensures BoundaryInv(t, StateAfter(t, k), k + 1)
  {
    hide Cycle;
    hide Inv;
    if k == 0 {
      InitialInv(t);
    } else {
      Reachable(t, k - 1);
      CycleInv(t, StateAfter(t, k - 1), k);
    }
  }
}
