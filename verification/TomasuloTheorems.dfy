/** The promises of the scheduler, for every trace and every number of cycles. */
module TomasuloTheorems {
  import opened NatSets
  import opened TomasuloModel
  import opened TomasuloInvariant

  // The source's two kinds of unit, told by the opcode flags.

  /** USES_INT_FU */
  predicate IntOp(i: Instr) {
    i.op.icomp || i.op.load || i.op.store
  }

  /** USES_FP_FU, which is asked only when USES_INT_FU fails. */
  predicate FpOp(i: Instr) {
    i.op.fcomp && !IntOp(i)
  }

  /** No instruction starts in or before the cycle in which a result it reads, the
      one of the latest earlier writer of the register, goes over the bus. */
  lemma {:induction false} RawDependencesRespected(t: Trace, n: nat, x: nat, k: nat)
    requires WellFormed(t) && 0 < x < |t| && k < 3
    requires StateAfter(t, n).ins[x].execute != 0 && Dependence(t, x, k) != 0
    ensures 0 < StateAfter(t, n).ins[Dependence(t, x, k)].cdb < StateAfter(t, n).ins[x].execute
  {
    Reachable(t, n);
  }

  lemma {:induction false} StageOf(t: Trace, s: State, b: Bounds, x: nat)
    requires Inv(t, s, b) && 0 < x < |t|
    ensures Shape(t, s) && StageInv(t, s, x) && OrderInv(t, s, b, x) && (Left(t, s, x) ==> x <= s.fetched)
  {
  }

  lemma {:induction false} StageTiming(t: Trace, n: nat, x: nat)
    requires WellFormed(t) && 0 < x < |t|
    ensures var p := StateAfter(t, n).ins[x];
            && (p.dispatch != 0 ==> !t[x].op.trap)
            && (p.issue != 0 ==> 0 < p.dispatch < p.issue && (IntOp(t[x]) || FpOp(t[x])))
            && (p.execute != 0 ==> 0 < p.issue < p.execute)
            && (p.cdb != 0 ==> 0 < p.execute && p.execute + (if IntOp(t[x]) then 5 else 7) <= p.cdb && !t[x].op.store)
            && p.dispatch <= n && p.issue <= n && p.execute <= n && p.cdb <= n
  {
    hide StateAfter;
    hide Inv;
    hide WellFormed;
    Reachable(t, n);
    StageOf(t, StateAfter(t, n), Bounds(n + 1, n + 1, n + 1, n + 1), x);
  }

  /** Dispatch and issue are in program order, one instruction a cycle: once an instruction has been dispatched
      or issued, so has every older one that ever is, and earlier. No two results share a bus cycle. */
  lemma {:induction false} InOrderFrontEnd(t: Trace, n: nat, x: nat, y: nat)
    requires WellFormed(t) && 0 < x < y < |t|
    ensures var p, q := StateAfter(t, n).ins[x], StateAfter(t, n).ins[y];
            && (q.dispatch != 0 ==> p.dispatch < q.dispatch && (!t[x].op.trap ==> 0 < p.dispatch))
            && (q.issue != 0 ==> p.issue < q.issue && (!t[x].op.trap && UnitOf(t[x]) != NoUnit ==> 0 < p.issue))
            && (p.cdb == q.cdb ==> p.cdb == 0)
  {
    hide StateAfter;
    hide QueueInv;
    hide PlaceInv;
    hide TableInv;
    hide WaitInv;
    hide RawSafe;
    hide OrderInv;
    Reachable(t, n);
    var s := StateAfter(t, n);
    assert StageInv(t, s, x) && StageInv(t, s, y);
  }

  // ----- conservation

  datatype Place = Unfetched | Queued | InStation | InUnit | OnBus | Finished

  ghost predicate IsAt(t: Trace, s: State, x: nat, p: Place)
    requires Shape(t, s) && x < |t|
  {
    match p
    case Unfetched => x > s.fetched
    case Queued => x in s.queue
    case InStation => x in s.stations && x !in s.units
    case InUnit => x in s.stations && x in s.units
    case OnBus => x == s.bus
    case Finished => s.ins[x].dispatch != 0 && (UnitOf(t[x]) == NoUnit ==> x < Frontier(s))
                     && (UnitOf(t[x]) != NoUnit ==> s.ins[x].execute != 0 && x !in s.stations)
                     && (Producer(t[x]) ==> s.ins[x].cdb != 0 && x != s.bus)
  }

  function PlaceOf(t: Trace, s: State, x: nat): Place
  {
    if x > s.fetched then Unfetched
    else if x in s.queue then Queued
    else if x in s.units then InUnit
    else if x in s.stations then InStation
    else if x == s.bus then OnBus
    else Finished
  }

  lemma {:induction false} OnePlaceIn(t: Trace, s: State, c: nat, x: nat, p: Place)
    requires BoundaryInv(t, s, c) && 0 < x < |t| && !t[x].op.trap
    ensures IsAt(t, s, x, p) <==> p == PlaceOf(t, s, x)
  {
    hide TableInv;
    hide WaitInv;
    hide RawSafe;
    assert StageInv(t, s, x);
    InQueueIffNotLeft(t, s, x);
    hide StampInv;
    hide QueueInv;
  }

  /** At every cycle end every instruction that is not a trap is in exactly one place. */
  lemma {:induction false} OnePlaceEach(t: Trace, n: nat, x: nat, p: Place)
    requires WellFormed(t) && 0 < x < |t| && !t[x].op.trap
    ensures IsAt(t, StateAfter(t, n), x, p) <==> p == PlaceOf(t, StateAfter(t, n), x)
  {
    hide StateAfter;
    hide BoundaryInv;
    hide IsAt;
    hide PlaceOf;
    Reachable(t, n);
    OnePlaceIn(t, StateAfter(t, n), n + 1, x, p);
  }

  lemma {:induction false} InQueueIffNotLeft(t: Trace, s: State, x: nat)
    requires Shape(t, s) && QueueInv(t, s) && 0 < x < |t| && !t[x].op.trap
    ensures x in s.queue <==> Frontier(s) <= x <= s.fetched
  {
    if x in s.queue {
      var a :| 0 <= a < |s.queue| && s.queue[a] == x;
      assert s.queue[|s.queue| - 1] <= x;
    }
  }

  /** The emptiness test, which never looks at the fetch index, holds at a cycle end
      only when everything has been fetched and has finished. */
  lemma {:induction false} DoneMeansComplete(t: Trace, n: nat, x: nat)
    requires WellFormed(t) && n > 0 && Done(StateAfter(t, n)) && 0 < x < |t| && !t[x].op.trap
    ensures StateAfter(t, n).fetched == |t| - 1
    ensures IsAt(t, StateAfter(t, n), x, Finished)
  {
    FetchedWhenEmpty(t, n);
    OnePlaceEach(t, n, x, Finished);
  }

  lemma {:induction false} FetchedWhenEmpty(t: Trace, n: nat)
    requires WellFormed(t) && n > 0 && StateAfter(t, n).queue == []
    ensures StateAfter(t, n).fetched == |t| - 1
  {
    hide Retire;
    hide ToBus;
    hide ToExecute;
    hide ToIssue;
    hide WellFormed;
    var s1 := Retire(t, StateAfter(t, n - 1));
    var s4 := ToIssue(t, ToExecute(t, ToBus(t, s1, n), n), n);
    assert StateAfter(t, n) == ToDispatch(t, s4, n);
  }

  // ----- termination

  /** Every result that is waited for, by a station or by the map table at the end, comes from
      an instruction that reaches the bus. A store that names an output register breaks this. */
  ghost predicate Drainable(t: Trace)
    requires WellFormed(t)
  {
    && (forall x, k :: 0 < x < |t| && 0 <= k < 3 && !t[x].op.trap && UnitOf(t[x]) != NoUnit
                       && Dependence(t, x, k) != 0 ==>
          Producer(t[Dependence(t, x, k)]))
    && (forall r :: 0 <= r < MD_TOTAL_REGS && LastWriter(t, r, |t|) != 0 ==> Producer(t[LastWriter(t, r, |t|)]))
  }

  /** Cycles an instruction can still need when nothing stands in its way. */
  function Weight(t: Trace, s: State, c: nat, i: nat): nat
    requires Shape(t, s) && i < |t|
  {
    var u := UnitOf(t[i]);
    if i == 0 || t[i].op.trap then 0
    else if i > s.fetched then if u == NoUnit then 2 else Latency(u) + 4
    else if i in s.queue then if u == NoUnit then 1 else Latency(u) + 3
    else if i in s.stations then
      if s.ins[i].execute == 0 then Latency(u) + 2
      else if s.ins[i].execute + Latency(u) > c then 2 + s.ins[i].execute + Latency(u) - c
      else 2
    else if i == s.bus then 1
    else 0
  }

  function Total(t: Trace, s: State, c: nat, n: nat): nat
    requires Shape(t, s) && n <= |t|
  {
    if n == 0 then 0 else Total(t, s, c, n - 1) + Weight(t, s, c, n - 1)
  }

  ghost predicate NoHeavier(t: Trace, s: State, c: nat, s': State, c': nat)
    requires Shape(t, s) && Shape(t, s')
  {
    forall i: nat :: i < |t| ==> Weight(t, s', c', i) <= Weight(t, s, c, i)
  }

  ghost predicate LighterAt(t: Trace, s: State, c: nat, s': State, c': nat, i: nat)
    requires Shape(t, s) && Shape(t, s')
  {
    i < |t| && Weight(t, s', c', i) < Weight(t, s, c, i)
  }

  lemma {:induction false} TotalShrinks(t: Trace, s: State, c: nat, s': State, c': nat, n: nat)
    requires Shape(t, s) && Shape(t, s') && n <= |t| && NoHeavier(t, s, c, s', c')
    ensures Total(t, s', c', n) <= Total(t, s, c, n)
    ensures (exists i: nat :: i < n && LighterAt(t, s, c, s', c', i)) ==> Total(t, s', c', n) < Total(t, s, c, n)
  {
    if n > 0 {
      TotalShrinks(t, s, c, s', c', n - 1);
      if i: nat :| i < n && LighterAt(t, s, c, s', c', i) {
        assert i < n - 1 || i == n - 1;
      }
    }
  }

  lemma {:induction false} TickLightens(t: Trace, s: State, c: nat, i: nat)
    requires Shape(t, s) && i < |t|
    ensures Weight(t, s, c + 1, i) <= Weight(t, s, c, i)
    ensures (Departed(t, s, i) && i in s.stations && s.ins[i].execute != 0
             && s.ins[i].execute + Latency(UnitOf(t[i])) > c
             ==> Weight(t, s, c + 1, i) < Weight(t, s, c, i))
  {
  }

  ghost predicate Departed(t: Trace, s: State, x: nat) {
    0 < x < |t| && x <= s.fetched && x !in s.queue && !t[x].op.trap
  }

  lemma {:induction false} LeftDeparted(t: Trace, s: State, x: nat)
    requires Shape(t, s) && QueueInv(t, s) && Left(t, s, x)
    ensures Departed(t, s, x)
  {
    InQueueIffNotLeft(t, s, x);
  }

  lemma {:induction false} RetireLightens(t: Trace, s: State, c: nat, i: nat)
    requires Shape(t, s) && i < |t|
    requires s.bus != 0 ==> Departed(t, s, s.bus) && s.bus !in s.stations
    ensures Weight(t, Retire(t, s), c, i) <= Weight(t, s, c, i)
    ensures i == s.bus != 0 ==> Weight(t, Retire(t, s), c, i) < Weight(t, s, c, i)
  {
  }

  lemma {:induction false} ToBusLightens(t: Trace, s: State, c: nat, i: nat)
    requires Shape(t, s) && i < |t| && s.bus == 0
    requires forall x :: x in s.units ==> Departed(t, s, x) && s.ins[x].execute != 0
    ensures Weight(t, ToBus(t, s, c), c + 1, i) <= Weight(t, s, c + 1, i)
    ensures i in s.units && i !in ToBus(t, s, c).units ==> Weight(t, ToBus(t, s, c), c + 1, i) < Weight(t, s, c + 1, i)
  {
    ToBusEffect(t, s, c);
  }

  lemma {:induction false} StartedLightens(t: Trace, s: State, s': State, g: set<nat>, u: Unit, c: nat, i: nat)
    requires c > 0 && Shape(t, s) && Shape(t, s') && i < |t| && Started(t, s, s', g, u, c)
    requires forall x :: x in s.stations ==> Departed(t, s, x)
    ensures Weight(t, s', c + 1, i) <= Weight(t, s, c + 1, i)
    ensures i in g ==> Weight(t, s', c + 1, i) < Weight(t, s, c + 1, i)
  {
  }

  lemma {:induction false} IssuedLightens(t: Trace, s: State, s': State, x: nat, c: nat, i: nat)
    requires WellFormed(t) && Shape(t, s) && Shape(t, s') && x < |t| && i < |t| && Issued(t, s, s', x, c)
    requires s.ins[x].execute == 0 && x != s.bus && x !in s.stations && x !in s'.queue && x <= s.fetched
             && !t[x].op.trap
    ensures Weight(t, s', c + 1, i) <= Weight(t, s, c + 1, i)
    ensures i == x ==> Weight(t, s', c + 1, i) < Weight(t, s, c + 1, i)
  {
    assert s.queue == s'.queue + [x];
    assert i in s.queue <==> i in s'.queue || i == x;
  }

  lemma {:induction false} TookLightens(t: Trace, s: State, s': State, x: nat, c: nat, i: nat)
    requires WellFormed(t) && Shape(t, s) && Shape(t, s') && x < |t| && i < |t| && Took(t, s, s', x, c)
    ensures Weight(t, s', c + 1, i) <= Weight(t, s, c + 1, i)
    ensures i == x ==> Weight(t, s', c + 1, i) < Weight(t, s, c + 1, i)
  {
  }

  // The states between the stages of one cycle.

  ghost function AtBus(t: Trace, s: State, c: nat): (s': State)
    requires Shape(t, s)
    ensures Shape(t, s')
  {
    ToBus(t, Retire(t, s), c)
  }

  ghost function AtIssue(t: Trace, s: State, c: nat): (s': State)
    requires Shape(t, s)
    ensures Shape(t, s')
  {
    ToExecute(t, AtBus(t, s, c), c)
  }

  lemma {:induction false} StageInvariants(t: Trace, s: State, c: nat)
    requires c > 0 && BoundaryInv(t, s, c)
    ensures BoundaryInv(t, Retire(t, s), c) && Retire(t, s).bus == 0
    ensures Inv(t, AtBus(t, s, c), Bounds(c, c, c, c + 1))
    ensures Inv(t, AtIssue(t, s, c), Bounds(c, c, c + 1, c + 1))
    ensures Inv(t, ToIssue(t, AtIssue(t, s, c), c), Bounds(c, c + 1, c + 1, c + 1))
  {
    RetireInv(t, s, c);
    ToBusInv(t, Retire(t, s), c);
    ToExecuteInv(t, AtBus(t, s, c), c);
    ToIssueInv(t, AtIssue(t, s, c), c);
  }

  lemma {:induction false} StationsDeparted(t: Trace, s: State)
    requires Shape(t, s) && QueueInv(t, s) && PlaceInv(t, s)
    ensures forall x :: x in s.stations ==> Departed(t, s, x)
    ensures s.bus != 0 ==> Departed(t, s, s.bus)
  {
    forall x | x in s.stations ensures Departed(t, s, x) { LeftDeparted(t, s, x); }
    if s.bus != 0 { LeftDeparted(t, s, s.bus); }
  }

  /** Something moves, or counts down, for instruction i in this cycle. */
  ghost predicate FrontAdvances(t: Trace, s: State, c: nat, i: nat)
    requires Shape(t, s) && i < |t|
  {
    || (i in s.units && s.ins[i].execute + Latency(UnitOf(t[i])) > c)
    || i == s.bus != 0
    || (i in s.units && i !in AtBus(t, s, c).units)
  }

  lemma {:induction false} FrontFacts(t: Trace, s: State, c: nat)
    requires BoundaryInv(t, s, c)
    ensures s.bus != 0 ==> Departed(t, s, s.bus) && s.bus !in s.stations
    ensures Retire(t, s).bus == 0 && Retire(t, s).units == s.units
    ensures forall x :: x in s.units ==> x in s.stations && Departed(t, s, x) && s.ins[x].execute != 0
    ensures forall x :: x in s.units ==> Departed(t, Retire(t, s), x) && Retire(t, s).ins[x].execute != 0
  {
    hide StampInv;
    hide TableInv;
    hide WaitInv;
    hide RawSafe;
    StationsDeparted(t, s);
    hide QueueInv;
    hide OfUnit;
  }

  lemma {:induction false} FrontLightens(t: Trace, s: State, c: nat, i: nat)
    requires c > 0 && BoundaryInv(t, s, c) && i < |t|
    ensures Weight(t, AtBus(t, s, c), c + 1, i) <= Weight(t, s, c, i)
    ensures FrontAdvances(t, s, c, i) ==> Weight(t, AtBus(t, s, c), c + 1, i) < Weight(t, s, c, i)
  {
    hide Weight;
    hide Retire;
    hide ToBus;
    hide StampInv;
    hide TableInv;
    hide WaitInv;
    hide RawSafe;
    hide QueueInv;
    hide PlaceInv;
    var s1 := Retire(t, s);
    FrontFacts(t, s, c);
    TickLightens(t, s, c, i);
    RetireLightens(t, s, c + 1, i);
    ToBusLightens(t, s1, c, i);
  }

  ghost predicate BackAdvances(t: Trace, s: State, c: nat, i: nat)
    requires WellFormed(t) && Shape(t, s) && i < |t|
  {
    var s3 := ToExecute(t, s, c);
    || i in Granted(t, s, Int)
    || i in Granted(t, Grant(t, s, Int, c), Fp)
    || (s3.queue != [] && !Hazard(t, s3) && i == s3.queue[|s3.queue| - 1])
    || (s3.queue == [] && s3.fetched < |t| - 1 && i == SkipTraps(t, s3.fetched + 1))
  }

  lemma {:induction false} ExecuteLightens(t: Trace, s: State, c: nat, i: nat)
    requires c > 0 && i < |t| && Inv(t, s, Bounds(c, c, c, c + 1))
    ensures Weight(t, ToExecute(t, s, c), c + 1, i) <= Weight(t, s, c + 1, i)
    ensures i in Granted(t, s, Int) || i in Granted(t, Grant(t, s, Int, c), Fp) ==>
              Weight(t, ToExecute(t, s, c), c + 1, i) < Weight(t, s, c + 1, i)
  {
    var s1 := Grant(t, s, Int, c);
    StationsDeparted(t, s);
    GrantStarts(t, s, Int, c);
    StartedLightens(t, s, s1, Granted(t, s, Int), Int, c, i);
    GrantStarts(t, s1, Fp, c);
    StartedLightens(t, s1, Grant(t, s1, Fp, c), Granted(t, s1, Fp), Fp, c, i);
  }

  lemma {:induction false} IssueLightens(t: Trace, s: State, c: nat, i: nat)
    requires c > 0 && i < |t| && Inv(t, s, Bounds(c, c, c + 1, c + 1))
    ensures Weight(t, ToIssue(t, s, c), c + 1, i) <= Weight(t, s, c + 1, i)
    ensures s.queue != [] && !Hazard(t, s) && i == s.queue[|s.queue| - 1] ==>
              Weight(t, ToIssue(t, s, c), c + 1, i) < Weight(t, s, c + 1, i)
  {
    if s.queue != [] && !Hazard(t, s) {
      var x := s.queue[|s.queue| - 1];
      assert StageInv(t, s, x) && x <= s.fetched && !t[x].op.trap;
      ToIssueIssues(t, s, c);
      IssuedLightens(t, s, ToIssue(t, s, c), x, c, i);
    }
  }

  lemma {:induction false} DispatchLightens(t: Trace, s: State, c: nat, i: nat)
    requires WellFormed(t) && Shape(t, s) && i < |t|
    ensures Weight(t, ToDispatch(t, s, c), c + 1, i) <= Weight(t, s, c + 1, i)
    ensures s.queue == [] && s.fetched < |t| - 1 && i == SkipTraps(t, s.fetched + 1) ==>
              Weight(t, ToDispatch(t, s, c), c + 1, i) < Weight(t, s, c + 1, i)
  {
    if s.fetched < |t| - 1 && |s.queue| < INSTR_QUEUE_SIZE {
      TookLightens(t, s, ToDispatch(t, s, c), SkipTraps(t, s.fetched + 1), c, i);
    }
  }

  lemma {:induction false} NothingToIssue(t: Trace, s: State, c: nat)
    requires WellFormed(t) && Shape(t, s)
    ensures s.queue == [] ==> ToIssue(t, s, c) == s
  {
  }

  lemma {:induction false} BackLightens(t: Trace, s: State, c: nat, i: nat)
    requires c > 0 && i < |t| && Inv(t, s, Bounds(c, c, c, c + 1))
    ensures var s' := ToDispatch(t, ToIssue(t, ToExecute(t, s, c), c), c);
            && Weight(t, s', c + 1, i) <= Weight(t, s, c + 1, i)
            && (BackAdvances(t, s, c, i) ==> Weight(t, s', c + 1, i) < Weight(t, s, c + 1, i))
  {
    hide Weight;
    hide ToExecute;
    hide ToIssue;
    hide ToDispatch;
    hide Grant;
    hide Granted;
    hide Hazard;
    hide SkipTraps;
    hide Shape;
    hide QueueInv;
    hide PlaceInv;
    hide StampInv;
    hide TableInv;
    hide WaitInv;
    hide RawSafe;
    var s3 := ToExecute(t, s, c);
    ToExecuteInv(t, s, c);
    ExecuteLightens(t, s, c, i);
    IssueLightens(t, s3, c, i);
    NothingToIssue(t, s3, c);
    DispatchLightens(t, ToIssue(t, s3, c), c, i);
  }

  lemma {:induction false} CycleLightens(t: Trace, s: State, c: nat, i: nat)
    requires c > 0 && BoundaryInv(t, s, c) && i < |t|
    ensures Weight(t, Cycle(t, s, c), c + 1, i) <= Weight(t, s, c, i)
    ensures FrontAdvances(t, s, c, i) || BackAdvances(t, AtBus(t, s, c), c, i)
            ==> LighterAt(t, s, c, Cycle(t, s, c), c + 1, i)
  {
    RetireInv(t, s, c);
    ToBusInv(t, Retire(t, s), c);
    FrontLightens(t, s, c, i);
    BackLightens(t, AtBus(t, s, c), c, i);
  }

  // ----- something always advances

  /** Under PlaceInv and StampInv a producer that has left the queue is in a station, on the bus or resolved. */
  lemma {:induction false} ProducerOnItsWay(t: Trace, s: State, w: nat)
    requires Shape(t, s) && 0 < w < |t| && StageInv(t, s, w) && Left(t, s, w) && Producer(t[w])
    ensures w in s.stations || w == s.bus || Resolved(t, s, w)
  {
  }

  /** The oldest instruction in the stations waits for nobody once the bus is empty. */
  lemma {:induction false} OldestIsReady(t: Trace, s: State, b: Bounds, x: nat)
    requires Inv(t, s, b) && Drainable(t) && s.bus == 0 && IsMin(x, s.stations) && s.units == {}
    ensures x in Waiting(t, s, UnitOf(t[x]))
  {
    assert Left(t, s, x);
    forall k | 0 <= k < 3 ensures s.ins[x].q[k] == 0 {
      var w := Dependence(t, x, k);
      assert s.ins[x].q[k] == Pending(t, s, w);
      if w != 0 {
        assert Producer(t[w]) && StageInv(t, s, w);
        ProducerOnItsWay(t, s, w);
      }
    }
  }

  lemma {:induction false} StationAdvances(t: Trace, s: State, b: Bounds, c: nat) returns (i: nat)
    requires Inv(t, s, b) && Drainable(t) && s.bus == 0 && s.stations != {} && s.units == {}
    ensures i < |t| && BackAdvances(t, s, c, i)
  {
    var x := Min(s.stations);
    OldestIsReady(t, s, b, x);
    var u := UnitOf(t[x]);
    assert OfUnit(t, {}, u) == {};
    assert Granted(t, s, u) != {};
    i :| i in Granted(t, s, u);
    GrantKeepsOther(t, s, c);
  }

  lemma {:induction false} StartedKeepsOther(t: Trace, s: State, s': State, g: set<nat>, u: Unit, c: nat, v: Unit)
    requires Shape(t, s) && Shape(t, s') && Started(t, s, s', g, u, c) && v != u
    ensures Waiting(t, s', v) == Waiting(t, s, v) && OfUnit(t, s'.units, v) == OfUnit(t, s.units, v)
  {
  }

  lemma {:induction false} GrantKeepsOther(t: Trace, s: State, c: nat)
    requires Shape(t, s)
    ensures Granted(t, Grant(t, s, Int, c), Fp) == Granted(t, s, Fp)
  {
    hide Grant;
    hide Oldest;
    GrantStarts(t, s, Int, c);
    StartedKeepsOther(t, s, Grant(t, s, Int, c), Granted(t, s, Int), Int, c, Fp);
  }

  lemma {:induction false} NothingToGrant(t: Trace, s: State, c: nat)
    requires Shape(t, s) && s.stations == {}
    ensures ToExecute(t, s, c) == s
  {
    assert Granted(t, s, Int) == {};
    assert Grant(t, s, Int, c) == s;
    assert Granted(t, s, Fp) == {};
  }

  lemma {:induction false} QueueAdvances(t: Trace, s: State, c: nat) returns (i: nat)
    requires WellFormed(t) && Shape(t, s) && s.stations == {} && (s.queue != [] || s.fetched < |t| - 1)
    ensures i < |t| && BackAdvances(t, s, c, i)
  {
    hide ToExecute;
    hide Grant;
    hide Granted;
    NothingToGrant(t, s, c);
    if s.queue != [] {
      assert OfUnit(t, {}, Int) == {} && OfUnit(t, {}, Fp) == {};
      i := s.queue[|s.queue| - 1];
    } else {
      i := SkipTraps(t, s.fetched + 1);
    }
  }

  lemma {:induction false} TableEmptyAtEnd(t: Trace, s: State, b: Bounds)
    requires Inv(t, s, b) && Drainable(t) && s.bus == 0 && s.stations == {} && s.queue == [] && s.fetched == |t| - 1
    ensures Done(s)
  {
    forall r | 0 <= r < MD_TOTAL_REGS ensures s.table[r] == 0 {
      var w := LastWriter(t, r, |t|);
      assert s.table[r] == Pending(t, s, w);
      if w != 0 {
        assert Producer(t[w]) && StageInv(t, s, w);
        ProducerOnItsWay(t, s, w);
      }
    }
  }

  lemma {:induction false} UnitAdvances(t: Trace, s: State, c: nat, x: nat) returns (i: nat)
    requires Shape(t, s) && s.bus == 0 && x in s.units
    ensures i < |t| && FrontAdvances(t, s, c, i)
  {
    if s.ins[x].execute + Latency(UnitOf(t[x])) > c {
      i := x;
    } else if t[x].op.store {
      assert x in ReadyStores(t, s, c);
      i := x;
    } else {
      assert x in ReadyWriters(t, s, c);
      i := Min(ReadyWriters(t, s, c));
    }
  }

  lemma {:induction false} SomethingAdvances(t: Trace, s: State, c: nat) returns (i: nat)
    requires c > 0 && BoundaryInv(t, s, c) && Drainable(t) && !(Done(s) && s.fetched == |t| - 1)
    ensures i < |t| && LighterAt(t, s, c, Cycle(t, s, c), c + 1, i)
  {
    hide LighterAt;
    hide Cycle;
    hide Drainable;
    hide BackAdvances;
    hide StampInv;
    hide TableInv;
    hide WaitInv;
    hide RawSafe;
    hide QueueInv;
    if s.bus != 0 {
      i := s.bus;
      CycleLightens(t, s, c, i);
    } else if s.units != {} {
      var x :| x in s.units;
      i := UnitAdvances(t, s, c, x);
      CycleLightens(t, s, c, i);
    } else {
      var s2 := AtBus(t, s, c);
      assert ReadyStores(t, s, c) == {} && ReadyWriters(t, s, c) == {};
      assert s2 == s;
      if s.stations != {} {
        i := StationAdvances(t, s, Bounds(c, c, c, c), c);
      } else {
        if s.queue == [] && s.fetched == |t| - 1 {
          TableEmptyAtEnd(t, s, Bounds(c, c, c, c));
        }
        i := QueueAdvances(t, s, c);
      }
      CycleLightens(t, s, c, i);
    }
  }

  // ----- the loop of runTomasulo

  /** The cycles one instruction can hold up the end of the run by. */
  function Demand(t: Trace, i: nat): nat
    requires i < |t|
  {
    if i == 0 || t[i].op.trap then 0 else if IntOp(t[i]) then 9 else if FpOp(t[i]) then 11 else 2
  }

  /** Nine cycles for an integer instruction or a memory access, eleven for a floating-point one, two for a control
      one. */
  function TotalDemand(t: Trace, n: nat): (d: nat)
    requires n <= |t|
    ensures n > 0 ==> d <= 11 * (n - 1)
    ensures n == 0 ==> d == 0
  {
    if n == 0 then 0 else TotalDemand(t, n - 1) + Demand(t, n - 1)
  }

  lemma {:induction false} InitialTotal(t: Trace, n: nat)
    requires WellFormed(t) && n <= |t|
    ensures Total(t, Initial(t), 1, n) == TotalDemand(t, n)
  {
    if n > 0 {
      InitialTotal(t, n - 1);
    }
  }

  /** The work left at the end of cycle n. */
  ghost function WorkLeft(t: Trace, n: nat): nat
    requires WellFormed(t)
  {
    Total(t, StateAfter(t, n), n + 1, |t|)
  }

  lemma {:induction false} CycleShrinks(t: Trace, s: State, c: nat)
    requires c > 0 && BoundaryInv(t, s, c) && Drainable(t) && !(Done(s) && s.fetched == |t| - 1)
    ensures Total(t, Cycle(t, s, c), c + 1, |t|) < Total(t, s, c, |t|)
  {
    forall i: nat | i < |t| ensures Weight(t, Cycle(t, s, c), c + 1, i) <= Weight(t, s, c, i) {
      CycleLightens(t, s, c, i);
    }
    var i := SomethingAdvances(t, s, c);
    TotalShrinks(t, s, c, Cycle(t, s, c), c + 1, |t|);
  }

  lemma {:induction false} NextState(t: Trace, n: nat)
    requires WellFormed(t)
    ensures StateAfter(t, n + 1) == Cycle(t, StateAfter(t, n), n + 1)
  {
    hide Cycle;
  }

  lemma {:induction false} WorkShrinks(t: Trace, n: nat)
    requires WellFormed(t) && Drainable(t) && (n == 0 ==> |t| > 1) && (n > 0 ==> !Done(StateAfter(t, n)))
    ensures WorkLeft(t, n + 1) < WorkLeft(t, n)
  {
    hide Cycle;
    NextState(t, n);
    Reachable(t, n);
    if n > 0 && StateAfter(t, n).queue == [] { FetchedWhenEmpty(t, n); }
    CycleShrinks(t, StateAfter(t, n), n + 1);
  }

  lemma {:induction false} WorkBound(t: Trace, n: nat)
    requires WellFormed(t) && Drainable(t) && |t| > 1
    requires forall j :: 1 <= j < n ==> !Done(StateAfter(t, j))
    ensures WorkLeft(t, n) + n <= TotalDemand(t, |t|)
  {
    hide Cycle;
    if n == 0 {
      InitialTotal(t, |t|);
    } else {
      WorkBound(t, n - 1);
      WorkShrinks(t, n - 1);
    }
  }

  function Max(a: nat, b: nat): nat {
    if a < b then b else a
  }

  lemma {:induction false} ExitFrom(t: Trace, n: nat) returns (k: nat)
    requires WellFormed(t) && Drainable(t) && |t| > 1 && 1 <= n
    requires forall j :: 1 <= j < n ==> !Done(StateAfter(t, j))
    ensures k <= TotalDemand(t, |t|) && ExitsAfter(t, k)
    decreases TotalDemand(t, |t|) - n
  {
    hide Cycle;
    hide StateAfter;
    WorkBound(t, n);
    if Done(StateAfter(t, n)) {
      k := n;
    } else {
      WorkBound(t, n + 1);
      k := ExitFrom(t, n + 1);
    }
  }

  /** The loop leaves after at most as many cycles as the instructions demand one after the other. */
  lemma {:induction false} ExitsInTime(t: Trace) returns (k: nat)
    requires WellFormed(t) && Drainable(t)
    ensures k <= Max(1, TotalDemand(t, |t|)) && ExitsAfter(t, k)
    ensures TotalDemand(t, |t|) <= 11 * (|t| - 1)
  {
    hide Cycle;
    hide StateAfter;
    if |t| == 1 {
      EmptyTraceExits(t);
      k := 1;
    } else {
      k := ExitFrom(t, 1);
    }
  }

  lemma {:induction false} EmptyTraceExits(t: Trace)
    requires WellFormed(t) && |t| == 1
    ensures ExitsAfter(t, 1)
  {
    var s := Initial(t);
    InitialInv(t);
    assert Retire(t, s) == s;
    assert ReadyStores(t, s, 1) == {} && ReadyWriters(t, s, 1) == {};
    assert ToBus(t, s, 1) == s;
    NothingToGrant(t, s, 1);
    assert Cycle(t, StateAfter(t, 0), 1) == s;
    assert StateAfter(t, 1) == s;
  }

  lemma {:induction false} ExecutedMeansProduced(t: Trace, s: State, b: Bounds, x: nat, k: nat)
    requires Inv(t, s, b) && 0 < x < |t| && k < 3 && s.ins[x].execute != 0 && Dependence(t, x, k) != 0
    ensures Producer(t[Dependence(t, x, k)])
  {
    assert s.ins[Dependence(t, x, k)].cdb != 0;
    assert StageInv(t, s, Dependence(t, x, k));
  }

  lemma {:induction false} ClearedMeansProduced(t: Trace, s: State, b: Bounds, r: nat)
    requires Inv(t, s, b) && r < MD_TOTAL_REGS && s.table[r] == 0 && LastWriter(t, r, Frontier(s)) != 0
    ensures Producer(t[LastWriter(t, r, Frontier(s))])
  {
    assert StageInv(t, s, LastWriter(t, r, Frontier(s)));
  }

  lemma {:induction false} EmptyMeansExecuted(t: Trace, s: State, b: Bounds, x: nat)
    requires Inv(t, s, b) && Done(s) && s.fetched == |t| - 1 && 0 < x < |t| && !t[x].op.trap && UnitOf(t[x]) != NoUnit
    ensures s.ins[x].execute != 0
  {
    assert StageInv(t, s, x);
  }

  /** The instructions before j that are not traps. */
  function NonTraps(t: Trace, j: nat): nat
    requires j <= |t|
  {
    if j <= 1 then 0 else NonTraps(t, j - 1) + if t[j - 1].op.trap then 0 else 1
  }

  lemma {:induction false} SkippedTraps(t: Trace, i: nat, j: nat)
    requires 0 < i <= j <= |t| && forall k :: i <= k < j ==> t[k].op.trap
    ensures NonTraps(t, j) == NonTraps(t, i)
  {
    if i < j { SkippedTraps(t, i, j - 1); }
  }

  /** The latest earlier instruction that is not a trap, 0 when there is none. */
  function Before(t: Trace, x: nat): (y: nat)
    requires 0 < x <= |t|
    ensures y < x && (y > 0 ==> !t[y].op.trap) && forall k :: y < k < x && k > 0 ==> t[k].op.trap
  {
    if x == 1 then 0 else if !t[x - 1].op.trap then x - 1 else Before(t, x - 1)
  }

  lemma {:induction false} DispatchAtLeast(t: Trace, n: nat, x: nat)
    requires WellFormed(t) && 0 < x < |t| && !t[x].op.trap && StateAfter(t, n).ins[x].dispatch != 0
    ensures StateAfter(t, n).ins[x].dispatch >= NonTraps(t, x + 1)
  {
    hide StateAfter;
    hide WellFormed;
    var y := Before(t, x);
    if y > 0 {
      InOrderFrontEnd(t, n, y, x);
      DispatchedBefore(t, n, y, x);
      DispatchAtLeast(t, n, y);
      SkippedTraps(t, y + 1, x);
    } else {
      SkippedTraps(t, 1, x);
    }
  }

  lemma {:induction false} DispatchedBefore(t: Trace, n: nat, y: nat, x: nat)
    requires WellFormed(t) && 0 < y < x < |t| && !t[y].op.trap && StateAfter(t, n).ins[x].dispatch != 0
    ensures StateAfter(t, n).ins[y].dispatch != 0
  {
    hide StateAfter;
    Reachable(t, n);
    var s := StateAfter(t, n);
    assert StageInv(t, s, x) && StageInv(t, s, y);
  }

  /** No run ends in fewer cycles than there are instructions to run. */
  lemma {:induction false} OneCycleEach(t: Trace, k: nat)
    requires WellFormed(t) && ExitsAfter(t, k)
    ensures k >= NonTraps(t, |t|)
  {
    if |t| > 1 {
      LastDispatched(t, k);
      DispatchAtLeast(t, k, |t| - 1);
      StageTiming(t, k, |t| - 1);
    }
  }

  lemma {:induction false} LastDispatched(t: Trace, k: nat)
    requires WellFormed(t) && |t| > 1 && ExitsAfter(t, k)
    ensures StateAfter(t, k).ins[|t| - 1].dispatch != 0
  {
    hide StateAfter;
    FetchedWhenEmpty(t, k);
    Reachable(t, k);
    assert StageInv(t, StateAfter(t, k), |t| - 1);
  }

  /** A run whose trace is not drainable never ends: an entry of the map table, or a station, stays occupied. */
  lemma {:induction false} DoneMeansDrainable(t: Trace, n: nat)
    requires WellFormed(t) && n > 0 && Done(StateAfter(t, n))
    ensures Drainable(t)
  {
    hide Cycle;
    hide StateAfter;
    hide Inv;
    var s, b := StateAfter(t, n), Bounds(n + 1, n + 1, n + 1, n + 1);
    Reachable(t, n);
    FetchedWhenEmpty(t, n);
    forall x, k | 0 < x < |t| && 0 <= k < 3 && !t[x].op.trap && UnitOf(t[x]) != NoUnit && Dependence(t, x, k) != 0
      ensures Producer(t[Dependence(t, x, k)])
    {
      EmptyMeansExecuted(t, s, b, x);
      ExecutedMeansProduced(t, s, b, x, k);
    }
    forall r | 0 <= r < MD_TOTAL_REGS && LastWriter(t, r, |t|) != 0 ensures Producer(t[LastWriter(t, r, |t|)]) {
      ClearedMeansProduced(t, s, b, r);
    }
  }

  /** The loop ends exactly on the drainable traces. */
  lemma {:induction false} EndsIffDrainable(t: Trace)
    requires WellFormed(t)
    ensures (exists k: nat :: ExitsAfter(t, k)) <==> Drainable(t)
  {
    hide Cycle;
    hide StateAfter;
    if k: nat :| ExitsAfter(t, k) {
      DoneMeansDrainable(t, k);
    }
    if Drainable(t) {
      var k := ExitsInTime(t);
    }
  }

  /** The rule the source states for stores is enough. */
  lemma {:induction false} ResultsOnBusSuffice(t: Trace)
    requires WellFormed(t)
    requires forall i, r :: 0 < i < |t| && 0 < r < MD_TOTAL_REGS && Writes(t[i], r) ==> Producer(t[i])
    ensures Drainable(t)
  {
    forall x, k | 0 < x < |t| && 0 <= k < 3 && Dependence(t, x, k) != 0
      ensures Producer(t[Dependence(t, x, k)])
    {
      assert Writes(t[Dependence(t, x, k)], t[x].rIn[k]);
    }
    forall r | 0 <= r < MD_TOTAL_REGS && LastWriter(t, r, |t|) != 0 ensures Producer(t[LastWriter(t, r, |t|)]) {
      assert Writes(t[LastWriter(t, r, |t|)], r);
    }
  }

  /** One store that names an output register keeps the loop running for ever. */
  lemma {:induction false} StoreWithOutputNeverEnds(k: nat)
    ensures var op := Op(false, false, false, true, false, false, false);
            var t := [Instr(op, [0, 0], [0, 0, 0]), Instr(op, [7, 0], [0, 0, 0])];
            WellFormed(t) && !ExitsAfter(t, k)
  {
    var op := Op(false, false, false, true, false, false, false);
    var t := [Instr(op, [0, 0], [0, 0, 0]), Instr(op, [7, 0], [0, 0, 0])];
    assert Writes(t[1], 7);
    assert LastWriter(t, 7, |t|) == 1;
    assert !Drainable(t);
    EndsIffDrainable(t);
  }
}
