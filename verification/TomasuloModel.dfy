/** The cycle-stepped scheduler of tomasulo.c as a function on states.
    An instruction is named by its index in the trace, 1 to |t| - 1: entry 0 is
    the unused slot of the trace, so that 0 stands for the NULL pointer. */
module TomasuloModel {
  import opened NatSets

  const INSTR_QUEUE_SIZE: nat := 16
  const RESERV_INT_SIZE: nat := 5
  const RESERV_FP_SIZE: nat := 3
  const FU_INT_SIZE: nat := 3
  const FU_FP_SIZE: nat := 1
  const FU_INT_LATENCY: nat := 5
  const FU_FP_LATENCY: nat := 7
  const MD_TOTAL_REGS: nat := 70

  /** The opcode flags the scheduler tests; `uncond` is F_CALL or F_UNCOND. */
  datatype Op = Op(icomp: bool, fcomp: bool, load: bool, store: bool, trap: bool, uncond: bool, cond: bool)

  datatype Instr = Instr(op: Op, rOut: seq<int>, rIn: seq<int>)

  type Trace = seq<Instr>

  datatype Unit = Int | Fp | NoUnit

  function UnitOf(i: Instr): Unit {
    if i.op.icomp || i.op.load || i.op.store then Int
    else if i.op.fcomp then Fp
    else NoUnit
  }

  function Latency(u: Unit): nat {
    if u == Fp then FU_FP_LATENCY else FU_INT_LATENCY
  }

  function Stations(u: Unit): nat {
    if u == Fp then RESERV_FP_SIZE else RESERV_INT_SIZE
  }

  function Units(u: Unit): nat {
    if u == Fp then FU_FP_SIZE else FU_INT_SIZE
  }

  /** Control instructions neither read nor update the map table. */
  predicate Tracked(i: Instr) {
    !i.op.uncond && !i.op.cond
  }

  /** Only these ever reach the common data bus. */
  predicate Producer(i: Instr) {
    UnitOf(i) != NoUnit && !i.op.store
  }

  predicate WellFormed(t: Trace) {
    && |t| >= 1
    && (forall i :: 0 <= i < |t| ==>
          && |t[i].rOut| == 2 && |t[i].rIn| == 3
          && t[i].rOut[0] < MD_TOTAL_REGS && t[i].rOut[1] < MD_TOTAL_REGS
          && t[i].rIn[0] < MD_TOTAL_REGS && t[i].rIn[1] < MD_TOTAL_REGS && t[i].rIn[2] < MD_TOTAL_REGS)
    && (|t| > 1 ==> !t[|t| - 1].op.trap)
  }

  /** The mutable half of instruction_t: producers waited for, and the cycle each stage was entered. */
  datatype Progress = Progress(q: seq<nat>, dispatch: nat, issue: nat, execute: nat, cdb: nat)

  const FRESH := Progress([0, 0, 0], 0, 0, 0, 0)

  /** `queue` is newest first; the stations and functional units of both kinds are one set each,
      told apart by the unit an instruction uses. */
  datatype State = State(
    queue: seq<nat>,
    stations: set<nat>,
    units: set<nat>,
    bus: nat,
    table: seq<nat>,
    ins: seq<Progress>,
    fetched: nat)

  predicate Shape(t: Trace, s: State) {
    && |s.ins| == |t|
    && (forall i :: 0 <= i < |s.ins| ==> |s.ins[i].q| == 3)
    && |s.table| == MD_TOTAL_REGS
    && s.fetched < |t|
    && s.bus < |t|
    && (forall x :: x in s.stations ==> 0 < x < |t|)
    && (forall a :: 0 <= a < |s.queue| ==> 0 < s.queue[a] < |t|)
    && s.units <= s.stations
  }

  function OfUnit(t: Trace, s: set<nat>, u: Unit): (o: set<nat>)
    ensures o <= s
  {
    set x | x in s && x < |t| && UnitOf(t[x]) == u
  }

  function Initial(t: Trace): State {
    State([], {}, {}, 0, seq(MD_TOTAL_REGS, _ => 0), seq(|t|, _ => FRESH), 0)
  }

  predicate Done(s: State) {
    && s.queue == [] && s.stations == {} && s.units == {} && s.bus == 0
    && forall r :: 0 <= r < |s.table| ==> s.table[r] == 0
  }

  // ----- CDB_To_retire

  function Cleared(p: nat, bus: nat): nat {
    if p == bus then 0 else p
  }

  function Wake(p: Progress, bus: nat): Progress
    requires |p.q| == 3
  {
    p.(q := [Cleared(p.q[0], bus), Cleared(p.q[1], bus), Cleared(p.q[2], bus)])
  }

  function Retire(t: Trace, s: State): (s': State)
    requires Shape(t, s)
    ensures Shape(t, s')
  {
    if s.bus == 0 then s
    else s.(
      ins := seq(|s.ins|, i requires 0 <= i < |s.ins| => if i in s.stations then Wake(s.ins[i], s.bus) else s.ins[i]),
      table := seq(|s.table|, r requires 0 <= r < |s.table| => Cleared(s.table[r], s.bus)),
      bus := 0)
  }

  // ----- execute_To_CDB

  ghost function Ready(t: Trace, s: State, c: nat): set<nat>
    requires Shape(t, s)
  {
    set x | x in s.units && s.ins[x].execute + Latency(UnitOf(t[x])) <= c
  }

  ghost function ReadyStores(t: Trace, s: State, c: nat): set<nat>
    requires Shape(t, s)
  {
    set x | x in Ready(t, s, c) && t[x].op.store
  }

  ghost function ReadyWriters(t: Trace, s: State, c: nat): set<nat>
    requires Shape(t, s)
  {
    set x | x in Ready(t, s, c) && !t[x].op.store
  }

  /** Every finished store leaves; of the other finished ones the oldest takes the bus. */
  ghost function ToBus(t: Trace, s: State, c: nat): (s': State)
    requires Shape(t, s)
    ensures Shape(t, s')
  {
    var stores, writers := ReadyStores(t, s, c), ReadyWriters(t, s, c);
    if writers == {} then
      s.(stations := s.stations - stores, units := s.units - stores)
    else
      var b := Min(writers);
      s.(stations := s.stations - stores - {b}, units := s.units - stores - {b},
         bus := b, ins := s.ins[b := s.ins[b].(cdb := c)])
  }

  // ----- issue_To_execute

  ghost function Waiting(t: Trace, s: State, u: Unit): set<nat>
    requires Shape(t, s)
  {
    set x | x in s.stations && UnitOf(t[x]) == u && s.ins[x].execute == 0 && s.ins[x].q == [0, 0, 0]
  }

  ghost function Free(t: Trace, s: State, u: Unit): nat {
    if |OfUnit(t, s.units, u)| <= Units(u) then Units(u) - |OfUnit(t, s.units, u)| else 0
  }

  /** The oldest resolved instructions of one kind, as many as there are free units of that kind. */
  ghost function Granted(t: Trace, s: State, u: Unit): (g: set<nat>)
    requires Shape(t, s)
    ensures g <= s.stations
  {
    Oldest(Waiting(t, s, u), Free(t, s, u))
  }

  function StartedAt(ins: seq<Progress>, g: set<nat>, c: nat): (r: seq<Progress>)
    ensures |r| == |ins|
    ensures forall i :: 0 <= i < |ins| ==> r[i] == if i in g then ins[i].(execute := c) else ins[i]
  {
    seq(|ins|, i requires 0 <= i < |ins| => if i in g then ins[i].(execute := c) else ins[i])
  }

  ghost function Grant(t: Trace, s: State, u: Unit, c: nat): (s': State)
    requires Shape(t, s)
    ensures Shape(t, s')
  {
    var g := Granted(t, s, u);
    s.(units := s.units + g, ins := StartedAt(s.ins, g, c))
  }

  ghost function ToExecute(t: Trace, s: State, c: nat): (s': State)
    requires Shape(t, s)
    ensures Shape(t, s')
  {
    Grant(t, Grant(t, s, Int, c), Fp, c)
  }

  // ----- dispatch_To_issue

  function Lookup(table: seq<nat>, r: int, unset: nat): nat
    requires r < |table|
  {
    if r > 0 then table[r] else unset
  }

  function Recorded(table: seq<nat>, r: int, x: nat): (t': seq<nat>)
    requires r < |table|
    ensures |t'| == |table|
  {
    if r > 0 then table[r := x] else table
  }

  predicate Hazard(t: Trace, s: State)
    requires Shape(t, s) && s.queue != []
  {
    var u := UnitOf(t[s.queue[|s.queue| - 1]]);
    u != NoUnit && |OfUnit(t, s.stations, u)| >= Stations(u)
  }

  function Renamed(t: Trace, s: State, x: nat): (s': State)
    requires WellFormed(t) && Shape(t, s) && 0 < x < |t|
    ensures Shape(t, s')
  {
    var i, p := t[x], s.ins[x];
    if !Tracked(i) then s
    else
      s.(ins := s.ins[x := p.(q := [Lookup(s.table, i.rIn[0], p.q[0]),
                                    Lookup(s.table, i.rIn[1], p.q[1]),
                                    Lookup(s.table, i.rIn[2], p.q[2])])],
         table := Recorded(Recorded(s.table, i.rOut[0], x), i.rOut[1], x))
  }

  function ToIssue(t: Trace, s: State, c: nat): (s': State)
    requires WellFormed(t) && Shape(t, s)
    ensures Shape(t, s')
  {
    if s.queue == [] || Hazard(t, s) then s
    else
      var x := s.queue[|s.queue| - 1];
      var s1 :=
        if UnitOf(t[x]) == NoUnit then s
        else s.(stations := s.stations + {x}, ins := s.ins[x := s.ins[x].(issue := c)]);
      Renamed(t, s1, x).(queue := s.queue[..|s.queue| - 1])
  }

  // ----- fetch_To_dispatch

  /** get_instr past the traps, starting from index i. */
  function SkipTraps(t: Trace, i: nat): (x: nat)
    requires WellFormed(t) && 0 < i < |t|
    ensures i <= x < |t| && !t[x].op.trap
    ensures forall j :: i <= j < x ==> t[j].op.trap
    decreases |t| - i
  {
    if t[i].op.trap then SkipTraps(t, i + 1) else i
  }

  function ToDispatch(t: Trace, s: State, c: nat): (s': State)
    requires WellFormed(t) && Shape(t, s)
    ensures Shape(t, s')
  {
    if s.fetched >= |t| - 1 || |s.queue| >= INSTR_QUEUE_SIZE then s
    else
      var x := SkipTraps(t, s.fetched + 1);
      s.(queue := [x] + s.queue, fetched := x, ins := s.ins[x := s.ins[x].(dispatch := c)])
  }

  // ----- one turn of the loop, and whole runs

  ghost function Cycle(t: Trace, s: State, c: nat): (s': State)
    requires WellFormed(t) && Shape(t, s)
    ensures Shape(t, s')
  {
    var s1 := Retire(t, s);
    var s2 := ToBus(t, s1, c);
    var s3 := ToExecute(t, s2, c);
    var s4 := ToIssue(t, s3, c);
    ToDispatch(t, s4, c)
  }

  ghost function StateAfter(t: Trace, k: nat): (s: State)
    requires WellFormed(t)
    ensures Shape(t, s)
  {
    if k == 0 then Initial(t) else Cycle(t, StateAfter(t, k - 1), k)
  }

  /** The loop leaves at the first cycle end that finds the pipeline empty. */
  ghost predicate ExitsAfter(t: Trace, k: nat)
    requires WellFormed(t)
  {
    k >= 1 && Done(StateAfter(t, k)) && forall j :: 1 <= j < k ==> !Done(StateAfter(t, j))
  }

  // ----- the sequential specification

  predicate Writes(i: Instr, r: int)
    requires |i.rOut| == 2
  {
    !i.op.trap && !i.op.uncond && !i.op.cond && r > 0 && (i.rOut[0] == r || i.rOut[1] == r)
  }

  /** The latest writer of r before instruction i in program order, 0 if there is none. */
  function LastWriter(t: Trace, r: int, i: nat): (w: nat)
    requires WellFormed(t) && i <= |t|
    ensures w != 0 ==> w < i && Writes(t[w], r)
    ensures forall j :: w < j < i ==> !Writes(t[j], r)
    decreases i
  {
    if i <= 1 then 0
    else if Writes(t[i - 1], r) then i - 1
    else LastWriter(t, r, i - 1)
  }

  /** The instruction whose result operand k of x must wait for, 0 if none. */
  function Dependence(t: Trace, x: nat, k: nat): (w: nat)
    requires WellFormed(t) && x < |t| && k < 3
    ensures w != 0 ==> w < x && Writes(t[w], t[x].rIn[k])
  {
    var i := t[x];
    if !i.op.uncond && !i.op.cond && i.rIn[k] > 0 then LastWriter(t, i.rIn[k], x) else 0
  }
}
