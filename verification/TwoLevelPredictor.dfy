/** The two-level predictor: per-branch histories of six outcomes select two-bit counters. */
module TwoLevelPredictor {

  const MAX_VALUE: nat := 3
  const BHT_SIZE: nat := 512
  const PHT_TABLES: nat := 8
  const PHT_SIZE: nat := 64

  datatype Tables = Tables(bht: seq<nat>, pht: seq<seq<nat>>)

  ghost predicate TablesOk(t: Tables) {
    && |t.bht| == BHT_SIZE && |t.pht| == PHT_TABLES
    && (forall i :: 0 <= i < PHT_TABLES ==> |t.pht[i]| == PHT_SIZE)
    && (forall i, j :: 0 <= i < PHT_TABLES && 0 <= j < PHT_SIZE ==> t.pht[i][j] <= MAX_VALUE)
  }

  /** (PC & 0xFF8) >> 3 */
  function EntryOf(pc: nat): (i: nat)
    ensures i < BHT_SIZE
  {
    pc / 8 % BHT_SIZE
  }

  /** PC & 0b111 */
  function TableOf(pc: nat): (i: nat)
    ensures i < PHT_TABLES
  {
    pc % PHT_TABLES
  }

  /** The stored history is masked to six bits when it is used. */
  function HistoryIn(t: Tables, pc: nat): (h: nat)
    requires |t.bht| == BHT_SIZE
    ensures h < PHT_SIZE
  {
    t.bht[EntryOf(pc)] % PHT_SIZE
  }

  function CounterOf(t: Tables, pc: nat): nat
    requires TablesOk(t)
  {
    t.pht[TableOf(pc)][HistoryIn(t, pc)]
  }

  /** GetPrediction_2level: whether the branch is predicted taken. */
  function Predict(t: Tables, pc: nat): bool
    requires TablesOk(t)
  {
    CounterOf(t, pc) > 1
  }

  function Saturated(c: nat, taken: bool): (c': nat)
    requires c <= MAX_VALUE
    ensures c' <= MAX_VALUE
  {
    if taken then if c < MAX_VALUE then c + 1 else c else if c > 0 then c - 1 else c
  }

  function Bit(taken: bool): nat {
    if taken then 1 else 0
  }

  /** UpdatePredictor_2level */
  function Update(t: Tables, pc: nat, taken: bool): (t': Tables)
    requires TablesOk(t)
    ensures TablesOk(t')
  {
    var h, i := HistoryIn(t, pc), TableOf(pc);
    var row: seq<nat> := t.pht[i][h := Saturated(t.pht[i][h], taken)];
    Tables(t.bht[EntryOf(pc) := 2 * h + Bit(taken)], t.pht[i := row])
  }

  function Zero(): (t: Tables)
    ensures TablesOk(t)
  {
    Tables(seq(BHT_SIZE, _ => 0), seq(PHT_TABLES, _ => seq(PHT_SIZE, _ => 0)))
  }

  // ----- runs

  datatype Branch = Branch(pc: nat, taken: bool)

  function Run(bs: seq<Branch>): (t: Tables)
    ensures TablesOk(t)
  {
    if bs == [] then Zero()
    else Update(Run(bs[..|bs| - 1]), bs[|bs| - 1].pc, bs[|bs| - 1].taken)
  }

  /** How often branch pc was mispredicted in a run. */
  function Mispredictions(bs: seq<Branch>, pc: nat): nat {
    if bs == [] then 0
    else
      var bs0, b := bs[..|bs| - 1], bs[|bs| - 1];
      Mispredictions(bs0, pc) + if b.pc == pc && Predict(Run(bs0), pc) != b.taken then 1 else 0
  }

  function OutcomesOf(bs: seq<Branch>, pc: nat): seq<bool> {
    if bs == [] then []
    else OutcomesOf(bs[..|bs| - 1], pc) + if bs[|bs| - 1].pc == pc then [bs[|bs| - 1].taken] else []
  }

  /** No other branch of the run has pc's history entry or pc's table of counters. */
  ghost predicate Alone(bs: seq<Branch>, pc: nat) {
    forall i :: 0 <= i < |bs| && bs[i].pc != pc ==>
      bs[i].pc / 8 % 512 != pc / 8 % 512 && bs[i].pc % 8 != pc % 8
  }

  lemma {:induction false} AloneStep(bs: seq<Branch>, pc: nat)
    requires Alone(bs, pc) && |bs| > 0
    ensures Alone(bs[..|bs| - 1], pc)
    ensures var q := bs[|bs| - 1].pc; q != pc ==> EntryOf(q) != EntryOf(pc) && TableOf(q) != TableOf(pc)
  {
  }

  // ----- the history is the last six outcomes

  /** The previous six outcomes, oldest first; before the run all are not taken. */
  function Window(o: seq<bool>): (w: seq<bool>)
    ensures |w| == 6
  {
    var p := [false, false, false, false, false, false] + o;
    p[|p| - 6..]
  }

  function Encode(w: seq<bool>): nat {
    if w == [] then 0 else 2 * Encode(w[..|w| - 1]) + Bit(w[|w| - 1])
  }

  function Decode(h: nat, k: nat): (w: seq<bool>)
    ensures |w| == k
  {
    if k == 0 then [] else Decode(h / 2, k - 1) + [h % 2 == 1]
  }

  lemma {:induction false} DecodeEncode(w: seq<bool>)
    ensures Decode(Encode(w), |w|) == w
  {
    if w != [] { DecodeEncode(w[..|w| - 1]); }
  }

  function Pow2(k: nat): nat {
    if k == 0 then 1 else 2 * Pow2(k - 1)
  }

  lemma {:induction false} EncodeFirst(w: seq<bool>)
    requires |w| > 0
    ensures Encode(w) == Bit(w[0]) * Pow2(|w| - 1) + Encode(w[1..])
    ensures Encode(w[1..]) < Pow2(|w| - 1)
  {
    var n := |w| - 1;
    if n > 0 {
      EncodeFirst(w[..n]);
      assert w[1..][..n - 1] == w[..n][1..];
    } else {
      assert w[..0] == [];
    }
  }

  lemma {:induction false} SixBits()
    ensures Pow2(5) == 32
  {
    assert Pow2(2) == 4;
  }

  lemma {:induction false} WindowShift(o: seq<bool>, taken: bool)
    ensures Window(o + [taken]) == Window(o)[1..] + [taken]
    ensures (2 * Encode(Window(o)) + Bit(taken)) % PHT_SIZE == Encode(Window(o + [taken]))
  {
    var w := Window(o);
    var v := w[1..] + [taken];
    assert Window(o + [taken]) == v;
    EncodeFirst(w);
    SixBits();
    assert v[..5] == w[1..];
    assert Encode(v) == 2 * Encode(w[1..]) + Bit(taken);
    assert 2 * Encode(w) + Bit(taken) == 64 * Bit(w[0]) + Encode(v);
  }

  lemma {:induction false} WindowBound(o: seq<bool>)
    ensures Encode(Window(o)) < PHT_SIZE
  {
    EncodeFirst(Window(o));
    SixBits();
  }

  lemma {:induction false} EmptyWindow()
    ensures Encode(Window([])) == 0
  {
    assert Window([]) == [false, false, false, false, false, false];
    var w := Window([]);
    EncodeFirst(w);
    EncodeFirst(w[1..]);
    EncodeFirst(w[2..]);
    EncodeFirst(w[3..]);
    EncodeFirst(w[4..]);
    EncodeFirst(w[5..]);
    assert w[6..] == [];
    assert w[1..][1..] == w[2..] && w[2..][1..] == w[3..] && w[3..][1..] == w[4..] && w[4..][1..] == w[5..]
        && w[5..][1..] == w[6..];
  }

  lemma {:induction false} RunSize(bs: seq<Branch>)
    ensures TablesOk(Run(bs)) && |Run(bs).bht| == BHT_SIZE && |Run(bs).pht| == PHT_TABLES
  {
  }

  lemma {:induction false} EntryInRange(pc: nat)
    ensures EntryOf(pc) < BHT_SIZE && TableOf(pc) < PHT_TABLES
  {
  }

  /** The masked history register of an unshared branch is its last six outcomes. */
  lemma {:induction false} HistoryIsWindow(bs: seq<Branch>, pc: nat)
    requires Alone(bs, pc)
    ensures HistoryIn(Run(bs), pc) == Encode(Window(OutcomesOf(bs, pc)))
  {
    hide Encode;
    hide Window;
    hide EntryOf;
    hide TableOf;
    hide TablesOk;
    hide Alone;
    if bs != [] {
      var bs0, b := bs[..|bs| - 1], bs[|bs| - 1];
      AloneStep(bs, pc);
      HistoryIsWindow(bs0, pc);
      RunSize(bs0);
      EntryInRange(pc);
      EntryInRange(b.pc);
      if b.pc == pc {
        WindowShift(OutcomesOf(bs0, pc), b.taken);
      } else {
        assert OutcomesOf(bs, pc) == OutcomesOf(bs0, pc);
      }
    } else {
      EntryInRange(pc);
      EmptyWindow();
    }
  }

  // ----- the bound

  /** The outcome of the branch is a function of its six previous outcomes. */
  ghost predicate Determined(o: seq<bool>, f: seq<bool> -> bool) {
    forall i :: 0 <= i < |o| ==> o[i] == f(Window(o[..i]))
  }

  /** What a counter can still cost while its branch keeps going the same way. */
  function Cost(c: nat, taken: bool): nat {
    if taken then if c < 2 then 2 - c else 0 else if c > 1 then c - 1 else 0
  }

  function Potential(row: seq<nat>, f: seq<bool> -> bool, k: nat): nat
    requires k <= |row|
  {
    if k == 0 then 0 else Potential(row, f, k - 1) + Cost(row[k - 1], f(Decode(k - 1, 6)))
  }

  /** A counter changes, and perhaps the way its branch goes. */
  lemma {:induction false} PotentialUpdate(row: seq<nat>, f: seq<bool> -> bool, f': seq<bool> -> bool,
                                           k: nat, h: nat, c: nat)
    requires k <= |row| && h < |row|
    requires forall j :: 0 <= j < |row| && j != h ==> f'(Decode(j, 6)) == f(Decode(j, 6))
    ensures Potential(row[h := c], f', k)
            == if h < k then Potential(row, f, k) - Cost(row[h], f(Decode(h, 6))) + Cost(c, f'(Decode(h, 6)))
               else Potential(row, f, k)
  {
    if k > 0 {
      var j := k - 1;
      PotentialUpdate(row, f, f', j, h, c);
      assert j != h ==> f'(Decode(j, 6)) == f(Decode(j, 6));
    }
  }

  lemma {:induction false} PotentialBound(row: seq<nat>, f: seq<bool> -> bool, k: nat)
    requires k <= |row| && forall h :: 0 <= h < |row| ==> row[h] <= MAX_VALUE
    ensures Potential(row, f, k) <= 2 * k
  {
    if k > 0 { PotentialBound(row, f, k - 1); }
  }

  /** Counters of histories after which the branch is not taken never leave zero. */
  ghost predicate Settled(row: seq<nat>, f: seq<bool> -> bool) {
    forall h :: 0 <= h < |row| && !f(Decode(h, 6)) ==> row[h] == 0
  }

  lemma {:induction false} DeterminedStep(o: seq<bool>, taken: bool, f: seq<bool> -> bool)
    requires Determined(o + [taken], f)
    ensures Determined(o, f) && taken == f(Window(o))
  {
    var p := o + [taken];
    assert p[..|o|] == o && p[|o|] == taken;
    forall i | 0 <= i < |o| ensures o[i] == f(Window(o[..i])) {
      assert p[..i] == o[..i] && p[i] == o[i];
    }
  }

  /** One outcome of the branch after history h: a misprediction uses up one unit of potential, nothing else changes
      it. */
  lemma {:induction false} CounterStep(row: seq<nat>, f: seq<bool> -> bool, h: nat, taken: bool)
    requires |row| == PHT_SIZE && h < PHT_SIZE && row[h] <= MAX_VALUE && Settled(row, f) && taken == f(Decode(h, 6))
    ensures var row' := row[h := Saturated(row[h], taken)];
            && Settled(row', f)
            && Potential(row', f, PHT_SIZE) + (if (row[h] > 1) != taken then 1 else 0) == Potential(row, f, PHT_SIZE)
  {
    hide Decode;
    hide Potential;
    PotentialUpdate(row, f, f, PHT_SIZE, h, Saturated(row[h], taken));
  }

  /** The counters of pc's table in a run. */
  function RowOf(bs: seq<Branch>, pc: nat): (row: seq<nat>)
    ensures |row| == PHT_SIZE && forall h :: 0 <= h < PHT_SIZE ==> row[h] <= MAX_VALUE
  {
    Run(bs).pht[TableOf(pc)]
  }

  lemma {:induction false} RowStep(bs: seq<Branch>, pc: nat)
    requires |bs| > 0
    ensures var bs0, b := bs[..|bs| - 1], bs[|bs| - 1];
            var h := HistoryIn(Run(bs0), pc);
            && (b.pc == pc ==> RowOf(bs, pc) == RowOf(bs0, pc)[h := Saturated(RowOf(bs0, pc)[h], b.taken)]
                               && (Predict(Run(bs0), pc) <==> RowOf(bs0, pc)[h] > 1))
            && (TableOf(b.pc) != TableOf(pc) ==> RowOf(bs, pc) == RowOf(bs0, pc))
  {
  }

  /** Mispredictions so far and the remaining potential always add up to the potential at the start. */
  lemma {:induction false} Conserved(bs: seq<Branch>, pc: nat, f: seq<bool> -> bool)
    requires Alone(bs, pc) && Determined(OutcomesOf(bs, pc), f)
    ensures Settled(RowOf(bs, pc), f)
    ensures Mispredictions(bs, pc) + Potential(RowOf(bs, pc), f, PHT_SIZE) == Potential(RowOf([], pc), f, PHT_SIZE)
  {
    hide RowOf;
    hide Potential;
    hide Settled;
    hide Decode;
    hide Encode;
    hide Window;
    hide Predict;
    hide HistoryIn;
    hide Run;
    hide TableOf;
    hide EntryOf;
    hide Alone;
    if bs != [] {
      var bs0, b := bs[..|bs| - 1], bs[|bs| - 1];
      AloneStep(bs, pc);
      RowStep(bs, pc);
      RowRange(bs0, pc);
      if b.pc == pc {
        var o := OutcomesOf(bs0, pc);
        DeterminedStep(o, b.taken, f);
        Conserved(bs0, pc, f);
        HistoryIsWindow(bs0, pc);
        DecodeEncode(Window(o));
        WindowBound(o);
        WindowSize(o);
        CounterStep(RowOf(bs0, pc), f, HistoryIn(Run(bs0), pc), b.taken);
      } else {
        assert OutcomesOf(bs, pc) == OutcomesOf(bs0, pc);
        Conserved(bs0, pc, f);
      }
    } else {
      NothingLearned(pc, f);
    }
  }

  lemma {:induction false} RowRange(bs: seq<Branch>, pc: nat)
    ensures |RowOf(bs, pc)| == PHT_SIZE && forall h :: 0 <= h < PHT_SIZE ==> RowOf(bs, pc)[h] <= MAX_VALUE
    ensures TablesOk(Run(bs))
  {
  }

  lemma {:induction false} WindowSize(o: seq<bool>)
    ensures |Window(o)| == 6
  {
  }

  lemma {:induction false} NothingLearned(pc: nat, f: seq<bool> -> bool)
    ensures Settled(RowOf([], pc), f)
  {
  }

  /** A branch whose outcomes are a function of their last six is mispredicted at most 128 times, however long the
      run. */
  lemma {:induction false} AtMost128(bs: seq<Branch>, pc: nat, f: seq<bool> -> bool)
    requires Alone(bs, pc) && Determined(OutcomesOf(bs, pc), f)
    ensures Mispredictions(bs, pc) <= 128
  {
    Conserved(bs, pc, f);
    PotentialBound(RowOf([], pc), f, PHT_SIZE);
  }

  // ----- arbitrary outcomes

  /** What the branch did after the history w, in order. */
  function Following(o: seq<bool>, w: seq<bool>): seq<bool> {
    if o == [] then []
    else
      var o0 := o[..|o| - 1];
      Following(o0, w) + if Window(o0) == w then [o[|o| - 1]] else []
  }

  /** A two-bit counter that has seen the outcomes f. */
  function Counted(f: seq<bool>): (c: nat)
    ensures c <= MAX_VALUE
  {
    if f == [] then 0 else Saturated(Counted(f[..|f| - 1]), f[|f| - 1])
  }

  lemma {:induction false} EncodeBound(w: seq<bool>)
    requires |w| == 6
    ensures Encode(w) < PHT_SIZE && Decode(Encode(w), 6) == w
  {
    DecodeEncode(w);
    EncodeFirst(w);
    SixBits();
  }

  /** The counter of a history has seen exactly what followed that history. */
  lemma {:induction false} CounterFollows(bs: seq<Branch>, pc: nat, w: seq<bool>)
    requires Alone(bs, pc) && |w| == 6
    ensures Encode(w) < PHT_SIZE && RowOf(bs, pc)[Encode(w)] == Counted(Following(OutcomesOf(bs, pc), w))
  {
    hide RowOf;
    hide Decode;
    hide Encode;
    hide Window;
    hide HistoryIn;
    hide Run;
    hide TableOf;
    hide EntryOf;
    hide Saturated;
    hide Alone;
    hide Following;
    hide Counted;
    EncodeBound(w);
    RowRange(bs, pc);
    if bs == [] {
      NothingFollows(pc, w);
    } else {
      var bs0, b := bs[..|bs| - 1], bs[|bs| - 1];
      AloneStep(bs, pc);
      RowStep(bs, pc);
      RowRange(bs0, pc);
      CounterFollows(bs0, pc, w);
      var o := OutcomesOf(bs0, pc);
      if b.pc == pc {
        HistoryIsWindow(bs0, pc);
        WindowSize(o);
        EncodeBound(Window(o));
        FollowingStep(o, b.taken, w);
        CountedStep(Following(o, w), b.taken);
      } else {
        assert OutcomesOf(bs, pc) == o;
      }
    }
  }

  lemma {:induction false} NothingFollows(pc: nat, w: seq<bool>)
    requires Encode(w) < PHT_SIZE
    ensures RowOf([], pc)[Encode(w)] == 0 && Counted(Following(OutcomesOf([], pc), w)) == 0
  {
    hide Encode;
  }

  lemma {:induction false} FollowingStep(o: seq<bool>, taken: bool, w: seq<bool>)
    ensures Following(o + [taken], w) == if Window(o) == w then Following(o, w) + [taken] else Following(o, w)
  {
    hide Window;
    assert (o + [taken])[..|o|] == o;
  }

  lemma {:induction false} CountedStep(f: seq<bool>, taken: bool)
    ensures Counted(f + [taken]) == Saturated(Counted(f), taken)
  {
    hide Saturated;
    assert (f + [taken])[..|f|] == f;
  }

  /** What followed the history the branch has now. */
  function SoFar(bs: seq<Branch>, pc: nat): seq<bool> {
    Following(OutcomesOf(bs, pc), Window(OutcomesOf(bs, pc)))
  }

  lemma {:induction false} PredictsCounted(bs: seq<Branch>, pc: nat)
    requires Alone(bs, pc)
    ensures Predict(Run(bs), pc) <==> Counted(SoFar(bs, pc)) > 1
  {
    hide Encode;
    hide Window;
    hide Run;
    hide Counted;
    hide Following;
    HistoryIsWindow(bs, pc);
    CounterFollows(bs, pc, Window(OutcomesOf(bs, pc)));
  }

  lemma {:induction false} CountedLast(f: seq<bool>)
    requires f != []
    ensures Counted(f) == Saturated(Counted(f[..|f| - 1]), f[|f| - 1])
  {
    hide Saturated;
  }

  /** Whatever an unshared branch has done: when it went the same way the last two times after its present history
      it is predicted to go that way again, and before the first time to be not taken. */
  lemma {:induction false} TwoOutcomesDecide(bs: seq<Branch>, pc: nat, b: bool)
    requires Alone(bs, pc)
    ensures var f := SoFar(bs, pc);
            && (|f| >= 2 && f[|f| - 1] == b && f[|f| - 2] == b ==> Predict(Run(bs), pc) == b)
            && (|f| == 0 ==> !Predict(Run(bs), pc))
  {
    hide Alone;
    hide Predict;
    hide Run;
    hide Following;
    hide Counted;
    PredictsCounted(bs, pc);
    var f := SoFar(bs, pc);
    if |f| >= 2 {
      CountedLast(f);
      CountedLast(f[..|f| - 1]);
      assert f[..|f| - 1][|f| - 2] == f[|f| - 2];
    } else if f == [] {
      CountedNone();
    }
  }

  lemma {:induction false} CountedNone()
    ensures Counted([]) == 0
  {
  }

  /** and after three times the same way one outcome the other way does not change the prediction. */
  lemma {:induction false} OneOutcomeForgiven(bs: seq<Branch>, pc: nat, b: bool)
    requires Alone(bs, pc)
    requires var f := SoFar(bs, pc);
             |f| >= 4 && f[|f| - 4..] == [b, b, b, !b]
    ensures Predict(Run(bs), pc) == b
  {
    hide Alone;
    hide Predict;
    hide Run;
    hide Following;
    hide Counted;
    PredictsCounted(bs, pc);
    var f := SoFar(bs, pc);
    var n := |f|;
    assert f[n - 4] == b && f[n - 3] == b && f[n - 2] == b && f[n - 1] == !b;
    var f1, f2, f3 := f[..n - 1], f[..n - 2], f[..n - 3];
    CountedLast(f);
    CountedLast(f1);
    assert f1[..n - 2] == f2;
    CountedLast(f2);
    assert f2[..n - 3] == f3;
    CountedLast(f3);
  }

  /** What the branch did the last time after history w; not taken when there was no such time. */
  function Latest(o: seq<bool>, w: seq<bool>): bool {
    var f := Following(o, w);
    f != [] && f[|f| - 1]
  }

  /** How often the branch did not do what it had done the last time after the same history. */
  function Changes(o: seq<bool>): nat {
    if o == [] then 0
    else
      var o0 := o[..|o| - 1];
      Changes(o0) + if o[|o| - 1] != Latest(o0, Window(o0)) then 1 else 0
  }

  lemma {:induction false} ChangesStep(o: seq<bool>, taken: bool)
    ensures Changes(o + [taken]) == Changes(o) + if taken != Latest(o, Window(o)) then 1 else 0
  {
    hide Latest;
    hide Window;
    assert (o + [taken])[..|o|] == o;
  }

  lemma {:induction false} LatestStep(o: seq<bool>, taken: bool, w: seq<bool>)
    ensures Latest(o + [taken], w) == if Window(o) == w then taken else Latest(o, w)
  {
    hide Window;
    FollowingStep(o, taken, w);
  }

  /** One outcome: a misprediction is paid for by the counter's potential or, two at most, by a change. */
  lemma {:induction false} ChangeStep(row: seq<nat>, f: seq<bool> -> bool, f': seq<bool> -> bool, h: nat, taken: bool)
    requires |row| == PHT_SIZE && h < PHT_SIZE && row[h] <= MAX_VALUE && f'(Decode(h, 6)) == taken
    requires forall j :: 0 <= j < |row| && j != h ==> f'(Decode(j, 6)) == f(Decode(j, 6))
    ensures var row' := row[h := Saturated(row[h], taken)];
            Potential(row', f', PHT_SIZE) + (if (row[h] > 1) != taken then 1 else 0)
            <= Potential(row, f, PHT_SIZE) + if taken != f(Decode(h, 6)) then 2 else 0
  {
    hide Decode;
    hide Potential;
    PotentialUpdate(row, f, f', PHT_SIZE, h, Saturated(row[h], taken));
  }

  /** An unshared branch is mispredicted at most twice for every time it does not repeat what it did the last time
      after the same history, in every run and whatever its outcomes. */
  lemma {:induction false} TwoPerChange(bs: seq<Branch>, pc: nat)
    requires Alone(bs, pc)
    ensures Mispredictions(bs, pc) <= 2 * Changes(OutcomesOf(bs, pc))
  {
    ChangesPay(bs, pc);
  }

  lemma {:induction false} ChangesPay(bs: seq<Branch>, pc: nat)
    requires Alone(bs, pc)
    ensures var o := OutcomesOf(bs, pc);
            Mispredictions(bs, pc) + Potential(RowOf(bs, pc), w => Latest(o, w), PHT_SIZE) <= 2 * Changes(o)
  {
    hide RowOf;
    hide Potential;
    hide Decode;
    hide Encode;
    hide Window;
    hide Predict;
    hide HistoryIn;
    hide Run;
    hide TableOf;
    hide EntryOf;
    hide Latest;
    hide Changes;
    hide Saturated;
    hide Alone;
    if bs == [] {
      NoChanges(pc);
    } else {
      var bs0, b := bs[..|bs| - 1], bs[|bs| - 1];
      var o := OutcomesOf(bs0, pc);
      AloneStep(bs, pc);
      ChangesPay(bs0, pc);
      RowStep(bs, pc);
      RowRange(bs0, pc);
      if b.pc == pc {
        var o' := o + [b.taken];
        HistoryIsWindow(bs0, pc);
        WindowSize(o);
        EncodeBound(Window(o));
        ChangesStep(o, b.taken);
        LatestElsewhere(o, b.taken);
        LatestStep(o, b.taken, Window(o));
        ChangeStep(RowOf(bs0, pc), w => Latest(o, w), w => Latest(o', w), HistoryIn(Run(bs0), pc), b.taken);
      } else {
        assert OutcomesOf(bs, pc) == o;
      }
    }
  }

  lemma {:induction false} LatestElsewhere(o: seq<bool>, taken: bool)
    ensures forall j :: 0 <= j < PHT_SIZE && j != Encode(Window(o)) ==>
              Latest(o + [taken], Decode(j, 6)) == Latest(o, Decode(j, 6))
  {
    forall j | 0 <= j < PHT_SIZE && j != Encode(Window(o))
      ensures Latest(o + [taken], Decode(j, 6)) == Latest(o, Decode(j, 6)) {
      LatestStep(o, taken, Decode(j, 6));
      EncodeDecode(j, 6, 64);
    }
  }

  lemma {:induction false} EncodeMore(w: seq<bool>, b: bool)
    ensures Encode(w + [b]) == 2 * Encode(w) + Bit(b)
  {
    assert (w + [b])[..|w|] == w;
  }

  lemma {:induction false} DecodeMore(h: nat, k: nat)
    requires k > 0
    ensures Decode(h, k) == Decode(h / 2, k - 1) + [h % 2 == 1]
  {
  }

  lemma {:induction false} EncodeDecode(h: nat, k: nat, p: nat)
    requires p == Pow2(k) && h < p
    ensures Encode(Decode(h, k)) == h
  {
    if k == 0 {
      assert Decode(h, 0) == [];
    } else {
      hide Encode;
      hide Decode;
      EncodeDecode(h / 2, k - 1, Pow2(k - 1));
      DecodeMore(h, k);
      EncodeMore(Decode(h / 2, k - 1), h % 2 == 1);
    }
  }

  lemma {:induction false} NoChanges(pc: nat)
    ensures Mispredictions([], pc) + Potential(RowOf([], pc), w => Latest(OutcomesOf([], pc), w), PHT_SIZE) == 0
    ensures Changes(OutcomesOf([], pc)) == 0
  {
    ZeroCosts(RowOf([], pc), w => Latest(OutcomesOf([], pc), w), PHT_SIZE);
  }

  lemma {:induction false} ZeroCosts(row: seq<nat>, f: seq<bool> -> bool, k: nat)
    requires k <= |row| && forall h :: 0 <= h < k ==> row[h] == 0 && !f(Decode(h, 6))
    ensures Potential(row, f, k) == 0
  {
    if k > 0 { ZeroCosts(row, f, k - 1); }
  }

  // ----- the tables in place

  class Predictor {
    const bht: array<nat>
    const pht: array2<nat>

    /** The arrays hold the tables t. */
    ghost predicate Holds(t: Tables)
      reads bht, pht
    {
      && TablesOk(t) && bht.Length == BHT_SIZE && pht.Length0 == PHT_TABLES && pht.Length1 == PHT_SIZE
      && bht[..] == t.bht
      && forall i, j :: 0 <= i < PHT_TABLES && 0 <= j < PHT_SIZE ==> pht[i, j] == t.pht[i][j]
    }

    constructor ()
      ensures fresh(bht) && fresh(pht) && Holds(Zero())
    {
      bht := new nat[BHT_SIZE](_ => 0);
      pht := new nat[PHT_TABLES, PHT_SIZE]((_, _) => 0);
    }

    method GetPrediction(pc: nat, ghost t: Tables) returns (taken: bool)
      requires Holds(t)
      ensures taken == Predict(t, pc)
    {
      var history := bht[pc / 8 % 512] % 64;
      var prediction := pht[pc % 8, history];
      taken := prediction > 1;
    }

    method UpdatePredictor(pc: nat, taken: bool, ghost t: Tables)
      requires Holds(t)
      modifies bht, pht
      ensures Holds(Update(t, pc, taken))
    {
      var history := bht[pc / 8 % 512] % 64;
      var table := pc % 8;
      var predicted := pht[table, history];
      pht[table, history] := Saturated(predicted, taken);
      bht[pc / 8 % 512] := 2 * history + Bit(taken);
    }

    /** A run of one predict-then-update per branch, counting the mispredictions of pc. */
    method Simulate(bs: seq<Branch>, pc: nat) returns (missed: nat)
      requires Holds(Zero())
      modifies bht, pht
      ensures Holds(Run(bs)) && missed == Mispredictions(bs, pc)
    {
      hide Predict;
      hide Update;
      hide Zero;
      hide TablesOk;
      missed := 0;
      var i := 0;
      while i < |bs|
        invariant i <= |bs| && Holds(Run(bs[..i])) && missed == Mispredictions(bs[..i], pc)
      {
        assert bs[..i + 1][..i] == bs[..i];
        var b := bs[i];
        var predicted := GetPrediction(b.pc, Run(bs[..i]));
        if b.pc == pc && predicted != b.taken {
          missed := missed + 1;
        }
        UpdatePredictor(b.pc, b.taken, Run(bs[..i]));
        i := i + 1;
      }
      assert bs[..i] == bs;
    }
  }
}
