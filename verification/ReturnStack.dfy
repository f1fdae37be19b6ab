/** The return-address stack of bpred.c, a circular buffer that forgets its oldest frames. */
module ReturnStack {
  import opened Arithmetic

  const INST_SIZE: nat := 8

  /** The lookups that touch the stack: a call at an address, or a return. */
  datatype Event = Call(addr: nat) | Return

  /** The address after a call, in 32 bits. */
  function After(addr: nat): nat {
    (addr + INST_SIZE) % WORD
  }

  /** tos is -1 when there is no stack at all. */
  datatype Ras = Ras(stack: seq<nat>, tos: int)

  predicate RasOk(s: Ras) {
    -1 <= s.tos < |s.stack| && (|s.stack| > 0 ==> s.tos >= 0)
  }

  /** bpred_create; calloc clears the entries. */
  function Initial(size: nat): Ras {
    Ras(seq(size, _ => 0), size - 1)
  }

  function Step(s: Ras, e: Event): (s': Ras)
    requires RasOk(s)
    ensures RasOk(s') && |s'.stack| == |s.stack|
  {
    var size := |s.stack|;
    if size == 0 then s
    else
      match e
      case Call(a) => var tos := (s.tos + 1) % size; Ras(s.stack[tos := After(a)], tos)
      case Return => s.(tos := (s.tos + size - 1) % size)
  }

  function Run(s: Ras, h: seq<Event>): (s': Ras)
    requires RasOk(s)
    ensures RasOk(s') && |s'.stack| == |s.stack|
  {
    if h == [] then s else Step(Run(s, h[..|h| - 1]), h[|h| - 1])
  }

  /** What a return is predicted to go to. */
  function Predicted(s: Ras): nat
    requires RasOk(s) && |s.stack| > 0
  {
    s.stack[s.tos]
  }

  /** Calls minus returns. */
  function Height(h: seq<Event>): int {
    if h == [] then 0 else Height(h[..|h| - 1]) + if h[|h| - 1].Call? then 1 else -1
  }

  // ----- where the top of the stack is

  lemma {:induction false} ModStep(x: int, n: nat, d: int)
    requires n > 0
    ensures (x % n + d) % n == (x + d) % n
  {
    var q := x / n;
    assert x == q * n + x % n;
    ModShift(x % n + d, n, q);
    assert x + d == x % n + d + q * n;
  }

  lemma {:induction false} ModShift(y: int, n: nat, q: int)
    requires n > 0
    ensures (y + q * n) % n == y % n
  {
    var a, b := y / n, (y + q * n) / n;
    assert y == a * n + y % n;
    assert y + q * n == b * n + (y + q * n) % n;
    assert (a + q - b) * n == (y + q * n) % n - y % n;
    MultipleOutside(a + q - b, n);
  }

  /** One lookup moves the top by one, around the circle. */
  lemma {:induction false} TopStep(s: Ras, x: int, x': int, e: Event)
    requires RasOk(s) && |s.stack| > 0 && s.tos == x % |s.stack| && x' == x + if e.Call? then 1 else -1
    ensures Step(s, e).tos == x' % |s.stack|
  {
    var n := |s.stack|;
    if e.Call? {
      ModStep(x, n, 1);
    } else {
      ModStep(x, n, n - 1);
      ModShift(x - 1, n, 1);
    }
  }

  lemma {:induction false} TopNow(s: Ras, x: int)
    requires RasOk(s) && |s.stack| > 0 && x == s.tos
    ensures s.tos == x % |s.stack|
  {
  }

  lemma {:induction false} TopAfter(s: Ras, h: seq<Event>)
    requires RasOk(s) && |s.stack| > 0
    ensures Run(s, h).tos == (s.tos + Height(h)) % |s.stack|
  {
    hide Step;
    if h == [] {
      TopNow(s, s.tos + Height(h));
    } else {
      var h0, e := h[..|h| - 1], h[|h| - 1];
      var x, x' := s.tos + Height(h0), s.tos + Height(h);
      assert Run(s, h) == Step(Run(s, h0), e) && x' == x + if e.Call? then 1 else -1;
      hide Height;
      hide RasOk;
      RunSize(s, h0);
      TopAfter(s, h0);
      hide Run;
      TopStep(Run(s, h0), x, x', e);
    }
  }

  lemma {:induction false} RunSize(s: Ras, h: seq<Event>)
    requires RasOk(s)
    ensures RasOk(Run(s, h)) && |Run(s, h).stack| == |s.stack|
  {
  }

  // ----- what the stack holds

  /** The address of the last call of h that landed on a slot, if any. */
  datatype Found = Nobody | Caller(addr: nat)

  function LastOn(h: seq<Event>, slot: nat, tos: int, size: nat): Found
    requires size > 0
  {
    if h == [] then Nobody
    else
      var h0, e := h[..|h| - 1], h[|h| - 1];
      if e.Call? && (tos + Height(h)) % size == slot then Caller(e.addr) else LastOn(h0, slot, tos, size)
  }

  /** A slot holds the return address of the last call that landed on it. */
  lemma {:induction false} SlotHoldsLast(s: Ras, h: seq<Event>, slot: nat)
    requires RasOk(s) && slot < |s.stack|
    ensures Run(s, h).stack[slot]
            == match LastOn(h, slot, s.tos, |s.stack|)
               case Caller(a) => After(a)
               case Nobody => s.stack[slot]
  {
    if h != [] {
      TopAfter(s, h);
      SlotHoldsLast(s, h[..|h| - 1], slot);
      hide Height;
      hide After;
    }
  }

  /** So a return is predicted, in every run, as the address after the last call made at its own depth modulo the
      size. */
  lemma {:induction false} PredictsLastAtDepth(s: Ras, h: seq<Event>)
    requires RasOk(s) && |s.stack| > 0
    ensures Predicted(Run(s, h))
            == match LastOn(h, (s.tos + Height(h)) % |s.stack|, s.tos, |s.stack|)
               case Caller(a) => After(a)
               case Nobody => s.stack[(s.tos + Height(h)) % |s.stack|]
  {
    TopAfter(s, h);
    SlotHoldsLast(s, h, Run(s, h).tos);
  }

  // ----- nested calls

  /** w is well nested: every return has its call in w and every call its return. */
  ghost predicate Nested(w: seq<Event>) {
    Height(w) == 0 && forall i :: 0 <= i <= |w| ==> Height(w[..i]) >= 0
  }

  /** No point of w is deeper than d. */
  ghost predicate Within(w: seq<Event>, d: int) {
    forall i :: 0 <= i <= |w| ==> Height(w[..i]) <= d
  }

  lemma {:induction false} HeightJoin(a: seq<Event>, b: seq<Event>)
    ensures Height(a + b) == Height(a) + Height(b)
  {
    if b == [] {
      assert a + b == a;
    } else {
      HeightJoin(a, b[..|b| - 1]);
      assert (a + b)[..|a + b| - 1] == a + b[..|b| - 1];
    }
  }

  lemma {:induction false} NotSameSlot(x: int, k: int, n: nat)
    requires n > 0 && 0 < k < n
    ensures (x + k) % n != x % n
  {
    if (x + k) % n == x % n {
      var a, b := (x + k) / n, x / n;
      assert x + k == a * n + x % n && x == b * n + x % n;
      assert (a - b) * n == k;
      MultipleOutside(a - b, n);
    }
  }

  /** The calls inside a nested stretch that is shallow enough never land on the slot of the call before it. */
  lemma {:induction false} InnerCallsElsewhere(pre: seq<Event>, w: seq<Event>, k: nat, tos: int, size: nat)
    requires size > 0 && k <= |w| && Within(w, size - 1)
    requires forall i :: 0 <= i <= |w| ==> Height(w[..i]) >= 0
    ensures LastOn(pre + w[..k], (tos + Height(pre)) % size, tos, size)
            == LastOn(pre, (tos + Height(pre)) % size, tos, size)
  {
    var slot := (tos + Height(pre)) % size;
    var h := pre + w[..k];
    if k == 0 {
      assert h == pre;
    } else {
      assert h[..|h| - 1] == pre + w[..k - 1];
      InnerCallsElsewhere(pre, w, k - 1, tos, size);
      if h[|h| - 1].Call? {
        HeightJoin(pre, w[..k]);
        assert w[..k][..k - 1] == w[..k - 1];
        assert Height(w[..k]) == Height(w[..k - 1]) + 1;
        NotSameSlot(tos + Height(pre), Height(w[..k]), size);
      }
    }
  }

  /** A return is predicted as the address after its matching call whenever the nesting from that call on,
      the call included, never exceeded the size of the stack: whatever came before, and whatever
      outer frames were lost. */
  lemma {:induction false} MatchingReturnPredicted(s: Ras, before: seq<Event>, a: nat, inner: seq<Event>)
    requires RasOk(s) && |s.stack| > 0
    requires Nested(inner) && Within(inner, |s.stack| - 1)
    ensures Predicted(Run(s, before + [Call(a)] + inner)) == (a + 8) % 0x1_0000_0000
  {
    var pre := before + [Call(a)];
    var h, n := pre + inner, |s.stack|;
    PredictsLastAtDepth(s, h);
    HeightJoin(pre, inner);
    InnerCallsElsewhere(pre, inner, |inner|, s.tos, n);
    assert inner[..|inner|] == inner;
    assert pre[|pre| - 1] == Call(a);
  }

  /** Heights stay between two bounds throughout. */
  ghost predicate Between(w: seq<Event>, low: int, high: int) {
    forall i :: 0 <= i <= |w| ==> low <= Height(w[..i]) <= high
  }

  /** bpred_recover: the top is reset to where it was before a stretch that was squashed. */
  function Recovered(s: Ras, w: seq<Event>): Ras
    requires RasOk(s)
  {
    Run(s, w).(tos := s.tos)
  }

  lemma {:induction false} LandsBetween(w: seq<Event>, k: nat, low: int, high: int, tos: int, size: nat, i: nat)
    requires size > 0 && Between(w, low, high) && i <= |w|
    requires -low <= k && high + k < size
    ensures LastOn(w[..i], (tos - k) % size, tos, size) == Nobody
  {
    if i > 0 {
      LandsBetween(w, k, low, high, tos, size, i - 1);
      assert w[..i][..i - 1] == w[..i - 1];
      if w[i - 1].Call? {
        assert Height(w[..i]) == Height(w[..i - 1]) + 1;
        NotSameSlot(tos - k, Height(w[..i]) + k, size);
      }
    }
  }

  /** Squashing leaves a frame as it was when the squashed stretch neither returned out of the frame nor
      nested deep enough to come round to it: frame k counts from the top, low and high bound the nesting. */
  lemma {:induction false} SquashKeepsFrame(s: Ras, w: seq<Event>, k: nat, low: int, high: int)
    requires RasOk(s) && |s.stack| > 0 && Between(w, low, high) && -low <= k && high + k < |s.stack|
    ensures RasOk(Recovered(s, w)) && Recovered(s, w).tos == s.tos
    ensures Recovered(s, w).stack[(s.tos - k) % |s.stack|] == s.stack[(s.tos - k) % |s.stack|]
  {
    LandsBetween(w, k, low, high, s.tos, |s.stack|, |w|);
    assert w[..|w|] == w;
    SlotHoldsLast(s, w, (s.tos - k) % |s.stack|);
  }

  /** Call i of the stretch pushes onto the slot. */
  predicate Lands(s: Ras, w: seq<Event>, i: nat, slot: nat)
    requires |s.stack| > 0 && i < |w|
  {
    w[i].Call? && (s.tos + Height(w[..i + 1])) % |s.stack| == slot
  }

  /** Call i is the last one of the stretch that pushes onto the slot. */
  ghost predicate LandsLast(s: Ras, w: seq<Event>, i: nat, slot: nat)
    requires |s.stack| > 0 && i < |w|
  {
    Lands(s, w, i, slot) && forall j :: i < j < |w| ==> !Lands(s, w, j, slot)
  }

  lemma {:induction false} LandsEarlier(s: Ras, w: seq<Event>, slot: nat)
    requires |s.stack| > 0 && |w| > 0
    ensures forall i :: 0 <= i < |w| - 1 ==> (Lands(s, w[..|w| - 1], i, slot) <==> Lands(s, w, i, slot))
  {
    hide Height;
    var v := w[..|w| - 1];
    forall i | 0 <= i < |v| ensures Lands(s, v, i, slot) <==> Lands(s, w, i, slot) {
      assert v[..i + 1] == w[..i + 1];
    }
  }

  /** LastOn names the last call that lands on the slot. */
  lemma {:induction false} LastLanding(s: Ras, w: seq<Event>, slot: nat) returns (i: int)
    requires RasOk(s) && |s.stack| > 0
    ensures -1 <= i < |w|
    ensures i < 0 ==> LastOn(w, slot, s.tos, |s.stack|) == Nobody && forall j :: 0 <= j < |w| ==> !Lands(s, w, j, slot)
    ensures i >= 0 ==> LandsLast(s, w, i, slot) && LastOn(w, slot, s.tos, |s.stack|) == Caller(w[i].addr)
  {
    if w == [] {
      i := -1;
    } else {
      var n := |w| - 1;
      assert w[..n + 1] == w;
      if Lands(s, w, n, slot) {
        i := n;
      } else {
        i := LastLanding(s, w[..n], slot);
        LandsEarlier(s, w, slot);
        hide Lands;
      }
    }
  }

  /** Recovery leaves a slot as it was before the squashed stretch exactly when no call of the stretch lands on it,
      or the last one that does happens to push the address that was there. */
  lemma {:induction false} SquashExactly(s: Ras, w: seq<Event>, slot: nat)
    requires RasOk(s) && slot < |s.stack|
    ensures Recovered(s, w).stack[slot] == s.stack[slot] <==>
              || (forall i :: 0 <= i < |w| ==> !Lands(s, w, i, slot))
              || (exists i :: 0 <= i < |w| && LandsLast(s, w, i, slot) && After(w[i].addr) == s.stack[slot])
  {
    hide Run;
    hide Lands;
    RunSize(s, w);
    SlotHoldsLast(s, w, slot);
    var k := LastLanding(s, w, slot);
    if i :| 0 <= i < |w| && LandsLast(s, w, i, slot) {
      assert i == k;
    }
  }

  /** So the next return is predicted as it was before the wrong path exactly under this condition on the top slot. */
  lemma {:induction false} SquashedPrediction(s: Ras, w: seq<Event>)
    requires RasOk(s) && |s.stack| > 0
    ensures RasOk(Recovered(s, w)) && |Recovered(s, w).stack| == |s.stack|
    ensures Predicted(Recovered(s, w)) == Predicted(s) <==>
              || (forall i :: 0 <= i < |w| ==> !Lands(s, w, i, s.tos))
              || (exists i :: 0 <= i < |w| && LandsLast(s, w, i, s.tos) && After(w[i].addr) == Predicted(s))
  {
    hide Run;
    hide Lands;
    RunSize(s, w);
    SquashExactly(s, w, s.tos);
  }

  /** A squashed return followed by a call overwrites the top frame, although the top is reset. */
  lemma {:induction false} SquashCanCorrupt(s: Ras, b: nat)
    requires RasOk(s) && |s.stack| > 0
    ensures Recovered(s, [Return, Call(b)]).tos == s.tos
    ensures Predicted(Recovered(s, [Return, Call(b)])) == After(b)
  {
    hide Run;
    hide After;
    var w := [Return, Call(b)];
    TwoHeights(b);
    RunSize(s, w);
    SlotHoldsLast(s, w, s.tos);
  }

  lemma {:induction false} TwoHeights(b: nat)
    ensures Height([Return, Call(b)]) == 0
  {
    var w := [Return, Call(b)];
    assert w[..1] == [Return] && w[..1][..0] == [] && w[..|w| - 1] == w[..1];
    assert Height(w[..1]) == -1;
  }

  /** The bound is exact: one frame deeper and the return goes to the innermost call's return address. */
  lemma {:induction false} OneDeeperIsLost(s: Ras, a: nat, inner: seq<Event>, b: nat)
    requires RasOk(s) && |s.stack| > 0
    requires inner == Calls(|s.stack|, b) + Returns(|s.stack|)
    ensures Nested(inner) && Within(inner, |s.stack|)
    ensures Predicted(Run(s, [Call(a)] + inner)) == After(b)
  {
    hide Run;
    hide After;
    hide Height;
    var n := |s.stack|;
    ClimbNested(n, b);
    DeepHeight(n, a, b);
    PredictsLastAtDepth(s, [Call(a)] + inner);
    LastDeepCall(n, a, b, s.tos);
  }

  lemma {:induction false} ClimbNested(n: nat, b: nat)
    ensures Nested(Calls(n, b) + Returns(n)) && Within(Calls(n, b) + Returns(n), n)
  {
    hide Height;
    var inner := Calls(n, b) + Returns(n);
    forall i | 0 <= i <= |inner| ensures Height(inner[..i]) == if i <= n then i else 2 * n - i {
      ClimbAndFall(n, b, i);
    }
    assert inner[..|inner|] == inner;
  }

  lemma {:induction false} DeepHeight(n: nat, a: nat, b: nat)
    ensures Height([Call(a)] + (Calls(n, b) + Returns(n))) == 1 && Height([Call(a)] + Calls(n, b)) == n + 1
  {
    var inner := Calls(n, b) + Returns(n);
    HeightJoin([Call(a)], inner);
    HeightJoin([Call(a)], Calls(n, b));
    ClimbAndFall(n, b, 2 * n);
    ClimbAndFall(n, b, n);
    assert inner[..2 * n] == inner && inner[..n] == Calls(n, b);
  }

  /** The innermost of n calls lands on the slot of the call around them. */
  lemma {:induction false} LastDeepCall(n: nat, a: nat, b: nat, tos: int)
    requires n > 0
    ensures LastOn([Call(a)] + (Calls(n, b) + Returns(n)), (tos + 1) % n, tos, n) == Caller(b)
  {
    hide Height;
    var cs := [Call(a)] + Calls(n, b);
    assert [Call(a)] + (Calls(n, b) + Returns(n)) == cs + Returns(n);
    ReturnsLandNowhere(cs, n, (tos + 1) % n, tos, n);
    DeepHeight(n, a, b);
    assert cs[|cs| - 1] == Call(b);
    ModShift(tos + 1, n, 1);
  }

  function Calls(n: nat, b: nat): (h: seq<Event>)
    ensures |h| == n && forall i :: 0 <= i < n ==> h[i] == Call(b)
  {
    seq(n, _ => Call(b))
  }

  function Returns(n: nat): (h: seq<Event>)
    ensures |h| == n && forall i :: 0 <= i < n ==> h[i] == Return
  {
    seq(n, _ => Return)
  }

  lemma {:induction false} ClimbAndFall(n: nat, b: nat, i: nat)
    requires i <= 2 * n
    ensures Height((Calls(n, b) + Returns(n))[..i]) == if i <= n then i else 2 * n - i
  {
    if i > 0 {
      ClimbAndFall(n, b, i - 1);
      assert (Calls(n, b) + Returns(n))[..i][..i - 1] == (Calls(n, b) + Returns(n))[..i - 1];
    }
  }

  lemma {:induction false} ReturnsLandNowhere(h: seq<Event>, k: nat, slot: nat, tos: int, size: nat)
    requires size > 0
    ensures LastOn(h + Returns(k), slot, tos, size) == LastOn(h, slot, tos, size)
  {
    if k == 0 {
      assert h + Returns(0) == h;
    } else {
      var g := h + Returns(k);
      assert g[..|g| - 1] == h + Returns(k - 1);
      ReturnsLandNowhere(h, k - 1, slot, tos, size);
    }
  }

  /** The target the stack gives, or none because the branch target buffer decides. */
  datatype Prediction = Elsewhere | Target(addr: nat)

  /** The stack itself. */
  class RetStack {
    const stack: array<nat>
    var tos: int
    var pushes: nat
    var pops: nat

    ghost function State(): Ras
      reads this, stack
    {
      Ras(stack[..], tos)
    }

    constructor (size: nat)
      ensures fresh(stack) && State() == Initial(size) && RasOk(State()) && pushes == 0 && pops == 0
    {
      stack := new nat[size](_ => 0);
      tos, pushes, pops := size - 1, 0, 0;
    }

    /** The stack part of bpred_lookup; a return is predicted here unless there is no stack. */
    method Lookup(e: Event) returns (target: Prediction)
      requires RasOk(State())
      modifies this, stack
      ensures RasOk(State()) && State() == Step(old(State()), e)
      ensures target == if e.Return? && stack.Length > 0 then Target(Predicted(old(State()))) else Elsewhere
      ensures pushes == old(pushes) + if e.Call? && stack.Length > 0 then 1 else 0
      ensures pops == old(pops) + if e.Return? && stack.Length > 0 then 1 else 0
    {
      target := Elsewhere;
      if e.Return? && stack.Length > 0 {
        target := Target(stack[tos]);
        tos := (tos + stack.Length - 1) % stack.Length;
        pops := pops + 1;
        return;
      }
      if e.Call? && stack.Length > 0 {
        tos := (tos + 1) % stack.Length;
        stack[tos] := After(e.addr);
        pushes := pushes + 1;
      }
    }

    /** bpred_recover */
    method Recover(stackRecoverIdx: nat)
      requires RasOk(State()) && stackRecoverIdx < stack.Length
      modifies this`tos
      ensures RasOk(State()) && State() == old(State()).(tos := stackRecoverIdx)
    {
      tos := stackRecoverIdx;
    }

    /** A speculative stretch followed by its recovery. */
    method Squash(w: seq<Event>)
      requires RasOk(State()) && stack.Length > 0
      modifies this, stack
      ensures RasOk(State()) && State() == Recovered(old(State()), w)
    {
      hide Step;
      ghost var s := State();
      var top := tos;
      var i := 0;
      while i < |w|
        invariant i <= |w| && RasOk(State()) && State() == Run(s, w[..i])
      {
        assert w[..i + 1][..i] == w[..i];
        var target := Lookup(w[i]);
        i := i + 1;
      }
      assert w[..i] == w;
      Recover(top);
    }
  }
}
