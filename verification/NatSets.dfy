/** Finite sets of naturals: the minimum, the k oldest members and the ascending listing. */
module NatSets {

  ghost predicate IsMin(m: nat, s: set<nat>) {
    m in s && forall x :: x in s ==> m <= x
  }

  lemma {:induction false} MinExists(s: set<nat>)
    requires s != {}
    ensures exists m :: IsMin(m, s)
  {
    var x :| x in s;
    if s == {x} {
      assert IsMin(x, s);
    } else {
      MinExists(s - {x});
      var m :| IsMin(m, s - {x});
      var l := if x < m then x else m;
      forall y | y in s ensures l <= y {
        assert y == x || y in s - {x};
      }
      assert IsMin(l, s);
    }
  }

  ghost function Min(s: set<nat>): (m: nat)
    requires s != {}
    ensures IsMin(m, s)
  {
    MinExists(s);
    var m :| IsMin(m, s);
    m
  }

  /** The k smallest members of s (all of s when it has fewer). */
  ghost function Oldest(s: set<nat>, k: nat): (o: set<nat>)
    ensures o <= s
    ensures |o| == if k <= |s| then k else |s|
    ensures forall x, y :: x in o && y in s && y !in o ==> x < y
    ensures |s| <= k ==> o == s
    decreases k
  {
    if k == 0 || s == {} then {}
    else
      var m := Min(s);
      var o := Oldest(s - {m}, k - 1);
      OldestStep(s, m, k, o);
      {m} + o
  }

  lemma {:induction false} OldestStep(s: set<nat>, m: nat, k: nat, o: set<nat>)
    requires IsMin(m, s) && k > 0
    requires o <= s - {m} && |o| == if k - 1 <= |s - {m}| then k - 1 else |s - {m}|
    requires forall x, y :: x in o && y in s - {m} && y !in o ==> x < y
    requires |s - {m}| <= k - 1 ==> o == s - {m}
    ensures {m} + o <= s && |{m} + o| == (if k <= |s| then k else |s|)
    ensures forall x, y :: x in {m} + o && y in s && y !in {m} + o ==> x < y
    ensures |s| <= k ==> {m} + o == s
  {
    assert s == {m} + (s - {m});
  }

  ghost predicate Ascending(a: seq<nat>) {
    forall i, j :: 0 <= i < j < |a| ==> a[i] < a[j]
  }

  ghost function Elements(a: seq<nat>): (s: set<nat>) {
    set x | x in a
  }

  lemma {:induction false} SubsetOfSameSize(a: set<nat>, b: set<nat>)
    requires a <= b && |a| == |b|
    ensures a == b
  {
    if x :| x in b && x !in a {
      SubsetSize(a, b - {x});
    }
  }

  lemma {:induction false} SubsetSize(a: set<nat>, b: set<nat>)
    requires a <= b
    ensures |a| <= |b|
  {
    assert b == a + (b - a);
  }

  /** The three clauses of Oldest determine it. */
  lemma {:induction false} OldestUnique(s: set<nat>, k: nat, o: set<nat>)
    requires o <= s && |o| == if k <= |s| then k else |s|
    requires forall x, y :: x in o && y in s && y !in o ==> x < y
    ensures o == Oldest(s, k)
  {
    var p := Oldest(s, k);
    if o <= p {
      SubsetOfSameSize(o, p);
    } else if p <= o {
      SubsetOfSameSize(p, o);
    }
  }

  lemma {:induction false} AscendingSize(a: seq<nat>)
    requires Ascending(a)
    ensures |Elements(a)| == |a|
  {
    if a != [] {
      var b, z := a[..|a| - 1], a[|a| - 1];
      AscendingSize(b);
      assert a == b + [z];
      assert Elements(a) == Elements(b) + {z};
      assert z !in Elements(b);
    }
  }

  /** Serving an ascending listing in order serves the oldest members first. */
  lemma {:induction false} PrefixIsOldest(a: seq<nat>, k: nat)
    requires Ascending(a) && k <= |a|
    ensures Elements(a[..k]) == Oldest(Elements(a), k)
  {
    AscendingSize(a);
    AscendingSize(a[..k]);
    forall x, y | x in a[..k] && y in a && y !in a[..k] ensures x < y {
      var i :| 0 <= i < k && a[..k][i] == x;
      var j :| 0 <= j < |a| && a[j] == y;
      assert j in set h | 0 <= h < |a| && a[h] !in a[..k];
    }
    OldestUnique(Elements(a), k, Elements(a[..k]));
  }

  /** A set of numbers below n has at most n members. */
  lemma {:induction false} BoundedSize(s: set<nat>, n: nat)
    requires forall x :: x in s ==> x < n
    ensures |s| <= n
  {
    if n > 0 {
      BoundedSize(s - {n - 1}, n - 1);
      assert |s| <= |s - {n - 1}| + 1;
    } else {
      assert s == {};
    }
  }
}
