/** One set of the cache: blocks threaded on a doubly linked way list and, in highly
    associative caches, on hash chains. A block pointer is the block's index in the
    set's contiguous allocation, NULL is -1. */
module CacheSets {
  import opened CacheInvariant
  import opened CacheModel
  import opened FlatMemory

  const NULL: int := -1

  // ----- the way list

  /** order lists the blocks 0 to |order| - 1, each once. */
  ghost predicate Permutation(order: seq<nat>) {
    && |order| > 0
    && (forall k :: 0 <= k < |order| ==> order[k] < |order|)
    && (forall j, k :: 0 <= j < k < |order| ==> order[j] != order[k])
    && (forall b: nat :: b < |order| ==> b in order)
  }

  /** order is the way list from head to tail, as laid out in the links. */
  ghost predicate Linked(order: seq<nat>, next: seq<int>, prev: seq<int>, head: int, tail: int) {
    && Permutation(order) && |order| == |next| == |prev|
    && head == order[0] && tail == order[|order| - 1]
    && (forall k {:trigger next[order[k]]} :: 0 <= k < |order| ==> next[order[k]] == Succ(order, k))
    && (forall k {:trigger prev[order[k]]} :: 0 <= k < |order| ==> prev[order[k]] == Pred(order, k))
  }

  function Succ(order: seq<nat>, k: int): int
    requires 0 <= k < |order|
  {
    if k + 1 < |order| then order[k + 1] else NULL
  }

  function Pred(order: seq<nat>, k: int): int
    requires 0 <= k < |order|
  {
    if k > 0 then order[k - 1] else NULL
  }

  function Front(order: seq<nat>, k: nat): (o: seq<nat>)
    requires k < |order|
    ensures |o| == |order|
    ensures forall j :: 0 <= j < |o| ==> o[j] == if j == 0 then order[k] else if j <= k then order[j - 1] else order[j]
  {
    [order[k]] + order[..k] + order[k + 1..]
  }

  function Back(order: seq<nat>, k: nat): (o: seq<nat>)
    requires k < |order|
    ensures |o| == |order|
    ensures forall j :: 0 <= j < |o| ==>
              o[j] == if j < k then order[j] else if j < |order| - 1 then order[j + 1] else order[k]
  {
    order[..k] + order[k + 1..] + [order[k]]
  }

  lemma {:induction false} FrontMembers(order: seq<nat>, k: nat, b: nat)
    requires k < |order| && b in order
    ensures b in Front(order, k)
  {
    var j :| 0 <= j < |order| && order[j] == b;
    assert Front(order, k)[if j == k then 0 else if j < k then j + 1 else j] == b;
  }

  lemma {:induction false} FrontDistinct(order: seq<nat>, k: nat)
    requires k < |order| && (forall j :: 0 <= j < |order| ==> order[j] < |order|)
    requires forall i, j :: 0 <= i < j < |order| ==> order[i] != order[j]
    ensures |Front(order, k)| == |order| && forall j :: 0 <= j < |order| ==> Front(order, k)[j] < |order|
    ensures forall i, j :: 0 <= i < j < |order| ==> Front(order, k)[i] != Front(order, k)[j]
  {
  }

  lemma {:induction false} FrontHead(order: seq<nat>, k: nat)
    requires k < |order|
    ensures |Front(order, k)| == |order| && Front(order, k)[0] == order[k]
  {
  }

  lemma {:induction false} FrontPermutation(order: seq<nat>, k: nat)
    requires Permutation(order) && k < |order|
    ensures Permutation(Front(order, k))
  {
    hide Front;
    FrontDistinct(order, k);
    forall b: nat | b < |order| ensures b in Front(order, k) { FrontMembers(order, k, b); }
  }

  lemma {:induction false} BackMembers(order: seq<nat>, k: nat, b: nat)
    requires k < |order| && b in order
    ensures b in Back(order, k)
  {
    var j :| 0 <= j < |order| && order[j] == b;
    assert Back(order, k)[if j == k then |order| - 1 else if j < k then j else j - 1] == b;
  }

  lemma {:induction false} BackPermutation(order: seq<nat>, k: nat)
    requires Permutation(order) && k < |order|
    ensures Permutation(Back(order, k))
  {
    forall b: nat | b < |order| ensures b in Back(order, k) { BackMembers(order, k, b); }
  }

  /** Where blk is on the list, and what its links say. */
  lemma {:induction false} Position(order: seq<nat>, next: seq<int>, prev: seq<int>, head: int, tail: int, blk: nat)
    returns (k: nat)
    requires Linked(order, next, prev, head, tail) && blk < |next|
    ensures k < |order| && order[k] == blk
    ensures next[blk] == Succ(order, k)
    ensures prev[blk] == Pred(order, k)
    ensures head == order[0] && tail == order[|order| - 1] && |order| == |next| == |prev|
    ensures forall j :: 0 <= j < |order| ==> order[j] < |order|
    ensures forall i, j :: 0 <= i < j < |order| ==> order[i] != order[j]
  {
    assert blk in order;
    k :| 0 <= k < |order| && order[k] == blk;
  }

  lemma {:induction false} SamePosition(order: seq<nat>, i: nat, k: nat)
    requires i < |order| && k < |order| && order[i] == order[k]
    requires forall a, b :: 0 <= a < b < |order| ==> order[a] != order[b]
    ensures i == k
  {
  }

  lemma {:induction false} LinkedOrder(order: seq<nat>, next: seq<int>, prev: seq<int>, head: int, tail: int)
    requires Linked(order, next, prev, head, tail)
    ensures Permutation(order) && |order| == |next| == |prev| && head == order[0] && tail == order[|order| - 1]
    ensures forall k :: 0 <= k < |order| ==> order[k] < |order|
  {
  }

  /** The list of n blocks threaded one by one at the head. */
  lemma {:induction false} NewLinked(order: seq<nat>, next: seq<int>, prev: seq<int>)
    requires |order| == |next| == |prev| > 0 && forall k :: 0 <= k < |order| ==> order[k] == |order| - 1 - k
    requires forall b :: 0 <= b < |next| ==> next[b] == b - 1 && prev[b] == if b + 1 < |prev| then b + 1 else NULL
    ensures Linked(order, next, prev, |order| - 1, 0)
  {
    forall b: nat | b < |order| ensures b in order {
      assert order[|order| - 1 - b] == b;
    }
  }

  /** next' after order[k], k > 0, has moved to the head. */
  ghost predicate FrontNext(order: seq<nat>, next: seq<int>, k: nat, next': seq<int>)
    requires 0 < k < |order| && forall j :: 0 <= j < |order| ==> order[j] < |next|
  {
    |next'| == |next| &&
    forall b :: 0 <= b < |next| ==>
      next'[b] == if b == order[k] then order[0] else if b == order[k - 1] then Succ(order, k) else next[b]
  }

  ghost predicate FrontPrev(order: seq<nat>, prev: seq<int>, k: nat, prev': seq<int>)
    requires 0 < k < |order| && forall j :: 0 <= j < |order| ==> order[j] < |prev|
  {
    |prev'| == |prev| &&
    forall b :: 0 <= b < |prev| ==>
      prev'[b] == if b == order[k] then NULL else if b == order[0] then order[k]
                  else if b == Succ(order, k) then order[k - 1] else prev[b]
  }

  lemma {:induction false} FrontAt(order: seq<nat>, k: nat, j: nat)
    requires k < |order| && j < |order|
    ensures |Front(order, k)| == |order|
    ensures Front(order, k)[j] == if j == 0 then order[k] else if j <= k then order[j - 1] else order[j]
  {
  }

  lemma {:induction false} FrontNextLink(order: seq<nat>, next: seq<int>, prev: seq<int>, head: int, tail: int, k: nat,
                                         next': seq<int>, j: nat)
    requires Linked(order, next, prev, head, tail) && 0 < k < |order| && j < |order|
    requires FrontNext(order, next, k, next')
    ensures var o := Front(order, k); |o| == |order| && o[j] < |next'| && next'[o[j]] == Succ(o, j)
  {
    FrontAt(order, k, j);
    if j + 1 < |order| { FrontAt(order, k, j + 1); }
    hide Front;
    var i := if j == 0 then k else if j <= k then j - 1 else j;
    assert next[order[i]] == Succ(order, i);
  }

  lemma {:induction false} FrontPrevLink(order: seq<nat>, next: seq<int>, prev: seq<int>, head: int, tail: int, k: nat,
                                         prev': seq<int>, j: nat)
    requires Linked(order, next, prev, head, tail) && 0 < k < |order| && j < |order|
    requires FrontPrev(order, prev, k, prev')
    ensures var o := Front(order, k); |o| == |order| && o[j] < |prev'| && prev'[o[j]] == Pred(o, j)
  {
    FrontAt(order, k, j);
    if j > 0 { FrontAt(order, k, j - 1); }
    hide Front;
    var i := if j == 0 then k else if j <= k then j - 1 else j;
    assert prev[order[i]] == Pred(order, i);
  }

  lemma {:induction false} FrontLinks(order: seq<nat>, next: seq<int>, prev: seq<int>, head: int, tail: int, k: nat,
                                      next': seq<int>, prev': seq<int>, j: nat)
    requires Linked(order, next, prev, head, tail) && 0 < k < |order| && j < |order|
    requires FrontNext(order, next, k, next') && FrontPrev(order, prev, k, prev')
    ensures var o := Front(order, k);
            o[j] < |next'| == |prev'| && next'[o[j]] == Succ(o, j) && prev'[o[j]] == Pred(o, j)
  {
    FrontNextLink(order, next, prev, head, tail, k, next', j);
    FrontPrevLink(order, next, prev, head, tail, k, prev', j);
    hide Front;
  }

  lemma {:induction false} FrontEnds(order: seq<nat>, k: nat)
    requires 0 < k < |order|
    ensures Front(order, k)[0] == order[k]
    ensures Front(order, k)[|order| - 1] == if k + 1 < |order| then order[|order| - 1] else order[k - 1]
  {
  }

  lemma {:induction false} FrontLinked(order: seq<nat>, next: seq<int>, prev: seq<int>, head: int, tail: int, k: nat,
                                       next': seq<int>, prev': seq<int>)
    requires Linked(order, next, prev, head, tail) && 0 < k < |order|
    requires FrontNext(order, next, k, next') && FrontPrev(order, prev, k, prev')
    ensures Linked(Front(order, k), next', prev', order[k], if k + 1 < |order| then tail else order[k - 1])
  {
    hide Front;
    hide FrontNext;
    hide FrontPrev;
    hide Permutation;
    hide Linked;
    hide Succ;
    hide Pred;
    var o, tail' := Front(order, k), if k + 1 < |order| then tail else order[k - 1];
    LinkedOrder(order, next, prev, head, tail);
    FrontPermutation(order, k);
    FrontEnds(order, k);
    FrontSizes(order, next, prev, k, next', prev');
    assert o[0] == order[k] && o[|o| - 1] == tail';
    forall j | 0 <= j < |o|
      ensures o[j] < |next'| == |prev'| && next'[o[j]] == Succ(o, j) && prev'[o[j]] == Pred(o, j) {
      FrontLinks(order, next, prev, head, tail, k, next', prev', j);
    }
    AreLinked(o, next', prev', order[k], tail');
  }

  lemma {:induction false} FrontSizes(order: seq<nat>, next: seq<int>, prev: seq<int>, k: nat, next': seq<int>,
                                      prev': seq<int>)
    requires 0 < k < |order| && forall j :: 0 <= j < |order| ==> order[j] < |next| && order[j] < |prev|
    requires FrontNext(order, next, k, next') && FrontPrev(order, prev, k, prev')
    ensures |next'| == |next| && |prev'| == |prev|
  {
  }

  lemma {:induction false} AreLinked(order: seq<nat>, next: seq<int>, prev: seq<int>, head: int, tail: int)
    requires Permutation(order) && |order| == |next| == |prev| && head == order[0] && tail == order[|order| - 1]
    requires forall j :: 0 <= j < |order| ==> next[order[j]] == Succ(order, j) && prev[order[j]] == Pred(order, j)
    ensures Linked(order, next, prev, head, tail)
  {
  }

  /** next' after order[k], not the last, has moved to the tail. */
  ghost predicate BackNext(order: seq<nat>, next: seq<int>, k: nat, next': seq<int>)
    requires k + 1 < |order| && forall j :: 0 <= j < |order| ==> order[j] < |next|
  {
    |next'| == |next| &&
    forall b :: 0 <= b < |next| ==>
      next'[b] == if b == order[k] then NULL else if b == order[|order| - 1] then order[k]
                  else if b == Pred(order, k) then order[k + 1] else next[b]
  }

  ghost predicate BackPrev(order: seq<nat>, prev: seq<int>, k: nat, prev': seq<int>)
    requires k + 1 < |order| && forall j :: 0 <= j < |order| ==> order[j] < |prev|
  {
    |prev'| == |prev| &&
    forall b :: 0 <= b < |prev| ==>
      prev'[b] == if b == order[k] then order[|order| - 1] else if b == order[k + 1] then Pred(order, k) else prev[b]
  }

  lemma {:induction false} BackLinks(order: seq<nat>, next: seq<int>, prev: seq<int>, head: int, tail: int, k: nat,
                                     next': seq<int>, prev': seq<int>, j: nat)
    requires Linked(order, next, prev, head, tail) && k + 1 < |order| && j < |order|
    requires BackNext(order, next, k, next') && BackPrev(order, prev, k, prev')
    ensures var o := Back(order, k); o[j] < |next'| == |prev'| && next'[o[j]] == Succ(o, j) && prev'[o[j]] == Pred(o, j)
  {
    var o := Back(order, k);
    hide Back;
    if j < |order| - 1 {
      var i := if j < k then j else j + 1;
      assert o[j] == order[i] && next[order[i]] == Succ(order, i) && prev[order[i]] == Pred(order, i);
    }
  }

  lemma {:induction false} BackSizes(order: seq<nat>, next: seq<int>, prev: seq<int>, k: nat, next': seq<int>,
                                     prev': seq<int>)
    requires k + 1 < |order| && forall j :: 0 <= j < |order| ==> order[j] < |next| && order[j] < |prev|
    requires BackNext(order, next, k, next') && BackPrev(order, prev, k, prev')
    ensures |next'| == |next| && |prev'| == |prev|
  {
  }

  lemma {:induction false} BackEnds(order: seq<nat>, k: nat)
    requires k + 1 < |order|
    ensures |Back(order, k)| == |order| && Back(order, k)[|order| - 1] == order[k]
    ensures Back(order, k)[0] == if k > 0 then order[0] else order[1]
  {
  }

  lemma {:induction false} BackLinked(order: seq<nat>, next: seq<int>, prev: seq<int>, head: int, tail: int, k: nat,
                                      next': seq<int>, prev': seq<int>)
    requires Linked(order, next, prev, head, tail) && k + 1 < |order|
    requires BackNext(order, next, k, next') && BackPrev(order, prev, k, prev')
    ensures Linked(Back(order, k), next', prev', if k > 0 then head else order[1], order[k])
  {
    hide Back;
    hide BackNext;
    hide BackPrev;
    hide Permutation;
    hide Linked;
    hide Succ;
    hide Pred;
    var o, head' := Back(order, k), if k > 0 then head else order[1];
    LinkedOrder(order, next, prev, head, tail);
    BackPermutation(order, k);
    BackSizes(order, next, prev, k, next', prev');
    BackEnds(order, k);
    forall j | 0 <= j < |o|
      ensures o[j] < |next'| == |prev'| && next'[o[j]] == Succ(o, j) && prev'[o[j]] == Pred(o, j) {
      BackLinks(order, next, prev, head, tail, k, next', prev', j);
    }
    AreLinked(o, next', prev', head', order[k]);
  }

  /** The links with order[k] taken out of the list. */
  function CutNext(order: seq<nat>, next: seq<int>, k: nat): seq<int>
    requires k < |order| && forall j :: 0 <= j < |order| ==> order[j] < |next|
  {
    if k > 0 then next[order[k - 1] := Succ(order, k)] else next
  }

  function CutPrev(order: seq<nat>, prev: seq<int>, k: nat): seq<int>
    requires k < |order| && forall j :: 0 <= j < |order| ==> order[j] < |prev|
  {
    if k + 1 < |order| then prev[order[k + 1] := Pred(order, k)] else prev
  }

  lemma {:induction false} FrontMade(order: seq<nat>, next: seq<int>, prev: seq<int>, head: int, tail: int, k: nat)
    requires Linked(order, next, prev, head, tail) && 0 < k < |order|
    ensures FrontNext(order, next, k, CutNext(order, next, k)[order[k] := order[0]])
    ensures FrontPrev(order, prev, k, CutPrev(order, prev, k)[order[k] := NULL][order[0] := order[k]])
  {
  }

  lemma {:induction false} BackMade(order: seq<nat>, next: seq<int>, prev: seq<int>, head: int, tail: int, k: nat)
    requires Linked(order, next, prev, head, tail) && k + 1 < |order|
    ensures BackNext(order, next, k, CutNext(order, next, k)[order[k] := NULL][order[|order| - 1] := order[k]])
    ensures BackPrev(order, prev, k, CutPrev(order, prev, k)[order[k] := order[|order| - 1]])
  {
  }

  /** The pointer surgery of update_way_list, on the links of one list. */
  class WayList {
    const next: array<int>
    const prev: array<int>
    var head: int
    var tail: int
    ghost var order: seq<nat>

    ghost predicate Valid()
      reads this, next, prev
    {
      next != prev && Linked(order, next[..], prev[..], head, tail)
    }

    /** Threads the blocks 0 to n - 1, each new one at the head. */
    constructor (n: nat)
      requires n > 0
      ensures Valid() && fresh(next) && fresh(prev) && next.Length == n
      ensures |order| == n && forall k :: 0 <= k < n ==> order[k] == n - 1 - k
    {
      next := new int[n](i => (i as int) - 1);
      prev := new int[n](i requires 0 <= i => if i + 1 < n then i + 1 else NULL);
      head := n - 1;
      tail := 0;
      order := seq(n, k requires 0 <= k < n => n - 1 - k);
      new;
      hide Linked;
      NewLinked(order, next[..], prev[..]);
    }

    /** Unlinks a block; the list has another. */
    method Unthread(blk: nat, ghost k: nat)
      requires Valid() && |order| > 1 && k < |order| && order[k] == blk < next.Length
      modifies this`head, this`tail, next, prev
      ensures Linked(order, old(next[..]), old(prev[..]), old(head), old(tail))
      ensures |order| == next.Length == prev.Length && forall j :: 0 <= j < |order| ==> order[j] < |order|
      ensures next[..] == CutNext(order, old(next[..]), k) && prev[..] == CutPrev(order, old(prev[..]), k)
      ensures head == (if k == 0 then order[1] else order[0]) && old(head) == order[0]
      ensures tail == (if k + 1 == |order| then order[k - 1] else order[|order| - 1]) && old(tail) == order[|order| - 1]
    {
      ghost var i := Position(order, next[..], prev[..], head, tail, blk);
      SamePosition(order, i, k);
      hide Linked;
      if prev[blk] == NULL {
        head := next[blk];
        prev[next[blk]] := NULL;
      } else if next[blk] == NULL {
        tail := prev[blk];
        next[prev[blk]] := NULL;
      } else {
        next[prev[blk]] := next[blk];
        prev[next[blk]] := prev[blk];
      }
    }

    method MoveToHead(blk: nat) returns (ghost k: nat)
      requires Valid() && blk < next.Length
      modifies this, next, prev
      ensures Valid() && k < |old(order)| && old(order)[k] == blk && order == Front(old(order), k) && head == blk
    {
      hide Linked;
      k := Position(order, next[..], prev[..], head, tail, blk);
      ghost var next0, prev0 := next[..], prev[..];
      if prev[blk] == NULL {
        assert order == Front(order, k);
        return;
      }
      Unthread(blk, k);
      next[blk] := head;
      prev[blk] := NULL;
      prev[head] := blk;
      head := blk;
      FrontMade(order, next0, prev0, old(head), old(tail), k);
      hide FrontNext;
      hide FrontPrev;
      FrontLinked(order, next0, prev0, old(head), old(tail), k, next[..], prev[..]);
      order := Front(order, k);
    }

    method MoveToTail(blk: nat) returns (ghost k: nat)
      requires Valid() && blk < next.Length
      modifies this, next, prev
      ensures Valid() && k < |old(order)| && old(order)[k] == blk && order == Back(old(order), k)
    {
      hide Linked;
      k := Position(order, next[..], prev[..], head, tail, blk);
      ghost var next0, prev0 := next[..], prev[..];
      if next[blk] == NULL {
        assert order == Back(order, k);
        return;
      }
      Unthread(blk, k);
      prev[blk] := tail;
      next[blk] := NULL;
      next[tail] := blk;
      tail := blk;
      BackMade(order, next0, prev0, old(head), old(tail), k);
      hide BackNext;
      hide BackPrev;
      BackLinked(order, next0, prev0, old(head), old(tail), k, next[..], prev[..]);
      order := Back(order, k);
    }
  }

  // ----- the hash chains

  /** c is the singly linked list that starts at head. */
  ghost predicate Chain(c: seq<nat>, head: int, next: seq<int>) {
    && (forall k :: 0 <= k < |c| ==> c[k] < |next|)
    && head == (if c == [] then NULL else c[0])
    && (forall k {:trigger next[c[k]]} :: 0 <= k < |c| ==> next[c[k]] == Succ(c, k))
  }

  ghost predicate Chained(chains: seq<seq<nat>>, heads: seq<int>, next: seq<int>) {
    && |heads| == |chains|
    && (forall h :: 0 <= h < |chains| ==> Chain(chains[h], heads[h], next))
    && (forall h, i, j :: 0 <= h < |chains| && 0 <= i < j < |chains[h]| ==> chains[h][i] != chains[h][j])
    && (forall g, h, b :: 0 <= g < h < |chains| && b in chains[g] ==> b !in chains[h])
  }

  ghost predicate Unchained(chains: seq<seq<nat>>, b: nat) {
    forall h :: 0 <= h < |chains| ==> b !in chains[h]
  }

  function Without(c: seq<nat>, k: nat): (r: seq<nat>)
    requires k < |c|
    ensures |r| == |c| - 1 && forall j :: 0 <= j < |r| ==> r[j] == if j < k then c[j] else c[j + 1]
  {
    c[..k] + c[k + 1..]
  }

  lemma {:induction false} PrependChain(c: seq<nat>, head: int, next: seq<int>, b: nat)
    requires Chain(c, head, next) && b < |next| && b !in c
    ensures Chain([b] + c, b, next[b := head])
  {
    var d := [b] + c;
    forall k | 0 <= k < |d| ensures next[b := head][d[k]] == Succ(d, k) {
      if k > 0 { assert next[c[k - 1]] == Succ(c, k - 1); }
    }
  }

  lemma {:induction false} OtherChain(c: seq<nat>, head: int, next: seq<int>, b: nat, x: int)
    requires Chain(c, head, next) && b < |next| && b !in c
    ensures Chain(c, head, next[b := x])
  {
    forall k | 0 <= k < |c| ensures next[b := x][c[k]] == Succ(c, k) {
      assert c[k] != b;
    }
  }

  lemma {:induction false} LinkChained(chains: seq<seq<nat>>, heads: seq<int>, next: seq<int>, b: nat, h: nat)
    requires Chained(chains, heads, next) && b < |next| && h < |chains| && Unchained(chains, b)
    ensures Chained(chains[h := [b] + chains[h]], heads[h := b], next[b := heads[h]])
  {
    PrependChain(chains[h], heads[h], next, b);
    forall g | 0 <= g < |chains| && g != h ensures Chain(chains[g], heads[g], next[b := heads[h]]) {
      OtherChain(chains[g], heads[g], next, b, heads[h]);
    }
  }

  /** next once c[k] has been taken out. */
  function Spliced(c: seq<nat>, k: nat, next: seq<int>): seq<int>
    requires k < |c| && forall j :: 0 <= j < |c| ==> c[j] < |next|
  {
    if k == 0 then next[c[k] := NULL] else next[c[k - 1] := next[c[k]]][c[k] := NULL]
  }

  lemma {:induction false} SplicedChain(c: seq<nat>, head: int, next: seq<int>, k: nat)
    requires Chain(c, head, next) && k < |c| && forall i, j :: 0 <= i < j < |c| ==> c[i] != c[j]
    ensures Chain(Without(c, k), if k == 0 then next[c[k]] else head, Spliced(c, k, next))
  {
    var d := Without(c, k);
    forall j | 0 <= j < |d| ensures Spliced(c, k, next)[d[j]] == Succ(d, j) {
      assert next[c[k]] == Succ(c, k);
      assert next[d[j]] == Succ(c, if j < k then j else j + 1);
    }
    if k == 0 { assert next[c[0]] == Succ(c, 0); }
  }

  /** Splicing a block out of one chain leaves another chain as it was. */
  lemma {:induction false} OtherChainKept(chains: seq<seq<nat>>, heads: seq<int>, next: seq<int>, h: nat, k: nat,
                                          g: nat)
    requires Chained(chains, heads, next) && h < |chains| && k < |chains[h]| && g < |chains| && g != h
    requires forall j :: 0 <= j < |chains[h]| ==> chains[h][j] < |next|
    ensures Chain(chains[g], heads[g], Spliced(chains[h], k, next)) && chains[h][k] !in chains[g]
  {
    var c := chains[h];
    assert c[k] in c && (k > 0 ==> c[k - 1] in c);
    assert c[k] !in chains[g];
    if k > 0 {
      assert c[k - 1] !in chains[g];
      OtherChain(chains[g], heads[g], next, c[k - 1], next[c[k]]);
      OtherChain(chains[g], heads[g], next[c[k - 1] := next[c[k]]], c[k], NULL);
    } else {
      OtherChain(chains[g], heads[g], next, c[k], NULL);
    }
  }

  lemma {:induction false} UnlinkChained(chains: seq<seq<nat>>, heads: seq<int>, next: seq<int>, h: nat, k: nat)
    requires Chained(chains, heads, next) && h < |chains| && k < |chains[h]|
    requires forall j :: 0 <= j < |chains[h]| ==> chains[h][j] < |next|
    ensures var c := chains[h];
            && Chained(chains[h := Without(c, k)], heads[h := if k == 0 then next[c[k]] else heads[h]],
                       Spliced(c, k, next))
            && Unchained(chains[h := Without(c, k)], c[k])
  {
    hide Chain;
    hide Spliced;
    var c := chains[h];
    SplicedChain(c, heads[h], next, k);
    forall g | 0 <= g < |chains| && g != h
      ensures Chain(chains[g], heads[g], Spliced(c, k, next)) && c[k] !in chains[g] {
      OtherChainKept(chains, heads, next, h, k, g);
    }
    forall b | b in Without(c, k) ensures b in c && b != c[k] {
    }
  }

  class HashChains {
    const heads: array<int>
    const next: array<int>
    ghost var chains: seq<seq<nat>>

    ghost predicate Valid()
      reads this, heads, next
    {
      heads != next && |chains| == heads.Length && Chained(chains, heads[..], next[..])
    }

    constructor (hsize: nat, n: nat)
      ensures Valid() && fresh(heads) && fresh(next) && heads.Length == hsize && next.Length == n
      ensures forall b :: Unchained(chains, b)
    {
      heads := new int[hsize](_ => NULL);
      next := new int[n](_ => NULL);
      chains := seq(hsize, _ => []);
    }

    /** link_htab_ent: at the head of the bucket chain. */
    method Link(b: nat, h: nat)
      requires Valid() && b < next.Length && h < heads.Length && Unchained(chains, b)
      modifies this, heads, next
      ensures Valid() && chains == old(chains)[h := [b] + old(chains)[h]]
    {
      LinkChained(chains, heads[..], next[..], b, h);
      ghost var heads0, next0 := heads[..], next[..];
      next[b] := heads[h];
      heads[h] := b;
      assert heads[..] == heads0[h := b] && next[..] == next0[b := heads0[h]];
      chains := chains[h := [b] + chains[h]];
    }

    /** Links the blocks 0 to n - 1, all into one chain. */
    method LinkAll(n: nat, h: nat)
      requires Valid() && n <= next.Length && h < heads.Length && forall b :: Unchained(chains, b)
      modifies this, heads, next
      ensures Valid() && |chains| == |old(chains)| && forall b :: 0 <= b < n ==> b in chains[h]
    {
      for j := 0 to n
        invariant Valid() && |chains| == |old(chains)|
        invariant forall b :: 0 <= b < j ==> b in chains[h]
        invariant forall b: nat :: j <= b ==> Unchained(chains, b)
      {
        ghost var chains0 := chains;
        Link(j, h);
        forall b: nat | j < b ensures Unchained(chains, b) {
          assert Unchained(chains0, b);
        }
        forall b: nat | b < j ensures b in chains[h] {
          assert b in chains0[h];
        }
      }
    }

    /** unlink_htab_ent: walks the bucket chain to the block and takes it out. */
    method Unlink(b: nat, h: nat) returns (ghost k: nat)
      requires Valid() && h < heads.Length && b in chains[h]
      modifies this, heads, next
      ensures Valid() && k < |old(chains)[h]| && old(chains)[h][k] == b
      ensures chains == old(chains)[h := Without(old(chains)[h], k)] && Unchained(chains, b)
    {
      ghost var c := chains[h];
      assert Chain(c, heads[h], next[..]);
      ghost var at: nat :| at < |c| && c[at] == b;
      var prev, ent := NULL, heads[h];
      k := 0;
      while ent != b
        invariant k <= at && ent == c[k]
        invariant prev == if k == 0 then NULL else c[k - 1]
        decreases at - k
      {
        assert next[..][c[k]] == Succ(c, k);
        prev := ent;
        ent := next[ent];
        k := k + 1;
      }
      UnlinkChained(chains, heads[..], next[..], h, k);
      ghost var heads0, next0 := heads[..], next[..];
      if prev == NULL {
        heads[h] := next[ent];
      } else {
        next[prev] := next[ent];
      }
      next[ent] := NULL;
      assert heads[..] == heads0[h := if k == 0 then next0[b] else heads0[h]];
      assert next[..] == Spliced(c, k, next0);
      chains := chains[h := Without(c, k)];
    }
  }

  // ----- one set

  function HashSize(g: Config): nat {
    if g.assoc > 4 then g.assoc / 4 else 0
  }

  /** CACHE_HASH; the mask is a remainder because the size is a power of two. */
  function Hash(key: nat, hsize: nat): (h: nat)
    requires hsize > 0
    ensures h < hsize
  {
    var k := (key % 0x1_0000_0000) as bv32;
    (((k >> 24) ^ (k >> 16) ^ (k >> 8) ^ k) as nat) % hsize
  }

  /** The fields of cache_blk_t that are not links. */
  datatype Slot = Slot(tag: nat, valid: bool, dirty: bool, data: seq<Byte>)

  function LineOf(b: nat, slot: Slot): Line {
    Line(b, slot.tag, slot.valid, slot.dirty, slot.data)
  }

  /** The lines of a set, in way order. */
  function LinesOf(order: seq<nat>, blks: seq<Slot>): (w: Ways)
    requires |order| == |blks| && forall k :: 0 <= k < |order| ==> order[k] < |order|
    ensures |w| == |order|
    ensures forall k :: 0 <= k < |order| ==> w[k] == LineOf(order[k], blks[order[k]])
  {
    seq(|order|, k requires 0 <= k < |order| => LineOf(order[k], blks[order[k]]))
  }

  function BlankSlot(g: Config): Slot {
    Slot(0, false, false, Zeros(if g.balloc then g.bsize else 0))
  }

  lemma {:induction false} BlankLines(g: Config, order: seq<nat>, blks: seq<Slot>)
    requires |order| == |blks| == g.assoc
    requires forall k :: 0 <= k < g.assoc ==> order[k] == g.assoc - 1 - k
    requires forall b :: 0 <= b < g.assoc ==> blks[b] == BlankSlot(g)
    ensures LinesOf(order, blks) == EmptyWays(g)
  {
  }

  lemma {:induction false} SlotLines(order: seq<nat>, blks: seq<Slot>, k: nat, slot: Slot, next: seq<int>,
                                     prev: seq<int>, head: int, tail: int)
    requires Linked(order, next, prev, head, tail) && |order| == |blks| && k < |order|
    ensures LinesOf(order, blks[order[k] := slot]) == LinesOf(order, blks)[k := LineOf(order[k], slot)]
  {
  }

  lemma {:induction false} FrontLines(order: seq<nat>, blks: seq<Slot>, k: nat)
    requires |order| == |blks| && k < |order| && forall j :: 0 <= j < |order| ==> order[j] < |order|
    ensures LinesOf(Front(order, k), blks) == ToHead(LinesOf(order, blks), k, LinesOf(order, blks)[k])
  {
    ToHeadAt(LinesOf(order, blks), k, LinesOf(order, blks)[k]);
  }

  lemma {:induction false} BackLines(order: seq<nat>, blks: seq<Slot>, k: nat)
    requires |order| == |blks| && k < |order| && forall j :: 0 <= j < |order| ==> order[j] < |order|
    ensures LinesOf(Back(order, k), blks) == ToTail(LinesOf(order, blks), k, LinesOf(order, blks)[k])
  {
  }

  lemma {:induction false} WithoutKeeps(c: seq<nat>, k: nat)
    requires k < |c|
    ensures forall b :: b in c && b != c[k] ==> b in Without(c, k)
  {
    forall b | b in c && b != c[k] ensures b in Without(c, k) {
      var j :| 0 <= j < |c| && c[j] == b;
      assert Without(c, k)[if j < k then j else j - 1] == b;
    }
  }

  lemma {:induction false} IndexOfUnique(w: Ways, blk: nat, k: nat)
    requires k < |w| && w[k].blk == blk && forall j :: 0 <= j < |w| && w[j].blk == blk ==> j == k
    ensures IndexOf(w, blk) == k
  {
  }

  /** What moving the touched line to the head amounts to. */
  lemma {:induction false} HeadHit(g: Config, w: Ways, k: nat, q: Request)
    requires WaysOk(g, w) && k < |w| && Fits(g, q)
    ensures var l := Touched(g, w[k], q);
            HitWays(g, w, k, q) == if g.policy == LRU && k > 0 then ToHead(w[k := l], k, w[k := l][k]) else w[k := l]
  {
  }

  class CacheSet {
    const g: Config
    const ways: WayList
    const table: HashChains
    const blks: array<Slot>

    ghost const Repr: set<object>

    ghost predicate Layout() {
      && Repr == {this, ways, ways.next, ways.prev, table, table.heads, table.next, blks}
      && ways.next != table.heads && ways.next != table.next && ways.prev != table.heads && ways.prev != table.next
      && g.assoc > 0 && g.assoc == ways.next.Length == table.next.Length == blks.Length
      && table.heads.Length == HashSize(g)
    }

    /** Every block but x, if x is a block, is on the chain its tag hashes to. */
    ghost predicate Hashed(x: int)
      requires Layout() && |table.chains| == HashSize(g)
      reads table, blks
    {
      HashSize(g) > 0 ==>
        (forall b :: 0 <= b < g.assoc && b != x ==> b in table.chains[Hash(blks[b].tag, HashSize(g))])
        && (0 <= x ==> Unchained(table.chains, x))
    }

    ghost predicate ValidBut(x: int)
      reads Repr
    {
      this in Repr && Layout() && ways.Valid() && table.Valid() && Hashed(x)
    }

    ghost predicate Valid()
      reads Repr
    {
      ValidBut(NULL)
    }

    ghost function Model(): (w: Ways)
      requires this in Repr && Layout() && ways.Valid()
      reads Repr
    {
      LinesOf(ways.order, blks[..])
    }

    /** The part of cache_create that sets up one set. */
    constructor (g: Config)
      requires g.assoc > 0
      ensures Valid() && fresh(Repr) && this.g == g && Model() == EmptyWays(g)
    {
      hide Linked;
      hide Chained;
      hide Unchained;
      hide LinesOf;
      hide EmptyWays;
      hide Hash;
      this.g := g;
      var n := g.assoc;
      var w := new WayList(n);
      var t := new HashChains(HashSize(g), n);
      if HashSize(g) > 0 {
        t.LinkAll(n, Hash(0, HashSize(g)));
      }
      var slots := new Slot[n](_ => BlankSlot(g));
      ways, table, blks := w, t, slots;
      Repr := {this, w, w.next, w.prev, t, t.heads, t.next, slots};
      new;
      BlankLines(g, ways.order, blks[..]);
    }

    lemma {:induction false} Sizes(x: int)
      requires ValidBut(x)
      ensures |Model()| == |ways.order| == g.assoc
    {
    }

    /** Position k of the way list, in the blocks and in the links. */
    lemma {:induction false} LinkAt(k: nat)
      requires Valid() && k < g.assoc
      ensures |Model()| == |ways.order| == g.assoc == ways.next.Length && ways.head == ways.order[0]
      ensures var b := ways.order[k];
              b < g.assoc && Model()[k] == LineOf(b, blks[b]) && ways.next[b] == Succ(ways.order, k)
    {
      assert ways.next[..][ways.order[k]] == Succ(ways.order, k);
    }

    /** Linear search of the way list from the head. */
    method SearchWays(t: nat) returns (blk: int)
      requires Valid() && WaysOk(g, Model())
      ensures blk == NULL <==> Lookup(Model(), t) == |Model()|
      ensures blk != NULL ==> 0 <= blk < g.assoc && Model()[Lookup(Model(), t)].blk == blk
    {
      hide Linked;
      hide Chained;
      hide WaysOk;
      hide LinesOf;
      hide Lookup;
      hide Hashed;
      hide Hash;
      ghost var k, w := 0, Model();
      LinkAt(0);
      blk := ways.head;
      while blk != NULL
        invariant k <= |w| == |ways.order| && blk == if k < |w| then ways.order[k] else NULL
        invariant forall j :: 0 <= j < k ==> !Holds(w[j], t)
        decreases |w| - k
      {
        LinkAt(k);
        if blks[blk].tag == t && blks[blk].valid {
          LookupUnique(g, w, t, k);
          return;
        }
        blk := ways.next[blk];
        k := k + 1;
      }
      LookupAbsent(w, t);
    }

    /** The blocks with tag t are all on the chain that t hashes to. */
    lemma {:induction false} ChainHoldsTag(t: nat)
      requires Valid() && HashSize(g) > 0
      ensures var c := table.chains[Hash(t, HashSize(g))];
              && Chain(c, table.heads[Hash(t, HashSize(g))], table.next[..])
              && forall i :: 0 <= i < |Model()| && Holds(Model()[i], t) ==> Model()[i].blk in c
    {
      hide Hash;
      hide Linked;
      hide LinesOf;
      var h := Hash(t, HashSize(g));
      assert Chain(table.chains[h], table.heads[..][h], table.next[..]);
      hide Chained;
      hide Chain;
      forall i | 0 <= i < |Model()| && Holds(Model()[i], t) ensures Model()[i].blk in table.chains[h] {
        ModelAt(i);
      }
    }

    /** Search of one bucket chain. */
    method SearchChain(t: nat) returns (blk: int)
      requires Valid() && WaysOk(g, Model()) && HashSize(g) > 0
      ensures blk == NULL <==> Lookup(Model(), t) == |Model()|
      ensures blk != NULL ==> 0 <= blk < g.assoc && Model()[Lookup(Model(), t)].blk == blk
    {
      hide Linked;
      hide Chained;
      hide WaysOk;
      hide LinesOf;
      hide Lookup;
      hide Chain;
      hide Hash;
      var h := Hash(t, HashSize(g));
      ChainOf(h);
      ghost var k, c := 0, table.chains[h];
      blk := table.heads[h];
      while blk != NULL
        invariant k <= |c| && blk == if k < |c| then c[k] else NULL
        invariant forall j :: 0 <= j < k ==> !Holds(LineOf(c[j], blks[c[j]]), t)
        decreases |c| - k
      {
        ChainAt(h, k);
        if blks[blk].tag == t && blks[blk].valid {
          ghost var i := PositionOf(blk);
          LookupUnique(g, Model(), t, i);
          return;
        }
        blk := table.next[blk];
        k := k + 1;
      }
      NotOnChain(t);
    }

    lemma {:induction false} ChainOf(h: nat)
      requires Valid() && h < HashSize(g)
      ensures |table.chains| == table.heads.Length == HashSize(g)
      ensures forall k :: 0 <= k < |table.chains[h]| ==> table.chains[h][k] < blks.Length
      ensures table.heads[h] == if table.chains[h] == [] then NULL else table.chains[h][0]
    {
      assert Chain(table.chains[h], table.heads[..][h], table.next[..]);
    }

    lemma {:induction false} ChainAt(h: nat, k: nat)
      requires Valid() && h < HashSize(g) == |table.chains| && k < |table.chains[h]|
      ensures var c := table.chains[h];
              c[k] < g.assoc == table.next.Length && table.next[c[k]] == Succ(c, k)
    {
      assert Chain(table.chains[h], table.heads[..][h], table.next[..]);
      assert table.next[..][table.chains[h][k]] == Succ(table.chains[h], k);
    }

    /** If no block on the chain of a tag holds it, the search fails. */
    lemma {:induction false} NotOnChain(t: nat)
      requires Valid() && 0 < HashSize(g) == |table.chains|
      requires var c := table.chains[Hash(t, HashSize(g))];
               forall j :: 0 <= j < |c| ==> c[j] < blks.Length && !Holds(LineOf(c[j], blks[c[j]]), t)
      ensures Lookup(Model(), t) == |Model()|
    {
      hide Linked;
      hide LinesOf;
      hide Lookup;
      hide Hash;
      ChainHoldsTag(t);
      forall i | 0 <= i < |Model()| ensures !Holds(Model()[i], t) {
        if Holds(Model()[i], t) {
          ModelAt(i);
        }
      }
      LookupAbsent(Model(), t);
    }

    lemma {:induction false} ModelAt(i: nat)
      requires Valid() && i < |Model()|
      ensures i < |ways.order| && ways.order[i] < g.assoc && Model()[i] == LineOf(ways.order[i], blks[ways.order[i]])
    {
    }


    /** The block that holds the tag, by whichever index the set has: both find the same. */
    method Search(t: nat) returns (blk: int)
      requires Valid() && WaysOk(g, Model())
      ensures blk == NULL <==> Lookup(Model(), t) == |Model()|
      ensures blk != NULL ==> 0 <= blk < g.assoc && Model()[Lookup(Model(), t)].blk == blk
    {
      if HashSize(g) > 0 {
        blk := SearchChain(t);
      } else {
        blk := SearchWays(t);
      }
    }

    /** Position of a block on the way list, in the model. */
    lemma {:induction false} PositionOf(blk: nat) returns (k: nat)
      requires Valid() && blk < g.assoc
      ensures k < |Model()| && Model()[k] == LineOf(blk, blks[blk]) && ways.order[k] == blk
      ensures forall j :: 0 <= j < |Model()| && Model()[j].blk == blk ==> j == k
      ensures |Model()| == |ways.order| == ways.prev.Length == g.assoc
      ensures ways.prev[blk] == NULL <==> k == 0
      ensures k == 0 <==> ways.head == blk
    {
      k := Position(ways.order, ways.next[..], ways.prev[..], ways.head, ways.tail, blk);
    }

    /** Overwrites the fields of one block, links aside; the tag may change only while the block is off its chain. */
    method SetSlot(blk: nat, slot: Slot, ghost k: nat, ghost x: int)
      requires ValidBut(x) && blk < g.assoc && k < g.assoc && ways.order[k] == blk
      requires slot.tag == blks[blk].tag || x == blk
      modifies blks
      ensures ValidBut(x) && blks[..] == old(blks[..])[blk := slot]
      ensures Model() == old(Model())[k := LineOf(blk, slot)]
    {
      hide Chained;
      hide Linked;
      hide LinesOf;
      hide Hash;
      ghost var before := blks[..];
      Sizes(x);
      blks[blk] := slot;
      assert blks[..] == before[blk := slot];
      SlotLines(ways.order, before, k, slot, ways.next[..], ways.prev[..], ways.head, ways.tail);
    }

    /** CACHE_BCOPY for a write, and the dirty bit. */
    method Touch(blk: nat, q: Request, ghost k: nat)
      requires Valid() && WaysOk(g, Model()) && Fits(g, q)
      requires blk < g.assoc && k < g.assoc && ways.order[k] == blk
      modifies blks
      ensures Valid() && Model() == old(Model())[k := Touched(g, old(Model())[k], q)]
      ensures blks[blk].tag == old(blks[blk].tag) && blks[blk].valid == old(blks[blk].valid)
    {
      hide Chained;
      hide Linked;
      assert LineOk(g, Model()[k]);
      if q.cmd == Write {
        var d := blks[blk].data;
        SetSlot(blk, blks[blk].(dirty := true, data := if g.balloc then Poke(d, q.ofs, q.bytes) else d), k, NULL);
      }
    }

    /** update_way_list to the head. */
    method Promote(blk: nat, ghost k: nat, ghost x: int)
      requires ValidBut(x) && blk < g.assoc && k < g.assoc && ways.order[k] == blk
      modifies ways, ways.next, ways.prev
      ensures ValidBut(x) && ways.head == blk && ways.order[0] == blk
      ensures Model() == ToHead(old(Model()), k, old(Model())[k])
    {
      hide Chained;
      hide ToHead;
      hide LinesOf;
      hide Hash;
      hide Linked;
      hide Front;
      ghost var order := ways.order;
      ghost var j := Position(order, ways.next[..], ways.prev[..], ways.head, ways.tail, blk);
      FrontHead(order, k);
      FrontLines(order, blks[..], k);
      ghost var i := ways.MoveToHead(blk);
      SamePosition(order, i, k);
    }

    /** A hit found by search: the block becomes the most recently used under LRU. */
    method SlowHit(blk: nat, q: Request, ghost k: nat)
      requires Valid() && WaysOk(g, Model()) && Fits(g, q) && blk < g.assoc && k < g.assoc && ways.order[k] == blk
      modifies blks, ways, ways.next, ways.prev
      ensures Valid() && Model() == HitWays(g, old(Model()), k, q)
      ensures g.policy == LRU ==> ways.head == blk
      ensures blks[blk].tag == old(blks[blk].tag) && blks[blk].valid == old(blks[blk].valid)
    {
      hide Chained;
      hide Linked;
      hide WaysOk;
      hide HitWays;
      hide Touched;
      hide LinesOf;
      hide ToHead;
      ghost var j := PositionOf(blk);
      ghost var w := Model();
      ModelAt(k);
      HeadHit(g, w, k, q);
      Touch(blk, q, k);
      if ways.prev[blk] != NULL && g.policy == LRU {
        Promote(blk, k, NULL);
      }
    }

    /** A hit on the block that hit last: under LRU it is the head already. */
    method FastHit(blk: nat, q: Request, ghost k: nat)
      requires Valid() && WaysOk(g, Model()) && Fits(g, q) && blk < g.assoc && k < g.assoc && ways.order[k] == blk
      requires g.policy == LRU ==> ways.head == blk
      modifies blks
      ensures Valid() && Model() == HitWays(g, old(Model()), k, q)
      ensures blks[blk].tag == old(blks[blk].tag) && blks[blk].valid == old(blks[blk].valid)
    {
      hide Chained;
      hide Linked;
      hide WaysOk;
      hide HitWays;
      hide Touched;
      hide LinesOf;
      hide ToHead;
      ghost var j := PositionOf(blk);
      ModelAt(k);
      HeadHit(g, Model(), k, q);
      Touch(blk, q, k);
    }

    /** Takes a block off its chain, if the set has chains. */
    method Unhash(blk: nat)
      requires Valid() && blk < g.assoc
      modifies table, table.heads, table.next
      ensures ValidBut(blk) && Model() == old(Model())
    {
      hide Linked;
      if HashSize(g) > 0 {
        ghost var chains := table.chains;
        var h := Hash(blks[blk].tag, HashSize(g));
        ghost var k := table.Unlink(blk, h);
        WithoutKeeps(chains[h], k);
      }
    }

    /** Puts a block on the chain of its tag. */
    method Rehash(blk: nat)
      requires ValidBut(blk) && blk < g.assoc
      modifies table, table.heads, table.next
      ensures Valid() && Model() == old(Model())
    {
      hide Linked;
      hide Chained;
      if HashSize(g) > 0 {
        table.Link(blk, Hash(blks[blk].tag, HashSize(g)));
      }
    }

    /** Selects the block to replace, moves it to the head unless replacement is random, and unhashes it. */
    method Evict(r: nat) returns (blk: nat, ghost k: nat)
      requires Valid() && WaysOk(g, Model()) && (g.policy == Random ==> r < g.assoc)
      modifies ways, ways.next, ways.prev, table, table.heads, table.next
      ensures ValidBut(blk) && blk < g.assoc
      ensures k == Victim(g, old(Model()), r) && old(Model())[k] == LineOf(blk, blks[blk])
      ensures Model() == if g.policy == Random then old(Model()) else ToHead(old(Model()), k, old(Model())[k])
      ensures ways.order[if g.policy == Random then k else 0] == blk
    {
      hide Chained;
      hide Linked;
      hide WaysOk;
      hide LinesOf;
      hide ToHead;
      hide Hash;
      if g.policy == Random {
        blk := r;
        k := PositionOf(blk);
        IndexOfUnique(Model(), blk, k);
      } else {
        TailIsLast();
        blk := ways.tail;
        k := PositionOf(blk);
        Promote(blk, k, NULL);
      }
      Unhash(blk);
    }

    lemma {:induction false} TailIsLast()
      requires Valid()
      ensures 0 <= ways.tail < g.assoc == |ways.order| && ways.order[g.assoc - 1] == ways.tail
      ensures forall j :: 0 <= j < g.assoc - 1 ==> ways.order[j] != ways.tail
    {
    }

    /** Fills the evicted block and hashes it again. */
    method Install(blk: nat, t: nat, fill: seq<Byte>, q: Request, ghost k: nat)
      requires ValidBut(blk) && Fits(g, q) && |fill| == if g.balloc then g.bsize else 0
      requires blk < g.assoc && k < g.assoc && ways.order[k] == blk
      modifies blks, table, table.heads, table.next
      ensures Valid() && Model() == old(Model())[k := Touched(g, Line(blk, t, true, false, fill), q)]
    {
      hide Linked;
      hide Chained;
      var data := if q.cmd == Write && g.balloc then Poke(fill, q.ofs, q.bytes) else fill;
      SetSlot(blk, Slot(t, true, q.cmd == Write, data), k, blk);
      Rehash(blk);
    }

    /** Clears the valid bit. */
    method Invalidate(blk: nat, ghost k: nat)
      requires Valid() && blk < g.assoc && k < g.assoc && ways.order[k] == blk
      modifies blks
      ensures Valid() && Model() == old(Model())[k := Invalidated(old(Model())[k])]
    {
      ghost var j := PositionOf(blk);
      hide Linked;
      hide Chained;
      SetSlot(blk, blks[blk].(valid := false), k, NULL);
    }

    /** update_way_list to the tail. */
    method Demote(blk: nat, ghost k: nat)
      requires Valid() && blk < g.assoc && k < g.assoc && ways.order[k] == blk
      modifies ways, ways.next, ways.prev
      ensures Valid() && Model() == ToTail(old(Model()), k, old(Model())[k])
    {
      hide Chained;
      hide ToTail;
      hide LinesOf;
      hide Back;
      hide Hash;
      ghost var order := ways.order;
      ghost var j := Position(order, ways.next[..], ways.prev[..], ways.head, ways.tail, blk);
      hide Linked;
      BackLines(order, blks[..], k);
      ghost var i := ways.MoveToTail(blk);
      SamePosition(order, i, k);
    }

    /** The walk along the way list. */
    method FirstBlock() returns (blk: nat)
      requires Valid()
      ensures |ways.order| == |Model()| == g.assoc && blk == ways.order[0] && blk < g.assoc
    {
      blk := ways.head;
    }

    method NextBlock(ghost k: nat, blk: nat) returns (next: int)
      requires Valid() && k < g.assoc && ways.order[k] == blk
      ensures |ways.order| == g.assoc && next == Succ(ways.order, k) && next < g.assoc
    {
      LinkAt(k);
      hide Linked;
      next := ways.next[blk];
    }
  }
}
