/** instr.c: the instruction trace, kept in a list of fixed-size chunks. */
module InstrTrace {

  const INSTR_TRACE_SIZE: nat := 1000000

  /** The flat trace that the chunks stand for. */
  function Flat<T>(chunks: seq<seq<T>>): seq<T> {
    if chunks == [] then [] else Flat(chunks[..|chunks| - 1]) + chunks[|chunks| - 1]
  }

  /** All chunks but the last are full. */
  ghost predicate Packed<T>(chunks: seq<seq<T>>) {
    && |chunks| > 0
    && (forall i :: 0 <= i < |chunks| ==> |chunks[i]| <= INSTR_TRACE_SIZE)
    && (forall i :: 0 <= i < |chunks| - 1 ==> |chunks[i]| == INSTR_TRACE_SIZE)
  }

  lemma {:induction false} FlatSize<T>(chunks: seq<seq<T>>)
    requires Packed(chunks)
    ensures |Flat(chunks)| == (|chunks| - 1) * 1_000_000 + |chunks[|chunks| - 1]|
  {
    if |chunks| > 1 {
      FlatSize(chunks[..|chunks| - 1]);
    } else {
      assert Flat(chunks[..0]) == [];
    }
  }

  /** Entry j of chunk k is entry k * 1000000 + j of the trace. */
  lemma {:induction false} FlatAt<T>(chunks: seq<seq<T>>, k: nat, j: nat)
    requires Packed(chunks) && k < |chunks| && j < |chunks[k]|
    ensures k * 1_000_000 + j < |Flat(chunks)| && Flat(chunks)[k * 1_000_000 + j] == chunks[k][j]
  {
    var n := |chunks| - 1;
    FlatSize(chunks);
    if n > 0 {
      FlatSize(chunks[..n]);
      if k < n { FlatAt(chunks[..n], k, j); }
    }
  }

  lemma {:induction false} FlatAppend<T>(chunks: seq<seq<T>>, x: T)
    requires |chunks| > 0
    ensures var n := |chunks| - 1;
            && Flat(chunks[n := chunks[n] + [x]]) == Flat(chunks) + [x]
            && Flat(chunks + [[x]]) == Flat(chunks) + [x]
  {
    var n := |chunks| - 1;
    assert chunks[n := chunks[n] + [x]][..n] == chunks[..n];
    assert (chunks + [[x]])[..|chunks|] == chunks;
  }

  class Trace<T> {
    const zeroed: T  // what a slot that was never written holds
    var chunks: seq<seq<T>>

    ghost predicate Valid()
      reads this
    {
      Packed(chunks)
    }

    ghost function Contents(): seq<T>
      reads this
    {
      Flat(chunks)
    }

    constructor (zeroed: T)
      ensures Valid() && Contents() == [] && this.zeroed == zeroed
    {
      this.zeroed := zeroed;
      chunks := [[]];
    }

    /** put_instr: walks past the full chunks and appends, in a new chunk if all are full. */
    method Put(x: T)
      requires Valid()
      modifies this
      ensures Valid() && Contents() == old(Contents()) + [x]
    {
      var k := 0;
      while |chunks[k]| == INSTR_TRACE_SIZE && k + 1 < |chunks|
        invariant 0 <= k < |chunks|
      {
        k := k + 1;
      }
      FlatAppend(chunks, x);
      if |chunks[k]| == INSTR_TRACE_SIZE {
        chunks := chunks + [[x]];
      } else {
        chunks := chunks[k := chunks[k] + [x]];
      }
    }

    /** get_instr: skips whole chunks. It asks only that the slot is allocated, not that it was written. */
    method Get(index: nat) returns (x: T)
      requires Valid() && index < |chunks| * INSTR_TRACE_SIZE
      ensures x == if index < |Contents()| then Contents()[index] else zeroed
    {
      var i, k := index, 0;
      FlatSize(chunks);
      while i >= INSTR_TRACE_SIZE
        invariant 0 <= k < |chunks| && i >= 0 && index == k * INSTR_TRACE_SIZE + i
      {
        i := i - INSTR_TRACE_SIZE;
        k := k + 1;
      }
      if i < |chunks[k]| {
        FlatAt(chunks, k, i);
        x := chunks[k][i];
      } else {
        x := zeroed;
      }
    }

    /** Every recorded entry is in an allocated slot. */
    lemma {:induction false} Allocated()
      requires Valid()
      ensures |Contents()| <= |chunks| * INSTR_TRACE_SIZE
    {
      FlatSize(chunks);
    }
  }
}
