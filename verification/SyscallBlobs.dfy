/** How the recorder cuts a copy: the bytes of one copy through mem_bcopy end up in blobs of 256. */
module SyscallBlobs {
  import opened Exo
  import opened FlatMemory
  import opened MemoryModel
  import opened MemoryTheorems
  import opened SyscallReplay
  import opened SyscallTrace

  /** A copy to memory, byte by byte; the addresses wrap at 32 bits. */
  function CopyIn(a: nat, bytes: seq<Byte>): (xs: seq<Access>)
    ensures |xs| == |bytes| && forall i :: 0 <= i < |bytes| ==> xs[i] == Write(Narrow(a + i), [bytes[i]])
  {
    seq(|bytes|, i requires 0 <= i < |bytes| => Write(Narrow(a + i), [bytes[i]]))
  }

  /** A copy of n bytes out of memory. */
  function CopyOut(a: nat, n: nat): (xs: seq<Access>)
    ensures |xs| == n && forall i :: 0 <= i < n ==> xs[i] == Read(Narrow(a + i), [0])
  {
    seq(n, i requires 0 <= i < n => Read(Narrow(a + i), [0]))
  }

  /** The bytes in pieces of 256, the last one perhaps shorter. */
  function Cut(a: nat, bytes: seq<Byte>): (rs: seq<Rec>)
    ensures |rs| == (|bytes| + 255) / 256
  {
    seq((|bytes| + 255) / 256, k requires 0 <= k < (|bytes| + 255) / 256 => Piece(a, bytes, k))
  }

  function Piece(a: nat, bytes: seq<Byte>, k: nat): Rec
    requires 256 * k < |bytes|
  {
    var end := if 256 * k + 256 < |bytes| then 256 * k + 256 else |bytes|;
    Rec(Narrow(a + 256 * k), bytes[256 * k..end], 257)
  }

  lemma {:induction false} PieceKept(a: nat, bytes: seq<Byte>, b: Byte, k: nat)
    requires 256 * k + 256 <= |bytes|
    ensures Piece(a, bytes + [b], k) == Piece(a, bytes, k)
  {
    hide Narrow;
    assert (bytes + [b])[256 * k..256 * k + 256] == bytes[256 * k..256 * k + 256];
  }

  lemma {:induction false} FullPieces(a: nat, bytes: seq<Byte>, b: Byte, k: nat)
    requires k * 256 <= |bytes|
    ensures k <= |Cut(a, bytes)| && k <= |Cut(a, bytes + [b])| && Cut(a, bytes + [b])[..k] == Cut(a, bytes)[..k]
  {
    hide Piece;
    forall j | 0 <= j < k ensures Cut(a, bytes + [b])[j] == Cut(a, bytes)[j] { PieceKept(a, bytes, b, j); }
  }

  lemma {:induction false} NewPiece(a: nat, bytes: seq<Byte>, b: Byte)
    requires |bytes| % 256 == 0
    ensures Cut(a, bytes + [b]) == Cut(a, bytes) + [Rec(Narrow(a + |bytes|), [b], 257)]
    ensures !Continues(Cut(a, bytes), Narrow(a + |bytes|), [b])
  {
    hide Narrow;
    var n, k := |bytes|, |bytes| / 256;
    FullPieces(a, bytes, b, k);
    assert (bytes + [b])[n..n + 1] == [b];
    assert |Cut(a, bytes)| == k && |Cut(a, bytes + [b])| == k + 1;
  }

  lemma {:induction false} LastPiece(a: nat, bytes: seq<Byte>, b: Byte)
    requires |bytes| % 256 != 0
    ensures var k := |bytes| / 256;
            Piece(a, bytes + [b], k) == Extend(Piece(a, bytes, k), [b]) && |Piece(a, bytes, k).data| < 256
            && Narrow(Piece(a, bytes, k).addr + |Piece(a, bytes, k).data|) == Narrow(a + |bytes|)
  {
    hide Narrow;
    var n, k := |bytes|, |bytes| / 256;
    assert (bytes + [b])[256 * k..n + 1] == bytes[256 * k..n] + [b];
    NarrowAdd(a + 256 * k, n - 256 * k);
  }

  /** One more byte goes into the last piece while that has fewer than 256, else it starts a piece. */
  lemma {:induction false} CutGrows(a: nat, bytes: seq<Byte>, b: Byte)
    ensures Add(Cut(a, bytes), Narrow(a + |bytes|), [b]) == Cut(a, bytes + [b])
  {
    hide Narrow;
    if |bytes| % 256 == 0 {
      NewPiece(a, bytes, b);
      hide Cut;
      hide Continues;
    } else {
      var k := |bytes| / 256;
      FullPieces(a, bytes, b, k);
      LastPiece(a, bytes, b);
      hide Piece;
      var rs, rs' := Cut(a, bytes), Cut(a, bytes + [b]);
      assert |rs| == k + 1 == |rs'| && rs[k] == Piece(a, bytes, k) && rs'[k] == Piece(a, bytes + [b], k);
      assert rs' == rs[..k] + [rs'[k]];
      assert rs[k].room == 257 by { PieceRoom(a, bytes, k); }
    }
  }

  lemma {:induction false} PieceRoom(a: nat, bytes: seq<Byte>, k: nat)
    requires 256 * k < |bytes|
    ensures Piece(a, bytes, k).room == 257
  {
  }

  lemma {:induction false} CutNothing(a: nat)
    ensures Cut(a, []) == []
  {
  }

  lemma {:induction false} CopyInPrefix(a: nat, bytes: seq<Byte>)
    requires |bytes| > 0
    ensures CopyIn(a, bytes)[..|bytes| - 1] == CopyIn(a, bytes[..|bytes| - 1])
  {
    hide Narrow;
  }

  /** A copy of n bytes to memory is recorded as the fewest blobs of at most 256 bytes, whatever memory holds. */
  lemma {:induction false} CopyInBlobs(m: Mem, a: nat, bytes: seq<Byte>)
    requires |m.table| == BUCKETS
    ensures var r := Record(m, CopyIn(a, bytes)); r.Ok? && r.value.input == [] && r.value.output == Cut(a, bytes)
  {
    hide After;
    hide Add;
    hide Cut;
    hide Narrow;
    var xs := CopyIn(a, bytes);
    if bytes == [] {
      CutNothing(a);
    } else {
      var n := |bytes| - 1;
      CopyInPrefix(a, bytes);
      CopyInBlobs(m, a, bytes[..n]);
      CutGrows(a, bytes[..n], bytes[n]);
      assert bytes[..n] + [bytes[n]] == bytes;
    }
  }

  /** The bytes at a and on, in 32-bit addresses. */
  function Stretch(m: Mem, a: nat, n: nat): (bytes: seq<Byte>)
    requires |m.table| == BUCKETS
    ensures |bytes| == n
  {
    seq(n, i requires 0 <= i < n => Load(m.table, Narrow(a + i)))
  }

  lemma {:induction false} CopyOutPrefix(m: Mem, a: nat, n: nat)
    requires |m.table| == BUCKETS && n > 0
    ensures CopyOut(a, n)[..n - 1] == CopyOut(a, n - 1)
    ensures Stretch(m, a, n) == Stretch(m, a, n - 1) + [Load(m.table, Narrow(a + n - 1))]
  {
    hide Narrow;
    hide Load;
  }

  lemma {:induction false} CopyOutReads(a: nat, n: nat)
    ensures Smooth(CopyOut(a, n)) && !HasWrite(CopyOut(a, n))
  {
    hide Check;
    var xs := CopyOut(a, n);
    forall i | 0 <= i < n ensures Check(xs[i].addr, Size(xs[i])) == NoFault { ByteChecks(xs[i].addr); }
    if HasWrite(xs) { var i := WriteIn(xs); }
  }

  lemma {:induction false} NextByte(m: Mem, m1: Mem, a: nat)
    requires |m.table| == BUCKETS && Unaltered(m, m1) && a < ADDRESS_SPACE
    ensures |m1.table| == BUCKETS && AnswerTo(m1, Read(a, [0])).data == [Load(m.table, a)]
  {
    hide Load;
    hide MemOk;
    hide Mapped;
    UnalteredLoads(m, m1, a);
    ByteAnswer(m1, Cell(a, Load(m1.table, a)));
  }

  lemma {:induction false} ReadRecorded(m: Mem, xs: seq<Access>)
    requires |m.table| == BUCKETS && Smooth(xs) && !HasWrite(xs)
    ensures Record(m, xs).Ok? && !Record(m, xs).value.seenWrite && Record(m, xs).value.mem == Run(m, xs)
  {
    hide Check;
    hide After;
    hide AnswerTo;
    hide Add;
    if xs != [] {
      SmoothPrefix(xs);
      hide Smooth;
      ReadRecorded(m, xs[..|xs| - 1]);
    }
  }

  /** Likewise a copy out of memory, with the bytes that are there. */
  lemma {:induction false} CopyOutBlobs(m: Mem, a: nat, n: nat)
    requires |m.table| == BUCKETS && MemOk(m)
    ensures var r := Record(m, CopyOut(a, n));
            r.Ok? && r.value.output == [] && r.value.input == Cut(a, Stretch(m, a, n))
  {
    hide After;
    hide AnswerTo;
    hide Add;
    hide Cut;
    hide MemOk;
    hide Load;
    hide Narrow;
    hide Unaltered;
    hide Smooth;
    hide HasWrite;
    if n == 0 {
      CutNothing(a);
      assert Stretch(m, a, 0) == [];
    } else {
      var xs0, x := CopyOut(a, n - 1), Read(Narrow(a + n - 1), [0]);
      CopyOutPrefix(m, a, n);
      CopyOutBlobs(m, a, n - 1);
      CopyOutReads(a, n - 1);
      ReadRecorded(m, xs0);
      ReadsLeaveMemory(m, xs0);
      NarrowRange(a + n - 1);
      NextByte(m, Run(m, xs0), Narrow(a + n - 1));
      CutGrows(a, Stretch(m, a, n - 1), Load(m.table, Narrow(a + n - 1)));
    }
  }
}
