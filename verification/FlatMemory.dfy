/** Bytes, the 32-bit address space, and the flat zero-initialised byte map that both the cache
    and the page table are compared with. */
module FlatMemory {

  type Byte = bv8

  const ADDRESS_SPACE: nat := 0x1_0000_0000

  function Zeros(n: nat): (z: seq<Byte>)
    ensures |z| == n && forall i :: 0 <= i < n ==> z[i] == 0
  {
    seq(n, _ => 0 as Byte)
  }

  type Flat = map<nat, Byte>

  function Fetch(f: Flat, a: nat): Byte {
    if a in f then f[a] else 0
  }

  function FetchBytes(f: Flat, a: nat, n: nat): seq<Byte> {
    seq(n, i requires 0 <= i < n => Fetch(f, a + i))
  }

  function Put(f: Flat, a: nat, bytes: seq<Byte>): (f': Flat)
    ensures forall x: nat :: Fetch(f', x) == if a <= x < a + |bytes| then bytes[x - a] else Fetch(f, x)
  {
    if bytes == [] then f
    else
      var n := |bytes| - 1;
      var f1 := Put(f, a, bytes[..n]);
      assert forall x: nat :: Fetch(f1[a + n := bytes[n]], x) == if x == a + n then bytes[n] else Fetch(f1, x);
      f1[a + n := bytes[n]]
  }

  lemma {:induction false} PutAt(f: Flat, a: nat, bytes: seq<Byte>)
    ensures forall x: nat :: Fetch(Put(f, a, bytes), x) == if a <= x < a + |bytes| then bytes[x - a] else Fetch(f, x)
  {
  }
}
