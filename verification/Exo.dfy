/** EXO terms, the values an EIO file is made of, and the casts between registers and terms. */
module Exo {
  import opened Arithmetic
  import opened FlatMemory
  import opened MemoryModel

  /** Integers and addresses are 64-bit. Printing and reading a term back is taken to be the identity. */
  datatype Term = Integer(v: nat) | Address(v: nat) | Blob(data: seq<Byte>) | List(elts: seq<Term>)

  datatype Result<T> = Ok(value: T) | Fatal(reason: Reason)

  datatype Reason =
    | BadTransaction | IcntMismatch | PcMismatch | MissingRegister | InputMismatch | TooManyRegisters
    | BadMemoryTransaction | MissingBreak | ReadAfterWrite | BadCheckpoint | BadRegister | BadPage
    | ExitCall

  const QWORD: nat := 0x1_0000_0000_0000_0000

  /** The cast to a 64-bit unsigned integer. */
  function Widen(x: int): (v: nat)
    ensures v < QWORD
  {
    x % QWORD
  }

  /** The cast of a 64-bit value to a 32-bit address. */
  function Narrow(v: nat): (a: nat)
    ensures a < ADDRESS_SPACE
  {
    v % ADDRESS_SPACE
  }

  lemma {:induction false} NarrowRange(a: nat)
    ensures Narrow(a) < ADDRESS_SPACE
  {
  }

  lemma {:induction false} NarrowNone(a: nat)
    requires a < ADDRESS_SPACE
    ensures Narrow(a) == a
  {
  }

  predicate IsRegister(x: int) {
    -WORD / 2 <= x < WORD / 2
  }

  /** MD_IREG_TO_EXO */
  function RegisterTerm(x: int): Term {
    Address(Widen(x))
  }

  /** MD_EXO_TO_IREG, and the value MD_EXO_CMP_IREG compares with. */
  function RegisterOf(v: nat): (x: int)
    ensures IsRegister(x)
  {
    Signed(v)
  }

  /** A register survives the trip through a 64-bit term, whatever its sign. */
  lemma {:induction false} RegisterRoundTrip(x: int)
    requires IsRegister(x)
    ensures RegisterOf(Widen(x)) == x
  {
    if x >= 0 {
      assert Widen(x) == x;
    } else {
      assert Widen(x) == x + QWORD;
      assert (x + QWORD) % WORD == x + WORD;
    }
  }

  lemma {:induction false} AddressRoundTrip(a: nat)
    requires a < ADDRESS_SPACE
    ensures Narrow(Widen(a)) == a
  {
  }

  lemma {:induction false} CountRoundTrip(n: nat)
    requires n < QWORD
    ensures Widen(n) == n
  {
  }

  function RegisterTerms(xs: seq<int>): (ts: seq<Term>)
    ensures |ts| == |xs| && forall i :: 0 <= i < |xs| ==> ts[i] == RegisterTerm(xs[i])
  {
    seq(|xs|, i requires 0 <= i < |xs| => RegisterTerm(xs[i]))
  }
}
