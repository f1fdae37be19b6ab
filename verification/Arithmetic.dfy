/** 32-bit words, powers of two, and division facts the solver does not find by itself. */
module Arithmetic {

  const WORD: int := 0x1_0000_0000

  /** Conversion of a 32-bit word to int. */
  function Signed(x: int): (s: int)
    ensures -WORD / 2 <= s < WORD / 2 && (s - x) % WORD == 0
  {
    var r := x % WORD;
    if r < WORD / 2 then r else r - WORD
  }

  predicate IsPow2(n: nat) {
    n == 1 || (n > 1 && n % 2 == 0 && IsPow2(n / 2))
  }

  lemma {:induction false} DivModUnique(a: nat, n: nat, q: nat, r: nat)
    requires n > 0 && r < n && a == q * n + r
    ensures a / n == q && a % n == r
  {
    var k: int := a / n;
    assert (k - q) * n == r as int - (a % n) as int;
    MultipleOutside(k - q, n);
  }

  lemma {:induction false} MultipleOutside(k: int, n: int)
    requires n > 0
    ensures k >= 1 ==> k * n >= n
    ensures k <= -1 ==> k * n <= -n
  {
    if k >= 1 {
      assert (k - 1) * n >= 0;
    } else if k <= -1 {
      assert (-k - 1) * n >= 0;
    }
  }

  /** The larger of two powers of two is a multiple of the smaller. */
  lemma {:induction false} Pow2Divides(a: nat, b: nat)
    requires IsPow2(a) && IsPow2(b) && a <= b
    ensures b % a == 0
  {
    if a > 1 {
      Pow2Divides(a / 2, b / 2);
      var k := (b / 2) / (a / 2);
      assert b / 2 == k * (a / 2);
      assert b == k * a + 0;
      DivModUnique(b, a, k, 0);
    }
  }

  lemma {:induction false} MultiplesApart(a: nat, b: nat, n: nat)
    requires n > 0 && a % n == 0 && b % n == 0 && a < b
    ensures a + n <= b
  {
    var i, j := a / n, b / n;
    assert a == i * n && b == j * n;
    MultipleOutside(j - i, n);
    assert (j - i) * n == b - a;
  }

  lemma {:induction false} Pow2Twice(n: nat)
    requires IsPow2(n)
    ensures IsPow2(2 * n)
  {
    assert 2 * n / 2 == n;
  }

  lemma {:induction false} TwiceTimes(h: nat, b: nat)
    ensures (2 * h) * b == 2 * (h * b)
  {
  }

  lemma {:induction false} Pow2Product(a: nat, b: nat)
    requires IsPow2(a) && IsPow2(b)
    ensures IsPow2(a * b)
  {
    if a == 1 {
      assert a * b == b;
    } else {
      var h := a / 2;
      assert a == 2 * h;
      Pow2Product(h, b);
      hide IsPow2;
      Pow2Twice(h * b);
      TwiceTimes(h, b);
    }
  }

  lemma {:induction false} HalfOfMultiple(m: nat, n: nat, k: nat)
    requires n % 2 == 1 && m % 2 == 0 && m == k * n
    ensures k % 2 == 0 && m / 2 == k / 2 * n
  {
    var h, i := n / 2, k / 2;
    assert n == 2 * h + 1;
    assert k * n == 2 * (k * h) + k by { assert k * (2 * h) == 2 * (k * h); }
    assert k == 2 * i;
    assert 2 * i * n == 2 * (i * n);
  }

  lemma {:induction false} HalvesOfMultiple(m: nat, n: nat, k: nat)
    requires n % 2 == 0 && m == k * n
    ensures m / 2 == k * (n / 2)
  {
    assert n == 2 * (n / 2);
    assert k * (2 * (n / 2)) == 2 * (k * (n / 2));
  }

  /** The divisors of a power of two are powers of two. */
  lemma {:induction false} DivisorIsPow2(m: nat, n: nat)
    requires IsPow2(m) && n > 0 && m % n == 0
    ensures IsPow2(n) && n <= m
  {
    var k := m / n;
    assert m == k * n;
    MultipleOutside(k, n);
    if m > 1 && n > 1 {
      if n % 2 == 1 {
        HalfOfMultiple(m, n, k);
        DivModUnique(m / 2, n, k / 2, 0);
        DivisorIsPow2(m / 2, n);
      } else {
        HalvesOfMultiple(m, n, k);
        DivModUnique(m / 2, n / 2, k, 0);
        DivisorIsPow2(m / 2, n / 2);
      }
    }
  }

  lemma {:induction false} WordIsPow2()
    ensures IsPow2(4096) && IsPow2(0x1_0000_0000)
  {
    assert IsPow2(16);
    Pow2Product(16, 16);
    Pow2Product(256, 16);
    Pow2Product(256, 256);
    Pow2Product(0x1_0000, 0x1_0000);
  }
}
