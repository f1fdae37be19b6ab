/** The size, alignment and block-span checks at the top of cache_access, in 32-bit arithmetic. */
module CacheCheck {
  import opened Arithmetic
  import opened CacheModel
  import opened FlatMemory

  datatype Verdict = Accepted | BadAlignment | SpansBlock

  function BlockEnd(addr: nat, bsize: nat): nat
    requires bsize > 0
  {
    addr - addr % bsize + bsize
  }

  /** x & (n - 1) == 0 asks for a multiple of n when n is a power of two. */
  function Check(addr: nat, n: nat, bsize: nat): Verdict
    requires bsize > 0
  {
    if if n == 0 then addr != 0 else !(IsPow2(n) && addr % n == 0) then BadAlignment
    else if (addr + n) % ADDRESS_SPACE > BlockEnd(addr, bsize) % ADDRESS_SPACE then SpansBlock
    else Accepted
  }

  lemma {:induction false} WrappedCompare(a: nat, b: nat)
    requires 0 < a <= ADDRESS_SPACE && 0 < b <= ADDRESS_SPACE
    ensures a % ADDRESS_SPACE <= b % ADDRESS_SPACE <==> a == ADDRESS_SPACE || (a <= b && b < ADDRESS_SPACE)
  {
  }

  /** addr + n and the end of the block are at most the top of the address space. */
  lemma {:induction false} BelowTop(addr: nat, n: nat)
    requires addr < ADDRESS_SPACE && n < ADDRESS_SPACE && IsPow2(n) && addr % n == 0
    ensures addr + n <= ADDRESS_SPACE
  {
    WordIsPow2();
    Pow2Divides(n, ADDRESS_SPACE);
    MultiplesApart(addr, ADDRESS_SPACE, n);
  }

  lemma {:induction false} BaseAligned(addr: nat, bsize: nat)
    requires bsize > 0
    ensures bsize <= BlockEnd(addr, bsize) <= addr + bsize && (BlockEnd(addr, bsize) - bsize) % bsize == 0
  {
    DivModUnique(addr - addr % bsize, bsize, addr / bsize, 0);
  }

  lemma {:induction false} EndBelowTop(addr: nat, bsize: nat)
    requires addr < ADDRESS_SPACE && IsPow2(bsize) && bsize < ADDRESS_SPACE
    ensures 0 < BlockEnd(addr, bsize) <= ADDRESS_SPACE
  {
    BaseAligned(addr, bsize);
    var base := BlockEnd(addr, bsize) - bsize;
    hide BlockEnd;
    BelowTop(base, bsize);
  }

  /** The checks accept a non-empty access exactly when it is aligned and either fits a block that
      does not end at the top of the address space, or itself ends exactly there. */
  lemma {:induction false} AcceptedExactly(addr: nat, n: nat, bsize: nat)
    requires addr < ADDRESS_SPACE && 0 < n < ADDRESS_SPACE && IsPow2(bsize) && bsize < ADDRESS_SPACE
    ensures Check(addr, n, bsize) == Accepted <==>
              && IsPow2(n) && addr % n == 0
              && (addr + n == ADDRESS_SPACE || (addr + n <= BlockEnd(addr, bsize) < ADDRESS_SPACE))
  {
    if IsPow2(n) && addr % n == 0 {
      BelowTop(addr, n);
      EndBelowTop(addr, bsize);
      hide IsPow2;
      hide BlockEnd;
      WrappedCompare(addr + n, BlockEnd(addr, bsize));
    }
  }

  /** The two ways the checks differ from "fits the block": the last block takes only accesses that reach
      its end, and an access larger than a block is let through when it ends at the top. */
  lemma {:induction false} CheckIsNotFit()
    ensures Check(ADDRESS_SPACE - 32, 4, 32) == SpansBlock
    ensures Check(ADDRESS_SPACE - 64, 64, 32) == Accepted
  {
    assert IsPow2(4);
    assert IsPow2(64);
  }

  /** For an aligned access acceptance means fitting the block exactly when the access and the block both end at
      the top of the address space or neither does. */
  lemma {:induction false} AcceptedFits(g: Config, addr: nat, n: nat)
    requires IsPow2(g.bsize) && g.bsize < ADDRESS_SPACE && addr < ADDRESS_SPACE && 0 < n < ADDRESS_SPACE
    requires IsPow2(n) && addr % n == 0
    ensures (Check(addr, n, g.bsize) == Accepted
             <==> Fits(g, Request(Read, addr / g.bsize, addr % g.bsize, n, [])))
            <==> (addr + n == ADDRESS_SPACE <==> BlockEnd(addr, g.bsize) == ADDRESS_SPACE)
  {
    hide IsPow2;
    AcceptedExactly(addr, n, g.bsize);
    BelowTop(addr, n);
    EndBelowTop(addr, g.bsize);
    hide Check;
  }
}
