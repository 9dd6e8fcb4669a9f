/** The size classes of the memory manager of Source/MemoryPools.cpp, and where blocks lie in a chunk. */
module SlabSizes {
  import opened Powers

  const BINS_COUNT := 12
  const SMALLEST: nat := 8
  const REGION: nat := 0x10000       // a chunk starts at a multiple of this
  const HEADER: nat := 48            // sizeof(HEADER) on a 64-bit system
  const PAGE: nat := 4096            // the system gives memory in whole pages
  const TAG_MARK: nat := 0xDE32_4F1A_8492_B311
  const SIZE_LIMIT: nat := 0x1_0000_0000_0000_0000

  /** Bitwise and. */
  function And(a: nat, b: nat): nat {
    if a == 0 || b == 0 then 0 else (if a % 2 == 1 && b % 2 == 1 then 1 else 0) + 2 * And(a / 2, b / 2)
  }

  /** Bitwise exclusive or. */
  function Xor(a: nat, b: nat): nat {
    if a == 0 && b == 0 then 0 else (a + b) % 2 + 2 * Xor(a / 2, b / 2)
  }

  /** What the header at an address is marked with. */
  function TagOf(address: nat): nat {
    Xor(TAG_MARK, address)
  }

  /** _BitScanReverse: the place of the highest bit set. */
  function HighestBit(n: nat): nat
    requires n > 0
  {
    if n == 1 then 0 else 1 + HighestBit(n / 2)
  }

  lemma HighestBitFrom8(n: nat)
    requires n >= 8
    ensures HighestBit(n) >= 3
  {
    assert HighestBit(n / 2 / 2) >= 1;
    assert HighestBit(n / 2) >= 2;
  }

  function IndexFromSize(size: nat): nat {
    if size >= 32768 then BINS_COUNT
    else
      var n := if size < 8 then 8 else size;
      HighestBitFrom8(n);
      (if And(n, n - 1) != 0 then HighestBit(n) + 1 else HighestBit(n)) - 3
  }

  lemma {:induction false} HighestBitIs(n: nat)
    requires n > 0
    ensures Pow2(HighestBit(n)) <= n < 2 * Pow2(HighestBit(n))
  {
    if n > 1 {
      HighestBitIs(n / 2);
    }
  }

  lemma {:induction false} AndSelf(n: nat)
    ensures And(n, n) == n
  {
    if n > 0 {
      AndSelf(n / 2);
    }
  }

  /** The test for a power of two. */
  lemma {:induction false} AndPredecessor(n: nat)
    requires n > 0
    ensures And(n, n - 1) == 0 <==> n == Pow2(HighestBit(n))
  {
    if n > 1 {
      if n % 2 == 0 {
        AndPredecessor(n / 2);
        assert (n - 1) / 2 == n / 2 - 1;
      } else {
        assert (n - 1) / 2 == n / 2;
        AndSelf(n / 2);
      }
    }
  }

  /** No smaller class fits. */
  lemma SmallerFails(n: nat, top: nat, smaller: nat)
    requires n > 0 && smaller + 3 < top
             && (top == HighestBit(n) || (top == HighestBit(n) + 1 && n != Pow2(HighestBit(n))))
    ensures SMALLEST * Pow2(smaller) < n
  {
    HighestBitIs(n);
    Times8(smaller);
    if smaller + 3 < HighestBit(n) {
      Pow2Grows(smaller + 3, HighestBit(n));
    }
  }

  lemma SomePowers()
    ensures Pow2(3) == 8 && Pow2(14) == 16384 && Pow2(15) == 32768
  {
    assert Pow2(4) == 16 && Pow2(6) == 64 && Pow2(8) == 256 && Pow2(10) == 1024 && Pow2(12) == 4096;
  }

  lemma IndexFits(size: nat)
    requires size < 32768
    ensures var n := if size < 8 then 8 else size;
            var index := IndexFromSize(size);
            && index + 3 == HighestBit(n) + (if n == Pow2(HighestBit(n)) then 0 else 1) && index <= BINS_COUNT
            && size <= SMALLEST * Pow2(index) && (index < BINS_COUNT <==> size <= 16384) && (size < 8 ==> index == 0)
  {
    SomePowers();
    var n := if size < 8 then 8 else size;
    var h, index := HighestBit(n), IndexFromSize(size);
    HighestBitIs(n);
    AndPredecessor(n);
    HighestBitFrom8(n);
    Times8(index);
    if h > 14 {
      Pow2Grows(14, h);
    } else if index + 3 < 14 {
      Pow2Grows(index + 3, 14);
    }
    assert size < 8 ==> index == 0 by {
      assert HighestBit(4) == 2;
    }
  }

  /** The size class is the least power of two from 8 to 16384 that is not below the size;
      there is none for sizes over 16384, which get a superblock. */
  lemma IndexIsLeast(size: nat)
    ensures var index := IndexFromSize(size);
            && index <= BINS_COUNT && (index == BINS_COUNT <==> size > 16384)
            && (index < BINS_COUNT ==>
                  && size <= SMALLEST * Pow2(index) <= 16384
                  && forall smaller :: 0 <= smaller < index ==> SMALLEST * Pow2(smaller) < size)
  {
    if size < 32768 {
      var n, index := if size < 8 then 8 else size, IndexFromSize(size);
      IndexFits(size);
      if index < BINS_COUNT {
        SomePowers();
        Times8(index);
        if index + 3 < 14 {
          Pow2Grows(index + 3, 14);
        }
      }
      forall smaller | 0 <= smaller < index ensures SMALLEST * Pow2(smaller) < size {
        SmallerFails(n, index + 3, smaller);
      }
    }
  }

  lemma Times8(n: nat)
    ensures SMALLEST * Pow2(n) == Pow2(n + 3)
  {
    assert Pow2(n + 1) == 2 * Pow2(n) && Pow2(n + 2) == 2 * Pow2(n + 1);
  }

  /** The address of block i of the chunk at base. */
  function BlockAt(base: nat, size: nat, i: nat): nat {
    base + HEADER + i * size
  }

  /** The addresses of the first n blocks of the chunk at base. */
  function Blocks(base: nat, size: nat, n: nat): set<nat> {
    if n == 0 then {} else Blocks(base, size, n - 1) + {BlockAt(base, size, n - 1)}
  }

  /** The start of the chunk that an address lies in. */
  function BaseOf(a: nat): nat {
    a - a % REGION
  }

  lemma {:induction false} BlocksAre(base: nat, size: nat, n: nat)
    requires size > 0
    ensures forall a :: a in Blocks(base, size, n) <==> exists i :: 0 <= i < n && a == BlockAt(base, size, i)
    ensures |Blocks(base, size, n)| == n
  {
    if n > 0 {
      BlocksAre(base, size, n - 1);
      forall i | 0 <= i < n - 1 ensures BlockAt(base, size, i) != BlockAt(base, size, n - 1) {
        BlocksApart(base, size, i, n - 1);
      }
      assert BlockAt(base, size, n - 1) !in Blocks(base, size, n - 1);
    }
  }

  lemma BlockAfter(base: nat, size: nat, i: nat)
    ensures BlockAt(base, size, i + 1) == BlockAt(base, size, i) + size
  {
    assert (i + 1) * size == i * size + size;
  }

  lemma {:induction false} BlocksApart(base: nat, size: nat, i: nat, j: nat)
    requires i < j
    ensures BlockAt(base, size, i) + size <= BlockAt(base, size, j)
  {
    BlockAfter(base, size, j - 1);
    if i < j - 1 {
      BlocksApart(base, size, i, j - 1);
    }
  }

  lemma BlockInside(base: nat, size: nat, n: nat, i: nat)
    requires i < n && n * size <= REGION - HEADER
    ensures BlockAt(base, size, i) + size <= base + REGION
  {
    BlocksApart(base, size, i, n);
  }

  lemma TwoBlocks(base: nat, size: nat, i: nat, j: nat)
    requires i != j
    ensures BlockAt(base, size, i) + size <= BlockAt(base, size, j)
            || BlockAt(base, size, j) + size <= BlockAt(base, size, i)
  {
    if i < j {
      BlocksApart(base, size, i, j);
    } else {
      BlocksApart(base, size, j, i);
    }
  }

  lemma BlockFits(base: nat, size: nat, n: nat, i: nat)
    requires base % REGION == 0 && size > 0 && n * size <= REGION - HEADER && i < n
    ensures var a := BlockAt(base, size, i); base + HEADER <= a && a + size <= base + REGION && BaseOf(a) == base
  {
    BlockInside(base, size, n, i);
    var a := BlockAt(base, size, i);
    assert base + HEADER <= a < base + REGION;
  }

  /** Blocks lie behind the header, inside the chunk, and apart from each other. */
  lemma BlocksFit(base: nat, size: nat, n: nat, a: nat)
    requires base % REGION == 0 && size > 0 && n * size <= REGION - HEADER && a in Blocks(base, size, n)
    ensures base + HEADER <= a && a + size <= base + REGION && BaseOf(a) == base
    ensures forall b :: b in Blocks(base, size, n) && b != a ==> a + size <= b || b + size <= a
  {
    BlocksAre(base, size, n);
    var i :| 0 <= i < n && a == BlockAt(base, size, i);
    BlockFits(base, size, n, i);
    forall b | b in Blocks(base, size, n) && b != a ensures a + size <= b || b + size <= a {
      var j :| 0 <= j < n && b == BlockAt(base, size, j);
      TwoBlocks(base, size, i, j);
    }
  }
}
