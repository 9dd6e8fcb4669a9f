/** The chunks of the memory manager of Source/MemoryPools.cpp: circular lists of chunks,
    and in each chunk a list of its free blocks, linked through the blocks themselves. */
module SlabChunks {
  import opened Sequences
  import opened SlabSizes

  /** The list a chunk is on. */
  datatype Place = Nowhere | OnFree | OnInUse | OnFull

  /** The words are the same but for those of the n bytes at a. */
  ghost predicate Agrees(was: map<nat, nat>, words: map<nat, nat>, a: nat, n: nat) {
    forall x {:trigger x in words} :: !(a <= x < a + n) ==>
        (x in words <==> x in was)
        && (x in was ==> words[x] == was[x])
  }

  /** The header of a chunk. The head of a list is one too, of which only the links are used. */
  class Header {
    var next: Header
    var prev: Header
    var freeCount: nat
    var firstFree: nat             // an address, 0 for none
    var memory: map<nat, nat>      // the words behind the header, by address
    const base: nat
    const blockSize: nat
    const tag: nat
    const count: nat               // how many blocks there are
    ghost var free: seq<nat>       // the addresses of the free blocks, as linked
    ghost var place: Place

    constructor Head(blockSize: nat)
      ensures next == this == prev && base == 0 && this.blockSize == blockSize
    {
      next, prev, this.blockSize := this, this, blockSize;
      freeCount, firstFree, memory, base, tag, count, free, place := 0, 0, map[], 0, 0, 0, [], Nowhere;
    }

    /** The word at which the list of free blocks goes on. */
    static function At(free: seq<nat>, k: nat): nat {
      if k < |free| then free[k] else 0
    }

    /** The free blocks are linked from firstFree through their first words to a final 0. */
    ghost predicate Threaded()
      reads this`firstFree, this`memory, this`free
    {
      && firstFree == At(free, 0)
      && forall k :: 0 <= k < |free| ==> free[k] in memory && memory[free[k]] == At(free, k + 1)
    }

    ghost predicate Valid()
      reads this`freeCount, this`firstFree, this`memory, this`free
    {
      && base > 0 && base % REGION == 0 && SMALLEST <= blockSize && count * blockSize <= REGION - HEADER
      && tag == TagOf(base)
      && freeCount == |free| <= count && Distinct(free)
        && (forall k :: 0 <= k < |free| ==> free[k] in Blocks(base, blockSize, count))
      && Threaded()
    }

    /** The blocks in the hands of callers. */
    ghost function Live(): set<nat>
      reads this`free
    {
      Blocks(base, blockSize, count) - Elements(free)
    }

    /** Links all blocks of a new chunk, in order of address. */
    static method ThreadBlocks(base: nat, blockSize: nat, count: nat) returns (memory: map<nat, nat>)
      requires 0 < blockSize && 0 < count
      ensures var blocks := BlockList(base, blockSize, count);
              forall k :: 0 <= k < count ==> blocks[k] in memory && memory[blocks[k]] == At(blocks, k + 1)
    {
      ghost var blocks := BlockList(base, blockSize, count);
      BlockListIs(base, blockSize, count);
      var dw, p := count, base + HEADER;
      memory := map[];
      while dw > 1
        invariant 1 <= dw <= count && p == blocks[count - dw]
        invariant forall k :: 0 <= k < count - dw ==> blocks[k] in memory && memory[blocks[k]] == blocks[k + 1]
      {
        memory := memory[p := p + blockSize];
        p := memory[p];
        dw := dw - 1;
      }
      memory := memory[p := 0];
    }

    /** A new chunk: all blocks are free. */
    constructor (base: nat, blockSize: nat, count: nat)
      requires base > 0 && base % REGION == 0 && SMALLEST <= blockSize && 0 < count
               && count * blockSize <= REGION - HEADER
      ensures Valid() && this.base == base && this.blockSize == blockSize && this.count == count
      ensures next == this && prev == this && freeCount == count && Live() == {} && place == Nowhere
    {
      this.base, this.tag, this.blockSize, this.count := base, TagOf(base), blockSize, count;
      next, prev, freeCount, place := this, this, count, Nowhere;
      firstFree := base + HEADER;
      free := BlockList(base, blockSize, count);
      var words := ThreadBlocks(base, blockSize, count);
      memory := words;
      AllListed(base, blockSize, count);
    }

    /** Takes the first block off the list of free blocks. */
    method Pop() returns (a: nat)
      requires Valid() && freeCount > 0
      modifies this`freeCount, this`firstFree, this`free
      ensures Valid() && freeCount == old(freeCount) - 1 && (firstFree == 0 <==> freeCount == 0)
      ensures a == old(free[0]) && free == old(free[1..])
      ensures a != 0 && a in Blocks(base, blockSize, count) && a !in old(Live()) && Live() == old(Live()) + {a}
    {
      a := firstFree;
      BlocksFit(base, blockSize, count, a);
      freeCount := freeCount - 1;
      firstFree := memory[a];
      assert free == [a] + free[1..];
      free := free[1..];
      if free != [] {
        BlocksFit(base, blockSize, count, free[0]);
      }
    }

    /** Puts a block in front of the list of free blocks. */
    method Push(a: nat)
      requires Valid() && a in Live()
      modifies this`freeCount, this`firstFree, this`free, this`memory
      ensures Valid() && freeCount == old(freeCount) + 1 && free == [a] + old(free)
      ensures Live() == old(Live()) - {a} && memory == old(memory)[a := old(firstFree)]
    {
      BlocksFit(base, blockSize, count, a);
      memory := memory[a := firstFree];
      firstFree := a;
      freeCount := freeCount + 1;
      free := [a] + free;
      ElementsFit(free, Blocks(base, blockSize, count));
      BlockCount(base, blockSize, count);
    }

    /** A caller writes to its block. */
    method Write(a: nat, words: map<nat, nat>)
      requires Valid() && a in Live() && Agrees(memory, words, a, blockSize)
      modifies this`memory
      ensures Valid() && memory == words
    {
      BlocksFit(base, blockSize, count, a);
      memory := words;
    }

    /** The debug check: walks the list of free blocks. No assertion of it fails. */
    method SanityCheck(blocksPerChunk: nat) returns (ok: bool)
      requires Valid() && blocksPerChunk == count
      ensures ok
    {
      ok := tag == TagOf(base);
      var n, p := 0, firstFree;
      ghost var rest := free;
      while p != 0
        invariant n + |rest| == |free| && rest == free[n..] && p == At(free, n) && ok
        decreases |rest|
      {
        if rest != [] {
          BlocksFit(base, blockSize, count, p);
        }
        n := n + 1;
        ok := ok && base + HEADER <= p < base + REGION;
        rest := rest[1..];
        p := memory[p];
      }
      if rest != [] {
        BlocksFit(base, blockSize, count, rest[0]);
      }
      ok := ok && n == freeCount && n <= blocksPerChunk;
    }

    /** Free and live blocks together are all blocks of the chunk. */
    lemma Conservation()
      requires Valid()
      ensures freeCount + |Live()| == count
    {
      BlockCount(base, blockSize, count);
      ElementsFit(free, Blocks(base, blockSize, count));
      Rest(Elements(free), Blocks(base, blockSize, count));
    }
  }

  ghost function Elements(s: seq<nat>): set<nat> {
    set a | a in s
  }

  lemma Rest(some: set<nat>, all: set<nat>)
    requires some <= all
    ensures |some| + |all - some| == |all|
  {
    assert all == some + (all - some);
  }

  lemma FullSet(some: set<nat>, all: set<nat>)
    requires some <= all && |some| == |all|
    ensures some == all
  {
    Rest(some, all);
    assert all - some == {};
  }

  lemma {:induction false} ElementsFit(s: seq<nat>, all: set<nat>)
    requires Distinct(s) && forall k :: 0 <= k < |s| ==> s[k] in all
    ensures Elements(s) <= all && |Elements(s)| == |s| <= |all|
  {
    if s != [] {
      var front, last := s[..|s| - 1], s[|s| - 1];
      ElementsFit(front, all);
      assert s == front + [last];
      assert Elements(s) == Elements(front) + {last};
    }
    Rest(Elements(s), all);
  }

  lemma BlockCount(base: nat, size: nat, n: nat)
    requires size > 0
    ensures |Blocks(base, size, n)| == n
  {
    BlocksAre(base, size, n);
  }

  lemma AllListed(base: nat, size: nat, n: nat)
    requires size > 0
    ensures Elements(BlockList(base, size, n)) == Blocks(base, size, n)
    ensures Distinct(BlockList(base, size, n)) && (n > 0 ==> BlockList(base, size, n)[0] == base + HEADER)
    ensures forall k :: 0 <= k < n ==> BlockList(base, size, n)[k] in Blocks(base, size, n)
  {
    BlockListIs(base, size, n);
    BlockCount(base, size, n);
    ElementsFit(BlockList(base, size, n), Blocks(base, size, n));
    FullSet(Elements(BlockList(base, size, n)), Blocks(base, size, n));
  }

  /** The blocks of a chunk in order of address. */
  function BlockList(base: nat, size: nat, n: nat): (s: seq<nat>)
    ensures |s| == n
  {
    if n == 0 then [] else BlockList(base, size, n - 1) + [BlockAt(base, size, n - 1)]
  }

  lemma {:induction false} BlockListIs(base: nat, size: nat, n: nat)
    requires size > 0
    ensures var s := BlockList(base, size, n);
            && Distinct(s) && (n > 0 ==> s[0] == base + HEADER && s[n - 1] + size == BlockAt(base, size, n))
            && (forall k :: 0 <= k < n ==> s[k] in Blocks(base, size, n) && s[k] + size <= BlockAt(base, size, n))
            && (forall k :: 0 <= k < n - 1 ==> s[k] + size == s[k + 1])
  {
    if n > 0 {
      BlockListIs(base, size, n - 1);
      BlockAfter(base, size, n - 1);
    }
  }
}
