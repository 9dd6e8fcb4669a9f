/** The memory manager of Source/MemoryPools.cpp: a bin for each size class, and superblocks for larger sizes. */
module SlabManager {
  import opened Powers
  import opened SlabSizes
  import opened SlabChunks
  import opened SlabBins

  datatype Content = Unknown | Known(word: nat)

  function WordAt(words: map<nat, nat>, x: nat): Content {
    if x in words then Known(words[x]) else Unknown
  }

  /** How far the memory at b reaches. */
  function Extent(supers: map<nat, nat>, b: nat): nat {
    if b in supers then supers[b] else REGION
  }

  ghost predicate Apart(supers: map<nat, nat>, b: nat, c: nat) {
    b + Extent(supers, b) <= c || c + Extent(supers, c) <= b
  }

  /** The chunks and superblocks lie apart from each other, at multiples of 64K. */
  ghost predicate RegionsOk(owner: map<nat, nat>, supers: map<nat, nat>) {
    && (forall b :: b in owner ==> b > 0 && b % REGION == 0 && owner[b] <= BINS_COUNT)
    && (forall b :: b in supers <==> b in owner && owner[b] == BINS_COUNT)
    && (forall b :: b in supers ==> supers[b] >= HEADER)
    && (forall b, c {:trigger Apart(supers, b, c)} :: b in owner && c in owner && b != c ==> Apart(supers, b, c))
  }

  /** The system places new memory at a multiple of 64K, away from all that it has given. */
  ghost predicate Room(owner: map<nat, nat>, supers: map<nat, nat>, region: nat, length: nat) {
    region % REGION == 0 && forall b :: b in owner ==> b + Extent(supers, b) <= region || region + length <= b
  }

  /** What the system may give when it is asked for a superblock: the size with its header, in 64 bits. It refuses to
      give 0 bytes. */
  predicate Granted(size: nat, length: nat) {
    0 < (size + HEADER) % SIZE_LIMIT <= length < SIZE_LIMIT && length % PAGE == 0
  }

  lemma GrantHolds(size: nat, length: nat)
    ensures Granted(size, length) && size + HEADER < SIZE_LIMIT ==> length >= size + HEADER
  {
  }

  /** The memory is sure to be large enough exactly if the sum does not wrap, or wraps to 0. */
  lemma GrantHoldsIff(size: nat)
    requires size < SIZE_LIMIT
    ensures (forall length: nat :: Granted(size, length) ==> length >= size + HEADER) <==> size + HEADER <= SIZE_LIMIT
  {
    assert size + HEADER > SIZE_LIMIT ==> Granted(size, PAGE);
  }

  lemma RoomIsNew(owner: map<nat, nat>, supers: map<nat, nat>, region: nat, length: nat)
    requires RegionsOk(owner, supers) && Room(owner, supers, region, length) && length >= HEADER
    ensures region !in owner && region !in supers
  {
  }

  /** The system has given new memory, for a chunk of a bin or a superblock. */
  lemma GrantFits(owner: map<nat, nat>, supers: map<nat, nat>, region: nat, length: nat, index: nat)
    requires RegionsOk(owner, supers) && region > 0 && Room(owner, supers, region, length) && length >= HEADER
    requires index <= BINS_COUNT
    ensures index < BINS_COUNT && length == REGION ==> RegionsOk(owner[region := index], supers)
    ensures index == BINS_COUNT ==> RegionsOk(owner[region := index], supers[region := length])
  {
    var supers' := if index == BINS_COUNT then supers[region := length] else supers;
    if index == BINS_COUNT || length == REGION {
      forall b, c | b in owner[region := index] && c in owner[region := index] && b != c ensures Apart(supers', b, c) {
        if b in owner && c in owner {
          assert Apart(supers, b, c);
        }
      }
    }
  }

  lemma ReturnFits(owner: map<nat, nat>, supers: map<nat, nat>, b: nat)
    requires RegionsOk(owner, supers) && b in supers
    ensures RegionsOk(owner - {b}, supers - {b})
  {
    forall c, d | c in owner - {b} && d in owner - {b} && c != d ensures Apart(supers - {b}, c, d) {
      assert Apart(supers, c, d);
    }
  }

  lemma Quotient(m: nat, d: nat)
    requires 0 < d <= m
    ensures 0 < m / d && m / d * d <= m < (m / d + 1) * d
  {
    assert m == d * (m / d) + m % d;
  }

  /** So many blocks of the size fit behind the header of a chunk, and no more. */
  ghost predicate Fills(blockSize: nat, blocks: nat) {
    blocks * blockSize <= REGION - HEADER < (blocks + 1) * blockSize
  }

  /** A chunk holds at least one block of each size, behind its header. */
  lemma ClassFits(i: nat)
    requires i < BINS_COUNT
    ensures var size := SMALLEST * Pow2(i);
            SMALLEST <= size <= 16384 && 0 < (REGION - HEADER) / size && Fills(size, (REGION - HEADER) / size)
  {
    SomePowers();
    Times8(i);
    if i + 3 < 14 {
      Pow2Grows(i + 3, 14);
    }
    if i > 0 {
      Pow2Grows(0, i);
    }
    Quotient(REGION - HEADER, SMALLEST * Pow2(i));
  }

  /** Copies count bytes from b to a. A word that is copied in part is not known afterwards. */
  method CopyWords(to: map<nat, nat>, from: map<nat, nat>, a: nat, b: nat, count: nat) returns (words: map<nat, nat>)
    ensures Agrees(to, words, a, count)
    ensures forall k :: 0 <= k && SMALLEST * (k + 1) <= count ==>
              WordAt(words, a + SMALLEST * k) == WordAt(from, b + SMALLEST * k)
  {
    words := to;
    for k := 0 to count / SMALLEST
      invariant Agrees(to, words, a, SMALLEST * k)
      invariant forall j :: 0 <= j < k ==> WordAt(words, a + SMALLEST * j) == WordAt(from, b + SMALLEST * j)
    {
      if b + SMALLEST * k in from {
        words := words[a + SMALLEST * k := from[b + SMALLEST * k]];
      } else {
        words := words - {a + SMALLEST * k};
      }
    }
    if count % SMALLEST != 0 {
      words := words - {a + SMALLEST * (count / SMALLEST)};
    }
  }

  class MemoryManager {
    const bins: seq<Bin>
    var owner: map<nat, nat>    // lpBin of the header at an address, as an index; BINS_COUNT for a superblock
    var supers: map<nat, nat>   // the superblocks: how long the memory is that the system has given for them
    var words: map<nat, nat>    // the words in the superblocks, by address

    static ghost predicate IsNew(bin: Bin, i: nat)
      reads bin, bin.Parts()
    {
      && bin.Valid() && bin.chunks == map[] && bin.live == {} && bin.blockSize == SMALLEST * Pow2(i)
      && Fills(bin.blockSize, bin.blocksPerChunk)
    }

    static method MakeBins() returns (made: seq<Bin>)
      ensures |made| == BINS_COUNT && fresh(made)
      ensures forall i {:trigger made[i]} :: 0 <= i < BINS_COUNT ==> IsNew(made[i], i) && fresh(made[i].Parts())
    {
      made := [];
      for i := 0 to BINS_COUNT
        invariant |made| == i && fresh(made)
        invariant forall k {:trigger made[k]} :: 0 <= k < i ==> IsNew(made[k], k) && fresh(made[k].Parts())
      {
        ClassFits(i);
        var blockSize := SMALLEST * Pow2(i);
        ghost var before := made;
        var bin := new Bin(blockSize, (REGION - HEADER) / blockSize);
        made := made + [bin];
        assert forall k :: 0 <= k < i ==> made[k] == before[k];
      }
    }

    constructor ()
      ensures Valid() && fresh(bins) && fresh(Objects()) && owner == map[] && forall a :: !IsLive(a)
    {
      var made := MakeBins();
      bins, owner, supers, words := made, map[], map[], map[];
    }

    ghost predicate BinOk(i: nat)
      requires i < |bins|
      reads this`owner, bins
    {
      && bins[i].blockSize == SMALLEST * Pow2(i) && Fills(bins[i].blockSize, bins[i].blocksPerChunk)
      && forall b {:trigger Belongs(i, b)} :: Belongs(i, b)
    }

    ghost predicate Belongs(i: nat, b: nat)
      requires i < |bins|
      reads this`owner, bins
    {
      b in bins[i].chunks <==> b in owner && owner[b] == i
    }

    ghost function Objects(): set<Header>
      reads bins
    {
      set i, h | 0 <= i < |bins| && h in bins[i].Parts() :: h
    }

    ghost predicate BinValid(i: nat)
      requires i < |bins|
      reads bins[i], bins[i].Parts()
    {
      bins[i].Valid()
    }

    ghost predicate BinsValid()
      reads bins, Objects()
    {
      forall i {:trigger BinValid(i)} :: 0 <= i < |bins| ==> BinValid(i)
    }

    ghost predicate Valid()
      reads this, bins, Objects()
    {
      && |bins| == BINS_COUNT && RegionsOk(owner, supers) && BinsValid()
      && (forall i :: 0 <= i < BINS_COUNT ==> BinOk(i))
    }

    /** The bins have nothing in common. */
    lemma BinsApart(i: nat, j: nat)
      requires Valid() && i < BINS_COUNT && j < BINS_COUNT && i != j
      ensures bins[i] != bins[j] && bins[i].Parts() !! bins[j].Parts()
    {
      assert BinOk(i) && BinOk(j) && BinValid(i) && BinValid(j);
      bins[i].AllOfSize();
      bins[j].AllOfSize();
      if i < j {
        Pow2Grows(i, j);
      } else {
        Pow2Grows(j, i);
      }
    }

    /** The block at a is in the hands of a caller. */
    ghost predicate IsLive(a: nat)
      reads this, bins
    {
      && BaseOf(a) in owner
      && if owner[BaseOf(a)] < |bins| then a in bins[owner[BaseOf(a)]].live else a == BaseOf(a) + HEADER
    }

    /** How many bytes of the block at a its caller may use. */
    function SizeOf(a: nat): int
      reads this, bins
    {
      if BaseOf(a) in owner && owner[BaseOf(a)] < |bins| then bins[owner[BaseOf(a)]].blockSize
      else Extent(supers, BaseOf(a)) - HEADER
    }

    /** A live block lies in the memory at its base, behind the header. */
    lemma LiveInside(a: nat)
      requires Valid() && IsLive(a)
      ensures BaseOf(a) + HEADER <= a && a + SizeOf(a) <= BaseOf(a) + Extent(supers, BaseOf(a))
    {
      var i := owner[BaseOf(a)];
      if i < BINS_COUNT {
        assert BinOk(i) && BinValid(i);
        bins[i].LiveFits(a);
      }
    }

    /** The blocks have no byte in common. */
    ghost predicate Disjoint(a: nat, b: nat)
      reads this, bins
    {
      a + SizeOf(a) <= b || b + SizeOf(b) <= a
    }

    /** Any two live blocks are disjoint. */
    lemma LiveApart(a: nat, b: nat)
      requires Valid() && IsLive(a) && IsLive(b) && a != b
      ensures Disjoint(a, b)
    {
      LiveInside(a);
      LiveInside(b);
      if BaseOf(a) != BaseOf(b) {
        assert Apart(supers, BaseOf(a), BaseOf(b));
      } else {
        assert BinOk(owner[BaseOf(a)]) && BinValid(owner[BaseOf(a)]);
        bins[owner[BaseOf(a)]].LiveFits(a);
      }
    }

    /** But for the block at a, the same blocks are live as before, with the same sizes. */
    twostate predicate OnlyChanges(a: nat)
      reads this, bins
    {
      forall x {:trigger IsLive(x)} :: x != a ==>
          (IsLive(x) <==> old(IsLive(x)))
          && (IsLive(x) ==> SizeOf(x) == old(SizeOf(x)))
    }

    /** The chunk that the block at a lies in; none for a superblock. */
    ghost function HomeOf(a: nat): set<Header>
      reads this`owner, bins
    {
      if BaseOf(a) in owner && owner[BaseOf(a)] < |bins| then bins[owner[BaseOf(a)]].HomeOf(a) else {}
    }

    /** The chunks that there were are still there. */
    twostate predicate HomesKept()
      reads this`owner, bins
    {
      forall x {:trigger HomeOf(x)} :: BaseOf(x) in old(owner) ==> BaseOf(x) in owner && HomeOf(x) == old(HomeOf(x))
    }

    /** The words of the memory that the block at a lies in. */
    function WordsOf(a: nat): map<nat, nat>
      reads this`owner, this`words, bins, HomeOf(a)`memory
    {
      var b := BaseOf(a);
      if b in owner && owner[b] < |bins| && b in bins[owner[b]].chunks then bins[owner[b]].chunks[b].memory else words
    }

    /** What is in a word of the block at a. */
    function Word(a: nat, k: nat): Content
      reads this`owner, this`words, bins, HomeOf(a)`memory
    {
      WordAt(WordsOf(a), a + SMALLEST * k)
    }

    ghost predicate HasWord(a: nat, k: nat)
      reads this, bins
    {
      IsLive(a) && SMALLEST * (k + 1) <= SizeOf(a)
    }

    /** All live blocks but that at a keep what is in them. */
    twostate predicate WordsKept(a: nat)
      reads *
    {
      forall x, k {:trigger Word(x, k)} :: x != a && old(HasWord(x, k)) ==> Word(x, k) == old(Word(x, k))
    }

    /** The block at a, if it is live, is apart from all other live ones. */
    ghost predicate Alone(a: nat)
      reads this, bins
    {
      IsLive(a) ==> forall x {:trigger Disjoint(a, x)} :: IsLive(x) && x != a ==> Disjoint(a, x)
    }

    lemma LiveAlone(a: nat)
      requires Valid()
      ensures Alone(a)
    {
      if IsLive(a) {
        forall x | IsLive(x) && x != a ensures Disjoint(a, x) {
          LiveApart(a, x);
        }
      }
    }

    /** If nothing has been written but into the block at a, all others keep what is in them. */
    twostate lemma KeptBut(a: nat)
      requires old(Valid() && Alone(a))
      requires !old(IsLive(a)) ==>
                 words == old(words) && forall h: Header :: old(allocated(h)) ==> h.memory == old(h.memory)
      requires forall h: Header :: old(allocated(h)) && h !in old(HomeOf(a)) ==> h.memory == old(h.memory)
      requires forall h: Header :: h in old(HomeOf(a)) ==> Agrees(old(h.memory), h.memory, a, old(SizeOf(a)))
      requires if old(HomeOf(a)) == {} then Agrees(old(words), words, a, old(SizeOf(a))) else words == old(words)
      requires forall x :: x != a && old(IsLive(x)) ==> HomeOf(x) == old(HomeOf(x))
      ensures WordsKept(a)
    {
      forall x, k | x != a && old(HasWord(x, k)) ensures Word(x, k) == old(Word(x, k)) {
        assert old(IsLive(a)) ==> old(Disjoint(a, x));
        if old(HomeOf(x)) != {} {
          var h := old(bins[owner[BaseOf(x)]].chunks[BaseOf(x)]);
          assert h in old(HomeOf(x)) && h in HomeOf(x);
        }
      }
    }

    /** The other bins are as before. */
    twostate predicate OtherBins(index: nat)
      reads bins
    {
      forall i :: 0 <= i < |bins| && i != index ==>
          bins[i].chunks == old(bins[i].chunks)
          && bins[i].live == old(bins[i].live)
    }

    twostate predicate NoneGrew()
      reads bins
    {
      forall i :: 0 <= i < |bins| ==> bins[i].chunks == old(bins[i].chunks) && bins[i].live == old(bins[i].live)
    }

    /** The bin has handed out the block at a, perhaps from a new chunk. */
    twostate predicate BinGrew(index: nat, a: nat)
      requires index < |bins|
      reads bins
    {
      && OtherBins(index) && a !in old(bins[index].live) && bins[index].live == old(bins[index].live) + {a}
      && bins[index].chunks.Keys == old(bins[index].chunks.Keys) + {BaseOf(a)}
      && forall b :: b in old(bins[index].chunks) ==> bins[index].chunks[b] == old(bins[index].chunks[b])
    }

    lemma AllApart(index: nat)
      requires Valid() && index < BINS_COUNT
      ensures forall i :: 0 <= i < BINS_COUNT && i != index ==>
              bins[i] != bins[index]
              && bins[i].Parts() !! bins[index].Parts()
    {
      forall i | 0 <= i < BINS_COUNT && i != index ensures bins[i] != bins[index]
        && bins[i].Parts() !! bins[index].Parts() {
        BinsApart(i, index);
      }
    }

    /** Nothing has been written that the bin i is made of. */
    twostate predicate Untouched(i: nat)
      requires i < |bins|
      reads bins, bins[i].Parts()
    {
      unchanged(bins[i]) && unchanged(old(bins[i].Parts()))
    }

    twostate lemma FreshParts(index: nat)
      requires index < |bins| && OtherBins(index) && fresh(bins[index].Parts() - old(bins[index].Parts()))
      ensures fresh(Objects() - old(Objects()))
    {
      forall h | h in Objects() && h !in old(Objects()) ensures fresh(h) {
        var i :| 0 <= i < |bins| && h in bins[i].Parts();
        assert h !in old(bins[i].Parts());
      }
    }

    twostate lemma OthersValid(index: nat)
      requires old(Valid()) && forall i :: 0 <= i < BINS_COUNT && i != index ==> Untouched(i)
      ensures forall i {:trigger BinValid(i)} :: 0 <= i < BINS_COUNT && i != index ==> BinValid(i)
      ensures OtherBins(index)
    {
      forall i | 0 <= i < BINS_COUNT && i != index
        ensures BinValid(i) && bins[i].chunks == old(bins[i].chunks) && bins[i].live == old(bins[i].live)
      {
        assert Untouched(i) && old(BinValid(i));
      }
    }

    method BinAlloc(index: nat, region: nat) returns (a: nat)
      requires Valid() && index < BINS_COUNT && (region != 0 ==> region % REGION == 0 && region !in owner)
      modifies bins
      modifies Objects()`next, Objects()`prev, Objects()`place, Objects()`freeCount, Objects()`firstFree, Objects()`free
      ensures fresh(Objects() - old(Objects())) && BinsValid()
      ensures (a == 0 ==> NoneGrew()) && (a == 0 <==> region == 0 && !old(bins[index].HasFree()))
      ensures a != 0 ==>
              BinGrew(index, a)
              && (if old(bins[index].HasFree()) then BaseOf(a) in old(bins[index].chunks)
                  else region != 0 && BaseOf(a) == region)
    {
      AllApart(index);
      assert BinOk(index) && BinValid(index) && Belongs(index, region);
      a := bins[index].Alloc(region);
      forall i | 0 <= i < BINS_COUNT && i != index ensures Untouched(i) {
      }
      OthersValid(index);
      FreshParts(index);
    }

    /** And the chunk is the bin's. */
    twostate predicate Grew(a: nat)
      reads this, bins
    {
      && BaseOf(a) in owner && owner[BaseOf(a)] < BINS_COUNT == |bins| && BinGrew(owner[BaseOf(a)], a)
      && owner == old(owner)[BaseOf(a) := owner[BaseOf(a)]] && supers == old(supers)
      && (BaseOf(a) in old(owner) ==> old(owner)[BaseOf(a)] == owner[BaseOf(a)])
    }

    twostate lemma GrewBinsOk(a: nat)
      requires old(Valid()) && Grew(a)
      ensures forall i :: 0 <= i < BINS_COUNT ==> BinOk(i)
    {
      forall i | 0 <= i < BINS_COUNT ensures BinOk(i) {
        assert old(BinOk(i));
        forall b ensures Belongs(i, b) {
          assert old(Belongs(i, b));
        }
      }
    }

    twostate lemma GrewOnly(a: nat)
      requires old(Valid()) && Grew(a)
      requires forall i, x :: 0 <= i < |bins| && x in old(bins[i].live) ==> BaseOf(x) in old(owner)
      ensures OnlyChanges(a)
    {
      forall x | x != a ensures (IsLive(x) <==> old(IsLive(x))) && (IsLive(x) ==> SizeOf(x) == old(SizeOf(x))) {
        assert BaseOf(x) in old(owner) ==> owner[BaseOf(x)] == old(owner[BaseOf(x)]);
      }
    }

    twostate lemma GrewHomes(a: nat)
      requires old(Valid()) && Grew(a)
      ensures HomesKept()
    {
      forall x | BaseOf(x) in old(owner) ensures HomeOf(x) == old(HomeOf(x)) {
        var i := old(owner[BaseOf(x)]);
        assert i < |bins| ==> old(BinOk(i) && Belongs(i, BaseOf(x)));
      }
    }

    lemma LiveOwned(i: nat, x: nat)
      requires Valid() && i < |bins| && x in bins[i].live
      ensures BaseOf(x) in owner && owner[BaseOf(x)] == i
    {
      assert BinOk(i) && BinValid(i);
      bins[i].LiveFits(x);
      assert Belongs(i, BaseOf(x));
    }

    lemma AllLiveOwned()
      requires Valid()
      ensures forall i, x :: 0 <= i < |bins| && x in bins[i].live ==> BaseOf(x) in owner
    {
      forall i, x | 0 <= i < |bins| && x in bins[i].live ensures BaseOf(x) in owner {
        LiveOwned(i, x);
      }
    }

    twostate lemma GrewKeeps(a: nat)
      requires old(Valid()) && Grew(a)
      requires forall i, x :: 0 <= i < |bins| && x in old(bins[i].live) ==> BaseOf(x) in old(owner)
      ensures (forall i :: 0 <= i < BINS_COUNT ==> BinOk(i)) && OnlyChanges(a) && HomesKept()
      ensures !old(IsLive(a)) && IsLive(a) && SizeOf(a) == bins[owner[BaseOf(a)]].blockSize
    {
      GrewBinsOk(a);
      GrewOnly(a);
      GrewHomes(a);
    }

    /** A chunk of a bin, new or not, is recorded as the bin's. */
    static lemma ClaimFits(owner: map<nat, nat>, supers: map<nat, nat>, index: nat, b: nat)
      requires index < BINS_COUNT && RegionsOk(owner, supers) && b > 0
      requires if b in owner then owner[b] == index else Room(owner, supers, b, REGION)
      ensures RegionsOk(owner[b := index], supers)
    {
      if b in owner {
        assert owner[b := index] == owner;
      } else {
        GrantFits(owner, supers, b, REGION, index);
      }
    }

    /** The bin takes a block from the chunks that it has, if there is a free one, and else from new memory. */
    twostate predicate Serves(index: nat, region: nat, a: nat)
      requires index < |bins|
      reads bins
    {
      && (a == 0 <==> region == 0 && !old(bins[index].HasFree()))
      && (a != 0 ==> if old(bins[index].HasFree()) then BaseOf(a) in old(owner) else BaseOf(a) == region != 0)
    }

    /** The bin hands out a block, and a new chunk is recorded as the bin's. */
    method AllocAndClaim(index: nat, region: nat) returns (a: nat)
      requires Valid() && index < BINS_COUNT && (region != 0 ==> Room(owner, supers, region, REGION))
      modifies this`owner, bins
      modifies Objects()`next, Objects()`prev, Objects()`place, Objects()`freeCount, Objects()`firstFree, Objects()`free
      ensures BinsValid() && RegionsOk(owner, supers) && fresh(Objects() - old(Objects()))
      ensures (a == 0 ==> NoneGrew() && owner == old(owner)) && Serves(index, region, a)
      ensures a != 0 ==> BaseOf(a) in owner && owner[BaseOf(a)] == index && Grew(a)
    {
      assert BinOk(index);
      a := BinAlloc(index, region);
      if a != 0 {
        assert old(Belongs(index, BaseOf(a)));
        ClaimFits(owner, supers, index, BaseOf(a));
        owner := owner[BaseOf(a) := index];
      }
    }

    method AllocFromBin(index: nat, region: nat) returns (a: nat)
      requires Valid() && index < BINS_COUNT && (region != 0 ==> Room(owner, supers, region, REGION))
      modifies this`owner, bins
      modifies Objects()`next, Objects()`prev, Objects()`place, Objects()`freeCount, Objects()`firstFree, Objects()`free
      ensures Valid() && OnlyChanges(a) && HomesKept() && Serves(index, region, a)
      ensures fresh(Objects() - old(Objects()))
      ensures a != 0 ==> !old(IsLive(a)) && IsLive(a) && SizeOf(a) == bins[index].blockSize
    {
      AllLiveOwned();
      a := AllocAndClaim(index, region);
      if a == 0 {
        NothingGrew();
      } else {
        GrewKeeps(a);
      }
    }

    twostate lemma NothingGrew()
      requires old(Valid()) && owner == old(owner) && supers == old(supers)
      requires NoneGrew()
      ensures (forall i :: 0 <= i < BINS_COUNT ==> BinOk(i)) && OnlyChanges(0) && HomesKept()
    {
      forall i | 0 <= i < BINS_COUNT ensures BinOk(i) {
        assert old(BinOk(i));
        forall b ensures Belongs(i, b) {
          assert old(Belongs(i, b));
        }
      }
    }

    /** A superblock has been added, with the block at a. */
    twostate predicate SuperGrew(a: nat)
      reads this, bins
    {
      && NoneGrew() && a == BaseOf(a) + HEADER && BaseOf(a) !in old(owner) && |bins| == BINS_COUNT
      && owner == old(owner)[BaseOf(a) := BINS_COUNT]
      && BaseOf(a) in supers && supers == old(supers)[BaseOf(a) := supers[BaseOf(a)]]
    }

    twostate lemma SuperGrewBinsOk(a: nat)
      requires old(Valid()) && SuperGrew(a)
      ensures (forall i :: 0 <= i < BINS_COUNT ==> BinOk(i)) && HomesKept()
    {
      forall i | 0 <= i < BINS_COUNT ensures BinOk(i) {
        assert old(BinOk(i));
        forall b ensures Belongs(i, b) {
          assert old(Belongs(i, b));
        }
      }
    }

    twostate lemma SuperGrewOnly(a: nat)
      requires old(Valid()) && SuperGrew(a)
      ensures OnlyChanges(a) && !old(IsLive(a)) && IsLive(a)
    {
    }

    twostate lemma SuperGrewKeeps(a: nat)
      requires old(Valid()) && SuperGrew(a)
      ensures (forall i :: 0 <= i < BINS_COUNT ==> BinOk(i)) && HomesKept()
      ensures OnlyChanges(a) && !old(IsLive(a)) && IsLive(a) && SizeOf(a) == supers[BaseOf(a)] - HEADER
    {
      SuperGrewBinsOk(a);
      SuperGrewOnly(a);
    }

    method AllocSuper(size: nat, region: nat, length: nat) returns (a: nat)
      requires Valid() && size < SIZE_LIMIT
               && (region != 0 ==> Granted(size, length) && Room(owner, supers, region, length))
      modifies this`owner, this`supers
      ensures Valid() && OnlyChanges(a) && HomesKept() && (a == 0 <==> region == 0)
      ensures a != 0 ==> !old(IsLive(a)) && IsLive(a) && SizeOf(a) == length - HEADER
    {
      if region == 0 {
        return 0;
      }
      GrantFits(owner, supers, region, length, BINS_COUNT);
      RoomIsNew(owner, supers, region, length);
      owner := owner[region := BINS_COUNT];
      supers := supers[region := length];
      a := region + HEADER;
      forall i | 0 <= i < BINS_COUNT ensures BinValid(i) {
        assert old(BinValid(i));
      }
      SuperGrewKeeps(a);
    }

    /** region and length are where the system puts new memory if some is needed, and how much it
        gives; region is 0 if it has none. The block is apart from all live ones, and large enough unless it is
        a superblock and its size wraps with the header. No block is written to. */
    method Malloc(size: nat, region: nat, length: nat) returns (a: nat)
      requires Valid() && (region != 0 ==> Room(owner, supers, region, length))
      requires size < SIZE_LIMIT
               && (region != 0 ==> if IndexFromSize(size) < BINS_COUNT then length == REGION else Granted(size, length))
      modifies this, bins
      modifies Objects()`next, Objects()`prev, Objects()`place, Objects()`freeCount, Objects()`firstFree, Objects()`free
      ensures Valid() && OnlyChanges(a)
      ensures size <= 16384 ==> IndexFromSize(size) < |bins| && Serves(IndexFromSize(size), region, a)
      ensures size > 16384 ==> (a == 0 <==> region == 0)
      ensures fresh(Objects() - old(Objects()))
      ensures a != 0 ==> !old(IsLive(a)) && IsLive(a) && (size + HEADER < SIZE_LIMIT ==> SizeOf(a) >= size)
      ensures a != 0 ==> SizeOf(a) == if size <= 16384 then SMALLEST * Pow2(IndexFromSize(size)) else length - HEADER
      ensures a != 0 ==> forall x {:trigger Disjoint(a, x)} :: IsLive(x) && x != a ==> Disjoint(a, x)
      ensures HomesKept() && WordsKept(0)
    {
      IndexIsLeast(size);
      var index := IndexFromSize(size);
      if index < BINS_COUNT {
        assert BinOk(index);
        a := AllocFromBin(index, region);
      } else {
        a := AllocSuper(size, region, length);
        GrantHolds(size, length);
      }
      if a != 0 {
        LiveAlone(a);
      }
      KeptBut(0);
    }

    method BinFree(index: nat, a: nat)
      requires Valid() && index < BINS_COUNT && a in bins[index].live
      modifies bins
      modifies Objects()`next, Objects()`prev, Objects()`place, Objects()`freeCount, Objects()`firstFree, Objects()`free
      modifies bins[index].HomeOf(a)`memory
      ensures OtherBins(index) && BinsValid()
      ensures bins[index].chunks == old(bins[index].chunks) && bins[index].live == old(bins[index].live) - {a}
      ensures forall h :: h in old(bins[index].HomeOf(a)) ==> Agrees(old(h.memory), h.memory, a, SMALLEST)
    {
      AllApart(index);
      assert BinOk(index) && BinValid(index);
      bins[index].Free(a);
      forall i | 0 <= i < BINS_COUNT && i != index ensures Untouched(i) {
      }
      OthersValid(index);
    }

    /** A superblock goes back to the system. */
    method FreeSuper(a: nat)
      requires Valid() && IsLive(a) && owner[BaseOf(a)] == BINS_COUNT
      modifies this`owner, this`supers, this`words
      ensures Valid() && OnlyChanges(a) && !IsLive(a) && Agrees(old(words), words, a, old(SizeOf(a)))
      ensures forall x :: x != a && IsLive(x) ==> HomeOf(x) == old(HomeOf(x))
    {
      ReturnFits(owner, supers, BaseOf(a));
      words := map x | x in words && !(a <= x < BaseOf(a) + supers[BaseOf(a)]) :: words[x];
      owner := owner - {BaseOf(a)};
      supers := supers - {BaseOf(a)};
      forall i | 0 <= i < BINS_COUNT ensures BinOk(i) && BinValid(i) {
        assert old(BinOk(i) && BinValid(i));
        forall b ensures Belongs(i, b) {
          assert old(Belongs(i, b));
        }
      }
    }

    /** Frees the block, which is live or null; all others keep what is in them. */
    method Free(a: nat)
      requires Valid() && (a == 0 || IsLive(a))
      modifies this, bins
      modifies Objects()`next, Objects()`prev, Objects()`place, Objects()`freeCount, Objects()`firstFree, Objects()`free
      modifies HomeOf(a)`memory
      ensures Valid() && OnlyChanges(a) && (a != 0 ==> !IsLive(a))
      ensures WordsKept(a)
    {
      LiveAlone(a);
      if a != 0 {
        var index := owner[BaseOf(a)];
        if index < BINS_COUNT {
          assert BinOk(index);
          BinFree(index, a);
          forall i | 0 <= i < BINS_COUNT ensures BinOk(i) {
            assert old(BinOk(i));
            forall b ensures Belongs(i, b) {
              assert old(Belongs(i, b));
            }
          }
        } else {
          FreeSuper(a);
        }
      }
      KeptBut(a);
    }

    /** answers says whether the system tells the size of a superblock. */
    method BlockSize(a: nat, answers: bool) returns (size: nat)
      requires Valid() && (a == 0 || IsLive(a))
      ensures size == if a == 0 || (owner[BaseOf(a)] == BINS_COUNT && !answers) then 0 else SizeOf(a)
    {
      if a == 0 {
        return 0;
      }
      var index := owner[BaseOf(a)];
      if index < BINS_COUNT {
        size := bins[index].blockSize;
      } else {
        size := if answers then supers[BaseOf(a)] - HEADER else 0;
      }
    }

    /** But for the blocks at a and b, the same blocks are live as before, with the same sizes. */
    twostate predicate OnlyTheseChange(a: nat, b: nat)
      reads this, bins
    {
      forall x {:trigger IsLive(x)} ::
        x != a && x != b ==> (IsLive(x) <==> old(IsLive(x))) && (IsLive(x) ==> SizeOf(x) == old(SizeOf(x)))
    }

    /** The same blocks are live, at the same places, with the same sizes. */
    twostate predicate SameBlocks()
      reads this, bins
    {
      && owner == old(owner) && supers == old(supers)
      && forall i :: 0 <= i < |bins| ==> bins[i].chunks == old(bins[i].chunks) && bins[i].live == old(bins[i].live)
    }

    method BinWrite(index: nat, a: nat, now: map<nat, nat>)
      requires Valid() && index < BINS_COUNT && a in bins[index].live && IsLive(a) && owner[BaseOf(a)] == index
      requires Agrees(WordsOf(a), now, a, SizeOf(a))
      modifies bins[index].HomeOf(a)`memory
      ensures BinsValid() && WordsOf(a) == now
    {
      AllApart(index);
      assert BinOk(index) && BinValid(index);
      bins[index].LiveFits(a);
      bins[index].Write(a, now);
      forall i | 0 <= i < BINS_COUNT && i != index ensures Untouched(i) {
      }
      OthersValid(index);
    }

    /** The caller of Malloc writes to its block: now are the words of the memory it lies in. */
    method Write(a: nat, now: map<nat, nat>)
      requires Valid() && IsLive(a) && Agrees(WordsOf(a), now, a, SizeOf(a))
      modifies this`words, HomeOf(a)`memory
      ensures Valid() && SameBlocks() && WordsOf(a) == now && WordsKept(a)
    {
      LiveAlone(a);
      var index := owner[BaseOf(a)];
      if index < BINS_COUNT {
        BinWrite(index, a, now);
        forall i | 0 <= i < BINS_COUNT ensures BinOk(i) {
          assert old(BinOk(i));
          forall b ensures Belongs(i, b) {
            assert old(Belongs(i, b));
          }
        }
      } else {
        words := now;
        forall i | 0 <= i < BINS_COUNT ensures BinOk(i) && BinValid(i) {
          assert old(BinOk(i) && BinValid(i));
          forall b ensures Belongs(i, b) {
            assert old(Belongs(i, b));
          }
        }
      }
      KeptBut(a);
    }

    /** Copies count bytes of one block to another. */
    method Copy(a: nat, b: nat, count: nat)
      requires Valid() && IsLive(a) && IsLive(b) && a != b && count <= SizeOf(a) && count <= SizeOf(b)
      modifies this`words, HomeOf(a)`memory
      ensures Valid() && SameBlocks() && WordsKept(a)
      ensures forall k: nat {:trigger Word(a, k)} :: SMALLEST * (k + 1) <= count ==> Word(a, k) == old(Word(b, k))
    {
      LiveInside(a);
      var now := CopyWords(WordsOf(a), WordsOf(b), a, b, count);
      Write(a, now);
    }

    /** All live blocks but those at a and b keep what is in them. */
    twostate predicate WordsKeptBut(a: nat, b: nat)
      reads *
    {
      forall x, k {:trigger Word(x, k)} ::
        x != a && x != b && old(HasWord(x, k)) ==> Word(x, k) == old(Word(x, k))
    }

    /** The first count bytes of the block at a, as far as they are whole words, are those that the block at b had. */
    twostate predicate TakesOver(a: nat, b: nat, count: nat)
      reads this, bins, HomeOf(a)`memory
    {
      forall k: nat {:trigger Word(a, k)} :: SMALLEST * (k + 1) <= count ==> Word(a, k) == old(Word(b, k))
    }

    lemma HomeIsObject(a: nat)
      ensures HomeOf(a) <= Objects()
    {
      forall h | h in HomeOf(a) ensures h in Objects() {
        assert h in bins[owner[BaseOf(a)]].Parts();
      }
    }

    /** One block takes over what is in another, which is freed. */
    method Succeed(a: nat, b: nat, count: nat)
      requires Valid() && IsLive(a) && IsLive(b) && a != b && count <= SizeOf(a) && count <= SizeOf(b)
      modifies this, bins
      modifies Objects()`next, Objects()`prev, Objects()`place, Objects()`freeCount, Objects()`firstFree, Objects()`free
      modifies Objects()`memory
      ensures Valid() && OnlyChanges(b) && !IsLive(b)
      ensures TakesOver(a, b, count) && WordsKeptBut(a, b)
    {
      HomeIsObject(a);
      HomeIsObject(b);
      Copy(a, b, count);
      Free(b);
    }

    /** Realloc of a block to a size: a new block for the old one, which stays if there is none. over says that
        the new block is too small for the count bytes, which the code copies past its end. */
    method Exchange(old_: nat, size: nat, region: nat, length: nat, count: nat) returns (a: nat, over: bool)
      requires Valid() && IsLive(old_) && (region != 0 ==> Room(owner, supers, region, length)) && 0 < size < SIZE_LIMIT
      requires region != 0 ==> if IndexFromSize(size) < BINS_COUNT then length == REGION else Granted(size, length)
      requires count <= SizeOf(old_) && count <= size
      modifies this, bins
      modifies Objects()`next, Objects()`prev, Objects()`place, Objects()`freeCount, Objects()`firstFree, Objects()`free
      modifies Objects()`memory
      ensures Valid() && (!over ==> OnlyTheseChange(a, old_) && (IsLive(old_) <==> a == 0))
      ensures a != 0 ==> !old(IsLive(a)) && IsLive(a) && (size + HEADER < SIZE_LIMIT ==> SizeOf(a) >= size)
      ensures over <==> a != 0 && count > SizeOf(a)
      ensures size <= 16384 ==> IndexFromSize(size) < |bins| && Serves(IndexFromSize(size), region, a)
      ensures size > 16384 ==> (a == 0 <==> region == 0)
      ensures a != 0 && !over ==> TakesOver(a, old_, count)
      ensures !over ==> WordsKeptBut(a, old_)
    {
      a := Malloc(size, region, length);
      over := false;
      if a != 0 {
        over := count > SizeOf(a);
        if !over {
          Succeed(a, old_, count);
        }
      }
    }

    /** The old block is given up exactly if the new one could be had, or none is wanted.
        copied says how many bytes the new block takes over: as many as the old one has, but no more than asked for. */
    method Realloc(old_: nat, size: nat, region: nat, length: nat, answers: bool)
      returns (a: nat, copied: nat, over: bool)
      requires Valid() && (old_ == 0 || IsLive(old_)) && (region != 0 ==> Room(owner, supers, region, length))
               && size < SIZE_LIMIT
      requires region != 0 ==> if IndexFromSize(size) < BINS_COUNT then length == REGION else Granted(size, length)
      modifies this, bins
      modifies Objects()`next, Objects()`prev, Objects()`place, Objects()`freeCount, Objects()`firstFree, Objects()`free
      modifies Objects()`memory
      ensures Valid() && (!over ==> OnlyTheseChange(a, old_) && WordsKeptBut(a, old_))
      ensures a != 0 ==> !old(IsLive(a)) && IsLive(a) && (size > 0 || old_ == 0)
      ensures a != 0 && size + HEADER < SIZE_LIMIT ==> SizeOf(a) >= size
      ensures old_ != 0 && !over ==> (IsLive(old_) <==> size > 0 && a == 0)
      ensures old_ != 0 && size == 0 ==> a == 0
      ensures (size > 0 || old_ == 0) && size <= 16384 ==>
                IndexFromSize(size) < |bins| && Serves(IndexFromSize(size), region, a)
      ensures size > 16384 ==> (a == 0 <==> region == 0)
      ensures a != 0 && old_ != 0 ==>
                var was := if old(owner[BaseOf(old_)]) == BINS_COUNT && !answers then 0 else old(SizeOf(old_));
                copied == if was < size then was else size
      ensures a != 0 && old_ != 0 && !over ==> TakesOver(a, old_, copied)
      ensures over <==> a != 0 && old_ != 0 && copied > SizeOf(a)
    {
      copied, over := 0, false;
      if old_ == 0 {
        a := Malloc(size, region, length);
      } else if size == 0 {
        HomeIsObject(old_);
        Free(old_);
        a := 0;
      } else {
        var was := BlockSize(old_, answers);
        copied := if was < size then was else size;
        a, over := Exchange(old_, size, region, length, copied);
      }
    }
  }

  /** For the largest size the system is asked for 47 bytes, and gives a page. */
  method WrappedMalloc() returns (manager: MemoryManager, a: nat)
    ensures manager.Valid() && a != 0 && manager.IsLive(a) && manager.SizeOf(a) < SIZE_LIMIT - 1
  {
    manager := new MemoryManager();
    IndexIsLeast(SIZE_LIMIT - 1);
    a := manager.Malloc(SIZE_LIMIT - 1, REGION, PAGE);
  }
}
