/** A bin of the memory manager of Source/MemoryPools.cpp: the chunks that are cut into blocks of one size. */
module SlabBins {
  import opened Sequences
  import opened SlabSizes
  import opened SlabChunks
  import opened SlabLists

  class Bin {
    const blockSize: nat
    const blocksPerChunk: nat
    const freeList: Header
    const inUseList: Header
    const fullList: Header
    var chunks: map<nat, Header>   // the memory of the process: the chunks by address
    ghost var lists: map<Place, seq<Header>>
    ghost var live: set<nat>       // the addresses of the blocks in the hands of callers

    ghost function Head(p: Place): Header {
      if p == OnInUse then inUseList else if p == OnFull then fullList else freeList
    }

    ghost function Items(p: Place): seq<Header>
      reads this`lists
    {
      if p in lists then lists[p] else []
    }

    /** All the headers the bin is made of. */
    ghost function Parts(): set<Header>
      reads this`chunks
    {
      {freeList, inUseList, fullList} + chunks.Values
    }

    /** The chunk that the block at a lies in. */
    ghost function HomeOf(a: nat): set<Header>
      reads this`chunks
    {
      if BaseOf(a) in chunks then {chunks[BaseOf(a)]} else {}
    }

    ghost predicate Mine(h: Header)
      reads this`chunks
    {
      h.base in chunks && chunks[h.base] == h
    }

    ghost predicate InPlace(b: nat, p: Place)
      requires b in chunks
      reads this`chunks, this`lists, chunks.Values`place
    {
      chunks[b] in Items(p) <==> chunks[b].place == p
    }

    /** The list holds the chunks whose place it is. */
    ghost predicate Holds(p: Place)
      reads this`chunks, this`lists, chunks.Values`place, chunks.Values`next, chunks.Values`prev, Head(p)`next,
            Head(p)`prev
    {
      && (forall k :: 0 <= k < |Items(p)| ==> Mine(Items(p)[k])) && Ring(Head(p), Items(p))
      && (forall b {:trigger InPlace(b, p)} :: b in chunks ==> InPlace(b, p))
    }

    ghost predicate HeadsOk()
      reads this`chunks
    {
      && freeList != inUseList && freeList != fullList && inUseList != fullList && 0 !in chunks
      && freeList.base == 0 && inUseList.base == 0 && fullList.base == 0
      && freeList.blockSize == blockSize && inUseList.blockSize == blockSize && fullList.blockSize == blockSize
    }

    ghost predicate ListsOk()
      reads this`chunks, this`lists, chunks.Values`place, chunks.Values`next, chunks.Values`prev
      reads freeList`next, freeList`prev, inUseList`next, inUseList`prev, fullList`next, fullList`prev
    {
      && HeadsOk()
      && (forall p {:trigger Holds(p)} :: p != Nowhere ==> Holds(p))
    }

    constructor (blockSize: nat, blocksPerChunk: nat)
      requires SMALLEST <= blockSize && 0 < blocksPerChunk && blocksPerChunk * blockSize <= REGION - HEADER
      ensures Valid() && this.blockSize == blockSize && this.blocksPerChunk == blocksPerChunk
      ensures chunks == map[] && live == {} && fresh(freeList) && fresh(inUseList) && fresh(fullList)
    {
      this.blockSize, this.blocksPerChunk := blockSize, blocksPerChunk;
      freeList := new Header.Head(blockSize);
      inUseList := new Header.Head(blockSize);
      fullList := new Header.Head(blockSize);
      chunks, lists, live := map[], map[], {};
    }

    /** A chunk is on no list but the one it belongs on, and no head is on a list. */
    lemma Apart(p: Place)
      requires ListsOk() && p != Nowhere
      ensures forall h :: h in Items(p) ==> h.place == p && h.base != 0
    {
      assert Holds(p);
      forall h | h in Items(p) ensures h.place == p {
        assert InPlace(h.base, p);
      }
    }

    ghost predicate RingOk(p: Place)
      reads this`chunks, this`lists, chunks.Values`next, chunks.Values`prev, Head(p)`next, Head(p)`prev
    {
      (forall k :: 0 <= k < |Items(p)| ==> Mine(Items(p)[k])) && Ring(Head(p), Items(p))
    }

    method Detach(c: Header, ghost k: nat)
      requires ListsOk() && Mine(c) && c.place != Nowhere && k < |Items(c.place)| && Items(c.place)[k] == c
      modifies freeList`next, freeList`prev, inUseList`next, inUseList`prev, fullList`next, fullList`prev
      modifies chunks.Values`next, chunks.Values`prev
      ensures c.next == c == c.prev && Ring(Head(c.place), RemoveAt(Items(c.place), k))
      ensures forall p {:trigger RingOk(p)} :: p != Nowhere && p != c.place ==> RingOk(p)
    {
      assert Holds(c.place);
      forall p | p != Nowhere {
        Apart(p);
      }
      DlListRemove(c, Head(c.place), Items(c.place), k);
      forall p | p != Nowhere && p != c.place ensures RingOk(p) {
        assert old(Holds(p));
      }
    }

    /** The chunk c, which is linked to itself, leaves place k of the list it was on. */
    method Unlist(c: Header, ghost k: nat)
      requires Mine(c) && c.place != Nowhere && k < |Items(c.place)| && Items(c.place)[k] == c && HeadsOk()
      requires c.next == c == c.prev && Ring(Head(c.place), RemoveAt(Items(c.place), k)) && Distinct(Items(c.place))
      requires forall j :: 0 <= j < |Items(c.place)| ==> Mine(Items(c.place)[j])
      requires forall p {:trigger RingOk(p)} :: p != Nowhere && p != c.place ==> RingOk(p)
      requires forall b, p {:trigger InPlace(b, p)} :: b in chunks && p != Nowhere ==> InPlace(b, p)
      modifies this`lists, c`place
      ensures ListsOk() && c.place == Nowhere && c.next == c == c.prev
      ensures forall p :: p != old(c.place) ==> Items(p) == old(Items(p))
    {
      ghost var was := c.place;
      lists := lists[was := RemoveAt(Items(was), k)];
      c.place := Nowhere;
      forall p, b | p != Nowhere && b in chunks ensures InPlace(b, p) {
        assert old(InPlace(b, p));
      }
      forall p | p != Nowhere ensures Holds(p) {
        if p != was {
          assert old(RingOk(p));
        }
      }
    }

    /** Takes a chunk off the list it is on. */
    method Unlink(c: Header)
      requires ListsOk() && Mine(c) && c.place != Nowhere
      modifies this`lists, c`place
      modifies freeList`next, freeList`prev, inUseList`next, inUseList`prev, fullList`next, fullList`prev
      modifies chunks.Values`next, chunks.Values`prev
      ensures ListsOk() && c.place == Nowhere && c.next == c == c.prev
      ensures forall p :: p != old(c.place) ==> Items(p) == old(Items(p))
    {
      assert Holds(c.place) && InPlace(c.base, c.place);
      ghost var k :| 0 <= k < |Items(c.place)| && Items(c.place)[k] == c;
      forall b, p | b in chunks && p != Nowhere ensures InPlace(b, p) {
        assert Holds(p);
      }
      Detach(c, k);
      Unlist(c, k);
    }

    method Attach(list: Header, c: Header, ghost place: Place)
      requires place != Nowhere && list == Head(place)
      requires ListsOk() && Mine(c) && c.place == Nowhere && c.next == c == c.prev
      modifies freeList`next, freeList`prev, inUseList`next, inUseList`prev, fullList`next, fullList`prev
      modifies chunks.Values`next, chunks.Values`prev
      ensures Ring(list, [c] + Items(place))
      ensures forall p {:trigger RingOk(p)} :: p != Nowhere && p != place ==> RingOk(p)
    {
      assert Holds(place);
      forall p | p != Nowhere {
        Apart(p);
      }
      DlListInsertHead(list, c, Items(place));
      forall p | p != Nowhere && p != place ensures RingOk(p) {
        assert old(Holds(p));
      }
    }

    /** Puts a chunk that is on no list in front of the list for the place. */
    method Link(list: Header, c: Header, ghost place: Place)
      requires place != Nowhere && list == Head(place)
      requires ListsOk() && Mine(c) && c.place == Nowhere && c.next == c == c.prev
      modifies this`lists, c`place
      modifies freeList`next, freeList`prev, inUseList`next, inUseList`prev, fullList`next, fullList`prev
      modifies chunks.Values`next, chunks.Values`prev
      ensures ListsOk() && c.place == place && Items(place) == [c] + old(Items(place))
      ensures forall p :: p != place ==> Items(p) == old(Items(p))
    {
      Attach(list, c, place);
      label Attached:
      lists := lists[place := [c] + Items(place)];
      c.place := place;
      forall p | p != Nowhere ensures Holds(p) {
        assert old(Holds(p));
        if p != place {
          assert old@Attached(RingOk(p));
        }
        forall b | b in chunks ensures InPlace(b, p) {
          assert old(InPlace(b, p));
        }
      }
    }

    /** A list is empty if its head points to itself; otherwise to the first chunk. */
    lemma First(p: Place)
      requires ListsOk() && p != Nowhere
      ensures Items(p) == [] ==> Head(p).next == Head(p)
      ensures Items(p) != [] ==>
                (Head(p).next == Items(p)[0] != Head(p) && Mine(Items(p)[0]) && Items(p)[0].place == p)
    {
      assert Holds(p) && JoinedAt(Head(p), Items(p), 0);
      Apart(p);
    }

    /** A chunk is wholly free on the Free list, partly free on the InUse list, at most a quarter
        free on the Full list. The chunk at loose may be wholly free on the InUse list. */
    ghost predicate ChunkOk(b: nat, loose: nat)
      requires b in chunks
      reads this`chunks
      reads {chunks[b]}`freeCount, {chunks[b]}`firstFree, {chunks[b]}`memory, {chunks[b]}`free, {chunks[b]}`place
    {
      var h := chunks[b];
      && h.base == b && h.blockSize == blockSize && h.count == blocksPerChunk && h.Valid()
      && match h.place
         case OnFree => h.freeCount == blocksPerChunk
         case OnInUse => 0 < h.freeCount && (b == loose || h.freeCount < blocksPerChunk)
         case OnFull => h.freeCount <= blocksPerChunk / 4
         case Nowhere => false
    }

    ghost predicate LiveAt(a: nat)
      reads this`chunks, chunks.Values`free
    {
      BaseOf(a) in chunks && a in chunks[BaseOf(a)].Live()
    }

    ghost predicate LiveOk()
      reads this`chunks, this`live, chunks.Values`free
    {
      forall a {:trigger LiveAt(a)} :: a in live <==> LiveAt(a)
    }

    ghost predicate SizesOk() {
      SMALLEST <= blockSize && 0 < blocksPerChunk && blocksPerChunk * blockSize <= REGION - HEADER
    }

    /** The bin is in order, but that the chunk at the address may be wholly free on the InUse list. */
    ghost predicate ValidBut(loose: nat)
      reads this, Parts()
    {
      && SizesOk() && ListsOk() && LiveOk()
      && (forall b {:trigger ChunkOk(b, loose)} :: b in chunks ==> ChunkOk(b, loose))
    }

    ghost predicate Valid()
      reads this, Parts()
    {
      ValidBut(0)
    }

    /** Moves a chunk from the list it is on to the front of another, or of the same. */
    method Move(c: Header, list: Header, ghost place: Place)
      requires ListsOk() && Mine(c) && c.place != Nowhere && place != Nowhere && list == Head(place)
      modifies this`lists, c`place
      modifies freeList`next, freeList`prev, inUseList`next, inUseList`prev, fullList`next, fullList`prev
      modifies chunks.Values`next, chunks.Values`prev
      ensures ListsOk() && c.place == place && Items(place) != [] && Items(place)[0] == c
      ensures old(c.place) != place ==> Items(place) == [c] + old(Items(place))
    {
      Unlink(c);
      Link(list, c, place);
    }

    /** The first chunk of the Free list goes to the InUse list. */
    method Reuse()
      requires Valid() && Items(OnFree) != [] && Items(OnInUse) == []
      modifies this`lists, {Items(OnFree)[0]}`place
      modifies freeList`next, freeList`prev, inUseList`next, inUseList`prev, fullList`next, fullList`prev
      modifies chunks.Values`next, chunks.Values`prev
      ensures Items(OnInUse) == [old(Items(OnFree)[0])] && ValidBut(Items(OnInUse)[0].base)
    {
      First(OnFree);
      var c := freeList.next;
      Move(c, inUseList, OnInUse);
      forall b | b in chunks ensures ChunkOk(b, c.base) {
        assert old(ChunkOk(b, 0));
      }
    }

    /** A new chunk, in memory that the system has just provided. */
    method Obtain(region: nat) returns (c: Header)
      requires Valid() && region > 0 && region % REGION == 0 && region !in chunks
      modifies this`chunks
      ensures ListsOk() && Mine(c) && c.base == region && chunks == old(chunks)[region := c] && fresh(c)
      ensures c.place == Nowhere && c.next == c == c.prev && c.blockSize == blockSize && c.count == blocksPerChunk
      ensures c.Valid() && c.freeCount == blocksPerChunk && c.Live() == {}
    {
      c := new Header(region, blockSize, blocksPerChunk);
      chunks := chunks[region := c];
      forall p | p != Nowhere ensures Holds(p) {
        assert old(Holds(p));
        forall b | b in chunks ensures InPlace(b, p) {
          assert b != region ==> old(InPlace(b, p));
        }
      }
    }

    /** The chunk goes to the InUse list. */
    method Extend(region: nat)
      requires Valid() && Items(OnInUse) == [] && region > 0 && region % REGION == 0 && region !in chunks
      modifies this`lists, this`chunks
      modifies freeList`next, freeList`prev, inUseList`next, inUseList`prev, fullList`next, fullList`prev
      modifies chunks.Values`next, chunks.Values`prev
      ensures region in chunks && fresh(chunks[region]) && chunks == old(chunks)[region := chunks[region]]
      ensures Items(OnInUse) == [chunks[region]] && chunks[region].base == region && ValidBut(region)
    {
      var c := Obtain(region);
      Link(inUseList, c, OnInUse);
      forall b | b in chunks ensures ChunkOk(b, region) {
        assert b != region ==> old(ChunkOk(b, 0));
      }
      forall a ensures a in live <==> LiveAt(a) {
        assert a in live <==> old(LiveAt(a));
      }
    }

    /** The bin is in order, but that the chunk c may have to change its list. */
    ghost predicate ValidSave(c: nat)
      reads this, Parts()
    {
      && SizesOk() && ListsOk() && LiveOk()
      && (forall b {:trigger ChunkOk(b, 0)} :: b in chunks && b != c ==> ChunkOk(b, 0))
      && c in chunks && chunks[c].place != Nowhere && chunks[c].Valid()
      && chunks[c].base == c && chunks[c].blockSize == blockSize && chunks[c].count == blocksPerChunk
    }

    method TakeFrom(c: Header, ghost loose: nat) returns (a: nat)
      requires ValidBut(loose) && Mine(c) && c.place == OnInUse && (loose != 0 ==> loose == c.base)
      modifies this`live, c`freeCount, c`firstFree, c`free
      ensures ValidSave(c.base) && c.freeCount == old(c.freeCount) - 1 && (c.firstFree == 0 <==> c.freeCount == 0)
      ensures a != 0 && a !in old(live) && live == old(live) + {a} && BaseOf(a) == c.base
    {
      assert ChunkOk(c.base, loose);
      a := c.Pop();
      BlocksFit(c.base, c.blockSize, c.count, a);
      assert !old(LiveAt(a)) && ListsOk();
      live := live + {a};
      forall x ensures x in live <==> LiveAt(x) {
        assert x in old(live) <==> old(LiveAt(x));
      }
      forall b | b in chunks && b != c.base ensures ChunkOk(b, 0) {
        assert old(ChunkOk(b, loose));
      }
    }

    method PutBack(c: Header, a: nat)
      requires Valid() && Mine(c) && a in live && c.base == BaseOf(a)
      modifies this`live, c`freeCount, c`firstFree, c`free, c`memory
      ensures ValidSave(c.base) && c.freeCount == old(c.freeCount) + 1 && live == old(live) - {a}
      ensures c.memory == old(c.memory)[a := old(c.firstFree)]
    {
      assert LiveAt(a) && ChunkOk(c.base, 0);
      c.Push(a);
      live := live - {a};
      forall x ensures x in live <==> LiveAt(x) {
        assert x in old(live) <==> old(LiveAt(x));
      }
      forall b | b in chunks && b != c.base ensures ChunkOk(b, 0) {
        assert old(ChunkOk(b, 0));
      }
    }

    /** Puts the chunk on the list that it belongs on now, so that the bin is in order. */
    method Settle(c: Header, list: Header, ghost place: Place)
      requires ValidSave(c.base) && Mine(c) && place != Nowhere && list == Head(place)
      requires place == OnFree ==> c.freeCount == blocksPerChunk
      requires place == OnInUse ==> 0 < c.freeCount < blocksPerChunk
      requires place == OnFull ==> c.freeCount <= blocksPerChunk / 4
      modifies this`lists, c`place
      modifies freeList`next, freeList`prev, inUseList`next, inUseList`prev, fullList`next, fullList`prev
      modifies chunks.Values`next, chunks.Values`prev
      ensures Valid() && c.place == place
    {
      Move(c, list, place);
      forall b | b in chunks ensures ChunkOk(b, 0) {
        assert b != c.base ==> old(ChunkOk(b, 0));
      }
    }

    /** A block leaves the first chunk of the InUse list, and the chunk goes to the Full list with its last. */
    method TakeFirst(ghost loose: nat) returns (a: nat)
      requires ValidBut(loose) && Items(OnInUse) != []
      requires loose != 0 ==> loose == Items(OnInUse)[0].base
      modifies this`lists, this`live
      modifies {Items(OnInUse)[0]}`place, {Items(OnInUse)[0]}`freeCount, {Items(OnInUse)[0]}`firstFree,
               {Items(OnInUse)[0]}`free
      modifies freeList`next, freeList`prev, inUseList`next, inUseList`prev, fullList`next, fullList`prev
      modifies chunks.Values`next, chunks.Values`prev
      ensures Valid() && a != 0 && a !in old(live) && live == old(live) + {a}
              && BaseOf(a) == old(Items(OnInUse)[0]).base
    {
      First(OnInUse);
      var c := inUseList.next;
      assert ChunkOk(c.base, loose);
      a := TakeFrom(c, loose);
      if c.firstFree == 0 {
        Settle(c, fullList, OnFull);
      } else {
        forall b | b in chunks ensures ChunkOk(b, 0) {
        }
      }
    }

    /** The chunk has a free block, and is on a list that Alloc takes blocks from. */
    ghost predicate Offers(b: nat)
      reads this`chunks, chunks.Values`place, chunks.Values`freeCount
    {
      b in chunks && chunks[b].place in {OnInUse, OnFree} && chunks[b].freeCount > 0
    }

    ghost predicate HasFree()
      reads this`chunks, chunks.Values`place, chunks.Values`freeCount
    {
      exists b :: Offers(b)
    }

    lemma HasFreeIff()
      requires Valid()
      ensures HasFree() <==> Items(OnInUse) != [] || Items(OnFree) != []
    {
      assert Holds(OnInUse) && Holds(OnFree);
      if b :| Offers(b) {
        assert InPlace(b, OnInUse) && InPlace(b, OnFree);
      }
      if Items(OnInUse) != [] {
        First(OnInUse);
        assert ChunkOk(Items(OnInUse)[0].base, 0) && Offers(Items(OnInUse)[0].base);
      }
      if Items(OnFree) != [] {
        First(OnFree);
        assert ChunkOk(Items(OnFree)[0].base, 0) && Offers(Items(OnFree)[0].base);
      }
    }

    /** Alloc: region is where the system puts a new chunk if one is needed, or 0 if it has no memory. No word of
        the chunks there are is written. */
    method Alloc(region: nat) returns (a: nat)
      requires Valid() && (region != 0 ==> region % REGION == 0 && region !in chunks)
      modifies this`lists, this`live, this`chunks
      modifies Parts()`next, Parts()`prev, Parts()`place, Parts()`freeCount, Parts()`firstFree, Parts()`free
      ensures Valid() && live == if a == 0 then old(live) else old(live) + {a}
      ensures a != 0 ==> a !in old(live)
      ensures a == 0 ==> region == 0 && chunks == old(chunks) && old(Items(OnInUse)) == [] && old(Items(OnFree)) == []
      ensures a != 0 ==>
                BaseOf(a) == if old(Items(OnInUse)) != [] then old(Items(OnInUse))[0].base
                             else if old(Items(OnFree)) != [] then old(Items(OnFree))[0].base else region
      ensures a == 0 <==> region == 0 && !old(HasFree())
      ensures a != 0 ==> if old(HasFree()) then BaseOf(a) in old(chunks) else region != 0 && BaseOf(a) == region
      ensures chunks.Keys == old(chunks.Keys) + (if a == 0 then {} else {BaseOf(a)})
      ensures forall b :: b in chunks ==> if b in old(chunks) then chunks[b] == old(chunks[b]) else fresh(chunks[b])
      ensures old(Parts()) <= Parts() && fresh(Parts() - old(Parts()))
    {
      HasFreeIff();
      First(OnInUse);
      First(OnFree);
      ghost var loose := 0;
      if inUseList.next == inUseList {
        if freeList.next != freeList {
          Reuse();
        } else if region == 0 {
          return 0;
        } else {
          Extend(region);
        }
        loose := Items(OnInUse)[0].base;
      }
      a := TakeFirst(loose);
    }

    /** Free: the block goes back to its chunk, which moves to the Free list if it is wholly free,
        and to the InUse list if more than a quarter of it is. */
    method Free(a: nat)
      requires Valid() && a in live
      modifies this`lists, this`live
      modifies Parts()`next, Parts()`prev, Parts()`place, Parts()`freeCount, Parts()`firstFree, Parts()`free
      modifies HomeOf(a)`memory
      ensures Valid() && live == old(live) - {a} && BaseOf(a) in chunks
      ensures chunks[BaseOf(a)].memory == old(chunks[BaseOf(a)].memory[a := chunks[BaseOf(a)].firstFree])
      ensures var c := chunks[BaseOf(a)];
              && c.freeCount == old(c.freeCount) + 1
              && c.place == if c.freeCount == blocksPerChunk then OnFree
                            else if c.freeCount > blocksPerChunk / 4 then OnInUse else old(c.place)
    {
      assert LiveAt(a) && ChunkOk(BaseOf(a), 0);
      var c := chunks[BaseOf(a)];
      PutBack(c, a);
      if c.freeCount >= blocksPerChunk {
        Settle(c, freeList, OnFree);
      } else if c.freeCount > blocksPerChunk / 4 {
        Settle(c, inUseList, OnInUse);
      } else {
        forall b | b in chunks ensures ChunkOk(b, 0) {
        }
      }
    }

    /** The caller of Alloc writes to its block. */
    method Write(a: nat, words: map<nat, nat>)
      requires Valid() && a in live
      requires BaseOf(a) in chunks ==> Agrees(chunks[BaseOf(a)].memory, words, a, blockSize)
      modifies HomeOf(a)`memory
      ensures Valid() && BaseOf(a) in chunks && chunks[BaseOf(a)].memory == words
    {
      assert LiveAt(a) && ChunkOk(BaseOf(a), 0);
      chunks[BaseOf(a)].Write(a, words);
      forall b | b in chunks ensures ChunkOk(b, 0) {
        assert b != BaseOf(a) ==> old(ChunkOk(b, 0));
      }
      forall x ensures x in live <==> LiveAt(x) {
        assert x in live <==> old(LiveAt(x));
      }
    }

    /** What holds of every chunk: its blocks are free or live, none both; the free ones are linked,
        distinct, and whole blocks behind the header; and it is on the list that fits how many are free. */
    lemma ChunkKeeps(b: nat)
      requires Valid() && b in chunks
      ensures var h := chunks[b];
              && h.freeCount == |h.free| && h.freeCount + |h.Live()| == blocksPerChunk
              && Distinct(h.free) && h.Threaded()
              && (forall a :: a in h.free ==> exists i :: 0 <= i < blocksPerChunk && a == BlockAt(b, blockSize, i))
              && (h.place == OnFree <==> h.freeCount == blocksPerChunk)
              && (h.place == OnInUse ==> h.freeCount > 0 && h.Live() != {})
              && (h.place == OnFull ==> 4 * h.freeCount <= blocksPerChunk)
              && h.place != Nowhere
    {
      assert ChunkOk(b, 0);
      var h := chunks[b];
      h.Conservation();
      BlocksAre(b, blockSize, blocksPerChunk);
    }

    /** A chunk is on the list of its place, once, and on no other. */
    lemma OnOneList(b: nat, p: Place)
      requires Valid() && b in chunks && p != Nowhere
      ensures chunks[b] in Items(p) <==> chunks[b].place == p
      ensures Distinct(Items(p)) && Ring(Head(p), Items(p))
    {
      assert Holds(p) && InPlace(b, p);
    }

    /** All that the bin consists of is of its block size. */
    lemma AllOfSize()
      requires Valid()
      ensures forall h :: h in Parts() ==> h.blockSize == blockSize
    {
      forall b | b in chunks ensures chunks[b].blockSize == blockSize {
        assert ChunkOk(b, 0);
      }
    }

    /** Live blocks lie in chunks, apart from each other. */
    lemma LiveFits(a: nat)
      requires Valid() && a in live
      ensures BaseOf(a) in chunks && BaseOf(a) + HEADER <= a && a + blockSize <= BaseOf(a) + REGION
      ensures forall x :: x in live && x != a && BaseOf(x) == BaseOf(a) ==> a + blockSize <= x || x + blockSize <= a
    {
      assert LiveAt(a) && ChunkOk(BaseOf(a), 0);
      BlocksFit(BaseOf(a), blockSize, blocksPerChunk, a);
      forall x | x in live && x != a && BaseOf(x) == BaseOf(a) ensures a + blockSize <= x || x + blockSize <= a {
        assert LiveAt(x);
      }
    }
  }
}
