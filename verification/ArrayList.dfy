/** The array list of Include/ArrayList.h, with its binary searches. */
module ArrayLists {
  import opened Bytes
  import opened Sequences

  const GRANULARITY: nat := 32
  const NOT_FOUND: int := -1

  lemma InsertedIs<T>(s: seq<T>, k: nat, x: T, r: seq<T>)
    requires k <= |s| && |r| == |s| + 1 && r[k] == x
    requires forall i {:trigger r[i]} :: 0 <= i < |r| ==> (i < k ==> r[i] == s[i]) && (i > k ==> r[i] == s[i - 1])
    ensures r == InsertAt(s, k, x)
  {
  }

  lemma RemovedIs<T>(s: seq<T>, k: nat, m: nat, r: seq<T>)
    requires k + m <= |s| && |r| == |s| - m
    requires forall i {:trigger r[i]} :: 0 <= i < |r| ==> (i < k ==> r[i] == s[i]) && (i >= k ==> r[i] == s[i + m])
    ensures r == s[..k] + s[k + m..]
  {
  }

  class ArrayList<T(0)> {
    var items: array?<T>
    var count: nat
    var size: nat
    ghost var deleted: seq<T>   // the elements given to OnDeleteItem

    ghost predicate Valid()
      reads this
    {
      count <= size && if items == null then size == 0 else items.Length == size
    }

    ghost function Contents(): (s: seq<T>)
      requires Valid()
      reads this, items
      ensures |s| == count
    {
      if items == null then [] else items[..count]
    }

    constructor ()
      ensures Valid() && Contents() == [] && deleted == []
    {
      items, count, size, deleted := null, 0, 0, [];
    }

    /** How large the new block is for a wanted size: but for the first block and if forced, a multiple of the
        granularity. */
    function Granulated(wanted: nat, force: bool): (n: nat)
      reads this
      ensures n >= wanted
    {
      if size > 0 && !force then (wanted + GRANULARITY - 1) / GRANULARITY * GRANULARITY else wanted
    }

    /** Makes the block larger, or if forced smaller; elements for which there is no place are deleted.
        memory says whether the allocation succeeds. */
    method SetSize(wanted: nat, force: bool, memory: bool) returns (ok: bool)
      requires Valid()
      modifies this
      ensures Valid() && (items != old(items) && items != null ==> fresh(items))
      ensures !ok ==> !memory && unchanged(this)
      ensures ok && !force ==>
              size >= wanted && size >= old(size) && Contents() == old(Contents())
              && deleted == old(deleted)
      ensures ok && force ==>
                && size == wanted && Contents() == old(if wanted < count then Contents()[..wanted] else Contents())
                && deleted == old(deleted + if wanted < count then Contents()[wanted..] else [])
    {
      if wanted != size && (wanted > size || force) {
        var newSize := if wanted > 0 then Granulated(wanted, force) else 0;
        var newItems: array?<T> := null;
        if newSize > 0 {
          if !memory {
            return false;
          }
          newItems := new T[newSize];
        }
        if newSize < count {
          deleted := deleted + items[newSize..count];
        }
        var kept := if count <= newSize then count else newSize;
        if newSize > 0 && kept > 0 {
          forall i | 0 <= i < kept {
            newItems[i] := items[i];
          }
        }
        assert newItems != null ==> newItems[..kept] == Contents()[..kept];
        items, size, count := newItems, newSize, kept;
      }
      return true;
    }

    /** Inserts at the index, or at the end if the index is beyond. */
    method InsertElementAt(elem: T, index: nat, memory: bool) returns (ok: bool)
      requires Valid()
      modifies this, items
      ensures Valid() && deleted == old(deleted) && (!ok ==> !memory)
      ensures items != old(items) && items != null ==> fresh(items)
      ensures Contents() == if ok
              then InsertAt(old(Contents()), if index >= old(count) then old(count) else index, elem)
                            else old(Contents())
    {
      var k := if index >= count then count else index;
      ok := SetSize(count + 1, false, memory);
      if ok {
        ghost var s := Contents();
        forall i | k <= i < count {
          items[i + 1] := items[i];
        }
        items[k] := elem;
        count := count + 1;
        InsertedIs(s, k, elem, items[..count]);
      }
    }

    /** Adds an element in its place: before all that are not less. In a sorted array that is the lower bound;
        with duplicates refused, a hit leaves the array as it is. */
    method SortedInsert(elem: T, cmp: (T, T) -> int, noDuplicates: bool, memory: bool) returns (ok: bool, already: bool)
      requires Valid()
      modifies this, items
      ensures Valid() && deleted == old(deleted) && (!ok ==> !memory && !already)
      ensures items != old(items) && items != null ==> fresh(items)
      ensures already ==> noDuplicates && ok && exists i :: 0 <= i < old(count) && cmp(elem, old(Contents())[i]) == 0
      ensures already || !ok ==> Contents() == old(Contents())
      ensures ok && !already ==> exists k :: 0 <= k <= old(count) && Contents() == InsertAt(old(Contents()), k, elem)
      ensures ok && Falling(old(Contents()), Probe(cmp, elem)) ==>
                && (already <==> noDuplicates && exists i :: 0 <= i < old(count) && cmp(elem, old(Contents())[i]) == 0)
                && (!already ==>
                  Contents() == InsertAt(old(Contents()), LowerBound(old(Contents()), Probe(cmp, elem)), elem))
    {
      ghost var s, probe := Contents(), Probe(cmp, elem);
      var low, high := 0, count;
      while low < high
        invariant 0 <= low <= high <= count
        invariant Falling(s, probe) ==>
                (forall i :: 0 <= i < low ==> probe(s[i]) > 0)
                && forall i :: high <= i < count ==> probe(s[i]) <= 0
      {
        var mid := low + (high - low) / 2;
        if cmp(elem, items[mid]) > 0 {
          low := mid + 1;
        } else {
          high := mid;
        }
      }
      if Falling(s, probe) {
        LowerBoundIs(s, probe, low);
        EqualAt(s, probe, low);
      }
      if noDuplicates && low < count && cmp(elem, items[low]) == 0 {
        assert cmp(elem, s[low]) == 0;
        return true, true;
      }
      ok := InsertElementAt(elem, low, memory);
      already := false;
    }

    /** The index of an element that the key is equal to; there is one if the array is sorted and holds such an
        element. */
    method BinarySearch(probe: T -> int) returns (r: int)
      requires Valid()
      ensures r == NOT_FOUND || (0 <= r < count && probe(Contents()[r]) == 0)
      ensures r == NOT_FOUND && Falling(Contents(), probe) ==> forall i :: 0 <= i < count ==> probe(Contents()[i]) != 0
    {
      ghost var s := Contents();
      var base, n := 0, count;
      while n > 0
        invariant 0 <= base && 0 <= n && base + n <= count
        invariant Falling(s, probe) ==>
                    (forall i :: 0 <= i < base ==> probe(s[i]) != 0) && forall i :: base + n <= i < count ==>
                      probe(s[i]) != 0
      {
        var mid := base + n / 2;
        var comp := probe(items[mid]);
        assert items[mid] == s[mid];
        if comp == 0 {
          return mid;
        }
        if comp > 0 {
          base := mid + 1;
          n := n - 1;
        }
        n := n / 2;
      }
      return NOT_FOUND;
    }

    method GetElementAt(index: nat) returns (x: T)
      requires Valid() && index < count
      ensures x == Contents()[index]
    {
      x := items[index];
    }

    method SetElementAt(elem: T, index: nat) returns (ok: bool)
      requires Valid()
      modifies items
      ensures Valid() && ok == (index < count) && Contents() == if ok then old(Contents())[index := elem]
              else old(Contents())
    {
      if index >= count {
        return false;
      }
      items[index] := elem;
      return true;
    }

    /** Removes a stretch of elements, up to the end at most. */
    method RemoveElementAt(index: nat, n: nat, finalize: bool) returns (ok: bool)
      requires Valid() && count < SIZE_LIMIT && n < SIZE_LIMIT
      modifies this`count, this`deleted, items
      ensures Valid() && ok == (index < old(count) && n > 0 && index + n < SIZE_LIMIT)
      ensures var last := if index + n > old(count) then old(count) else index + n;
              ok ==>
                && Contents() == old(Contents())[..index] + old(Contents())[last..]
                && deleted == old(deleted) + if finalize then old(Contents())[index..last] else []
      ensures !ok ==> Contents() == old(Contents()) && deleted == old(deleted)
    {
      if index >= count || n == 0 || (index + n) % SIZE_LIMIT < index {
        return false;
      }
      var m := if index + n > count then count - index else n;
      ghost var s := Contents();
      count := count - m;
      if finalize {
        deleted := deleted + s[index..index + m];
      }
      forall i | index <= i < count {
        items[i] := items[i + m];
      }
      RemovedIs(s, index, m, items[..count]);
      return true;
    }

    method RemoveAllElements()
      requires Valid()
      modifies this
      ensures Valid() && Contents() == [] && size == 0 && deleted == old(deleted) + old(Contents())
    {
      deleted := deleted + Contents();
      items, count, size := null, 0, 0;
    }
  }

  /** In an array that can be searched, the place where a search ends holds an equal element if any does. */
  lemma EqualAt<T>(s: seq<T>, probe: T -> int, k: nat)
    requires Falling(s, probe) && k <= |s|
    requires (forall i :: 0 <= i < k ==> probe(s[i]) > 0) && (k < |s| ==> probe(s[k]) <= 0)
    ensures (exists i :: 0 <= i < |s| && probe(s[i]) == 0) <==> k < |s| && probe(s[k]) == 0
  {
  }

  ghost predicate StrictlySorted<T>(s: seq<T>, cmp: (T, T) -> int) {
    forall i, j :: 0 <= i < j < |s| ==> cmp(s[i], s[j]) < 0
  }

  lemma InsertedStrictly<T>(s: seq<T>, cmp: (T, T) -> int, x: T, k: nat)
    requires StrictlySorted(s, cmp) && k <= |s|
    requires (forall i :: 0 <= i < k ==> cmp(s[i], x) < 0) && forall i :: k <= i < |s| ==> cmp(x, s[i]) < 0
    ensures StrictlySorted(InsertAt(s, k, x), cmp)
  {
  }

  /** Inserted before all that are not less, an element leaves a sorted array sorted; and a strictly
      sorted one strictly sorted, if no element is equal to it. */
  lemma InsertLowerKeepsSorted<T>(s: seq<T>, cmp: (T, T) -> int, x: T, all: set<T>)
    requires Orders(cmp, all) && x in all && (forall i :: 0 <= i < |s| ==> s[i] in all) && Sorted(s, cmp)
    ensures Sorted(InsertAt(s, LowerBound(s, Probe(cmp, x)), x), cmp)
    ensures StrictlySorted(s, cmp) && (forall i :: 0 <= i < |s| ==> cmp(x, s[i]) != 0) ==>
              StrictlySorted(InsertAt(s, LowerBound(s, Probe(cmp, x)), x), cmp)
  {
    SortedFalls(s, cmp, x, all);
    var probe := Probe(cmp, x);
    var k := LowerBound(s, probe);
    forall i | 0 <= i < k ensures cmp(s[i], x) < 0 {
      assert s[i] in all && FlipsAt(cmp, x, s[i]) && probe(s[i]) > 0;
    }
    forall i | k <= i < |s| ensures cmp(x, s[i]) <= 0 {
      BeyondLower(s, probe, i);
    }
    InsertedSorted(s, cmp, x, k);
    if StrictlySorted(s, cmp) && (forall i :: 0 <= i < |s| ==> cmp(x, s[i]) != 0) {
      InsertedStrictly(s, cmp, x, k);
    }
  }

  lemma InsertStrictly<T>(s: seq<T>, cmp: (T, T) -> int, x: T, all: set<T>)
    requires Orders(cmp, all) && x in all && (forall i :: 0 <= i < |s| ==> s[i] in all)
    requires StrictlySorted(s, cmp) && forall i :: 0 <= i < |s| ==> cmp(x, s[i]) != 0
    ensures Falling(s, Probe(cmp, x)) && StrictlySorted(InsertAt(s, LowerBound(s, Probe(cmp, x)), x), cmp)
  {
    SortedFalls(s, cmp, x, all);
    InsertLowerKeepsSorted(s, cmp, x, all);
  }

  lemma RemoveStrictly<T>(s: seq<T>, cmp: (T, T) -> int, k: nat)
    requires StrictlySorted(s, cmp) && k < |s|
    ensures StrictlySorted(RemoveAt(s, k), cmp)
  {
  }

  lemma ReplaceStrictly<T>(s: seq<T>, cmp: (T, T) -> int, k: nat, x: T)
    requires StrictlySorted(s, cmp) && k < |s|
    requires forall i :: 0 <= i < |s| ==> cmp(s[i], x) == cmp(s[i], s[k]) && cmp(x, s[i]) == cmp(s[k], s[i])
    ensures StrictlySorted(s[k := x], cmp)
  {
  }
}
