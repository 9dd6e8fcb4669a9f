/** The ring buffer of Source/CircularBuffer.cpp. */
module CircularBuffers {
  import opened Bytes

  /** Overrun is not a result of the code: there it writes past the end of a block, and nothing is known after it. */
  datatype Result = Ok | Pointer | InvalidArgument | OutOfMemory | BufferOverflow | Fail | Overrun

  /** Where a stretch of the buffer starts, if it has one. */
  datatype Start = Null | At(offset: nat)

  /** What a caller hands over to be written, or a null pointer. */
  datatype Input = Nothing | Input(bytes: seq<byte>)

  const NOT_FOUND: int := -1

  /** A size rounded up to a multiple of 4096, as a SIZE_T. */
  function Rounded(n: nat): nat
    requires n < SIZE_LIMIT
  {
    (if n + 4095 < SIZE_LIMIT then n + 4095 else n + 4095 - SIZE_LIMIT) / 4096 * 4096
  }

  /** Rounding up is what it says exactly for sizes that are not within 4095 of the limit. */
  lemma RoundsUpIff(n: nat)
    requires n < SIZE_LIMIT
    ensures n <= Rounded(n) < n + 4096 && Rounded(n) % 4096 == 0 <==> n + 4095 < SIZE_LIMIT
    ensures n + 4095 >= SIZE_LIMIT ==> Rounded(n) == 0
  {
  }

  /** s with t written over it from a place on. */
  function Over(s: seq<byte>, to: nat, t: seq<byte>): (r: seq<byte>)
    requires to + |t| <= |s|
    ensures |r| == |s|
  {
    s[..to] + t + s[to + |t|..]
  }

  lemma OverTwice(s: seq<byte>, t: seq<byte>, u: seq<byte>)
    requires |t| + |u| <= |s|
    ensures Over(Over(s, 0, t), |t|, u) == Over(s, 0, t + u)
  {
  }

  lemma PrefixOfTwo(a: seq<byte>, b: seq<byte>, n: nat, more: nat)
    requires n <= |a| && more <= |b| && (more > 0 ==> n == |a|)
    ensures (a + b)[..n + more] == a[..n] + b[..more]
  {
  }

  /** n bytes of memory. */
  ghost function Stretch(memory: array?<byte>, at: Start, n: nat): (s: seq<byte>)
    requires n > 0 ==> memory != null && at.At? && at.offset + n <= memory.Length
    reads memory
    ensures |s| == n
  {
    if n == 0 then [] else memory[at.offset..at.offset + n]
  }

  lemma StretchPrefix(memory: array?<byte>, at: Start, n: nat, k: nat)
    requires k <= n && (n > 0 ==> memory != null && at.At? && at.offset + n <= memory.Length)
    ensures Stretch(memory, at, k) == Stretch(memory, at, n)[..k]
  {
  }

  /** MxMemCopy between different blocks of memory. */
  method CopyBytes(dest: array<byte>, to: nat, src: array?<byte>, from: Start, n: nat)
    requires to + n <= dest.Length
             && (n > 0 ==> src != null && src != dest && from.At? && from.offset + n <= src.Length)
    modifies dest
    ensures dest[..] == Over(old(dest[..]), to, Stretch(src, from, n))
  {
    if n > 0 {
      var f := from.offset;
      forall i | 0 <= i < n {
        dest[to + i] := src[f + i];
      }
      assert dest[..to] == old(dest[..to]);
      assert dest[to..to + n] == src[f..f + n];
      assert dest[to + n..] == old(dest[to + n..]);
      assert dest[..] == dest[..to] + dest[to..to + n] + dest[to + n..];
    }
  }

  /** MxMemCopy from memory of the caller. */
  method CopyFrom(dest: array<byte>, to: nat, bytes: seq<byte>)
    requires to + |bytes| <= dest.Length
    modifies dest
    ensures dest[..] == Over(old(dest[..]), to, bytes)
  {
    forall i | 0 <= i < |bytes| {
      dest[to + i] := bytes[i];
    }
    assert dest[..to] == old(dest[..to]);
    assert dest[to..to + |bytes|] == bytes;
    assert dest[to + |bytes|..] == old(dest[to + |bytes|..]);
    assert dest[..] == dest[..to] + dest[to..to + |bytes|] + dest[to + |bytes|..];
  }

  /** Copies two stretches to the start of a block, one behind the other. */
  method CopyStretches(dest: array<byte>, src: array?<byte>, p1: Start, n1: nat, p2: Start, n2: nat)
    requires n1 + n2 <= dest.Length && src != dest
    requires n1 > 0 ==> src != null && p1.At? && p1.offset + n1 <= src.Length
    requires n2 > 0 ==> src != null && p2.At? && p2.offset + n2 <= src.Length
    modifies dest
    ensures dest[..] == Over(old(dest[..]), 0, Stretch(src, p1, n1) + Stretch(src, p2, n2))
  {
    ghost var was, first, second := dest[..], Stretch(src, p1, n1), Stretch(src, p2, n2);
    CopyBytes(dest, 0, src, p1, n1);
    CopyBytes(dest, n1, src, p2, n2);
    OverTwice(was, first, second);
  }

  /** What a ring holds of which len places from start on are filled. */
  function Filled(ring: seq<byte>, start: nat, len: nat): (s: seq<byte>)
    requires start <= |ring| && len <= |ring|
    ensures |s| == len
  {
    if start + len <= |ring| then ring[start..start + len] else ring[start..] + ring[..start + len - |ring|]
  }

  /** What the free places hold, in the order in which they will be filled. */
  function Unfilled(ring: seq<byte>, start: nat, len: nat): (s: seq<byte>)
    requires (start < |ring| || start == |ring| == 0) && len <= |ring|
    ensures |s| == |ring| - len
  {
    if start + len < |ring| then ring[start + len..] + ring[..start] else ring[start + len - |ring|..start]
  }

  /** Where the free places begin. */
  function End(size: nat, start: nat, len: nat): (end: nat)
    requires (start < size || start == size == 0) && len <= size
    ensures end < size || end == size == 0
  {
    if start + len < size then start + len else start + len - size
  }

  lemma OverHas(s: seq<byte>, to: nat, t: seq<byte>)
    requires to + |t| <= |s|
    ensures Over(s, to, t)[..to] == s[..to] && Over(s, to, t)[to + |t|..] == s[to + |t|..]
            && Over(s, to, t)[to..to + |t|] == t
  {
  }

  /** Bytes written to the free places, up to the end of the ring, change nothing of what it holds. */
  lemma FillOnce(ring: seq<byte>, start: nat, len: nat, bytes: seq<byte>)
    requires start < |ring| && len + |bytes| <= |ring| && End(|ring|, start, len) + |bytes| <= |ring| && len < |ring|
    ensures var after := Over(ring, End(|ring|, start, len), bytes);
            Filled(after, start, len) == Filled(ring, start, len) && Unfilled(after, start, len)[..|bytes|] == bytes
  {
    var e, n := End(|ring|, start, len), |bytes|;
    var after := Over(ring, e, bytes);
    OverHas(ring, e, bytes);
    if start + len < |ring| {
      assert after[start..start + len] == after[..e][start..] == ring[..e][start..];
      assert Unfilled(after, start, len)[..n] == after[e..][..n] == after[e..e + n];
    } else {
      assert after[..e] == ring[..e] && after[start..] == after[e + n..][start - e - n..] == ring[start..];
      assert Unfilled(after, start, len)[..n] == after[e..e + n];
    }
  }

  /** What is in the ring after bytes that go on at its start. */
  lemma TwiceOver(ring: seq<byte>, e: nat, bytes: seq<byte>)
    requires e <= |ring| && |ring| - e <= |bytes| <= |ring|
    ensures var n := |ring| - e;
            Over(Over(ring, e, bytes[..n]), 0, bytes[n..]) == bytes[n..] + (ring[..e] + bytes[..n])[|bytes| - n..]
  {
    var n := |ring| - e;
    assert Over(ring, e, bytes[..n]) == ring[..e] + bytes[..n];
  }

  /** Bytes up to place e stay, if they are behind those that went to the start. */
  lemma Wrapped(ring: seq<byte>, start: nat, e: nat, bytes: seq<byte>, n: nat, after: seq<byte>)
    requires start <= e < |ring| && n == |ring| - e <= |bytes| && |bytes| - n <= start
    requires after == bytes[n..] + (ring[..e] + bytes[..n])[|bytes| - n..]
    ensures |after| == |ring| && after[start..e] == ring[start..e] && (after[e..] + after[..start])[..|bytes|] == bytes
  {
    var m := |bytes| - n;
    var first := ring[..e] + bytes[..n];
    assert after[..m] == bytes[n..] && after[m..] == first[m..];
    assert after[e..] == after[m..][e - m..] == first[e..] == bytes[..n];
    assert after[start..e] == after[m..][start - m..e - m] == first[start..e] == ring[start..e];
    assert (after[e..] + after[..start])[..n + m] == after[e..] + after[..m];
  }

  /** The same for bytes that go on at the start of the ring. */
  lemma FillTwice(ring: seq<byte>, start: nat, len: nat, bytes: seq<byte>, n: nat, after: seq<byte>)
    requires start + len < |ring| && |ring| - (start + len) == n <= |bytes| <= |ring| - len
    requires after == Over(Over(ring, start + len, bytes[..n]), 0, bytes[n..])
    ensures Filled(after, start, len) == Filled(ring, start, len) && Unfilled(after, start, len)[..|bytes|] == bytes
  {
    TwiceOver(ring, start + len, bytes);
    Wrapped(ring, start, start + len, bytes, n, after);
  }

  /** Each place is filled or free: the ring is what it holds and what is free, laid round from start. */
  lemma Partition(ring: seq<byte>, start: nat, len: nat)
    requires (start < |ring| || start == |ring| == 0) && len <= |ring|
    ensures Filled(ring, start, len) + Unfilled(ring, start, len) == ring[start..] + ring[..start]
  {
  }

  lemma DropSplits(a: seq<byte>, b: seq<byte>, n: nat)
    requires n <= |a| + |b|
    ensures (a + b)[n..] == if n <= |a| then a[n..] + b else b[n - |a|..]
  {
  }

  lemma DropSlice(a: seq<byte>, i: nat, j: nat, n: nat)
    requires i + n <= j <= |a|
    ensures a[i..j][n..] == a[i + n..j]
  {
  }

  /** Emptying the first n places drops the first n bytes. */
  lemma EmptyFirst(ring: seq<byte>, start: nat, len: nat, n: nat)
    requires (start < |ring| || start == |ring| == 0) && n <= len <= |ring|
    ensures Filled(ring, End(|ring|, start, n), len - n) == Filled(ring, start, len)[n..]
  {
    var size := |ring|;
    if start + len <= size {
      DropSlice(ring, start, start + len, n);
    } else {
      var a, b := ring[start..], ring[..start + len - size];
      DropSplits(a, b, n);
      if n <= |a| {
        DropSlice(ring, start, size, n);
      } else {
        DropSlice(ring, 0, start + len - size, n - |a|);
      }
    }
  }

  /** Filling n more places takes them from the free ones. */
  lemma FillMore(ring: seq<byte>, start: nat, len: nat, n: nat)
    requires (start < |ring| || start == |ring| == 0) && len + n <= |ring|
    ensures Filled(ring, start, len + n) == Filled(ring, start, len) + Unfilled(ring, start, len)[..n]
  {
    Partition(ring, start, len);
    Partition(ring, start, len + n);
    var all := ring[start..] + ring[..start];
    assert Filled(ring, start, len + n) == all[..len + n];
    assert Filled(ring, start, len) == all[..len];
    assert Unfilled(ring, start, len) == all[len..];
    assert all[len..][..n] == all[len..len + n];
  }

  /** The byte is not between the two places. */
  ghost predicate Lacks(s: seq<byte>, b: byte, from: nat, to: nat)
    requires to <= |s|
  {
    forall k :: from <= k < to ==> s[k] != b
  }

  lemma FoundInFirst(first: seq<byte>, second: seq<byte>, b: byte, from: nat, i: nat)
    requires from <= i < |first| && first[i] == b && Lacks(first, b, from, i)
    ensures (first + second)[i] == b && Lacks(first + second, b, from, i)
  {
  }

  lemma FoundInSecond(first: seq<byte>, second: seq<byte>, b: byte, from: nat, i: nat)
    requires i <= |second| && (from < |first| ==> Lacks(first, b, from, |first|))
    requires Lacks(second, b, if from < |first| then 0 else from - |first|, i)
    ensures Lacks(first + second, b, from, |first| + i)
    ensures i < |second| ==> (first + second)[|first| + i] == second[i]
  {
  }

  class CircularBuffer {
    var data: array?<byte>
    var size: nat
    var start: nat
    var len: nat

    ghost predicate Valid()
      reads this
    {
      if data == null then size == start == len == 0
      else data.Length == size && len <= size && (start < size || start == size == 0)
    }

    /** The bytes in the buffer, the oldest first. */
    ghost function Contents(): (s: seq<byte>)
      requires Valid()
      reads this, data
      ensures |s| == len
    {
      if data == null then [] else Filled(data[..], start, len)
    }

    constructor ()
      ensures Valid() && Contents() == [] && data == null
    {
      data, size, start, len := null, 0, 0, 0;
    }

    /** The stretches that are filled. */
    method GetReadPtr() returns (p1: Start, n1: nat, p2: Start, n2: nat)
      requires Valid()
      ensures n1 + n2 == len && (n1 > 0 ==> p1 == At(start)) && (n2 > 0 ==> p2 == At(0))
      ensures start + n1 <= size && n2 <= start && Contents() == Stretch(data, p1, n1) + Stretch(data, p2, n2)
    {
      p1, n1, p2, n2 := Null, 0, Null, 0;
      if data == null {
        return;
      }
      p1 := At(start);
      if start <= size - len {
        n1 := len;
      } else {
        n1 := size - start;
        p2 := At(0);
        n2 := len - (size - start);
      }
    }

    /** What the free places hold, in the order in which they will be filled. */
    ghost function Free(): (s: seq<byte>)
      requires Valid()
      reads this, data
      ensures |s| == size - len
    {
      if data == null then [] else Unfilled(data[..], start, len)
    }

    /** The stretches that are free. */
    method GetWritePtr() returns (p1: Start, n1: nat, p2: Start, n2: nat)
      requires Valid()
      ensures n1 + n2 == size - len
      ensures n1 > 0 ==>
              p1 == At(if start + len < size then start + len else start + len - size)
              && p1.offset + n1 <= size
      ensures n2 > 0 ==> p2 == At(0) && n1 > 0 && n2 == start && p1.offset + n1 == size
    {
      p1, n1, p2, n2 := Null, 0, Null, 0;
      if data == null || size == len {
        return;
      }
      if start < size - len {
        var end := start + len;
        p1, n1 := At(end), size - end;
        if start > 0 {
          p2, n2 := At(0), start;
        }
      } else {
        p1, n1 := At(start - (size - len)), size - len;
      }
    }

    /** Scans the bytes of a stretch from a place on; the result is n if the byte is not there. */
    method Scan(at: Start, n: nat, from: nat, toScan: byte, ghost bytes: seq<byte>) returns (i: nat)
      requires n > 0 ==> data != null && at.At? && at.offset + n <= data.Length
      requires from <= n && bytes == Stretch(data, at, n)
      ensures from <= i <= n && (i < n ==> bytes[i] == toScan) && Lacks(bytes, toScan, from, i)
    {
      i := from;
      while i < n
        invariant from <= i <= n && forall k :: from <= k < i ==> bytes[k] != toScan
      {
        assert data[at.offset + i] == bytes[i];
        if data[at.offset + i] == toScan {
          return;
        }
        i := i + 1;
      }
    }

    /** The first place at or behind startPos where the byte is. */
    method Find(toScan: byte, startPos: nat) returns (r: int)
      requires Valid()
      ensures if r == NOT_FOUND then Lacks(Contents(), toScan, startPos, len)
              else startPos <= r < len && Contents()[r] == toScan && Lacks(Contents(), toScan, startPos, r)
    {
      var p1, n1, p2, n2 := GetReadPtr();
      if startPos >= n1 + n2 {
        return NOT_FOUND;
      }
      ghost var first, second := Stretch(data, p1, n1), Stretch(data, p2, n2);
      var from := if startPos < n1 then 0 else startPos - n1;
      if startPos < n1 {
        var i := Scan(p1, n1, startPos, toScan, first);
        if i < n1 {
          FoundInFirst(first, second, toScan, startPos, i);
          return i;
        }
      }
      var i := Scan(p2, n2, from, toScan, second);
      FoundInSecond(first, second, toScan, startPos, i);
      return if i < n2 then i + n1 else NOT_FOUND;
    }

    /** The start moves on, over the end of the buffer if need be. */
    method Advance(count: nat)
      requires Valid() && data != null && count <= size
      modifies this`start
      ensures start == End(size, old(start), count)
    {
      if start < size - count {
        start := start + count;
      } else {
        start := start - (size - count);
      }
    }

    method AdvanceReadPtr(count: nat) returns (r: Result)
      requires Valid()
      modifies this`start, this`len
      ensures Valid() && r == if data == null then Fail else if count > old(len) then InvalidArgument else Ok
      ensures Contents() == if r == Ok then old(Contents())[count..] else old(Contents())
    {
      if data == null {
        return Fail;
      }
      if count > len {
        return InvalidArgument;
      }
      EmptyFirst(data[..], start, len, count);
      Advance(count);
      len := len - count;
      return Ok;
    }

    method AdvanceWritePtr(count: nat) returns (r: Result)
      requires Valid()
      modifies this`len
      ensures Valid() && r == if data == null then Fail else if count > size - old(len) then InvalidArgument else Ok
      ensures Contents() == if r == Ok then old(Contents()) + old(Free())[..count] else old(Contents())
    {
      if data == null {
        return Fail;
      }
      if count > size - len {
        return InvalidArgument;
      }
      FillMore(data[..], start, len, count);
      len := len + count;
      return Ok;
    }

    method GetAvailableForRead() returns (n: nat)
      requires Valid()
      ensures n == |Contents()|
    {
      var _, n1, _, n2 := GetReadPtr();
      n := n1 + n2;
    }

    lemma ReadPrefix(p1: Start, n1: nat, p2: Start, n2: nat, n: nat, more: nat)
      requires Valid() && n <= n1 && more <= n2 && (more > 0 ==> n == n1)
      requires n1 > 0 ==> data != null && p1.At? && p1.offset + n1 <= data.Length
      requires n2 > 0 ==> data != null && p2.At? && p2.offset + n2 <= data.Length
      requires Contents() == Stretch(data, p1, n1) + Stretch(data, p2, n2)
      ensures Contents()[..n + more] == Stretch(data, p1, n) + Stretch(data, p2, more)
    {
      PrefixOfTwo(Stretch(data, p1, n1), Stretch(data, p2, n2), n, more);
      StretchPrefix(data, p1, n1, n);
      StretchPrefix(data, p2, n2, more);
    }

    /** Copies the first toRead bytes, or all there are, to dest. */
    method Peek(dest: array?<byte>, toRead: nat) returns (n: nat)
      requires Valid() && (dest != null ==> toRead <= dest.Length && dest != data)
      modifies dest
      ensures n == if dest == null || toRead == 0 then 0 else if toRead < len then toRead else len
      ensures dest != null ==> dest[..] == Over(old(dest[..]), 0, Contents()[..n])
    {
      if dest == null || toRead == 0 {
        return 0;
      }
      var p1, n1, p2, n2 := GetReadPtr();
      n := if toRead < n1 then toRead else n1;
      var more := 0;
      if toRead > n1 {
        more := if toRead - n1 > n2 then n2 else toRead - n1;
      }
      ghost var prefix := Contents()[..n + more];
      ReadPrefix(p1, n1, p2, n2, n, more);
      CopyStretches(dest, data, p1, n, p2, more);
      n := n + more;
      assert Contents()[..n] == prefix;
    }

    /** Reads a prefix, and removes it. */
    method Read(dest: array?<byte>, toRead: nat) returns (n: nat)
      requires Valid() && (dest != null ==> toRead <= dest.Length && dest != data)
      modifies dest, this`start, this`len
      ensures Valid() && n == if dest == null || toRead == 0 then 0 else if toRead < old(len) then toRead else old(len)
      ensures dest != null ==> dest[..] == Over(old(dest[..]), 0, old(Contents())[..n])
      ensures Contents() == old(Contents())[n..]
    {
      n := Peek(dest, toRead);
      if n > 0 {
        var _ := AdvanceReadPtr(n);
      }
    }

    /** Within 4095 of the limit the new block has no room at all: the contents fit into it exactly if the size
        is not that large, or there are none. */
    lemma FitsIff(newSize: nat)
      requires Valid() && len <= newSize < SIZE_LIMIT
      ensures len <= Rounded(newSize) <==> newSize + 4095 < SIZE_LIMIT || Contents() == []
      ensures newSize + 4095 >= SIZE_LIMIT ==> Rounded(newSize) == 0
    {
      RoundsUpIff(newSize);
    }

    /** Sets the size of the buffer, rounded up, and keeps what is in it; size 0 lets go of all. It overruns the new
        block exactly if that has no room for the contents. memory says whether the allocation succeeds. */
    method SetBufferSize(newSize: nat, memory: bool) returns (r: Result)
      requires Valid() && newSize < SIZE_LIMIT
      modifies this
      ensures Valid() && (data != null && data != old(data) ==> fresh(data))
      ensures r == if newSize == 0 then Ok
                   else if newSize < old(len) || !memory then OutOfMemory
                   else if old(Contents()) != [] && newSize + 4095 >= SIZE_LIMIT then Overrun else Ok
      ensures r != Overrun ==> Contents() == if newSize == 0 then [] else old(Contents())
      ensures r != Overrun ==> size == if newSize == 0 then 0 else if r == Ok then Rounded(newSize) else old(size)
      ensures r != Ok ==> data == old(data) && start == old(start)
      ensures r == Ok && newSize > 0 ==> start == 0 && (newSize + 4095 < SIZE_LIMIT ==> size >= newSize)
    {
      RoundsUpIff(newSize);
      if newSize == 0 {
        data, size, start, len := null, 0, 0, 0;
      } else if data == null {
        var rounded := Rounded(newSize);
        if !memory {
          return OutOfMemory;
        }
        data := new byte[rounded];
        size := rounded;
      } else {
        if len > newSize {
          return OutOfMemory;
        }
        var rounded := Rounded(newSize);
        if !memory {
          return OutOfMemory;
        }
        FitsIff(newSize);
        if rounded < len {
          return Overrun;
        }
        Relocate(rounded);
      }
      return Ok;
    }

    /** Moves the contents to the start of a new block of memory. */
    method Relocate(newSize: nat)
      requires Valid() && data != null && len <= newSize
      modifies this
      ensures Valid() && data != null && fresh(data) && size == newSize && start == 0 && len == old(len)
      ensures Contents() == old(Contents())
    {
      var newData := new byte[newSize];
      if start + len <= size {
        CopyBytes(newData, 0, data, At(start), len);
      } else {
        var n := size - start;
        CopyStretches(newData, data, At(start), n, At(0), len - n);
      }
      assert newData[..len] == Contents();
      data, size, start := newData, newSize, 0;
    }

    /** Copies bytes to the free places, from their beginning. */
    method Fill(bytes: seq<byte>)
      requires Valid() && data != null && 0 < |bytes| && len + |bytes| <= size
      modifies data
      ensures Contents() == old(Contents()) && Free()[..|bytes|] == bytes
    {
      var p1, n1, p2, n2 := GetWritePtr();
      if |bytes| <= n1 {
        FillOnce(data[..], start, len, bytes);
        CopyFrom(data, p1.offset, bytes);
      } else {
        ghost var was := data[..];
        CopyFrom(data, p1.offset, bytes[..n1]);
        CopyFrom(data, 0, bytes[n1..]);
        FillTwice(was, start, len, bytes, n1, data[..]);
      }
    }

    /** The bytes go to the free places, and those are claimed. */
    method Append(bytes: seq<byte>) returns (r: Result)
      requires Valid() && data != null && 0 < |bytes| && len + |bytes| <= size
      modifies this`len, data
      ensures Valid() && r == Ok && Contents() == old(Contents()) + bytes
    {
      Fill(bytes);
      r := AdvanceWritePtr(|bytes|);
    }

    /** The size that Write asks for when the bytes do not fit: twice the size, if that is enough and does not wrap. */
    function Grown(n: nat): (g: nat)
      requires size < SIZE_LIMIT && size <= len + n
      reads this
      ensures g == if len + n <= 2 * size < SIZE_LIMIT then 2 * size else len + n
    {
      var double := size * 2 % SIZE_LIMIT;
      if double < size || double < len + n then len + n else double
    }

    /** Appends the bytes, or fails and leaves the buffer as it is; or overruns it, exactly if it would have to grow to
        a size that wraps. */
    method Write(src: Input, expand: bool, memory: bool) returns (r: Result)
      requires Valid() && len < SIZE_LIMIT && size < SIZE_LIMIT
      requires src.Input? ==> |src.bytes| < SIZE_LIMIT
      modifies this, data
      ensures Valid()
      ensures r == if src.Nothing? then Pointer
                   else if src.bytes == [] then InvalidArgument
                   else if old(len) + |src.bytes| >= SIZE_LIMIT then OutOfMemory
                   else if old(len) + |src.bytes| <= old(size) then Ok
                   else if !expand then BufferOverflow
                   else if !memory then OutOfMemory
                   else if old(Grown(|src.bytes|)) + 4095 >= SIZE_LIMIT then Overrun else Ok
      ensures r != Overrun ==> Contents() == if r == Ok then old(Contents()) + src.bytes else old(Contents())
      ensures r != Overrun ==>
                size == if r == Ok && |Contents()| > old(size) then Rounded(old(Grown(|src.bytes|))) else old(size)
    {
      if src.Nothing? {
        return Pointer;
      }
      var n := |src.bytes|;
      if n == 0 {
        return InvalidArgument;
      }
      if (len + n) % SIZE_LIMIT < len {
        return OutOfMemory;
      }
      if len + n > size {
        if !expand {
          return BufferOverflow;
        }
        var r' := SetBufferSize(Grown(n), memory);
        if r' != Ok {
          return r';
        }
        if len + n > size {
          return Overrun;
        }
      }
      r := Append(src.bytes);
    }

    /** Makes room for n more bytes, unless the size that this takes wraps. If it wraps to 0, the buffer is emptied; if
        its rounding wraps, a buffer that is not empty overruns. */
    method EnsureWritableSize(n: nat, memory: bool) returns (r: Result)
      requires Valid() && size < SIZE_LIMIT && n < SIZE_LIMIT
      modifies this
      ensures Valid()
      ensures r == if n <= old(size) - old(len) || old(len) + n == SIZE_LIMIT then Ok
                   else if old(len) + n > SIZE_LIMIT || !memory then OutOfMemory
                   else if old(Contents()) != [] && old(len) + n + 4095 >= SIZE_LIMIT then Overrun else Ok
      ensures r != Overrun ==>
                Contents() == if n > old(size) - old(len) && old(len) + n == SIZE_LIMIT then [] else old(Contents())
      ensures r == Ok ==> (n <= size - len <==> n <= old(size) - old(len) || old(len) + n + 4095 < SIZE_LIMIT)
    {
      var _, n1, _, n2 := GetWritePtr();
      if n <= n1 + n2 {
        return Ok;
      }
      var remaining := n - (n1 + n2);
      r := SetBufferSize((size + remaining) % SIZE_LIMIT, memory);
    }
  }
}
