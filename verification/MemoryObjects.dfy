/** The memory primitives of Source/MemoryObjects.cpp on a memory of bytes. An address is an index of it,
    and a word, of 8 bytes, is read or written as a whole. */
module MemoryObjects {
  import opened Bytes

  const W: nat := 8   // sizeof(SIZE_T)

  predicate Aligned(p: nat) {
    p % W == 0
  }

  /** The memory once the n bytes at s are also at d. */
  function Moved(m: seq<byte>, d: nat, s: nat, n: nat): (r: seq<byte>)
    requires d + n <= |m| && s + n <= |m|
    ensures |r| == |m|
  {
    m[..d] + m[s..s + n] + m[d + n..]
  }

  lemma MovedIs(m: seq<byte>, d: nat, s: nat, n: nat, r: seq<byte>)
    requires d + n <= |m| && s + n <= |m| && |r| == |m|
    requires forall i {:trigger r[i]} :: 0 <= i < |m| ==> r[i] == if d <= i < d + n then m[s + (i - d)] else m[i]
    ensures r == Moved(m, d, s, n)
  {
    var moved := Moved(m, d, s, n);
    forall i | 0 <= i < |m| ensures r[i] == moved[i] {
      if d <= i < d + n {
        MovedInside(m, d, s, n, i);
      }
    }
  }

  lemma MovedInside(m: seq<byte>, d: nat, s: nat, n: nat, i: nat)
    requires d + n <= |m| && s + n <= |m| && d <= i < d + n
    ensures Moved(m, d, s, n)[i] == m[s + (i - d)]
  {
    assert Moved(m, d, s, n)[i] == m[s..s + n][i - d];
  }

  /** *((SIZE_T*)d) = *((SIZE_T*)s) */
  method CopyWord(mem: array<byte>, d: nat, s: nat)
    requires d + W <= mem.Length && s + W <= mem.Length
    modifies mem
    ensures forall i {:trigger mem[i]} :: 0 <= i < mem.Length ==> mem[i] == if d <= i < d + W then old(mem[s + (i - d)])
            else old(mem[i])
  {
    forall k | 0 <= k < W {
      mem[d + k] := mem[s + k];
    }
  }

  /** x modulo p. */
  function Offset(x: nat, p: nat): (r: nat)
    requires p > 0
    ensures r < p && r <= x
  {
    if x < p then x else Offset(x - p, p)
  }

  lemma {:induction false} OffsetIs(x: nat, p: nat)
    requires p > 0
    ensures Offset(x, p) == x % p
  {
    if x >= p {
      OffsetIs(x - p, p);
      var q, r := (x - p) / p, (x - p) % p;
      assert x == (q + 1) * p + r;
      Remainder(x, p, q + 1, r);
    } else {
      Remainder(x, p, 0, x);
    }
  }

  lemma Remainder(x: nat, p: nat, q: nat, r: nat)
    requires p > 0 && x == q * p + r && r < p
    ensures x % p == r
  {
    var q', r' := x / p, x % p;
    assert q' * p + r' == q * p + r;
    if q' < q {
      Larger(p, q', q);
    } else if q < q' {
      Larger(p, q, q');
    }
  }

  lemma {:induction false} Larger(p: nat, a: nat, b: nat)
    requires a < b
    ensures a * p + p <= b * p
  {
    if a + 1 < b {
      Larger(p, a, b - 1);
    }
    assert b * p == (b - 1) * p + p;
  }

  /** So far the first k bytes of the range have been copied, from low to high: a destination that starts behind
      the source repeats the bytes between the two. */
  ghost predicate Front(was: seq<byte>, m: seq<byte>, d: nat, s: nat, k: nat) {
    && |m| == |was| && d + k <= |m| && s + k <= |m|
    && forall i {:trigger m[i]} :: 0 <= i < |m| ==>
         m[i] == if !(d <= i < d + k) then was[i] else if s < d then was[s + Offset(i - d, d - s)] else was[s + (i - d)]
  }

  /** The next bytes are copied from what is now in the source. */
  lemma FrontGrows(was: seq<byte>, m: seq<byte>, d: nat, s: nat, k: nat, n: nat, m': seq<byte>)
    requires Front(was, m, d, s, k) && d + k + n <= |m| && s + k + n <= |m| && (s < d ==> n <= d - s)
    requires |m'| == |m|
    requires forall i {:trigger m'[i]} :: 0 <= i < |m| ==> m'[i] == m[if d + k <= i < d + k + n then s + (i - d) else i]
    ensures Front(was, m', d, s, k + n)
  {
    forall i | d + k <= i < d + k + n ensures m'[i] == if s < d then was[s + Offset(i - d, d - s)]
      else was[s + (i - d)] {
      var from := s + (i - d);
      assert m'[i] == m[from];
    }
  }

  /** So far the bytes of the range from place k on have been copied. */
  twostate predicate Back(mem: array<byte>, d: nat, s: nat, n: nat, k: nat)
    requires k <= n && d + n <= mem.Length && s + n <= mem.Length
    reads mem
  {
    forall i {:trigger mem[i]} :: 0 <= i < mem.Length ==> mem[i] == if d + k <= i < d + n then old(mem[s + (i - d)])
      else old(mem[i])
  }

  /** Copies from low to high addresses. */
  method CopyUp(mem: array<byte>, dest: nat, src: nat, count: nat, words: bool)
    requires dest + count <= mem.Length && src + count <= mem.Length
    requires words ==> Aligned(src) && Aligned(dest)
    modifies mem
    ensures Front(old(mem[..]), mem[..], dest, src, count)
  {
    var d, s, n := dest, src, count;
    ghost var was := mem[..];
    if words {
      while n >= W
        invariant 0 <= n <= count && d == dest + (count - n) && s == src + (count - n)
        invariant Front(was, mem[..], dest, src, count - n)
      {
        ghost var m := mem[..];
        CopyWord(mem, d, s);
        FrontGrows(was, m, dest, src, count - n, W, mem[..]);
        s, d, n := s + W, d + W, n - W;
      }
    }
    while n > 0
      invariant 0 <= n <= count && d == dest + (count - n) && s == src + (count - n)
      invariant Front(was, mem[..], dest, src, count - n)
    {
      ghost var m := mem[..];
      mem[d] := mem[s];
      FrontGrows(was, m, dest, src, count - n, 1, mem[..]);
      s, d, n := s + 1, d + 1, n - 1;
    }
  }

  /** Copies from high to low addresses: for a destination that starts behind the start of the source. */
  method CopyDown(mem: array<byte>, dest: nat, src: nat, count: nat)
    requires dest + count <= mem.Length && src + count <= mem.Length && src < dest
    modifies mem
    ensures Back(mem, dest, src, count, 0)
  {
    var s, d, n := src + count, dest + count, count;
    if n >= W && Aligned(src) && Aligned(dest) {
      while n > 0 && !Aligned(n)
        invariant 0 <= n <= count && d == dest + n && s == src + n && Back(mem, dest, src, count, n)
      {
        s, d := s - 1, d - 1;
        mem[d] := mem[s];
        n := n - 1;
      }
      while n > 0
        invariant 0 <= n <= count && d == dest + n && s == src + n && Aligned(n) && Back(mem, dest, src, count, n)
      {
        s, d := s - W, d - W;
        CopyWord(mem, d, s);
        n := n - W;
      }
    } else {
      while n > 0
        invariant 0 <= n <= count && d == dest + n && s == src + n && Back(mem, dest, src, count, n)
      {
        s, d := s - 1, d - 1;
        mem[d] := mem[s];
        n := n - 1;
      }
    }
  }

  /** Leaves the destination equal to what the source range held, whatever the overlap, and all else alone. */
  method MxMemMove(mem: array<byte>, dest: nat, src: nat, count: nat)
    requires dest + count <= mem.Length && src + count <= mem.Length
    modifies mem
    ensures mem[..] == Moved(old(mem[..]), dest, src, count)
  {
    if dest <= src || dest >= src + count {
      CopyUp(mem, dest, src, count, dest + W <= src && Aligned(src) && Aligned(dest));
    } else {
      CopyDown(mem, dest, src, count);
    }
    MovedIs(old(mem[..]), dest, src, count, mem[..]);
  }

  /** The memory once the n bytes at d repeat the bytes from s up to d. */
  function Repeated(m: seq<byte>, d: nat, s: nat, n: nat): (r: seq<byte>)
    requires s < d && d + n <= |m|
    ensures |r| == |m|
  {
    seq(|m|, i requires 0 <= i < |m| => if d <= i < d + n then m[s + (i - d) % (d - s)] else m[i])
  }

  /** Copies upwards: where the destination starts inside the source, the bytes before it are repeated in it. */
  method MxMemCopy(mem: array<byte>, dest: nat, src: nat, count: nat)
    requires dest + count <= mem.Length && src + count <= mem.Length
    modifies mem
    ensures mem[..] == if src < dest < src + count then Repeated(old(mem[..]), dest, src, count)
                       else Moved(old(mem[..]), dest, src, count)
  {
    CopyUp(mem, dest, src, count, Aligned(src) && Aligned(dest));
    ghost var was, now := old(mem[..]), mem[..];
    if src < dest < src + count {
      forall i | 0 <= i < |was| ensures now[i] == Repeated(was, dest, src, count)[i] {
        if dest <= i < dest + count {
          OffsetIs(i - dest, dest - src);
        }
      }
    } else {
      MovedIs(was, dest, src, count, now);
    }
  }

  /** a comes before b in the lexicographic order of sequences of the same length. */
  ghost predicate Before(a: seq<byte>, b: seq<byte>)
    requires |a| == |b|
  {
    exists k :: FirstAt(a, b, k) && a[k] < b[k]
  }

  ghost predicate FirstAt(a: seq<byte>, b: seq<byte>, k: int)
    requires |a| == |b|
  {
    0 <= k < |a| && a[k] != b[k] && forall i :: 0 <= i < k ==> a[i] == b[i]
  }

  /** Where two sequences first differ decides their order. */
  lemma FirstDecides(a: seq<byte>, b: seq<byte>, k: int)
    requires |a| == |b| && FirstAt(a, b, k)
    ensures a != b && FirstAt(b, a, k)
    ensures Before(a, b) <==> a[k] < b[k]
    ensures Before(b, a) <==> b[k] < a[k]
  {
    forall j | FirstAt(a, b, j) || FirstAt(b, a, j) ensures j == k {
    }
  }

  lemma NotBeforeItself(a: seq<byte>)
    ensures !Before(a, a)
  {
  }

  /** The first k bytes are the same. */
  ghost predicate Alike(a: seq<byte>, b: seq<byte>, k: nat)
    requires |a| == |b|
  {
    k <= |a| && forall i :: 0 <= i < k ==> a[i] == b[i]
  }

  /** *((SIZE_T*)p) == *((SIZE_T*)q), where p and q are k bytes behind the starts of the ranges. */
  method SameWord(mem: array<byte>, p: nat, q: nat, ghost a: seq<byte>, ghost b: seq<byte>,
                  ghost k: nat) returns (same: bool)
    requires k <= p && k <= q && |a| == |b| && k + W <= |a| && p - k + |a| <= mem.Length && q - k + |b| <= mem.Length
    requires a == mem[p - k..p - k + |a|] && b == mem[q - k..q - k + |b|] && Alike(a, b, k)
    ensures same ==> Alike(a, b, k + W)
  {
    same := mem[p..p + W] == mem[q..q + W];
    if same {
      forall i | k <= i < k + W ensures a[i] == b[i] {
        assert mem[p..p + W][i - k] == mem[q..q + W][i - k];
      }
    }
  }

  /** The sign of the result is that of the comparison byte by byte. */
  method MxMemCompare(mem: array<byte>, src1: nat, src2: nat, count: nat) returns (r: int)
    requires src1 + count <= mem.Length && src2 + count <= mem.Length
    ensures r == 0 <==> mem[src1..src1 + count] == mem[src2..src2 + count]
    ensures r < 0 <==> Before(mem[src1..src1 + count], mem[src2..src2 + count])
    ensures r > 0 <==> Before(mem[src2..src2 + count], mem[src1..src1 + count])
  {
    ghost var a, b := mem[src1..src1 + count], mem[src2..src2 + count];
    var p, q, n := src1, src2, count;
    var same := Aligned(p) && Aligned(q);
    while same && n >= W
      invariant 0 <= n <= count && p == src1 + (count - n) && q == src2 + (count - n) && Alike(a, b, count - n)
      decreases n, same
    {
      same := SameWord(mem, p, q, a, b, count - n);
      if same {
        p, q, n := p + W, q + W, n - W;
      }
    }
    while n > 0
      invariant 0 <= n <= count && p == src1 + (count - n) && q == src2 + (count - n) && Alike(a, b, count - n)
    {
      assert mem[p] == a[count - n] && mem[q] == b[count - n];
      if mem[p] != mem[q] {
        FirstDecides(a, b, count - n);
        return mem[p] as int - mem[q] as int;
      }
      p, q, n := p + 1, q + 1, n - 1;
    }
    assert a == b;
    NotBeforeItself(a);
    return 0;
  }

  /** Byte k of a word. */
  function ByteOf(word: nat, k: nat): (b: nat)
    ensures b < 0x100
  {
    if k == 0 then word % 0x100 else ByteOf(word / 0x100, k - 1)
  }

  /** The number with n digits v to the base 256. */
  function Repeat(v: nat, n: nat): nat {
    if n == 0 then 0 else v + 0x100 * Repeat(v, n - 1)
  }

  lemma {:induction false} RepeatedByte(v: nat, n: nat, k: nat)
    requires v < 0x100 && k < n
    ensures ByteOf(Repeat(v, n), k) == v
  {
    if k > 0 {
      RepeatedByte(v, n - 1, k - 1);
    }
  }

  /** The word that MxMemSet builds by shifting has the value in each byte. */
  lemma ShiftedIs(v: nat)
    ensures var n1 := v + v * 0x100;
            var n2 := n1 + n1 * 0x1_0000;
            n2 + n2 * 0x1_0000_0000 == Repeat(v, W)
  {
    assert Repeat(v, 1) == v;
    assert Repeat(v, 2) == v + v * 0x100;
    assert Repeat(v, 3) == v * 0x1_0101;
    assert Repeat(v, 4) == v * 0x101_0101;
    assert Repeat(v, 5) == v * 0x1_0101_0101;
    assert Repeat(v, 6) == v * 0x101_0101_0101;
    assert Repeat(v, 7) == v * 0x1_0101_0101_0101;
  }

  /** *((SIZE_T*)d) = word */
  method StoreWord(mem: array<byte>, d: nat, word: nat)
    requires d + W <= mem.Length
    modifies mem
    ensures forall i {:trigger mem[i]} :: 0 <= i < mem.Length ==> mem[i] == if d <= i < d + W
            then ByteOf(word, i - d) as byte else old(mem[i])
  {
    forall k | 0 <= k < W {
      mem[d + k] := ByteOf(word, k) as byte;
    }
  }

  /** Sets each byte to the low byte of the value. */
  method MxMemSet(mem: array<byte>, dest: nat, value: int, count: nat)
    requires dest + count <= mem.Length
    modifies mem
    ensures forall i :: 0 <= i < mem.Length ==>
              mem[i] == if dest <= i < dest + count then (value % 0x100) as byte else old(mem[i])
  {
    var v := value % 0x100;
    var d, n := dest, count;
    if Aligned(d) {
      var word := v + v * 0x100;
      word := word + word * 0x1_0000;
      word := word + word * 0x1_0000_0000;
      ShiftedIs(v);
      forall k | 0 <= k < W ensures ByteOf(word, k) == v {
        RepeatedByte(v, W, k);
      }
      while n >= W
        invariant 0 <= n <= count && d == dest + (count - n)
        invariant forall i {:trigger mem[i]} :: 0 <= i < mem.Length ==> mem[i] == if dest <= i < d then v as byte
                  else old(mem[i])
      {
        StoreWord(mem, d, word);
        d, n := d + W, n - W;
      }
    }
    while n > 0
      invariant 0 <= n <= count && d == dest + (count - n)
      invariant forall i {:trigger mem[i]} :: 0 <= i < mem.Length ==> mem[i] == if dest <= i < d then v as byte
                else old(mem[i])
    {
      mem[d] := v as byte;
      d, n := d + 1, n - 1;
    }
  }
}
