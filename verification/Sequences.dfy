/** Ordered sequences, as the containers of the library keep them. */
module Sequences {

  /** s with x put in at place k. */
  function InsertAt<T>(s: seq<T>, k: nat, x: T): seq<T>
    requires k <= |s|
  {
    s[..k] + [x] + s[k..]
  }

  /** s without its element at place k. */
  function RemoveAt<T>(s: seq<T>, k: nat): seq<T>
    requires k < |s|
  {
    s[..k] + s[k + 1..]
  }

  ghost predicate Distinct<T>(s: seq<T>) {
    forall i, j :: 0 <= i < j < |s| ==> s[i] != s[j]
  }

  /** The place of x in s, the length of s if x is not there. */
  function IndexOf<T(==)>(s: seq<T>, x: T): (i: nat)
    ensures i <= |s| && (i < |s| ==> s[i] == x) && (x in s <==> i < |s|)
  {
    if s == [] then 0 else if s[0] == x then 0 else 1 + IndexOf(s[1..], x)
  }

  /** s without the first x in it. */
  function Without<T(==)>(s: seq<T>, x: T): seq<T> {
    var i := IndexOf(s, x);
    if i < |s| then RemoveAt(s, i) else s
  }

  lemma WithoutIs<T>(s: seq<T>, x: T)
    requires Distinct(s)
    ensures Distinct(Without(s, x)) && forall y :: y in Without(s, x) <==> y in s && y != x
    ensures |Without(s, x)| <= |s|
  {
    var i, r := IndexOf(s, x), Without(s, x);
    if i < |s| {
      forall y ensures y in r <==> y in s && y != x {
        if y in s && y != x {
          var j :| 0 <= j < |s| && s[j] == y;
          assert r[if j < i then j else j - 1] == y;
        }
      }
    }
  }

  lemma SliceSplits<T>(s: seq<T>, a: nat, k: nat, b: nat)
    requires a <= k < b <= |s|
    ensures s[a..b] == s[a..k] + [s[k]] + s[k + 1..b]
  {
  }

  /** Compared with the elements of s from left to right, the sought key is first
      greater, then equal, then less: what a search in s relies on. */
  ghost predicate Falling<T>(s: seq<T>, cmp: T -> int) {
    forall i, j :: 0 <= i < j < |s| ==>
      (cmp(s[j]) >= 0 ==> cmp(s[i]) >= 0) && (cmp(s[j]) > 0 ==> cmp(s[i]) > 0)
  }

  /** The place after all elements that the key is not less than. */
  ghost function UpperBound<T>(s: seq<T>, cmp: T -> int): (k: nat)
    ensures k <= |s|
    ensures forall i :: 0 <= i < k ==> cmp(s[i]) >= 0
    ensures k < |s| ==> cmp(s[k]) < 0
  {
    if s == [] || cmp(s[0]) < 0 then 0 else 1 + UpperBound(s[1..], cmp)
  }

  lemma {:induction false} UpperBoundIs<T>(s: seq<T>, cmp: T -> int, k: nat)
    requires k <= |s|
    requires forall i :: 0 <= i < k ==> cmp(s[i]) >= 0
    requires k < |s| ==> cmp(s[k]) < 0
    ensures UpperBound(s, cmp) == k
  {
  }

  lemma BeyondUpper<T>(s: seq<T>, cmp: T -> int, i: nat)
    requires Falling(s, cmp) && UpperBound(s, cmp) <= i < |s|
    ensures cmp(s[i]) < 0
  {
    var k := UpperBound(s, cmp);
    assert cmp(s[k]) < 0;
  }

  /** The place before all elements that the key is not greater than. */
  ghost function LowerBound<T>(s: seq<T>, cmp: T -> int): (k: nat)
    ensures k <= |s|
    ensures forall i :: 0 <= i < k ==> cmp(s[i]) > 0
    ensures k < |s| ==> cmp(s[k]) <= 0
  {
    if s == [] || cmp(s[0]) <= 0 then 0 else 1 + LowerBound(s[1..], cmp)
  }

  lemma BeyondLower<T>(s: seq<T>, cmp: T -> int, i: nat)
    requires Falling(s, cmp) && LowerBound(s, cmp) <= i < |s|
    ensures cmp(s[i]) <= 0
  {
    var k := LowerBound(s, cmp);
    assert cmp(s[k]) <= 0;
  }

  lemma {:induction false} LowerBoundIs<T>(s: seq<T>, cmp: T -> int, k: nat)
    requires k <= |s|
    requires forall i :: 0 <= i < k ==> cmp(s[i]) > 0
    requires k < |s| ==> cmp(s[k]) <= 0
    ensures LowerBound(s, cmp) == k
  {
  }

  ghost predicate FlipsAt<T>(cmp: (T, T) -> int, x: T, y: T) {
    (cmp(x, y) <= 0 <==> cmp(y, x) >= 0) && (cmp(x, y) >= 0 <==> cmp(y, x) <= 0)
  }

  ghost predicate TransitiveAt<T>(cmp: (T, T) -> int, x: T, y: T, z: T) {
    cmp(x, y) <= 0 && cmp(y, z) <= 0 ==> cmp(x, z) <= 0
  }

  /** cmp orders the elements of s, with ties. */
  ghost predicate Orders<T>(cmp: (T, T) -> int, s: set<T>) {
    && (forall x, y {:trigger FlipsAt(cmp, x, y)} :: x in s && y in s ==> FlipsAt(cmp, x, y))
    && (forall x, y, z {:trigger TransitiveAt(cmp, x, y, z)} :: x in s && y in s && z in s ==>
      TransitiveAt(cmp, x, y, z))
  }

  ghost predicate Sorted<T>(s: seq<T>, cmp: (T, T) -> int) {
    forall i, j :: 0 <= i < j < |s| ==> cmp(s[i], s[j]) <= 0
  }

  /** x as the sought key. */
  function Probe<T>(cmp: (T, T) -> int, x: T): T -> int {
    y => cmp(x, y)
  }

  /** A sorted sequence can be searched for x. */
  lemma SortedFalls<T>(s: seq<T>, cmp: (T, T) -> int, x: T, all: set<T>)
    requires Orders(cmp, all) && x in all && (forall i :: 0 <= i < |s| ==> s[i] in all)
    requires Sorted(s, cmp)
    ensures Falling(s, Probe(cmp, x))
  {
    forall i, j | 0 <= i < j < |s|
      ensures (cmp(x, s[j]) >= 0 ==> cmp(x, s[i]) >= 0) && (cmp(x, s[j]) > 0 ==> cmp(x, s[i]) > 0)
    {
      var a, b := s[i], s[j];
      assert cmp(a, b) <= 0 && a in all && b in all;
      assert FlipsAt(cmp, x, a) && FlipsAt(cmp, x, b) && TransitiveAt(cmp, a, b, x) && TransitiveAt(cmp, x, a, b);
    }
  }

  /** An element put in between lesser and greater ones leaves a sequence sorted. */
  lemma InsertedSorted<T>(s: seq<T>, cmp: (T, T) -> int, x: T, k: nat)
    requires Sorted(s, cmp) && k <= |s|
    requires (forall i :: 0 <= i < k ==> cmp(s[i], x) <= 0) && forall i :: k <= i < |s| ==> cmp(x, s[i]) <= 0
    ensures Sorted(InsertAt(s, k, x), cmp)
  {
  }

  /** Putting x after all elements it is not less than keeps a sequence sorted. */
  lemma InsertKeepsSorted<T>(s: seq<T>, cmp: (T, T) -> int, x: T, all: set<T>)
    requires Orders(cmp, all) && x in all && (forall i :: 0 <= i < |s| ==> s[i] in all)
    requires Sorted(s, cmp)
    ensures Sorted(InsertAt(s, UpperBound(s, Probe(cmp, x)), x), cmp)
  {
    SortedFalls(s, cmp, x, all);
    var probe := Probe(cmp, x);
    var k := UpperBound(s, probe);
    forall i | 0 <= i < k ensures cmp(s[i], x) <= 0 {
      assert s[i] in all && FlipsAt(cmp, x, s[i]) && probe(s[i]) >= 0;
    }
    forall i | k <= i < |s| ensures cmp(x, s[i]) <= 0 {
      BeyondUpper(s, probe, i);
    }
    InsertedSorted(s, cmp, x, k);
  }

  /** And so does taking out an element. */
  lemma RemoveKeepsSorted<T>(s: seq<T>, cmp: (T, T) -> int, k: nat)
    requires Sorted(s, cmp) && k < |s|
    ensures Sorted(RemoveAt(s, k), cmp)
  {
    var r := RemoveAt(s, k);
    forall i, j | 0 <= i < j < |r| ensures cmp(r[i], r[j]) <= 0 {
      assert r[i] == s[if i < k then i else i + 1] && r[j] == s[if j < k then j else j + 1];
    }
  }

  ghost function SetOf<T>(s: seq<T>): set<T> {
    set x | x in s
  }

  /** Those of the elements of s from place n on that are not in drop. */
  ghost function Kept<T>(s: seq<T>, n: nat, drop: set<T>): seq<T>
    requires n <= |s|
    decreases |s| - n
  {
    if n == |s| then [] else (if s[n] in drop then [] else [s[n]]) + Kept(s, n + 1, drop)
  }

  lemma KeptStep<T>(kept: seq<T>, all: seq<T>, n: nat, drop: set<T>, kept': seq<T>)
    requires n < |all| && kept' == kept + if all[n] in drop then [] else [all[n]]
    ensures kept' + Kept(all, n + 1, drop) == kept + Kept(all, n, drop)
  {
  }

  /** A pass that has kept some elements, and comes to x. */
  lemma SweepStep<T>(kept: seq<T>, x: T, rest: seq<T>)
    ensures (kept + ([x] + rest))[|kept|] == x
    ensures RemoveAt(kept + ([x] + rest), |kept|) == kept + rest
    ensures kept + ([x] + rest) == kept + [x] + rest
  {
  }

  lemma WithoutFirst<T>(s: seq<T>)
    requires Distinct(s) && s != []
    ensures SetOf(RemoveAt(s, 0)) == SetOf(s) - {s[0]} && s[0] in SetOf(s)
  {
    assert s == [s[0]] + s[1..] && RemoveAt(s, 0) == s[1..];
  }

  /** A backward pass that has kept some elements behind place n. */
  lemma SweepBackStep<T>(all: seq<T>, n: nat, drop: set<T>)
    requires 0 < n <= |all|
    ensures all[..n] + Kept(all, n, drop) == all[..n - 1] + ([all[n - 1]] + Kept(all, n, drop))
    ensures Kept(all, n - 1, drop) == (if all[n - 1] in drop then [] else [all[n - 1]]) + Kept(all, n, drop)
    ensures all[..n] == all[..n - 1] + [all[n - 1]]
  {
  }
}
