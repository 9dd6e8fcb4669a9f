/** The 32-bit words that the locks of Source/WaitableObjects.cpp keep a count and a flag in. */
module LockWords {
  const WORD: nat := 0x1_0000_0000
  const HIGH: nat := 0x8000_0000

  type Word = w: nat | w < WORD

  /** w & 0x7FFFFFFF */
  function Low(w: Word): nat {
    if w < HIGH then w else w - HIGH
  }

  /** (w & 0x80000000) != 0 */
  predicate High(w: Word) {
    w >= HIGH
  }

  /** w | 0x80000000 */
  function Raised(w: Word): Word {
    if High(w) then w else w + HIGH
  }

  /** w + 1 */
  function Incremented(w: Word): Word {
    if w == WORD - 1 then 0 else w + 1
  }

  /** (w & 0x80000000) | ((w & 0x7FFFFFFF) - 1) */
  function Decremented(w: Word): Word {
    if Low(w) == 0 then WORD - 1 else w - 1
  }

  /** How many elements satisfy p. */
  function Count<T>(s: seq<T>, p: T -> bool): (n: nat)
    ensures n <= |s|
  {
    if s == [] then 0 else (if p(s[|s| - 1]) then 1 else 0) + Count(s[..|s| - 1], p)
  }

  lemma {:induction false} CountUpdate<T>(s: seq<T>, i: nat, x: T, p: T -> bool)
    requires i < |s|
    ensures Count(s[i := x], p) == Count(s, p) - (if p(s[i]) then 1 else 0) + (if p(x) then 1 else 0)
  {
    var n := |s| - 1;
    if i < n {
      CountUpdate(s[..n], i, x, p);
      assert s[i := x][..n] == s[..n][i := x];
    } else {
      assert s[i := x][..n] == s[..n];
    }
  }

  /** The count is below the length if some element does not count, and zero only if none does. */
  lemma {:induction false} CountBound<T>(s: seq<T>, i: nat, p: T -> bool)
    requires i < |s|
    ensures if p(s[i]) then Count(s, p) > 0 else Count(s, p) < |s|
  {
    var n := |s| - 1;
    if i < n {
      CountBound(s[..n], i, p);
    }
  }

  lemma {:induction false} CountNone<T>(s: seq<T>, p: T -> bool)
    requires forall i :: 0 <= i < |s| ==> !p(s[i])
    ensures Count(s, p) == 0
  {
    if s != [] {
      CountNone(s[..|s| - 1], p);
    }
  }

  lemma {:induction false} CountTwo<T>(s: seq<T>, i: nat, j: nat, p: T -> bool)
    requires i < j < |s| && p(s[i]) && p(s[j])
    ensures Count(s, p) >= 2
  {
    var n := |s| - 1;
    if j < n {
      CountTwo(s[..n], i, j, p);
    } else {
      CountBound(s[..n], i, p);
    }
  }

  lemma SomeoneCounts<T>(s: seq<T>, p: T -> bool) returns (i: nat)
    requires Count(s, p) > 0
    ensures i < |s| && p(s[i])
  {
    if forall k :: 0 <= k < |s| ==> !p(s[k]) {
      CountNone(s, p);
    }
    i :| i < |s| && p(s[i]);
  }
}
