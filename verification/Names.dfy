/** The comparison of names that ignores case, StrCompareA in Source/Strings/Strings.cpp. */
module Names {

  /** The lower-case letter for an upper-case letter of ASCII. */
  function Lower(c: char): char {
    if 'A' <= c <= 'Z' then c + 32 as char else c
  }

  /** _strnicmp on the first n characters. */
  function StrNCompareA(a: string, b: string, n: nat): int
    requires n <= |a| && n <= |b|
  {
    if n == 0 then 0
    else if Lower(a[0]) != Lower(b[0]) then Lower(a[0]) as int - Lower(b[0]) as int
    else StrNCompareA(a[1..], b[1..], n - 1)
  }

  function StrCompareA(a: string, b: string): int {
    var res := StrNCompareA(a, b, if |a| < |b| then |a| else |b|);
    if res != 0 then res else if |a| < |b| then -1 else if |a| > |b| then 1 else 0
  }

  /** A name in lower case: names with the same key are the same. */
  function KeyOf(s: string): (k: string)
    ensures |k| == |s|
  {
    if s == "" then "" else [Lower(s[0])] + KeyOf(s[1..])
  }

  /** The lexicographic order of keys. */
  function KeyOrder(a: string, b: string): int {
    if a == "" then (if b == "" then 0 else -1)
    else if b == "" then 1
    else if a[0] != b[0] then a[0] as int - b[0] as int
    else KeyOrder(a[1..], b[1..])
  }

  lemma {:induction false} StrCompareIs(a: string, b: string)
    ensures StrCompareA(a, b) == KeyOrder(KeyOf(a), KeyOf(b))
  {
    if a != "" && b != "" {
      StrCompareIs(a[1..], b[1..]);
      assert KeyOf(a)[1..] == KeyOf(a[1..]) && KeyOf(b)[1..] == KeyOf(b[1..]);
    }
  }

  lemma {:induction false} KeyOrderZero(a: string, b: string)
    ensures KeyOrder(a, b) == 0 <==> a == b
  {
    if a != "" && b != "" && a[0] == b[0] {
      KeyOrderZero(a[1..], b[1..]);
      assert a == [a[0]] + a[1..] && b == [b[0]] + b[1..];
    }
  }

  lemma {:induction false} KeyOrderFlips(a: string, b: string)
    ensures KeyOrder(a, b) < 0 <==> KeyOrder(b, a) > 0
  {
    if a != "" && b != "" && a[0] == b[0] {
      KeyOrderFlips(a[1..], b[1..]);
    }
  }

  lemma {:induction false} KeyOrderTransitive(a: string, b: string, c: string)
    requires KeyOrder(a, b) <= 0 && KeyOrder(b, c) <= 0
    ensures KeyOrder(a, c) <= 0
  {
    if a != "" && b != "" && c != "" && a[0] == b[0] == c[0] {
      KeyOrderTransitive(a[1..], b[1..], c[1..]);
    }
  }

  /** The characters are the same, or they are an upper-case and a lower-case letter of ASCII, whose codes
      differ by 32. */
  predicate SameLetter(x: char, y: char) {
    || x == y
    || ('A' <= x <= 'Z' && y as int == x as int + 32)
    || ('A' <= y <= 'Z' && x as int == y as int + 32)
  }

  predicate SameName(a: string, b: string) {
    |a| == |b| && forall i :: 0 <= i < |a| ==> SameLetter(a[i], b[i])
  }

  /** Another spelling of the character, which is no upper-case letter. */
  predicate Spells(x: char, y: char) {
    SameLetter(x, y) && !('A' <= y <= 'Z')
  }

  /** The character x has a lower code than y, with both as lower-case letters if they are letters. */
  ghost predicate Before(x: char, y: char) {
    forall x', y' :: Spells(x, x') && Spells(y, y') ==> x' < y'
  }

  /** Up to place k the names are the same; there a ends, or has a character that comes before that of b. */
  ghost predicate PrecedesAt(a: string, b: string, k: nat) {
    && k <= |a| && k <= |b| && SameName(a[..k], b[..k])
    && (if k == |a| then k < |b| else k < |b| && Before(a[k], b[k]))
  }

  lemma LowerIs(x: char, y: char)
    ensures Lower(x) == Lower(y) <==> SameLetter(x, y)
    ensures Lower(x) < Lower(y) <==> Before(x, y)
  {
    assert Spells(x, Lower(x)) && Spells(y, Lower(y));
  }

  lemma {:induction false} SameKeys(a: string, b: string)
    ensures KeyOf(a) == KeyOf(b) <==> SameName(a, b)
  {
    if a != "" && b != "" {
      LowerIs(a[0], b[0]);
      SameKeys(a[1..], b[1..]);
      assert KeyOf(a) == [Lower(a[0])] + KeyOf(a[1..]) && KeyOf(b) == [Lower(b[0])] + KeyOf(b[1..]);
      assert KeyOf(a)[1..] == KeyOf(a[1..]) && KeyOf(b)[1..] == KeyOf(b[1..]);
      SameTails(a, b);
    }
  }

  lemma SameTails(a: string, b: string)
    requires a != "" && b != ""
    ensures SameName(a, b) <==> SameLetter(a[0], b[0]) && SameName(a[1..], b[1..])
  {
    if SameLetter(a[0], b[0]) && SameName(a[1..], b[1..]) {
      forall i | 0 <= i < |a| ensures SameLetter(a[i], b[i]) {
        assert i > 0 ==> SameLetter(a[1..][i - 1], b[1..][i - 1]);
      }
    }
  }

  lemma PrecedesNext(a: string, b: string, k: nat)
    requires a != "" && b != "" && 0 < k <= |a| && k <= |b|
    ensures PrecedesAt(a, b, k) <==> SameLetter(a[0], b[0]) && PrecedesAt(a[1..], b[1..], k - 1)
  {
    SameTails(a[..k], b[..k]);
    assert a[..k][1..] == a[1..][..k - 1] && b[..k][1..] == b[1..][..k - 1];
  }

  /** The first difference decides. */
  lemma {:induction false} ComparesAt(a: string, b: string)
    ensures StrCompareA(a, b) < 0 <==> exists k: nat :: PrecedesAt(a, b, k)
  {
    if a == "" || b == "" {
      assert PrecedesAt(a, b, 0) <==> a == "" && b != "";
    } else {
      LowerIs(a[0], b[0]);
      ComparesAt(a[1..], b[1..]);
      StrCompareIs(a, b);
      StrCompareIs(a[1..], b[1..]);
      assert PrecedesAt(a, b, 0) <==> Before(a[0], b[0]);
      if Lower(a[0]) == Lower(b[0]) {
        if k: nat :| PrecedesAt(a[1..], b[1..], k) {
          PrecedesNext(a, b, k + 1);
        }
      }
      forall k: nat | 0 < k <= |a| && k <= |b|
        ensures PrecedesAt(a, b, k) ==> SameLetter(a[0], b[0]) && PrecedesAt(a[1..], b[1..], k - 1)
      {
        PrecedesNext(a, b, k);
      }
    }
  }

  /** Names compare equal exactly if they differ in the case of letters alone; else the first difference decides, or
      the shorter name comes first. */
  lemma ComparesNames(a: string, b: string)
    ensures StrCompareA(a, b) == 0 <==> SameName(a, b)
    ensures StrCompareA(a, b) < 0 <==> exists k: nat :: PrecedesAt(a, b, k)
    ensures StrCompareA(a, b) > 0 <==> exists k: nat :: PrecedesAt(b, a, k)
  {
    NamesAreOrdered(a, b, b);
    NamesAreOrdered(b, a, a);
    SameKeys(a, b);
    ComparesAt(a, b);
    ComparesAt(b, a);
  }

  /** Names compare equal exactly if they differ in case only, and the comparison is a total order. */
  lemma NamesAreOrdered(a: string, b: string, c: string)
    ensures StrCompareA(a, b) == 0 <==> KeyOf(a) == KeyOf(b)
    ensures StrCompareA(a, b) < 0 <==> StrCompareA(b, a) > 0
    ensures StrCompareA(a, b) <= 0 && StrCompareA(b, c) <= 0 ==> StrCompareA(a, c) <= 0
  {
    StrCompareIs(a, b);
    StrCompareIs(b, a);
    StrCompareIs(b, c);
    StrCompareIs(a, c);
    KeyOrderZero(KeyOf(a), KeyOf(b));
    KeyOrderFlips(KeyOf(a), KeyOf(b));
    if KeyOrder(KeyOf(a), KeyOf(b)) <= 0 && KeyOrder(KeyOf(b), KeyOf(c)) <= 0 {
      KeyOrderTransitive(KeyOf(a), KeyOf(b), KeyOf(c));
    }
  }
}
