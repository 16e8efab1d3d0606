/**
 * Python's string order and its stable `sorted(..., key=...)`, used for the
 * scope list of an OAuth2 flow and the base-URL list of an .http file.
 */
module Ordering {

  /** Python's `a <= b` on strings: lexicographic by code point. */
  predicate LexLe(a: string, b: string)
    decreases |a|
  {
    |a| == 0 || (|b| > 0 && (a[0] < b[0] || (a[0] == b[0] && LexLe(a[1..], b[1..]))))
  }

  lemma {:induction false} LexLeTotal(a: string, b: string)
    ensures LexLe(a, b) || LexLe(b, a)
    decreases |a|
  {
    if |a| > 0 && |b| > 0 && a[0] == b[0] {
      LexLeTotal(a[1..], b[1..]);
    }
  }

  lemma {:induction false} LexLeTrans(a: string, b: string, c: string)
    requires LexLe(a, b) && LexLe(b, c)
    ensures LexLe(a, c)
    decreases |a|
  {
    if |a| > 0 && a[0] == b[0] && b[0] == c[0] {
      LexLeTrans(a[1..], b[1..], c[1..]);
    }
  }

  lemma {:induction false} LexLeAntisym(a: string, b: string)
    requires LexLe(a, b) && LexLe(b, a)
    ensures a == b
    decreases |a|
  {
    if |a| > 0 {
      LexLeAntisym(a[1..], b[1..]);
      assert a == [a[0]] + a[1..];
      assert b == [b[0]] + b[1..];
    }
  }

  predicate SortedBy<T>(xs: seq<T>, key: T -> string) {
    forall i, j :: 0 <= i < j < |xs| ==> LexLe(key(xs[i]), key(xs[j]))
  }

  /** A sorted list stays sorted under a new head whose key is below every key in it. */
  lemma ConsSorted<T>(y: T, rest: seq<T>, key: T -> string)
    requires SortedBy(rest, key)
    requires forall j :: 0 <= j < |rest| ==> LexLe(key(y), key(rest[j]))
    ensures SortedBy([y] + rest, key)
  {
    forall i, j | 0 <= i < j < |rest| + 1
      ensures LexLe(key(([y] + rest)[i]), key(([y] + rest)[j]))
    {
      if i > 0 {
        assert ([y] + rest)[i] == rest[i - 1];
      }
      assert ([y] + rest)[j] == rest[j - 1];
    }
  }

  /** A key no greater than the first of a sorted list is no greater than any of it. */
  lemma BelowHead<T>(x: T, xs: seq<T>, key: T -> string)
    requires SortedBy(xs, key) && |xs| > 0 && LexLe(key(x), key(xs[0]))
    ensures forall j :: 0 <= j < |xs| ==> LexLe(key(x), key(xs[j]))
  {
    forall j | 0 < j < |xs|
      ensures LexLe(key(x), key(xs[j]))
    {
      LexLeTrans(key(x), key(xs[0]), key(xs[j]));
    }
  }

  /** The head of a sorted list is below every element of a permutation of its tail plus `x`, when it is below `x`. */
  lemma HeadBelowInsert<T>(x: T, xs: seq<T>, key: T -> string, rest: seq<T>)
    requires SortedBy(xs, key) && |xs| > 0 && LexLe(key(xs[0]), key(x))
    requires multiset(rest) == multiset(xs[1..]) + multiset{x}
    ensures forall j :: 0 <= j < |rest| ==> LexLe(key(xs[0]), key(rest[j]))
  {
    forall j | 0 <= j < |rest|
      ensures LexLe(key(xs[0]), key(rest[j]))
    {
      assert rest[j] in multiset(rest);
      if rest[j] != x {
        assert rest[j] in multiset(xs[1..]);
        var k :| 0 <= k < |xs[1..]| && xs[1..][k] == rest[j];
        assert xs[k + 1] == rest[j];
      }
    }
  }

  /** The tail of a sorted list is sorted. */
  lemma TailSorted<T>(xs: seq<T>, key: T -> string)
    requires SortedBy(xs, key) && |xs| > 0
    ensures SortedBy(xs[1..], key)
  {
    forall i, j | 0 <= i < j < |xs| - 1
      ensures LexLe(key(xs[1..][i]), key(xs[1..][j]))
    {
      assert xs[1..][i] == xs[i + 1] && xs[1..][j] == xs[j + 1];
    }
  }

  /** Inserts `x` before the first element whose key is not below its own. */
  function InsertBy<T(==)>(x: T, xs: seq<T>, key: T -> string): (r: seq<T>)
    requires SortedBy(xs, key)
    ensures multiset(r) == multiset(xs) + multiset{x}
    ensures SortedBy(r, key)
    decreases |xs|
  {
    if |xs| == 0 then [x]
    else if LexLe(key(x), key(xs[0])) then
      BelowHead(x, xs, key);
      ConsSorted(x, xs, key);
      [x] + xs
    else
      TailSorted(xs, key);
      var rest := InsertBy(x, xs[1..], key);
      assert xs == [xs[0]] + xs[1..];
      LexLeTotal(key(x), key(xs[0]));
      HeadBelowInsert(x, xs, key, rest);
      ConsSorted(xs[0], rest, key);
      [xs[0]] + rest
  }

  /** `sorted(xs, key=key)`: a stable insertion sort. */
  function SortBy<T(==)>(xs: seq<T>, key: T -> string): (r: seq<T>)
    ensures multiset(r) == multiset(xs)
    ensures SortedBy(r, key)
    decreases |xs|
  {
    if |xs| == 0 then []
    else
      assert xs == [xs[0]] + xs[1..];
      InsertBy(xs[0], SortBy(xs[1..], key), key)
  }

  /** The head of a sorted non-empty list is one of its elements, with the least key. */
  lemma SortByHeadLeast<T>(xs: seq<T>, key: T -> string)
    requires |xs| > 0
    ensures |SortBy(xs, key)| == |xs|
    ensures SortBy(xs, key)[0] in xs
    ensures forall c :: c in xs ==> LexLe(key(SortBy(xs, key)[0]), key(c))
  {
    var sorted := SortBy(xs, key);
    assert |sorted| == |multiset(sorted)| == |multiset(xs)| == |xs|;
    var b := sorted[0];
    assert b in multiset(xs) by { assert b in multiset(sorted); }
    forall c | c in xs
      ensures LexLe(key(b), key(c))
    {
      assert c in multiset(sorted) by { assert c in multiset(xs); }
      var j :| 0 <= j < |sorted| && sorted[j] == c;
      if j == 0 {
        LexLeTotal(key(b), key(b));
      }
    }
  }
}
