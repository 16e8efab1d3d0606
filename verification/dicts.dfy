/**
 * Python dictionaries as the sequence of their items in insertion order.
 * Assigning to a present key keeps its position; a new key goes last.
 */
module Dicts {
  import opened Results

  type Dict<K, V> = seq<(K, V)>

  /** The keys in insertion order (`list(d.keys())`). */
  function Keys<K, V>(d: Dict<K, V>): (ks: seq<K>)
    ensures |ks| == |d|
    ensures forall i :: 0 <= i < |d| ==> ks[i] == d[i].0
  {
    if |d| == 0 then [] else [d[0].0] + Keys(d[1..])
  }

  /** The values in insertion order (`list(d.values())`). */
  function Values<K, V>(d: Dict<K, V>): (vs: seq<V>)
    ensures |vs| == |d|
    ensures forall i :: 0 <= i < |d| ==> vs[i] == d[i].1
  {
    if |d| == 0 then [] else [d[0].1] + Values(d[1..])
  }

  predicate DistinctKeys<K(==,!new), V>(d: Dict<K, V>) {
    forall i, j :: 0 <= i < j < |d| ==> d[i].0 != d[j].0
  }

  /** Dropping the first entry keeps keys distinct, and its key does not recur. */
  lemma DistinctTail<K(!new), V>(d: Dict<K, V>)
    requires |d| > 0 && DistinctKeys(d)
    ensures DistinctKeys(d[1..]) && d[0].0 !in Keys(d[1..])
  {
  }

  /** `d.get(k)`: the value stored under `k`, if any. */
  function Get<K(==,!new), V>(d: Dict<K, V>, k: K): (r: Option<V>)
    ensures r.Some? <==> k in Keys(d)
    ensures r.Some? ==> exists i :: 0 <= i < |d| && d[i] == (k, r.value)
  {
    if |d| == 0 then None
    else if d[0].0 == k then Some(d[0].1)
    else
      var r := Get(d[1..], k);
      assert r.Some? ==> exists i :: 0 <= i < |d| && d[i] == (k, r.value) by {
        if r.Some? {
          var i :| 0 <= i < |d[1..]| && d[1..][i] == (k, r.value);
          assert d[i + 1] == (k, r.value);
        }
      }
      r
  }

  /** With distinct keys, the lookup of an entry's key finds that entry. */
  lemma {:induction false} GetDistinct<K(!new), V>(d: Dict<K, V>, i: int)
    requires DistinctKeys(d) && 0 <= i < |d|
    ensures Get(d, d[i].0) == Some(d[i].1)
    decreases |d|
  {
    if i > 0 {
      assert d[1..][i - 1] == d[i];
      GetDistinct(d[1..], i - 1);
    }
  }

  /** `d[k] = v`. */
  function Put<K(==,!new), V>(d: Dict<K, V>, k: K, v: V): Dict<K, V> {
    if |d| == 0 then [(k, v)]
    else if d[0].0 == k then [(k, v)] + d[1..]
    else [d[0]] + Put(d[1..], k, v)
  }

  /** After `d[k] = v`, `k` maps to `v` and every other key keeps its value. */
  lemma {:induction false} PutGet<K(!new), V>(d: Dict<K, V>, k: K, v: V, k': K)
    ensures Get(Put(d, k, v), k') == if k' == k then Some(v) else Get(d, k')
  {
    if |d| > 0 && d[0].0 != k {
      PutGet(d[1..], k, v, k');
      assert Put(d, k, v)[1..] == Put(d[1..], k, v);
    }
  }

  /** `d[k] = v` keeps the key order and appends `k` only when it is new. */
  lemma {:induction false} PutKeys<K(!new), V>(d: Dict<K, V>, k: K, v: V)
    ensures Keys(Put(d, k, v)) == if k in Keys(d) then Keys(d) else Keys(d) + [k]
  {
    if |d| > 0 {
      assert Keys(d) == [d[0].0] + Keys(d[1..]);
      if d[0].0 != k {
        PutKeys(d[1..], k, v);
      }
    }
  }

  /** `d[k] = v` keeps keys distinct. */
  lemma PutDistinct<K(!new), V>(d: Dict<K, V>, k: K, v: V)
    requires DistinctKeys(d)
    ensures DistinctKeys(Put(d, k, v))
  {
    var r := Put(d, k, v);
    PutKeys(d, k, v);
    assert Keys(r) == if k in Keys(d) then Keys(d) else Keys(d) + [k];
    forall i, j | 0 <= i < j < |r|
      ensures r[i].0 != r[j].0
    {
      assert Keys(r)[i] == r[i].0 && Keys(r)[j] == r[j].0;
    }
  }

  /** `d[k] = v` keeps a property every entry has, if the new entry has it too. */
  lemma {:induction false} PutPreserves<K(!new), V>(d: Dict<K, V>, k: K, v: V, P: ((K, V)) -> bool)
    requires forall i :: 0 <= i < |d| ==> P(d[i])
    requires P((k, v))
    ensures forall i :: 0 <= i < |Put(d, k, v)| ==> P(Put(d, k, v)[i])
    decreases |d|
  {
    if |d| > 0 && d[0].0 != k {
      PutPreserves(d[1..], k, v, P);
    }
  }

  /**
   * The keys after assigning each of `ks` in turn to a dictionary whose keys
   * are `acc`: a key already present keeps its place, a new one goes last.
   */
  function AppendNew<K(==)>(acc: seq<K>, ks: seq<K>): seq<K>
    decreases |ks|
  {
    if |ks| == 0 then acc else AppendNew(if ks[0] in acc then acc else acc + [ks[0]], ks[1..])
  }

  /** The keys already present stay in front, in their order. */
  lemma {:induction false} AppendNewPrefix<K>(acc: seq<K>, ks: seq<K>)
    ensures |acc| <= |AppendNew(acc, ks)| && AppendNew(acc, ks)[..|acc|] == acc
    decreases |ks|
  {
    if |ks| > 0 {
      var next := if ks[0] in acc then acc else acc + [ks[0]];
      AppendNewPrefix(next, ks[1..]);
      assert AppendNew(acc, ks)[..|next|] == next;
      assert next[..|acc|] == acc;
    }
  }

  /** A key ends up present exactly when it was present or is assigned. */
  lemma {:induction false} AppendNewMembers<K>(acc: seq<K>, ks: seq<K>, k: K)
    ensures k in AppendNew(acc, ks) <==> k in acc || k in ks
    decreases |ks|
  {
    if |ks| > 0 {
      var next := if ks[0] in acc then acc else acc + [ks[0]];
      AppendNewMembers(next, ks[1..], k);
      assert ks == [ks[0]] + ks[1..];
    }
  }

  /** Assigning `a` and then `b` is assigning `a + b`. */
  lemma {:induction false} AppendNewSplit<K>(acc: seq<K>, a: seq<K>, b: seq<K>)
    ensures AppendNew(acc, a + b) == AppendNew(AppendNew(acc, a), b)
    decreases |a|
  {
    if |a| == 0 {
      assert a + b == b;
    } else {
      var next := if a[0] in acc then acc else acc + [a[0]];
      assert (a + b)[0] == a[0] && (a + b)[1..] == a[1..] + b;
      AppendNewSplit(next, a[1..], b);
    }
  }

  /**
   * New keys come out in the order of their first assignment: a new key
   * assigned at `i` precedes one first assigned at a later `j`.
   */
  lemma AppendNewOrder<K>(acc: seq<K>, ks: seq<K>, i: int, j: int)
    requires 0 <= i < j < |ks|
    requires ks[i] !in acc && ks[j] !in acc && ks[j] !in ks[..j]
    ensures exists p, q :: 0 <= p < q < |AppendNew(acc, ks)| && AppendNew(acc, ks)[p] == ks[i] && AppendNew(acc, ks)[q] == ks[j]
  {
    var r1 := AppendNew(acc, ks[..j]);
    var r := AppendNew(acc, ks);
    assert ks == ks[..j] + ks[j..];
    AppendNewSplit(acc, ks[..j], ks[j..]);
    assert ks[i] == ks[..j][i];
    AppendNewMembers(acc, ks[..j], ks[i]);
    AppendNewMembers(acc, ks[..j], ks[j]);
    AppendNewPrefix(r1, ks[j..]);
    assert ks[j] == ks[j..][0];
    AppendNewMembers(r1, ks[j..], ks[j]);
    var p :| 0 <= p < |r1| && r1[p] == ks[i];
    var q :| 0 <= q < |r| && r[q] == ks[j];
    assert forall x :: 0 <= x < |r1| ==> r[x] == r1[x];
    assert r[p] == ks[i];
  }

  /** `for k, v in es: d[k] = v`. */
  function PutAll<K(==,!new), V>(d: Dict<K, V>, es: seq<(K, V)>): Dict<K, V>
    decreases |es|
  {
    if |es| == 0 then d else PutAll(Put(d, es[0].0, es[0].1), es[1..])
  }

  /** Running the loop over `a + b` is running it over `a`, then over `b`. */
  lemma {:induction false} PutAllConcat<K(!new), V>(d: Dict<K, V>, a: seq<(K, V)>, b: seq<(K, V)>)
    ensures PutAll(d, a + b) == PutAll(PutAll(d, a), b)
    decreases |a|
  {
    if |a| == 0 {
      assert a + b == b;
    } else {
      assert (a + b)[0] == a[0] && (a + b)[1..] == a[1..] + b;
      PutAllConcat(Put(d, a[0].0, a[0].1), a[1..], b);
    }
  }

  /** The keys after the loop: the old ones, then each new key where it first occurs. */
  lemma {:induction false} PutAllKeys<K(!new), V>(d: Dict<K, V>, es: seq<(K, V)>)
    ensures Keys(PutAll(d, es)) == AppendNew(Keys(d), Keys(es))
    decreases |es|
  {
    if |es| > 0 {
      PutKeys(d, es[0].0, es[0].1);
      PutAllKeys(Put(d, es[0].0, es[0].1), es[1..]);
      assert Keys(es) == [es[0].0] + Keys(es[1..]);
    }
  }

  /** The loop keeps keys distinct. */
  lemma {:induction false} PutAllDistinct<K(!new), V>(d: Dict<K, V>, es: seq<(K, V)>)
    requires DistinctKeys(d)
    ensures DistinctKeys(PutAll(d, es))
    decreases |es|
  {
    if |es| > 0 {
      PutDistinct(d, es[0].0, es[0].1);
      PutAllDistinct(Put(d, es[0].0, es[0].1), es[1..]);
    }
  }

  /** A key the loop never assigns keeps its old value. */
  lemma {:induction false} PutAllUnassigned<K(!new), V>(d: Dict<K, V>, es: seq<(K, V)>, k: K)
    requires forall j :: 0 <= j < |es| ==> es[j].0 != k
    ensures Get(PutAll(d, es), k) == Get(d, k)
    decreases |es|
  {
    if |es| > 0 {
      PutGet(d, es[0].0, es[0].1, k);
      assert forall j :: 0 <= j < |es[1..]| ==> es[1..][j] == es[j + 1];
      PutAllUnassigned(Put(d, es[0].0, es[0].1), es[1..], k);
    }
  }

  /** After the loop a key holds the value of its last assignment. */
  lemma {:induction false} PutAllLast<K(!new), V>(d: Dict<K, V>, es: seq<(K, V)>, i: int)
    requires 0 <= i < |es|
    requires forall j :: i < j < |es| ==> es[j].0 != es[i].0
    ensures Get(PutAll(d, es), es[i].0) == Some(es[i].1)
    decreases |es|
  {
    var k := es[i].0;
    var next := Put(d, es[0].0, es[0].1);
    assert forall j :: 0 <= j < |es[1..]| ==> es[1..][j] == es[j + 1];
    if i == 0 {
      PutGet(d, k, es[0].1, k);
      PutAllUnassigned(next, es[1..], k);
    } else {
      PutAllLast(next, es[1..], i - 1);
    }
  }

  /** A lookup in two dictionaries laid end to end finds the first one's entry first. */
  lemma {:induction false} GetConcat<K(!new), V>(a: Dict<K, V>, b: Dict<K, V>, k: K)
    ensures Get(a + b, k) == if k in Keys(a) then Get(a, k) else Get(b, k)
    decreases |a|
  {
    if |a| > 0 {
      assert (a + b)[0] == a[0] && (a + b)[1..] == a[1..] + b;
      assert Keys(a) == [a[0].0] + Keys(a[1..]);
      GetConcat(a[1..], b, k);
    } else {
      assert a + b == b;
    }
  }
}
