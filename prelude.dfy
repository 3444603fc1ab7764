/** Small shared vocabulary: optional values, results with an error, and sums. */
module Prelude {

  datatype Option<T> = None | Some(value: T)

  datatype Result<T, E> = Success(value: T) | Failure(error: E)

  /** Sum of a sequence, accumulated left to right as a running total would be. */
  function SumSeq(s: seq<int>): int
  {
    if s == [] then 0 else SumSeq(s[..|s| - 1]) + s[|s| - 1]
  }

  /** Sum of the values of a finite map, independent of any key order. */
  ghost function Total<K>(m: map<K, int>): int
    decreases |m|
  {
    if |m| == 0 then 0 else var k :| k in m; m[k] + Total(m - {k})
  }

  /** Any key may be taken out first: the sum does not depend on the order. */
  lemma {:induction false} TotalRemove<K>(m: map<K, int>, k: K)
    requires k in m
    ensures Total(m) == m[k] + Total(m - {k})
    decreases |m|
  {
    assert |m| != 0;
    var j :| j in m && Total(m) == m[j] + Total(m - {j});
    if j != k {
      RemoveTwice(m, j, k);
      CardRemove(m, j);
      CardRemove(m, k);
      TotalRemove(m - {j}, k);
      TotalRemove(m - {k}, j);
    }
  }

  lemma RemoveTwice<K>(m: map<K, int>, j: K, k: K)
    ensures m - {j} - {k} == m - {k} - {j}
  {
    assert (m - {j} - {k}).Keys == (m - {k} - {j}).Keys;
  }

  lemma CardRemove<K>(m: map<K, int>, k: K)
    requires k in m
    ensures |m - {k}| == |m| - 1
  {
    assert (m - {k}).Keys == m.Keys - {k};
  }

  /** Two maps with the same keys and the same value under each key are equal. */
  lemma MapsEqual<K, V>(a: map<K, V>, b: map<K, V>)
    requires forall k :: k in a <==> k in b
    requires forall k :: k in a ==> a[k] == b[k]
    ensures a == b
  {
    assert a.Keys == b.Keys;
  }

  /** Overriding with nothing, or overriding nothing, changes nothing. */
  lemma OverrideEmpty<K, V>(m: map<K, V>)
    ensures m + map[] == m && map[] + m == m
  {
  }

  /** Overriding with a single entry is an update. */
  lemma OverrideOne<K, V>(m: map<K, V>, k: K, v: V)
    ensures m + map[k := v] == m[k := v]
  {
  }

  /** Removing no key changes nothing. */
  lemma RemoveNone<K, V>(m: map<K, V>)
    ensures m - {} == m
  {
  }

  /** Overwriting (or adding) one entry changes the sum by the difference. */
  lemma TotalUpdate<K>(m: map<K, int>, k: K, v: int)
    ensures Total(m[k := v]) == Total(m) - (if k in m then m[k] else 0) + v
  {
    var m' := m[k := v];
    TotalRemove(m', k);
    assert m' - {k} == m - {k};
    if k in m {
      TotalRemove(m, k);
    } else {
      assert m - {k} == m;
    }
  }

  /** The sum of the values found under a sequence of keys. */
  function SumOver<K>(keys: seq<K>, m: map<K, int>): int
    requires forall k :: k in keys ==> k in m
  {
    if keys == [] then 0 else SumOver(keys[..|keys| - 1], m) + m[keys[|keys| - 1]]
  }

  ghost predicate Distinct<K>(s: seq<K>)
  {
    forall i, j :: 0 <= i < j < |s| ==> s[i] != s[j]
  }

  /** Summing a map along any duplicate-free listing of its keys gives its total. */
  lemma {:induction false} SumOverIsTotal<K>(keys: seq<K>, m: map<K, int>)
    requires Distinct(keys)
    requires forall k :: k in keys <==> k in m
    ensures SumOver(keys, m) == Total(m)
    decreases |keys|
  {
    if keys == [] {
      assert m.Keys == {};
    } else {
      var n := |keys| - 1;
      var last := keys[n];
      var rest := keys[..n];
      var m' := m - {last};
      DropLastKey(keys, m);
      assert forall k :: k in rest <==> k in m';
      SumOverIsTotal(rest, m');
      SumOverSameValues(rest, m, m');
      TotalRemove(m, last);
    }
  }

  lemma DropLastKey<K>(keys: seq<K>, m: map<K, int>)
    requires keys != [] && Distinct(keys)
    requires forall k :: k in keys <==> k in m
    ensures Distinct(keys[..|keys| - 1])
    ensures forall k :: k in keys[..|keys| - 1] <==> k in m && k != keys[|keys| - 1]
  {
    var n := |keys| - 1;
    forall k | k in keys[..n] ensures k in m - {keys[n]} {
      var i :| 0 <= i < n && keys[..n][i] == k;
      assert keys[i] != keys[n];
    }
    forall k | k in m - {keys[n]} ensures k in keys[..n] {
      assert k in keys;
      var i :| 0 <= i < |keys| && keys[i] == k;
      assert i != n;
      assert keys[..n][i] == k;
    }
  }

  /** Summing along keys only reads the values at those keys. */
  lemma {:induction false} SumOverSameValues<K>(keys: seq<K>, m: map<K, int>, m': map<K, int>)
    requires forall k :: k in keys ==> k in m && k in m' && m[k] == m'[k]
    ensures SumOver(keys, m) == SumOver(keys, m')
    decreases |keys|
  {
    if keys != [] {
      SumOverSameValues(keys[..|keys| - 1], m, m');
    }
  }
}
