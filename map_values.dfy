/** Go's `for k, v := range m { list = append(list, v) }`: the values of a
    map listed in an unspecified order, one per key. The source builds its
    participants lists and its `existing_players` list this way. */
module MapValues {

  /** `keys` lists every key of `m` exactly once. */
  ghost predicate Enumerates<K, V>(m: map<K, V>, keys: seq<K>) {
    && (forall i :: 0 <= i < |keys| ==> keys[i] in m)
    && (forall i, j :: 0 <= i < j < |keys| ==> keys[i] != keys[j])
    && (forall k :: k in m ==> k in keys)
  }

  /** `vs` lists the value under each key of `m` once, in some key order. */
  ghost predicate Lists<K(!new), V>(vs: seq<V>, m: map<K, V>) {
    exists keys :: Enumerates(m, keys) && |vs| == |keys| && (forall i :: 0 <= i < |vs| ==> vs[i] == m[keys[i]])
  }

  /** A listing has one entry per key: each key's value is in it and each of
      its entries is some key's value. */
  lemma ListsCovers<K(!new), V>(vs: seq<V>, m: map<K, V>)
    requires Lists(vs, m)
    ensures |vs| == |m|
    ensures forall k :: k in m ==> m[k] in vs
    ensures forall i :: 0 <= i < |vs| ==> exists k :: k in m && m[k] == vs[i]
  {
    var keys :| Enumerates(m, keys) && |vs| == |keys| && (forall i :: 0 <= i < |vs| ==> vs[i] == m[keys[i]]);
    DistinctLength(m, keys);
    forall k | k in m ensures m[k] in vs {
      var i :| 0 <= i < |keys| && keys[i] == k;
      assert vs[i] == m[k];
    }
  }

  /** A duplicate-free list of exactly the keys is as long as the map. */
  lemma {:induction false} DistinctLength<K, V>(m: map<K, V>, keys: seq<K>)
    requires Enumerates(m, keys)
    ensures |keys| == |m|
    decreases |keys|
  {
    if keys == [] {
      assert m.Keys == {};
    } else {
      var k := keys[|keys| - 1];
      var rest := keys[..|keys| - 1];
      assert forall i :: 0 <= i < |rest| ==> rest[i] == keys[i];
      forall j | j in m - {k} ensures j in rest {
        var i :| 0 <= i < |keys| && keys[i] == j;
        assert i != |keys| - 1;
      }
      DistinctLength(m - {k}, rest);
      assert (m - {k}).Keys == m.Keys - {k};
    }
  }

  /** The values of `m`, one per key, in the order the loop visited the keys;
      `keys` is that order. */
  method Values<K(!new), V>(m: map<K, V>) returns (vs: seq<V>, ghost keys: seq<K>)
    ensures |vs| == |keys| == |m|
    ensures Enumerates(m, keys)
    ensures forall i :: 0 <= i < |vs| ==> vs[i] == m[keys[i]]
    ensures Lists(vs, m)
  {
    vs, keys := [], [];
    var remaining := m.Keys;
    while remaining != {}
      invariant remaining <= m.Keys
      invariant forall i :: 0 <= i < |keys| ==> keys[i] in m && keys[i] !in remaining
      invariant forall i, j :: 0 <= i < j < |keys| ==> keys[i] != keys[j]
      invariant forall k :: k in m ==> k in keys || k in remaining
      invariant |vs| == |keys| && |keys| + |remaining| == |m.Keys|
      invariant forall i :: 0 <= i < |vs| ==> vs[i] == m[keys[i]]
      decreases |remaining|
    {
      var k :| k in remaining;
      vs, keys := vs + [m[k]], keys + [k];
      remaining := remaining - {k};
    }
  }
}
