/** PHP arrays with string keys: ordered maps, modelled as sequences of
    key/value pairs in insertion order. */
module PhpArray {
  import opened Wrappers

  type Pairs<K, V> = seq<(K, V)>

  predicate HasKey<K(==, !new), V>(p: Pairs<K, V>, k: K)
  {
    exists i :: 0 <= i < |p| && p[i].0 == k
  }

  /** Every PHP array has this shape: no key occurs twice. */
  predicate DistinctKeys<K(==, !new), V>(p: Pairs<K, V>)
  {
    forall i, j :: 0 <= i < j < |p| ==> p[i].0 != p[j].0
  }

  /** `$p[$k]`, or None when `isset` would fail for lack of the key. */
  function Lookup<K(==, !new), V>(p: Pairs<K, V>, k: K): (r: Option<V>)
    ensures r.Some? <==> HasKey(p, k)
  {
    if |p| == 0 then None
    else if p[0].0 == k then Some(p[0].1)
    else
      assert forall i :: 1 <= i < |p| ==> p[i] == p[1..][i - 1];
      Lookup(p[1..], k)
  }

  /** Looking up in `[x] + p` checks `x` first. */
  lemma LookupCons<K(!new), V>(x: (K, V), p: Pairs<K, V>, k: K)
    ensures Lookup([x] + p, k) == if x.0 == k then Some(x.1) else Lookup(p, k)
    ensures HasKey([x] + p, k) <==> x.0 == k || HasKey(p, k)
  {
    assert ([x] + p)[1..] == p;
    if HasKey(p, k) {
      var i :| 0 <= i < |p| && p[i].0 == k;
      assert ([x] + p)[i + 1].0 == k;
    }
  }

  /** A key of a non-empty array is its first key or a key of the rest. */
  lemma HasKeyUncons<K(!new), V>(p: Pairs<K, V>, k: K)
    requires |p| > 0
    ensures HasKey(p, k) <==> p[0].0 == k || HasKey(p[1..], k)
    ensures DistinctKeys(p) ==> DistinctKeys(p[1..]) && !HasKey(p[1..], p[0].0)
  {
    if HasKey(p[1..], k) {
      var i :| 0 <= i < |p[1..]| && p[1..][i].0 == k;
      assert p[i + 1].0 == k;
    }
    if HasKey(p, k) && p[0].0 != k {
      var i :| 0 <= i < |p| && p[i].0 == k;
      assert p[1..][i - 1].0 == k;
    }
  }

  /** `$p[$k] = $v`: overwrites in place when the key exists, appends otherwise. */
  function Put<K(==, !new), V>(p: Pairs<K, V>, k: K, v: V): (r: Pairs<K, V>)
    ensures Lookup(r, k) == Some(v)
    ensures forall k' :: k' != k ==> Lookup(r, k') == Lookup(p, k')
    ensures |p| <= |r| <= |p| + 1
    ensures forall i :: 0 <= i < |p| ==> r[i].0 == p[i].0
    ensures HasKey(p, k) ==> |r| == |p|
    ensures !HasKey(p, k) ==> r == p + [(k, v)]
    ensures DistinctKeys(p) ==> DistinctKeys(r)
  {
    if |p| == 0 then [(k, v)]
    else
      assert p == [p[0]] + p[1..];
      LookupCons(p[0], p[1..], k);
      if p[0].0 == k then
        var r := [(k, v)] + p[1..];
        LookupCons((k, v), p[1..], k);
        assert forall k' :: k' != k ==> Lookup(r, k') == Lookup(p[1..], k') by {
          forall k' | k' != k { LookupCons((k, v), p[1..], k'); }
        }
        assert forall k' :: k' != k ==> Lookup(p, k') == Lookup(p[1..], k') by {
          forall k' | k' != k { LookupCons(p[0], p[1..], k'); }
        }
        r
      else
        var t := Put(p[1..], k, v);
        var r := [p[0]] + t;
        LookupCons(p[0], t, k);
        assert forall k' :: Lookup(r, k') == (if p[0].0 == k' then Some(p[0].1) else Lookup(t, k')) by {
          forall k' { LookupCons(p[0], t, k'); }
        }
        assert forall k' :: Lookup(p, k') == (if p[0].0 == k' then Some(p[0].1) else Lookup(p[1..], k')) by {
          forall k' { LookupCons(p[0], p[1..], k'); }
        }
        r
  }

  /** `array_merge($a, $b)` for string keys: the keys of `a` keep their
      places, new keys of `b` follow in order, and on a shared key the
      value from `b` wins. */
  function Merge<K(==, !new), V>(a: Pairs<K, V>, b: Pairs<K, V>): (r: Pairs<K, V>)
    requires DistinctKeys(b)
    ensures forall k :: Lookup(r, k) == if HasKey(b, k) then Lookup(b, k) else Lookup(a, k)
    ensures |a| <= |r| <= |a| + |b|
    ensures forall i :: 0 <= i < |a| ==> r[i].0 == a[i].0
    ensures DistinctKeys(a) ==> DistinctKeys(r)
    decreases |b|
  {
    if |b| == 0 then a
    else Merge(Put(a, b[0].0, b[0].1), b[1..])
  }

  /** Merging a two-entry array is two assignments in order. */
  lemma MergePair<K(!new), V>(a: Pairs<K, V>, x: (K, V), y: (K, V))
    requires x.0 != y.0
    ensures Merge(a, [x, y]) == Put(Put(a, x.0, x.1), y.0, y.1)
  {
    var b := [x, y];
    assert DistinctKeys(b);
    assert b[1..] == [y];
    assert [y][1..] == [];
    assert Merge(a, b) == Merge(Put(a, x.0, x.1), [y]);
  }

  lemma HasKeyAppend<K(!new), V>(p: Pairs<K, V>, x: (K, V), k: K)
    ensures HasKey(p + [x], k) <==> HasKey(p, k) || x.0 == k
  {
    if HasKey(p + [x], k) && x.0 != k {
      var i :| 0 <= i < |p + [x]| && (p + [x])[i].0 == k;
      assert p[i].0 == k;
    }
    if HasKey(p, k) {
      var i :| 0 <= i < |p| && p[i].0 == k;
      assert (p + [x])[i].0 == k;
    }
    assert (p + [x])[|p|] == x;
  }
}
