/** Python dictionaries as the pipeline uses them: a dict remembers the order in which
    keys were first inserted, and assigning to an existing key replaces its value
    without moving it. Both deduplication steps are dictionary comprehensions whose
    values are the elements themselves, `{key(x): x for x in xs if key(x) is not None}`. */
module PyDict {
  import opened Records

  /** The keys in insertion order, and the mapping itself. */
  datatype Dict<K, V> = Dict(keys: seq<K>, entries: map<K, V>)

  /** No element is listed twice. */
  predicate Distinct<T(==)>(xs: seq<T>) {
    forall i, j :: 0 <= i < j < |xs| ==> xs[i] != xs[j]
  }

  /** Each key is listed once, and exactly the keys with an entry are listed. */
  predicate Valid<K, V>(d: Dict<K, V>) {
    && Distinct(d.keys)
    && (forall i :: 0 <= i < |d.keys| ==> d.keys[i] in d.entries)
    && (forall k :: k in d.entries ==> k in d.keys)
  }

  /** `d[k] = v`: a new key goes to the end of the order; an existing key keeps its place. */
  function Assign<K, V>(d: Dict<K, V>, k: K, v: V): (r: Dict<K, V>)
    requires Valid(d)
    ensures Valid(r)
    ensures k in r.entries && r.entries[k] == v
    ensures r.entries.Keys == d.entries.Keys + {k}
    ensures forall k' :: k' != k && k' in d.entries ==> r.entries[k'] == d.entries[k']
    ensures k in d.entries ==> r.keys == d.keys
    ensures k !in d.entries ==> r.keys == d.keys + [k]
  {
    if k in d.entries then Dict(d.keys, d.entries[k := v])
    else Dict(d.keys + [k], d.entries[k := v])
  }

  /** The comprehension `{key(x): x for x in xs if key(x) is not None}`, element by element. */
  function Comprehension<T, K>(xs: seq<T>, key: T -> Option<K>): (d: Dict<K, T>)
    ensures Valid(d)
  {
    if xs == [] then Dict([], map[])
    else
      var n := |xs| - 1;
      var d0 := Comprehension(xs[..n], key);
      match key(xs[n])
      case None => d0
      case Some(k) => Assign(d0, k, xs[n])
  }

  /** `list(d.values())`: the values in key-insertion order. */
  function Values<K, V>(d: Dict<K, V>): seq<V>
    requires Valid(d)
  {
    seq(|d.keys|, i requires 0 <= i < |d.keys| => d.entries[d.keys[i]])
  }

  /** Some element of xs has key k. */
  predicate Occurs<T, K(==)>(xs: seq<T>, key: T -> Option<K>, k: K) {
    exists i :: 0 <= i < |xs| && key(xs[i]) == Some(k)
  }

  /** xs[i] has a key and no later element has the same one. */
  predicate LastWithKey<T, K(==)>(xs: seq<T>, key: T -> Option<K>, i: int) {
    && 0 <= i < |xs|
    && key(xs[i]).Some?
    && forall j :: i < j < |xs| ==> key(xs[j]) != key(xs[i])
  }

  /** The position of the first element whose key is k. */
  function FirstIndex<T, K(==)>(xs: seq<T>, key: T -> Option<K>, k: K): (r: nat)
    requires Occurs(xs, key, k)
    ensures r < |xs| && key(xs[r]) == Some(k)
    ensures forall j :: 0 <= j < r ==> key(xs[j]) != Some(k)
  {
    var n := |xs| - 1;
    if Occurs(xs[..n], key, k) then FirstIndex(xs[..n], key, k)
    else
      assert forall j :: 0 <= j < n ==> xs[..n][j] == xs[j];
      n
  }

  /** The keys of the comprehension are exactly the keys met in xs, and each value
      is an element carrying its key. */
  lemma {:induction false} ComprehensionKeys<T, K>(xs: seq<T>, key: T -> Option<K>)
    ensures var d := Comprehension(xs, key);
      forall k :: k in d.entries <==> Occurs(xs, key, k)
    ensures var d := Comprehension(xs, key);
      forall k :: k in d.entries ==> key(d.entries[k]) == Some(k) && d.entries[k] in xs
  {
    if xs != [] {
      var n := |xs| - 1;
      ComprehensionKeys(xs[..n], key);
      var d0 := Comprehension(xs[..n], key);
      assert forall j :: 0 <= j < n ==> xs[..n][j] == xs[j];
      forall k
        ensures Occurs(xs, key, k) <==> Occurs(xs[..n], key, k) || key(xs[n]) == Some(k)
      {
        if Occurs(xs, key, k) {
          var i :| 0 <= i < |xs| && key(xs[i]) == Some(k);
          if i < n { assert key(xs[..n][i]) == Some(k); }
        }
      }
    }
  }

  /** Last write wins: the value under a key is the last element carrying it. */
  lemma {:induction false} ComprehensionLastWins<T, K>(xs: seq<T>, key: T -> Option<K>)
    ensures var d := Comprehension(xs, key);
      forall i :: LastWithKey(xs, key, i) ==>
        key(xs[i]).value in d.entries && d.entries[key(xs[i]).value] == xs[i]
  {
    if xs != [] {
      var n := |xs| - 1;
      ComprehensionLastWins(xs[..n], key);
      var d0 := Comprehension(xs[..n], key);
      var d := Comprehension(xs, key);
      forall i | LastWithKey(xs, key, i)
        ensures key(xs[i]).value in d.entries && d.entries[key(xs[i]).value] == xs[i]
      {
        if i < n {
          assert forall j :: i < j < n ==> xs[..n][j] == xs[j];
          assert LastWithKey(xs[..n], key, i);
          assert key(xs[n]) != key(xs[i]);
        }
      }
    }
  }

  /** Every key in ks occurs in xs, and the keys are listed by first occurrence. */
  predicate FirstOrdered<T, K(==)>(xs: seq<T>, key: T -> Option<K>, ks: seq<K>) {
    && (forall a :: 0 <= a < |ks| ==> Occurs(xs, key, ks[a]))
    && (forall a, b :: 0 <= a < b < |ks| ==> FirstIndex(xs, key, ks[a]) < FirstIndex(xs, key, ks[b]))
  }

  /** A key met in a prefix is first met at the same place in the whole sequence. */
  lemma FirstIndexPrefix<T, K>(xs: seq<T>, key: T -> Option<K>, n: nat, k: K)
    requires n <= |xs| && Occurs(xs[..n], key, k)
    ensures Occurs(xs, key, k) && FirstIndex(xs, key, k) == FirstIndex(xs[..n], key, k)
  {
    var r := FirstIndex(xs[..n], key, k);
    assert xs[..n][r] == xs[r];
    assert forall j :: 0 <= j < r ==> xs[..n][j] == xs[j];
  }

  /** Keys listed by first occurrence in a prefix stay so in the whole sequence. */
  lemma FirstOrderedPrefix<T, K>(xs: seq<T>, key: T -> Option<K>, n: nat, ks: seq<K>)
    requires n <= |xs| && FirstOrdered(xs[..n], key, ks)
    ensures FirstOrdered(xs, key, ks)
    ensures forall a :: 0 <= a < |ks| ==> FirstIndex(xs, key, ks[a]) < n
  {
    forall a | 0 <= a < |ks|
      ensures Occurs(xs, key, ks[a]) && FirstIndex(xs, key, ks[a]) == FirstIndex(xs[..n], key, ks[a])
    {
      FirstIndexPrefix(xs, key, n, ks[a]);
    }
  }

  /** Insertion order is order of first occurrence. */
  lemma {:induction false} ComprehensionFirstOrder<T, K>(xs: seq<T>, key: T -> Option<K>)
    ensures var d := Comprehension(xs, key);
      forall a :: 0 <= a < |d.keys| ==> Occurs(xs, key, d.keys[a])
    ensures var d := Comprehension(xs, key);
      forall a, b :: 0 <= a < b < |d.keys| ==>
        FirstIndex(xs, key, d.keys[a]) < FirstIndex(xs, key, d.keys[b])
  {
    ComprehensionFirstOrdered(xs, key);
  }

  lemma {:induction false} ComprehensionFirstOrdered<T, K>(xs: seq<T>, key: T -> Option<K>)
    ensures FirstOrdered(xs, key, Comprehension(xs, key).keys)
  {
    if xs != [] {
      var n := |xs| - 1;
      ComprehensionFirstOrdered(xs[..n], key);
      ComprehensionKeys(xs[..n], key);
      var d0 := Comprehension(xs[..n], key);
      var d := Comprehension(xs, key);
      FirstOrderedPrefix(xs, key, n, d0.keys);
      if key(xs[n]).Some? && key(xs[n]).value !in d0.entries {
        var k := key(xs[n]).value;
        assert d.keys == d0.keys + [k];
        assert !Occurs(xs[..n], key, k) by {
          assert k in d0.entries <==> Occurs(xs[..n], key, k);
        }
        assert Occurs(xs, key, k);
        assert FirstIndex(xs, key, k) == n;
        FirstOrderedSnoc(xs, key, d0.keys, k);
      } else {
        assert d.keys == d0.keys;
      }
    }
  }

  /** A key first met after all the listed ones may be listed last. */
  lemma FirstOrderedSnoc<T, K>(xs: seq<T>, key: T -> Option<K>, ks: seq<K>, k: K)
    requires FirstOrdered(xs, key, ks) && Occurs(xs, key, k)
    requires forall a :: 0 <= a < |ks| ==> FirstIndex(xs, key, ks[a]) < FirstIndex(xs, key, k)
    ensures FirstOrdered(xs, key, ks + [k])
  {
    var ks' := ks + [k];
    assert forall a :: 0 <= a < |ks| ==> ks'[a] == ks[a];
  }
}
