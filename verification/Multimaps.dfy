/** A multimap as a map from keys to the sequence of values inserted under each, and its agreement with
    the reverse map from values to keys. */
module Multimaps {
  type Multimap<!K(==), +V> = map<K, seq<V>>

  /** `equal_range` of the multimap. */
  function Bucket<K(==), V>(index: Multimap<K, V>, key: K): seq<V> { if key in index then index[key] else [] }

  ghost predicate NoRepeats<V>(s: seq<V>) { forall i, j | 0 <= i < j < |s| :: s[i] != s[j] }

  /** The multimap holds exactly one pair per value, under the key the reverse map names. */
  ghost predicate Agrees<K(!new), V(!new)>(index: Multimap<K, V>, keyOf: map<V, K>) {
    && (forall key :: NoRepeats(Bucket(index, key)))
    && (forall key, i {:trigger i in Bucket(index, key)} :: i in Bucket(index, key) <==> i in keyOf && keyOf[i] == key)
  }

  function Without<V(==)>(s: seq<V>, i: V): (r: seq<V>)
    ensures forall x | x in r :: x in s && x != i
    ensures forall x | x in s && x != i :: x in r
  {
    if s == [] then [] else (if s[0] == i then [] else [s[0]]) + Without(s[1..], i)
  }

  lemma WithoutKeepsOrder<V>(s: seq<V>, i: V)
    requires NoRepeats(s)
    ensures NoRepeats(Without(s, i))
  {
    if s != [] {
      WithoutKeepsOrder(s[1..], i);
      var rest := Without(s[1..], i);
      assert s[0] !in rest by {
        assert forall k | 0 < k < |s| :: s[k] != s[0];
        assert forall x | x in s[1..] :: x != s[0];
      }
      assert NoRepeats([s[0]] + rest);
    }
  }

  function Replaced<V(==)>(s: seq<V>, i: V, j: V): (r: seq<V>)
    ensures |r| == |s| && forall k | 0 <= k < |s| :: r[k] == if s[k] == i then j else s[k]
  {
    if s == [] then [] else [if s[0] == i then j else s[0]] + Replaced(s[1..], i, j)
  }

  lemma RemovedAgrees<K(!new), V(!new)>(index: Multimap<K, V>, keyOf: map<V, K>, i: V)
    requires Agrees(index, keyOf) && i in keyOf
    ensures Agrees(index[keyOf[i] := Without(Bucket(index, keyOf[i]), i)], keyOf - {i})
  {
    WithoutKeepsOrder(Bucket(index, keyOf[i]), i);
    var index' := index[keyOf[i] := Without(Bucket(index, keyOf[i]), i)];
    forall key ensures NoRepeats(Bucket(index', key)) {
      if key != keyOf[i] { assert Bucket(index', key) == Bucket(index, key); }
    }
    forall key, x ensures x in Bucket(index', key) <==> x in keyOf - {i} && keyOf[x] == key {
      if key != keyOf[i] { assert Bucket(index', key) == Bucket(index, key); }
    }
  }

  lemma AddedAgrees<K(!new), V(!new)>(index: Multimap<K, V>, keyOf: map<V, K>, i: V, key: K)
    requires Agrees(index, keyOf) && i !in keyOf
    ensures Agrees(index[key := Bucket(index, key) + [i]], keyOf[i := key])
  {
    var index' := index[key := Bucket(index, key) + [i]];
    forall k ensures NoRepeats(Bucket(index', k)) {
      if k != key { assert Bucket(index', k) == Bucket(index, k); } else { assert i !in Bucket(index, key); }
    }
    forall k, x ensures x in Bucket(index', k) <==> x in keyOf[i := key] && keyOf[i := key][x] == k {
      if k != key { assert Bucket(index', k) == Bucket(index, k); }
    }
  }

  lemma RenamedAgrees<K(!new), V(!new)>(index: Multimap<K, V>, keyOf: map<V, K>, i: V, j: V)
    requires Agrees(index, keyOf) && i in keyOf && j !in keyOf
    ensures Agrees(index[keyOf[i] := Replaced(Bucket(index, keyOf[i]), i, j)], (keyOf - {i})[j := keyOf[i]])
  {
    var key := keyOf[i];
    var bucket, bucket' := Bucket(index, key), Replaced(Bucket(index, key), i, j);
    var index', keyOf' := index[key := bucket'], (keyOf - {i})[j := key];
    assert i in bucket && j !in bucket;
    forall k ensures NoRepeats(Bucket(index', k)) {
      if k != key { assert Bucket(index', k) == Bucket(index, k); } else { assert NoRepeats(bucket); }
    }
    forall k, x ensures x in Bucket(index', k) <==> x in keyOf' && keyOf'[x] == k {
      if k != key {
        assert Bucket(index', k) == Bucket(index, k);
        assert j !in Bucket(index, k);
      } else {
        RenamedMembers(bucket, i, j, x);
      }
    }
  }

  lemma RenamedMembers<V>(s: seq<V>, i: V, j: V, x: V)
    requires i in s && j !in s
    ensures x in Replaced(s, i, j) <==> x == j || (x in s && x != i)
  {
    var r := Replaced(s, i, j);
    if x in s && x != i {
      var k :| 0 <= k < |s| && s[k] == x;
      assert r[k] == x;
    }
    if x == j {
      var k :| 0 <= k < |s| && s[k] == i;
      assert r[k] == j;
    }
  }

  /** The loop that erases a value from a bucket. */
  method EraseFrom<V(==)>(bucket: seq<V>, value: V) returns (kept: seq<V>)
    ensures kept == Without(bucket, value)
  {
    kept := [];
    var n := 0;
    while n < |bucket|
      invariant 0 <= n <= |bucket|
      invariant kept + Without(bucket[n..], value) == Without(bucket, value)
    {
      WithoutFrom(bucket, n, value);
      if bucket[n] != value {
        assert kept + [bucket[n]] + Without(bucket[n + 1..], value) == kept + ([bucket[n]] + Without(bucket[n + 1..], value));
        kept := kept + [bucket[n]];
      }
      n := n + 1;
    }
    assert Without(bucket[n..], value) == [] by {
      assert bucket[n..] == [];
    }
  }

  lemma WithoutFrom<V>(bucket: seq<V>, n: nat, value: V)
    requires n < |bucket|
    ensures Without(bucket[n..], value)
            == (if bucket[n] == value then [] else [bucket[n]]) + Without(bucket[n + 1..], value)
  {
    assert bucket[n..][1..] == bucket[n + 1..];
  }

  /** The loop that renames a value in a bucket. */
  method RenameIn<V(==)>(bucket: seq<V>, previous: V, canonical: V) returns (renamed: seq<V>)
    ensures renamed == Replaced(bucket, previous, canonical)
  {
    renamed := [];
    var n := 0;
    while n < |bucket|
      invariant 0 <= n <= |bucket| && |renamed| == n
      invariant forall k | 0 <= k < n :: renamed[k] == if bucket[k] == previous then canonical else bucket[k]
    {
      renamed := renamed + [if bucket[n] == previous then canonical else bucket[n]];
      n := n + 1;
    }
  }
}
