/**
 This module models the JavaScript `Map` the broker and the session store are built on:
 a finite map that also remembers the order in which its keys were first inserted.
 Overwriting an existing key keeps the key's position; deleting a key drops it from the
 order; a new key goes to the end. Iteration (`for ... of`, `entries()`, `values()`)
 follows that order, which is why the order is part of the model.
 */
module OrderedMaps {

  /** No element of `s` occurs twice. */
  ghost predicate Distinct<K>(s: seq<K>) {
    forall i, j :: 0 <= i < j < |s| ==> s[i] != s[j]
  }

  /** `a` is `b` with some elements dropped: the elements of `a` occur in `b` in the same order. */
  ghost predicate Subsequence<K>(a: seq<K>, b: seq<K>)
    decreases |b|
  {
    if a == [] then true
    else if b == [] then false
    else if a[|a| - 1] == b[|b| - 1] then Subsequence(a[..|a| - 1], b[..|b| - 1])
    else Subsequence(a, b[..|b| - 1])
  }

  /** `s` with every occurrence of `k` removed; the other elements keep their order. */
  function Without<K(==,!new)>(s: seq<K>, k: K): (r: seq<K>)
    ensures forall x :: x in r <==> x in s && x != k
    ensures Distinct(s) ==> Distinct(r)
    ensures k !in s ==> r == s
    ensures Distinct(s) && k in s ==> |r| == |s| - 1
  {
    if s == [] then []
    else if s[0] == k then
      var rest := Without(s[1..], k);
      assert Distinct(s) ==> k !in s[1..];
      rest
    else
      var rest := Without(s[1..], k);
      assert Distinct(s) ==> s[0] !in s[1..];
      [s[0]] + rest
  }

  /** Removing an element that sits between two parts which do not contain it. */
  lemma {:induction false} WithoutMiddle<K(!new)>(a: seq<K>, k: K, b: seq<K>)
    requires k !in a && k !in b
    ensures Without(a + [k] + b, k) == a + b
  {
    if a == [] {
      assert a + [k] + b == [k] + b;
      assert ([k] + b)[1..] == b;
    } else {
      var s := a + [k] + b;
      assert s[0] == a[0] != k;
      assert s[1..] == a[1..] + [k] + b;
      calc {
        Without(s, k);
        [a[0]] + Without(a[1..] + [k] + b, k);
        { WithoutMiddle(a[1..], k, b); }
        [a[0]] + (a[1..] + b);
        a + b;
      }
    }
  }

  /** The tail of a sequence without repetitions has none either. */
  lemma DistinctTail<K>(ks: seq<K>)
    requires Distinct(ks) && ks != []
    ensures Distinct(ks[1..]) && ks[0] !in ks[1..]
  {
    forall i, j | 0 <= i < j < |ks[1..]| ensures ks[1..][i] != ks[1..][j] {
      assert ks[1..][i] == ks[i + 1] && ks[1..][j] == ks[j + 1];
    }
  }

  /** A sequence without repetitions has as many elements as its set of elements. */
  lemma {:induction false} DistinctCardinality<K>(s: seq<K>)
    requires Distinct(s)
    ensures |set x | x in s| == |s|
  {
    if s != [] {
      var tail := s[1..];
      assert Distinct(tail);
      DistinctCardinality(tail);
      assert s[0] !in tail;
      assert (set x | x in s) == (set x | x in tail) + {s[0]};
    }
  }

  /** An insertion-ordered finite map: `keys` is the iteration order, `entries` the contents. */
  datatype OMap<K(==,!new), V> = OMap(keys: seq<K>, entries: map<K, V>) {

    /** The order lists each key of the contents exactly once. */
    ghost predicate Valid() {
      && Distinct(keys)
      && (forall k :: k in entries <==> k in keys)
    }

    predicate Has(k: K) {
      k in entries
    }

    function Get(k: K): V
      requires Has(k)
    {
      entries[k]
    }

    /** The number of entries (`Map.prototype.size`). */
    function Size(): (n: nat)
      requires Valid()
      ensures n == |entries|
      ensures n == 0 <==> entries == map[]
    {
      DistinctCardinality(keys);
      assert entries.Keys == set x | x in keys;
      |keys|
    }

    /** `Map.prototype.set`: overwrite or insert `k`, keeping the position of an existing key. */
    function Set(k: K, v: V): (r: OMap<K, V>)
      requires Valid()
      ensures r.Valid()
      ensures r.entries == entries[k := v]
      ensures Has(k) ==> r.keys == keys
      ensures !Has(k) ==> r.keys == keys + [k]
    {
      if k in entries then OMap(keys, entries[k := v])
      else
        var r := OMap(keys + [k], entries[k := v]);
        assert forall x :: x in r.keys <==> x in keys || x == k;
        r
    }

    /** `Map.prototype.delete`: remove `k` from the contents and from the order. */
    function Delete(k: K): (r: OMap<K, V>)
      requires Valid()
      ensures r.Valid()
      ensures r.entries == entries - {k}
      ensures r.keys == Without(keys, k)
      ensures forall x :: x in r.keys <==> x in keys && x != k
      ensures !Has(k) ==> r == this
    {
      var r := OMap(Without(keys, k), entries - {k});
      assert !Has(k) ==> r.entries == entries;
      r
    }

    /** The values in iteration order (`Map.prototype.values`). */
    function Values(): (vs: seq<V>)
      requires Valid()
      ensures |vs| == |keys|
      ensures forall i :: 0 <= i < |keys| ==> vs[i] == entries[keys[i]]
    {
      ValuesOf(keys, entries)
    }
  }

  /** The map with no entries. */
  function Empty<K(==,!new), V>(): (r: OMap<K, V>)
    ensures r.Valid() && r.entries == map[]
  {
    OMap([], map[])
  }

  /** The values stored under `ks`, in the order of `ks`. */
  function ValuesOf<K, V>(ks: seq<K>, m: map<K, V>): (vs: seq<V>)
    requires forall k :: k in ks ==> k in m
    ensures |vs| == |ks|
    ensures forall i :: 0 <= i < |ks| ==> vs[i] == m[ks[i]]
  {
    if ks == [] then [] else [m[ks[0]]] + ValuesOf(ks[1..], m)
  }
}
