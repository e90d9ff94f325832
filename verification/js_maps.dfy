/**
 * A JavaScript `Map`: a finite map that also remembers the order in which its keys were first
 * inserted, which is the order `forEach` and `entries()` visit them in. Setting an existing key
 * keeps its position; deleting a key and setting it again moves it to the end.
 */
module JsMaps {

  ghost predicate NoDup<K>(s: seq<K>) {
    forall i, j :: 0 <= i < j < |s| ==> s[i] != s[j]
  }

  datatype JsMap<K(!new), V> = JsMap(keys: seq<K>, m: map<K, V>)

  /** The keys list holds every key of the map exactly once, and nothing else. */
  ghost predicate Coherent<K(!new), V>(j: JsMap<K, V>) {
    NoDup(j.keys) && forall k :: k in j.keys <==> k in j.m
  }

  type OrderedMap<K(!new), V> = j: JsMap<K, V> | Coherent(j) witness JsMap([], map[])

  function Empty<K(!new), V>(): (e: OrderedMap<K, V>)
    ensures e.m == map[] && e.keys == []
  {
    JsMap([], map[])
  }

  /** `s` without any occurrence of `k`, order kept (Array.prototype.filter). */
  function Without<K(==, !new)>(s: seq<K>, k: K): (r: seq<K>)
    ensures |r| <= |s|
  {
    if s == [] then []
    else if s[|s| - 1] == k then Without(s[..|s| - 1], k)
    else Without(s[..|s| - 1], k) + [s[|s| - 1]]
  }

  /** Filtering keeps exactly the elements other than `k`. */
  lemma {:induction false} WithoutMembers<K(!new)>(s: seq<K>, k: K)
    ensures forall x :: x in Without(s, k) <==> x in s && x != k
  {
    if s != [] {
      WithoutMembers(s[..|s| - 1], k);
      assert s == s[..|s| - 1] + [s[|s| - 1]];
    }
  }

  lemma {:induction false} WithoutNoDup<K(!new)>(s: seq<K>, k: K)
    requires NoDup(s)
    ensures NoDup(Without(s, k))
    ensures forall x :: x in Without(s, k) <==> x in s && x != k
  {
    WithoutMembers(s, k);
    if s != [] {
      var init := s[..|s| - 1];
      assert NoDup(init);
      WithoutNoDup(init, k);
      if s[|s| - 1] != k {
        assert s[|s| - 1] !in init;
        assert s[|s| - 1] !in Without(init, k);
      }
    }
  }

  /** `Map.prototype.set`. */
  function Put<K(!new), V>(j: OrderedMap<K, V>, k: K, v: V): (r: OrderedMap<K, V>)
    ensures r.m == j.m[k := v]
    ensures k in j.m ==> r.keys == j.keys
    ensures k !in j.m ==> r.keys == j.keys + [k]
  {
    var keys := if k in j.m then j.keys else j.keys + [k];
    assert NoDup(keys);
    JsMap(keys, j.m[k := v])
  }

  /** `Map.prototype.delete`. */
  function Delete<K(==, !new), V>(j: OrderedMap<K, V>, k: K): (r: OrderedMap<K, V>)
    ensures r.m == j.m - {k}
    ensures k !in j.m ==> r == j
  {
    WithoutNoDup(j.keys, k);
    if k in j.m then JsMap(Without(j.keys, k), j.m - {k})
    else
      assert j.m - {k} == j.m;
      j
  }

  /** A duplicate-free list is as long as the set of its elements is large. */
  lemma {:induction false} NoDupCard<K(!new)>(s: seq<K>)
    requires NoDup(s)
    ensures |set x | x in s| == |s|
  {
    if s != [] {
      var init := s[..|s| - 1];
      assert NoDup(init);
      NoDupCard(init);
      assert (set x | x in s) == (set x | x in init) + {s[|s| - 1]};
      assert s[|s| - 1] !in init;
    }
  }

  /** The keys list is exactly as long as the map is large. */
  lemma SizeIsLength<K(!new), V>(j: OrderedMap<K, V>)
    ensures |j.m| == |j.keys|
  {
    NoDupCard(j.keys);
    assert (set x | x in j.keys) == j.m.Keys;
  }
}
