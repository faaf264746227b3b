/**
 * `MyMap`: an insertion-ordered map kept as two parallel lists, `keys` and
 * `values`, where the value at index i belongs to the key at index i.
 * Lookups are linear scans for the first equal key.
 */
module OrderedMap {
  import opened Wrappers
  import opened Lists
  import MapContract

  /** No key occurs twice. */
  predicate Distinct<K(==)>(s: seq<K>) {
    forall i, j :: 0 <= i < j < |s| ==> s[i] != s[j]
  }

  /** Maps with the same keys and the same value at every key are equal. */
  lemma MapExtensionality<K, V>(a: map<K, V>, b: map<K, V>)
    requires a.Keys == b.Keys
    requires forall k :: k in a ==> a[k] == b[k]
    ensures a == b
  {
  }

  /** Specification of `List.indexOf`: the first index holding `k`, or -1. */
  function FirstIndex<K(==)>(s: seq<K>, k: K): (i: int)
    ensures -1 <= i < |s|
    ensures i == -1 <==> k !in s
    ensures 0 <= i ==> s[i] == k && k !in s[..i]
  {
    if |s| == 0 then -1
    else if s[0] == k then 0
    else
      var j := FirstIndex(s[1..], k);
      assert s[1..][..if j < 0 then 0 else j] == s[1..1 + if j < 0 then 0 else j];
      if j == -1 then -1 else j + 1
  }

  /** `List.indexOf`: a linear scan from the front. */
  method IndexOf<K(==)>(s: seq<K>, k: K) returns (i: int)
    ensures i == FirstIndex(s, k)
  {
    i := 0;
    while i < |s|
      invariant 0 <= i <= |s|
      invariant k !in s[..i]
    {
      if s[i] == k {
        return;
      }
      i := i + 1;
    }
    i := -1;
  }

  /** In a list without repetitions, the first index of the element at `i` is `i`. */
  lemma FirstIndexOfDistinct<K>(s: seq<K>, i: nat)
    requires Distinct(s) && i < |s|
    ensures FirstIndex(s, s[i]) == i
  {
  }

  /** The association the two parallel lists denote: each key goes to the value at its first index. */
  ghost function AsMap<K, V>(ks: seq<K>, vs: seq<V>): (m: map<K, V>)
    requires |ks| == |vs|
    ensures m.Keys == set k | k in ks
  {
    map k | k in ks :: vs[FirstIndex(ks, k)]
  }

  /** With distinct keys, every position of the lists is one entry of the map. */
  lemma AsMapAt<K, V>(ks: seq<K>, vs: seq<V>, i: nat)
    requires |ks| == |vs| && Distinct(ks) && i < |ks|
    ensures ks[i] in AsMap(ks, vs) && AsMap(ks, vs)[ks[i]] == vs[i]
  {
    FirstIndexOfDistinct(ks, i);
  }

  /** Overwriting the value at a key's index is `put` on the abstract map. */
  lemma AsMapUpdate<K, V>(ks: seq<K>, vs: seq<V>, i: nat, v: V)
    requires |ks| == |vs| && Distinct(ks) && i < |ks|
    ensures AsMap(ks, vs[i := v]) == MapContract.Put(AsMap(ks, vs), ks[i], v)
  {
    var before, after := AsMap(ks, vs), AsMap(ks, vs[i := v]);
    var expected := MapContract.Put(before, ks[i], v);
    assert after.Keys == expected.Keys;
    forall k | k in after
      ensures after[k] == expected[k]
    {
      var j := FirstIndex(ks, k);
      FirstIndexOfDistinct(ks, i);
    }
    MapExtensionality(after, expected);
  }

  /** Appending to a list leaves the first index of every element already in it where it was. */
  lemma FirstIndexAppend<K>(ks: seq<K>, k: K, x: K)
    requires x in ks + [k]
    ensures FirstIndex(ks + [k], x) == if x in ks then FirstIndex(ks, x) else |ks|
  {
    if x in ks {
      var j := FirstIndex(ks, x);
      assert (ks + [k])[..j] == ks[..j];
    } else {
      assert (ks + [k])[..|ks|] == ks;
    }
  }

  /** Appending a new key and its value is `put` on the abstract map. */
  lemma AsMapAppend<K, V>(ks: seq<K>, vs: seq<V>, k: K, v: V)
    requires |ks| == |vs| && k !in ks
    ensures AsMap(ks + [k], vs + [v]) == MapContract.Put(AsMap(ks, vs), k, v)
  {
    var before, after := AsMap(ks, vs), AsMap(ks + [k], vs + [v]);
    var expected := MapContract.Put(before, k, v);
    assert after.Keys == expected.Keys;
    forall x | x in after
      ensures after[x] == expected[x]
    {
      FirstIndexAppend(ks, k, x);
    }
    MapExtensionality(after, expected);
  }

  /** Deleting one position of a list without repetitions removes exactly that element. */
  lemma DistinctRemoveAt<K>(ks: seq<K>, i: nat)
    requires Distinct(ks) && i < |ks|
    ensures Distinct(RemoveAt(ks, i))
    ensures forall x :: x in RemoveAt(ks, i) <==> x in ks && x != ks[i]
  {
    var ks' := RemoveAt(ks, i);
    forall x | x in ks'
      ensures x in ks && x != ks[i]
    {
      var a := FirstIndex(ks', x);
      assert x == ks[if a < i then a else a + 1];
    }
    forall x | x in ks && x != ks[i]
      ensures x in ks'
    {
      var b := FirstIndex(ks, x);
      assert x == ks'[if b < i then b else b - 1];
    }
  }

  /** A key left after deleting position `i` from both lists keeps its value. */
  lemma AsMapRemoveAtValue<K, V>(ks: seq<K>, vs: seq<V>, i: nat, x: K)
    requires |ks| == |vs| && Distinct(ks) && i < |ks| && x in RemoveAt(ks, i)
    ensures x in AsMap(ks, vs)
    ensures AsMap(RemoveAt(ks, i), RemoveAt(vs, i))[x] == AsMap(ks, vs)[x]
  {
    var ks', vs' := RemoveAt(ks, i), RemoveAt(vs, i);
    DistinctRemoveAt(ks, i);
    var a := FirstIndex(ks', x);
    var b := if a < i then a else a + 1;
    AsMapAt(ks, vs, b);
    AsMapAt(ks', vs', a);
  }

  /** Deleting position `i` from both lists removes exactly the key at `i` from the abstract map's keys. */
  lemma AsMapRemoveAtKeys<K, V>(ks: seq<K>, vs: seq<V>, i: nat)
    requires |ks| == |vs| && Distinct(ks) && i < |ks|
    ensures AsMap(RemoveAt(ks, i), RemoveAt(vs, i)).Keys == AsMap(ks, vs).Keys - {ks[i]}
  {
    DistinctRemoveAt(ks, i);
  }

  /** Deleting position `i` from both lists is `remove` of that key on the abstract map. */
  lemma AsMapRemoveAt<K, V>(ks: seq<K>, vs: seq<V>, i: nat)
    requires |ks| == |vs| && Distinct(ks) && i < |ks|
    ensures Distinct(RemoveAt(ks, i))
    ensures AsMap(RemoveAt(ks, i), RemoveAt(vs, i)) == MapContract.Remove(AsMap(ks, vs), ks[i])
  {
    DistinctRemoveAt(ks, i);
    var after := AsMap(RemoveAt(ks, i), RemoveAt(vs, i));
    var expected := MapContract.Remove(AsMap(ks, vs), ks[i]);
    AsMapRemoveAtKeys(ks, vs, i);
    forall x | x in after
      ensures after[x] == expected[x]
    {
      AsMapRemoveAtValue(ks, vs, i, x);
    }
    MapExtensionality(after, expected);
  }

  class MyMap<K(==), V> {
    var keys: seq<K>
    var values: seq<V>

    /** The lists are parallel and no key is repeated. */
    ghost predicate Valid()
      reads this
    {
      |keys| == |values| && Distinct(keys)
    }

    /** The abstract map this object stands for. */
    ghost function Model(): map<K, V>
      reads this
      requires Valid()
    {
      AsMap(keys, values)
    }

    constructor ()
      ensures Valid()
      ensures keys == [] && values == []
      ensures Model() == map[]
    {
      keys := [];
      values := [];
    }

    /** `put`: overwrite in place when the key is present, append the pair otherwise. */
    method Put(key: K, value: V)
      requires Valid()
      modifies this
      ensures Valid()
      ensures Model() == MapContract.Put(old(Model()), key, value)
      ensures key in old(keys) ==>
                keys == old(keys) && values == old(values)[FirstIndex(old(keys), key) := value]
      ensures key !in old(keys) ==>
                keys == old(keys) + [key] && values == old(values) + [value]
    {
      var index := IndexOf(keys, key);
      if index == -1 {
        AsMapAppend(keys, values, key, value);
        keys := keys + [key];
        values := values + [value];
      } else {
        AsMapUpdate(keys, values, index, value);
        values := values[index := value];
      }
    }

    /** `get`: the value at the key's index, or `None` when the key is absent. */
    method Get(key: K) returns (r: Option<V>)
      requires Valid()
      ensures r == MapContract.Get(Model(), key)
      ensures key in keys ==> r == Some(values[FirstIndex(keys, key)])
    {
      var index := IndexOf(keys, key);
      if index == -1 {
        return None;
      }
      AsMapAt(keys, values, index);
      return Some(values[index]);
    }

    /** `keys`: a copy of the key list, in insertion order; it lists every key of the map. */
    method Keys() returns (ks: seq<K>)
      requires Valid()
      ensures ks == keys
      ensures forall k :: k in ks <==> k in Model()
    {
      ks := keys;
    }

    /** `getValues`: the value list, in the same order as the keys. */
    method GetValues() returns (vs: seq<V>)
      requires Valid()
      ensures vs == values && |vs| == |keys|
      ensures forall i :: 0 <= i < |vs| ==> Model()[keys[i]] == vs[i]
    {
      vs := values;
      forall i | 0 <= i < |vs|
        ensures Model()[keys[i]] == vs[i]
      {
        AsMapAt(keys, values, i);
      }
    }

    /** `remove`: delete the pair at the key's index if the key is present. */
    method Remove(key: K)
      requires Valid()
      modifies this
      ensures Valid()
      ensures Model() == MapContract.Remove(old(Model()), key)
      ensures key !in old(keys) ==> keys == old(keys) && values == old(values)
      ensures key in old(keys) ==>
                var i := FirstIndex(old(keys), key);
                keys == RemoveAt(old(keys), i) && values == RemoveAt(old(values), i)
    {
      var index := IndexOf(keys, key);
      if index != -1 {
        AsMapRemoveAt(keys, values, index);
        keys := RemoveAt(keys, index);
        values := RemoveAt(values, index);
      }
    }

    /** `isEmpty`: no keys, equivalently an empty abstract map. */
    method IsEmpty() returns (b: bool)
      requires Valid()
      ensures b <==> keys == []
      ensures b <==> Model() == map[]
    {
      b := |keys| == 0;
      if !b {
        assert keys[0] in Model();
      }
    }
  }
}
