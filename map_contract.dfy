/**
 * The abstract contract of the `Map` interface: a finite association in which
 * every key is mapped to exactly one value. The implementation (`OrderedMap.MyMap`)
 * states each of its operations in terms of these functions on its abstract value.
 */
module MapContract {
  import opened Wrappers

  /** `put`: afterwards the key is associated with the value; every other key keeps its value. */
  function Put<K, V>(m: map<K, V>, key: K, value: V): (r: map<K, V>)
    ensures r.Keys == m.Keys + {key}
    ensures r[key] == value
    ensures forall k :: k in m && k != key ==> r[k] == m[k]
  {
    m[key := value]
  }

  /** `get`: the associated value, or `None` (Java `null`) when the key has no mapping. */
  function Get<K, V>(m: map<K, V>, key: K): (r: Option<V>)
    ensures r.None? <==> key !in m
    ensures r.Some? ==> r.value == m[key]
  {
    if key in m then Some(m[key]) else None
  }

  /** `remove`: the mapping for the key is deleted if present; all other mappings stay. */
  function Remove<K, V>(m: map<K, V>, key: K): (r: map<K, V>)
    ensures r.Keys == m.Keys - {key}
    ensures forall k :: k in r ==> r[k] == m[k]
    ensures key !in m ==> r == m
  {
    m - {key}
  }

  /** A `put` is observed by a later `get` of the same key. */
  lemma GetAfterPut<K, V>(m: map<K, V>, key: K, value: V, other: K)
    ensures Get(Put(m, key, value), key) == Some(value)
    ensures other != key ==> Get(Put(m, key, value), other) == Get(m, other)
  {
  }

  /** After `remove`, the key has no mapping and other keys are unaffected. */
  lemma GetAfterRemove<K, V>(m: map<K, V>, key: K, other: K)
    ensures Get(Remove(m, key), key) == None
    ensures other != key ==> Get(Remove(m, key), other) == Get(m, other)
  {
  }
}
