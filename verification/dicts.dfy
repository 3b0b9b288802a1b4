/**
 * Python dictionaries as the solvers use them: a finite map that also
 * remembers the order in which its keys were first inserted, because
 * iteration over `dict.keys()` / `dict.values()` follows that order.
 */
module Dicts {

  datatype Dict<K(==), V> = Dict(keys: seq<K>, entries: map<K, V>)
  {
    /** The key order lists each key of the map exactly once. */
    predicate Valid()
    {
      (forall i, j :: 0 <= i < j < |keys| ==> keys[i] != keys[j])
      && (forall k :: k in entries ==> k in keys)
      && (forall i :: 0 <= i < |keys| ==> keys[i] in entries)
    }

    /** `d.get(k, default)`, which is also what reading a `defaultdict` returns. */
    function Get(k: K, default: V): V
    {
      if k in entries then entries[k] else default
    }

    /** `d[k] = v`: a new key goes to the end of the order, an existing key keeps its place. */
    function Put(k: K, v: V): (r: Dict<K, V>)
      ensures r.entries == entries[k := v]
      ensures k in entries ==> r.keys == keys
      ensures k !in entries ==> r.keys == keys + [k]
      ensures Valid() ==> r.Valid()
    {
      if k in entries then Dict(keys, entries[k := v]) else Dict(keys + [k], entries[k := v])
    }

    /** The values in key order, as `d.values()` yields them. */
    function Values(): (r: seq<V>)
      requires Valid()
      ensures |r| == |keys|
      ensures forall i :: 0 <= i < |keys| ==> r[i] == entries[keys[i]]
    {
      ValuesOf(keys)
    }

    function ValuesOf(ks: seq<K>): (r: seq<V>)
      requires forall k :: k in ks ==> k in entries
      ensures |r| == |ks|
      ensures forall i :: 0 <= i < |ks| ==> r[i] == entries[ks[i]]
    {
      if |ks| == 0 then [] else ValuesOf(ks[..|ks| - 1]) + [entries[ks[|ks| - 1]]]
    }
  }

  function Empty<K(==), V>(): (r: Dict<K, V>)
    ensures r.Valid() && |r.keys| == 0 && r.entries == map[]
  {
    Dict([], map[])
  }
}
