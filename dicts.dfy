/** Python dicts with string keys, which remember the order in which
    their keys were first inserted. */
module Dicts {

  /** The keys in insertion order, and the entries. */
  datatype Dict<V> = Dict(keys: seq<string>, entries: map<string, V>)

  /** The keys are distinct and are exactly the keys of the entries. */
  predicate WellFormed<V>(d: Dict<V>)
  {
    && (forall i, j :: 0 <= i < j < |d.keys| ==> d.keys[i] != d.keys[j])
    && (forall k :: k in d.keys ==> k in d.entries)
    && (forall k :: k in d.entries ==> k in d.keys)
  }

  function Empty<V>(): (d: Dict<V>)
    ensures WellFormed(d)
  {
    Dict([], map[])
  }

  /** d[k] = v: a new key goes last, a key already present keeps its
      place and only its value changes. */
  function Put<V>(d: Dict<V>, k: string, v: V): Dict<V>
  {
    if k in d.entries then Dict(d.keys, d.entries[k := v]) else Dict(d.keys + [k], d.entries[k := v])
  }

  /** Storing under a key keeps the dict well formed, changes only that
      key's value, and the key order only by appending a key that was not
      there. */
  lemma PutSpec<V>(d: Dict<V>, k: string, v: V)
    requires WellFormed(d)
    ensures WellFormed(Put(d, k, v))
    ensures Put(d, k, v).entries == d.entries[k := v]
    ensures k in d.entries ==> Put(d, k, v).keys == d.keys
    ensures k !in d.entries ==> Put(d, k, v).keys == d.keys + [k]
  {
  }
}
