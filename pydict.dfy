/**
 * Python's `dict` as a value: a map together with the order in which its keys
 * were first inserted (the order `items()` and `values()` follow).
 */
module PyDict {

  datatype Dict<K, V> = Dict(keys: seq<K>, vals: map<K, V>)

  /** The key order lists every key of the map exactly once. */
  predicate Valid<K, V>(d: Dict<K, V>)
  {
    && (forall i, j :: 0 <= i < j < |d.keys| ==> d.keys[i] != d.keys[j])
    && d.vals.Keys == set k | k in d.keys
  }

  function Empty<K, V>(): (d: Dict<K, V>)
    ensures Valid(d) && d.vals == map[] && d.keys == []
  {
    Dict([], map[])
  }

  /** `d[k] = v`: an existing key keeps its place, a new key goes last. */
  function SetItem<K, V>(d: Dict<K, V>, k: K, v: V): (r: Dict<K, V>)
    requires Valid(d)
    ensures Valid(r)
    ensures r.vals == d.vals[k := v]
    ensures k in d.vals ==> r.keys == d.keys
    ensures k !in d.vals ==> r.keys == d.keys + [k]
  {
    if k in d.vals then Dict(d.keys, d.vals[k := v]) else Dict(d.keys + [k], d.vals[k := v])
  }

  /** `list(d.values())`. */
  function Values<K, V>(d: Dict<K, V>): (r: seq<V>)
    requires Valid(d)
    ensures |r| == |d.keys|
    ensures forall i :: 0 <= i < |r| ==> r[i] == d.vals[d.keys[i]]
  {
    seq(|d.keys|, i requires 0 <= i < |d.keys| => d.vals[d.keys[i]])
  }

  /** `list(d.items())`. */
  function Items<K, V>(d: Dict<K, V>): (r: seq<(K, V)>)
    requires Valid(d)
    ensures |r| == |d.keys|
    ensures forall i :: 0 <= i < |r| ==> r[i] == (d.keys[i], d.vals[d.keys[i]])
  {
    seq(|d.keys|, i requires 0 <= i < |d.keys| => (d.keys[i], d.vals[d.keys[i]]))
  }

  /** A dict is empty (falsy) exactly when it has no keys. */
  lemma EmptyIffNoKeys<K, V>(d: Dict<K, V>)
    requires Valid(d)
    ensures |d.keys| == 0 <==> d.vals == map[]
  {
    if |d.keys| > 0 {
      assert d.keys[0] in d.vals;
    }
  }

  /** Setting a new key adds its item at the end. */
  lemma ItemsAppend<K, V>(d: Dict<K, V>, k: K, v: V)
    requires Valid(d) && k !in d.vals
    ensures Items(SetItem(d, k, v)) == Items(d) + [(k, v)]
  {
    var r := Items(SetItem(d, k, v));
    forall i | 0 <= i < |d.keys|
      ensures r[i] == Items(d)[i]
    {
      assert d.keys[i] in d.vals;
    }
  }
}
