/** A JavaScript `Map` with string keys. A `Map` remembers insertion order:
    `set` on a new key appends it, `set` on a present key replaces the value
    in place, `delete` drops the key, and `values()` walks the keys in that
    order. */
module JsMap {
  import opened Wrappers

  datatype OrderedMap<V> = OrderedMap(keys: seq<string>, items: map<string, V>) {

    /** The key order lists every present key exactly once. */
    ghost predicate Valid() {
      && Distinct(keys)
      && (forall k :: k in items <==> k in keys)
    }
  }

  /** `new Map()`. */
  function Empty<V>(): (m: OrderedMap<V>)
    ensures m.Valid() && m.items == map[] && m.keys == []
  {
    OrderedMap([], map[])
  }

  /** `map.get(k)`. */
  function Get<V>(m: OrderedMap<V>, k: string): (r: Option<V>)
    ensures r.Some? <==> k in m.items
    ensures r.Some? ==> r.value == m.items[k]
  {
    if k in m.items then Some(m.items[k]) else None
  }

  /** `map.set(k, v)`: the value under `k` becomes `v`; a new key goes last,
      a present key keeps its place. */
  function Set<V>(m: OrderedMap<V>, k: string, v: V): (r: OrderedMap<V>)
    requires m.Valid()
    ensures r.Valid()
    ensures r.items == m.items[k := v]
    ensures r.keys == if k in m.items then m.keys else m.keys + [k]
  {
    if k in m.items then OrderedMap(m.keys, m.items[k := v])
    else OrderedMap(m.keys + [k], m.items[k := v])
  }

  /** The key order with `k` taken out, the rest in order. */
  function Without(keys: seq<string>, k: string): (r: seq<string>)
    ensures forall x :: x in r <==> x in keys && x != k
    ensures k !in keys ==> r == keys
  {
    if keys == [] then []
    else if keys[0] == k then Without(keys[1..], k)
    else [keys[0]] + Without(keys[1..], k)
  }

  /** No key appears twice. */
  ghost predicate Distinct(keys: seq<string>) {
    forall i, j :: 0 <= i < j < |keys| ==> keys[i] != keys[j]
  }

  /** A key not in a distinct order can go in front of it. */
  lemma ConsDistinct(x: string, rest: seq<string>)
    requires Distinct(rest) && x !in rest
    ensures Distinct([x] + rest)
  {
    var r := [x] + rest;
    forall i, j | 0 <= i < j < |r| ensures r[i] != r[j] {
      assert r[j] == rest[j - 1];
      if i > 0 {
        assert r[i] == rest[i - 1];
      }
    }
  }

  /** Dropping the first key keeps the order distinct, and the first key
      does not come back. */
  lemma TailDistinct(keys: seq<string>)
    requires keys != [] && Distinct(keys)
    ensures Distinct(keys[1..]) && keys[0] !in keys[1..]
  {
    var tail := keys[1..];
    forall i, j | 0 <= i < j < |tail| ensures tail[i] != tail[j] {
      assert tail[i] == keys[i + 1] && tail[j] == keys[j + 1];
    }
  }

  lemma {:induction false} WithoutDistinct(keys: seq<string>, k: string)
    requires Distinct(keys)
    ensures Distinct(Without(keys, k))
  {
    if keys != [] {
      TailDistinct(keys);
      WithoutDistinct(keys[1..], k);
      if keys[0] != k {
        ConsDistinct(keys[0], Without(keys[1..], k));
      }
    }
  }

  /** `map.delete(k)`: `k` is gone; every other key keeps its value and its place. */
  function Delete<V>(m: OrderedMap<V>, k: string): (r: OrderedMap<V>)
    requires m.Valid()
    ensures r.Valid()
    ensures r.items == m.items - {k}
    ensures r.keys == Without(m.keys, k)
  {
    WithoutDistinct(m.keys, k);
    OrderedMap(Without(m.keys, k), m.items - {k})
  }

  /** `Array.from(map.values())`: the values in key order. */
  function Values<V>(m: OrderedMap<V>): (r: seq<V>)
    requires m.Valid()
    ensures |r| == |m.keys|
    ensures forall i :: 0 <= i < |r| ==> r[i] == m.items[m.keys[i]]
  {
    seq(|m.keys|, i requires 0 <= i < |m.keys| => m.items[m.keys[i]])
  }

  /** Setting a key twice keeps only the second value: the first set is overwritten. */
  lemma SetTwice<V>(m: OrderedMap<V>, k: string, a: V, b: V)
    requires m.Valid()
    ensures Set(Set(m, k, a), k, b) == Set(m, k, b)
  {
  }

  /** Setting or deleting one key leaves what `get` returns for every other key. */
  lemma OthersUnchanged<V>(m: OrderedMap<V>, k: string, v: V, other: string)
    requires m.Valid() && other != k
    ensures Get(Set(m, k, v), other) == Get(m, other)
    ensures Get(Delete(m, k), other) == Get(m, other)
  {
  }
}
