/**
 * A JavaScript `Map`: a finite map that remembers insertion order. Setting an
 * existing key keeps its position; deleting a key and setting it again moves it
 * to the end. Keys are strings (socket ids and user ids). `Array.from(m.values())` and `Array.from(m.keys())` follow this order.
 */
module JsMaps {
  import opened Wrappers
  import opened Seqs

  type Key = string

  datatype JsMap<V> = JsMap(keys: seq<Key>, entries: map<Key, V>) {

    /** The order lists every key exactly once. */
    ghost predicate Valid() {
      Distinct(keys) && (forall k :: k in entries <==> k in keys)
    }

    predicate Has(k: Key) {
      k in entries
    }

    /** `m.get(k)`. */
    function Get(k: Key): Option<V> {
      if k in entries then Some(entries[k]) else None
    }

    /** `m.set(k, v)`. */
    function Set(k: Key, v: V): (r: JsMap<V>)
      ensures Valid() ==> r.Valid()
      ensures r.entries == entries[k := v]
    {
      JsMap(if k in entries then keys else keys + [k], entries[k := v])
    }

    /** `m.delete(k)`. */
    function Delete(k: Key): (r: JsMap<V>)
      ensures Valid() ==> r.Valid()
      ensures r.entries == map j | j in entries && j != k :: entries[j]
    {
      var ks := Filter(keys, j => j != k);
      FilterDistinct(keys, j => j != k);
      JsMap(ks, map j | j in entries && j != k :: entries[j])
    }

    /** `Array.from(m.values())`, in insertion order. */
    function Values(): (r: seq<V>)
      ensures Valid() ==> |r| == |keys| && forall i :: 0 <= i < |keys| ==> r[i] == entries[keys[i]]
    {
      ValuesOf(keys, entries)
    }

    function Size(): nat {
      |keys|
    }
  }

  /** The values of the keys `ks` that are present in `m`, in the order of `ks`. */
  function ValuesOf<V>(ks: seq<Key>, m: map<Key, V>): (r: seq<V>)
    ensures |r| <= |ks|
    ensures (forall k :: k in ks ==> k in m) ==> |r| == |ks| && forall i :: 0 <= i < |ks| ==> r[i] == m[ks[i]]
  {
    if ks == [] then []
    else
      var rest := ValuesOf(ks[1..], m);
      assert forall k :: k in ks[1..] ==> k in ks;
      (if ks[0] in m then [m[ks[0]]] else []) + rest
  }

  /**
   * `Array.from(owner.keys()).map(k => m.get(owner.get(k))).filter(Boolean)`: each key of
   * `ks` followed through `owner` into `m`, in the order of `ks`, the ones that do not
   * resolve dropped.
   */
  function Resolve<V(==,!new)>(ks: seq<Key>, owner: map<Key, Key>, m: map<Key, V>): (r: seq<V>)
    ensures |r| <= |ks|
    ensures forall c :: c in r <==> exists k :: k in ks && k in owner && owner[k] in m && m[owner[k]] == c
    ensures (forall k :: k in ks ==> k in owner && owner[k] in m) ==>
              |r| == |ks| && forall i :: 0 <= i < |ks| ==> r[i] == m[owner[ks[i]]]
  {
    if ks == [] then []
    else
      var rest := Resolve(ks[1..], owner, m);
      assert forall k :: k in ks <==> k == ks[0] || k in ks[1..];
      if ks[0] in owner && owner[ks[0]] in m then [m[owner[ks[0]]]] + rest else rest
  }

  /** The empty map. */
  function Empty<V>(): (r: JsMap<V>)
    ensures r.Valid() && r.entries == map[]
  {
    JsMap([], map[])
  }

  /** Reading back a key just set gives its value; every other key is unaffected. */
  lemma GetAfterSet<V>(m: JsMap<V>, k: Key, v: V, j: Key)
    ensures m.Set(k, v).Get(j) == if j == k then Some(v) else m.Get(j)
  {
  }

  /** A deleted key reads as absent; every other key is unaffected. */
  lemma GetAfterDelete<V>(m: JsMap<V>, k: Key, j: Key)
    ensures m.Delete(k).Get(j) == if j == k then None else m.Get(j)
  {
  }

  /** Setting a key twice is setting it once to the second value. */
  lemma SetTwice<V>(m: JsMap<V>, k: Key, v: V, w: V)
    ensures m.Set(k, v).Set(k, w) == m.Set(k, w)
  {
  }

  /** Overwriting an existing key keeps the iteration order. */
  lemma SetExistingKeepsOrder<V>(m: JsMap<V>, k: Key, v: V)
    requires m.Valid() && m.Has(k)
    ensures m.Set(k, v).keys == m.keys
    ensures forall i :: 0 <= i < |m.keys| ==>
      m.Set(k, v).Values()[i] == if m.keys[i] == k then v else m.Values()[i]
  {
  }

  /** Deleting a key and setting it again moves the key to the end of the iteration order. */
  lemma {:induction false} DeleteThenSetAppends<V>(m: JsMap<V>, k: Key, v: V)
    requires m.Valid()
    ensures m.Delete(k).Set(k, v).keys == Filter(m.keys, j => j != k) + [k]
    ensures m.Delete(k).Set(k, v).Values()[|m.Delete(k).keys|] == v
  {
    var d := m.Delete(k);
    assert k !in d.entries;
  }
}
