/**
  A Python `dict` as the servers use it: its entries in insertion order, each
  key at most once. Iteration order matters to the store (search breaks ties by
  it), so a dict is modelled as a sequence of pairs rather than as a `map`.
 */
module OrderedMap {
  import opened Wrappers

  type Dict<K, V> = seq<(K, V)>

  /** The keys in iteration order (`list(d.keys())`). */
  function Keys<K, V>(d: Dict<K, V>): (ks: seq<K>)
    ensures |ks| == |d|
    ensures forall i :: 0 <= i < |d| ==> ks[i] == d[i].0
  {
    if d == [] then [] else [d[0].0] + Keys(d[1..])
  }

  /** No key occurs twice: what every dict parsed from a JSON object satisfies. */
  ghost predicate UniqueKeys<K, V>(d: Dict<K, V>) {
    forall i, j :: 0 <= i < j < |d| ==> d[i].0 != d[j].0
  }

  /** `d.get(k)`: the value stored under `k`, if any. */
  function Get<K(==), V>(d: Dict<K, V>, k: K): (r: Option<V>)
    ensures r.Some? <==> k in Keys(d)
    ensures r.Some? ==> (k, r.value) in d
  {
    if d == [] then None
    else if d[0].0 == k then Some(d[0].1)
    else Get(d[1..], k)
  }

  /**
    `d[k] = v`: an existing key keeps its position and gets the new value, a
    new key goes to the end; every other entry is left as it was.
   */
  function Put<K(==), V>(d: Dict<K, V>, k: K, v: V): (r: Dict<K, V>)
    ensures k in Keys(d) ==> |r| == |d| && Keys(r) == Keys(d)
    ensures k !in Keys(d) ==> r == d + [(k, v)]
  {
    if d == [] then [(k, v)]
    else if d[0].0 == k then [(k, v)] + d[1..]
    else [d[0]] + Put(d[1..], k, v)
  }

  /** After `d[k] = v`, `k` maps to `v` and every other key to what it mapped to before. */
  lemma {:induction false} PutGet<K, V>(d: Dict<K, V>, k: K, v: V, k': K)
    ensures Get(Put(d, k, v), k') == if k' == k then Some(v) else Get(d, k')
  {
    if d != [] && d[0].0 != k {
      assert Put(d, k, v)[1..] == Put(d[1..], k, v);
      PutGet(d[1..], k, v, k');
    }
  }

  /** After `Put`, every entry is the one put or an entry that was there before. */
  lemma {:induction false} PutEntries<K, V>(d: Dict<K, V>, k: K, v: V)
    ensures forall p :: p in Put(d, k, v) ==> p == (k, v) || p in d
  {
    if d != [] && d[0].0 != k {
      PutEntries(d[1..], k, v);
      assert Put(d, k, v) == [d[0]] + Put(d[1..], k, v);
    }
  }

  /** `d[k] = v` keeps every key `d` had and adds `k`. */
  lemma PutKeepsKeys<K, V>(d: Dict<K, V>, k: K, v: V)
    ensures k in Keys(Put(d, k, v))
    ensures forall k' :: k' in Keys(d) ==> k' in Keys(Put(d, k, v))
  {
    PutGet(d, k, v, k);
    forall k' | k' in Keys(d) ensures k' in Keys(Put(d, k, v)) {
      PutGet(d, k, v, k');
    }
  }

  /** `d[k] = v` never creates a repeated key. */
  lemma PutUnique<K, V>(d: Dict<K, V>, k: K, v: V)
    requires UniqueKeys(d)
    ensures UniqueKeys(Put(d, k, v))
  {
    var r := Put(d, k, v);
    if k in Keys(d) {
      assert forall i :: 0 <= i < |r| ==> r[i].0 == Keys(r)[i] == Keys(d)[i] == d[i].0;
    }
  }

  /** In a dict without repeated keys, the value found under the key of entry `i` is entry `i`'s. */
  lemma {:induction false} GetAt<K, V>(d: Dict<K, V>, i: nat)
    requires UniqueKeys(d) && i < |d|
    ensures Get(d, d[i].0) == Some(d[i].1)
  {
    if i > 0 {
      assert d[0].0 != d[i].0;
      assert d[1..][i - 1] == d[i];
      GetAt(d[1..], i - 1);
    }
  }

  /** In a dict without repeated keys, each entry is what its key looks up. */
  lemma GetMember<K, V>(d: Dict<K, V>, k: K, v: V)
    requires UniqueKeys(d) && (k, v) in d
    ensures Get(d, k) == Some(v)
  {
    var i :| 0 <= i < |d| && d[i] == (k, v);
    GetAt(d, i);
  }

  /** Looking a key up in a dict that has one more entry at the end. */
  lemma {:induction false} GetAppend<K, V>(d: Dict<K, V>, k: K, v: V, k': K)
    ensures Get(d + [(k, v)], k') ==
      if k' in Keys(d) then Get(d, k') else if k' == k then Some(v) else None
  {
    if d != [] {
      assert (d + [(k, v)])[1..] == d[1..] + [(k, v)];
      GetAppend(d[1..], k, v, k');
    }
  }
}
