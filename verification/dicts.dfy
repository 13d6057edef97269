/** Python dictionaries as the n-gram model uses them: the list of items in
    the order their keys were first inserted, which is the order `d.keys()`,
    `d.values()` and `d.items()` walk. Lookup and assignment act on the first
    item with the key; every dict the model builds lists each key once. */
module Dicts {

  type Dict<K, V> = seq<(K, V)>

  /** `list(d.keys())`. */
  function Keys<K, V>(d: Dict<K, V>): (ks: seq<K>)
    ensures |ks| == |d|
    decreases |d|
  {
    if d == [] then [] else [d[0].0] + Keys(d[1..])
  }

  /** `list(d.values())`. */
  function Values<K, V>(d: Dict<K, V>): (vs: seq<V>)
    ensures |vs| == |d|
    decreases |d|
  {
    if d == [] then [] else [d[0].1] + Values(d[1..])
  }

  predicate Distinct<K(==)>(ks: seq<K>) {
    forall i, j :: 0 <= i < j < |ks| ==> ks[i] != ks[j]
  }

  /** Key `i` and value `i` are the two halves of item `i`. */
  lemma {:induction false} ItemAt<K, V>(d: Dict<K, V>, i: nat)
    requires i < |d|
    ensures Keys(d)[i] == d[i].0 && Values(d)[i] == d[i].1
    decreases i
  {
    if i > 0 {
      ItemAt(d[1..], i - 1);
    }
  }

  /** `d[k]`, defined where Python does not raise KeyError. */
  function Get<K(==), V>(d: Dict<K, V>, k: K): V
    requires k in Keys(d)
    decreases |d|
  {
    if d[0].0 == k then d[0].1 else Get(d[1..], k)
  }

  /** With each key listed once, looking up the key of item `i` finds its value. */
  lemma {:induction false} GetAt<K, V>(d: Dict<K, V>, i: nat)
    requires Distinct(Keys(d)) && i < |d|
    ensures d[i].0 in Keys(d) && Get(d, d[i].0) == d[i].1
    decreases i
  {
    ItemAt(d, i);
    if i > 0 {
      ItemAt(d, 0);
      assert Keys(d[1..]) == Keys(d)[1..];
      GetAt(d[1..], i - 1);
    }
  }

  /** `d[k] = v`. */
  function Put<K(==), V>(d: Dict<K, V>, k: K, v: V): Dict<K, V>
    decreases |d|
  {
    if d == [] then [(k, v)]
    else if d[0].0 == k then [(k, v)] + d[1..]
    else [d[0]] + Put(d[1..], k, v)
  }

  /** A new key goes to the end of the order, an existing key keeps its
      place, and afterwards `d[k]` is `v`. */
  lemma {:induction false} PutKeys<K, V>(d: Dict<K, V>, k: K, v: V)
    ensures Keys(Put(d, k, v)) == if k in Keys(d) then Keys(d) else Keys(d) + [k]
    ensures k in Keys(Put(d, k, v)) && Get(Put(d, k, v), k) == v
    decreases |d|
  {
    if d != [] && d[0].0 != k {
      PutKeys(d[1..], k, v);
      assert Keys(d) == [d[0].0] + Keys(d[1..]);
      assert ([d[0]] + Put(d[1..], k, v))[1..] == Put(d[1..], k, v);
    }
  }

  /** Assigning `d[k]` leaves every other key's value as it was. */
  lemma {:induction false} GetPutOther<K, V>(d: Dict<K, V>, k: K, v: V, k': K)
    requires k' != k && k' in Keys(d)
    ensures k' in Keys(Put(d, k, v)) && Get(Put(d, k, v), k') == Get(d, k')
    decreases |d|
  {
    PutKeys(d, k, v);
    if d[0].0 != k' && d[0].0 != k {
      assert Keys(d) == [d[0].0] + Keys(d[1..]);
      GetPutOther(d[1..], k, v, k');
      assert ([d[0]] + Put(d[1..], k, v))[1..] == Put(d[1..], k, v);
    }
  }

  /** Assignment keeps each key listed once, as in every Python dict. */
  lemma PutDistinct<K, V>(d: Dict<K, V>, k: K, v: V)
    requires Distinct(Keys(d))
    ensures Distinct(Keys(Put(d, k, v)))
  {
    PutKeys(d, k, v);
  }

  // ---------------------------------------------------------------------------
  // `sum(d.values())`.

  /** The sum of the counts of a dict of counts. */
  function Total<K>(d: Dict<K, nat>): nat
    decreases |d|
  {
    if d == [] then 0 else d[0].1 + Total(d[1..])
  }

  /** No single count exceeds the sum. */
  lemma {:induction false} ItemAtMostTotal<K>(d: Dict<K, nat>, i: nat)
    requires i < |d|
    ensures d[i].1 <= Total(d)
    decreases i
  {
    if i > 0 {
      ItemAtMostTotal(d[1..], i - 1);
    }
  }
}
