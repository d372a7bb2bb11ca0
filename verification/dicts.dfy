/** Insertion-ordered dictionaries: the shape of a Python `dict` and of a JSON
    object as Python and JavaScript both keep it. A dictionary is the sequence
    of its (key, value) entries in insertion order. Assigning to a present key
    keeps that key's position; assigning to a new key appends it. */
module Dicts {
  import opened Wrappers

  type Dict<K, V> = seq<(K, V)>

  /** The value stored under `k`, if any. */
  function Get<K(==), V>(d: Dict<K, V>, k: K): Option<V>
  {
    if d == [] then None
    else if d[0].0 == k then Some(d[0].1)
    else Get(d[1..], k)
  }

  /** The keys, in insertion order (Python's `d.keys()`). */
  function Keys<K, V>(d: Dict<K, V>): seq<K>
  {
    if d == [] then [] else [d[0].0] + Keys(d[1..])
  }

  /** The values, in insertion order (Python's `d.values()`). */
  function Values<K, V>(d: Dict<K, V>): seq<V>
  {
    if d == [] then [] else [d[0].1] + Values(d[1..])
  }

  /** No key occurs twice: the representation invariant of a real dictionary. */
  predicate Distinct<K(==), V>(d: Dict<K, V>)
  {
    d == [] || (d[0].0 !in Keys(d[1..]) && Distinct(d[1..]))
  }

  /** `k in d`, stated through the keys. */
  lemma {:induction false} KeysAgreeWithGet<K, V>(d: Dict<K, V>, k: K)
    ensures k in Keys(d) <==> Get(d, k).Some?
  {
    if d != [] && d[0].0 != k {
      KeysAgreeWithGet(d[1..], k);
    }
  }

  lemma {:induction false} KeysLength<K, V>(d: Dict<K, V>)
    ensures |Keys(d)| == |d| && |Values(d)| == |d|
  {
    if d != [] {
      KeysLength(d[1..]);
    }
  }

  /** `d[k] = v`: the entry for `k` now holds `v`, every other key reads as
      before, and no key is repeated that was not repeated before. */
  function Put<K(==,!new), V>(d: Dict<K, V>, k: K, v: V): (r: Dict<K, V>)
    ensures Get(r, k) == Some(v)
    ensures forall k' {:trigger Get(r, k')} :: k' != k ==> Get(r, k') == Get(d, k')
    ensures forall k' :: k' in Keys(r) <==> k' in Keys(d) || k' == k
    ensures Distinct(d) ==> Distinct(r)
  {
    if d == [] then [(k, v)]
    else if d[0].0 == k then [(k, v)] + d[1..]
    else [d[0]] + Put(d[1..], k, v)
  }

  /** A present key keeps its place and a new key is appended. */
  lemma {:induction false} PutKeys<K(!new), V>(d: Dict<K, V>, k: K, v: V)
    ensures k in Keys(d) ==> Keys(Put(d, k, v)) == Keys(d)
    ensures k !in Keys(d) ==> Keys(Put(d, k, v)) == Keys(d) + [k]
  {
    if d != [] && d[0].0 != k {
      PutKeys(d[1..], k, v);
    }
  }

  /** `del d[k]` when present, and no change otherwise: `k` is gone, every
      other key reads as before and keeps its relative order. */
  function Remove<K(==,!new), V>(d: Dict<K, V>, k: K): (r: Dict<K, V>)
    ensures Get(r, k) == None
    ensures forall k' {:trigger Get(r, k')} :: k' != k ==> Get(r, k') == Get(d, k')
    ensures forall k' :: k' in Keys(r) <==> k' in Keys(d) && k' != k
    ensures Distinct(d) ==> Distinct(r)
    ensures |r| <= |d|
  {
    if d == [] then []
    else if d[0].0 == k then Remove(d[1..], k)
    else [d[0]] + Remove(d[1..], k)
  }

  /** In a dictionary without repeated keys, removing a present key shortens
      it by exactly one entry. */
  lemma {:induction false} RemovePresentShrinks<K(!new), V>(d: Dict<K, V>, k: K)
    requires Distinct(d)
    requires k in Keys(d)
    ensures |Remove(d, k)| == |d| - 1
  {
    if d[0].0 == k {
      RemoveAbsentIsIdentity(d[1..], k);
    } else {
      RemovePresentShrinks(d[1..], k);
    }
  }

  lemma {:induction false} RemoveAbsentIsIdentity<K(!new), V>(d: Dict<K, V>, k: K)
    requires k !in Keys(d)
    ensures Remove(d, k) == d
  {
    if d != [] {
      RemoveAbsentIsIdentity(d[1..], k);
    }
  }

  /** Assigning to a key the dictionary lacks appends one entry at the end. */
  lemma {:induction false} PutAbsentAppends<K(!new), V>(d: Dict<K, V>, k: K, v: V)
    requires k !in Keys(d)
    ensures Put(d, k, v) == d + [(k, v)]
  {
    if d != [] {
      PutAbsentAppends(d[1..], k, v);
    }
  }

  lemma {:induction false} KeysAppend<K, V>(d: Dict<K, V>, k: K, v: V)
    ensures Keys(d + [(k, v)]) == Keys(d) + [k]
  {
    if d != [] {
      assert (d + [(k, v)])[1..] == d[1..] + [(k, v)];
      KeysAppend(d[1..], k, v);
    }
  }

  /** Assigning to a present key never changes the size; assigning to a new
      key grows it by one. */
  lemma {:induction false} PutSize<K(!new), V>(d: Dict<K, V>, k: K, v: V)
    ensures k in Keys(d) ==> |Put(d, k, v)| == |d|
    ensures k !in Keys(d) ==> |Put(d, k, v)| == |d| + 1
  {
    PutKeys(d, k, v);
    KeysLength(d);
    KeysLength(Put(d, k, v));
  }

  /** Every value stored under a key is among the dictionary's values. */
  lemma {:induction false} GetInValues<K, V>(d: Dict<K, V>, k: K)
    requires Get(d, k).Some?
    ensures Get(d, k).value in Values(d)
  {
    if d[0].0 != k {
      GetInValues(d[1..], k);
    }
  }
}
