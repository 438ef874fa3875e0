/**
 * A Python `dict` as the harness uses it: a mapping that remembers the
 * order in which keys were first inserted. Assigning to an existing key
 * replaces its value and keeps its position; a new key goes at the end.
 */
module PyDict {
  import opened Wrappers

  datatype Dict<K, V> = Dict(entries: seq<(K, V)>)

  function Empty<K(==), V>(): Dict<K, V> {
    Dict([])
  }

  /** The keys in iteration order (`d.keys()`). */
  function Keys<K(==), V>(d: Dict<K, V>): (ks: seq<K>)
    ensures |ks| == |d.entries|
    ensures forall i :: 0 <= i < |ks| ==> ks[i] == d.entries[i].0
  {
    seq(|d.entries|, i requires 0 <= i < |d.entries| => d.entries[i].0)
  }

  predicate Distinct<T(==)>(s: seq<T>) {
    forall i, j :: 0 <= i < j < |s| ==> s[i] != s[j]
  }

  /** Every key occurs once, as in any Python dict. */
  predicate Valid<K(==), V>(d: Dict<K, V>) {
    Distinct(Keys(d))
  }

  /** The position of key `k`, if present. */
  function Find<K(==), V>(es: seq<(K, V)>, k: K): (r: Option<nat>)
    ensures r.None? <==> forall i :: 0 <= i < |es| ==> es[i].0 != k
    ensures r.Some? ==> r.value < |es| && es[r.value].0 == k
    ensures r.Some? ==> forall i :: 0 <= i < r.value ==> es[i].0 != k
  {
    if es == [] then None
    else if es[0].0 == k then Some(0)
    else match Find(es[1..], k)
      case None => None
      case Some(i) => Some(i + 1)
  }

  /** `d.get(k)`: the value stored under `k`, or None when `k` is absent. */
  function Get<K(==), V>(d: Dict<K, V>, k: K): (r: Option<V>)
    ensures r.None? <==> k !in Keys(d)
    ensures r.Some? ==> (k, r.value) in d.entries
  {
    match Find(d.entries, k)
    case None => None
    case Some(i) => Some(d.entries[i].1)
  }

  /** `next(iter(d.keys()))`: None stands for the StopIteration of an empty dict. */
  function FirstKey<K(==), V>(d: Dict<K, V>): (r: Option<K>)
    ensures r.None? <==> Keys(d) == []
    ensures r.Some? ==> r.value == Keys(d)[0]
  {
    if d.entries == [] then None else Some(d.entries[0].0)
  }

  lemma {:induction false} FindAppend<K, V>(es: seq<(K, V)>, e: (K, V), k: K)
    requires k != e.0
    ensures Find(es + [e], k) == Find(es, k)
  {
    if es != [] {
      assert (es + [e])[1..] == es[1..] + [e];
      FindAppend(es[1..], e, k);
    }
  }

  lemma {:induction false} FindAppendNew<K, V>(es: seq<(K, V)>, e: (K, V))
    requires Find(es, e.0).None?
    ensures Find(es + [e], e.0) == Some(|es|)
  {
    if es != [] {
      assert (es + [e])[1..] == es[1..] + [e];
      FindAppendNew(es[1..], e);
    }
  }

  lemma {:induction false} FindUpdate<K, V>(es: seq<(K, V)>, i: nat, v: V, k: K)
    requires i < |es|
    ensures Find(es[i := (es[i].0, v)], k) == Find(es, k)
  {
    if i > 0 {
      assert es[i := (es[i].0, v)][1..] == es[1..][i - 1 := (es[i].0, v)];
      FindUpdate(es[1..], i - 1, v, k);
    }
  }

  /** `d[k] = v`. */
  function Put<K(==,!new), V>(d: Dict<K, V>, k: K, v: V): (r: Dict<K, V>)
    ensures Valid(d) ==> Valid(r)
    ensures Keys(r) == if k in Keys(d) then Keys(d) else Keys(d) + [k]
    ensures Get(r, k) == Some(v)
    ensures forall k' :: k' != k ==> Get(r, k') == Get(d, k')
  {
    match Find(d.entries, k)
    case None =>
      var r := Dict(d.entries + [(k, v)]);
      assert Keys(r) == Keys(d) + [k];
      FindAppendNew(d.entries, (k, v));
      forall k' | k' != k ensures Get(r, k') == Get(d, k') {
        FindAppend(d.entries, (k, v), k');
      }
      r
    case Some(i) =>
      var r := Dict(d.entries[i := (k, v)]);
      assert Keys(r) == Keys(d);
      FindUpdate(d.entries, i, v, k);
      forall k' | k' != k ensures Get(r, k') == Get(d, k') {
        FindUpdate(d.entries, i, v, k');
      }
      r
  }
}
