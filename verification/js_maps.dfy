/**
 * JavaScript's `Map`: a finite map that remembers insertion order.
 *
 * The order is observable in the chat server: `Array.from(m.values())`
 * broadcasts the user list in registration order, login picks the FIRST
 * user with a given name, a private message goes to the FIRST socket bound
 * to the recipient, and the typing list is built in insertion order.
 * `set` on a present key replaces its value in place; on a new key it
 * appends. `delete` removes the key and keeps the order of the rest.
 */
module JsMaps {
  import opened Optional

  datatype Entry<K, V> = Entry(key: K, value: V)

  type JsMap<K, V> = seq<Entry<K, V>>

  /** Position of the first entry whose key is `k`. */
  function IndexOf<K(==), V>(m: JsMap<K, V>, k: K): (r: Option<nat>)
    ensures r.Some? ==> r.value < |m| && m[r.value].key == k
    ensures r.Some? ==> forall j :: 0 <= j < r.value ==> m[j].key != k
    ensures r.None? <==> forall j :: 0 <= j < |m| ==> m[j].key != k
  {
    if |m| == 0 then None
    else if m[0].key == k then Some(0)
    else
      match IndexOf(m[1..], k)
      case None => None
      case Some(i) => Some(i + 1)
  }

  predicate HasKey<K(==), V>(m: JsMap<K, V>, k: K) {
    IndexOf(m, k).Some?
  }

  /** `m.get(k)`: the value stored under `k`, if any. */
  function Get<K(==), V>(m: JsMap<K, V>, k: K): (r: Option<V>)
    ensures r.Some? <==> HasKey(m, k)
    ensures r.Some? ==> r.value == m[IndexOf(m, k).value].value
  {
    match IndexOf(m, k)
    case None => None
    case Some(i) => Some(m[i].value)
  }

  /** No key occurs twice; every map built by `Set` and `Delete` from `[]` has this shape. */
  ghost predicate DistinctKeys<K, V>(m: JsMap<K, V>) {
    forall i, j :: 0 <= i < j < |m| ==> m[i].key != m[j].key
  }

  /** Two entry sequences with the same keys, position by position, find a key at the same place. */
  lemma {:induction false} IndexOfSameKeys<K, V>(m: JsMap<K, V>, m': JsMap<K, V>, k: K)
    requires |m| == |m'|
    requires forall j :: 0 <= j < |m| ==> m[j].key == m'[j].key
    ensures IndexOf(m, k) == IndexOf(m', k)
  {
    if |m| > 0 && m[0].key != k {
      IndexOfSameKeys(m[1..], m'[1..], k);
    }
  }

  lemma {:induction false} AppendOtherKey<K, V>(m: JsMap<K, V>, e: Entry<K, V>, k: K)
    requires e.key != k
    ensures IndexOf(m + [e], k) == IndexOf(m, k)
  {
    if |m| == 0 {
      assert m + [e] == [e];
    } else {
      assert (m + [e])[1..] == m[1..] + [e];
      AppendOtherKey(m[1..], e, k);
    }
  }

  lemma {:induction false} AppendNewKey<K, V>(m: JsMap<K, V>, e: Entry<K, V>)
    requires IndexOf(m, e.key).None?
    ensures IndexOf(m + [e], e.key) == Some(|m|)
  {
    if |m| == 0 {
      assert m + [e] == [e];
    } else {
      assert (m + [e])[1..] == m[1..] + [e];
      AppendNewKey(m[1..], e);
    }
  }

  /** Looking past a head entry with another key. */
  lemma GetTail<K, V>(m: JsMap<K, V>, k: K)
    requires |m| > 0 && m[0].key != k
    ensures Get(m, k) == Get(m[1..], k)
  {
  }

  /** `m.set(k, v)`. */
  function Set<K(==,!new), V>(m: JsMap<K, V>, k: K, v: V): (r: JsMap<K, V>)
    ensures Get(r, k) == Some(v)
    ensures forall k' :: k' != k ==> Get(r, k') == Get(m, k')
    ensures HasKey(m, k) ==> |r| == |m|
    ensures !HasKey(m, k) ==> r == m + [Entry(k, v)]
    ensures forall j :: 0 <= j < |m| && m[j].key != k ==> r[j] == m[j]
    ensures forall j :: 0 <= j < |r| ==> r[j] == Entry(k, v) || (j < |m| && r[j] == m[j])
    ensures DistinctKeys(m) ==> DistinctKeys(r)
  {
    match IndexOf(m, k)
    case Some(i) =>
      var r := m[i := Entry(k, v)];
      assert forall k' :: IndexOf(r, k') == IndexOf(m, k') by {
        forall k' ensures IndexOf(r, k') == IndexOf(m, k') {
          IndexOfSameKeys(r, m, k');
        }
      }
      r
    case None =>
      var r := m + [Entry(k, v)];
      AppendNewKey(m, Entry(k, v));
      assert forall k' :: k' != k ==> IndexOf(r, k') == IndexOf(m, k') by {
        forall k' | k' != k ensures IndexOf(r, k') == IndexOf(m, k') {
          AppendOtherKey(m, Entry(k, v), k');
        }
      }
      r
  }

  /** `a` is `b` with some elements left out and the rest in their order. */
  ghost predicate IsSubsequence<T>(a: seq<T>, b: seq<T>)
    decreases |b|
  {
    || |a| == 0
    || (&& |b| > 0
        && ((a[0] == b[0] && IsSubsequence(a[1..], b[1..])) || IsSubsequence(a, b[1..])))
  }

  /** Setting a key twice is setting it once to the second value: the entry keeps the place the first set gave it. */
  lemma SetTwice<K(!new), V>(m: JsMap<K, V>, k: K, v1: V, v2: V)
    ensures Set(Set(m, k, v1), k, v2) == Set(m, k, v2)
  {
    var m1 := Set(m, k, v1);
    match IndexOf(m, k)
    case Some(i) =>
      assert m1 == m[i := Entry(k, v1)];
      IndexOfSameKeys(m1, m, k);
      assert m1[i := Entry(k, v2)] == m[i := Entry(k, v2)];
    case None =>
      assert m1 == m + [Entry(k, v1)];
      AppendNewKey(m, Entry(k, v1));
      assert m1[|m| := Entry(k, v2)] == m + [Entry(k, v2)];
  }

  /** Every entry of `m` except those with key `k`, in order. */
  function WithoutKey<K(==,!new), V>(m: JsMap<K, V>, k: K): (r: JsMap<K, V>)
    ensures forall j :: 0 <= j < |r| ==> r[j].key != k
    ensures forall e :: e in r ==> e in m
    ensures forall e :: e in m && e.key != k ==> e in r
    ensures IsSubsequence(r, m)
    ensures |r| <= |m|
    ensures (forall j :: 0 <= j < |m| ==> m[j].key != k) ==> r == m
  {
    if |m| == 0 then m
    else
      var rest := WithoutKey(m[1..], k);
      if m[0].key == k then rest
      else
        assert ([m[0]] + rest)[1..] == rest;
        [m[0]] + rest
  }

  /** `m.delete(k)`: the other entries keep their relative order. */
  function Delete<K(==,!new), V>(m: JsMap<K, V>, k: K): (r: JsMap<K, V>)
    ensures Get(r, k) == None
    ensures forall k' :: k' != k ==> Get(r, k') == Get(m, k')
    ensures forall e :: e in r ==> e in m && e.key != k
    ensures forall e :: e in m && e.key != k ==> e in r
    ensures IsSubsequence(r, m)
    ensures |r| <= |m|
    ensures !HasKey(m, k) ==> r == m
    ensures DistinctKeys(m) ==> DistinctKeys(r)
  {
    var r := WithoutKey(m, k);
    assert forall k' :: Get(r, k') == if k' == k then None else Get(m, k') by {
      forall k' ensures Get(r, k') == if k' == k then None else Get(m, k') {
        DeleteGet(m, k, k');
      }
    }
    assert DistinctKeys(m) ==> DistinctKeys(r) by {
      if DistinctKeys(m) {
        DeleteDistinct(m, k);
      }
    }
    r
  }

  lemma {:induction false} DeleteGet<K(!new), V>(m: JsMap<K, V>, k: K, k': K)
    ensures Get(WithoutKey(m, k), k') == if k' == k then None else Get(m, k')
  {
    var r := WithoutKey(m, k);
    if |m| > 0 {
      DeleteGet(m[1..], k, k');
      var rest := WithoutKey(m[1..], k);
      if m[0].key == k {
        if k' != k {
          GetTail(m, k');
        }
      } else if m[0].key != k' {
        assert r[1..] == rest;
        GetTail(r, k');
        GetTail(m, k');
      }
    }
  }

  lemma {:induction false} DeleteDistinct<K(!new), V>(m: JsMap<K, V>, k: K)
    requires DistinctKeys(m)
    ensures DistinctKeys(WithoutKey(m, k))
  {
    if |m| > 0 {
      DeleteDistinct(m[1..], k);
      var rest := WithoutKey(m[1..], k);
      forall e | e in rest ensures e.key != m[0].key {
        assert e in m[1..];
      }
    }
  }

  /** `Array.from(m.values())`. */
  function Values<K, V>(m: JsMap<K, V>): (r: seq<V>)
    ensures |r| == |m|
    ensures forall i :: 0 <= i < |m| ==> r[i] == m[i].value
  {
    seq(|m|, i requires 0 <= i < |m| => m[i].value)
  }
}
