/**
 * An insertion-ordered map, as java.util.LinkedHashMap: its entries in the
 * order their keys were first put, each key at most once. Putting a key that
 * is already present replaces its value in place.
 */
module LinkedMaps {
  import opened Outcomes

  type LinkedMap<K, V> = seq<(K, V)>

  predicate Distinct<T(==)>(s: seq<T>) {
    forall i, j :: 0 <= i < j < |s| ==> s[i] != s[j]
  }

  /** The keys in iteration order. */
  function Keys<K, V>(m: LinkedMap<K, V>): (r: seq<K>)
    ensures |r| == |m| && forall i :: 0 <= i < |m| ==> r[i] == m[i].0
  {
    seq(|m|, i requires 0 <= i < |m| => m[i].0)
  }

  /** Map.get: the value of the first entry with key `k`. */
  function Get<K(==), V>(m: LinkedMap<K, V>, k: K): Option<V> {
    if m == [] then None
    else if m[0].0 == k then Some(m[0].1)
    else Get(m[1..], k)
  }

  lemma {:induction false} GetAbsent<K, V>(m: LinkedMap<K, V>, k: K)
    requires k !in Keys(m)
    ensures Get(m, k) == None
  {
    if m != [] {
      assert Keys(m[1..]) == Keys(m)[1..];
      GetAbsent(m[1..], k);
    }
  }

  /** In a map whose keys are distinct, the key of entry i finds entry i. */
  lemma {:induction false} GetAt<K, V>(m: LinkedMap<K, V>, i: nat)
    requires Distinct(Keys(m)) && i < |m|
    ensures Get(m, m[i].0) == Some(m[i].1)
  {
    if i > 0 {
      assert m[0].0 != m[i].0;
      assert Keys(m[1..]) == Keys(m)[1..];
      GetAt(m[1..], i - 1);
    }
  }

  /**
   * Map.put: an existing key keeps its position and takes the new value;
   * a new key is appended at the end.
   */
  function Put<K(==), V>(m: LinkedMap<K, V>, k: K, v: V): (r: LinkedMap<K, V>)
    requires Distinct(Keys(m))
    ensures Distinct(Keys(r))
  {
    if k in Keys(m) then seq(|m|, i requires 0 <= i < |m| => if m[i].0 == k then (k, v) else m[i])
    else m + [(k, v)]
  }

  /** Put keeps the key order, appending only a key not yet present. */
  lemma PutKeys<K, V>(m: LinkedMap<K, V>, k: K, v: V)
    requires Distinct(Keys(m))
    ensures Keys(Put(m, k, v)) == if k in Keys(m) then Keys(m) else Keys(m) + [k]
  {
  }

  /** After a put, the key maps to the new value and every other key is as before. */
  lemma PutGet<K, V>(m: LinkedMap<K, V>, k: K, v: V, q: K)
    requires Distinct(Keys(m))
    ensures Get(Put(m, k, v), q) == if q == k then Some(v) else Get(m, q)
  {
    var r := Put(m, k, v);
    PutKeys(m, k, v);
    if q in Keys(r) {
      var i :| 0 <= i < |r| && r[i].0 == q;
      GetAt(r, i);
      if q != k {
        assert m[i] == r[i];
        GetAt(m, i);
      }
    } else {
      GetAbsent(r, q);
      GetAbsent(m, q);
    }
  }

  /** The map after putting keys[0], values[0], then keys[1], values[1], and so on. */
  function PutAll<K(==), V>(keys: seq<K>, values: seq<V>): (r: LinkedMap<K, V>)
    requires |keys| == |values|
    ensures Distinct(Keys(r))
  {
    if keys == [] then []
    else Put(PutAll(keys[..|keys| - 1], values[..|keys| - 1]), keys[|keys| - 1], values[|keys| - 1])
  }

  /** Filling from one more key and value is one more put. */
  lemma PutAllSnoc<K, V>(keys: seq<K>, values: seq<V>, k: nat)
    requires k < |keys| == |values|
    ensures PutAll(keys[..k + 1], values[..k + 1]) == Put(PutAll(keys[..k], values[..k]), keys[k], values[k])
  {
    assert keys[..k + 1][..k] == keys[..k] && values[..k + 1][..k] == values[..k];
  }

  /** Each key of `s` once, at the place it first occurs. */
  function FirstOccurrences<T(==)>(s: seq<T>): seq<T> {
    if s == [] then []
    else
      var p := FirstOccurrences(s[..|s| - 1]);
      if s[|s| - 1] in p then p else p + [s[|s| - 1]]
  }

  lemma {:induction false} FirstOccurrencesFacts<T>(s: seq<T>)
    ensures forall x :: x in FirstOccurrences(s) <==> x in s
    ensures Distinct(FirstOccurrences(s))
    ensures |FirstOccurrences(s)| <= |s|
    ensures |FirstOccurrences(s)| == |s| <==> Distinct(s)
    ensures Distinct(s) ==> FirstOccurrences(s) == s
  {
    if s != [] {
      var init, last := s[..|s| - 1], s[|s| - 1];
      FirstOccurrencesFacts(init);
      assert s == init + [last];
      assert forall x :: x in s <==> x in init || x == last;
      if last in init {
        var j :| 0 <= j < |init| && init[j] == last;
        assert s[j] == s[|s| - 1];
      } else {
        assert Distinct(s) <==> Distinct(init);
      }
    }
  }

  /** The keys of the filled map are the distinct keys put, in first-put order. */
  lemma {:induction false} PutAllKeys<K, V>(keys: seq<K>, values: seq<V>)
    requires |keys| == |values|
    ensures Keys(PutAll(keys, values)) == FirstOccurrences(keys)
  {
    if keys != [] {
      var n := |keys|;
      PutAllKeys(keys[..n - 1], values[..n - 1]);
    }
  }

  /**
   * Every key is bound to the value of its last put: a key at index j that
   * is not put again later maps to values[j].
   */
  lemma {:induction false} PutAllLastWins<K, V>(keys: seq<K>, values: seq<V>, j: nat)
    requires |keys| == |values| && j < |keys| && keys[j] !in keys[j + 1..]
    ensures Get(PutAll(keys, values), keys[j]) == Some(values[j])
  {
    var n := |keys|;
    PutGet(PutAll(keys[..n - 1], values[..n - 1]), keys[n - 1], values[n - 1], keys[j]);
    if j < n - 1 {
      assert keys[n - 1] in keys[j + 1..];
      assert keys[..n - 1][j + 1..] == keys[j + 1..n - 1];
      PutAllLastWins(keys[..n - 1], values[..n - 1], j);
    }
  }

  /** With pairwise distinct keys nothing collapses: entry i is (keys[i], values[i]). */
  lemma {:induction false} PutAllDistinct<K, V>(keys: seq<K>, values: seq<V>)
    requires |keys| == |values| && Distinct(keys)
    ensures |PutAll(keys, values)| == |keys|
    ensures forall i :: 0 <= i < |keys| ==> PutAll(keys, values)[i] == (keys[i], values[i])
  {
    if keys != [] {
      var n := |keys|;
      PutAllDistinct(keys[..n - 1], values[..n - 1]);
      assert keys[n - 1] !in Keys(PutAll(keys[..n - 1], values[..n - 1]));
    }
  }

  /** The map has at most one entry per put, and exactly one per put iff the keys are distinct. */
  lemma PutAllSize<K, V>(keys: seq<K>, values: seq<V>)
    requires |keys| == |values|
    ensures |PutAll(keys, values)| <= |keys|
    ensures |PutAll(keys, values)| == |keys| <==> Distinct(keys)
  {
    PutAllKeys(keys, values);
    FirstOccurrencesFacts(keys);
  }
}
