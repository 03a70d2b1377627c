/**
  PHP's associative arrays, as the plugin uses them: an ordered list of
  key/value entries. Writing to a key that is present replaces its value in
  place (the key keeps its position); writing to a new key appends it.
  Reading looks the key up. Iteration (`foreach`) follows entry order.
 */
module PhpArray {

  datatype Option<T> = None | Some(value: T) {
    /** The value, or `default` when absent (PHP's `isset($a[k]) ? $a[k] : default`). */
    function GetOr(default: T): T {
      match this
      case Some(v) => v
      case None => default
    }
  }

  /** An ordered PHP array from keys to values. */
  type Assoc<K, V> = seq<(K, V)>

  /** `array_keys($m)`: the keys in entry order. */
  function Keys<K(==), V>(m: Assoc<K, V>): (ks: seq<K>)
    ensures |ks| == |m|
  {
    if m == [] then [] else [m[0].0] + Keys(m[1..])
  }

  /** `isset($m[k])` for a key whose value is never null. */
  predicate HasKey<K(==), V>(m: Assoc<K, V>, k: K)
    ensures HasKey(m, k) ==> m != []
  {
    k in Keys(m)
  }

  /** No element occurs twice in s. */
  predicate Distinct<T(==)>(s: seq<T>) {
    forall i, j :: 0 <= i < j < |s| ==> s[i] != s[j]
  }

  /** `$m[k]`, or None when the key is absent. */
  function Get<K(==), V>(m: Assoc<K, V>, k: K): (r: Option<V>)
    ensures r.Some? <==> HasKey(m, k)
  {
    if m == [] then None
    else if m[0].0 == k then Some(m[0].1)
    else Get(m[1..], k)
  }

  /** `$m[k] = v`: replace the value of a present key in place, or append a new entry. */
  function Put<K(==), V>(m: Assoc<K, V>, k: K, v: V): (r: Assoc<K, V>)
    ensures Get(r, k) == Some(v)
    ensures Keys(r) == if HasKey(m, k) then Keys(m) else Keys(m) + [k]
  {
    if m == [] then [(k, v)]
    else if m[0].0 == k then
      KeysCons(m[0], m[1..]);
      KeysCons((k, v), m[1..]);
      [(k, v)] + m[1..]
    else
      var rest := Put(m[1..], k, v);
      KeysCons(m[0], m[1..]);
      KeysCons(m[0], rest);
      [m[0]] + rest
  }

  lemma KeysCons<K, V>(x: (K, V), m: Assoc<K, V>)
    ensures Keys([x] + m) == [x.0] + Keys(m)
  {
    assert ([x] + m)[1..] == m;
  }

  /** After `$m[k] = v`, reading k gives v and reading any other key is unaffected. */
  lemma {:induction false} GetPut<K, V>(m: Assoc<K, V>, k: K, v: V, k': K)
    ensures Get(Put(m, k, v), k') == if k' == k then Some(v) else Get(m, k')
  {
    if m != [] && m[0].0 != k && m[0].0 != k' {
      GetPut(m[1..], k, v, k');
    }
  }

  /** Writing a key twice leaves only the second write. */
  lemma {:induction false} PutPut<K, V>(m: Assoc<K, V>, k: K, v1: V, v2: V)
    ensures Put(Put(m, k, v1), k, v2) == Put(m, k, v2)
  {
    if m != [] && m[0].0 != k {
      PutPut(m[1..], k, v1, v2);
    }
  }

  /** Writing back the value a key already has changes nothing. */
  lemma {:induction false} PutSame<K, V>(m: Assoc<K, V>, k: K)
    requires HasKey(m, k)
    ensures Put(m, k, Get(m, k).value) == m
  {
    if m[0].0 != k {
      assert Keys(m) == [m[0].0] + Keys(m[1..]);
      PutSame(m[1..], k);
    }
  }

  /** Writing never makes a key occur twice. */
  lemma PutKeepsDistinct<K, V>(m: Assoc<K, V>, k: K, v: V)
    requires Distinct(Keys(m))
    ensures Distinct(Keys(Put(m, k, v)))
  {
  }
}
