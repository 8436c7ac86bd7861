/**
 * Python dictionaries keep their keys in insertion order, and several results
 * of the core are ordered dictionaries. An Assoc is a sequence of key/value
 * pairs with distinct keys; `Put` is `d[k] = v`: it replaces the value of an
 * existing key where it stands, or appends a new key at the end.
 */
module Assoc {
  import opened Wrappers

  type Assoc<K, V> = seq<(K, V)>

  function Keys<K, V>(d: Assoc<K, V>): (ks: seq<K>)
    ensures |ks| == |d|
    ensures forall i :: 0 <= i < |d| ==> ks[i] == d[i].0
  {
    if d == [] then [] else [d[0].0] + Keys(d[1..])
  }

  ghost predicate UniqueKeys<K, V>(d: Assoc<K, V>)
  {
    forall i, j :: 0 <= i < j < |d| ==> d[i].0 != d[j].0
  }

  predicate HasKey<K(==), V>(d: Assoc<K, V>, k: K)
  {
    exists i :: 0 <= i < |d| && d[i].0 == k
  }

  /** `d.get(k)`: the value of the first pair whose key is `k`. */
  function Get<K(==), V>(d: Assoc<K, V>, k: K): (r: Option<V>)
    ensures r.None? <==> !HasKey(d, k)
  {
    if d == [] then None
    else if d[0].0 == k then Some(d[0].1)
    else Get(d[1..], k)
  }

  /** A key is present in a non-empty dictionary when it is the first key or present in the rest. */
  lemma HasKeyCons<K, V>(d: Assoc<K, V>, k: K)
    requires d != []
    ensures HasKey(d, k) <==> d[0].0 == k || HasKey(d[1..], k)
  {
    if HasKey(d, k) && d[0].0 != k {
      var i :| 0 <= i < |d| && d[i].0 == k;
      assert d[1..][i - 1].0 == k;
    }
    if HasKey(d[1..], k) {
      var i :| 0 <= i < |d| - 1 && d[1..][i].0 == k;
      assert d[i + 1].0 == k;
    }
  }

  /** `d[k] = v`. */
  function Put<K(==,!new), V>(d: Assoc<K, V>, k: K, v: V): (r: Assoc<K, V>)
    ensures Get(r, k) == Some(v)
    ensures forall k' :: k' != k ==> Get(r, k') == Get(d, k')
  {
    if d == [] then [(k, v)]
    else if d[0].0 == k then
      var r := [(k, v)] + d[1..];
      assert r[1..] == d[1..];
      r
    else
      var t := Put(d[1..], k, v);
      var r := [d[0]] + t;
      assert r[1..] == t;
      r
  }

  /**
   * Where the key is present, `Put` keeps every key in its position and
   * changes one value; otherwise it appends the new pair.
   */
  lemma {:induction false} PutShape<K(!new), V>(d: Assoc<K, V>, k: K, v: V)
    ensures HasKey(d, k) ==> |Put(d, k, v)| == |d|
    ensures HasKey(d, k) ==>
              forall i :: 0 <= i < |d| ==> Put(d, k, v)[i].0 == d[i].0 && (Put(d, k, v)[i] == d[i] || Put(d, k, v)[i] == (k, v))
    ensures !HasKey(d, k) ==> Put(d, k, v) == d + [(k, v)]
  {
    if d == [] {
    } else if d[0].0 == k {
      assert HasKey(d, k) by {
        assert d[0].0 == k;
      }
      var r := [(k, v)] + d[1..];
      assert Put(d, k, v) == r;
      assert forall i :: 0 < i < |d| ==> r[i] == d[i];
    } else {
      HasKeyCons(d, k);
      PutShape(d[1..], k, v);
      var t := Put(d[1..], k, v);
      var r := [d[0]] + t;
      assert Put(d, k, v) == r;
      if HasKey(d, k) {
        forall i | 0 <= i < |d|
          ensures r[i].0 == d[i].0 && (r[i] == d[i] || r[i] == (k, v))
        {
          if i > 0 {
            assert r[i] == t[i - 1] && d[i] == d[1..][i - 1];
          }
        }
      } else {
        assert d == [d[0]] + d[1..];
      }
    }
  }

  /** Putting a pair whose key is new in front keeps the keys distinct. */
  lemma ConsUnique<K, V>(x: (K, V), t: Assoc<K, V>)
    requires UniqueKeys(t) && forall j :: 0 <= j < |t| ==> t[j].0 != x.0
    ensures UniqueKeys([x] + t)
  {
    var c := [x] + t;
    forall i, j | 0 <= i < j < |c|
      ensures c[i].0 != c[j].0
    {
      assert c[j] == t[j - 1];
      if i > 0 {
        assert c[i] == t[i - 1];
      }
    }
  }

  /** Two dictionaries with the same keys in the same positions. */
  lemma SameKeysUnique<K, V>(d: Assoc<K, V>, r: Assoc<K, V>)
    requires UniqueKeys(d) && |r| == |d| && forall i :: 0 <= i < |d| ==> r[i].0 == d[i].0
    ensures UniqueKeys(r)
  {
    forall i, j | 0 <= i < j < |r|
      ensures r[i].0 != r[j].0
    {
      assert r[i].0 == d[i].0 && r[j].0 == d[j].0;
    }
  }

  /** `d[k] = v` keeps the keys distinct. */
  lemma {:induction false} PutUnique<K(!new), V>(d: Assoc<K, V>, k: K, v: V)
    requires UniqueKeys(d)
    ensures UniqueKeys(Put(d, k, v))
  {
    var r := Put(d, k, v);
    if d == [] {
    } else if d[0].0 == k {
      assert HasKey(d, k) by {
        assert d[0].0 == k;
      }
      PutShape(d, k, v);
      SameKeysUnique(d, r);
    } else {
      PutUnique(d[1..], k, v);
      PutShape(d[1..], k, v);
      var t := Put(d[1..], k, v);
      forall j | 0 <= j < |t|
        ensures t[j].0 != d[0].0
      {
        if HasKey(d[1..], k) {
          assert t[j].0 == d[1..][j].0;
        } else if j < |d| - 1 {
          assert t[j] == d[1..][j];
        }
      }
      ConsUnique(d[0], t);
    }
  }

  /** In a dictionary with distinct keys, `Get` finds the pair that holds the key. */
  lemma {:induction false} GetUnique<K, V>(d: Assoc<K, V>, i: nat)
    requires UniqueKeys(d) && i < |d|
    ensures Get(d, d[i].0) == Some(d[i].1)
  {
    if i > 0 {
      GetUnique(d[1..], i - 1);
    }
  }

  /** The position of a key present in `d`. */
  function IndexOf<K(==), V>(d: Assoc<K, V>, k: K): (i: nat)
    requires HasKey(d, k)
    ensures i < |d| && d[i].0 == k
  {
    if d[0].0 == k then 0
    else
      HasKeyCons(d, k);
      IndexOf(d[1..], k) + 1
  }

  /** `Get` reads the value of the first pair holding the key. */
  lemma {:induction false} GetAt<K, V>(d: Assoc<K, V>, k: K)
    requires HasKey(d, k)
    ensures Get(d, k) == Some(d[IndexOf(d, k)].1)
  {
    if d[0].0 != k {
      HasKeyCons(d, k);
      GetAt(d[1..], k);
    }
  }

  /** The sum of `f` over the values of `d`. */
  function SumOf<K, V>(d: Assoc<K, V>, f: V -> nat): nat
  {
    if d == [] then 0 else f(d[0].1) + SumOf(d[1..], f)
  }

  /** Writing `v` under `k` changes the sum by `f(v)` minus what the old value of `k` contributed. */
  lemma {:induction false} PutSum<K(!new), V>(d: Assoc<K, V>, k: K, v: V, f: V -> nat)
    ensures HasKey(d, k) ==> SumOf(Put(d, k, v), f) + f(Get(d, k).value) == SumOf(d, f) + f(v)
    ensures !HasKey(d, k) ==> SumOf(Put(d, k, v), f) == SumOf(d, f) + f(v)
  {
    if d != [] {
      var r := Put(d, k, v);
      HasKeyCons(d, k);
      if d[0].0 == k {
        assert r == [(k, v)] + d[1..];
        assert r[1..] == d[1..];
      } else {
        var t := Put(d[1..], k, v);
        assert r == [d[0]] + t;
        assert r[1..] == t;
        PutSum(d[1..], k, v, f);
      }
    }
  }

  /** An entry of `Put(d, k, v)` is the new pair or the entry of `d` in its place. */
  lemma PutEntry<K(!new), V>(d: Assoc<K, V>, k: K, v: V, i: nat)
    requires i < |Put(d, k, v)|
    ensures Put(d, k, v)[i] == (k, v) || (i < |d| && Put(d, k, v)[i] == d[i])
  {
    PutShape(d, k, v);
    if !HasKey(d, k) && i < |d| {
      assert Put(d, k, v)[i] == d[i];
    }
  }

  /** `d[k] = v` adds `k` to the keys and keeps every other key. */
  lemma PutKeys<K(!new), V>(d: Assoc<K, V>, k: K, v: V, l: K)
    ensures HasKey(Put(d, k, v), l) <==> l == k || HasKey(d, l)
  {
    if l != k {
      assert Get(Put(d, k, v), l) == Get(d, l);
    } else {
      assert Get(Put(d, k, v), l).Some?;
    }
  }
}
