/**
 * Python's `list.sort(key=...)`: a stable sort by a numeric key, written here
 * as an insertion sort. Only its outcome matters to the model: the result is
 * ordered by the key and is a permutation of the input.
 */
module Sorting {

  ghost predicate SortedBy<T>(s: seq<T>, key: T -> real)
  {
    forall i, j :: 0 <= i < j < |s| ==> key(s[i]) <= key(s[j])
  }

  /** Inserts `x` after the leading elements whose key is at most `key(x)`. */
  function Insert<T>(x: T, s: seq<T>, key: T -> real): (r: seq<T>)
    ensures multiset(r) == multiset(s) + multiset{x}
    ensures |r| == |s| + 1
    ensures r[0] == x || (s != [] && r[0] == s[0])
  {
    if s == [] then [x]
    else if key(x) < key(s[0]) then [x] + s
    else
      assert s == [s[0]] + s[1..];
      [s[0]] + Insert(x, s[1..], key)
  }

  /** Inserting into a sorted sequence keeps it sorted. */
  lemma {:induction false} InsertSorted<T>(x: T, s: seq<T>, key: T -> real)
    requires SortedBy(s, key)
    ensures SortedBy(Insert(x, s, key), key)
  {
    if s != [] && key(x) >= key(s[0]) {
      var t := Insert(x, s[1..], key);
      InsertSorted(x, s[1..], key);
      var r := [s[0]] + t;
      assert Insert(x, s, key) == r;
      assert key(s[0]) <= key(t[0]) by {
        if t[0] != x {
          assert t[0] == s[1];
        }
      }
      forall i, j | 0 <= i < j < |r|
        ensures key(r[i]) <= key(r[j])
      {
        if i == 0 && j > 1 {
          assert key(t[0]) <= key(t[j - 1]);
        }
      }
    }
  }

  /** `sorted(s, key=key)`. */
  function SortBy<T>(s: seq<T>, key: T -> real): (r: seq<T>)
    ensures SortedBy(r, key)
    ensures multiset(r) == multiset(s)
    ensures |r| == |s|
  {
    if s == [] then []
    else
      assert s == s[..|s| - 1] + [s[|s| - 1]];
      var p := SortBy(s[..|s| - 1], key);
      InsertSorted(s[|s| - 1], p, key);
      Insert(s[|s| - 1], p, key)
  }

  /** Every element of a sorted result stands in the input, and conversely. */
  lemma SortByMembers<T>(s: seq<T>, key: T -> real)
    ensures forall x :: x in SortBy(s, key) <==> x in s
  {
    var r := SortBy(s, key);
    forall x
      ensures x in r <==> x in s
    {
      assert x in r <==> x in multiset(r);
      assert x in s <==> x in multiset(s);
    }
  }

  /** The tail of a sorted sequence is sorted. */
  lemma SortedTail<T>(s: seq<T>, key: T -> real)
    requires s != [] && SortedBy(s, key)
    ensures SortedBy(s[1..], key)
  {
    forall i, j | 0 <= i < j < |s| - 1
      ensures key(s[1..][i]) <= key(s[1..][j])
    {
      assert key(s[i + 1]) <= key(s[j + 1]);
    }
  }

  /** An element no larger than any of a sorted sequence can go in front. */
  lemma SortedCons<T>(x: T, t: seq<T>, key: T -> real)
    requires SortedBy(t, key) && forall y :: y in t ==> key(x) <= key(y)
    ensures SortedBy([x] + t, key)
  {
    var w := [x] + t;
    forall i, j | 0 <= i < j < |w|
      ensures key(w[i]) <= key(w[j])
    {
      assert w[j] == t[j - 1];
      if i > 0 {
        assert w[i] == t[i - 1];
      }
    }
  }

  /** The elements of `s` whose key is `c`, in the order of `s`. */
  function OfKey<T>(s: seq<T>, key: T -> real, c: real): seq<T>
  {
    if s == [] then [] else (if key(s[0]) == c then [s[0]] else []) + OfKey(s[1..], key, c)
  }

  lemma {:induction false} OfKeyAppend<T>(a: seq<T>, b: seq<T>, key: T -> real, c: real)
    ensures OfKey(a + b, key, c) == OfKey(a, key, c) + OfKey(b, key, c)
  {
    if a == [] {
      assert a + b == b;
    } else {
      assert (a + b)[0] == a[0] && (a + b)[1..] == a[1..] + b;
      OfKeyAppend(a[1..], b, key, c);
      var h := if key(a[0]) == c then [a[0]] else [];
      assert OfKey(a + b, key, c) == h + (OfKey(a[1..], key, c) + OfKey(b, key, c));
    }
  }

  /** No element of a sorted sequence whose first key exceeds `c` has key `c`. */
  lemma {:induction false} OfKeyAbove<T>(s: seq<T>, key: T -> real, c: real)
    requires SortedBy(s, key) && s != [] && c < key(s[0])
    ensures OfKey(s, key, c) == []
  {
    if |s| > 1 {
      SortedTail(s, key);
      assert key(s[0]) <= key(s[1]);
      OfKeyAbove(s[1..], key, c);
    }
  }

  /** Inserting `x` into a sorted sequence puts it after every element with the same key. */
  lemma {:induction false} InsertOfKey<T>(x: T, s: seq<T>, key: T -> real, c: real)
    requires SortedBy(s, key)
    ensures OfKey(Insert(x, s, key), key, c) == OfKey(s, key, c) + OfKey([x], key, c)
  {
    if s == [] {
    } else if key(x) < key(s[0]) {
      assert Insert(x, s, key) == [x] + s;
      InsertFront(x, s, key, c);
    } else {
      SortedTail(s, key);
      InsertOfKey(x, s[1..], key, c);
      assert Insert(x, s, key) == [s[0]] + Insert(x, s[1..], key);
      InsertLater(x, s, Insert(x, s[1..], key), key, c);
    }
  }

  /** `x` in front of a sorted sequence whose keys all exceed `key(x)`. */
  lemma InsertFront<T>(x: T, s: seq<T>, key: T -> real, c: real)
    requires SortedBy(s, key) && s != [] && key(x) < key(s[0])
    ensures OfKey([x] + s, key, c) == OfKey(s, key, c) + OfKey([x], key, c)
  {
    OfKeyAppend([x], s, key, c);
    if key(x) == c {
      OfKeyAbove(s, key, c);
    } else {
      assert OfKey([x], key, c) == [];
    }
  }

  /** `x` placed after the first element of `s`. */
  lemma InsertLater<T>(x: T, s: seq<T>, t: seq<T>, key: T -> real, c: real)
    requires s != [] && OfKey(t, key, c) == OfKey(s[1..], key, c) + OfKey([x], key, c)
    ensures OfKey([s[0]] + t, key, c) == OfKey(s, key, c) + OfKey([x], key, c)
  {
    OfKeyAppend([s[0]], t, key, c);
    OfKeyAppend([s[0]], s[1..], key, c);
    assert [s[0]] + s[1..] == s;
  }

  /** `sorted` is stable: the elements that share a key keep their order in the input. */
  lemma {:induction false} SortByStable<T>(s: seq<T>, key: T -> real, c: real)
    ensures OfKey(SortBy(s, key), key, c) == OfKey(s, key, c)
  {
    if s != [] {
      var init, x := s[..|s| - 1], s[|s| - 1];
      SortByStable(init, key, c);
      InsertOfKey(x, SortBy(init, key), key, c);
      assert s == init + [x];
      OfKeyAppend(init, [x], key, c);
    }
  }
}
