/**
 * `Array.prototype.sort` with a comparator of the form `(a, b) => key(a) -
 * key(b)`. The language requires the sort to be stable, so the result is
 * determined: the elements in non-decreasing key order, elements with equal
 * keys in their original order. It is modelled as an insertion sort.
 */
module Sorting {

  /** Keys never decrease along `s`. */
  predicate SortedByKey<T>(s: seq<T>, key: T -> int) {
    forall i, j :: 0 <= i < j < |s| ==> key(s[i]) <= key(s[j])
  }

  /** The tail of a sorted sequence is sorted, and none of its keys is below the head's. */
  lemma SortedTail<T>(s: seq<T>, key: T -> int)
    requires s != [] && SortedByKey(s, key)
    ensures SortedByKey(s[1..], key)
    ensures forall i :: 1 <= i < |s| ==> key(s[0]) <= key(s[i])
  {
    var t := s[1..];
    forall i, j | 0 <= i < j < |t|
      ensures key(t[i]) <= key(t[j])
    {
      assert t[i] == s[i + 1] && t[j] == s[j + 1];
    }
  }

  /** An element with no greater key than any of a sorted sequence's can go in front of it. */
  lemma SortedCons<T>(x: T, u: seq<T>, key: T -> int)
    requires SortedByKey(u, key)
    requires forall i :: 0 <= i < |u| ==> key(x) <= key(u[i])
    ensures SortedByKey([x] + u, key)
  {
    var r := [x] + u;
    forall i, j | 0 <= i < j < |r|
      ensures key(r[i]) <= key(r[j])
    {
      assert r[j] == u[j - 1];
      if i > 0 {
        assert r[i] == u[i - 1];
      }
    }
  }

  /** `x` placed in front of the first element of `t` whose key is at least its own. */
  function InsertByKey<T>(x: T, t: seq<T>, key: T -> int): (r: seq<T>)
    ensures |r| == |t| + 1
  {
    if t == [] || key(x) <= key(t[0]) then [x] + t else [t[0]] + InsertByKey(x, t[1..], key)
  }

  /** An insertion adds exactly the inserted element. */
  lemma {:induction false} InsertByKeyPermutes<T>(x: T, t: seq<T>, key: T -> int)
    ensures multiset(InsertByKey(x, t, key)) == multiset(t) + multiset{x}
  {
    if t != [] && key(x) > key(t[0]) {
      assert t == [t[0]] + t[1..];
      InsertByKeyPermutes(x, t[1..], key);
    }
  }

  /** Every element of an insertion is the inserted one or comes from the target. */
  lemma InsertByKeyElements<T>(x: T, t: seq<T>, key: T -> int, y: T)
    requires y in InsertByKey(x, t, key)
    ensures y == x || y in t
  {
    InsertByKeyPermutes(x, t, key);
    assert y in multiset(InsertByKey(x, t, key));
  }

  /** Inserting into a sorted sequence keeps it sorted. */
  lemma {:induction false} InsertByKeySorted<T>(x: T, t: seq<T>, key: T -> int)
    requires SortedByKey(t, key)
    ensures SortedByKey(InsertByKey(x, t, key), key)
  {
    if t != [] && key(x) > key(t[0]) {
      var tail := t[1..];
      assert SortedByKey(tail, key) by {
        forall i, j | 0 <= i < j < |tail|
          ensures key(tail[i]) <= key(tail[j])
        {
          assert tail[i] == t[i + 1] && tail[j] == t[j + 1];
        }
      }
      InsertByKeySorted(x, tail, key);
      var rest := InsertByKey(x, tail, key);
      var r := [t[0]] + rest;
      forall j | 0 <= j < |rest|
        ensures key(t[0]) <= key(rest[j])
      {
        InsertByKeyElements(x, tail, key, rest[j]);
        if rest[j] != x {
          var m :| 0 <= m < |tail| && tail[m] == rest[j];
          assert t[m + 1] == rest[j];
        }
      }
      forall i, j | 0 <= i < j < |r|
        ensures key(r[i]) <= key(r[j])
      {
        if i > 0 {
          assert r[i] == rest[i - 1] && r[j] == rest[j - 1];
        } else {
          assert r[j] == rest[j - 1];
        }
      }
    }
  }

  /** The stable sort of `s` by `key`: a sequence as long as `s` whose keys never decrease. */
  function SortByKey<T>(s: seq<T>, key: T -> int): (r: seq<T>)
    ensures |r| == |s|
    ensures SortedByKey(r, key)
  {
    if s == [] then []
    else
      InsertByKeySorted(s[0], SortByKey(s[1..], key), key);
      InsertByKey(s[0], SortByKey(s[1..], key), key)
  }

  /** The sort rearranges: it keeps every element, as often as it occurs. */
  lemma {:induction false} SortByKeyPermutes<T>(s: seq<T>, key: T -> int)
    ensures multiset(SortByKey(s, key)) == multiset(s)
  {
    if s != [] {
      assert s == [s[0]] + s[1..];
      SortByKeyPermutes(s[1..], key);
      InsertByKeyPermutes(s[0], SortByKey(s[1..], key), key);
    }
  }

  /** The sort keeps exactly the elements it is given. */
  lemma SortByKeyMembers<T>(s: seq<T>, key: T -> int, x: T)
    ensures x in SortByKey(s, key) <==> x in s
  {
    SortByKeyPermutes(s, key);
    assert x in multiset(SortByKey(s, key)) <==> x in multiset(s);
  }

  lemma InsertInFront<T>(x: T, t: seq<T>, key: T -> int)
    requires t == [] || key(x) <= key(t[0])
    ensures InsertByKey(x, t, key) == [x] + t
  {
  }

  lemma InsertBehind<T>(x: T, t: seq<T>, key: T -> int)
    requires t != [] && key(x) > key(t[0])
    ensures InsertByKey(x, t, key) == [t[0]] + InsertByKey(x, t[1..], key)
  {
  }

  lemma SortByKeyCons<T>(s: seq<T>, key: T -> int)
    requires s != []
    ensures SortByKey(s, key) == InsertByKey(s[0], SortByKey(s[1..], key), key)
  {
  }

  /** Three elements with keys 1, 2 and 0 come out as the third, the first, the second. */
  lemma SortThree<T>(a: T, b: T, c: T, key: T -> int)
    requires key(a) == 1 && key(b) == 2 && key(c) == 0
    ensures SortByKey([a, b, c], key) == [c, a, b]
  {
    var s3, s2, s1 := [a, b, c], [b, c], [c];
    assert s3[1..] == s2 && s2[1..] == s1 && s1[1..] == [];
    SortByKeyCons(s1, key);
    InsertInFront(c, [], key);
    assert SortByKey(s1, key) == s1;
    SortByKeyCons(s2, key);
    InsertBehind(b, s1, key);
    InsertInFront(b, [], key);
    assert SortByKey(s2, key) == [c, b];
    SortByKeyCons(s3, key);
    InsertBehind(a, [c, b], key);
    assert [c, b][1..] == [b];
    InsertInFront(a, [b], key);
  }

  /** Sorting twice is sorting once. */
  lemma SortByKeyIdempotent<T>(s: seq<T>, key: T -> int)
    ensures SortByKey(SortByKey(s, key), key) == SortByKey(s, key)
  {
    SortByKeySortedIsIdentity(SortByKey(s, key), key);
  }

  /** The elements of `s` whose key is `k`, in their order in `s`. */
  function WithKey<T>(s: seq<T>, key: T -> int, k: int): seq<T> {
    if s == [] then [] else (if key(s[0]) == k then [s[0]] else []) + WithKey(s[1..], key, k)
  }

  lemma WithKeyCons<T>(x: T, s: seq<T>, key: T -> int, k: int)
    ensures WithKey([x] + s, key, k) == (if key(x) == k then [x] else []) + WithKey(s, key, k)
  {
    assert ([x] + s)[0] == x && ([x] + s)[1..] == s;
  }

  lemma {:induction false} WithKeyInsert<T>(x: T, t: seq<T>, key: T -> int, k: int)
    ensures WithKey(InsertByKey(x, t, key), key, k) == (if key(x) == k then [x] else []) + WithKey(t, key, k)
  {
    var tx := if key(x) == k then [x] else [];
    if t == [] || key(x) <= key(t[0]) {
      InsertInFront(x, t, key);
      WithKeyCons(x, t, key, k);
    } else {
      var rest := InsertByKey(x, t[1..], key);
      var t0 := if key(t[0]) == k then [t[0]] else [];
      InsertBehind(x, t, key);
      WithKeyCons(t[0], rest, key, k);
      WithKeyInsert(x, t[1..], key, k);
      assert t == [t[0]] + t[1..];
      WithKeyCons(t[0], t[1..], key, k);
      assert t0 == [] || tx == [];
      calc {
        WithKey(InsertByKey(x, t, key), key, k);
        t0 + (tx + WithKey(t[1..], key, k));
        tx + (t0 + WithKey(t[1..], key, k));
        tx + WithKey(t, key, k);
      }
    }
  }

  /**
   * The sort is stable: the elements of any one key come out in the order
   * they went in. With the key order this fixes the output completely.
   */
  lemma {:induction false} SortByKeyStable<T>(s: seq<T>, key: T -> int, k: int)
    ensures WithKey(SortByKey(s, key), key, k) == WithKey(s, key, k)
  {
    if s != [] {
      SortByKeyStable(s[1..], key, k);
      WithKeyInsert(s[0], SortByKey(s[1..], key), key, k);
    }
  }

  /** A sequence whose keys already never decrease is left as it is. */
  lemma {:induction false} SortByKeySortedIsIdentity<T>(s: seq<T>, key: T -> int)
    requires SortedByKey(s, key)
    ensures SortByKey(s, key) == s
  {
    if s != [] {
      var tail := s[1..];
      assert SortedByKey(tail, key) by {
        forall i, j | 0 <= i < j < |tail|
          ensures key(tail[i]) <= key(tail[j])
        {
          assert tail[i] == s[i + 1] && tail[j] == s[j + 1];
        }
      }
      SortByKeySortedIsIdentity(tail, key);
      if tail != [] {
        assert key(s[0]) <= key(tail[0]);
      }
    }
  }
}
