/**
  `Array.prototype.sort` with a numeric comparator `(a, b) => key(a) - key(b)`.
  The ECMAScript specification requires this sort to be stable, so it is
  modelled by a stable insertion sort: elements with equal keys keep their
  original order.
 */
module Sorting {
  import opened Common

  /** Inserts `x`, which came before every element of `t`, in front of the first element whose key is not smaller. */
  function Insert<T>(x: T, t: seq<T>, key: T -> int): (r: seq<T>)
    ensures |r| == |t| + 1
    ensures multiset(r) == multiset(t) + multiset{x}
  {
    if t == [] || key(x) <= key(t[0]) then [x] + t
    else
      assert t == [t[0]] + t[1..];
      [t[0]] + Insert(x, t[1..], key)
  }

  function SortBy<T>(s: seq<T>, key: T -> int): (r: seq<T>)
    ensures |r| == |s|
    ensures multiset(r) == multiset(s)
  {
    if s == [] then []
    else
      assert s == [s[0]] + s[1..];
      Insert(s[0], SortBy(s[1..], key), key)
  }

  predicate SortedBy<T>(s: seq<T>, key: T -> int) {
    forall i, j :: 0 <= i < j < |s| ==> key(s[i]) <= key(s[j])
  }

  /** Position of the first element whose key is the smallest. */
  function FirstMinIndex<T>(s: seq<T>, key: T -> int): (r: nat)
    requires s != []
    ensures r < |s|
    ensures forall j :: 0 <= j < |s| ==> key(s[r]) <= key(s[j])
    ensures forall j :: 0 <= j < r ==> key(s[r]) < key(s[j])
  {
    if |s| == 1 then 0
    else
      var k := FirstMinIndex(s[1..], key);
      if key(s[0]) <= key(s[1..][k]) then 0 else k + 1
  }

  lemma {:induction false} InsertSorted<T>(x: T, t: seq<T>, key: T -> int)
    requires SortedBy(t, key)
    ensures SortedBy(Insert(x, t, key), key)
  {
    if t != [] && key(x) > key(t[0]) {
      InsertSorted(x, t[1..], key);
      var r := Insert(x, t, key);
      var tail := Insert(x, t[1..], key);
      assert r == [t[0]] + tail;
      forall j | 0 < j < |r| ensures key(r[0]) <= key(r[j]) {
        assert r[j] in multiset(tail);
        assert r[j] in multiset(t[1..]) + multiset{x};
        if r[j] != x {
          assert r[j] in t[1..];
        }
      }
    }
  }

  /** The sort orders by key. */
  lemma {:induction false} SortBySorted<T>(s: seq<T>, key: T -> int)
    ensures SortedBy(SortBy(s, key), key)
  {
    if s != [] {
      SortBySorted(s[1..], key);
      InsertSorted(s[0], SortBy(s[1..], key), key);
    }
  }

  /** The first element of the sorted list is the first of the cheapest elements of the input. */
  lemma {:induction false} SortByHead<T>(s: seq<T>, key: T -> int)
    requires s != []
    ensures SortBy(s, key)[0] == s[FirstMinIndex(s, key)]
  {
    if |s| > 1 {
      var rest := SortBy(s[1..], key);
      SortByHead(s[1..], key);
      var k := FirstMinIndex(s[1..], key);
      assert rest[0] == s[1..][k];
    }
  }

  /**
    Mapping every element and then sorting by a key of the images is
    sorting by the matching key first and mapping afterwards.
   */
  lemma {:induction false} InsertMap<T, U>(x: T, t: seq<T>, key: T -> int, f: T -> U, fkey: U -> int)
    requires forall y :: fkey(f(y)) == key(y)
    ensures Map(Insert(x, t, key), f) == Insert(f(x), Map(t, f), fkey)
  {
    if t != [] && key(x) > key(t[0]) {
      InsertMap(x, t[1..], key, f, fkey);
      assert Map(t, f)[1..] == Map(t[1..], f);
    }
  }

  lemma {:induction false} SortByMap<T, U>(s: seq<T>, key: T -> int, f: T -> U, fkey: U -> int)
    requires forall y :: fkey(f(y)) == key(y)
    ensures Map(SortBy(s, key), f) == SortBy(Map(s, f), fkey)
  {
    if s != [] {
      SortByMap(s[1..], key, f, fkey);
      InsertMap(s[0], SortBy(s[1..], key), key, f, fkey);
      assert Map(s, f)[1..] == Map(s[1..], f);
    }
  }
}
