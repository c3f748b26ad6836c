/**
  Shared vocabulary: an Option type for JavaScript's `undefined`/`null`, the
  reply of an HTTP handler (status code plus body or message), and the
  sequence combinators (`filter`, `reduce` with `+`, `findIndex`, `some`)
  that the application code is written with.
 */
module Common {

  datatype Option<+T> = None | Some(value: T) {
    /** `x ?? d`, `x || d` on an optional value */
    function GetOr(default: T): T {
      match this
      case Some(v) => v
      case None => default
    }
  }

  /** What an Express handler sends: a status code and either a body or a message. */
  datatype Reply<+T> = Success(code: int, body: T) | Failure(code: int, message: string)

  /**
    What pressing a `<form>`'s submit button does: the browser blocks it
    while a `required` field is empty, and otherwise runs the `onSubmit`
    handler, whose outcome this is.
   */
  datatype Submission<+T> = Blocked | Handled(outcome: T)

  /** `s.filter(p)` */
  function Filter<T>(s: seq<T>, p: T -> bool): (r: seq<T>)
    ensures |r| <= |s|
    ensures forall i :: 0 <= i < |r| ==> r[i] in s && p(r[i])
    ensures forall i :: 0 <= i < |s| && p(s[i]) ==> s[i] in r
  {
    if s == [] then []
    else (if p(s[0]) then [s[0]] else []) + Filter(s[1..], p)
  }

  /** `s.filter(p).length` */
  function Count<T>(s: seq<T>, p: T -> bool): nat {
    |Filter(s, p)|
  }

  /** `s.reduce((sum, x) => sum + f(x), 0)` */
  function SumOf<T>(s: seq<T>, f: T -> int): int {
    if s == [] then 0 else f(s[0]) + SumOf(s[1..], f)
  }

  /** Index of the first element satisfying `p`: `s.findIndex(p)`, with `None` for -1. */
  function FindIndex<T>(s: seq<T>, p: T -> bool): (r: Option<nat>)
    ensures r.Some? ==> r.value < |s| && p(s[r.value])
    ensures r.Some? ==> forall j :: 0 <= j < r.value ==> !p(s[j])
    ensures r.None? ==> forall j :: 0 <= j < |s| ==> !p(s[j])
  {
    if s == [] then None
    else if p(s[0]) then Some(0)
    else match FindIndex(s[1..], p)
      case None => None
      case Some(k) => Some(k + 1)
  }

  /** The first position satisfying `p` is what `FindIndex` finds. */
  lemma FindIndexAt<T>(s: seq<T>, p: T -> bool, i: nat)
    requires i < |s| && p(s[i])
    requires forall j :: 0 <= j < i ==> !p(s[j])
    ensures FindIndex(s, p) == Some(i)
  {
  }

  /** When nothing satisfies `p`, `FindIndex` finds nothing. */
  lemma FindIndexNone<T>(s: seq<T>, p: T -> bool)
    requires forall j :: 0 <= j < |s| ==> !p(s[j])
    ensures FindIndex(s, p) == None
  {
  }

  /** `Math.min(...s)` for a non-empty list. */
  function MinOf(s: seq<int>): (m: int)
    requires s != []
    ensures m in s
    ensures forall x :: x in s ==> m <= x
  {
    if |s| == 1 then s[0]
    else
      var rest := MinOf(s[1..]);
      assert forall x :: x in s ==> x == s[0] || x in s[1..];
      if s[0] <= rest then s[0] else rest
  }

  /** `Math.max(...s)` for a non-empty list. */
  function MaxOf(s: seq<int>): (m: int)
    requires s != []
    ensures m in s
    ensures forall x :: x in s ==> m >= x
  {
    if |s| == 1 then s[0]
    else
      var rest := MaxOf(s[1..]);
      assert forall x :: x in s ==> x == s[0] || x in s[1..];
      if s[0] >= rest then s[0] else rest
  }

  /** `s.map(f)` */
  function Map<T, U>(s: seq<T>, f: T -> U): (r: seq<U>)
    ensures |r| == |s|
    ensures forall i :: 0 <= i < |s| ==> r[i] == f(s[i])
  {
    if s == [] then [] else [f(s[0])] + Map(s[1..], f)
  }

  /** `a` is `b` with some elements dropped and the rest kept in order. */
  predicate IsSubsequence<T(==)>(a: seq<T>, b: seq<T>) {
    if a == [] then true
    else if b == [] then false
    else (a[0] == b[0] && IsSubsequence(a[1..], b[1..])) || IsSubsequence(a, b[1..])
  }

  lemma {:induction false} FilterIsSubsequence<T>(s: seq<T>, p: T -> bool)
    ensures IsSubsequence(Filter(s, p), s)
  {
    if s != [] {
      FilterIsSubsequence(s[1..], p);
      if p(s[0]) {
        assert Filter(s, p) == [s[0]] + Filter(s[1..], p);
      } else {
        assert Filter(s, p) == Filter(s[1..], p);
      }
    }
  }

  lemma {:induction false} FilterConcat<T>(a: seq<T>, b: seq<T>, p: T -> bool)
    ensures Filter(a + b, p) == Filter(a, p) + Filter(b, p)
  {
    if a == [] {
      assert a + b == b;
    } else {
      assert (a + b)[1..] == a[1..] + b;
      FilterConcat(a[1..], b, p);
    }
  }

  /** Filtering by a weaker predicate first and then by a stronger one is filtering by the stronger one. */
  lemma {:induction false} FilterOfFilter<T>(s: seq<T>, wide: T -> bool, narrow: T -> bool)
    requires forall x :: narrow(x) ==> wide(x)
    ensures Filter(Filter(s, wide), narrow) == Filter(s, narrow)
  {
    if s != [] {
      FilterOfFilter(s[1..], wide, narrow);
      var rest := Filter(s[1..], wide);
      if wide(s[0]) {
        assert Filter(s, wide) == [s[0]] + rest;
        FilterConcat([s[0]], rest, narrow);
      } else {
        assert Filter(s, wide) == rest;
      }
    }
  }

  /** A filter that rejects nothing returns its input. */
  lemma {:induction false} FilterAll<T>(s: seq<T>, p: T -> bool)
    requires forall x :: x in s ==> p(x)
    ensures Filter(s, p) == s
  {
    if s != [] {
      FilterAll(s[1..], p);
    }
  }

  /** A filter that keeps nothing returns nothing. */
  lemma {:induction false} FilterNone<T>(s: seq<T>, p: T -> bool)
    requires forall k :: 0 <= k < |s| ==> !p(s[k])
    ensures Filter(s, p) == []
  {
    if s != [] {
      FilterNone(s[1..], p);
    }
  }

  /** A filter comes out empty exactly when no element passes it. */
  lemma FilterEmptyIff<T>(s: seq<T>, p: T -> bool)
    ensures Filter(s, p) == [] <==> forall k :: 0 <= k < |s| ==> !p(s[k])
  {
    if Filter(s, p) != [] {
      var x := Filter(s, p)[0];
      assert x in s && p(x);
      var k :| 0 <= k < |s| && s[k] == x;
    }
  }

  /** Filters with two predicates that agree on the elements give the same result. */
  lemma {:induction false} FilterSame<T>(s: seq<T>, p: T -> bool, q: T -> bool)
    requires forall x :: x in s ==> p(x) == q(x)
    ensures Filter(s, p) == Filter(s, q)
  {
    if s != [] {
      FilterSame(s[1..], p, q);
    }
  }

  /** Splitting by a predicate `p` and its complement `q` loses and invents nothing. */
  lemma {:induction false} FilterPartition<T>(s: seq<T>, p: T -> bool, q: T -> bool)
    requires forall x :: q(x) == !p(x)
    ensures |Filter(s, p)| + |Filter(s, q)| == |s|
    ensures multiset(Filter(s, p)) + multiset(Filter(s, q)) == multiset(s)
  {
    if s != [] {
      FilterPartition(s[1..], p, q);
      assert s == [s[0]] + s[1..];
    }
  }

  lemma {:induction false} SumOfConcat<T>(a: seq<T>, b: seq<T>, f: T -> int)
    ensures SumOf(a + b, f) == SumOf(a, f) + SumOf(b, f)
  {
    if a == [] {
      assert a + b == b;
    } else {
      assert (a + b)[1..] == a[1..] + b;
      SumOfConcat(a[1..], b, f);
    }
  }

  /** Replacing one element changes the sum by the difference of the two terms. */
  lemma {:induction false} SumOfUpdate<T>(s: seq<T>, i: nat, x: T, f: T -> int)
    requires i < |s|
    ensures SumOf(s[i := x], f) == SumOf(s, f) - f(s[i]) + f(x)
  {
    if i > 0 {
      assert s[i := x][1..] == s[1..][i - 1 := x];
      SumOfUpdate(s[1..], i - 1, x, f);
    } else {
      assert s[i := x][1..] == s[1..];
    }
  }

  /** The sum over a filter by `p` plus the sum over a filter by its complement `q` is the whole sum. */
  lemma {:induction false} SumOfFilterSplit<T>(s: seq<T>, p: T -> bool, q: T -> bool, f: T -> int)
    requires forall x :: q(x) == !p(x)
    ensures SumOf(Filter(s, p), f) + SumOf(Filter(s, q), f) == SumOf(s, f)
  {
    if s != [] {
      SumOfFilterSplit(s[1..], p, q, f);
      var a := Filter(s[1..], p);
      var b := Filter(s[1..], q);
      if p(s[0]) {
        assert Filter(s, p) == [s[0]] + a;
        assert Filter(s, q) == b;
        SumOfConcat([s[0]], a, f);
      } else {
        assert Filter(s, p) == a;
        assert Filter(s, q) == [s[0]] + b;
        SumOfConcat([s[0]], b, f);
      }
    }
  }

  /** Distinct keys: no two positions carry the same key. */
  predicate DistinctBy<T, K(==)>(s: seq<T>, key: T -> K) {
    forall i, j :: 0 <= i < j < |s| ==> key(s[i]) != key(s[j])
  }

  /** Dropping elements keeps keys distinct. */
  lemma {:induction false} FilterKeepsDistinct<T, K>(s: seq<T>, key: T -> K, p: T -> bool)
    requires DistinctBy(s, key)
    ensures DistinctBy(Filter(s, p), key)
  {
    if s != [] {
      FilterKeepsDistinct(s[1..], key, p);
      var rest := Filter(s[1..], p);
      if p(s[0]) {
        var r := [s[0]] + rest;
        assert Filter(s, p) == r;
        forall i, j | 0 <= i < j < |r| ensures key(r[i]) != key(r[j]) {
          if i == 0 {
            assert r[j] in s[1..];
          } else {
            assert r[i] == rest[i - 1] && r[j] == rest[j - 1];
          }
        }
      }
    }
  }
}
