/**
  SQL's `GROUP BY` over a sequence of rows: the distinct keys in order of
  first appearance, the rows of one key, and the fact that summing a column
  group by group gives the sum over all rows.
 */
module Grouping {
  import opened Common

  function KeyIs<T, K(==)>(key: T -> K, k: K): T -> bool {
    (x: T) => key(x) == k
  }

  function KeyIsNot<T, K(==)>(key: T -> K, k: K): T -> bool {
    (x: T) => key(x) != k
  }

  /** The distinct keys of `s`, each once, in order of first appearance. */
  function DistinctKeys<T, K(==)>(s: seq<T>, key: T -> K): (r: seq<K>)
    ensures forall i, j :: 0 <= i < j < |r| ==> r[i] != r[j]
    ensures forall i :: 0 <= i < |s| ==> key(s[i]) in r
    ensures forall k :: k in r ==> exists i :: 0 <= i < |s| && key(s[i]) == k
  {
    if s == [] then []
    else
      var init := s[..|s| - 1];
      var rest := DistinctKeys(init, key);
      var k := key(s[|s| - 1]);
      assert forall i :: 0 <= i < |init| ==> init[i] == s[i];
      if k in rest then rest else rest + [k]
  }

  /** The constant column `1`, whose sum is `COUNT(*)`. */
  function One<T>(x: T): int {
    1
  }

  /** The sum of column `f` within each group of `keys`, added up. */
  function SumByKey<T, K(==)>(s: seq<T>, keys: seq<K>, key: T -> K, f: T -> int): int {
    if keys == [] then 0
    else SumOf(Filter(s, KeyIs(key, keys[0])), f) + SumByKey(s, keys[1..], key, f)
  }

  lemma {:induction false} SumOfOnes<T>(s: seq<T>)
    ensures SumOf(s, One) == |s|
  {
    if s != [] {
      SumOfOnes(s[1..]);
    }
  }

  /** Rows whose key is not among `keys` do not contribute to their groups. */
  lemma {:induction false} SumByKeyRestrict<T, K>(s: seq<T>, keys: seq<K>, key: T -> K, f: T -> int, k0: K)
    requires k0 !in keys
    ensures SumByKey(s, keys, key, f) == SumByKey(Filter(s, KeyIsNot(key, k0)), keys, key, f)
  {
    if keys != [] {
      FilterOfFilter(s, KeyIsNot(key, k0), KeyIs(key, keys[0]));
      SumByKeyRestrict(s, keys[1..], key, f, k0);
    }
  }

  /**
    When `keys` lists every key of the rows once, the per-group sums add up
    to the sum over all rows: grouping loses and duplicates nothing.
   */
  lemma {:induction false} SumsCover<T, K>(s: seq<T>, keys: seq<K>, key: T -> K, f: T -> int)
    requires forall i, j :: 0 <= i < j < |keys| ==> keys[i] != keys[j]
    requires forall i :: 0 <= i < |s| ==> key(s[i]) in keys
    ensures SumByKey(s, keys, key, f) == SumOf(s, f)
    decreases |keys|
  {
    if keys == [] {
      assert s == [];
    } else {
      var k0 := keys[0];
      var others := Filter(s, KeyIsNot(key, k0));
      assert k0 !in keys[1..] by {
        forall j | 0 <= j < |keys[1..]| ensures keys[1..][j] != k0 {
          assert keys[1..][j] == keys[j + 1];
        }
      }
      SumByKeyRestrict(s, keys[1..], key, f, k0);
      forall i | 0 <= i < |others| ensures key(others[i]) in keys[1..] {
        assert others[i] in s && KeyIsNot(key, k0)(others[i]);
        assert key(others[i]) in keys;
      }
      SumsCover(others, keys[1..], key, f);
      SumOfFilterSplit(s, KeyIs(key, k0), KeyIsNot(key, k0), f);
    }
  }
}
