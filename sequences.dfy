/**
  Generic sequence operations that give meaning to the relational building
  blocks of the pipeline: filtering rows by a key (the groups of a GROUP BY),
  the distinct keys of a column in order of first appearance (the group keys,
  and `nunique`), keeping the rows that satisfy a predicate (HAVING), and
  exact sums of a numeric column.
*/
module Sequences {

  /** No element occurs twice. */
  predicate NoDuplicates<T(==)>(s: seq<T>) {
    forall i, j :: 0 <= i < j < |s| ==> s[i] != s[j]
  }

  /** `f` takes distinct values on distinct positions of `s`. */
  predicate InjectiveOn<T, K(==)>(s: seq<T>, f: T -> K) {
    forall i, j :: 0 <= i < j < |s| ==> f(s[i]) != f(s[j])
  }

  /** The set of values `f` takes on `s`. */
  ghost function Image<T, K>(s: seq<T>, f: T -> K): set<K> {
    set x | x in s :: f(x)
  }

  /** The elements of `s` whose key is `k`, in their original order. */
  function Filter<T, K(==)>(s: seq<T>, key: T -> K, k: K): (r: seq<T>)
    ensures |r| <= |s|
    ensures forall x :: x in r ==> x in s && key(x) == k
    ensures forall i :: 0 <= i < |s| && key(s[i]) == k ==> s[i] in r
  {
    if |s| == 0 then []
    else Filter(s[..|s| - 1], key, k) + (if key(s[|s| - 1]) == k then [s[|s| - 1]] else [])
  }

  /** The elements of `s` that satisfy `p`, in their original order. */
  function Keep<T(==)>(s: seq<T>, p: T -> bool): (r: seq<T>)
    ensures |r| <= |s|
    ensures forall x :: x in r ==> x in s && p(x)
    ensures forall x :: x in s && p(x) ==> x in r
    ensures NoDuplicates(s) ==> NoDuplicates(r)
  {
    if |s| == 0 then []
    else
      var init := Keep(s[..|s| - 1], p);
      assert forall x :: x in s[..|s| - 1] ==> x in s;
      init + (if p(s[|s| - 1]) then [s[|s| - 1]] else [])
  }

  /**
    The distinct values of `key` over `s`, in order of first appearance.
    Its length is the number of distinct keys (pandas `nunique`).
  */
  function DistinctKeys<T, K(==)>(s: seq<T>, key: T -> K): (ks: seq<K>)
    ensures NoDuplicates(ks)
    ensures forall k :: k in ks ==> k in Image(s, key)
    ensures forall k :: k in Image(s, key) ==> k in ks
    ensures |ks| <= |s|
    ensures |s| > 0 ==> |ks| > 0
    ensures |ks| == |s| <==> InjectiveOn(s, key)
  {
    if |s| == 0 then []
    else
      var init, last := s[..|s| - 1], s[|s| - 1];
      var ks0 := DistinctKeys(init, key);
      assert forall x :: x in s ==> x in init || x == last;
      assert forall x :: x in init ==> x in s;
      if key(last) in ks0 then
        assert !InjectiveOn(s, key) by {
          assert key(last) in Image(init, key);
          var x :| x in init && key(x) == key(last);
          var i :| 0 <= i < |init| && init[i] == x;
          assert s[i] == x && key(s[i]) == key(s[|s| - 1]);
        }
        ks0
      else
        assert InjectiveOn(s, key) <==> InjectiveOn(init, key) by {
          if InjectiveOn(init, key) {
            forall i | 0 <= i < |init| ensures key(s[i]) != key(last) {
              assert key(init[i]) in Image(init, key);
            }
          }
        }
        ks0 + [key(last)]
  }

  /** Exact sum of `f` over `s`. */
  function Sum<T>(s: seq<T>, f: T -> real): real {
    if |s| == 0 then 0.0 else Sum(s[..|s| - 1], f) + f(s[|s| - 1])
  }

  /** Exact integer sum of `f` over `s`. */
  function IntSum<T>(s: seq<T>, f: T -> int): int {
    if |s| == 0 then 0 else IntSum(s[..|s| - 1], f) + f(s[|s| - 1])
  }

  /** Sum over the keys `ks` of the sums of `f` over each key's group. */
  function SumByKeys<T, K(==)>(s: seq<T>, key: T -> K, ks: seq<K>, f: T -> real): real {
    if |ks| == 0 then 0.0
    else SumByKeys(s, key, ks[..|ks| - 1], f) + Sum(Filter(s, key, ks[|ks| - 1]), f)
  }

  lemma {:induction false} SumAppend<T>(s: seq<T>, x: T, f: T -> real)
    ensures Sum(s + [x], f) == Sum(s, f) + f(x)
  {
    assert (s + [x])[..|s|] == s;
  }

  lemma {:induction false} IntSumAppend<T>(s: seq<T>, x: T, f: T -> int)
    ensures IntSum(s + [x], f) == IntSum(s, f) + f(x)
  {
    assert (s + [x])[..|s|] == s;
  }

  lemma {:induction false} IntSumAsSum<T>(s: seq<T>, f: T -> int, g: T -> real)
    requires forall x :: g(x) == f(x) as real
    ensures IntSum(s, f) as real == Sum(s, g)
  {
    if |s| > 0 {
      IntSumAsSum(s[..|s| - 1], f, g);
    }
  }

  lemma {:induction false} SumByKeysOfEmpty<T, K>(key: T -> K, ks: seq<K>, f: T -> real)
    ensures SumByKeys([], key, ks, f) == 0.0
  {
    if |ks| > 0 {
      SumByKeysOfEmpty(key, ks[..|ks| - 1], f);
    }
  }

  /** Appending one element adds its measure to exactly the one group of its key. */
  lemma {:induction false} SumByKeysAppend<T, K>(s: seq<T>, x: T, key: T -> K, ks: seq<K>, f: T -> real)
    requires NoDuplicates(ks)
    ensures SumByKeys(s + [x], key, ks, f) == SumByKeys(s, key, ks, f) + (if key(x) in ks then f(x) else 0.0)
  {
    if |ks| > 0 {
      var front, k := ks[..|ks| - 1], ks[|ks| - 1];
      assert NoDuplicates(front);
      SumByKeysAppend(s, x, key, front, f);
      assert (s + [x])[..|s|] == s;
      assert Filter(s + [x], key, k) == Filter(s, key, k) + (if key(x) == k then [x] else []);
      if key(x) == k {
        SumAppend(Filter(s, key, k), x, f);
        assert key(x) !in front;
      } else {
        assert Filter(s, key, k) + [] == Filter(s, key, k);
      }
      assert key(x) in ks <==> key(x) in front || key(x) == k;
    }
  }

  /**
    Conservation over a partition: when the keys are distinct and cover every
    element, summing the per-group sums gives the sum over all elements.
  */
  lemma {:induction false} SumByKeysIsSum<T, K>(s: seq<T>, key: T -> K, ks: seq<K>, f: T -> real)
    requires NoDuplicates(ks)
    requires forall i :: 0 <= i < |s| ==> key(s[i]) in ks
    ensures SumByKeys(s, key, ks, f) == Sum(s, f)
  {
    if |s| == 0 {
      assert s == [];
      SumByKeysOfEmpty(key, ks, f);
    } else {
      var init, x := s[..|s| - 1], s[|s| - 1];
      assert s == init + [x];
      forall i | 0 <= i < |init| ensures key(init[i]) in ks {
        assert init[i] == s[i];
      }
      SumByKeysIsSum(init, key, ks, f);
      SumByKeysStep(init, x, key, ks, f);
    }
  }

  lemma SumByKeysStep<T, K>(s: seq<T>, x: T, key: T -> K, ks: seq<K>, f: T -> real)
    requires NoDuplicates(ks) && key(x) in ks
    requires SumByKeys(s, key, ks, f) == Sum(s, f)
    ensures SumByKeys(s + [x], key, ks, f) == Sum(s + [x], f)
  {
    SumByKeysAppend(s, x, key, ks, f);
    SumAppend(s, x, f);
  }

  /**
    Summaries `us`, one per key of `ks`, whose measure `m` is the sum of `f`
    over that key's group, add up to the sum of the per-group sums.
  */
  lemma {:induction false} SumOfSummaries<T, K, U>(s: seq<T>, key: T -> K, ks: seq<K>, us: seq<U>, m: U -> real, f: T -> real)
    requires |us| == |ks|
    requires forall i :: 0 <= i < |ks| ==> m(us[i]) == Sum(Filter(s, key, ks[i]), f)
    ensures Sum(us, m) == SumByKeys(s, key, ks, f)
  {
    if |ks| > 0 {
      SumOfSummaries(s, key, ks[..|ks| - 1], us[..|us| - 1], m, f);
    }
  }

  /** Summing a measure that is 1 everywhere counts the elements. */
  lemma {:induction false} SumOfOnes<T>(s: seq<T>, f: T -> real)
    requires forall x :: f(x) == 1.0
    ensures Sum(s, f) == |s| as real
  {
    if |s| > 0 {
      SumOfOnes(s[..|s| - 1], f);
    }
  }

  /** A duplicate-free sequence has each element at most once in its multiset. */
  lemma {:induction false} NoDuplicatesMultiplicity<T>(s: seq<T>)
    ensures NoDuplicates(s) <==> forall x :: multiset(s)[x] <= 1
  {
    if |s| > 0 {
      var init, last := s[..|s| - 1], s[|s| - 1];
      NoDuplicatesMultiplicity(init);
      assert s == init + [last];
      assert multiset(s) == multiset(init) + multiset{last};
      if NoDuplicates(s) {
        assert NoDuplicates(init);
      }
      if forall x :: multiset(s)[x] <= 1 {
        assert forall x :: multiset(init)[x] <= 1 by {
          forall x ensures multiset(init)[x] <= 1 {
            assert multiset(s)[x] <= 1;
          }
        }
        assert multiset(s)[last] <= 1;
        assert last !in init;
        forall i, j | 0 <= i < j < |s| ensures s[i] != s[j] {
          if j < |s| - 1 {
            assert s[i] == init[i] && s[j] == init[j];
          } else {
            assert s[i] == init[i] && init[i] in init;
          }
        }
      }
    }
  }

  /** A sub-multiset of a duplicate-free sequence is duplicate-free. */
  lemma SubMultisetNoDuplicates<T>(a: seq<T>, b: seq<T>)
    requires multiset(a) <= multiset(b)
    requires NoDuplicates(b)
    ensures NoDuplicates(a)
  {
    NoDuplicatesMultiplicity(a);
    NoDuplicatesMultiplicity(b);
    forall x ensures multiset(a)[x] <= 1 {
      assert multiset(a)[x] <= multiset(b)[x];
    }
  }
}
