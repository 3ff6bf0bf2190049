/**
  ORDER BY <score> DESC LIMIT k, as a function on sequences: an insertion
  sort by a real-valued score, descending, followed by taking a prefix.
  Ties are kept in no particular order: only sortedness and permutation are
  promised, since the SQL engine promises nothing more.
*/
module Ranking {
  import opened Sequences

  /** `s` is in non-increasing order of `score`. */
  predicate SortedDesc<T>(s: seq<T>, score: T -> real) {
    forall i, j :: 0 <= i < j < |s| ==> score(s[i]) >= score(s[j])
  }

  function Min(a: int, b: int): int {
    if a <= b then a else b
  }

  /** Inserts `x` into `s` before the first element that scores no higher. */
  function Insert<T(==)>(x: T, s: seq<T>, score: T -> real): (r: seq<T>)
    ensures |r| == |s| + 1
    ensures multiset(r) == multiset(s) + multiset{x}
    decreases |s|
  {
    if |s| == 0 then [x]
    else if score(x) >= score(s[0]) then [x] + s
    else
      assert s == [s[0]] + s[1..];
      [s[0]] + Insert(x, s[1..], score)
  }

  /** Prepending an element that scores at least as high as every element keeps the order. */
  lemma PrependSorted<T>(y: T, s: seq<T>, score: T -> real)
    requires SortedDesc(s, score)
    requires forall j :: 0 <= j < |s| ==> score(y) >= score(s[j])
    ensures SortedDesc([y] + s, score)
  {
    var r := [y] + s;
    forall i, j | 0 <= i < j < |r| ensures score(r[i]) >= score(r[j]) {
      assert r[j] == s[j - 1];
      if i > 0 {
        assert r[i] == s[i - 1];
      }
    }
  }

  lemma {:induction false} InsertSorted<T>(x: T, s: seq<T>, score: T -> real)
    requires SortedDesc(s, score)
    ensures SortedDesc(Insert(x, s, score), score)
    decreases |s|
  {
    if |s| == 0 {
    } else if score(x) >= score(s[0]) {
      PrependSorted(x, s, score);
    } else {
      var tail := s[1..];
      assert SortedDesc(tail, score);
      InsertSorted(x, tail, score);
      var rest := Insert(x, tail, score);
      forall j | 0 <= j < |rest| ensures score(s[0]) >= score(rest[j]) {
        assert rest[j] in multiset(tail) + multiset{x};
        if rest[j] != x {
          assert rest[j] in tail;
          var p :| 0 <= p < |tail| && tail[p] == rest[j];
          assert tail[p] == s[p + 1];
        }
      }
      PrependSorted(s[0], rest, score);
    }
  }

  /** The elements of `s` rearranged in non-increasing order of `score`. */
  function SortDesc<T(==)>(s: seq<T>, score: T -> real): (r: seq<T>)
    ensures |r| == |s|
    ensures multiset(r) == multiset(s)
  {
    if |s| == 0 then []
    else
      assert s == [s[0]] + s[1..];
      Insert(s[0], SortDesc(s[1..], score), score)
  }

  lemma {:induction false} SortDescSorted<T>(s: seq<T>, score: T -> real)
    ensures SortedDesc(SortDesc(s, score), score)
  {
    if |s| > 0 {
      SortDescSorted(s[1..], score);
      InsertSorted(s[0], SortDesc(s[1..], score), score);
    }
  }

  /** The first `k` elements of `s` in non-increasing order of `score`. */
  function TopK<T(==)>(s: seq<T>, score: T -> real, k: nat): seq<T> {
    SortDesc(s, score)[..Min(k, |s|)]
  }

  lemma TopKIsPrefix<T>(s: seq<T>, score: T -> real, k: nat)
    ensures |SortDesc(s, score)| == |s|
    ensures SortDesc(s, score) == TopK(s, score, k) + SortDesc(s, score)[Min(k, |s|)..]
    ensures multiset(s) == multiset(TopK(s, score, k)) + multiset(SortDesc(s, score)[Min(k, |s|)..])
  {
    var sorted := SortDesc(s, score);
    assert |multiset(sorted)| == |multiset(s)|;
    assert sorted == sorted[..Min(k, |s|)] + sorted[Min(k, |s|)..];
  }

  /** An element of `s` that ORDER BY ... LIMIT drops scores no higher than any kept one. */
  lemma TopKLeftOut<T>(s: seq<T>, score: T -> real, k: nat, x: T, j: int)
    requires x in s && x !in TopK(s, score, k)
    requires 0 <= j < |TopK(s, score, k)|
    ensures score(x) <= score(TopK(s, score, k)[j])
  {
    var sorted := SortDesc(s, score);
    var n := Min(k, |s|);
    TopKIsPrefix(s, score, k);
    SortDescSorted(s, score);
    assert x in multiset(s);
    assert x in multiset(sorted[n..]);
    var p :| 0 <= p < |sorted[n..]| && sorted[n..][p] == x;
    assert sorted[n + p] == x;
    assert TopK(s, score, k)[j] == sorted[j];
  }

  /**
    What a caller may rely on from ORDER BY ... DESC LIMIT k: the result has
    min(k, |s|) elements taken from `s`, is sorted, keeps distinctness, and no
    element of `s` left out scores higher than one that was kept.
  */
  lemma TopKProperties<T>(s: seq<T>, score: T -> real, k: nat)
    ensures |TopK(s, score, k)| == Min(k, |s|)
    ensures multiset(TopK(s, score, k)) <= multiset(s)
    ensures forall x :: x in TopK(s, score, k) ==> x in s
    ensures SortedDesc(TopK(s, score, k), score)
    ensures NoDuplicates(s) ==> NoDuplicates(TopK(s, score, k))
    ensures |s| <= k ==> multiset(TopK(s, score, k)) == multiset(s)
    ensures forall x, j :: x in s && x !in TopK(s, score, k) && 0 <= j < |TopK(s, score, k)| ==>
              score(x) <= score(TopK(s, score, k)[j])
  {
    var r := TopK(s, score, k);
    TopKIsPrefix(s, score, k);
    SortDescSorted(s, score);
    forall x | x in r ensures x in s {
      assert x in multiset(r);
      assert x in multiset(s);
    }
    if NoDuplicates(s) {
      SubMultisetNoDuplicates(r, s);
    }
    if |s| <= k {
      assert SortDesc(s, score)[Min(k, |s|)..] == [];
    }
    forall x, j | x in s && x !in r && 0 <= j < |r| ensures score(x) <= score(r[j]) {
      TopKLeftOut(s, score, k, x, j);
    }
  }
}
