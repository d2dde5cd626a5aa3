/**
 * The settlement ranking (settlement.js, step 9 of `calculateSettlement`):
 * `[...players].sort((a, b) => b.currentScore - a.currentScore)`. Since
 * ECMAScript 2019 `Array.prototype.sort` is stable, so the result is the
 * list ordered by non-increasing score in which players with equal scores
 * keep their input order. The sort here is a reference definition of that
 * order, generic in the element type and the score it is keyed on.
 */
module Ranking {

  /** Places `x` in front of the first element whose score is not above its
      own, so that `x` precedes every element of equal score. */
  function Insert<T>(x: T, ys: seq<T>, key: T -> int): (r: seq<T>)
    ensures |r| == |ys| + 1
  {
    if ys == [] || key(ys[0]) <= key(x) then [x] + ys
    else [ys[0]] + Insert(x, ys[1..], key)
  }

  /** Stable sort by descending `key`. */
  function Sort<T>(xs: seq<T>, key: T -> int): (r: seq<T>)
    ensures |r| == |xs|
  {
    if xs == [] then [] else Insert(xs[0], Sort(xs[1..], key), key)
  }

  /** Scores never increase along the list. */
  predicate SortedDesc<T>(xs: seq<T>, key: T -> int) {
    forall i, j :: 0 <= i < j < |xs| ==> key(xs[i]) >= key(xs[j])
  }

  /** The elements whose score is `v`, in list order. */
  function WithKey<T>(xs: seq<T>, key: T -> int, v: int): (r: seq<T>)
    ensures |r| <= |xs|
  {
    if xs == [] then []
    else if key(xs[0]) == v then [xs[0]] + WithKey(xs[1..], key, v)
    else WithKey(xs[1..], key, v)
  }

  lemma {:induction false} InsertSorted<T>(x: T, ys: seq<T>, key: T -> int)
    requires SortedDesc(ys, key)
    ensures SortedDesc(Insert(x, ys, key), key)
    ensures forall k :: 0 <= k < |Insert(x, ys, key)| ==>
      Insert(x, ys, key)[k] == x || Insert(x, ys, key)[k] in ys
  {
    if ys != [] && key(ys[0]) > key(x) {
      var rest := Insert(x, ys[1..], key);
      InsertSorted(x, ys[1..], key);
      assert Insert(x, ys, key) == [ys[0]] + rest;
      forall k | 0 <= k < |rest|
        ensures key(ys[0]) >= key(rest[k])
      {
        if rest[k] != x {
          var j :| 0 <= j < |ys[1..]| && ys[1..][j] == rest[k];
          assert ys[j + 1] == rest[k];
        }
      }
    }
  }

  /** The ranking is ordered by non-increasing score. */
  lemma {:induction false} SortSorted<T>(xs: seq<T>, key: T -> int)
    ensures SortedDesc(Sort(xs, key), key)
  {
    if xs != [] {
      SortSorted(xs[1..], key);
      InsertSorted(xs[0], Sort(xs[1..], key), key);
    }
  }

  lemma {:induction false} InsertPermutation<T>(x: T, ys: seq<T>, key: T -> int)
    ensures multiset(Insert(x, ys, key)) == multiset(ys) + multiset{x}
  {
    if ys != [] && key(ys[0]) > key(x) {
      InsertPermutation(x, ys[1..], key);
      assert ys == [ys[0]] + ys[1..];
    }
  }

  /** The ranking holds the same players, each as often as in the input. */
  lemma {:induction false} SortPermutation<T>(xs: seq<T>, key: T -> int)
    ensures multiset(Sort(xs, key)) == multiset(xs)
  {
    if xs != [] {
      SortPermutation(xs[1..], key);
      InsertPermutation(xs[0], Sort(xs[1..], key), key);
      assert xs == [xs[0]] + xs[1..];
    }
  }

  lemma {:induction false} InsertWithKey<T>(x: T, ys: seq<T>, key: T -> int, v: int)
    ensures WithKey(Insert(x, ys, key), key, v) ==
      if key(x) == v then [x] + WithKey(ys, key, v) else WithKey(ys, key, v)
  {
    if ys != [] && key(ys[0]) > key(x) {
      InsertWithKey(x, ys[1..], key, v);
      assert Insert(x, ys, key)[1..] == Insert(x, ys[1..], key);
    } else {
      assert Insert(x, ys, key)[1..] == ys;
    }
  }

  /** Stability: for every score, the players with that score appear in the
      ranking in the same order as in the input. */
  lemma {:induction false} SortStable<T>(xs: seq<T>, key: T -> int, v: int)
    ensures WithKey(Sort(xs, key), key, v) == WithKey(xs, key, v)
  {
    if xs != [] {
      SortStable(xs[1..], key, v);
      InsertWithKey(xs[0], Sort(xs[1..], key), key, v);
    }
  }

  /** Helper: whatever `WithKey` keeps has score `v` and comes from the list. */
  lemma {:induction false} WithKeyMembers<T>(xs: seq<T>, key: T -> int, v: int)
    ensures forall k :: 0 <= k < |WithKey(xs, key, v)| ==>
      key(WithKey(xs, key, v)[k]) == v && WithKey(xs, key, v)[k] in xs
  {
    if xs != [] {
      WithKeyMembers(xs[1..], key, v);
    }
  }

  /** Helper: in a list sorted by descending score, nothing scores above the
      first element. */
  lemma HeadIsTop<T>(xs: seq<T>, key: T -> int, y: T)
    requires SortedDesc(xs, key) && y in xs
    ensures key(y) <= key(xs[0])
  {
    var j :| 0 <= j < |xs| && xs[j] == y;
    if j > 0 {
      assert key(xs[0]) >= key(xs[j]);
    }
  }

  /** Helper: the first element survives the filter for its own score. */
  lemma WithKeyHead<T>(xs: seq<T>, key: T -> int)
    requires xs != []
    ensures WithKey(xs, key, key(xs[0])) == [xs[0]] + WithKey(xs[1..], key, key(xs[0]))
    ensures forall v :: v != key(xs[0]) ==> WithKey(xs, key, v) == WithKey(xs[1..], key, v)
  {
  }

  /** Two lists sorted by descending score that agree on the elements of
      every score are equal. */
  lemma {:induction false} SortedUnique<T>(a: seq<T>, b: seq<T>, key: T -> int)
    requires SortedDesc(a, key) && SortedDesc(b, key)
    requires |a| == |b|
    requires forall v :: WithKey(a, key, v) == WithKey(b, key, v)
    ensures a == b
  {
    if a != [] {
      var m, n := key(a[0]), key(b[0]);
      WithKeyHead(a, key);
      WithKeyHead(b, key);
      assert WithKey(a, key, n) != [] by {
        assert WithKey(b, key, n) != [];
      }
      WithKeyMembers(a, key, n);
      HeadIsTop(a, key, WithKey(a, key, n)[0]);
      WithKeyMembers(b, key, m);
      assert WithKey(b, key, m) == WithKey(a, key, m);
      HeadIsTop(b, key, WithKey(b, key, m)[0]);
      assert m == n;
      assert a[0] == b[0];
      forall v
        ensures WithKey(a[1..], key, v) == WithKey(b[1..], key, v)
      {
        assert WithKey(a, key, v) == WithKey(b, key, v);
        if v == m {
          assert [a[0]] + WithKey(a[1..], key, v) == [b[0]] + WithKey(b[1..], key, v);
          assert WithKey(a[1..], key, v) == ([a[0]] + WithKey(a[1..], key, v))[1..];
          assert WithKey(b[1..], key, v) == ([b[0]] + WithKey(b[1..], key, v))[1..];
        }
      }
      SortedUnique(a[1..], b[1..], key);
      assert a == [a[0]] + a[1..] && b == [b[0]] + b[1..];
    }
  }

  /** The stable order is the only one: any list of the same length that is
      sorted by descending score and keeps the input order within each score
      is the ranking. */
  lemma SortUnique<T>(xs: seq<T>, ys: seq<T>, key: T -> int)
    requires SortedDesc(ys, key) && |ys| == |xs|
    requires forall v :: WithKey(ys, key, v) == WithKey(xs, key, v)
    ensures ys == Sort(xs, key)
  {
    SortSorted(xs, key);
    forall v
      ensures WithKey(ys, key, v) == WithKey(Sort(xs, key), key, v)
    {
      SortStable(xs, key, v);
    }
    SortedUnique(ys, Sort(xs, key), key);
  }

  /** The sum of `f` over a list. */
  function SumOf<T>(xs: seq<T>, f: T -> int): int {
    if xs == [] then 0 else f(xs[0]) + SumOf(xs[1..], f)
  }

  /** Ranking does not change any total over the players: the total score,
      the bounties earned, the entry fees. */
  lemma {:induction false} SortSum<T>(xs: seq<T>, key: T -> int, f: T -> int)
    ensures SumOf(Sort(xs, key), f) == SumOf(xs, f)
  {
    if xs != [] {
      SortSum(xs[1..], key, f);
      InsertSum(xs[0], Sort(xs[1..], key), key, f);
    }
  }

  lemma {:induction false} InsertSum<T>(x: T, ys: seq<T>, key: T -> int, f: T -> int)
    ensures SumOf(Insert(x, ys, key), f) == f(x) + SumOf(ys, f)
  {
    if ys != [] && key(ys[0]) > key(x) {
      InsertSum(x, ys[1..], key, f);
      assert Insert(x, ys, key)[1..] == Insert(x, ys[1..], key);
    }
  }
}
