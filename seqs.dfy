// Generic sequence operations the client and the backend use through
// `Array.prototype.filter`, `sort` and list comprehensions.
module Seqs {
  import opened Wrappers

  /** `s.filter(p)`: the elements satisfying `p`, in their original order. */
  function Filter<T>(s: seq<T>, p: T -> bool): (r: seq<T>)
    ensures |r| <= |s|
    ensures forall x :: x in r ==> x in s && p(x)
    decreases |s|
  {
    if s == [] then []
    else if p(s[0]) then [s[0]] + Filter(s[1..], p)
    else Filter(s[1..], p)
  }

  /** Every element satisfying `p` survives the filter. */
  lemma {:induction false} FilterKeeps<T>(s: seq<T>, p: T -> bool, x: T)
    requires x in s && p(x)
    ensures x in Filter(s, p)
    decreases |s|
  {
    if s[0] != x {
      FilterKeeps(s[1..], p, x);
    }
  }

  /** Membership in a filter, both ways. */
  lemma FilterMembers<T>(s: seq<T>, p: T -> bool)
    ensures forall x :: x in Filter(s, p) <==> x in s && p(x)
  {
    forall x | x in s && p(x) ensures x in Filter(s, p) {
      FilterKeeps(s, p, x);
    }
  }

  /** `a` is `b` with some elements removed, the rest in their order. */
  predicate IsSubsequence<T(==)>(a: seq<T>, b: seq<T>)
    decreases |b|
  {
    a == [] || (b != [] && if a[0] == b[0] then IsSubsequence(a[1..], b[1..]) else IsSubsequence(a, b[1..]))
  }

  /** Every sequence is a subsequence of itself. */
  lemma {:induction false} IsSubsequenceRefl<T>(s: seq<T>)
    ensures IsSubsequence(s, s)
    decreases |s|
  {
    if s != [] {
      IsSubsequenceRefl(s[1..]);
    }
  }

  /** The filter keeps the order of the elements it keeps. */
  lemma {:induction false} FilterSubsequence<T>(s: seq<T>, p: T -> bool)
    ensures IsSubsequence(Filter(s, p), s)
    decreases |s|
  {
    if s != [] {
      FilterSubsequence(s[1..], p);
      if p(s[0]) {
        assert Filter(s, p) == [s[0]] + Filter(s[1..], p);
        assert Filter(s, p)[1..] == Filter(s[1..], p);
      }
    }
  }

  /** Each kept element occurs as often as in `s`, each dropped one not at all. */
  lemma {:induction false} FilterMultiplicity<T>(s: seq<T>, p: T -> bool, x: T)
    ensures multiset(Filter(s, p))[x] == if p(x) then multiset(s)[x] else 0
    decreases |s|
  {
    if s != [] {
      FilterMultiplicity(s[1..], p, x);
      assert s == [s[0]] + s[1..];
      if p(s[0]) {
        assert Filter(s, p) == [s[0]] + Filter(s[1..], p);
      }
    }
  }

  /** A filter is the order-preserving selection of exactly the satisfying elements. */
  lemma FilterExact<T>(s: seq<T>, p: T -> bool)
    ensures IsSubsequence(Filter(s, p), s)
    ensures forall x :: multiset(Filter(s, p))[x] == if p(x) then multiset(s)[x] else 0
  {
    FilterSubsequence(s, p);
    forall x ensures multiset(Filter(s, p))[x] == if p(x) then multiset(s)[x] else 0 {
      FilterMultiplicity(s, p, x);
    }
  }

  /** A weaker predicate keeps at least as many elements. */
  lemma {:induction false} CountMono<T>(s: seq<T>, p: T -> bool, q: T -> bool)
    requires forall x :: p(x) ==> q(x)
    ensures Count(s, p) <= Count(s, q)
    decreases |s|
  {
    if s != [] {
      CountMono(s[1..], p, q);
    }
  }

  lemma {:induction false} FilterConcat<T>(a: seq<T>, b: seq<T>, p: T -> bool)
    ensures Filter(a + b, p) == Filter(a, p) + Filter(b, p)
    decreases |a|
  {
    if a == [] {
      assert a + b == b;
    } else {
      var ab := a + b;
      assert ab[0] == a[0] && ab[1..] == a[1..] + b;
      FilterConcat(a[1..], b, p);
      if p(a[0]) {
        assert Filter(ab, p) == [a[0]] + Filter(ab[1..], p);
        assert Filter(a, p) == [a[0]] + Filter(a[1..], p);
      } else {
        assert Filter(ab, p) == Filter(ab[1..], p);
      }
    }
  }

  /** A filter that keeps everything is the identity. */
  lemma {:induction false} FilterAll<T>(s: seq<T>, p: T -> bool)
    requires forall i :: 0 <= i < |s| ==> p(s[i])
    ensures Filter(s, p) == s
    decreases |s|
  {
    if s != [] {
      FilterAll(s[1..], p);
    }
  }

  /** A filter that keeps nothing is empty. */
  lemma {:induction false} FilterNone<T>(s: seq<T>, p: T -> bool)
    requires forall i :: 0 <= i < |s| ==> !p(s[i])
    ensures Filter(s, p) == []
    decreases |s|
  {
    if s != [] {
      FilterNone(s[1..], p);
    }
  }

  /** Filtering twice by the same predicate is filtering once. */
  lemma {:induction false} FilterIdempotent<T>(s: seq<T>, p: T -> bool)
    ensures Filter(Filter(s, p), p) == Filter(s, p)
  {
    var f := Filter(s, p);
    assert forall i :: 0 <= i < |f| ==> p(f[i]) by {
      forall i | 0 <= i < |f| ensures p(f[i]) {
        assert f[i] in f;
      }
    }
    FilterAll(f, p);
  }

  /** Both predicates hold. */
  function Both<T>(p: T -> bool, q: T -> bool): T -> bool
  {
    x => p(x) && q(x)
  }

  /** Filtering by `q` and then by `p` is filtering by both at once. */
  lemma {:induction false} FilterFilter<T>(s: seq<T>, p: T -> bool, q: T -> bool)
    ensures Filter(Filter(s, q), p) == Filter(s, Both(p, q))
    decreases |s|
  {
    if s != [] {
      FilterFilter(s[1..], p, q);
      if q(s[0]) {
        assert Filter(s, q) == [s[0]] + Filter(s[1..], q);
        assert Filter(s, q)[1..] == Filter(s[1..], q);
      }
    }
  }

  /** Filters by predicates that agree on every element are equal. */
  lemma {:induction false} FilterExtensional<T>(s: seq<T>, p: T -> bool, q: T -> bool)
    requires forall x :: x in s ==> p(x) == q(x)
    ensures Filter(s, p) == Filter(s, q)
    decreases |s|
  {
    if s != [] {
      assert s[0] in s;
      assert forall x :: x in s[1..] ==> x in s;
      FilterExtensional(s[1..], p, q);
    }
  }

  /** Sequences that agree pointwise on `p` keep as many elements under it. */
  lemma {:induction false} FilterSameLength<T>(a: seq<T>, b: seq<T>, p: T -> bool)
    requires |a| == |b|
    requires forall i :: 0 <= i < |a| ==> p(a[i]) == p(b[i])
    ensures |Filter(a, p)| == |Filter(b, p)|
    decreases |a|
  {
    if a != [] {
      assert forall i :: 0 <= i < |a| - 1 ==> a[1..][i] == a[i + 1] && b[1..][i] == b[i + 1];
      FilterSameLength(a[1..], b[1..], p);
    }
  }

  /** `s.findIndex(p)`: the first position whose element satisfies `p`. */
  function FirstIndex<T>(s: seq<T>, p: T -> bool): (r: Option<nat>)
    ensures r.Some? ==> r.value < |s| && p(s[r.value]) && forall j :: 0 <= j < r.value ==> !p(s[j])
    ensures r.None? <==> forall j :: 0 <= j < |s| ==> !p(s[j])
    decreases |s|
  {
    if s == [] then None
    else if p(s[0]) then Some(0)
    else match FirstIndex(s[1..], p)
      case None => None
      case Some(k) => Some(k + 1)
  }

  /** The number of elements satisfying `p`. */
  function Count<T>(s: seq<T>, p: T -> bool): (n: nat)
    ensures n <= |s|
  {
    |Filter(s, p)|
  }

  /** Counting one more element adds one exactly when it satisfies the predicate. */
  lemma CountStep<T>(s: seq<T>, i: nat, p: T -> bool)
    requires i < |s|
    ensures Count(s[..i + 1], p) == Count(s[..i], p) + (if p(s[i]) then 1 else 0)
  {
    assert s[..i + 1] == s[..i] + [s[i]];
    FilterConcat(s[..i], [s[i]], p);
    assert [s[i]][1..] == [];
  }

  /**
   * Three predicates that split every element of `s` exactly one way split the
   * sequence: the three filters together hold as many elements as the input.
   */
  lemma {:induction false} FilterPartition3<T>(s: seq<T>, p: T -> bool, q: T -> bool, r: T -> bool)
    requires forall x :: x in s ==> (p(x) || q(x) || r(x)) && !(p(x) && q(x)) && !(p(x) && r(x)) && !(q(x) && r(x))
    ensures |Filter(s, p)| + |Filter(s, q)| + |Filter(s, r)| == |s|
    ensures multiset(Filter(s, p) + Filter(s, q) + Filter(s, r)) == multiset(s)
    decreases |s|
  {
    if s != [] {
      FilterPartition3(s[1..], p, q, r);
      assert s == [s[0]] + s[1..];
    }
  }

  /** Sum of the integer images of the elements. */
  function SumOf<T>(s: seq<T>, f: T -> int): int
    decreases |s|
  {
    if s == [] then 0 else f(s[0]) + SumOf(s[1..], f)
  }

  lemma {:induction false} SumOfConcat<T>(a: seq<T>, b: seq<T>, f: T -> int)
    ensures SumOf(a + b, f) == SumOf(a, f) + SumOf(b, f)
    decreases |a|
  {
    if a == [] {
      assert a + b == b;
    } else {
      var ab := a + b;
      assert ab[0] == a[0] && ab[1..] == a[1..] + b;
      SumOfConcat(a[1..], b, f);
      assert SumOf(ab, f) == f(a[0]) + SumOf(ab[1..], f);
    }
  }

  lemma {:induction false} SumOfBounds<T>(s: seq<T>, f: T -> int, lo: int, hi: int)
    requires forall i :: 0 <= i < |s| ==> lo <= f(s[i]) <= hi
    ensures lo * |s| <= SumOf(s, f) <= hi * |s|
    decreases |s|
  {
    if s != [] {
      SumOfBounds(s[1..], f, lo, hi);
    }
  }

  /** `sorted` is in non-decreasing key order. */
  predicate SortedBy<T>(s: seq<T>, key: T -> int)
  {
    forall i, j :: 0 <= i < j < |s| ==> key(s[i]) <= key(s[j])
  }

  /** Puts `x` before the first element whose key is not smaller than its own. */
  function InsertBy<T>(x: T, s: seq<T>, key: T -> int): (r: seq<T>)
    ensures multiset(r) == multiset(s) + multiset{x}
    ensures |r| == |s| + 1
    decreases |s|
  {
    if s == [] || key(x) <= key(s[0]) then [x] + s
    else
      assert s == [s[0]] + s[1..];
      [s[0]] + InsertBy(x, s[1..], key)
  }

  /**
   * A stable sort by ascending key, the behaviour of `Array.prototype.sort`
   * with a consistent comparator since ES2019.
   */
  function StableSortBy<T>(s: seq<T>, key: T -> int): (r: seq<T>)
    ensures multiset(r) == multiset(s)
    ensures |r| == |s|
    decreases |s|
  {
    if s == [] then []
    else
      assert s == [s[0]] + s[1..];
      InsertBy(s[0], StableSortBy(s[1..], key), key)
  }

  lemma {:induction false} InsertBySorted<T>(x: T, s: seq<T>, key: T -> int)
    requires SortedBy(s, key)
    ensures SortedBy(InsertBy(x, s, key), key)
    decreases |s|
  {
    if s != [] && key(x) > key(s[0]) {
      InsertBySorted(x, s[1..], key);
      var t := InsertBy(x, s[1..], key);
      forall y | y in t ensures key(s[0]) <= key(y) {
        assert y in multiset(t);
        assert y in multiset(s[1..]) || y == x;
      }
    }
  }

  /** The output of the sort is ordered by key. */
  lemma {:induction false} StableSortBySorted<T>(s: seq<T>, key: T -> int)
    ensures SortedBy(StableSortBy(s, key), key)
    decreases |s|
  {
    if s != [] {
      StableSortBySorted(s[1..], key);
      InsertBySorted(s[0], StableSortBy(s[1..], key), key);
    }
  }

  function HasKey<T>(key: T -> int, k: int): T -> bool
  {
    x => key(x) == k
  }

  lemma {:induction false} InsertByStable<T>(x: T, s: seq<T>, key: T -> int, k: int)
    requires SortedBy(s, key)
    ensures Filter(InsertBy(x, s, key), HasKey(key, k))
         == (if key(x) == k then [x] else []) + Filter(s, HasKey(key, k))
    decreases |s|
  {
    var p := HasKey(key, k);
    if s == [] || key(x) <= key(s[0]) {
      assert InsertBy(x, s, key) == [x] + s;
      assert ([x] + s)[1..] == s;
    } else {
      InsertByStable(x, s[1..], key, k);
      assert InsertBy(x, s, key) == [s[0]] + InsertBy(x, s[1..], key);
      if key(x) == k {
        assert !p(s[0]);
        assert Filter(s, p) == Filter(s[1..], p);
      }
    }
  }

  /**
   * Stability: for every key value, the elements with that key appear in
   * the output in the same order as in the input.
   */
  lemma {:induction false} StableSortByStable<T>(s: seq<T>, key: T -> int, k: int)
    ensures Filter(StableSortBy(s, key), HasKey(key, k)) == Filter(s, HasKey(key, k))
    decreases |s|
  {
    if s != [] {
      StableSortByStable(s[1..], key, k);
      StableSortBySorted(s[1..], key);
      InsertByStable(s[0], StableSortBy(s[1..], key), key, k);
    }
  }

  /** `s.flatMap(f)`: the images of the elements, concatenated in order. */
  function FlatMap<T, U>(s: seq<T>, f: T -> seq<U>): seq<U>
    decreases |s|
  {
    if s == [] then [] else f(s[0]) + FlatMap(s[1..], f)
  }

  lemma {:induction false} FlatMapConcat<T, U>(a: seq<T>, b: seq<T>, f: T -> seq<U>)
    ensures FlatMap(a + b, f) == FlatMap(a, f) + FlatMap(b, f)
    decreases |a|
  {
    if a == [] {
      assert a + b == b;
    } else {
      assert (a + b)[0] == a[0] && (a + b)[1..] == a[1..] + b;
      FlatMapConcat(a[1..], b, f);
    }
  }

  /** An element of a flat map comes from the image of some element, and every image is kept. */
  lemma {:induction false} FlatMapMembers<T, U>(s: seq<T>, f: T -> seq<U>, y: U)
    ensures y in FlatMap(s, f) <==> exists i :: 0 <= i < |s| && y in f(s[i])
    decreases |s|
  {
    if s != [] {
      FlatMapMembers(s[1..], f, y);
      if y in FlatMap(s[1..], f) {
        var i :| 0 <= i < |s[1..]| && y in f(s[1..][i]);
        assert y in f(s[i + 1]);
      }
      if exists i :: 0 <= i < |s| && y in f(s[i]) {
        var i :| 0 <= i < |s| && y in f(s[i]);
        if i > 0 {
          assert y in f(s[1..][i - 1]);
        }
      }
    }
  }

  /** Images of at most `k` elements give at most `k` per element. */
  lemma {:induction false} FlatMapLength<T, U>(s: seq<T>, f: T -> seq<U>, k: nat)
    requires forall i :: 0 <= i < |s| ==> |f(s[i])| <= k
    ensures |FlatMap(s, f)| <= k * |s|
    decreases |s|
  {
    if s != [] {
      FlatMapLength(s[1..], f, k);
    }
  }

  /** The flat map around one element: the earlier images, its image, the later images. */
  lemma FlatMapAt<T, U>(s: seq<T>, f: T -> seq<U>, k: nat)
    requires k < |s|
    ensures FlatMap(s, f) == FlatMap(s[..k], f) + f(s[k]) + FlatMap(s[k + 1..], f)
  {
    PivotSplit(s, k);
    FlatMapConcat(s[..k], [s[k]] + s[k + 1..], f);
    FlatMapCons(s[k], s[k + 1..], f);
  }

  lemma PivotSplit<T>(s: seq<T>, k: nat)
    requires k < |s|
    ensures s == s[..k] + ([s[k]] + s[k + 1..])
  {
  }

  lemma FlatMapCons<T, U>(x: T, after: seq<T>, f: T -> seq<U>)
    ensures FlatMap([x] + after, f) == f(x) + FlatMap(after, f)
  {
    assert ([x] + after)[1..] == after;
  }

  /** Images of exactly `n` elements each make a flat map `n` times as long. */
  lemma {:induction false} FlatMapUniformLength<T, U>(s: seq<T>, f: T -> seq<U>, n: nat)
    requires forall i :: 0 <= i < |s| ==> |f(s[i])| == n
    ensures |FlatMap(s, f)| == n * |s|
    decreases |s|
  {
    if s != [] {
      FlatMapUniformLength(s[1..], f, n);
      assert n * |s| == n + n * |s[1..]|;
    }
  }

  /** `s.slice(0, n)`. */
  function Take<T>(s: seq<T>, n: nat): (r: seq<T>)
    ensures |r| == if n < |s| then n else |s|
    ensures forall i :: 0 <= i < |r| ==> r[i] == s[i]
  {
    if n < |s| then s[..n] else s
  }

  /**
   * Taking the first `n` of a sorted sequence keeps the smallest keys: every
   * element left out has a key no smaller than every element kept.
   */
  lemma TakeSmallest<T>(s: seq<T>, key: T -> int, n: nat)
    requires SortedBy(s, key)
    ensures multiset(Take(s, n)) <= multiset(s)
    ensures forall x, y :: (x in multiset(s) - multiset(Take(s, n)) && y in Take(s, n)) ==> key(y) <= key(x)
  {
    var t := Take(s, n);
    var m := |t|;
    assert t == s[..m];
    assert s == s[..m] + s[m..];
    assert multiset(s) == multiset(s[..m]) + multiset(s[m..]);
    forall x, y | x in multiset(s) - multiset(t) && y in t
      ensures key(y) <= key(x)
    {
      assert x in multiset(s[m..]);
      assert x in s[m..];
      var j :| 0 <= j < |s[m..]| && s[m..][j] == x;
      var i :| 0 <= i < m && t[i] == y;
      assert s[i] == y && s[m + j] == x;
    }
  }

  /** `s.slice(-n)`: the last `n` elements. */
  function TakeLast<T>(s: seq<T>, n: nat): (r: seq<T>)
    ensures |r| == if n < |s| then n else |s|
    ensures forall i :: 0 <= i < |r| ==> r[i] == s[|s| - |r| + i]
  {
    if n < |s| then s[|s| - n..] else s
  }
}
