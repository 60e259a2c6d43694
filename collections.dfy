/**
 * Sequence operations the analytics code expresses with `filter`, `reduce` and
 * `sort`: keeping the elements that satisfy a test, a stable sort on an integer key
 * (JavaScript's `Array.prototype.sort` is stable), and sums of a value per calendar day.
 */
module Collections {

  /** `s.filter(p)`: the elements satisfying `p`, in their original order. */
  function Filter<T>(s: seq<T>, p: T -> bool): (r: seq<T>)
    ensures |r| <= |s|
    ensures forall i :: 0 <= i < |r| ==> r[i] in s && p(r[i])
    ensures forall i :: 0 <= i < |s| && p(s[i]) ==> s[i] in r
  {
    if s == [] then [] else (if p(s[0]) then [s[0]] else []) + Filter(s[1..], p)
  }

  /** Filtering a concatenation filters each part. */
  lemma {:induction false} FilterAppend<T>(a: seq<T>, b: seq<T>, p: T -> bool)
    ensures Filter(a + b, p) == Filter(a, p) + Filter(b, p)
  {
    if a == [] {
      assert a + b == b;
    } else {
      assert (a + b)[1..] == a[1..] + b;
      FilterAppend(a[1..], b, p);
    }
  }

  /** Every element satisfies `p` exactly when filtering keeps everything. */
  lemma {:induction false} FilterAll<T>(s: seq<T>, p: T -> bool)
    requires forall i :: 0 <= i < |s| ==> p(s[i])
    ensures Filter(s, p) == s
  {
    if s != [] {
      FilterAll(s[1..], p);
    }
  }

  /** Filtering keeps each element satisfying `p` as often as `s` holds it, and no other. */
  lemma {:induction false} FilterMultiset<T>(s: seq<T>, p: T -> bool)
    ensures forall x :: multiset(Filter(s, p))[x] == if p(x) then multiset(s)[x] else 0
  {
    if s != [] {
      FilterMultiset(s[1..], p);
      MultisetCons(s);
      var kept := if p(s[0]) then [s[0]] else [];
      assert Filter(s, p) == kept + Filter(s[1..], p);
      assert multiset(Filter(s, p)) == multiset(kept) + multiset(Filter(s[1..], p));
    }
  }

  ghost predicate SortedBy<T>(s: seq<T>, key: T -> int)
  {
    forall i, j :: 0 <= i < j < |s| ==> key(s[i]) <= key(s[j])
  }

  /** Index of the first element whose key is `k` (`findIndex`, `findFirst`), or -1 when there is none. */
  function IndexOf<T, K(==)>(s: seq<T>, key: T -> K, k: K): (j: int)
    ensures -1 <= j < |s|
    ensures j >= 0 ==> key(s[j]) == k && forall i :: 0 <= i < j ==> key(s[i]) != k
    ensures j < 0 ==> forall i :: 0 <= i < |s| ==> key(s[i]) != k
  {
    if s == [] then -1
    else if key(s[0]) == k then 0
    else
      var j := IndexOf(s[1..], key, k);
      if j < 0 then -1 else j + 1
  }

  /** Inserts `x` before the first element whose key is not smaller than its own. */
  function Insert<T>(x: T, s: seq<T>, key: T -> int): (r: seq<T>)
    ensures |r| == |s| + 1
    ensures multiset(r) == multiset(s) + multiset{x}
  {
    if s == [] || key(x) <= key(s[0]) then [x] + s
    else
      assert s == [s[0]] + s[1..];
      [s[0]] + Insert(x, s[1..], key)
  }

  lemma {:induction false} InsertSorted<T>(x: T, s: seq<T>, key: T -> int)
    requires SortedBy(s, key)
    ensures SortedBy(Insert(x, s, key), key)
  {
    if s != [] && key(x) > key(s[0]) {
      var rest := Insert(x, s[1..], key);
      InsertSorted(x, s[1..], key);
      forall i | 0 <= i < |rest| ensures key(s[0]) <= key(rest[i]) {
        assert rest[i] in multiset(rest);
        assert rest[i] == x || rest[i] in multiset(s[1..]);
      }
    }
  }

  /** The first element and the rest make up the multiset of a non-empty sequence. */
  lemma MultisetCons<T>(s: seq<T>)
    requires s != []
    ensures multiset(s) == multiset(s[1..]) + multiset{s[0]}
  {
    assert s == [s[0]] + s[1..];
  }

  /** Stable insertion sort by ascending key. */
  function SortBy<T>(s: seq<T>, key: T -> int): (r: seq<T>)
    ensures |r| == |s|
    ensures multiset(r) == multiset(s)
    ensures SortedBy(r, key)
  {
    if s == [] then []
    else
      var rest := SortBy(s[1..], key);
      InsertSorted(s[0], rest, key);
      MultisetCons(s);
      Insert(s[0], rest, key)
  }

  /** The elements whose key is `k`, in order. */
  function WithKey<T>(s: seq<T>, key: T -> int, k: int): seq<T>
  {
    if s == [] then [] else (if key(s[0]) == k then [s[0]] else []) + WithKey(s[1..], key, k)
  }

  lemma {:induction false} InsertWithKey<T>(x: T, s: seq<T>, key: T -> int, k: int)
    ensures WithKey(Insert(x, s, key), key, k)
         == (if key(x) == k then [x] else []) + WithKey(s, key, k)
  {
    if s != [] && key(x) > key(s[0]) {
      var r := Insert(x, s, key);
      assert r[1..] == Insert(x, s[1..], key);
      InsertWithKey(x, s[1..], key, k);
    }
  }

  /**
   * Stability: for every key, the elements carrying that key come out of the sort in
   * the order they went in.
   */
  lemma {:induction false} SortByStable<T>(s: seq<T>, key: T -> int, k: int)
    ensures WithKey(SortBy(s, key), key, k) == WithKey(s, key, k)
  {
    if s != [] {
      SortByStable(s[1..], key, k);
      InsertWithKey(s[0], SortBy(s[1..], key), key, k);
    }
  }

  /** A sorted list holds the same elements as its input, position by position. */
  lemma SortByMembers<T>(s: seq<T>, key: T -> int)
    ensures forall i :: 0 <= i < |SortBy(s, key)| ==> SortBy(s, key)[i] in s
    ensures forall i :: 0 <= i < |s| ==> s[i] in SortBy(s, key)
  {
    var r := SortBy(s, key);
    forall i | 0 <= i < |r| ensures r[i] in s {
      assert r[i] in multiset(r);
    }
    forall i | 0 <= i < |s| ensures s[i] in r {
      assert s[i] in multiset(s);
    }
  }

  /** No two elements share a name. */
  ghost predicate DistinctBy<T, K>(s: seq<T>, name: T -> K)
  {
    forall i, j :: 0 <= i < j < |s| ==> name(s[i]) != name(s[j])
  }

  lemma {:induction false} InsertDistinct<T, K>(x: T, s: seq<T>, key: T -> int, name: T -> K)
    requires DistinctBy(s, name)
    requires forall i :: 0 <= i < |s| ==> name(s[i]) != name(x)
    ensures DistinctBy(Insert(x, s, key), name)
  {
    if s != [] && key(x) > key(s[0]) {
      var tail := s[1..];
      var rest := Insert(x, tail, key);
      InsertDistinct(x, tail, key, name);
      forall k | 0 <= k < |rest| ensures name(s[0]) != name(rest[k]) {
        assert rest[k] in multiset(rest);
        if rest[k] != x {
          assert rest[k] in tail;
          var m :| 0 <= m < |tail| && tail[m] == rest[k];
          assert tail[m] == s[m + 1];
        }
      }
    }
  }

  /** Sorting keeps names distinct. */
  lemma {:induction false} SortByDistinct<T, K>(s: seq<T>, key: T -> int, name: T -> K)
    requires DistinctBy(s, name)
    ensures DistinctBy(SortBy(s, key), name)
  {
    if s != [] {
      var tail := s[1..];
      var rest := SortBy(tail, key);
      SortByDistinct(tail, key, name);
      SortByMembers(tail, key);
      forall k | 0 <= k < |rest| ensures name(rest[k]) != name(s[0]) {
        var m :| 0 <= m < |tail| && tail[m] == rest[k];
        assert tail[m] == s[m + 1];
      }
      InsertDistinct(s[0], rest, key, name);
    }
  }

  /** The sum of a list of integers. */
  function Total(xs: seq<int>): int
  {
    if xs == [] then 0 else Total(xs[..|xs| - 1]) + xs[|xs| - 1]
  }

  /**
   * Capping every entry at `c` lowers the total or keeps it, and keeps it exactly
   * when no entry is above `c`.
   */
  lemma {:induction false} TotalBelowCap(xs: seq<int>, ys: seq<int>, c: int)
    requires |xs| == |ys|
    requires forall i :: 0 <= i < |xs| ==> ys[i] == (if xs[i] <= c then xs[i] else c)
    ensures Total(ys) <= Total(xs)
    ensures Total(ys) == Total(xs) <==> forall i :: 0 <= i < |xs| ==> xs[i] <= c
  {
    if xs != [] {
      var n := |xs| - 1;
      TotalBelowCap(xs[..n], ys[..n], c);
      if forall i :: 0 <= i < |xs| ==> xs[i] <= c {
        assert forall i :: 0 <= i < n ==> xs[..n][i] <= c;
      } else if forall i :: 0 <= i < n ==> xs[..n][i] <= c {
        assert xs[n] > c;
      }
    }
  }

  /** The sum of `val` over the elements whose `day` is `d`. */
  function SumOnDay<T>(s: seq<T>, day: T -> int, val: T -> int, d: int): int
  {
    if s == [] then 0 else (if day(s[0]) == d then val(s[0]) else 0) + SumOnDay(s[1..], day, val, d)
  }

  /** The sum of `val` over the elements whose `day` lies in `[lo, hi)`. */
  function SumInDays<T>(s: seq<T>, day: T -> int, val: T -> int, lo: int, hi: int): int
  {
    if s == [] then 0
    else (if lo <= day(s[0]) < hi then val(s[0]) else 0) + SumInDays(s[1..], day, val, lo, hi)
  }

  /** The sum of `val` over all elements. */
  function SumAll<T>(s: seq<T>, val: T -> int): int
  {
    if s == [] then 0 else val(s[0]) + SumAll(s[1..], val)
  }

  lemma {:induction false} SumAllAppend<T>(s: seq<T>, x: T, val: T -> int)
    ensures SumAll(s + [x], val) == SumAll(s, val) + val(x)
  {
    if s == [] {
      assert s + [x] == [x];
    } else {
      assert (s + [x])[1..] == s[1..] + [x];
      SumAllAppend(s[1..], x, val);
    }
  }

  lemma {:induction false} SumAllConcat<T>(a: seq<T>, b: seq<T>, val: T -> int)
    ensures SumAll(a + b, val) == SumAll(a, val) + SumAll(b, val)
  {
    if a == [] {
      assert a + b == b;
    } else {
      assert (a + b)[1..] == a[1..] + b;
      SumAllConcat(a[1..], b, val);
    }
  }

  /** Taking out one element takes its value out of the sum. */
  lemma RemoveFromSum<T>(a: seq<T>, x: T, b: seq<T>, val: T -> int)
    ensures SumAll(a + [x] + b, val) == val(x) + SumAll(a + b, val)
  {
    assert a + [x] + b == a + ([x] + b);
    SumAllConcat(a, [x] + b, val);
    SumAllConcat(a, b, val);
    assert ([x] + b)[1..] == b;
  }

  /** Taking the same element out of two permutations of each other leaves permutations. */
  lemma RemoveFromMultiset<T>(s: seq<T>, a: seq<T>, x: T, b: seq<T>)
    requires s != [] && s[0] == x
    requires multiset(s) == multiset(a + [x] + b)
    ensures multiset(s[1..]) == multiset(a + b)
  {
    assert s == [x] + s[1..];
    assert multiset(s) == multiset{x} + multiset(s[1..]);
    assert multiset(a + [x] + b) == multiset{x} + (multiset(a) + multiset(b));
    assert multiset(a + b) == multiset(a) + multiset(b);
    forall e ensures multiset(s[1..])[e] == multiset(a + b)[e] {
      assert (multiset{x} + multiset(s[1..]))[e] == (multiset{x} + multiset(a + b))[e];
    }
  }

  /** A sum does not depend on the order of the elements. */
  lemma {:induction false} SumAllPermutation<T>(s: seq<T>, t: seq<T>, val: T -> int)
    requires multiset(s) == multiset(t)
    ensures SumAll(s, val) == SumAll(t, val)
    decreases |s|
  {
    if s == [] {
      assert |t| == |multiset(t)| == 0;
    } else {
      var x := s[0];
      assert x in multiset(t);
      var i :| 0 <= i < |t| && t[i] == x;
      var a, b := t[..i], t[i + 1..];
      assert t == a + [x] + b;
      RemoveFromSum(a, x, b, val);
      RemoveFromMultiset(s, a, x, b);
      SumAllPermutation(s[1..], a + b, val);
    }
  }

  /** The number of elements whose `day` is `d`. */
  function CountOnDay<T>(s: seq<T>, day: T -> int, d: int): (n: nat)
    ensures n <= |s|
  {
    if s == [] then 0 else (if day(s[0]) == d then 1 else 0) + CountOnDay(s[1..], day, d)
  }

  /** Per-day sums for the `n` consecutive days starting at `lo`. */
  function DaySeries<T>(s: seq<T>, day: T -> int, val: T -> int, lo: int, n: nat): (r: seq<int>)
    ensures |r| == n
    ensures forall i :: 0 <= i < n ==> r[i] == SumOnDay(s, day, val, lo + i)
  {
    seq(n, i => SumOnDay(s, day, val, lo + i))
  }

  lemma {:induction false} SumInDaysExtend<T>(s: seq<T>, day: T -> int, val: T -> int, lo: int, hi: int)
    requires lo <= hi
    ensures SumInDays(s, day, val, lo, hi + 1) == SumInDays(s, day, val, lo, hi) + SumOnDay(s, day, val, hi)
  {
    if s != [] {
      SumInDaysExtend(s[1..], day, val, lo, hi);
    }
  }

  /**
   * The per-day series of `n` days adds up to the sum over the whole range: each
   * element is counted on exactly one day of the range, or on none.
   */
  lemma {:induction false} DaySeriesPartition<T>(s: seq<T>, day: T -> int, val: T -> int, lo: int, n: nat)
    ensures Total(DaySeries(s, day, val, lo, n)) == SumInDays(s, day, val, lo, lo + n)
  {
    if n == 0 {
      assert SumInDays(s, day, val, lo, lo) == 0 by {
        EmptyRange(s, day, val, lo);
      }
    } else {
      var r := DaySeries(s, day, val, lo, n);
      assert r[..n - 1] == DaySeries(s, day, val, lo, n - 1);
      DaySeriesPartition(s, day, val, lo, n - 1);
      SumInDaysExtend(s, day, val, lo, lo + n - 1);
    }
  }

  lemma {:induction false} EmptyRange<T>(s: seq<T>, day: T -> int, val: T -> int, lo: int)
    ensures SumInDays(s, day, val, lo, lo) == 0
  {
    if s != [] {
      EmptyRange(s[1..], day, val, lo);
    }
  }
}
