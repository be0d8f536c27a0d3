/**
 * The shapes every read in the application takes: keep the rows that satisfy
 * a WHERE clause (or a JavaScript `filter`), put them in ORDER BY order, add up
 * a column (`SUM`, `reduce`), keep the first few (`LIMIT`).
 */
module Listing {

  /** `s.filter(p)`: the elements satisfying `p`, in their original order. */
  function Filter<T(!new)>(s: seq<T>, p: T -> bool): (r: seq<T>)
    ensures |r| <= |s|
    ensures forall x :: x in r <==> x in s && p(x)
  {
    if |s| == 0 then []
    else (if p(s[0]) then [s[0]] else []) + Filter(s[1..], p)
  }

  /** Filtering keeps order: the filter of a concatenation is the concatenation of the filters. */
  lemma {:induction false} FilterAppend<T(!new)>(a: seq<T>, b: seq<T>, p: T -> bool)
    ensures Filter(a + b, p) == Filter(a, p) + Filter(b, p)
  {
    if |a| > 0 {
      assert (a + b)[1..] == a[1..] + b;
      FilterAppend(a[1..], b, p);
    } else {
      assert a + b == b;
    }
  }

  /** Filtering keeps every element's multiplicity when it passes, and drops it otherwise. */
  lemma {:induction false} FilterMultiplicity<T(!new)>(s: seq<T>, p: T -> bool, x: T)
    ensures multiset(Filter(s, p))[x] == if p(x) then multiset(s)[x] else 0
  {
    if |s| > 0 {
      FilterMultiplicity(s[1..], p, x);
      assert s == [s[0]] + s[1..];
    }
  }

  /** Filtering keeps every pairwise relation that held between earlier and later elements. */
  lemma {:induction false} FilterSortedBy<T(!new)>(s: seq<T>, p: T -> bool, le: (T, T) -> bool)
    requires SortedBy(s, le)
    ensures SortedBy(Filter(s, p), le)
  {
    if |s| > 0 {
      var rest := Filter(s[1..], p);
      FilterSortedBy(s[1..], p, le);
      if p(s[0]) {
        forall k | 0 <= k < |rest| ensures le(s[0], rest[k]) {
          assert rest[k] in s[1..];
          var j :| 0 <= j < |s[1..]| && s[1..][j] == rest[k];
          assert s[j + 1] == rest[k];
        }
        forall i, j | 0 <= i < j < |[s[0]] + rest| ensures le(([s[0]] + rest)[i], ([s[0]] + rest)[j]) {
          if i == 0 {
            assert ([s[0]] + rest)[j] == rest[j - 1];
          } else {
            assert ([s[0]] + rest)[i] == rest[i - 1];
            assert ([s[0]] + rest)[j] == rest[j - 1];
          }
        }
      }
    }
  }

  /** No element satisfies the condition: nothing is kept. */
  lemma {:induction false} FilterNone<T(!new)>(s: seq<T>, p: T -> bool)
    requires forall i :: 0 <= i < |s| ==> !p(s[i])
    ensures Filter(s, p) == []
  {
    if |s| > 0 {
      FilterNone(s[1..], p);
    }
  }

  /** A filter that keeps everything changes nothing. */
  lemma {:induction false} FilterAll<T(!new)>(s: seq<T>, p: T -> bool)
    requires forall x :: p(x)
    ensures Filter(s, p) == s
  {
    if |s| > 0 {
      FilterAll(s[1..], p);
      assert s == [s[0]] + s[1..];
    }
  }

  /** A filter every element of `s` passes keeps `s` as it is. */
  lemma {:induction false} FilterEvery<T(!new)>(s: seq<T>, p: T -> bool)
    requires forall i :: 0 <= i < |s| ==> p(s[i])
    ensures Filter(s, p) == s
  {
    if |s| > 0 {
      FilterEvery(s[1..], p);
      assert s == [s[0]] + s[1..];
    }
  }

  lemma FilterSingleton<T(!new)>(x: T, p: T -> bool)
    ensures Filter([x], p) == if p(x) then [x] else []
  {
    assert [x][1..] == [];
  }

  /** Two conditions that agree on every element keep the same elements. */
  lemma {:induction false} FilterSameCondition<T(!new)>(s: seq<T>, p: T -> bool, q: T -> bool)
    requires forall x :: p(x) == q(x)
    ensures Filter(s, p) == Filter(s, q)
  {
    if |s| > 0 {
      FilterSameCondition(s[1..], p, q);
    }
  }

  /** Number of elements satisfying `p` (`s.filter(p).length`). */
  function CountWhere<T(!new)>(s: seq<T>, p: T -> bool): (n: nat)
    ensures n == |Filter(s, p)|
  {
    if |s| == 0 then 0 else (if p(s[0]) then 1 else 0) + CountWhere(s[1..], p)
  }

  /** `s.map(f)`. */
  function Map<T, U>(s: seq<T>, f: T -> U): (r: seq<U>)
    ensures |r| == |s|
    ensures forall i :: 0 <= i < |s| ==> r[i] == f(s[i])
  {
    seq(|s|, i requires 0 <= i < |s| => f(s[i]))
  }

  /** Mapping a concatenation maps each part. */
  lemma MapAppend<T, U>(a: seq<T>, b: seq<T>, f: T -> U)
    ensures Map(a + b, f) == Map(a, f) + Map(b, f)
  {
  }

  /** `s.reduce((sum, x) => sum + f(x), 0)`, and SQL's `SUM` of a column over the rows. */
  function SumBy<T>(s: seq<T>, f: T -> real): real {
    if |s| == 0 then 0.0 else f(s[0]) + SumBy(s[1..], f)
  }

  /** A sum over a concatenation is the sum of the two sums. */
  lemma {:induction false} SumByAppend<T>(a: seq<T>, b: seq<T>, f: T -> real)
    ensures SumBy(a + b, f) == SumBy(a, f) + SumBy(b, f)
  {
    if |a| > 0 {
      assert (a + b)[1..] == a[1..] + b;
      SumByAppend(a[1..], b, f);
    } else {
      assert a + b == b;
    }
  }

  /** Rows kept by `p` are those kept by `q` and those kept by `r`, when `q` and `r` split `p`. */
  lemma {:induction false} SumByFilterSplit<T(!new)>(s: seq<T>, p: T -> bool, q: T -> bool, r: T -> bool, f: T -> real)
    requires forall x :: p(x) == (q(x) || r(x))
    requires forall x :: !(q(x) && r(x))
    ensures SumBy(Filter(s, p), f) == SumBy(Filter(s, q), f) + SumBy(Filter(s, r), f)
  {
    if |s| > 0 {
      SumByFilterSplit(s[1..], p, q, r, f);
      var head := if p(s[0]) then [s[0]] else [];
      SumByAppend(head, Filter(s[1..], p), f);
      SumByAppend(if q(s[0]) then [s[0]] else [], Filter(s[1..], q), f);
      SumByAppend(if r(s[0]) then [s[0]] else [], Filter(s[1..], r), f);
      SumBySingleton(s[0], f);
    }
  }

  /** Every element is kept by exactly one of two complementary filters. */
  lemma {:induction false} FilterComplementLength<T(!new)>(s: seq<T>, p: T -> bool, q: T -> bool)
    requires forall x :: q(x) == !p(x)
    ensures |Filter(s, p)| + |Filter(s, q)| == |s|
  {
    if |s| > 0 {
      FilterComplementLength(s[1..], p, q);
    }
  }

  /** Summing a difference is the difference of the sums. */
  lemma {:induction false} SumByDifference<T>(s: seq<T>, f: T -> real, g: T -> real, h: T -> real)
    requires forall x :: h(x) == f(x) - g(x)
    ensures SumBy(s, h) == SumBy(s, f) - SumBy(s, g)
  {
    if |s| > 0 {
      SumByDifference(s[1..], f, g, h);
    }
  }

  lemma SumBySingleton<T>(x: T, f: T -> real)
    ensures SumBy([x], f) == f(x)
  {
    assert [x][1..] == [];
  }

  /** A sum of terms that are never negative is never negative. */
  lemma {:induction false} SumByNonNegative<T>(s: seq<T>, f: T -> real)
    requires forall i :: 0 <= i < |s| ==> f(s[i]) >= 0.0
    ensures SumBy(s, f) >= 0.0
  {
    if |s| > 0 {
      SumByNonNegative(s[1..], f);
    }
  }

  /** A sum of `n` equal terms is `n` times that term. */
  lemma {:induction false} SumByConstant<T>(s: seq<T>, f: T -> real, c: real)
    requires forall i :: 0 <= i < |s| ==> f(s[i]) == c
    ensures SumBy(s, f) == |s| as real * c
  {
    if |s| > 0 {
      SumByConstant(s[1..], f, c);
    }
  }

  /** The first `n` elements, or all of them when there are fewer (`LIMIT n`). */
  function Take<T>(s: seq<T>, n: nat): (r: seq<T>)
    ensures |r| == if |s| <= n then |s| else n
    ensures r == s[..|r|]
  {
    if |s| <= n then s else s[..n]
  }

  // ------------------------------------------------------------ ordering

  /** `s` is in `le` order: every element may come before every later one. */
  predicate SortedBy<T>(s: seq<T>, le: (T, T) -> bool) {
    forall i, j :: 0 <= i < j < |s| ==> le(s[i], s[j])
  }

  /** `le` is a total preorder: any two elements compare, and comparison chains. */
  ghost predicate TotalPreorder<T(!new)>(le: (T, T) -> bool) {
    && (forall a, b :: le(a, b) || le(b, a))
    && (forall a, b, c :: le(a, b) && le(b, c) ==> le(a, c))
  }

  /** `x` placed before the first element it may precede. */
  function InsertBy<T>(x: T, s: seq<T>, le: (T, T) -> bool): (r: seq<T>)
    ensures |r| == |s| + 1
    ensures multiset(r) == multiset(s) + multiset{x}
  {
    if |s| == 0 then [x]
    else if le(x, s[0]) then [x] + s
    else
      assert s == [s[0]] + s[1..];
      [s[0]] + InsertBy(x, s[1..], le)
  }

  /** Insertion sort: the elements of `s` rearranged (ORDER BY, `Array.prototype.sort`). */
  function SortBy<T>(s: seq<T>, le: (T, T) -> bool): (r: seq<T>)
    ensures |r| == |s|
    ensures multiset(r) == multiset(s)
  {
    if |s| == 0 then []
    else
      assert s == [s[0]] + s[1..];
      InsertBy(s[0], SortBy(s[1..], le), le)
  }

  lemma {:induction false} InsertBySorted<T(!new)>(x: T, s: seq<T>, le: (T, T) -> bool)
    requires TotalPreorder(le)
    requires SortedBy(s, le)
    ensures SortedBy(InsertBy(x, s, le), le)
  {
    if |s| > 0 && !le(x, s[0]) {
      var rest := InsertBy(x, s[1..], le);
      InsertBySorted(x, s[1..], le);
      assert le(s[0], x);
      forall k | 0 <= k < |rest| ensures le(s[0], rest[k]) {
        assert rest[k] in multiset(rest);
        assert rest[k] in multiset(s[1..]) + multiset{x};
        if rest[k] != x {
          assert rest[k] in multiset(s[1..]);
          var j :| 0 <= j < |s[1..]| && s[1..][j] == rest[k];
          assert s[j + 1] == rest[k];
        }
      }
    } else if |s| > 0 {
      forall i, j | 0 <= i < j < |s| + 1 ensures le(([x] + s)[i], ([x] + s)[j]) {
        if i == 0 && j > 1 {
          assert le(s[0], s[j - 1]);
        }
      }
    }
  }

  /** The sorted sequence is in `le` order. */
  lemma {:induction false} SortBySorted<T(!new)>(s: seq<T>, le: (T, T) -> bool)
    requires TotalPreorder(le)
    ensures SortedBy(SortBy(s, le), le)
  {
    if |s| > 0 {
      SortBySorted(s[1..], le);
      InsertBySorted(s[0], SortBy(s[1..], le), le);
    }
  }

  /** Sorting does not change a sum. */
  /** Inserting with two orders that agree on the elements involved gives the same sequence. */
  lemma {:induction false} InsertByAgree<T>(x: T, s: seq<T>, le1: (T, T) -> bool, le2: (T, T) -> bool)
    requires forall i :: 0 <= i < |s| ==> le1(x, s[i]) == le2(x, s[i])
    ensures InsertBy(x, s, le1) == InsertBy(x, s, le2)
  {
    if |s| > 0 && !le1(x, s[0]) {
      InsertByAgree(x, s[1..], le1, le2);
    }
  }

  /** Sorting with two orders that agree on the elements of the sequence gives the same sequence. */
  lemma {:induction false} SortByAgree<T>(s: seq<T>, le1: (T, T) -> bool, le2: (T, T) -> bool)
    requires forall i, j :: 0 <= i < |s| && 0 <= j < |s| ==> le1(s[i], s[j]) == le2(s[i], s[j])
    ensures SortBy(s, le1) == SortBy(s, le2)
  {
    if |s| > 0 {
      SortByAgree(s[1..], le1, le2);
      var t := SortBy(s[1..], le1);
      forall k | 0 <= k < |t| ensures le1(s[0], t[k]) == le2(s[0], t[k]) {
        assert t[k] in multiset(s[1..]);
        var j :| 0 <= j < |s[1..]| && s[1..][j] == t[k];
        assert s[j + 1] == t[k];
      }
      InsertByAgree(s[0], t, le1, le2);
    }
  }

  /** A sequence already in order is left as it is. */
  lemma {:induction false} SortByIdentity<T>(s: seq<T>, le: (T, T) -> bool)
    requires SortedBy(s, le)
    ensures SortBy(s, le) == s
  {
    if |s| > 0 {
      assert SortedBy(s[1..], le) by {
        forall i, j | 0 <= i < j < |s[1..]| ensures le(s[1..][i], s[1..][j]) {
          assert le(s[i + 1], s[j + 1]);
        }
      }
      SortByIdentity(s[1..], le);
      if |s| > 1 {
        assert le(s[0], s[1]);
      }
      assert [s[0]] + s[1..] == s;
    }
  }

  lemma {:induction false} SortBySum<T>(s: seq<T>, le: (T, T) -> bool, f: T -> real)
    ensures SumBy(SortBy(s, le), f) == SumBy(s, f)
  {
    if |s| > 0 {
      SortBySum(s[1..], le, f);
      InsertBySum(s[0], SortBy(s[1..], le), le, f);
    }
  }

  lemma {:induction false} InsertBySum<T>(x: T, s: seq<T>, le: (T, T) -> bool, f: T -> real)
    ensures SumBy(InsertBy(x, s, le), f) == f(x) + SumBy(s, f)
  {
    if |s| > 0 && !le(x, s[0]) {
      InsertBySum(x, s[1..], le, f);
      assert ([s[0]] + InsertBy(x, s[1..], le))[1..] == InsertBy(x, s[1..], le);
    } else if |s| > 0 {
      assert ([x] + s)[1..] == s;
    }
  }

  // ----------------------------------------------------------- distinctness

  predicate NoDuplicates<T(==)>(s: seq<T>) {
    forall i, j :: 0 <= i < j < |s| ==> s[i] != s[j]
  }

  /** The distinct elements of `s` in order of first appearance (SQL `GROUP BY` keys). */
  function Distinct<T(!new,==)>(s: seq<T>): (r: seq<T>)
    ensures forall x :: x in r <==> x in s
    ensures NoDuplicates(r)
  {
    if |s| == 0 then []
    else
      var d := Distinct(s[..|s| - 1]);
      var last := s[|s| - 1];
      assert s == s[..|s| - 1] + [last];
      if last in d then d else d + [last]
  }

  /** Elements of a sequence without duplicates that sorts it keep that property. */
  lemma {:induction false} NoDuplicatesPermutation<T>(a: seq<T>, b: seq<T>)
    requires multiset(a) == multiset(b)
    requires NoDuplicates(a)
    ensures NoDuplicates(b)
  {
    forall i, j | 0 <= i < j < |b| ensures b[i] != b[j] {
      if b[i] == b[j] {
        var x := b[i];
        assert b == b[..i] + [x] + b[i + 1..j] + [x] + b[j + 1..];
        assert multiset(b)[x] >= 2;
        NoDuplicatesMultiplicity(a, x);
      }
    }
  }

  lemma {:induction false} NoDuplicatesMultiplicity<T>(s: seq<T>, x: T)
    requires NoDuplicates(s)
    ensures multiset(s)[x] <= 1
  {
    if |s| > 0 {
      assert s == [s[0]] + s[1..];
      NoDuplicatesMultiplicity(s[1..], x);
      if s[0] == x {
        assert x !in s[1..];
      }
    }
  }
}
