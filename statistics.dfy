/** Model of `compute_statistics` (rust_module/src/statistics.rs) over real
    numbers instead of `f64`: min and max as folds, the mean, the median and
    quartiles read by index from a sorted copy, and the population variance. */
module Statistics {

  /** The fields of `StatisticsResult` that need no square root (min, max,
      mean, median, q1, q3), with the population variance from which
      `std_dev` is computed. */
  datatype Report = Report(min: real, max: real, mean: real, median: real,
                           q1: real, q3: real, variance: real)

  /** The sum of the elements, added left to right. */
  function Sum(s: seq<real>): real {
    if s == [] then 0.0 else Sum(s[..|s| - 1]) + s[|s| - 1]
  }

  /** The least element, folding a running minimum from the left. */
  function MinOf(s: seq<real>): (m: real)
    requires |s| > 0
    ensures forall i :: 0 <= i < |s| ==> m <= s[i]
    ensures m in s
  {
    if |s| == 1 then s[0]
    else
      var rest := MinOf(s[..|s| - 1]);
      if s[|s| - 1] < rest then s[|s| - 1] else rest
  }

  /** The greatest element, folding a running maximum from the left. */
  function MaxOf(s: seq<real>): (m: real)
    requires |s| > 0
    ensures forall i :: 0 <= i < |s| ==> s[i] <= m
    ensures m in s
  {
    if |s| == 1 then s[0]
    else
      var rest := MaxOf(s[..|s| - 1]);
      if s[|s| - 1] > rest then s[|s| - 1] else rest
  }

  /** The arithmetic mean. */
  function Mean(s: seq<real>): real
    requires |s| > 0
  {
    Sum(s) / (|s| as real)
  }

  /** The square of a real, as `powi(2)` computes it. */
  function Square(x: real): real { x * x }

  /** The sum of the squared distances of the elements from `m`, added left to right. */
  function SquaredDeviation(s: seq<real>, m: real): real {
    if s == [] then 0.0 else SquaredDeviation(s[..|s| - 1], m) + Square(s[|s| - 1] - m)
  }

  /** The population variance. */
  function Variance(s: seq<real>): real
    requires |s| > 0
  {
    SquaredDeviation(s, Mean(s)) / (|s| as real)
  }

  predicate Sorted(s: seq<real>) {
    forall i, j :: 0 <= i < j < |s| ==> s[i] <= s[j]
  }

  /** Insert `x` into a sorted sequence. */
  function Insert(x: real, s: seq<real>): (r: seq<real>)
    requires Sorted(s)
    ensures Sorted(r)
    ensures multiset(r) == multiset(s) + multiset{x}
    decreases |s|, 1
  {
    if s == [] then [x]
    else if x <= s[0] then [x] + s
    else
      var rest := Insert(x, s[1..]);
      assert s == [s[0]] + s[1..];
      HeadBelowRest(x, s);
      [s[0]] + rest
  }

  /** Inserting a larger `x` behind the head of a sorted sequence keeps every
      element at least as large as the head. */
  lemma HeadBelowRest(x: real, s: seq<real>)
    requires Sorted(s) && s != [] && s[0] < x
    ensures forall k :: 0 <= k < |Insert(x, s[1..])| ==> s[0] <= Insert(x, s[1..])[k]
    decreases |s|, 0
  {
    var rest := Insert(x, s[1..]);
    forall k | 0 <= k < |rest| ensures s[0] <= rest[k] {
      assert rest[k] in multiset(rest);
      if rest[k] != x {
        assert rest[k] in multiset(s[1..]);
        var j :| 0 <= j < |s[1..]| && s[1..][j] == rest[k];
        assert s[j + 1] == rest[k];
      }
    }
  }

  /** The ascending rearrangement of `s`: the reference the in-place sort is
      checked against. */
  function SortSeq(s: seq<real>): (r: seq<real>)
    ensures Sorted(r)
    ensures multiset(r) == multiset(s)
    ensures |r| == |s|
  {
    if s == [] then []
    else
      assert s == [s[0]] + s[1..];
      Insert(s[0], SortSeq(s[1..]))
  }

  /** The first element of a sorted sequence is at most each of its elements. */
  lemma SortedHeadLeast(a: seq<real>, x: real)
    requires Sorted(a) && x in multiset(a)
    ensures a[0] <= x
  {
    var i :| 0 <= i < |a| && a[i] == x;
  }

  /** Two sorted arrangements of one multiset have the same length and head. */
  lemma SortedSameHead(a: seq<real>, b: seq<real>)
    requires Sorted(a) && Sorted(b) && multiset(a) == multiset(b) && a != []
    ensures |b| == |a| && a[0] == b[0]
  {
    assert |a| == |multiset(a)| == |b|;
    SortedHeadLeast(b, a[0]);
    SortedHeadLeast(a, b[0]);
  }

  lemma SameTails(a: seq<real>, b: seq<real>)
    requires multiset(a) == multiset(b) && a != [] && b != [] && a[0] == b[0]
    ensures multiset(a[1..]) == multiset(b[1..])
  {
    assert a == [a[0]] + a[1..] && b == [b[0]] + b[1..];
    assert multiset(a[1..]) == multiset(a) - multiset{a[0]};
    assert multiset(b[1..]) == multiset(b) - multiset{b[0]};
  }

  /** A multiset has exactly one ascending arrangement. */
  lemma {:induction false} SortedUnique(a: seq<real>, b: seq<real>)
    requires Sorted(a) && Sorted(b) && multiset(a) == multiset(b)
    ensures a == b
  {
    if a != [] {
      SortedSameHead(a, b);
      SameTails(a, b);
      SortedUnique(a[1..], b[1..]);
      assert a == [a[0]] + a[1..] && b == [b[0]] + b[1..];
    } else {
      assert |b| == |multiset(b)| == 0;
    }
  }

  method Swap(a: array<real>, i: nat, j: nat)
    requires i < a.Length && j < a.Length
    modifies a
    ensures a[..] == old(a[..])[i := old(a[j])][j := old(a[i])]
    ensures multiset(a[..]) == multiset(old(a[..]))
  {
    a[i], a[j] := a[j], a[i];
  }

  /** Sorts the buffer in place, ascending. The library sort is modelled by an
      insertion sort by adjacent swaps: only the sorted permutation matters. */
  method SortInPlace(a: array<real>)
    modifies a
    ensures Sorted(a[..])
    ensures multiset(a[..]) == multiset(old(a[..]))
  {
    var i := 0;
    while i < a.Length
      invariant 0 <= i <= a.Length
      invariant forall p, q :: 0 <= p < q < i ==> a[p] <= a[q]
      invariant multiset(a[..]) == multiset(old(a[..]))
    {
      var j := i;
      while j > 0 && a[j - 1] > a[j]
        invariant 0 <= j <= i
        invariant forall p, q :: 0 <= p < q <= i && p != j && q != j ==> a[p] <= a[q]
        invariant forall q :: j < q <= i ==> a[j] <= a[q]
        invariant multiset(a[..]) == multiset(old(a[..]))
      {
        Swap(a, j - 1, j);
        j := j - 1;
      }
      i := i + 1;
    }
  }

  /** For any non-empty length, the quartile indices are ordered and in bounds. */
  lemma QuartileIndices(n: nat)
    requires n >= 1
    ensures 0 <= n / 4 <= n / 2 <= (n * 3) / 4 < n
  {
  }

  /** Read by index from the sorted data, the quartiles sit between the
      extremes in the order q1, median, q3. */
  lemma OrderStatistics(data: seq<real>)
    requires |data| > 0
    ensures var t, n := SortSeq(data), |data|;
      MinOf(data) <= t[n / 4] <= t[n / 2] <= t[(n * 3) / 4] <= MaxOf(data)
  {
    var t, n := SortSeq(data), |data|;
    QuartileIndices(n);
    assert t[n / 4] in multiset(data);
    assert t[(n * 3) / 4] in multiset(data);
  }

  /** `compute_statistics(data)`: the extremes, the mean and the variance of
      `data`, and the quartiles read by index from a sorted copy. Empty data
      makes the median lookup panic, so at least one value is required. */
  method ComputeStatistics(data: seq<real>) returns (r: Report)
    requires |data| > 0
    ensures r.min == MinOf(data) && r.max == MaxOf(data)
    ensures r.mean == Sum(data) / (|data| as real)
    ensures r.variance == Variance(data)
    ensures r.median == SortSeq(data)[|data| / 2]
    ensures r.q1 == SortSeq(data)[|data| / 4]
    ensures r.q3 == SortSeq(data)[(|data| * 3) / 4]
    ensures r.min <= r.q1 <= r.median <= r.q3 <= r.max
  {
    var n := |data|;
    var sorted := new real[n](i requires 0 <= i < n => data[i]);
    assert sorted[..] == data;
    SortInPlace(sorted);
    SortedUnique(sorted[..], SortSeq(data));
    QuartileIndices(n);
    OrderStatistics(data);
    r := Report(MinOf(data), MaxOf(data), Mean(data), sorted[n / 2], sorted[n / 4], sorted[(n * 3) / 4], Variance(data));
  }

  /** The mean lies between the least and the greatest element. */
  lemma MeanBetweenExtremes(s: seq<real>)
    requires |s| > 0
    ensures MinOf(s) <= Mean(s) <= MaxOf(s)
  {
    MeanWithinBounds(s, MinOf(s), MaxOf(s));
  }

  lemma MeanWithinBounds(s: seq<real>, lo: real, hi: real)
    requires |s| > 0
    requires forall i :: 0 <= i < |s| ==> lo <= s[i] <= hi
    ensures lo <= Mean(s) <= hi
  {
    SumBounds(s, lo, hi);
    DivideBounds(Sum(s), |s| as real, lo, hi);
  }

  lemma DivideBounds(x: real, n: real, lo: real, hi: real)
    requires n > 0.0 && n * lo <= x <= n * hi
    ensures lo <= x / n <= hi
  {
    assert x / n * n == x;
  }

  lemma {:induction false} SumBounds(s: seq<real>, lo: real, hi: real)
    requires forall i :: 0 <= i < |s| ==> lo <= s[i] <= hi
    ensures (|s| as real) * lo <= Sum(s) <= (|s| as real) * hi
  {
    if s != [] {
      SumBounds(s[..|s| - 1], lo, hi);
    }
  }

  lemma PositiveProduct(d: real)
    requires d > 0.0
    ensures d * d > 0.0
  {}

  /** The square of a non-zero real is positive. */
  lemma SquarePositive(d: real)
    requires d != 0.0
    ensures Square(d) > 0.0
  {
    if d > 0.0 {
      calc { Square(d); == d * d; > { PositiveProduct(d); } 0.0; }
    } else {
      calc { Square(d); == (-d) * (-d); > { PositiveProduct(-d); } 0.0; }
    }
  }

  lemma SquareNonNegative(d: real)
    ensures Square(d) >= 0.0
  {}

  /** A sum of squares is never negative. */
  lemma {:induction false} SquaredDeviationNonNegative(s: seq<real>, m: real)
    ensures SquaredDeviation(s, m) >= 0.0
  {
    if s != [] {
      SquaredDeviationNonNegative(s[..|s| - 1], m);
      SquareNonNegative(s[|s| - 1] - m);
    }
  }

  /** One element away from `m` makes the sum of squares positive. */
  lemma {:induction false} SquaredDeviationPositive(s: seq<real>, m: real, i: nat)
    requires i < |s| && s[i] != m
    ensures SquaredDeviation(s, m) > 0.0
  {
    var init := s[..|s| - 1];
    var d := s[|s| - 1] - m;
    if i == |s| - 1 {
      SquaredDeviationNonNegative(init, m);
      SquarePositive(d);
    } else {
      assert init[i] == s[i];
      SquaredDeviationPositive(init, m, i);
      SquareNonNegative(d);
    }
  }

  /** When every element is `m` the sum of squares is zero. */
  lemma {:induction false} SquaredDeviationOfConstant(s: seq<real>, m: real)
    requires forall i :: 0 <= i < |s| ==> s[i] == m
    ensures SquaredDeviation(s, m) == 0.0
  {
    if s != [] {
      SquaredDeviationOfConstant(s[..|s| - 1], m);
      assert s[|s| - 1] - m == 0.0;
    }
  }

  /** A sum of squares is never negative, and is zero exactly when every term is. */
  lemma SquaredDeviationZero(s: seq<real>, m: real)
    ensures SquaredDeviation(s, m) >= 0.0
    ensures SquaredDeviation(s, m) == 0.0 <==> forall i :: 0 <= i < |s| ==> s[i] == m
  {
    SquaredDeviationNonNegative(s, m);
    if forall i :: 0 <= i < |s| ==> s[i] == m {
      SquaredDeviationOfConstant(s, m);
    } else {
      var i :| 0 <= i < |s| && s[i] != m;
      SquaredDeviationPositive(s, m, i);
    }
  }

  /** The variance is non-negative, and zero exactly when every element equals
      the mean. */
  lemma VarianceZeroIff(s: seq<real>)
    requires |s| > 0
    ensures Variance(s) >= 0.0
    ensures Variance(s) == 0.0 <==> forall i :: 0 <= i < |s| ==> s[i] == Mean(s)
  {
    SquaredDeviationZero(s, Mean(s));
    var n := |s| as real;
    var q := SquaredDeviation(s, Mean(s));
    assert Variance(s) == q / n;
    assert Variance(s) * n == q;
  }
}
