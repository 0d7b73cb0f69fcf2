/**
 * `calculate_statistics` of backend/app/routes/api.py: count, sum, mean, median,
 * minimum, maximum, range, and (for more than one number) the population variance and
 * standard deviation, each rounded to 10 places.
 *
 * Numbers are exact reals; `math.sqrt` and `round` are the uninterpreted functions of
 * `PyMath`.
 */
module Statistics {
  import opened Base
  import opened PyRuntime

  predicate Sorted(s: seq<real>) {
    forall i, j :: 0 <= i < j < |s| ==> s[i] <= s[j]
  }

  /** `x` placed before the first element not smaller than it. */
  function Insert(x: real, s: seq<real>): (r: seq<real>)
    requires Sorted(s)
    ensures |r| == |s| + 1
    ensures r[0] == x || (s != [] && r[0] == s[0])
    ensures Sorted(r)
    ensures multiset(r) == multiset(s) + multiset{x}
    decreases |s|
  {
    if s == [] || x <= s[0] then
      PrependSorted(x, s);
      [x] + s
    else
      TailSorted(s);
      var rest := Insert(x, s[1..]);
      assert s == [s[0]] + s[1..];
      assert s[0] <= rest[0] by {
        if rest[0] != x { assert rest[0] == s[1]; }
      }
      PrependSorted(s[0], rest);
      PrependMultiset(s[0], s[1..], rest, x);
      [s[0]] + rest
  }

  lemma TailSorted(s: seq<real>)
    requires s != [] && Sorted(s)
    ensures Sorted(s[1..])
  {
    forall i, j | 0 <= i < j < |s| - 1
      ensures s[1..][i] <= s[1..][j]
    {
      assert s[1..][i] == s[i + 1] && s[1..][j] == s[j + 1];
    }
  }

  lemma PrependMultiset(y: real, t: seq<real>, rest: seq<real>, x: real)
    requires multiset(rest) == multiset(t) + multiset{x}
    ensures multiset([y] + rest) == multiset([y] + t) + multiset{x}
  {
    assert multiset([y] + rest) == multiset{y} + multiset(rest);
    assert multiset([y] + t) == multiset{y} + multiset(t);
  }

  lemma PrependSorted(x: real, s: seq<real>)
    requires Sorted(s) && (s != [] ==> x <= s[0])
    ensures Sorted([x] + s)
  {
    var r := [x] + s;
    forall i, j | 0 <= i < j < |r|
      ensures r[i] <= r[j]
    {
      if i == 0 {
        assert r[j] == s[j - 1] && s[0] <= s[j - 1];
      } else {
        assert r[i] == s[i - 1] && r[j] == s[j - 1];
      }
    }
  }

  /** Sorting keeps the length. */
  lemma SortLength(s: seq<real>)
    ensures |Sort(s)| == |s|
  {
    assert |Sort(s)| == |multiset(Sort(s))| == |multiset(s)| == |s|;
  }

  /** `sorted(numbers)`: the same numbers in ascending order. */
  function Sort(s: seq<real>): (r: seq<real>)
    ensures Sorted(r)
    ensures multiset(r) == multiset(s)
    decreases |s|
  {
    if s == [] then []
    else
      assert s == s[..|s| - 1] + [s[|s| - 1]];
      Insert(s[|s| - 1], Sort(s[..|s| - 1]))
  }

  function Sum(s: seq<real>): real
    decreases |s|
  {
    if s == [] then 0.0 else s[0] + Sum(s[1..])
  }

  lemma {:induction false} SumAppend(s: seq<real>, x: real)
    ensures Sum(s + [x]) == Sum(s) + x
    decreases |s|
  {
    if s != [] {
      assert (s + [x])[1..] == s[1..] + [x];
      SumAppend(s[1..], x);
    }
  }

  lemma {:induction false} SumInsert(x: real, s: seq<real>)
    requires Sorted(s)
    ensures Sum(Insert(x, s)) == Sum(s) + x
    decreases |s|
  {
    if s != [] && x > s[0] {
      SumInsert(x, s[1..]);
    }
  }

  /** Sorting does not change the sum, so `sum(sorted(numbers))` is the sum of the
      numbers as given. */
  lemma {:induction false} SumSort(s: seq<real>)
    ensures Sum(Sort(s)) == Sum(s)
    decreases |s|
  {
    if s != [] {
      var init, last := s[..|s| - 1], s[|s| - 1];
      SumSort(init);
      assert s == init + [last];
      SumSortStep(init, last);
    }
  }

  lemma SumSortStep(init: seq<real>, last: real)
    requires Sum(Sort(init)) == Sum(init)
    ensures Sum(Sort(init + [last])) == Sum(init + [last])
  {
    var s := init + [last];
    assert s[..|s| - 1] == init;
    assert Sort(s) == Insert(last, Sort(init));
    SumInsert(last, Sort(init));
    SumAppend(init, last);
  }

  /** `min(s)`. */
  function MinOf(s: seq<real>): (r: real)
    requires |s| > 0
    ensures r in s
    ensures forall i :: 0 <= i < |s| ==> r <= s[i]
    decreases |s|
  {
    if |s| == 1 then s[0]
    else
      var rest := MinOf(s[1..]);
      if s[0] <= rest then s[0] else rest
  }

  /** `max(s)`. */
  function MaxOf(s: seq<real>): (r: real)
    requires |s| > 0
    ensures r in s
    ensures forall i :: 0 <= i < |s| ==> s[i] <= r
    decreases |s|
  {
    if |s| == 1 then s[0]
    else
      var rest := MaxOf(s[1..]);
      if s[0] >= rest then s[0] else rest
  }

  /** The sum of numbers that all lie in [lo, hi] lies in [n * lo, n * hi]. */
  lemma {:induction false} SumBounds(s: seq<real>, lo: real, hi: real)
    requires forall i :: 0 <= i < |s| ==> lo <= s[i] <= hi
    ensures |s| as real * lo <= Sum(s) <= |s| as real * hi
    decreases |s|
  {
    if s != [] {
      SumBounds(s[1..], lo, hi);
    }
  }

  lemma ProductBounds(q: real, n: real, total: real, lo: real, hi: real)
    requires n > 0.0 && q * n == total && n * lo <= total <= n * hi
    ensures lo <= q <= hi
  {
    assert (q - lo) * n >= 0.0;
    assert (hi - q) * n >= 0.0;
  }

  /** `sum(s) / len(s)`. */
  function Mean(s: seq<real>): (r: real)
    requires s != []
    ensures r * |s| as real == Sum(s)
  {
    Sum(s) / |s| as real
  }

  /** The middle element of a sorted list, or the mean of the two middle elements. */
  function Median(sorted: seq<real>): (r: real)
    requires |sorted| > 0
    // odd length: the middle element
    ensures |sorted| % 2 == 1 ==> r == sorted[|sorted| / 2]
    // even length: equally far from the two middle elements
    ensures |sorted| % 2 == 0 ==> r - sorted[|sorted| / 2 - 1] == sorted[|sorted| / 2] - r
    // on a sorted list it lies between the two middle elements (which coincide for odd n)
    ensures Sorted(sorted) ==> sorted[(|sorted| - 1) / 2] <= r <= sorted[|sorted| / 2]
  {
    var n := |sorted|;
    if n % 2 == 0 then (sorted[n / 2 - 1] + sorted[n / 2]) / 2.0 else sorted[n / 2]
  }

  /** `sum((x - mean) ** 2 for x in s)`. */
  function SquaredDeviations(s: seq<real>, mean: real): (r: real)
    ensures r >= 0.0
    decreases |s|
  {
    if s == [] then 0.0
    else
      var d := s[0] - mean;
      SquareNonNegative(d);
      d * d + SquaredDeviations(s[1..], mean)
  }

  lemma SquareNonNegative(d: real)
    ensures d * d >= 0.0
  {
    if d < 0.0 { assert d * d == (-d) * (-d); }
  }

  /** The population variance, defined only for more than one number. */
  function Variance(s: seq<real>, mean: real): (v: Option<real>)
    ensures v.None? <==> |s| <= 1
    ensures v.Some? ==> v.value >= 0.0
    ensures v.Some? ==> v.value * |s| as real == SquaredDeviations(s, mean)
  {
    if |s| > 1 then
      var q := SquaredDeviations(s, mean) / |s| as real;
      assert q * |s| as real == SquaredDeviations(s, mean);
      Some(q)
    else None
  }

  /** Sorting keeps exactly the same numbers. */
  lemma SortKeepsElements(numbers: seq<real>)
    ensures |Sort(numbers)| == |numbers|
    ensures forall x :: x in Sort(numbers) <==> x in numbers
  {
    var sorted := Sort(numbers);
    assert |sorted| == |multiset(sorted)| == |multiset(numbers)| == |numbers|;
    assert forall x :: x in sorted <==> x in multiset(sorted);
    assert forall x :: x in numbers <==> x in multiset(numbers);
  }

  /** The minimum and maximum of a list holding the same numbers as `numbers` are
      among those numbers and bound every one of them. */
  lemma SameExtremes(t: seq<real>, numbers: seq<real>)
    requires t != [] && forall x :: x in t <==> x in numbers
    ensures MinOf(t) in numbers && MaxOf(t) in numbers
    ensures forall i :: 0 <= i < |numbers| ==> MinOf(t) <= numbers[i] <= MaxOf(t)
  {
    var lo, hi := MinOf(t), MaxOf(t);
    forall i | 0 <= i < |numbers|
      ensures lo <= numbers[i] <= hi
    {
      assert numbers[i] in numbers;
    }
  }

  /** Numbers that all lie in [lo, hi] have their mean there too. */
  lemma MeanBounds(s: seq<real>, lo: real, hi: real)
    requires s != []
    requires forall i :: 0 <= i < |s| ==> lo <= s[i] <= hi
    ensures lo <= Mean(s) <= hi
  {
    SumBounds(s, lo, hi);
    ProductBounds(Mean(s), |s| as real, Sum(s), lo, hi);
  }

  datatype Summary = Summary(
    count: nat,
    sum: real,
    mean: real,
    median: real,
    minValue: real,
    maxValue: real,
    range: real,
    variance: Option<real>,
    stdDev: Option<real>)

  datatype StatisticsError = EmptyList

  /** `min(numbers)`, taken as the first element of the sorted list. */
  function Lowest(numbers: seq<real>): (r: real)
    requires numbers != []
    ensures r in numbers
    ensures forall i :: 0 <= i < |numbers| ==> r <= numbers[i]
  {
    var sorted := Sort(numbers);
    SortKeepsElements(numbers);
    SameExtremes(sorted, numbers);
    MinOf(sorted)
  }

  /** `max(numbers)`, taken as the last element of the sorted list. */
  function Highest(numbers: seq<real>): (r: real)
    requires numbers != []
    ensures r in numbers
    ensures forall i :: 0 <= i < |numbers| ==> numbers[i] <= r
  {
    var sorted := Sort(numbers);
    SortKeepsElements(numbers);
    SameExtremes(sorted, numbers);
    MaxOf(sorted)
  }

  /** The median of the sorted numbers lies between their minimum and maximum. */
  function MedianOf(numbers: seq<real>): (r: real)
    requires numbers != []
    ensures r == Median(Sort(numbers))
    ensures Lowest(numbers) <= r <= Highest(numbers)
  {
    var sorted := Sort(numbers);
    SortKeepsElements(numbers);
    var n := |sorted|;
    assert sorted[n / 2] in numbers && sorted[(n - 1) / 2] in numbers;
    Median(sorted)
  }

  /** Sorting does not change the mean. */
  lemma SortedMean(numbers: seq<real>)
    requires numbers != []
    ensures |Sort(numbers)| == |numbers|
    ensures Mean(Sort(numbers)) == Mean(numbers)
  {
    SortLength(numbers);
    SumSort(numbers);
    SameMean(Sort(numbers), numbers);
  }

  lemma SameMean(a: seq<real>, b: seq<real>)
    requires |a| == |b| > 0 && Sum(a) == Sum(b)
    ensures Mean(a) == Mean(b)
  {
  }

  /** The statistics before rounding. */
  function Describe(m: PyMath, numbers: seq<real>): (r: Result<Summary, StatisticsError>)
    ensures r.Failure? <==> numbers == []
    ensures r.Success? ==>
      var s := r.value;
      && s.count == |numbers|
      && s.sum == Sum(numbers)
      && s.minValue in numbers && s.maxValue in numbers
      && (forall i :: 0 <= i < |numbers| ==> s.minValue <= numbers[i] <= s.maxValue)
      && s.minValue <= s.median <= s.maxValue
      && s.minValue <= s.mean <= s.maxValue
      && s.mean == Mean(numbers)
      && s.median == MedianOf(numbers)
      && s.variance == Variance(Sort(numbers), s.mean)
      && s.range == s.maxValue - s.minValue && s.range >= 0.0
      && (s.variance.None? <==> s.count == 1)
      && (s.variance.Some? ==> s.variance.value >= 0.0 && s.stdDev == Some(m.sqrt(s.variance.value)))
      && (s.variance.None? ==> s.stdDev.None?)
  {
    if numbers == [] then Failure(EmptyList)
    else
      var sorted := Sort(numbers);
      SortedMean(numbers);
      SumSort(numbers);
      var lo, hi := Lowest(numbers), Highest(numbers);
      assert lo <= numbers[0] <= hi;
      MeanBounds(numbers, lo, hi);
      var mean := Mean(sorted);
      var variance := Variance(sorted, mean);
      Success(Summary(
        |numbers|, Sum(sorted), mean, MedianOf(numbers), lo, hi, hi - lo,
        variance,
        if variance.Some? then Some(m.sqrt(variance.value)) else None))
  }

  /** A value rounded to 10 places, None staying None. */
  function RoundOption(m: PyMath, x: Option<real>): Option<real> {
    if x.Some? then Some(m.round(x.value, 10)) else None
  }

  /** POST /api/statistics: the statistics with every real rounded to 10 places. */
  function CalculateStatistics(m: PyMath, numbers: seq<real>): (r: Result<Summary, StatisticsError>)
    ensures r.Failure? <==> numbers == []
    ensures r.Success? ==>
      && r.value.count == |numbers|
      && (r.value.variance.None? <==> |numbers| == 1)
      && (r.value.stdDev.None? <==> |numbers| == 1)
      && r.value.sum == m.round(Sum(numbers), 10)
    // every other field is its unrounded value rounded to 10 places
    ensures r.Success? ==>
      var d := Describe(m, numbers).value;
      && r.value.mean == m.round(d.mean, 10) && r.value.median == m.round(d.median, 10)
      && r.value.minValue == m.round(d.minValue, 10) && r.value.maxValue == m.round(d.maxValue, 10)
      && r.value.range == m.round(d.range, 10)
      && r.value.variance == RoundOption(m, d.variance) && r.value.stdDev == RoundOption(m, d.stdDev)
  {
    match Describe(m, numbers)
    case Failure(e) => Failure(e)
    case Success(s) =>
      Success(Summary(
        s.count, m.round(s.sum, 10), m.round(s.mean, 10), m.round(s.median, 10),
        m.round(s.minValue, 10), m.round(s.maxValue, 10), m.round(s.range, 10),
        RoundOption(m, s.variance), RoundOption(m, s.stdDev)))
  }

  /** On a sorted list of odd length the median has as many elements at or below it as
      at or above it; on an even length it lies between the two middle elements. */
  lemma MedianIsMiddle(sorted: seq<real>)
    requires |sorted| > 0 && Sorted(sorted)
    ensures |sorted| % 2 == 1 ==>
      (forall i :: 0 <= i <= |sorted| / 2 ==> sorted[i] <= Median(sorted))
      && (forall i :: |sorted| / 2 <= i < |sorted| ==> Median(sorted) <= sorted[i])
    ensures |sorted| % 2 == 0 ==>
      (forall i :: 0 <= i < |sorted| / 2 ==> sorted[i] <= Median(sorted))
      && (forall i :: |sorted| / 2 <= i < |sorted| ==> Median(sorted) <= sorted[i])
  {
  }
}
