/** Per-position age statistics: the mean and population standard deviation
    that `NSExpression`'s `average:` and `stddev:` compute, here over exact
    reals. The square root is a parameter `sqrt` required to be one. */
module Statistics {
  import opened Wrappers
  import opened Sequences
  import opened Sorting

  datatype ResultsStatistic = ResultsStatistic(average: seq<real>, standardDeviation: seq<real>)

  datatype ResultDataError = WrongRangeOfInterestScope | WrongStatisticsComparatorData | EmptyResults

  function Sum(xs: seq<real>): real {
    if xs == [] then 0.0 else xs[0] + Sum(xs[1..])
  }

  function Mean(xs: seq<real>): real
    requires |xs| > 0
  {
    Sum(xs) / (|xs| as real)
  }

  function SquaredDeviations(xs: seq<real>, m: real): (ds: seq<real>)
    ensures |ds| == |xs|
    ensures forall i :: 0 <= i < |xs| ==> ds[i] == (xs[i] - m) * (xs[i] - m)
  {
    if xs == [] then [] else [(xs[0] - m) * (xs[0] - m)] + SquaredDeviations(xs[1..], m)
  }

  /** The population variance: the mean squared distance from the mean. */
  function Variance(xs: seq<real>): real
    requires |xs| > 0
  {
    Mean(SquaredDeviations(xs, Mean(xs)))
  }

  ghost predicate IsSqrt(sqrt: real -> real) {
    forall x :: x >= 0.0 ==> sqrt(x) >= 0.0 && sqrt(x) * sqrt(x) == x
  }

  lemma {:induction false} SumNonNegative(xs: seq<real>)
    requires forall i :: 0 <= i < |xs| ==> xs[i] >= 0.0
    ensures Sum(xs) >= 0.0
  {
    if xs != [] {
      SumNonNegative(xs[1..]);
    }
  }

  lemma VarianceNonNegative(xs: seq<real>)
    requires |xs| > 0
    ensures Variance(xs) >= 0.0
  {
    SumNonNegative(SquaredDeviations(xs, Mean(xs)));
  }

  /** The population standard deviation: the non-negative root of the variance. */
  function StandardDeviation(sqrt: real -> real, xs: seq<real>): (sd: real)
    requires IsSqrt(sqrt) && |xs| > 0
    ensures sd >= 0.0 && sd * sd == Variance(xs)
  {
    VarianceNonNegative(xs);
    sqrt(Variance(xs))
  }

  /** Two non-negative reals with the same square are equal. */
  lemma RootUnique(a: real, b: real)
    requires a >= 0.0 && b >= 0.0 && a * a == b * b
    ensures a == b
  {
    var d, t := a - b, a + b;
    assert d * t == a * a - b * b;
    if t != 0.0 {
      assert d == (d * t) / t;
    }
  }

  lemma SumOfTwo(a: real, b: real)
    ensures Sum([a, b]) == a + b
  {
    assert [a, b][1..] == [b];
    assert [b][1..] == [];
    assert Sum([b]) == b + Sum([]);
    assert Sum([a, b]) == a + Sum([b]);
  }

  /** One value: it is its own mean, with no spread. */
  lemma SingleValue(sqrt: real -> real, a: real)
    requires IsSqrt(sqrt)
    ensures Mean([a]) == a
    ensures StandardDeviation(sqrt, [a]) == 0.0
  {
    assert [a][1..] == [];
    assert Sum([a]) == a;
    var ds := SquaredDeviations([a], a);
    assert |ds| == 1 && ds[0] == 0.0;
    assert ds[1..] == [];
    assert Sum(ds) == 0.0 + Sum([]);
    assert Variance([a]) == 0.0;
    var sd := StandardDeviation(sqrt, [a]);
    assert sd * sd == 0.0 * 0.0;
    RootUnique(sd, 0.0);
  }

  /** Two values: the midpoint, and half the distance between them. */
  lemma TwoValues(sqrt: real -> real, a: real, b: real)
    requires IsSqrt(sqrt)
    ensures Mean([a, b]) == (a + b) / 2.0
    ensures StandardDeviation(sqrt, [a, b]) == (if a >= b then a - b else b - a) / 2.0
  {
    var m := (a + b) / 2.0;
    SumOfTwo(a, b);
    assert Mean([a, b]) == m;
    var half := (if a >= b then a - b else b - a) / 2.0;
    var ds := SquaredDeviations([a, b], m);
    assert (a - m) * (a - m) == half * half;
    assert (b - m) * (b - m) == half * half;
    assert |ds| == 2 && ds[0] == half * half && ds[1] == half * half;
    assert ds == [half * half, half * half];
    SumOfTwo(half * half, half * half);
    assert Variance([a, b]) == half * half;
    var sd := StandardDeviation(sqrt, [a, b]);
    RootUnique(sd, half);
  }

  /** A mean lies between the least and the greatest value. */
  lemma MeanWithin(xs: seq<real>, lo: real, hi: real)
    requires |xs| > 0
    requires forall i :: 0 <= i < |xs| ==> lo <= xs[i] <= hi
    ensures lo <= Mean(xs) <= hi
  {
    SumWithin(xs, lo, hi);
  }

  lemma {:induction false} SumWithin(xs: seq<real>, lo: real, hi: real)
    requires forall i :: 0 <= i < |xs| ==> lo <= xs[i] <= hi
    ensures lo * (|xs| as real) <= Sum(xs) <= hi * (|xs| as real)
  {
    if xs != [] {
      SumWithin(xs[1..], lo, hi);
    }
  }

  // ---------------------------------------------------------------------------
  // Rounding and bands

  /** Swift's `round`: to the nearest integer, halves away from zero. */
  function Round(x: real): (r: int)
    ensures (r as real) - x <= 0.5 && x - (r as real) <= 0.5
    ensures x >= 0.0 ==> r >= 0
  {
    if x >= 0.0 then (x + 0.5).Floor else -((-x + 0.5).Floor)
  }

  lemma RoundMonotone(x: real, y: real)
    requires x <= y
    ensures Round(x) <= Round(y)
  {
  }

  lemma RoundOfInteger(n: int)
    ensures Round(n as real) == n
  {
  }

  function Max(a: real, b: real): real {
    if a >= b then a else b
  }

  /** The band of ages accepted at a position: `[round(max(0, average -
      deviation)), round(average + deviation)]` with the deviation scaled by
      `factor`. */
  datatype Band = Band(top: int, bottom: int)
  {
    predicate Contains(age: int) {
      age <= top && age >= bottom
    }
  }

  function BandFor(average: real, deviation: real, factor: real): (b: Band)
    ensures b.bottom >= 0
    ensures deviation * factor >= 0.0 && average >= 0.0 ==> b.bottom <= b.top
  {
    var spread := deviation * factor;
    var b := Band(Round(average + spread), Round(Max(0.0, average - spread)));
    assert spread >= 0.0 && average >= 0.0 ==> b.bottom <= b.top by {
      if spread >= 0.0 && average >= 0.0 {
        RoundMonotone(Max(0.0, average - spread), average + spread);
      }
    }
    b
  }

  /** A wider spread never narrows the band. */
  lemma BandWidens(average: real, deviation: real, f: real, g: real)
    requires deviation >= 0.0 && 0.0 <= f <= g
    ensures BandFor(average, deviation, g).bottom <= BandFor(average, deviation, f).bottom
    ensures BandFor(average, deviation, f).top <= BandFor(average, deviation, g).top
  {
    assert deviation * f <= deviation * g;
    RoundMonotone(average + deviation * f, average + deviation * g);
    RoundMonotone(Max(0.0, average - deviation * g), Max(0.0, average - deviation * f));
  }

  // ---------------------------------------------------------------------------
  // From a window of draws to per-position statistics

  /** `compactMap { $0.age }`: the ages that are set, in order. */
  function Somes(ages: seq<Option<int>>): (r: seq<int>)
    ensures |r| <= |ages|
  {
    if ages == [] then []
    else (if ages[0].Some? then [ages[0].value] else []) + Somes(ages[1..])
  }

  /** `compactMap { $0.age }.sorted(by: <)`. */
  function SortedAges(ages: seq<Option<int>>): (r: seq<int>)
    ensures Sorted(r) && multiset(r) == multiset(Somes(ages))
  {
    Sort(Somes(ages))
  }

  /** `filter { $0.count == validNumbersCount }`. */
  function ValidRows(rows: seq<seq<int>>, n: nat): (r: seq<seq<int>>)
    ensures |r| <= |rows|
    ensures forall i :: 0 <= i < |r| ==> |r[i]| == n
    ensures forall i :: 0 <= i < |r| ==> r[i] in rows
    ensures forall i :: 0 <= i < |rows| && |rows[i]| == n ==> rows[i] in r
  {
    if rows == [] then []
    else (if |rows[0]| == n then [rows[0]] else []) + ValidRows(rows[1..], n)
  }

  /** The filter keeps each row of length `n` as often as it occurs and
      drops every other row. */
  lemma {:induction false} ValidRowsCount(rows: seq<seq<int>>, n: nat, x: seq<int>)
    ensures multiset(ValidRows(rows, n))[x] == if |x| == n then multiset(rows)[x] else 0
  {
    if rows != [] {
      assert rows == [rows[0]] + rows[1..];
      ValidRowsCount(rows[1..], n, x);
    }
  }

  /** The filter keeps the order of its input: filtering a concatenation
      concatenates the filtered parts. */
  lemma {:induction false} ValidRowsConcat(a: seq<seq<int>>, b: seq<seq<int>>, n: nat)
    ensures ValidRows(a + b, n) == ValidRows(a, n) + ValidRows(b, n)
  {
    if a == [] {
      assert a + b == b;
    } else {
      var head := if |a[0]| == n then [a[0]] else [];
      assert (a + b)[0] == a[0] && (a + b)[1..] == a[1..] + b;
      ValidRowsConcat(a[1..], b, n);
      assert ValidRows(a + b, n) == head + (ValidRows(a[1..], n) + ValidRows(b, n));
    }
  }

  /** `validAges.map { $0[positionIdx] }`, as reals. */
  function Column(rows: seq<seq<int>>, p: nat): (c: seq<real>)
    requires forall i :: 0 <= i < |rows| ==> p < |rows[i]|
    ensures |c| == |rows|
    ensures forall i :: 0 <= i < |rows| ==> c[i] == rows[i][p] as real
  {
    if rows == [] then [] else [rows[0][p] as real] + Column(rows[1..], p)
  }

  /** Every row has exactly `n` entries and there is at least one row. */
  predicate Rectangular(rows: seq<seq<int>>, n: nat) {
    |rows| > 0 && forall i :: 0 <= i < |rows| ==> |rows[i]| == n
  }

  /** The statistics the handlers produce: for each position the mean and
      standard deviation of the entries of every row at that position. */
  function PositionStatistics(sqrt: real -> real, rows: seq<seq<int>>, n: nat): (s: ResultsStatistic)
    requires IsSqrt(sqrt) && Rectangular(rows, n)
    ensures |s.average| == n && |s.standardDeviation| == n
    ensures forall p :: 0 <= p < n ==> s.standardDeviation[p] >= 0.0
  {
    ResultsStatistic(seq(n, p requires 0 <= p < n => Mean(Column(rows, p))),
                     seq(n, p requires 0 <= p < n => StandardDeviation(sqrt, Column(rows, p))))
  }

  /** The loop over positions appending each position's average and deviation. */
  method AveragesAndDeviations(sqrt: real -> real, rows: seq<seq<int>>, n: nat) returns (s: ResultsStatistic)
    requires IsSqrt(sqrt) && Rectangular(rows, n)
    ensures s == PositionStatistics(sqrt, rows, n)
  {
    var averages: seq<real> := [];
    var deviations: seq<real> := [];
    for p := 0 to n
      invariant |averages| == p && |deviations| == p
      invariant forall q :: 0 <= q < p ==> averages[q] == Mean(Column(rows, q))
      invariant forall q :: 0 <= q < p ==> deviations[q] == StandardDeviation(sqrt, Column(rows, q))
    {
      var column := Column(rows, p);
      averages := averages + [Mean(column)];
      deviations := deviations + [StandardDeviation(sqrt, column)];
    }
    s := ResultsStatistic(averages, deviations);
  }

  /** With a single row the averages are that row and no position spreads. */
  lemma SingleRowStatistics(sqrt: real -> real, row: seq<int>)
    requires IsSqrt(sqrt)
    ensures PositionStatistics(sqrt, [row], |row|).average == seq(|row|, p requires 0 <= p < |row| => row[p] as real)
    ensures forall p :: 0 <= p < |row| ==> PositionStatistics(sqrt, [row], |row|).standardDeviation[p] == 0.0
  {
    forall p | 0 <= p < |row|
      ensures Mean(Column([row], p)) == row[p] as real
      ensures StandardDeviation(sqrt, Column([row], p)) == 0.0
    {
      assert Column([row], p) == [row[p] as real];
      SingleValue(sqrt, row[p] as real);
    }
  }

  /** With two rows each position has the midpoint as average and half the
      distance as deviation. */
  lemma TwoRowStatistics(sqrt: real -> real, a: seq<int>, b: seq<int>)
    requires IsSqrt(sqrt) && |a| == |b|
    ensures forall p :: 0 <= p < |a| ==>
      PositionStatistics(sqrt, [a, b], |a|).average[p] == ((a[p] + b[p]) as real) / 2.0
      && PositionStatistics(sqrt, [a, b], |a|).standardDeviation[p]
         == (if a[p] >= b[p] then a[p] - b[p] else b[p] - a[p]) as real / 2.0
  {
    forall p | 0 <= p < |a|
      ensures Mean(Column([a, b], p)) == ((a[p] + b[p]) as real) / 2.0
      ensures StandardDeviation(sqrt, Column([a, b], p)) == (if a[p] >= b[p] then a[p] - b[p] else b[p] - a[p]) as real / 2.0
    {
      assert Column([a, b], p) == [a[p] as real, b[p] as real];
      TwoValues(sqrt, a[p] as real, b[p] as real);
    }
  }
}
