/** `StatisticsHandler.updateAgeStatistics`: per-position age statistics over
    a window of the draw history. How a draw's ages are read is a parameter
    `agesOf`, since the revisions of the draw types differ in it. */
module StatisticsHandler {
  import opened Wrappers
  import opened Sequences
  import opened Sorting
  import opened Statistics
  import opened RangesOfInterest

  /** `resultsOfInterest.map { $0.numbers.compactMap { $0.age }.sorted(by: <) }`. */
  function AgesOfInterest<T>(window: seq<T>, agesOf: T -> seq<Option<int>>): (rows: seq<seq<int>>)
    ensures |rows| == |window|
    ensures forall i :: 0 <= i < |window| ==> rows[i] == SortedAges(agesOf(window[i]))
  {
    seq(|window|, i requires 0 <= i < |window| => SortedAges(agesOf(window[i])))
  }

  /** The guard on the window: positive length and a scope that passes `isScopeValidFor`. */
  predicate ScopeAccepted<T>(roi: RangeOfInterest, results: seq<T>) {
    roi.length > 0 && roi.IsScopeValidFor(results)
  }

  /** The well-formed age rows of the window: those with exactly `n` ages. */
  function ValidAges<T>(results: seq<T>, agesOf: T -> seq<Option<int>>, n: nat, roi: RangeOfInterest): (rows: seq<seq<int>>)
    requires roi.InBounds(results)
    ensures forall i :: 0 <= i < |rows| ==> |rows[i]| == n && Sorted(rows[i])
  {
    ValidRows(AgesOfInterest(roi.Window(results), agesOf), n)
  }

  /** What `updateAgeStatistics` returns or throws. */
  function AgeStatistics<T>(sqrt: real -> real, results: seq<T>, agesOf: T -> seq<Option<int>>, n: nat,
                            roi: Option<RangeOfInterest>): (r: Result<Option<ResultsStatistic>, ResultDataError>)
    requires IsSqrt(sqrt)
    requires roi.Some? ==> !roi.value.SliceTraps(results)
    ensures roi.None? ==> r == Success(None)
    ensures r.Failure? <==> roi.Some? && !ScopeAccepted(roi.value, results)
    ensures r.Failure? ==> r.error == WrongRangeOfInterestScope
    ensures r == Success(None) <==> roi.None? || (ScopeAccepted(roi.value, results) && ValidAges(results, agesOf, n, roi.value) == [])
    ensures r.Success? && r.value.Some? ==> |r.value.value.average| == n && |r.value.value.standardDeviation| == n
    ensures r.Success? && r.value.Some? ==>
      r.value.value == PositionStatistics(sqrt, ValidAges(results, agesOf, n, roi.value), n)
  {
    if roi.None? then Success(None)
    else if !ScopeAccepted(roi.value, results) then Failure(WrongRangeOfInterestScope)
    else
      var validAges := ValidAges(results, agesOf, n, roi.value);
      if validAges == [] then Success(None)
      else Success(Some(PositionStatistics(sqrt, validAges, n)))
  }

  /** The handler itself: the guards, then the per-position loop. */
  method UpdateAgeStatistics<T>(sqrt: real -> real, results: seq<T>, agesOf: T -> seq<Option<int>>, n: nat,
                                roi: Option<RangeOfInterest>) returns (r: Result<Option<ResultsStatistic>, ResultDataError>)
    requires IsSqrt(sqrt)
    requires roi.Some? ==> !roi.value.SliceTraps(results)
    ensures r == AgeStatistics(sqrt, results, agesOf, n, roi)
  {
    if roi.None? {
      return Success(None);
    }
    var rangeOfInterest := roi.value;
    if !(rangeOfInterest.length > 0 && rangeOfInterest.IsScopeValidFor(results)) {
      return Failure(WrongRangeOfInterestScope);
    }
    var validAges := ValidAges(results, agesOf, n, rangeOfInterest);
    if validAges == [] {
      return Success(None);
    }
    var statistic := AveragesAndDeviations(sqrt, validAges, n);
    return Success(Some(statistic));
  }

  /** Only the draws `startingIdx...endIdx` matter: a window (5, 2) reads
      draws 5 and 6 and nothing else. */
  lemma WindowFiveTwo<T>(sqrt: real -> real, results: seq<T>, agesOf: T -> seq<Option<int>>, n: nat)
    requires IsSqrt(sqrt) && |results| >= 7
    ensures AgeStatistics(sqrt, results, agesOf, n, Some(RangeOfInterest(5, 2)))
         == AgeStatistics(sqrt, [results[5], results[6]], agesOf, n, Some(RangeOfInterest(0, 2)))
  {
    assert RangeOfInterest(5, 2).Window(results) == RangeOfInterest(0, 2).Window([results[5], results[6]]);
  }

  /** A one-draw window with `n` ages: the averages are its ages in
      ascending order and no position deviates. */
  lemma OneDrawWindow<T>(sqrt: real -> real, results: seq<T>, agesOf: T -> seq<Option<int>>, n: nat, s: nat)
    requires IsSqrt(sqrt) && s < |results| && |SortedAges(agesOf(results[s]))| == n
    ensures var r := AgeStatistics(sqrt, results, agesOf, n, Some(RangeOfInterest(s, 1)));
      var ages := SortedAges(agesOf(results[s]));
      r.Success? && r.value.Some?
      && (forall p :: 0 <= p < n ==> r.value.value.average[p] == ages[p] as real)
      && (forall p :: 0 <= p < n ==> r.value.value.standardDeviation[p] == 0.0)
  {
    var roi := RangeOfInterest(s, 1);
    var ages := SortedAges(agesOf(results[s]));
    assert roi.Window(results) == [results[s]];
    assert AgesOfInterest(roi.Window(results), agesOf) == [ages];
    assert ValidAges(results, agesOf, n, roi) == [ages];
    SingleRowStatistics(sqrt, ages);
  }

  /** A window of two well-formed draws keeps both age rows. */
  lemma TwoDrawWindowRows<T>(sqrt: real -> real, results: seq<T>, agesOf: T -> seq<Option<int>>, n: nat, s: nat)
    requires IsSqrt(sqrt) && s + 1 < |results|
    requires |SortedAges(agesOf(results[s]))| == n && |SortedAges(agesOf(results[s + 1]))| == n
    ensures AgeStatistics(sqrt, results, agesOf, n, Some(RangeOfInterest(s, 2)))
         == Success(Some(PositionStatistics(sqrt, [SortedAges(agesOf(results[s])), SortedAges(agesOf(results[s + 1]))], n)))
  {
    var roi := RangeOfInterest(s, 2);
    var a := SortedAges(agesOf(results[s]));
    var b := SortedAges(agesOf(results[s + 1]));
    assert roi.Window(results) == [results[s], results[s + 1]];
    assert AgesOfInterest(roi.Window(results), agesOf) == [a, b];
    assert ValidRows([a, b], n) == [a, b] by {
      assert [a, b][1..] == [b];
      assert [b][1..] == [];
    }
    assert ScopeAccepted(roi, results);
    assert ValidAges(results, agesOf, n, roi) == [a, b];
  }

  /** A two-draw window of well-formed draws: per position the midpoint of
      the two ages, and half their distance as population deviation. */
  lemma TwoDrawWindow<T>(sqrt: real -> real, results: seq<T>, agesOf: T -> seq<Option<int>>, n: nat, s: nat)
    requires IsSqrt(sqrt) && s + 1 < |results|
    requires |SortedAges(agesOf(results[s]))| == n && |SortedAges(agesOf(results[s + 1]))| == n
    ensures var r := AgeStatistics(sqrt, results, agesOf, n, Some(RangeOfInterest(s, 2)));
      var a := SortedAges(agesOf(results[s]));
      var b := SortedAges(agesOf(results[s + 1]));
      r.Success? && r.value.Some?
      && (forall p :: 0 <= p < n ==> r.value.value.average[p] == ((a[p] + b[p]) as real) / 2.0)
      && (forall p :: 0 <= p < n ==>
            r.value.value.standardDeviation[p] == (if a[p] >= b[p] then a[p] - b[p] else b[p] - a[p]) as real / 2.0)
  {
    TwoDrawWindowRows(sqrt, results, agesOf, n, s);
    TwoRowStatistics(sqrt, SortedAges(agesOf(results[s])), SortedAges(agesOf(results[s + 1])));
  }

  /** The two-draw example: ages 1, 5, 7, 12, 16, 21 and 3, 11, 13, 14, 18, 25
      give averages 2, 8, 10, 13, 17, 23 and deviations 1, 3, 3, 1, 1, 2. */
  lemma TwoDrawExample(sqrt: real -> real)
    requires IsSqrt(sqrt)
    ensures PositionStatistics(sqrt, [[1, 5, 7, 12, 16, 21], [3, 11, 13, 14, 18, 25]], 6)
         == ResultsStatistic([2.0, 8.0, 10.0, 13.0, 17.0, 23.0], [1.0, 3.0, 3.0, 1.0, 1.0, 2.0])
  {
    TwoRowStatistics(sqrt, [1, 5, 7, 12, 16, 21], [3, 11, 13, 14, 18, 25]);
  }
}
