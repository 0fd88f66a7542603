/** The coupon-generator package's `StatisticsHandler.updateAgeStatistics`:
    a window is always given, an empty history is an error of its own, and
    only numbers that are `AgedNumber`s with a known age contribute. */
module PackageStatisticsHandler {
  import opened Wrappers
  import opened Statistics
  import opened RangesOfInterest
  import opened DomainNumbers
  import StatisticsHandler

  /** What the package's `updateAgeStatistics` returns or throws. */
  function PackageAgeStatistics(sqrt: real -> real, results: seq<DrawResult>, roi: RangeOfInterest, n: nat)
    : (r: Result<Option<ResultsStatistic>, ResultDataError>)
    requires IsSqrt(sqrt)
    requires results != [] ==> !roi.SliceTraps(results)
    ensures r == Failure(EmptyResults) <==> results == []
    ensures r == Failure(WrongRangeOfInterestScope) <==> results != [] && !StatisticsHandler.ScopeAccepted(roi, results)
    ensures r == Success(None) <==>
      results != [] && StatisticsHandler.ScopeAccepted(roi, results) && StatisticsHandler.ValidAges(results, AgedAges, n, roi) == []
    ensures r.Success? && r.value.Some? ==> |r.value.value.average| == n && |r.value.value.standardDeviation| == n
    ensures results != [] ==> r == StatisticsHandler.AgeStatistics(sqrt, results, AgedAges, n, Some(roi))
  {
    if results == [] then Failure(EmptyResults)
    else StatisticsHandler.AgeStatistics(sqrt, results, AgedAges, n, Some(roi))
  }

  /** The emptiness check comes first: an empty history is reported as such
      whatever the window. */
  lemma EmptyBeforeScope(sqrt: real -> real, roi: RangeOfInterest, n: nat)
    requires IsSqrt(sqrt)
    ensures PackageAgeStatistics(sqrt, [], roi, n) == Failure(EmptyResults)
  {
  }

  /** Numbers of the other kinds, and aged numbers of unknown age, add no age. */
  lemma OnlyKnownAgedNumbersCount(d: DrawResult)
    ensures |Somes(AgedAges(d))| <= |d.numbers|
    ensures (forall i :: 0 <= i < |d.numbers| ==> !d.numbers[i].Aged?) ==> Somes(AgedAges(d)) == []
  {
    if forall i :: 0 <= i < |d.numbers| ==> !d.numbers[i].Aged? {
      NoneSomes(AgedAges(d));
    }
  }

  lemma {:induction false} NoneSomes(ages: seq<Option<int>>)
    requires forall i :: 0 <= i < |ages| ==> ages[i].None?
    ensures Somes(ages) == []
  {
    if ages != [] {
      NoneSomes(ages[1..]);
    }
  }

  /** `updateAgeStatistics`, with the same per-position loop. */
  method UpdateAgeStatistics(sqrt: real -> real, results: seq<DrawResult>, roi: RangeOfInterest, n: nat)
    returns (r: Result<Option<ResultsStatistic>, ResultDataError>)
    requires IsSqrt(sqrt)
    requires results != [] ==> !roi.SliceTraps(results)
    ensures r == PackageAgeStatistics(sqrt, results, roi, n)
  {
    if results == [] {
      return Failure(EmptyResults);
    }
    if !(roi.length > 0 && roi.IsScopeValidFor(results)) {
      return Failure(WrongRangeOfInterestScope);
    }
    var validAges := StatisticsHandler.ValidAges(results, AgedAges, n, roi);
    if validAges == [] {
      return Success(None);
    }
    var statistic := AveragesAndDeviations(sqrt, validAges, n);
    return Success(Some(statistic));
  }
}
