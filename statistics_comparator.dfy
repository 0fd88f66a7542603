/** `StatisticsComparatorData`: one back-test outcome, how many positions of
    a draw fell inside their bands for a given deviation factor. */
module StatisticsComparators {
  import opened Wrappers
  import opened Statistics
  import opened RangesOfInterest

  datatype StatisticsComparatorData = StatisticsComparatorData(
    hits: int, combinations: int, standardDevFactor: real, roi: RangeOfInterest)

  /** The throwing initializer: more hits than numbers per draw are refused;
      there is no lower bound. */
  function NewStatisticsComparatorData(validNumbersCount: int, hits: int, combinations: int,
                                       standardDevFactor: real, roi: RangeOfInterest)
    : (r: Result<StatisticsComparatorData, ResultDataError>)
    ensures r.Failure? <==> hits > validNumbersCount
    ensures r.Failure? ==> r.error == WrongStatisticsComparatorData
    ensures r.Success? ==> r.value.hits == hits && r.value.combinations == combinations
    ensures r.Success? ==> r.value.standardDevFactor == standardDevFactor && r.value.roi == roi
  {
    if hits > validNumbersCount then Failure(WrongStatisticsComparatorData)
    else Success(StatisticsComparatorData(hits, combinations, standardDevFactor, roi))
  }

  /** Every hit count from below up to the number count is accepted,
      negative ones included. */
  lemma AcceptedHits(validNumbersCount: int, combinations: int, f: real, roi: RangeOfInterest)
    ensures NewStatisticsComparatorData(validNumbersCount, validNumbersCount, combinations, f, roi).Success?
    ensures NewStatisticsComparatorData(validNumbersCount, -1, combinations, f, roi).Success? <==> validNumbersCount >= -1
    ensures NewStatisticsComparatorData(validNumbersCount, validNumbersCount + 1, combinations, f, roi).Failure?
  {
  }
}
