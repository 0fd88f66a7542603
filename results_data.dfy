/** `ResultsData`, the older revision of the per-position model: it computes
    its own statistics at construction, and its coupon code is written for
    six positions and a single deviation factor. */
module ResultsDataRevision {
  import opened Wrappers
  import opened Sequences
  import opened Sorting
  import opened DrawTypes
  import opened Numbers
  import opened Results
  import opened RangesOfInterest
  import opened Statistics
  import opened StatisticsComparators
  import opened Bands
  import StatisticsHandler

  /** The positions `getNumbers` and `prepareCoupon` walk (`0...5`). */
  const Positions: nat := 6

  /** The only deviation factor the back-test tries. */
  const Factor: real := 0.5

  /** The lowest hit level the back-test records (`[4, 5, 6].min()`). */
  const MinHits: int := 4

  class ResultsData {
    const rules: Rules
    var numbersAgedByLastResult: seq<Number>
    var numbersAgedByROIStartIdx: seq<Number>
    var results: seq<Draw>
    var rangeOfIntereset: Option<RangeOfInterest>
    var positionStatistics: Option<ResultsStatistic>

    /** Statistics exist only for an accepted window inside the history,
        one entry per position. */
    predicate Valid()
      reads this
    {
      rules.Valid()
      && (positionStatistics.Some? ==>
            rangeOfIntereset.Some? && rangeOfIntereset.value.length > 0
            && rangeOfIntereset.value.InBounds(results)
            && |positionStatistics.value.average| == rules.validNumbersCount
            && |positionStatistics.value.standardDeviation| == rules.validNumbersCount)
    }

    /** The stored part of `init`, before the statistics are computed. */
    constructor (rules: Rules, numbersAgedByLastResult: seq<Number>, numbersAgedByROIStartIdx: seq<Number>,
                 results: seq<Draw>, rangeOfIntereset: Option<RangeOfInterest>)
      ensures this.rules == rules && this.results == results
      ensures this.numbersAgedByLastResult == numbersAgedByLastResult
      ensures this.numbersAgedByROIStartIdx == numbersAgedByROIStartIdx
      ensures this.rangeOfIntereset == rangeOfIntereset && positionStatistics.None?
    {
      this.rules := rules;
      this.numbersAgedByLastResult := numbersAgedByLastResult;
      this.numbersAgedByROIStartIdx := numbersAgedByROIStartIdx;
      this.results := results;
      this.rangeOfIntereset := rangeOfIntereset;
      this.positionStatistics := None;
    }

    /** `updatePositionsStatistics`: no window leaves the statistics alone;
        a rejected window throws; a window without a well-formed draw leaves
        them alone; otherwise they become the window's per-position mean
        and deviation. */
    method UpdatePositionsStatistics(sqrt: real -> real) returns (r: Result<(), ResultDataError>)
      requires IsSqrt(sqrt)
      requires rangeOfIntereset.Some? ==> !rangeOfIntereset.value.SliceTraps(results)
      modifies this`positionStatistics
      ensures var stats := StatisticsHandler.AgeStatistics(sqrt, results, DrawAges, rules.validNumbersCount, rangeOfIntereset);
        (r.Failure? <==> stats.Failure?) && (r.Failure? ==> r.error == stats.error)
        && (r.Success? && stats.value.Some? ==> positionStatistics == stats.value)
        && (r.Failure? || stats.value.None? ==> positionStatistics == old(positionStatistics))
    {
      if rangeOfIntereset.None? {
        return Success(());
      }
      var roi := rangeOfIntereset.value;
      if !(roi.length > 0 && roi.IsScopeValidFor(results)) {
        return Failure(WrongRangeOfInterestScope);
      }
      var validAges := StatisticsHandler.ValidAges(results, DrawAges, rules.validNumbersCount, roi);
      if validAges == [] {
        return Success(());
      }
      var statistic := AveragesAndDeviations(sqrt, validAges, rules.validNumbersCount);
      positionStatistics := Some(statistic);
      return Success(());
    }

    /** `init`: stores its inputs, then computes the statistics, passing on
        the error `updatePositionsStatistics` throws. */
    static method Init(rules: Rules, sqrt: real -> real, numbersAgedByLastResult: seq<Number>,
                       numbersAgedByROIStartIdx: seq<Number>, results: seq<Draw>,
                       rangeOfIntereset: Option<RangeOfInterest>) returns (r: Result<ResultsData, ResultDataError>)
      requires rules.Valid() && IsSqrt(sqrt)
      requires rangeOfIntereset.Some? ==> !rangeOfIntereset.value.SliceTraps(results)
      ensures var stats := StatisticsHandler.AgeStatistics(sqrt, results, DrawAges, rules.validNumbersCount, rangeOfIntereset);
        (r.Failure? <==> stats.Failure?) && (r.Failure? ==> r.error == stats.error)
        && (r.Success? ==> r.value.positionStatistics == stats.value)
      ensures r.Success? ==>
        (fresh(r.value) && r.value.Valid() && r.value.rules == rules && r.value.results == results
         && r.value.numbersAgedByLastResult == numbersAgedByLastResult
         && r.value.numbersAgedByROIStartIdx == numbersAgedByROIStartIdx
         && r.value.rangeOfIntereset == rangeOfIntereset)
    {
      var data := new ResultsData(rules, numbersAgedByLastResult, numbersAgedByROIStartIdx, results, rangeOfIntereset);
      var updated := data.UpdatePositionsStatistics(sqrt);
      if updated.Failure? {
        return Failure(updated.error);
      }
      return Success(data);
    }

    /** `getNumbersFullfiling`: the band of `position`, and the numbers aged
        from the window's start whose known age lies in it, in stored order. */
    function GetNumbersFullfiling(statistics: ResultsStatistic, position: nat, standardDevFactor: real)
      : (r: (Band, seq<Number>))
      requires position < |statistics.average| && position < |statistics.standardDeviation|
      reads this
      ensures r.0 == BandAt(statistics, position, standardDevFactor) && r.0.bottom >= 0
      ensures r.1 == BandNumbers(numbersAgedByROIStartIdx, statistics, position, standardDevFactor)
      ensures forall x :: x in r.1 <==> x in numbersAgedByROIStartIdx && AgeInBand(r.0, x)
    {
      var average := statistics.average[position];
      var deviation := statistics.standardDeviation[position];
      var band := BandFor(average, deviation, standardDevFactor);
      (band, BandNumbers(numbersAgedByROIStartIdx, statistics, position, standardDevFactor))
    }

    /** There are statistics for each of the six positions `getNumbers` reads. */
    predicate SixPositions()
      reads this
    {
      positionStatistics.Some?
      && |positionStatistics.value.average| >= Positions
      && |positionStatistics.value.standardDeviation| >= Positions
    }

    /** The six lists `getNumbers` builds. */
    function Lists(standardDevFactor: real): (lists: seq<seq<int>>)
      requires SixPositions()
      reads this
      ensures |lists| == Positions
      ensures forall p :: 0 <= p < Positions ==>
        lists[p] == BandValues(numbersAgedByROIStartIdx, positionStatistics.value, p, standardDevFactor)
    {
      var numbers := numbersAgedByROIStartIdx;
      var statistics := positionStatistics.value;
      seq(Positions, p requires 0 <= p < Positions => BandValues(numbers, statistics, p, standardDevFactor))
    }

    /** Each of the six lists is ascending and holds exactly the values of
        the numbers whose known age lies in that position's band. */
    lemma ListMembers(standardDevFactor: real, p: nat, x: int)
      requires SixPositions() && p < Positions
      ensures Sorted(Lists(standardDevFactor)[p])
      ensures x in Lists(standardDevFactor)[p] <==>
        exists i :: 0 <= i < |numbersAgedByROIStartIdx| && numbersAgedByROIStartIdx[i].value == x
          && AgeInBand(BandAt(positionStatistics.value, p, standardDevFactor), numbersAgedByROIStartIdx[i])
    {
      BandValuesMembers(numbersAgedByROIStartIdx, positionStatistics.value, p, standardDevFactor, x);
    }

    /** `getNumbers`: no lists without statistics, else the six lists; the
        positions are fixed at six, so statistics over fewer trap. */
    method GetNumbers(standardDevFactor: real) returns (numbersForAllIterations: seq<seq<int>>)
      requires positionStatistics.Some? ==> SixPositions()
      ensures positionStatistics.None? ==> numbersForAllIterations == []
      ensures positionStatistics.Some? ==> numbersForAllIterations == Lists(standardDevFactor)
    {
      if positionStatistics.None? {
        return [];
      }
      var statistics := positionStatistics.value;
      ghost var lists := Lists(standardDevFactor);
      numbersForAllIterations := [];
      for position := 0 to Positions
        invariant numbersForAllIterations == lists[..position]
      {
        var (_, numbersFullfilingStats) := GetNumbersFullfiling(statistics, position, standardDevFactor);
        var numbersForIteration := Sort(Values(numbersFullfilingStats));
        AppendPrefix(numbersForAllIterations, numbersForIteration, lists);
        numbersForAllIterations := numbersForAllIterations + [numbersForIteration];
      }
      assert lists[..Positions] == lists;
    }

    /** There are statistics and a draw just before the window to score. */
    predicate Scored()
      reads this
    {
      positionStatistics.Some? && rangeOfIntereset.Some? && rangeOfIntereset.value.startingIdx - 1 >= 0
    }

    /** The sorted known ages of the draw just before the window. */
    function ComparedAges(): (ages: seq<int>)
      requires Valid() && Scored()
      reads this
      ensures Sorted(ages)
    {
      SortedAges(DrawAges(results[rangeOfIntereset.value.startingIdx - 1]))
    }

    /** `checkResultComplianceWithStats`: scores the draw just before the
        window with factor 0.5 and keeps it only from 4 hits up, so there is
        at most one entry. It never throws: no hit count exceeds the number
        count. */
    method CheckResultComplianceWithStats(roi: RangeOfInterest) returns (r: Result<seq<StatisticsComparatorData>, ResultDataError>)
      requires Valid()
      requires Scored() ==> |ComparedAges()| <= rules.validNumbersCount
      ensures r.Success? && |r.value| <= 1
      ensures !Scored() ==> r.value == []
      ensures Scored() ==>
        var hits := Hits(positionStatistics.value, ComparedAges(), Factor);
        (r.value == [] <==> hits < MinHits)
        && (r.value != [] ==> r.value == [StatisticsComparatorData(hits, 0, Factor, roi)])
    {
      if positionStatistics.None? || rangeOfIntereset.None? {
        return Success([]);
      }
      var roiStatistics := positionStatistics.value;
      var resultToCompareIdx := rangeOfIntereset.value.startingIdx - 1;
      if !(|results| >= resultToCompareIdx && resultToCompareIdx >= 0) {
        return Success([]);
      }
      var resultToComparePositionsAges := SortedAges(DrawAges(results[resultToCompareIdx]));
      var statisticsComparators: seq<StatisticsComparatorData> := [];
      var hitsLevels: seq<int> := [4, 5, 6];
      var hitsLevelMin := MinHits;
      var hitsLevelMax := 6;
      var factors := [Factor];

      for k := 0 to |factors|
        invariant k == 0 ==> statisticsComparators == []
        invariant k == 1 ==>
          var hits := Hits(roiStatistics, resultToComparePositionsAges, Factor);
          (statisticsComparators == [] <==> hits < MinHits)
          && (statisticsComparators != [] ==> statisticsComparators == [StatisticsComparatorData(hits, 0, Factor, roi)])
      {
        var standardDevFactor := factors[k];
        var consitency := CountHits(roiStatistics, resultToComparePositionsAges, standardDevFactor);
        if consitency < hitsLevelMin || HitsTaken(statisticsComparators, consitency) {
          continue;
        }
        var statisticsComparator := NewStatisticsComparatorData(rules.validNumbersCount, consitency, 0, standardDevFactor, roi);
        assert statisticsComparator.Success?;
        statisticsComparators := statisticsComparators + [statisticsComparator.value];
        hitsLevels := Filter(hitsLevels, h => h != consitency);
        if hitsLevels == [] || consitency >= hitsLevelMax {
          break;
        }
      }
      return Success(statisticsComparators);
    }

    /** `prepareCoupon`: `couponsCount` coupons of six values, each picked
        for its position from that position's list, no value twice within a
        coupon, sorted; coupons may repeat. Asking for no coupon, having no
        statistics, or statistics over fewer than six positions traps, and
        so does an empty list; a position whose values were all picked
        already retries for ever. Each retry loop is represented by the
        attempt that ends it, and the coupons printed are the result. */
    method PrepareCoupon(couponsCount: int, stdDev: real) returns (outcome: Run<seq<seq<int>>>)
      requires Valid()
      ensures positionStatistics.None? || rules.validNumbersCount < Positions || couponsCount < 1 ==> outcome.Trapped?
      ensures outcome.Returned? ==>
        positionStatistics.Some? && rules.validNumbersCount >= Positions
        && |outcome.value| == couponsCount && SortedPicks(Lists(stdDev), Positions, outcome.value)
      ensures outcome.Trapped? ==>
        positionStatistics.None? || rules.validNumbersCount < Positions || couponsCount < 1
        || exists p :: 0 <= p < Positions && Lists(stdDev)[p] == []
      ensures positionStatistics.Some? && rules.validNumbersCount >= Positions && couponsCount >= 1 ==>
        (Lists(stdDev)[0] == [] ==> outcome.Trapped?)
        && ((forall p :: 0 <= p < Positions ==> |Elems(Lists(stdDev)[p])| > p) ==> outcome.Returned?)
    {
      if positionStatistics.Some? && rules.validNumbersCount < Positions {
        return Trapped;
      }
      var numbersForAllIterations := GetNumbers(stdDev);
      if couponsCount < 1 || positionStatistics.None? {
        return Trapped;
      }
      var coupons: seq<seq<int>> := [];
      for k := 0 to couponsCount
        invariant |coupons| == k && SortedPicks(numbersForAllIterations, Positions, coupons)
        invariant k > 0 ==> numbersForAllIterations[0] != []
      {
        var picked := PickCoupon(numbersForAllIterations, Positions);
        if !picked.Returned? {
          return if picked.Trapped? then Trapped else Diverged;
        }
        var coupon := picked.value;
        AppendSortedPick(numbersForAllIterations, Positions, coupons, coupon);
        coupon := Sort(coupon);
        coupons := coupons + [coupon];
      }
      return Returned(coupons);
    }
  }
}
