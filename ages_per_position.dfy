/** `AgesPerPositionResults`: a draw history, its aged numbers and, for a
    window of the history, per-position age statistics; the bands derived
    from them select candidate numbers for each position of a coupon. */
module AgesPerPosition {
  import opened Wrappers
  import opened Sequences
  import opened Sorting
  import opened DrawTypes
  import opened Numbers
  import opened Results
  import opened RangesOfInterest
  import opened Statistics
  import opened StatisticsComparators
  import opened Bands
  import StatisticsHandler

  /** The deviation factors the back-test tries, in this order. */
  const Factors: seq<real> := [0.5, 0.6, 0.7, 0.8]

  /** However the first positions were picked, the next position's list
      still offers a value not yet picked, so the retry loop ends. */
  ghost predicate PicksAlwaysExtend(lists: seq<seq<int>>, n: nat) {
    forall u: seq<int> :: |u| < n && |u| < |lists| && Picks(lists, |u|, u) ==>
      exists x :: x in lists[|u|] && x !in u
  }

  /** `count` different coupons can be picked. */
  ghost predicate EnoughCoupons(lists: seq<seq<int>>, n: nat, count: nat) {
    exists ws: seq<seq<int>> :: |ws| == count && (forall i :: 0 <= i < |ws| ==> Picks(lists, n, ws[i]))
      && Distinct(Map(ws, Sort))
  }

  /** The first position whose list is empty, or `|lists|` if none is:
      the position at which picking a coupon traps. */
  function FirstEmpty(lists: seq<seq<int>>): (r: nat)
    ensures r <= |lists| && (r < |lists| ==> lists[r] == [])
    ensures forall p :: 0 <= p < r ==> lists[p] != []
  {
    if lists == [] || lists[0] == [] then 0 else 1 + FirstEmpty(lists[1..])
  }

  /** When the retry loops of the first `m` positions always end, an
      attempt picks those `m` positions: it reaches position `m`. */
  lemma {:induction false} PicksReach(lists: seq<seq<int>>, m: nat)
    requires m <= |lists| && PicksAlwaysExtend(lists, m)
    ensures exists u :: Picks(lists, m, u)
  {
    if m == 0 {
      assert Picks(lists, 0, []);
    } else {
      assert PicksAlwaysExtend(lists, m - 1);
      PicksReach(lists, m - 1);
      var u :| Picks(lists, m - 1, u);
      var x :| x in lists[m - 1] && x !in u;
      assert Picks(lists, m, u + [x]);
    }
  }

  lemma FourValuesInThreeSlots(a: int, b: int, c: int, d: int, lo: int)
    requires lo <= a <= lo + 2 && lo <= b <= lo + 2 && lo <= c <= lo + 2 && lo <= d <= lo + 2
    ensures a == b || a == c || a == d || b == c || b == d || c == d
  {
  }

  /** Distinct hit counts from a range of three values: at most three entries. */
  lemma AtMostThreeEntries(cs: seq<StatisticsComparatorData>, lo: int)
    requires forall i, j :: 0 <= i < j < |cs| ==> cs[i].hits != cs[j].hits
    requires forall i :: 0 <= i < |cs| ==> lo <= cs[i].hits <= lo + 2
    ensures |cs| <= 3
  {
    if |cs| > 3 {
      FourValuesInThreeSlots(cs[0].hits, cs[1].hits, cs[2].hits, cs[3].hits, lo);
    }
  }

  lemma EntriesWiden(cs: seq<StatisticsComparatorData>, n: int, roi: RangeOfInterest, stats: ResultsStatistic,
                     ages: seq<int>, k: nat)
    requires k < |Factors| && Recorded(cs, n, roi, stats, ages, Factors[..k])
    ensures Recorded(cs, n, roi, stats, ages, Factors[..k + 1])
  {
    assert Factors[..k + 1] == Factors[..k] + [Factors[k]];
  }

  /** Each factor tried is larger than every earlier one. */
  lemma EarlierFactorsSmaller(k: nat, f: real)
    requires k < |Factors| && f in Factors[..k]
    ensures f < Factors[k]
  {
  }

  /** Appending a new hit level with the current factor keeps the entries well formed. */
  lemma AppendEntry(cs: seq<StatisticsComparatorData>, e: StatisticsComparatorData, n: int, roi: RangeOfInterest,
                    stats: ResultsStatistic, ages: seq<int>, k: nat)
    requires k < |Factors|
    requires forall i :: 0 <= i < |cs| ==> Entry(cs[i], n, roi, stats, ages, Factors[..k]) && cs[i].hits < n
    requires Ascending(cs)
    requires |ages| <= |stats.average| && |ages| <= |stats.standardDeviation|
    requires n - 2 <= e.hits <= n && e.combinations == 0 && e.roi == roi && e.standardDevFactor == Factors[k]
    requires e.hits == Hits(stats, ages, Factors[k])
    requires !HitsTaken(cs, e.hits)
    ensures forall i :: 0 <= i < |cs| + 1 ==> Entry((cs + [e])[i], n, roi, stats, ages, Factors[..k + 1])
    ensures Ascending(cs + [e])
  {
    EntriesWiden(cs, n, roi, stats, ages, k);
    var cs' := cs + [e];
    forall i, j | 0 <= i < j < |cs'|
      ensures cs'[i].hits != cs'[j].hits && cs'[i].standardDevFactor < cs'[j].standardDevFactor
    {
      if j == |cs| {
        assert cs'[i] == cs[i] && cs'[j] == e;
        EarlierFactorsSmaller(k, cs[i].standardDevFactor);
      }
    }
  }

  /** `hitsLevels.removeAll { $0 == h }`: the levels other than `h`, in order. */
  function RemoveAll(levels: seq<int>, h: int): (r: seq<int>)
    ensures |r| <= |levels|
    ensures forall x :: x in r <==> x in levels && x != h
  {
    Filter(levels, l => l != h)
  }

  /** The entries the factor loop of `checkResultComplianceWithStats` ends
      with when `factors` are still to be tried, `cs` are recorded and
      `levels` are the hit levels not yet seen: a factor whose hit count is
      below `n - 2` or already recorded is skipped; any other records an
      entry and removes its level, and the loop stops once no level is left
      or the count reaches `n`. */
  function Compliance(stats: ResultsStatistic, ages: seq<int>, n: int, roi: RangeOfInterest,
                      factors: seq<real>, cs: seq<StatisticsComparatorData>, levels: seq<int>)
    : (r: seq<StatisticsComparatorData>)
    requires |ages| <= |stats.average| && |ages| <= |stats.standardDeviation|
    ensures |cs| <= |r| <= |cs| + |factors| && r[..|cs|] == cs
    decreases |factors|
  {
    if factors == [] then cs
    else
      var h := Hits(stats, ages, factors[0]);
      if h < n - 2 || HitsTaken(cs, h) then Compliance(stats, ages, n, roi, factors[1..], cs, levels)
      else
        var cs' := cs + [StatisticsComparatorData(h, 0, factors[0], roi)];
        var levels' := RemoveAll(levels, h);
        if levels' == [] || h >= n then cs'
        else
          var r := Compliance(stats, ages, n, roi, factors[1..], cs', levels');
          assert r[..|cs|] == r[..|cs'|][..|cs|];
          r
  }

  /** One turn of the factor loop, with the `k`-th factor. */
  lemma ComplianceStep(stats: ResultsStatistic, ages: seq<int>, n: int, roi: RangeOfInterest,
                       k: nat, cs: seq<StatisticsComparatorData>, levels: seq<int>)
    requires |ages| <= |stats.average| && |ages| <= |stats.standardDeviation| && k < |Factors|
    ensures var h := Hits(stats, ages, Factors[k]);
      var cs' := cs + [StatisticsComparatorData(h, 0, Factors[k], roi)];
      Compliance(stats, ages, n, roi, Factors[k..], cs, levels)
      == if h < n - 2 || HitsTaken(cs, h) then Compliance(stats, ages, n, roi, Factors[k + 1..], cs, levels)
         else if RemoveAll(levels, h) == [] || h >= n then cs'
         else Compliance(stats, ages, n, roi, Factors[k + 1..], cs', RemoveAll(levels, h))
  {
    assert Factors[k..][0] == Factors[k] && Factors[k..][1..] == Factors[k + 1..];
  }

  /** Entries recorded while trying the factors `fs`: each records the hit
      count of one of them at a level from `n - 2` to `n`, the levels differ
      and the factors rise. */
  predicate Recorded(cs: seq<StatisticsComparatorData>, n: int, roi: RangeOfInterest, stats: ResultsStatistic,
                     ages: seq<int>, fs: seq<real>) {
    (forall i :: 0 <= i < |cs| ==> Entry(cs[i], n, roi, stats, ages, fs)) && Ascending(cs)
  }

  /** No entry before the last is a full hit. */
  predicate FullHitOnlyLast(cs: seq<StatisticsComparatorData>, n: int) {
    forall i :: 0 <= i < |cs| - 1 ==> cs[i].hits < n
  }

  /** No entry is a full hit. */
  predicate NoFullHit(cs: seq<StatisticsComparatorData>, n: int) {
    forall i :: 0 <= i < |cs| ==> cs[i].hits < n
  }

  /** Recording the entry of the `k`-th factor. */
  lemma RecordEntry(cs: seq<StatisticsComparatorData>, e: StatisticsComparatorData, n: int, roi: RangeOfInterest,
                    stats: ResultsStatistic, ages: seq<int>, k: nat)
    requires k < |Factors| && |ages| <= |stats.average| && |ages| <= |stats.standardDeviation|
    requires Recorded(cs, n, roi, stats, ages, Factors[..k]) && NoFullHit(cs, n)
    requires n - 2 <= e.hits <= n && e == StatisticsComparatorData(Hits(stats, ages, Factors[k]), 0, Factors[k], roi)
    requires !HitsTaken(cs, e.hits)
    ensures Recorded(cs + [e], n, roi, stats, ages, Factors[..k + 1]) && FullHitOnlyLast(cs + [e], n)
    ensures e.hits < n ==> NoFullHit(cs + [e], n)
  {
    AppendEntry(cs, e, n, roi, stats, ages, k);
    var cs' := cs + [e];
    forall i | 0 <= i < |cs| ensures cs'[i].hits < n {
      assert cs'[i] == cs[i];
    }
  }

  /** Entries recorded with the first factors are recorded with all of them. */
  lemma RecordedWithAll(cs: seq<StatisticsComparatorData>, n: int, roi: RangeOfInterest, stats: ResultsStatistic,
                        ages: seq<int>, k: nat)
    requires k <= |Factors| && Recorded(cs, n, roi, stats, ages, Factors[..k])
    ensures Recorded(cs, n, roi, stats, ages, Factors)
  {
    forall i | 0 <= i < |cs| ensures Entry(cs[i], n, roi, stats, ages, Factors) {
      assert Entry(cs[i], n, roi, stats, ages, Factors[..k]);
    }
  }

  /** Started from entries recorded with the first `k` factors, none a full
      hit, the loop ends with entries recorded with all factors, of which
      only the last may be a full hit. */
  lemma {:induction false} ComplianceShape(stats: ResultsStatistic, ages: seq<int>, n: int, roi: RangeOfInterest,
                                           k: nat, cs: seq<StatisticsComparatorData>, levels: seq<int>)
    requires |ages| <= |stats.average| && |ages| <= |stats.standardDeviation| && |ages| <= n && k <= |Factors|
    requires Recorded(cs, n, roi, stats, ages, Factors[..k]) && NoFullHit(cs, n)
    ensures var r := Compliance(stats, ages, n, roi, Factors[k..], cs, levels);
      Recorded(r, n, roi, stats, ages, Factors) && FullHitOnlyLast(r, n)
    decreases |Factors| - k
  {
    if k == |Factors| {
      assert Factors[k..] == [] && Factors[..k] == Factors;
    } else {
      ComplianceStep(stats, ages, n, roi, k, cs, levels);
      var h := Hits(stats, ages, Factors[k]);
      if h < n - 2 || HitsTaken(cs, h) {
        EntriesWiden(cs, n, roi, stats, ages, k);
        ComplianceShape(stats, ages, n, roi, k + 1, cs, levels);
      } else {
        var e := StatisticsComparatorData(h, 0, Factors[k], roi);
        RecordEntry(cs, e, n, roi, stats, ages, k);
        if RemoveAll(levels, h) == [] || h >= n {
          RecordedWithAll(cs + [e], n, roi, stats, ages, k + 1);
        } else {
          ComplianceShape(stats, ages, n, roi, k + 1, cs + [e], RemoveAll(levels, h));
        }
      }
    }
  }

  /** When no factor reaches `n - 2` hits, nothing is recorded. */
  lemma {:induction false} ComplianceBelowLevels(stats: ResultsStatistic, ages: seq<int>, n: int, roi: RangeOfInterest,
                                                 factors: seq<real>, cs: seq<StatisticsComparatorData>, levels: seq<int>)
    requires |ages| <= |stats.average| && |ages| <= |stats.standardDeviation|
    requires forall i :: 0 <= i < |factors| ==> Hits(stats, ages, factors[i]) < n - 2
    ensures Compliance(stats, ages, n, roi, factors, cs, levels) == cs
    decreases |factors|
  {
    if factors != [] {
      assert Hits(stats, ages, factors[0]) < n - 2;
      ComplianceBelowLevels(stats, ages, n, roi, factors[1..], cs, levels);
    }
  }

  /** A full hit with the first factor tried records that one entry and stops. */
  lemma FullHitStops(stats: ResultsStatistic, ages: seq<int>, n: int, roi: RangeOfInterest,
                     factors: seq<real>, levels: seq<int>)
    requires |ages| <= |stats.average| && |ages| <= |stats.standardDeviation|
    requires factors != [] && Hits(stats, ages, factors[0]) == n
    ensures Compliance(stats, ages, n, roi, factors, [], levels) == [StatisticsComparatorData(n, 0, factors[0], roi)]
  {
  }

  /** The hit levels the back-test records, `n - 2...n`. */
  function HitLevels(n: int): (levels: seq<int>)
    ensures |levels| == 3 && forall x :: x in levels <==> n - 2 <= x <= n
  {
    [n - 2, n - 1, n]
  }

  /** Coupons prepared so far: all different, each a sorted pick. */
  ghost predicate CouponsSoFar(lists: seq<seq<int>>, n: nat, coupons: seq<seq<int>>) {
    Distinct(coupons) && SortedPicks(lists, n, coupons)
  }

  /** Adding a new sorted pick keeps the coupons prepared so far well formed. */
  lemma NextCoupon(lists: seq<seq<int>>, n: nat, coupons: seq<seq<int>>, u: seq<int>)
    requires CouponsSoFar(lists, n, coupons)
    requires Picks(lists, n, u) && Sort(u) !in coupons
    ensures CouponsSoFar(lists, n, coupons + [Sort(u)])
  {
    AppendSortedPick(lists, n, coupons, u);
  }

  datatype AgesPerPositionResults = AgesPerPositionResults(
    rules: Rules,
    numbersAgedByLastResult: seq<Number>,
    numbersAgedByROIStartIdx: seq<Number>,
    results: seq<Draw>,
    rangeOfInterest: Option<RangeOfInterest>,
    positionStatistics: Option<ResultsStatistic>)
  {
    /** What the initializer establishes: statistics exist only for an
        accepted window lying inside the history, one entry per position. */
    predicate Valid() {
      rules.Valid()
      && (positionStatistics.Some? ==>
            rangeOfInterest.Some? && rangeOfInterest.value.length > 0
            && rangeOfInterest.value.InBounds(results)
            && |positionStatistics.value.average| == rules.validNumbersCount
            && |positionStatistics.value.standardDeviation| == rules.validNumbersCount)
    }

    /** `getNumbersFullfiling`: the band of `position`, and the numbers
        aged from the window's start whose known age lies in it, in their
        stored order. */
    function GetNumbersFullfiling(statistics: ResultsStatistic, position: nat, standardDevFactor: real)
      : (r: (Band, seq<Number>))
      requires position < |statistics.average| && position < |statistics.standardDeviation|
      ensures r.0 == BandAt(statistics, position, standardDevFactor) && r.0.bottom >= 0
      ensures r.1 == BandNumbers(numbersAgedByROIStartIdx, statistics, position, standardDevFactor)
      ensures forall x :: x in r.1 <==> x in numbersAgedByROIStartIdx && AgeInBand(r.0, x)
    {
      var band := BandAt(statistics, position, standardDevFactor);
      (band, BandNumbers(numbersAgedByROIStartIdx, statistics, position, standardDevFactor))
    }

    /** When no number's age reaches the band, no number is offered. */
    lemma NoAgeInBand(statistics: ResultsStatistic, position: nat, standardDevFactor: real)
      requires position < |statistics.average| && position < |statistics.standardDeviation|
      requires forall i :: 0 <= i < |numbersAgedByROIStartIdx| ==>
        !AgeInBand(BandAt(statistics, position, standardDevFactor), numbersAgedByROIStartIdx[i])
      ensures GetNumbersFullfiling(statistics, position, standardDevFactor).1 == []
    {
      BandNumbersNone(numbersAgedByROIStartIdx, statistics, position, standardDevFactor);
    }

    /** `getNumbers`: no lists without statistics, else for every position
        the ascending values of the numbers in its band. */
    method GetNumbers(standardDevFactor: real) returns (numbersForAllIterations: seq<seq<int>>)
      requires Valid()
      ensures positionStatistics.None? ==> numbersForAllIterations == []
      ensures positionStatistics.Some? ==> numbersForAllIterations == Lists(standardDevFactor)
    {
      if positionStatistics.None? {
        return [];
      }
      var statistics := positionStatistics.value;
      ghost var lists := Lists(standardDevFactor);
      numbersForAllIterations := [];
      for position := 0 to rules.validNumbersCount
        invariant numbersForAllIterations == lists[..position]
      {
        var (_, numbersFullfilingStats) := GetNumbersFullfiling(statistics, position, standardDevFactor);
        var numbersForIteration := Sort(Values(numbersFullfilingStats));
        assert lists[..position + 1] == lists[..position] + [numbersForIteration];
        numbersForAllIterations := numbersForAllIterations + [numbersForIteration];
      }
      assert lists[..rules.validNumbersCount] == lists;
    }

    /** The band lists `getNumbers` builds, one per position. */
    function Lists(standardDevFactor: real): (lists: seq<seq<int>>)
      requires Valid() && positionStatistics.Some?
      ensures |lists| == rules.validNumbersCount
      ensures forall p :: 0 <= p < |lists| ==>
        lists[p] == BandValues(numbersAgedByROIStartIdx, positionStatistics.value, p, standardDevFactor)
    {
      seq(rules.validNumbersCount, p requires 0 <= p < rules.validNumbersCount =>
        BandValues(numbersAgedByROIStartIdx, positionStatistics.value, p, standardDevFactor))
    }

    /** The list of a position is ascending and holds exactly the values of
        the numbers whose known age lies in that position's band. */
    lemma ListMembers(standardDevFactor: real, p: nat, x: int)
      requires Valid() && positionStatistics.Some? && p < rules.validNumbersCount
      ensures Sorted(Lists(standardDevFactor)[p])
      ensures x in Lists(standardDevFactor)[p] <==>
        exists i :: 0 <= i < |numbersAgedByROIStartIdx| && numbersAgedByROIStartIdx[i].value == x
          && AgeInBand(BandAt(positionStatistics.value, p, standardDevFactor), numbersAgedByROIStartIdx[i])
    {
      BandValuesMembers(numbersAgedByROIStartIdx, positionStatistics.value, p, standardDevFactor, x);
    }


    /** There are statistics and a draw just before the window to score. */
    predicate Scored() {
      positionStatistics.Some? && rangeOfInterest.Some? && rangeOfInterest.value.startingIdx - 1 >= 0
    }

    /** The sorted known ages of the draw just before the window. */
    function ComparedAges(): (ages: seq<int>)
      requires Valid() && Scored()
      ensures Sorted(ages)
    {
      SortedAges(DrawAges(results[rangeOfInterest.value.startingIdx - 1]))
    }

    /** `checkResultComplianceWithStats`: scores the draw just before the
        window against the bands for each factor in turn, keeping one entry
        per new hit level from `n - 2` to `n` and stopping once all levels
        are seen or all positions hit. It never throws: no hit count exceeds
        the number count. */
    method CheckResultComplianceWithStats(roi: RangeOfInterest) returns (r: Result<seq<StatisticsComparatorData>, ResultDataError>)
      requires Valid()
      requires Scored() ==> |ComparedAges()| <= rules.validNumbersCount
      ensures r.Success?
      ensures !Scored() ==> r.value == []
      ensures forall i :: 0 <= i < |r.value| ==> r.value[i].hits <= rules.validNumbersCount
      ensures Scored() ==> forall i :: 0 <= i < |r.value| ==>
        Entry(r.value[i], rules.validNumbersCount, roi, positionStatistics.value, ComparedAges(), Factors)
      ensures Ascending(r.value)
      ensures forall i :: 0 <= i < |r.value| - 1 ==> r.value[i].hits < rules.validNumbersCount
      ensures |r.value| <= 3
      ensures Scored() ==> r.value == Compliance(positionStatistics.value, ComparedAges(), rules.validNumbersCount,
                                                 roi, Factors, [], HitLevels(rules.validNumbersCount))
    {
      if positionStatistics.None? || rangeOfInterest.None? {
        return Success([]);
      }
      var roiStatistics := positionStatistics.value;
      var resultToCompareIdx := rangeOfInterest.value.startingIdx - 1;
      if !(|results| >= resultToCompareIdx && resultToCompareIdx >= 0) {
        return Success([]);
      }
      var resultToComparePositionsAges := SortedAges(DrawAges(results[resultToCompareIdx]));
      var n: int := rules.validNumbersCount;
      var statisticsComparators: seq<StatisticsComparatorData> := [];
      var hitsLevels: seq<int> := HitLevels(n);
      var hitsLevelMin := n - 2;
      var hitsLevelMax := n;
      ghost var outcome := Compliance(roiStatistics, resultToComparePositionsAges, n, roi, Factors, [], hitsLevels);

      for k := 0 to |Factors|
        invariant Compliance(roiStatistics, resultToComparePositionsAges, n, roi, Factors[k..],
                             statisticsComparators, hitsLevels) == outcome
      {
        var standardDevFactor := Factors[k];
        var consitency := CountHits(roiStatistics, resultToComparePositionsAges, standardDevFactor);
        ComplianceStep(roiStatistics, resultToComparePositionsAges, n, roi, k, statisticsComparators, hitsLevels);
        if consitency < hitsLevelMin || HitsTaken(statisticsComparators, consitency) {
          continue;
        }
        var statisticsComparator := NewStatisticsComparatorData(rules.validNumbersCount, consitency, 0, standardDevFactor, roi);
        assert statisticsComparator.Success?;
        statisticsComparators := statisticsComparators + [statisticsComparator.value];
        hitsLevels := RemoveAll(hitsLevels, consitency);
        if hitsLevels == [] || consitency >= hitsLevelMax {
          break;
        }
      }
      assert Factors[|Factors|..] == [];
      ComplianceShape(roiStatistics, resultToComparePositionsAges, n, roi, 0, [], HitLevels(n));
      AtMostThreeEntries(statisticsComparators, n - 2);
      return Success(statisticsComparators);
    }

    /** `prepareCoupon`: `couponsCount` different coupons, each one value
        per position from that position's band list, no value twice, sorted.
        It traps without statistics (`getNumbers` gives no list to index),
        when fewer than one coupon is asked for (`0...couponsCount - 1`), and
        when a position's list is empty (`randomElement()!` on it), which an
        attempt picking the positions before it reaches. Each retry loop is
        represented by the attempt that ends it. */
    method PrepareCoupon(couponsCount: int, stdDev: real) returns (outcome: Run<seq<seq<int>>>)
      requires Valid()
      requires positionStatistics.Some? && couponsCount >= 1 ==>
        PicksAlwaysExtend(Lists(stdDev), FirstEmpty(Lists(stdDev)))
        && (FirstEmpty(Lists(stdDev)) == rules.validNumbersCount ==>
              EnoughCoupons(Lists(stdDev), rules.validNumbersCount, couponsCount))
      ensures outcome.Trapped? <==> (positionStatistics.None? || couponsCount < 1
        || exists p :: 0 <= p < rules.validNumbersCount && Lists(stdDev)[p] == [])
      ensures outcome.Trapped? && positionStatistics.Some? && couponsCount >= 1 ==>
        exists u :: Picks(Lists(stdDev), FirstEmpty(Lists(stdDev)), u)
      ensures !outcome.Diverged?
      ensures outcome.Returned? ==> |outcome.value| == couponsCount && Distinct(outcome.value)
      ensures outcome.Returned? ==> forall i :: 0 <= i < |outcome.value| ==>
        FromPicks(Lists(stdDev), rules.validNumbersCount, outcome.value[i])
      ensures outcome.Returned? ==> forall i :: 0 <= i < |outcome.value| ==>
        Increasing(outcome.value[i]) && |outcome.value[i]| == rules.validNumbersCount
    {
      var n := rules.validNumbersCount;
      var numbersForAllIterations := GetNumbers(stdDev);
      if couponsCount < 1 || numbersForAllIterations == [] {
        // `0...couponsCount - 1` is not a range, or `numbersForAllIterations[0]` is out of bounds.
        return Trapped;
      }
      var empty := FirstEmpty(numbersForAllIterations);
      if empty < n {
        // The attempt that picks the positions before `empty` unwraps a missing element.
        PicksReach(numbersForAllIterations, empty);
        return Trapped;
      }
      ghost var ws: seq<seq<int>> :| |ws| == couponsCount
        && (forall i :: 0 <= i < |ws| ==> Picks(numbersForAllIterations, n, ws[i]))
        && Distinct(Map(ws, Sort));
      var coupons: seq<seq<int>> := [];
      for k := 0 to couponsCount
        invariant |coupons| == k && CouponsSoFar(numbersForAllIterations, n, coupons)
      {
        AnotherCouponLeft(numbersForAllIterations, n, ws, coupons);
        var coupon: seq<int> :| Picks(numbersForAllIterations, n, coupon) && Sort(coupon) !in coupons;
        var sorted := Sort(coupon);
        NextCoupon(numbersForAllIterations, n, coupons, coupon);
        coupons := coupons + [sorted];
      }
      return Returned(coupons);
    }

    /** While fewer than `|ws|` coupons exist, one of the witnesses is still new. */
    static lemma AnotherCouponLeft(lists: seq<seq<int>>, n: nat, ws: seq<seq<int>>, coupons: seq<seq<int>>)
      requires forall i :: 0 <= i < |ws| ==> Picks(lists, n, ws[i])
      requires Distinct(Map(ws, Sort)) && |coupons| < |ws|
      ensures exists u :: Picks(lists, n, u) && Sort(u) !in coupons
    {
      SomeNotAmong(Map(ws, Sort), coupons);
      var w :| 0 <= w < |ws| && Map(ws, Sort)[w] !in coupons;
      assert Picks(lists, n, ws[w]) && Sort(ws[w]) !in coupons;
    }

  }

  /** The initializer: stores its inputs and takes the statistics from the
      handler, passing on any error it throws. */
  function Init(rules: Rules, sqrt: real -> real, numbersAgedByLastResult: seq<Number>,
                numbersAgedByROIStartIdx: seq<Number>, results: seq<Draw>, rangeOfIntereset: Option<RangeOfInterest>)
    : (r: Result<AgesPerPositionResults, ResultDataError>)
    requires rules.Valid() && IsSqrt(sqrt)
    requires rangeOfIntereset.Some? ==> !rangeOfIntereset.value.SliceTraps(results)
    ensures var stats := StatisticsHandler.AgeStatistics(sqrt, results, DrawAges, rules.validNumbersCount, rangeOfIntereset);
      (r.Failure? <==> stats.Failure?) && (r.Failure? ==> r.error == stats.error)
      && (r.Success? ==> r.value.positionStatistics == stats.value)
    ensures r.Success? ==> r.value.Valid()
    ensures r.Success? ==>
      (r.value.rules == rules && r.value.results == results
       && r.value.numbersAgedByLastResult == numbersAgedByLastResult
       && r.value.numbersAgedByROIStartIdx == numbersAgedByROIStartIdx
       && r.value.rangeOfInterest == rangeOfIntereset)
  {
    var stats := StatisticsHandler.AgeStatistics(sqrt, results, DrawAges, rules.validNumbersCount, rangeOfIntereset);
    if stats.Failure? then Failure(stats.error)
    else Success(AgesPerPositionResults(rules, numbersAgedByLastResult, numbersAgedByROIStartIdx,
                                        results, rangeOfIntereset, stats.value))
  }
}
