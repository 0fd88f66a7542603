/** What both revisions of the per-position model share: the age band of a
    position, the numbers and values a band admits, the back-test's hit
    count, and what one pass of coupon picking produces. */
module Bands {
  import opened Wrappers
  import opened Sequences
  import opened Sorting
  import opened Numbers
  import opened Results
  import opened RangesOfInterest
  import opened Statistics
  import opened StatisticsComparators

  /** The band of position `p` for deviation factor `factor`. */
  function BandAt(stats: ResultsStatistic, p: nat, factor: real): (b: Band)
    requires p < |stats.average| && p < |stats.standardDeviation|
    ensures b.bottom >= 0
  {
    BandFor(stats.average[p], stats.standardDeviation[p], factor)
  }

  /** A number whose age is known and lies in the band. */
  predicate AgeInBand(b: Band, n: Number) {
    n.age.Some? && b.Contains(n.age.value)
  }

  /** How many of the `ages`, position by position, fall inside the bands for `factor`. */
  function Hits(stats: ResultsStatistic, ages: seq<int>, factor: real): (h: nat)
    requires |ages| <= |stats.average| && |ages| <= |stats.standardDeviation|
    ensures h <= |ages|
  {
    if ages == [] then 0
    else
      var p := |ages| - 1;
      Hits(stats, ages[..p], factor) + (if BandAt(stats, p, factor).Contains(ages[p]) then 1 else 0)
  }

  /** Some entry already has `h` hits. */
  predicate HitsTaken(cs: seq<StatisticsComparatorData>, h: int) {
    exists i :: 0 <= i < |cs| && cs[i].hits == h
  }

  /** One value per position, each from that position's list, no value
      twice: what one pass over the positions can pick. */
  predicate Picks(lists: seq<seq<int>>, n: nat, u: seq<int>) {
    |u| == n && n <= |lists| && Distinct(u) && forall p :: 0 <= p < n ==> u[p] in lists[p]
  }

  /** An entry of the back-test: a hit level from `n - 2` to `n`, the
      argument window, no combinations, one of the factors `fs`, and the
      hit count that factor actually gives. */
  predicate Entry(e: StatisticsComparatorData, n: int, roi: RangeOfInterest, stats: ResultsStatistic,
                  ages: seq<int>, fs: seq<real>) {
    n - 2 <= e.hits <= n && e.combinations == 0 && e.roi == roi && e.standardDevFactor in fs
    && |ages| <= |stats.average| && |ages| <= |stats.standardDeviation|
    && e.hits == Hits(stats, ages, e.standardDevFactor)
  }

  /** Entries have pairwise different hit counts and strictly increasing factors. */
  predicate Ascending(cs: seq<StatisticsComparatorData>) {
    forall i, j :: 0 <= i < j < |cs| ==>
      cs[i].hits != cs[j].hits && cs[i].standardDevFactor < cs[j].standardDevFactor
  }

  /** `c` is the sorted form of a pick. */
  ghost predicate FromPicks(lists: seq<seq<int>>, n: nat, c: seq<int>) {
    exists u :: Picks(lists, n, u) && c == Sort(u)
  }

  /** Strictly ascending: sorted with no value twice. */
  predicate Increasing(s: seq<int>) {
    forall i, j :: 0 <= i < j < |s| ==> s[i] < s[j]
  }

  /** A sorted pick has `n` values, strictly ascending. */
  lemma PickedCouponIncreasing(lists: seq<seq<int>>, n: nat, u: seq<int>)
    requires Picks(lists, n, u)
    ensures FromPicks(lists, n, Sort(u)) && Increasing(Sort(u)) && |Sort(u)| == n
  {
    DistinctPermutation(u, Sort(u));
    SortedDistinctIncreasing(Sort(u));
  }

  /** Every coupon is the sorted form of a pick: `n` values, strictly ascending. */
  ghost predicate SortedPicks(lists: seq<seq<int>>, n: nat, coupons: seq<seq<int>>) {
    forall i :: 0 <= i < |coupons| ==>
      FromPicks(lists, n, coupons[i]) && Increasing(coupons[i]) && |coupons[i]| == n
  }

  lemma AppendSortedPick(lists: seq<seq<int>>, n: nat, coupons: seq<seq<int>>, u: seq<int>)
    requires SortedPicks(lists, n, coupons) && Picks(lists, n, u)
    ensures SortedPicks(lists, n, coupons + [Sort(u)])
  {
    PickedCouponIncreasing(lists, n, u);
    var cs := coupons + [Sort(u)];
    forall i | 0 <= i < |cs|
      ensures FromPicks(lists, n, cs[i]) && Increasing(cs[i]) && |cs[i]| == n
    {
      if i < |coupons| { assert cs[i] == coupons[i]; }
    }
  }

  /** A list whose values were all picked already has no more distinct values than picks. */
  lemma NoFreshValue(list: seq<int>, picked: seq<int>)
    requires forall x :: x in list ==> x in picked
    ensures |Elems(list)| <= |picked|
  {
    ElemsCardinality(picked);
    forall x | x in Elems(list) ensures x in Elems(picked) { }
    SubsetCardinality(Elems(list), Elems(picked));
  }

  /** Sorting keeps which values occur. */
  lemma InSort(vs: seq<int>, x: int)
    ensures x in Sort(vs) <==> x in vs
  {
    assert x in Sort(vs) <==> x in multiset(Sort(vs));
    assert x in vs <==> x in multiset(vs);
  }

  /** A value occurs among the values of some numbers exactly when one of them carries it. */
  lemma InValues(ns: seq<Number>, x: int)
    ensures x in Values(ns) <==> exists i :: 0 <= i < |ns| && ns[i].value == x
  {
    if x in Values(ns) {
      var j :| 0 <= j < |ns| && Values(ns)[j] == x;
    }
  }

  /** The numbers of `ns` whose known age lies in the band of position
      `p`, in their order in `ns` (Swift's `filter`). */
  function BandNumbers(ns: seq<Number>, stats: ResultsStatistic, p: nat, factor: real): (r: seq<Number>)
    requires p < |stats.average| && p < |stats.standardDeviation|
    ensures forall x :: x in r <==> x in ns && AgeInBand(BandAt(stats, p, factor), x)
  {
    var band := BandAt(stats, p, factor);
    Filter(ns, n => AgeInBand(band, n))
  }

  /** The values of those numbers, ascending. */
  function BandValues(ns: seq<Number>, stats: ResultsStatistic, p: nat, factor: real): (vs: seq<int>)
    requires p < |stats.average| && p < |stats.standardDeviation|
    ensures Sorted(vs) && multiset(vs) == multiset(Values(BandNumbers(ns, stats, p, factor)))
  {
    Sort(Values(BandNumbers(ns, stats, p, factor)))
  }

  /** No age in the band: no number is kept. */
  lemma BandNumbersNone(ns: seq<Number>, stats: ResultsStatistic, p: nat, factor: real)
    requires p < |stats.average| && p < |stats.standardDeviation|
    requires forall i :: 0 <= i < |ns| ==> !AgeInBand(BandAt(stats, p, factor), ns[i])
    ensures BandNumbers(ns, stats, p, factor) == []
  {
    var band := BandAt(stats, p, factor);
    FilterNone(ns, n => AgeInBand(band, n));
  }

  lemma BandValueCarried(ns: seq<Number>, stats: ResultsStatistic, p: nat, factor: real, x: int)
    requires p < |stats.average| && p < |stats.standardDeviation|
    ensures x in Values(BandNumbers(ns, stats, p, factor)) ==>
      exists i :: 0 <= i < |ns| && ns[i].value == x && AgeInBand(BandAt(stats, p, factor), ns[i])
  {
    var kept := BandNumbers(ns, stats, p, factor);
    InValues(kept, x);
    if exists j :: 0 <= j < |kept| && kept[j].value == x {
      var j :| 0 <= j < |kept| && kept[j].value == x;
      var i :| 0 <= i < |ns| && ns[i] == kept[j];
    }
  }

  lemma CarriedValueInBand(ns: seq<Number>, stats: ResultsStatistic, p: nat, factor: real, x: int)
    requires p < |stats.average| && p < |stats.standardDeviation|
    ensures (exists i :: 0 <= i < |ns| && ns[i].value == x && AgeInBand(BandAt(stats, p, factor), ns[i])) ==>
      x in Values(BandNumbers(ns, stats, p, factor))
  {
    var kept := BandNumbers(ns, stats, p, factor);
    InValues(kept, x);
    if exists i :: 0 <= i < |ns| && ns[i].value == x && AgeInBand(BandAt(stats, p, factor), ns[i]) {
      var i :| 0 <= i < |ns| && ns[i].value == x && AgeInBand(BandAt(stats, p, factor), ns[i]);
      var j :| 0 <= j < |kept| && kept[j] == ns[i];
    }
  }

  /** A value is in a position's list exactly when some number whose known
      age lies in that position's band carries it. */
  lemma BandValuesMembers(ns: seq<Number>, stats: ResultsStatistic, p: nat, factor: real, x: int)
    requires p < |stats.average| && p < |stats.standardDeviation|
    ensures x in BandValues(ns, stats, p, factor) <==>
      exists i :: 0 <= i < |ns| && ns[i].value == x && AgeInBand(BandAt(stats, p, factor), ns[i])
  {
    InSort(Values(BandNumbers(ns, stats, p, factor)), x);
    BandValueCarried(ns, stats, p, factor, x);
    CarriedValueInBand(ns, stats, p, factor, x);
  }

  /** The hit count of that draw under one factor. */
  method CountHits(statistics: ResultsStatistic, ages: seq<int>, factor: real) returns (consitency: nat)
    requires |ages| <= |statistics.average| && |ages| <= |statistics.standardDeviation|
    ensures consitency == Hits(statistics, ages, factor)
  {
    consitency := 0;
    for position := 0 to |ages|
      invariant consitency == Hits(statistics, ages[..position], factor)
    {
      assert ages[..position + 1][..position] == ages[..position];
      var band := BandAt(statistics, position, factor);
      if ages[position] <= band.top && ages[position] >= band.bottom {
        consitency := consitency + 1;
      }
    }
    assert ages[..|ages|] == ages;
  }

  /** One pass of coupon picking over the first `n` positions: a value of
      each position's list not picked yet. A missing or empty list traps
      (the subscript, `randomElement()!`); a list whose values were all
      picked already retries for ever. */
  method PickCoupon(lists: seq<seq<int>>, n: nat) returns (outcome: Run<seq<int>>)
    ensures outcome.Returned? ==> Picks(lists, n, outcome.value)
    ensures outcome.Trapped? ==> n > |lists| || exists p :: 0 <= p < n && lists[p] == []
    ensures n > 0 && (|lists| == 0 || lists[0] == []) ==> outcome.Trapped?
    ensures n <= |lists| && (forall p :: 0 <= p < n ==> |Elems(lists[p])| > p) ==> outcome.Returned?
  {
    var coupon: seq<int> := [];
    for position := 0 to n
      invariant position <= |lists| && Picks(lists, position, coupon)
    {
      if position >= |lists| {
        return Trapped;
      }
      var list := lists[position];
      if list == [] {
        return Trapped;
      }
      if forall x :: x in list ==> x in coupon {
        NoFreshValue(list, coupon);
        return Diverged;
      }
      var randomNumber :| randomNumber in list && randomNumber !in coupon;
      coupon := coupon + [randomNumber];
    }
    return Returned(coupon);
  }
}
