/** `ResultRandomizer.randomFor`: a random draw whose number at each
    position has an age inside that position's one-deviation band. */
module ResultRandomizers {
  import opened Wrappers
  import opened Sequences
  import opened Sorting
  import opened Numbers
  import opened Results
  import opened Statistics
  import opened Bands
  import opened AgesPerPosition

  /** Statistics the randomizer accepts: present, non-empty, and with as
      many deviations as averages. */
  predicate UsableStatistics(s: Option<ResultsStatistic>) {
    s.Some? && s.value.average != [] && s.value.standardDeviation != []
    && |s.value.average| == |s.value.standardDeviation|
  }

  /** Picks for the first `|u|` positions: each a number of `numbers`
      whose known age lies in its position's band (factor 1), no value twice. */
  predicate Chosen(numbers: seq<Number>, stats: ResultsStatistic, u: seq<Number>) {
    |u| <= |stats.average| && |u| <= |stats.standardDeviation|
    && Distinct(Values(u))
    && forall p :: 0 <= p < |u| ==> PickedAt(numbers, stats, p, u[p])
  }

  /** `x` is a number of `numbers` whose known age lies in position `p`'s band. */
  predicate PickedAt(numbers: seq<Number>, stats: ResultsStatistic, p: nat, x: Number) {
    p < |stats.average| && p < |stats.standardDeviation|
    && x in numbers && AgeInBand(BandAt(stats, p, 1.0), x)
  }

  lemma AppendChosen(numbers: seq<Number>, stats: ResultsStatistic, u: seq<Number>, m: Number)
    requires Chosen(numbers, stats, u) && |u| < |stats.average| && |u| < |stats.standardDeviation|
    requires m in numbers && AgeInBand(BandAt(stats, |u|, 1.0), m) && m.value !in Values(u)
    ensures Chosen(numbers, stats, u + [m])
  {
    DistinctValuesAppend(u, m);
    var w := u + [m];
    forall p | 0 <= p < |w| ensures PickedAt(numbers, stats, p, w[p]) {
      if p < |u| {
        assert w[p] == u[p];
      }
    }
  }

  lemma DistinctValuesAppend(u: seq<Number>, m: Number)
    requires Distinct(Values(u)) && m.value !in Values(u)
    ensures Distinct(Values(u + [m]))
  {
    var vs := Values(u + [m]);
    assert vs == Values(u) + [m.value];
  }

  /** Two numbers of a pick with the same value are the same number. */
  lemma SameValueSameNumber(u: seq<Number>, a: Number, b: Number)
    requires Distinct(Values(u)) && a in u && b in u
    ensures a.value == b.value ==> a == b
  {
    var k :| 0 <= k < |u| && u[k] == a;
    var l :| 0 <= l < |u| && u[l] == b;
    assert Values(u)[k] == a.value && Values(u)[l] == b.value;
  }

  /** Numbers whose values differ, sorted by `<`, have strictly falling values. */
  lemma SortedChosenStrictlyFalling(u: seq<Number>)
    requires Distinct(Values(u))
    ensures forall i, j :: 0 <= i < j < |SortBy(u, Descending)| ==>
      SortBy(u, Descending)[i].value > SortBy(u, Descending)[j].value
  {
    var s := SortBy(u, Descending);
    SortByPermutation(u, Descending);
    assert Distinct(u) by {
      forall i, j | 0 <= i < j < |u| ensures u[i] != u[j] {
        assert Values(u)[i] != Values(u)[j];
      }
    }
    DistinctPermutation(u, s);
    forall i, j | 0 <= i < j < |s| ensures s[i].value > s[j].value {
      assert Descending(s[i]) <= Descending(s[j]);
      assert s[i] in multiset(s) && s[j] in multiset(s);
      SameValueSameNumber(u, s[i], s[j]);
    }
  }

  /** `randomFor`. No numbers, or unusable statistics: no draw. A number
      with no age traps at the filter's `age!`. A position whose band holds
      no number: no draw. A position whose band offers only values already
      chosen retries for ever. Otherwise a draw with index 0, dated `now`,
      of one number per position from its band, no value twice, sorted by `<`. */
  method RandomFor(data: AgesPerPositionResults, now: Date) returns (outcome: Run<Option<Draw>>)
    ensures data.numbersAgedByLastResult == [] ==> outcome == Returned(None)
    ensures !UsableStatistics(data.positionStatistics) ==> outcome == Returned(None)
    ensures outcome.Trapped? <==>
      data.numbersAgedByLastResult != [] && UsableStatistics(data.positionStatistics)
      && exists i :: 0 <= i < |data.numbersAgedByLastResult| && data.numbersAgedByLastResult[i].age.None?
    ensures outcome == Returned(None) ==>
      data.numbersAgedByLastResult == [] || !UsableStatistics(data.positionStatistics)
      || exists p :: 0 <= p < |data.positionStatistics.value.average|
           && BandNumbers(data.numbersAgedByLastResult, data.positionStatistics.value, p, 1.0) == []
    ensures outcome.Diverged? ==>
      UsableStatistics(data.positionStatistics)
      && exists p :: 0 <= p < |data.positionStatistics.value.average|
           && |Elems(Values(BandNumbers(data.numbersAgedByLastResult, data.positionStatistics.value, p, 1.0)))| <= p
    ensures outcome.Returned? && outcome.value.Some? ==>
      var d := outcome.value.value;
      var stats := data.positionStatistics.value;
      && UsableStatistics(data.positionStatistics)
      && d.idx == 0 && d.date == now && |d.numbers| == |stats.average|
      && (exists u :: Chosen(data.numbersAgedByLastResult, stats, u) && |u| == |stats.average|
            && d.numbers == SortBy(u, Descending))
      && forall i, j :: 0 <= i < j < |d.numbers| ==> d.numbers[i].value > d.numbers[j].value
    ensures (
        && data.numbersAgedByLastResult != [] && UsableStatistics(data.positionStatistics)
        && (forall i :: 0 <= i < |data.numbersAgedByLastResult| ==> data.numbersAgedByLastResult[i].age.Some?)
        && forall p :: 0 <= p < |data.positionStatistics.value.average| ==>
             |Elems(Values(BandNumbers(data.numbersAgedByLastResult, data.positionStatistics.value, p, 1.0)))| > p
      ) ==> outcome.Returned? && outcome.value.Some?
  {
    var numbers := data.numbersAgedByLastResult;
    if numbers == [] {
      return Returned(None);
    }
    if !UsableStatistics(data.positionStatistics) {
      return Returned(None);
    }
    var stats := data.positionStatistics.value;
    var average := stats.average;
    var futureNumbers: seq<Number> := [];
    for positionIdx := 0 to |average|
      invariant Chosen(numbers, stats, futureNumbers) && |futureNumbers| == positionIdx
      invariant positionIdx > 0 ==> forall i :: 0 <= i < |numbers| ==> numbers[i].age.Some?
    {
      if exists i :: 0 <= i < |numbers| && numbers[i].age.None? {
        return Trapped;
      }
      var numbersWithinScope := BandNumbers(numbers, stats, positionIdx, 1.0);
      if numbersWithinScope == [] {
        return Returned(None);
      }
      var taken := Values(futureNumbers);
      if forall i :: 0 <= i < |numbersWithinScope| ==> numbersWithinScope[i].value in taken {
        forall x | x in Values(numbersWithinScope) ensures x in taken {
          InValues(numbersWithinScope, x);
        }
        NoFreshValue(Values(numbersWithinScope), taken);
        return Diverged;
      }
      var k :| 0 <= k < |numbersWithinScope| && numbersWithinScope[k].value !in taken;
      var randomNumber := numbersWithinScope[k];
      AppendChosen(numbers, stats, futureNumbers, randomNumber);
      futureNumbers := futureNumbers + [randomNumber];
    }
    SortedChosenStrictlyFalling(futureNumbers);
    return Returned(Some(Draw(0, now, SortBy(futureNumbers, Descending))));
  }
}
