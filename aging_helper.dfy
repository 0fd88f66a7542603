/** `AgingHelper`: how long ago each number was last drawn. Index 0 of a
    history is its newest draw, so "age" counts draws back in time. */
module Aging {
  import opened Wrappers
  import opened Numbers
  import opened Results
  import opened DrawTypes
  import opened RangesOfInterest

  datatype AgingHelperError = WrongNumbersCount

  /** The position of the first draw of `w` holding value `v`, if any: the
      age `agedNumbersBasedOn` gives `v` when it scans `w`. */
  function FirstAge(w: seq<Draw>, v: int): (a: Option<int>)
    ensures a.Some? ==> 0 <= a.value < |w| && ContainsNumber(w[a.value], v)
    ensures a.Some? ==> forall b :: 0 <= b < a.value ==> !ContainsNumber(w[b], v)
    ensures a.None? ==> forall b :: 0 <= b < |w| ==> !ContainsNumber(w[b], v)
  {
    if w == [] then None
    else
      var earlier := FirstAge(w[..|w| - 1], v);
      if earlier.Some? then earlier
      else if ContainsNumber(w[|w| - 1], v) then Some(|w| - 1)
      else None
  }

  /** Once a value has been found in a prefix, scanning further changes nothing. */
  lemma FirstAgeOfPrefix(w: seq<Draw>, i: nat, v: int)
    requires i <= |w| && FirstAge(w[..i], v).Some?
    ensures FirstAge(w, v) == FirstAge(w[..i], v)
  {
    var a := FirstAge(w[..i], v).value;
    assert w[..i][a] == w[a];
    assert forall b :: 0 <= b < a ==> w[..i][b] == w[b];
  }

  /** The draws `agedNumbersBasedOn` scans: the window when a range of
      interest is given, else the whole history. */
  function Scanned(results: seq<Draw>, roi: Option<RangeOfInterest>): (w: seq<Draw>)
    requires roi.Some? ==> roi.value.InBounds(results)
    ensures roi.None? ==> w == results
    ensures roi.Some? ==> |w| == roi.value.EndIdx() - roi.value.startingIdx + 1
    ensures roi.Some? ==> forall i :: 0 <= i < |w| ==> w[i] == results[roi.value.startingIdx + i]
  {
    if roi.None? then results else roi.value.Window(results)
  }

  /** Every number drawn in `w` indexes the table of ages, `1...max`. */
  predicate ValuesIndexTable(w: seq<Draw>, max: int) {
    forall i, j :: 0 <= i < |w| && 0 <= j < |w[i].numbers| ==> 1 <= w[i].numbers[j].value <= max
  }

  /** How many entries of the table have been aged. */
  function CountAged(s: seq<Number>): (c: nat)
    ensures c <= |s|
  {
    if s == [] then 0 else (if s[0].age.Some? then 1 else 0) + CountAged(s[1..])
  }

  lemma {:induction false} CountAgedUpdate(s: seq<Number>, k: nat, x: Number)
    requires k < |s| && s[k].age.None? && x.age.Some?
    ensures CountAged(s[k := x]) == CountAged(s) + 1
  {
    if k > 0 {
      assert s[k := x][1..] == s[1..][k - 1 := x];
      CountAgedUpdate(s[1..], k - 1, x);
    }
  }

  lemma {:induction false} CountAgedFull(s: seq<Number>)
    requires CountAged(s) == |s|
    ensures forall k :: 0 <= k < |s| ==> s[k].age.Some?
  {
    if s != [] {
      CountAgedFull(s[1..]);
      forall k | 0 < k < |s| ensures s[k].age.Some? {
        assert s[k] == s[1..][k - 1];
      }
    }
  }

  /** `v` is among the first `j` numbers of `ns`. */
  predicate AmongFirst(ns: seq<Number>, j: nat, v: int) {
    exists t :: 0 <= t < j && t < |ns| && ns[t].value == v
  }

  /** The age recorded for `v` after scanning draws `0..i-1` of `w` and the
      first `j` numbers of draw `i`. */
  function AgeSoFar(w: seq<Draw>, i: nat, j: nat, v: int): Option<int>
    requires i < |w|
  {
    var earlier := FirstAge(w[..i], v);
    if earlier.Some? then earlier
    else if AmongFirst(w[i].numbers, j, v) then Some(i)
    else None
  }

  lemma AgeAfterDraw(w: seq<Draw>, i: nat, v: int)
    requires i < |w|
    ensures AgeSoFar(w, i, |w[i].numbers|, v) == FirstAge(w[..i + 1], v)
  {
    assert w[..i + 1][..i] == w[..i];
    assert w[..i + 1][i] == w[i];
    if AmongFirst(w[i].numbers, |w[i].numbers|, v) {
      assert ContainsNumber(w[i], v);
    }
  }

  /** An age recorded part-way through the scan is already final. */
  lemma RecordedAgeIsFinal(w: seq<Draw>, i: nat, j: nat, v: int)
    requires i < |w| && AgeSoFar(w, i, j, v).Some?
    ensures AgeSoFar(w, i, j, v) == FirstAge(w, v)
  {
    var earlier := FirstAge(w[..i], v);
    if earlier.Some? {
      FirstAgeOfPrefix(w, i, v);
    } else {
      var t :| 0 <= t < j && t < |w[i].numbers| && w[i].numbers[t].value == v;
      assert ContainsNumber(w[i], v);
      assert w[..i + 1][..i] == w[..i];
      assert w[..i + 1][i] == w[i];
      assert FirstAge(w[..i + 1], v) == Some(i);
      FirstAgeOfPrefix(w, i + 1, v);
    }
  }

  /** Entry `k` of the table is for value `k + 1`. */
  predicate Table(aged: seq<Number>, max: int) {
    |aged| == max && forall k :: 0 <= k < |aged| ==> aged[k].value == k + 1
  }

  /** The table holds the ages found in the draws before draw `i`. */
  predicate AgedBefore(aged: seq<Number>, w: seq<Draw>, i: nat)
    requires i <= |w|
  {
    forall k :: 0 <= k < |aged| ==> aged[k].age == FirstAge(w[..i], k + 1)
  }

  /** The table holds the ages found up to number `j` of draw `i`. */
  predicate AgedWithin(aged: seq<Number>, w: seq<Draw>, i: nat, j: nat)
    requires i < |w|
  {
    forall k :: 0 <= k < |aged| ==> aged[k].age == AgeSoFar(w, i, j, k + 1)
  }

  lemma {:induction false} CountAgedNone(s: seq<Number>)
    requires forall k :: 0 <= k < |s| ==> s[k].age.None?
    ensures CountAged(s) == 0
  {
    if s != [] {
      CountAgedNone(s[1..]);
    }
  }

  lemma ScanStarts(aged: seq<Number>, w: seq<Draw>, i: nat)
    requires i < |w| && AgedBefore(aged, w, i)
    ensures AgedWithin(aged, w, i, 0)
  {
  }

  /** A value seen for the first time gets the current draw's position. */
  lemma ScanNewValue(aged: seq<Number>, w: seq<Draw>, i: nat, j: nat, max: int)
    requires i < |w| && j < |w[i].numbers|
    requires Table(aged, max) && AgedWithin(aged, w, i, j)
    requires 1 <= w[i].numbers[j].value <= max
    requires aged[w[i].numbers[j].value - 1].age.None?
    ensures var v := w[i].numbers[j].value;
      var next := aged[v - 1 := aged[v - 1].(age := Some(i))];
      Table(next, max) && AgedWithin(next, w, i, j + 1) && CountAged(next) == CountAged(aged) + 1
  {
    var v := w[i].numbers[j].value;
    CountAgedUpdate(aged, v - 1, aged[v - 1].(age := Some(i)));
    assert AmongFirst(w[i].numbers, j + 1, v);
  }

  /** A value already aged keeps its age. */
  lemma ScanSeenValue(aged: seq<Number>, w: seq<Draw>, i: nat, j: nat, max: int)
    requires i < |w| && j < |w[i].numbers|
    requires Table(aged, max) && AgedWithin(aged, w, i, j)
    requires 1 <= w[i].numbers[j].value <= max
    requires aged[w[i].numbers[j].value - 1].age.Some?
    ensures AgedWithin(aged, w, i, j + 1)
  {
    var v := w[i].numbers[j].value;
    forall k | 0 <= k < |aged| ensures aged[k].age == AgeSoFar(w, i, j + 1, k + 1) {
      if k + 1 == v {
        RecordedAgeIsFinal(w, i, j, v);
        RecordedAgeIsFinal(w, i, j + 1, v);
      }
    }
  }

  lemma ScanEndsDraw(aged: seq<Number>, w: seq<Draw>, i: nat)
    requires i < |w| && AgedWithin(aged, w, i, |w[i].numbers|)
    ensures AgedBefore(aged, w, i + 1)
  {
    forall k | 0 <= k < |aged| ensures aged[k].age == FirstAge(w[..i + 1], k + 1) {
      AgeAfterDraw(w, i, k + 1);
    }
  }

  /** When every entry has an age the table is already the full scan's. */
  lemma ScanCompletesEarly(aged: seq<Number>, w: seq<Draw>, i: nat, j: nat)
    requires i < |w| && AgedWithin(aged, w, i, j) && CountAged(aged) == |aged|
    ensures forall k :: 0 <= k < |aged| ==> aged[k].age == FirstAge(w, k + 1)
  {
    CountAgedFull(aged);
    forall k | 0 <= k < |aged| ensures aged[k].age == FirstAge(w, k + 1) {
      var recorded := AgeSoFar(w, i, j, k + 1);
      assert aged[k].age == recorded;
      RecordedAgeIsFinal(w, i, j, k + 1);
    }
  }

  /** `agedNumbersBasedOn`: for every value `1...max`, the position of the
      first scanned draw holding it, or no age if none does. The scan stops as
      soon as every value has an age, which yields the same table. */
  method AgedNumbersBasedOn(rules: Rules, results: seq<Draw>, roi: Option<RangeOfInterest>) returns (aged: seq<Number>)
    requires rules.validNumberMaxValue >= 1
    requires roi.Some? ==> roi.value.InBounds(results)
    requires ValuesIndexTable(Scanned(results, roi), rules.validNumberMaxValue)
    ensures |aged| == rules.validNumberMaxValue
    ensures forall k :: 0 <= k < |aged| ==> aged[k].value == k + 1
    ensures forall k :: 0 <= k < |aged| ==> aged[k].age == FirstAge(Scanned(results, roi), k + 1)
  {
    var max := rules.validNumberMaxValue;
    assert |seq(max, _ => 0)| == max;
    var ids: seq<Uuid> :| |ids| == max;
    aged := seq(max, k requires 0 <= k < max => Number(ids[k], k + 1, None));
    CountAgedNone(aged);
    var agesSetCounter := 0;
    var w := Scanned(results, roi);
    assert w[..0] == [];

    for ageAsIdx := 0 to |w|
      invariant Table(aged, max) && agesSetCounter == CountAged(aged)
      invariant AgedBefore(aged, w, ageAsIdx)
    {
      var numbers := w[ageAsIdx].numbers;
      ScanStarts(aged, w, ageAsIdx);
      for j := 0 to |numbers|
        invariant Table(aged, max) && agesSetCounter == CountAged(aged)
        invariant AgedWithin(aged, w, ageAsIdx, j)
      {
        var v := numbers[j].value;
        if aged[v - 1].age.None? {
          ScanNewValue(aged, w, ageAsIdx, j, max);
          aged := aged[v - 1 := aged[v - 1].(age := Some(ageAsIdx))];
          agesSetCounter := agesSetCounter + 1;
          if agesSetCounter == max {
            ScanCompletesEarly(aged, w, ageAsIdx, j + 1);
            return;
          }
        } else {
          ScanSeenValue(aged, w, ageAsIdx, j, max);
        }
      }
      ScanEndsDraw(aged, w, ageAsIdx);
    }
    assert w[..|w|] == w;
  }

  /** Every value of the first scanned draw has age 0. */
  lemma FirstDrawIsAgeZero(w: seq<Draw>, j: nat)
    requires |w| > 0 && j < |w[0].numbers|
    ensures FirstAge(w, w[0].numbers[j].value) == Some(0)
  {
  }

  // ---------------------------------------------------------------------------

  /** `results[from...].firstIndex(where: { $0.containsNumber(v) })`: an index
      of the whole history, as slices keep their base's indices. */
  function FirstIndexFrom(results: seq<Draw>, from: nat, v: int): (f: Option<int>)
    requires from <= |results|
    ensures f.Some? ==> from <= f.value < |results| && ContainsNumber(results[f.value], v)
    ensures f.Some? ==> forall b :: from <= b < f.value ==> !ContainsNumber(results[b], v)
    ensures f.None? ==> forall b :: from <= b < |results| ==> !ContainsNumber(results[b], v)
    decreases |results| - from
  {
    if from == |results| then None
    else if ContainsNumber(results[from], v) then Some(from)
    else FirstIndexFrom(results, from + 1, v)
  }

  /** The age of `v` in draw `i`: how many draws lie strictly between draw `i`
      and the next older draw holding `v`, if there is one. */
  function Gap(results: seq<Draw>, i: nat, v: int): (a: Option<int>)
    requires i < |results|
    ensures a.Some? ==> a.value >= 0 && i + 1 + a.value < |results| && ContainsNumber(results[i + 1 + a.value], v)
    ensures a.Some? ==> forall b :: i < b < i + 1 + a.value ==> !ContainsNumber(results[b], v)
    ensures a.None? ==> forall b :: i < b < |results| ==> !ContainsNumber(results[b], v)
  {
    var f := FirstIndexFrom(results, i + 1, v);
    if f.Some? then Some(f.value - i - 1) else None
  }

  /** The gap is the age `agedNumbersBasedOn` gives `v` when scanning the
      draws older than draw `i`. */
  lemma GapIsAgeInOlderDraws(results: seq<Draw>, i: nat, v: int)
    requires i < |results|
    ensures Gap(results, i, v) == FirstAge(results[i + 1..], v)
  {
    var older := results[i + 1..];
    var g := Gap(results, i, v);
    var a := FirstAge(older, v);
    assert forall b :: 0 <= b < |older| ==> older[b] == results[i + 1 + b];
  }

  /** The oldest draw has nothing older to measure against. */
  lemma OldestDrawHasNoAges(results: seq<Draw>, v: int)
    requires |results| > 0
    ensures Gap(results, |results| - 1, v) == None
  {
  }

  /** Draw `d` is draw `i` of `results` with every number aged by its gap,
      keeping idx, date and the stored order of the numbers. */
  predicate AgedAs(results: seq<Draw>, i: nat, d: Draw)
    requires i < |results|
  {
    d.idx == results[i].idx && d.date == results[i].date
    && Values(d.numbers) == Values(results[i].numbers)
    && forall t :: 0 <= t < |d.numbers| ==> d.numbers[t].age == Gap(results, i, d.numbers[t].value)
  }

  /** Some draw does not hold `validNumbersCount` numbers. */
  predicate SomeDrawMiscounted(rules: Rules, results: seq<Draw>) {
    exists i :: 0 <= i < |results| && |results[i].numbers| != rules.validNumbersCount
  }

  /** `agedResultsBasedOn`: the history with every number aged by its gap to
      the next older occurrence, or `wrongNumbersCount` (with no partial
      output) if some draw has the wrong number of numbers. */
  method AgedResultsBasedOn(rules: Rules, results: seq<Draw>) returns (r: Result<seq<Draw>, AgingHelperError>)
    ensures r.Failure? <==> SomeDrawMiscounted(rules, results)
    ensures r.Success? ==> |r.value| == |results|
    ensures r.Success? ==> forall i :: 0 <= i < |results| ==> AgedAs(results, i, r.value[i])
  {
    if results == [] {
      return Success([]);
    }
    var agedResults: seq<Draw> := [];
    for pastResultIdx := 0 to |results|
      invariant |agedResults| == pastResultIdx
      invariant forall b :: 0 <= b < pastResultIdx ==> |results[b].numbers| == rules.validNumbersCount
      invariant forall b :: 0 <= b < pastResultIdx ==> AgedAs(results, b, agedResults[b])
    {
      var pastResult := results[pastResultIdx];
      var newNumbers: seq<Number> := [];
      for t := 0 to |pastResult.numbers|
        invariant |newNumbers| == t
        invariant forall u :: 0 <= u < t ==> newNumbers[u].value == pastResult.numbers[u].value
        invariant forall u :: 0 <= u < t ==> newNumbers[u].age == Gap(results, pastResultIdx, newNumbers[u].value)
      {
        var v := pastResult.numbers[t].value;
        var id: Uuid :| true;
        if pastResultIdx == |results| - 1 {
          newNumbers := newNumbers + [Number(id, v, None)];
        } else {
          var foundIdx := FirstIndexFrom(results, pastResultIdx + 1, v);
          if foundIdx.Some? {
            newNumbers := newNumbers + [Number(id, v, Some(foundIdx.value - pastResultIdx - 1))];
          } else {
            newNumbers := newNumbers + [Number(id, v, None)];
          }
        }
      }
      if |newNumbers| != rules.validNumbersCount {
        return Failure(AgingHelperError.WrongNumbersCount);
      }
      agedResults := agedResults + [Draw(pastResult.idx, pastResult.date, newNumbers)];
    }
    return Success(agedResults);
  }
}
