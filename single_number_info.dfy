/** The two pieces of logic in the number views: the number a cell shows,
    and the replacement of a value in the manually entered past result. */
module SingleNumberInfos {
  import opened Wrappers
  import opened Sequences
  import opened Text
  import opened Numbers
  import opened Results
  import LegacyResults

  /** `SingleNumberInfo`'s inputs. */
  datatype SingleNumberInfo = SingleNumberInfo(number: Option<Number>, showAge: bool, isFuture: bool, isPast: bool)
  {
    /** `displayNumber`: the number, or a fresh placeholder of value 0
        with no age. */
    function DisplayNumber(freshId: Uuid): (n: Number)
      ensures number.Some? ==> n == number.value
      ensures number.None? ==> n.value == 0 && n.age.None? && n.id == freshId
    {
      if number.Some? then number.value else Number(freshId, 0, None)
    }
  }

  /** `Int(pastNumberCandidate)` when it lies in `1...49`. */
  function AcceptedValue(candidate: string): (r: Option<int>)
    ensures r.Some? <==> ParseInt(candidate).Some? && 0 < ParseInt(candidate).value <= LegacyResults.ValidNumberMaxValue
    ensures r.Some? ==> r.value == ParseInt(candidate).value
  {
    var parsed := ParseInt(candidate);
    if parsed.Some? && parsed.value <= LegacyResults.ValidNumberMaxValue && parsed.value > 0 then parsed else None
  }

  /** `firstIndex(where: { $0.id == id })`. */
  function FirstIndexOfId(ns: seq<Number>, id: Uuid): (r: Option<nat>)
    ensures r.None? <==> forall i :: 0 <= i < |ns| ==> ns[i].id != id
    ensures r.Some? ==> (r.value < |ns| && ns[r.value].id == id
      && forall i :: 0 <= i < r.value ==> ns[i].id != id)
  {
    if ns == [] then None
    else if ns[0].id == id then Some(0)
    else
      var rest := FirstIndexOfId(ns[1..], id);
      if rest.None? then None else Some(rest.value + 1)
  }

  /** Removing the entry at `idx` and inserting `n` there replaces it. */
  lemma RemoveInsertIsReplace(ns: seq<Number>, idx: nat, n: Number)
    requires idx < |ns|
    ensures var removed := ns[..idx] + ns[idx + 1..];
      removed[..idx] + [n] + removed[idx..] == ns[idx := n]
  {
    var removed := ns[..idx] + ns[idx + 1..];
    assert removed[..idx] == ns[..idx];
    assert removed[idx..] == ns[idx + 1..];
  }

  /** The entry carrying `id` takes the new value `num` (and loses its
      age); nothing else changes. */
  function Replaced(ns: seq<Number>, id: Uuid, num: int): (r: seq<Number>)
    ensures |r| == |ns|
  {
    var idx := FirstIndexOfId(ns, id);
    if idx.None? then ns else ns[idx.value := Number(id, num, None)]
  }

  /** A value not yet in the result, written over an entry, keeps the
      values pairwise different. */
  lemma ReplacedKeepsValuesDistinct(ns: seq<Number>, id: Uuid, num: int)
    requires Distinct(Values(ns)) && num !in Values(ns)
    ensures Distinct(Values(Replaced(ns, id, num)))
  {
    var idx := FirstIndexOfId(ns, id);
    if idx.Some? {
      ReplacedValues(ns, idx.value, Number(id, num, None));
      DistinctUpdate(Values(ns), idx.value, num);
    }
  }

  /** The new value is present afterwards exactly when an entry carries
      the id, or it was present before. */
  lemma ReplacedHasValue(ns: seq<Number>, id: Uuid, num: int)
    ensures num in Values(Replaced(ns, id, num)) <==>
      (exists i :: 0 <= i < |ns| && ns[i].id == id) || num in Values(ns)
  {
    var idx := FirstIndexOfId(ns, id);
    if idx.Some? {
      ReplacedValues(ns, idx.value, Number(id, num, None));
      assert Values(Replaced(ns, id, num))[idx.value] == num;
    }
  }

  lemma ReplacedValues(ns: seq<Number>, i: nat, n: Number)
    requires i < |ns|
    ensures Values(ns[i := n]) == Values(ns)[i := n.value]
  {
  }

  /** Writing a value not yet present keeps a sequence free of repeats. */
  lemma DistinctUpdate(s: seq<int>, i: nat, v: int)
    requires Distinct(s) && v !in s && i < |s|
    ensures Distinct(s[i := v])
  {
    var t := s[i := v];
    forall j, k | 0 <= j < k < |t| ensures t[j] != t[k] {
      if j != i && k != i {
        assert t[j] == s[j] && t[k] == s[k];
      }
    }
  }

  /** The entry carrying `id` keeps its id, takes the value `num` and loses
      its age; without such an entry nothing changes. */
  lemma ReplacedEntry(ns: seq<Number>, id: Uuid, num: int)
    ensures FirstIndexOfId(ns, id).Some? ==>
      Replaced(ns, id, num)[FirstIndexOfId(ns, id).value] == Number(id, num, None)
    ensures FirstIndexOfId(ns, id).None? ==> Replaced(ns, id, num) == ns
  {
  }

  /** Only the replaced entry differs. */
  lemma ReplacedOthersUnchanged(ns: seq<Number>, id: Uuid, num: int, i: nat)
    requires i < |ns| && (FirstIndexOfId(ns, id).None? || i != FirstIndexOfId(ns, id).value)
    ensures Replaced(ns, id, num)[i] == ns[i]
  {
  }

  /** The value a past-result cell holds. */
  class ResultsModel {
    var pastResultToAddManually: Draw

    constructor (pastResult: Draw)
      ensures pastResultToAddManually == pastResult
    {
      pastResultToAddManually := pastResult;
    }
  }

  /** `ValueView`: one cell of a draw, editable when it shows a past result. */
  class ValueView {
    const model: ResultsModel
    var number: Number
    const isFuture: bool
    const isPast: bool
    var showPastNumberInput: bool
    var pastNumberCandidate: string

    constructor (model: ResultsModel, number: Number, isFuture: bool, isPast: bool)
      ensures this.model == model && this.number == number && this.isFuture == isFuture && this.isPast == isPast
      ensures !showPastNumberInput && pastNumberCandidate == ""
    {
      this.model := model;
      this.number := number;
      this.isFuture := isFuture;
      this.isPast := isPast;
      showPastNumberInput := false;
      pastNumberCandidate := "";
    }

    /** The tap gesture: a past cell opens the input alert. */
    method Tap()
      modifies this`showPastNumberInput
      ensures showPastNumberInput == (old(showPastNumberInput) || isPast)
    {
      if isPast {
        showPastNumberInput := true;
      }
    }

    /** `updatePastNumber`: a candidate that is not a number in `1...49` is
        cleared. A valid one already in the past result changes nothing.
        Otherwise the entry of the past result carrying this cell's id is
        replaced, in place, by a number with that id and the new value, and
        the cell shows it; without such an entry nothing changes. */
    method UpdatePastNumber()
      modifies this`number, this`pastNumberCandidate, model`pastResultToAddManually
      ensures var accepted := AcceptedValue(old(pastNumberCandidate));
        var past := old(model.pastResultToAddManually);
        && (accepted.None? ==>
              pastNumberCandidate == "" && number == old(number) && model.pastResultToAddManually == past)
        && (accepted.Some? ==> pastNumberCandidate == old(pastNumberCandidate))
        && (accepted.Some? && ContainsNumber(past, accepted.value) ==>
              number == old(number) && model.pastResultToAddManually == past)
        && (accepted.Some? && !ContainsNumber(past, accepted.value) ==>
              model.pastResultToAddManually
                == past.(numbers := Replaced(past.numbers, old(number).id, accepted.value))
              && (FirstIndexOfId(past.numbers, old(number).id).Some? ==>
                    number == Number(old(number).id, accepted.value, None))
              && (FirstIndexOfId(past.numbers, old(number).id).None? ==> number == old(number)))
    {
      var candidate := AcceptedValue(pastNumberCandidate);
      if candidate.None? {
        pastNumberCandidate := "";
        return;
      }
      var num := candidate.value;
      if !ContainsNumber(model.pastResultToAddManually, num) {
        var idx := FirstIndexOfId(model.pastResultToAddManually.numbers, number.id);
        if idx.Some? {
          var ns := model.pastResultToAddManually.numbers;
          var removed := ns[..idx.value] + ns[idx.value + 1..];
          model.pastResultToAddManually := model.pastResultToAddManually.(numbers := removed);
          number := Number(number.id, num, None);
          RemoveInsertIsReplace(ns, idx.value, number);
          model.pastResultToAddManually := model.pastResultToAddManually.(
            numbers := removed[..idx.value] + [number] + removed[idx.value..]);
        }
      }
    }
  }
}
