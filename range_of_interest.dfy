/** `ResultsRangeOfInterest`: a window of consecutive past draws, given by the
    index of its newest draw and its length (index 0 is the newest draw of all). */
module RangesOfInterest {

  datatype RangeOfInterest = RangeOfInterest(startingIdx: int, length: int)
  {
    /** `endIdx`: the index of the window's oldest draw, `max(0, startingIdx + length - 1)`. */
    function EndIdx(): (e: int)
      ensures e >= 0 && e >= startingIdx + length - 1
      ensures e == 0 || e == startingIdx + length - 1
    {
      if startingIdx + length - 1 > 0 then startingIdx + length - 1 else 0
    }

    /** `isScopeValidFor`, as written: the window starts at or after the
        array's first index and ends at or before its `endIndex`, the count. */
    predicate IsScopeValidFor<T>(results: seq<T>) {
      0 <= startingIdx && |results| >= EndIdx()
    }

    /** The window `results[startingIdx...endIdx]` lies inside the array, so
        the closed-range slice the callers take does not trap. */
    predicate InBounds<T>(results: seq<T>) {
      0 <= startingIdx <= EndIdx() < |results|
    }

    /** The scope check as evidently intended: the last index must be a
        valid index, i.e. strictly below the count. */
    predicate IsScopeValidForCorrected<T>(results: seq<T>) {
      0 <= startingIdx && EndIdx() < |results|
    }

    /** The scope check passes but the closed-range slice that follows it
        would trap. */
    predicate SliceTraps<T>(results: seq<T>) {
      length > 0 && IsScopeValidFor(results) && !InBounds(results)
    }

    /** `results[startingIdx...endIdx]`. */
    function Window<T>(results: seq<T>): (w: seq<T>)
      requires InBounds(results)
      ensures |w| == EndIdx() - startingIdx + 1
      ensures forall i :: 0 <= i < |w| ==> w[i] == results[startingIdx + i]
    {
      results[startingIdx..EndIdx() + 1]
    }
  }

  /** `init(startingIdx:length:)` stores both values unchanged. */
  function Init(startingIdx: int, length: int): (r: RangeOfInterest)
    ensures r.startingIdx == startingIdx && r.length == length
  {
    RangeOfInterest(startingIdx, length)
  }

  /** A window of positive length spans exactly `length` draws. */
  lemma WindowLength(r: RangeOfInterest)
    requires r.startingIdx >= 0 && r.length >= 1
    ensures r.startingIdx <= r.EndIdx()
    ensures r.EndIdx() - r.startingIdx + 1 == r.length
  {
  }

  /** A zero-length window at the newest draw still spans that one draw. */
  lemma ZeroLengthWindowAtStart<T>(results: seq<T>)
    requires |results| >= 1
    ensures RangeOfInterest(0, 0).EndIdx() == 0
    ensures RangeOfInterest(0, 0).InBounds(results)
    ensures RangeOfInterest(0, 0).Window(results) == [results[0]]
  {
  }

  /** A hundred-draw window does not fit an empty history. */
  lemma EmptyHistoryRejectsWindow<T>(results: seq<T>)
    requires results == []
    ensures !RangeOfInterest(0, 100).IsScopeValidFor(results)
  {
  }

  /** For a window of positive length the corrected check holds exactly when
      the slice is in bounds, and it is the written check minus the one case
      where the window ends on the count itself. */
  lemma CorrectedScopeIsInBounds<T>(r: RangeOfInterest, results: seq<T>)
    requires r.length >= 1
    ensures r.IsScopeValidForCorrected(results) <==> r.InBounds(results)
    ensures r.IsScopeValidForCorrected(results) <==> r.IsScopeValidFor(results) && r.EndIdx() != |results|
  {
  }

  /** The written check admits a window one past the end: a one-draw window
      on an empty history passes it, yet `results[0...0]` does not exist. */
  lemma ScopeCheckAdmitsWindowPastEnd<T>(results: seq<T>)
    requires results == []
    ensures RangeOfInterest(0, 1).IsScopeValidFor(results)
    ensures !RangeOfInterest(0, 1).InBounds(results)
  {
  }

  /** The slice traps exactly when a window of positive length ends on the
      count itself. */
  lemma SliceTrapsOnlyAtCount<T>(r: RangeOfInterest, results: seq<T>)
    ensures r.SliceTraps(results) <==> r.length > 0 && r.startingIdx >= 0 && r.EndIdx() == |results|
  {
  }
}
