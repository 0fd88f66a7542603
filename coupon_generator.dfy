/** `CouponGenerator`: draws one coupon from per-position candidate lists. */
module CouponGenerators {
  import opened Wrappers
  import opened Sequences
  import opened Sorting
  import opened DrawTypes
  import opened Bands

  datatype GeneratedCoupon = GeneratedCoupon(value: seq<int>)

  class CouponGenerator {
    /** The result type's constants. */
    const rules: Rules
    /** The candidate values of each position (the source's `set`). */
    const numberSets: seq<seq<int>>
    /** Values to keep out; stored but never read. */
    const exclusion: seq<int>

    constructor (rules: Rules, numberSets: seq<seq<int>>, exclusion: seq<int>)
      ensures this.rules == rules && this.numberSets == numberSets && this.exclusion == exclusion
    {
      this.rules := rules;
      this.numberSets := numberSets;
      this.exclusion := exclusion;
    }

    /** `prepareCoupon`: one value per position from that position's list,
        none twice, sorted ascending. No positions (`0...-1`), a missing or
        an empty list traps; a list whose values were all picked already
        retries for ever. Nothing here depends on `exclusion`. */
    method PrepareCoupon() returns (outcome: Run<GeneratedCoupon>)
      ensures outcome.Returned? ==>
        var n := rules.validNumbersCount;
        |outcome.value.value| == n && Increasing(outcome.value.value)
        && FromPicks(numberSets, n, outcome.value.value)
      ensures outcome.Trapped? ==>
        rules.validNumbersCount < 1 || rules.validNumbersCount > |numberSets|
        || exists p :: 0 <= p < rules.validNumbersCount && numberSets[p] == []
      ensures rules.validNumbersCount < 1 ==> outcome.Trapped?
      ensures rules.validNumbersCount >= 1 && (|numberSets| == 0 || numberSets[0] == []) ==> outcome.Trapped?
      ensures (
          && 1 <= rules.validNumbersCount <= |numberSets|
          && forall p :: 0 <= p < rules.validNumbersCount ==> |Elems(numberSets[p])| > p
        ) ==> outcome.Returned?
    {
      if rules.validNumbersCount < 1 {
        return Trapped;
      }
      var picked := PickCoupon(numberSets, rules.validNumbersCount);
      if !picked.Returned? {
        return if picked.Trapped? then Trapped else Diverged;
      }
      PickedCouponIncreasing(numberSets, rules.validNumbersCount, picked.value);
      var coupon := Sort(picked.value);
      return Returned(GeneratedCoupon(coupon));
    }
  }
}
