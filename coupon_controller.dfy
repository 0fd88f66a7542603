/** The pure steps of `CouponController`'s pipeline: joining the three
    models' outputs, and dropping coupons too close to one already let
    through. */
module CouponControllers {
  import opened Wrappers
  import opened Sequences
  import opened CouponGenerators

  /** `unwrapResults`: the three values, once all three are present. */
  function UnwrapResults<T, U, O>(value1: Option<T>, value2: Option<U>, value3: Option<O>): (r: Option<(T, U, O)>)
    ensures r.None? <==> value1.None? || value2.None? || value3.None?
    ensures r.Some? ==> r.value.0 == value1.value && r.value.1 == value2.value && r.value.2 == value3.value
  {
    if value1.None? || value2.None? || value3.None? then None
    else Some((value1.value, value2.value, value3.value))
  }

  /** `Set(coupon.value)`. */
  function NumberSet(c: GeneratedCoupon): set<int> {
    Elems(c.value)
  }

  /** Whether a coupon is dropped: with distance 0 when its set was seen
      already, otherwise when some seen set leaves at most `distance` of
      its numbers uncovered. */
  predicate SkipSet(seenSets: set<set<int>>, numberSet: set<int>, distance: int) {
    if distance == 0 then numberSet in seenSets
    else exists seenSet :: seenSet in seenSets && |numberSet - seenSet| <= distance
  }

  /** The `scan` after the given coupons: the seen sets and the coupons let
      through, in order. */
  function Scan(coupons: seq<GeneratedCoupon>, distance: int): (r: (set<set<int>>, seq<GeneratedCoupon>))
    ensures |r.1| <= |coupons|
  {
    if coupons == [] then ({}, [])
    else
      var state := Scan(coupons[..|coupons| - 1], distance);
      var coupon := coupons[|coupons| - 1];
      if SkipSet(state.0, NumberSet(coupon), distance) then state
      else (state.0 + {NumberSet(coupon)}, state.1 + [coupon])
  }

  /** The number sets of the given coupons. */
  function SetsOf(cs: seq<GeneratedCoupon>): (r: set<set<int>>)
    ensures forall i :: 0 <= i < |cs| ==> NumberSet(cs[i]) in r
    ensures forall s :: s in r ==> exists i :: 0 <= i < |cs| && NumberSet(cs[i]) == s
  {
    if cs == [] then {} else SetsOf(cs[..|cs| - 1]) + {NumberSet(cs[|cs| - 1])}
  }

  /** The seen sets are exactly the sets of the coupons let through. */
  lemma {:induction false} SeenAreAccepted(coupons: seq<GeneratedCoupon>, distance: int)
    ensures Scan(coupons, distance).0 == SetsOf(Scan(coupons, distance).1)
  {
    if coupons != [] {
      var front := coupons[..|coupons| - 1];
      SeenAreAccepted(front, distance);
      var acc := Scan(front, distance).1;
      var c := coupons[|coupons| - 1];
      assert (acc + [c])[..|acc + [c]| - 1] == acc;
    }
  }

  /** `a` is `b` with some elements left out, order kept. */
  predicate SubsequenceOf<T(==)>(a: seq<T>, b: seq<T>)
    decreases |b|
  {
    if a == [] then true
    else if b == [] then false
    else
      (a[|a| - 1] == b[|b| - 1] && SubsequenceOf(a[..|a| - 1], b[..|b| - 1]))
      || SubsequenceOf(a, b[..|b| - 1])
  }

  /** The coupons let through are an order-preserving subsequence of the input. */
  lemma {:induction false} AcceptedIsSubsequence(coupons: seq<GeneratedCoupon>, distance: int)
    ensures SubsequenceOf(Scan(coupons, distance).1, coupons)
  {
    if coupons != [] {
      var front := coupons[..|coupons| - 1];
      AcceptedIsSubsequence(front, distance);
      var acc := Scan(front, distance).1;
      var c := coupons[|coupons| - 1];
      if acc + [c] == Scan(coupons, distance).1 {
        assert (acc + [c])[..|acc + [c]| - 1] == acc;
      }
    }
  }

  /** The first coupon always passes. */
  lemma {:induction false} FirstIsAccepted(coupons: seq<GeneratedCoupon>, distance: int)
    requires coupons != []
    ensures Scan(coupons, distance).1 != [] && Scan(coupons, distance).1[0] == coupons[0]
  {
    var front := coupons[..|coupons| - 1];
    if front == [] {
      assert Scan(coupons, distance).1 == [coupons[0]];
    } else {
      FirstIsAccepted(front, distance);
      assert front[0] == coupons[0];
    }
  }

  /** Coupons let through stay apart: with distance 0 their sets differ,
      otherwise a later one has more than `distance` numbers outside each
      earlier one. */
  predicate Separated(acc: seq<GeneratedCoupon>, distance: int) {
    forall i, j :: 0 <= i < j < |acc| ==>
      (distance == 0 ==> NumberSet(acc[j]) != NumberSet(acc[i]))
      && (distance != 0 ==> |NumberSet(acc[j]) - NumberSet(acc[i])| > distance)
  }

  lemma {:induction false} AcceptedAreSeparated(coupons: seq<GeneratedCoupon>, distance: int)
    ensures Separated(Scan(coupons, distance).1, distance)
  {
    if coupons != [] {
      var front := coupons[..|coupons| - 1];
      AcceptedAreSeparated(front, distance);
      SeenAreAccepted(front, distance);
      var state := Scan(front, distance);
      var c := coupons[|coupons| - 1];
      if !SkipSet(state.0, NumberSet(c), distance) {
        SeparatedAppend(state.1, c, distance);
      }
    }
  }

  /** A coupon not dropped against the sets of the coupons let through so
      far keeps them separated. */
  lemma SeparatedAppend(acc: seq<GeneratedCoupon>, c: GeneratedCoupon, distance: int)
    requires Separated(acc, distance)
    requires !SkipSet(SetsOf(acc), NumberSet(c), distance)
    ensures Separated(acc + [c], distance)
  {
    var all := acc + [c];
    forall i, j | 0 <= i < j < |all|
      ensures (distance == 0 ==> NumberSet(all[j]) != NumberSet(all[i]))
        && (distance != 0 ==> |NumberSet(all[j]) - NumberSet(all[i])| > distance)
    {
      assert all[i] == acc[i];
      if j < |acc| {
        assert all[j] == acc[j];
      } else {
        assert all[j] == c;
        assert NumberSet(acc[i]) in SetsOf(acc);
      }
    }
  }

  lemma DifferenceBound(s: set<int>, t: set<int>)
    ensures |s - t| <= |s|
  {
    SubsetCardinality(s - t, s);
  }

  /** A distance no smaller than any coupon's set lets at most one coupon through. */
  lemma AtMostOneWhenDistanceCoversAll(coupons: seq<GeneratedCoupon>, distance: int)
    requires distance >= 0
    requires forall i :: 0 <= i < |coupons| ==> |NumberSet(coupons[i])| <= distance
    ensures |Scan(coupons, distance).1| <= 1
  {
    var acc := Scan(coupons, distance).1;
    if |acc| >= 2 {
      AcceptedAreSeparated(coupons, distance);
      AcceptedIsSubsequence(coupons, distance);
      AcceptedFromInput(coupons, distance, 1);
      DifferenceBound(NumberSet(acc[1]), NumberSet(acc[0]));
      if distance == 0 {
        EmptyBoth(NumberSet(acc[1]), NumberSet(acc[0]));
      }
    }
  }

  lemma EmptyBoth(s: set<int>, t: set<int>)
    requires |s| <= 0 && |t| <= 0
    ensures s == t
  {
  }

  /** Every coupon let through is one of the input coupons. */
  lemma {:induction false} AcceptedFromInput(coupons: seq<GeneratedCoupon>, distance: int, k: nat)
    requires k < |Scan(coupons, distance).1|
    ensures Scan(coupons, distance).1[k] in coupons
    ensures Scan(coupons, distance).1[0] in coupons
  {
    var front := coupons[..|coupons| - 1];
    var acc := Scan(front, distance).1;
    var c := coupons[|coupons| - 1];
    if Scan(coupons, distance).1 == acc {
      AcceptedFromInput(front, distance, k);
      assert acc[k] in front && acc[0] in front;
    } else if k < |acc| {
      AcceptedFromInput(front, distance, k);
      assert acc[k] in front && acc[0] in front;
    } else if |acc| > 0 {
      AcceptedFromInput(front, distance, 0);
      assert acc[0] in front;
    }
  }

  /** `filterOutCouponsByDistance`: the scan over the coupons, emitting those
      not dropped. Rejection leaves the seen sets unchanged; acceptance adds
      exactly the coupon's set. */
  method FilterOutCouponsByDistance(coupons: seq<GeneratedCoupon>, distance: int) returns (accepted: seq<GeneratedCoupon>)
    ensures accepted == Scan(coupons, distance).1
  {
    var seenSets: set<set<int>> := {};
    accepted := [];
    for k := 0 to |coupons|
      invariant (seenSets, accepted) == Scan(coupons[..k], distance)
    {
      assert coupons[..k + 1][..k] == coupons[..k];
      var coupon := coupons[k];
      var numberSet := Elems(coupon.value);
      var skipSet: bool;
      if distance == 0 {
        skipSet := numberSet in seenSets;
      } else {
        skipSet := exists seenSet :: seenSet in seenSets && |numberSet - seenSet| <= distance;
      }
      if !skipSet {
        seenSets := seenSets + {numberSet};
        accepted := accepted + [coupon];
      }
    }
    assert coupons[..|coupons|] == coupons;
  }
}
