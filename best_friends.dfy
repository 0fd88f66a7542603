/** `BestFriendsModel`: how often values are drawn together, a draw's score
    under those weights, and the mean and deviation of the scores of the
    history. A candidate result is "in scope" when its score lies strictly
    within one deviation of the mean. */
module BestFriends {
  import opened Wrappers
  import opened DrawTypes
  import opened Statistics
  import opened DomainNumbers

  /** The values of a draw's numbers, in order. */
  function ValuesOf(d: DrawResult): (vs: seq<int>)
    ensures |vs| == |d.numbers|
    ensures forall i :: 0 <= i < |vs| ==> vs[i] == d.numbers[i].Value()
  {
    seq(|d.numbers|, i requires 0 <= i < |d.numbers| => d.numbers[i].Value())
  }

  /** Every value is a valid index of the table, `1...max`. */
  predicate InRange(vs: seq<int>, max: nat) {
    forall i :: 0 <= i < |vs| ==> 1 <= vs[i] <= max
  }

  predicate DrawsInRange(ds: seq<DrawResult>, max: nat) {
    forall i :: 0 <= i < |ds| ==> InRange(ValuesOf(ds[i]), max)
  }

  /** How many times `a` occurs. */
  function Count(vs: seq<int>, a: int): nat {
    if vs == [] then 0 else Count(vs[..|vs| - 1], a) + (if vs[|vs| - 1] == a then 1 else 0)
  }

  /** What one draw adds to `a`'s weight for `b`, in units of `1 / count`:
      every occurrence of `a` meets every occurrence of a different `b`. */
  function Pair(vs: seq<int>, a: int, b: int): nat {
    if a == b then 0 else Count(vs, a) * Count(vs, b)
  }

  /** The co-occurrence count of `a` with `b` over the draws. */
  function CoOccurrences(ds: seq<DrawResult>, a: int, b: int): nat {
    if ds == [] then 0 else CoOccurrences(ds[..|ds| - 1], a, b) + Pair(ValuesOf(ds[|ds| - 1]), a, b)
  }

  /** `1 / Double(commonResults.count)`, the weight of one co-occurrence. */
  function Share(n: nat): real {
    if n == 0 then 0.0 else 1.0 / (n as real)
  }

  /** Entry `k` of the table is the number with value `k + 1`, holding one
      weight per value. */
  predicate Shaped(t: seq<BestFriendNumber>, max: nat) {
    |t| == max && forall k :: 0 <= k < max ==> t[k].value == k + 1 && |t[k].friendliness| == max
  }

  /** The table after the draws `ds`: value `a`'s weight for `b` is their
      co-occurrence count times `share`. */
  predicate Accumulated(t: seq<BestFriendNumber>, max: nat, ds: seq<DrawResult>, share: real) {
    Shaped(t, max)
    && forall k, l :: 0 <= k < max && 0 <= l < max ==>
         t[k].friendliness[l] == (CoOccurrences(ds, k + 1, l + 1) as real) * share
  }

  /** The weight of `b` in `a`'s row of a table. */
  function Weight(t: seq<BestFriendNumber>, max: nat, a: int, b: int): real
    requires Shaped(t, max) && 1 <= a <= max && 1 <= b <= max
  {
    t[a - 1].friendliness[b - 1]
  }

  /** Co-occurrence is symmetric. */
  lemma {:induction false} CoOccurrencesSymmetric(ds: seq<DrawResult>, a: int, b: int)
    ensures CoOccurrences(ds, a, b) == CoOccurrences(ds, b, a)
  {
    if ds != [] {
      CoOccurrencesSymmetric(ds[..|ds| - 1], a, b);
      var vs := ValuesOf(ds[|ds| - 1]);
      assert Pair(vs, a, b) == Pair(vs, b, a) by {
        if a != b {
          assert Count(vs, a) * Count(vs, b) == Count(vs, b) * Count(vs, a);
        }
      }
    }
  }

  /** A value never co-occurs with itself. */
  lemma {:induction false} CoOccurrencesDiagonal(ds: seq<DrawResult>, a: int)
    ensures CoOccurrences(ds, a, a) == 0
  {
    if ds != [] {
      CoOccurrencesDiagonal(ds[..|ds| - 1], a);
    }
  }

  /** The friendliness table is symmetric, with a zero diagonal. */
  lemma TableSymmetric(t: seq<BestFriendNumber>, max: nat, ds: seq<DrawResult>, share: real, a: int, b: int)
    requires Accumulated(t, max, ds, share) && 1 <= a <= max && 1 <= b <= max
    ensures Weight(t, max, a, b) == Weight(t, max, b, a)
    ensures Weight(t, max, a, a) == 0.0
  {
    CoOccurrencesSymmetric(ds, a, b);
    CoOccurrencesDiagonal(ds, a);
  }

  /** The part of one draw's contribution made once the outer loop has
      reached occurrence `x` and the inner loop occurrence `y`. */
  function Partial(vs: seq<int>, x: nat, y: nat, a: int, b: int): nat
    requires x <= |vs| && y <= |vs|
  {
    if a == b then 0
    else Count(vs[..x], a) * Count(vs, b) + (if x < |vs| && vs[x] == a then Count(vs[..y], b) else 0)
  }

  /** `t` is `base` plus the partial contribution of a draw. */
  predicate Partially(t: seq<BestFriendNumber>, base: seq<BestFriendNumber>, max: nat,
                      vs: seq<int>, x: nat, y: nat, share: real)
    requires x <= |vs| && y <= |vs|
  {
    Shaped(t, max) && Shaped(base, max)
    && forall k, l :: 0 <= k < max && 0 <= l < max ==>
         t[k].friendliness[l] == base[k].friendliness[l] + (Partial(vs, x, y, k + 1, l + 1) as real) * share
  }

  lemma CountSnoc(vs: seq<int>, x: nat, a: int)
    requires x < |vs|
    ensures Count(vs[..x + 1], a) == Count(vs[..x], a) + (if vs[x] == a then 1 else 0)
  {
    assert vs[..x + 1][..x] == vs[..x];
  }

  lemma PartialStart(t: seq<BestFriendNumber>, max: nat, vs: seq<int>, share: real)
    requires Shaped(t, max)
    ensures Partially(t, t, max, vs, 0, 0, share)
  {
    assert vs[..0] == [];
    forall a, b ensures Partial(vs, 0, 0, a, b) == 0 {
      assert Count(vs[..0], a) == 0;
    }
  }

  /** The inner loop's step meets one more occurrence of `b` exactly when
      the outer loop stands on an `a` and the inner one on a different `b`. */
  lemma InnerCount(vs: seq<int>, x: nat, y: nat, a: int, b: int)
    requires x < |vs| && y < |vs|
    ensures Partial(vs, x, y + 1, a, b) == Partial(vs, x, y, a, b) + (if a != b && vs[x] == a && vs[y] == b then 1 else 0)
  {
    CountSnoc(vs, y, b);
  }

  /** The end of the inner loop is the start of the next outer step. */
  lemma OuterCount(vs: seq<int>, x: nat, a: int, b: int)
    requires x < |vs|
    ensures Partial(vs, x, |vs|, a, b) == Partial(vs, x + 1, 0, a, b)
  {
    assert vs[..|vs|] == vs && vs[..0] == [];
    CountSnoc(vs, x, a);
    var c := Count(vs[..x], a);
    var n := Count(vs, b);
    assert (c + 1) * n == c * n + n;
  }

  lemma MulSucc(p: nat, s: real)
    ensures ((p + 1) as real) * s == (p as real) * s + s
  {
  }

  /** The weights `addFriend` leaves and the one it raises. */
  lemma AddFriendCell(t: seq<BestFriendNumber>, max: nat, i: nat, friend: int, share: real, k: nat, l: nat)
    requires Shaped(t, max) && i < max && 1 <= friend <= max && friend != i + 1 && k < max && l < max
    ensures var t' := t[i := AddFriend(t[i], friend, share)];
      t'[k].friendliness[l] == t[k].friendliness[l] + (if k == i && l == friend - 1 then share else 0.0)
  {
  }

  /** One step of the innermost loop: `addFriend` for a different value
      adds `share` to exactly one weight. */
  lemma PartialInnerStep(t: seq<BestFriendNumber>, base: seq<BestFriendNumber>, max: nat,
                        vs: seq<int>, x: nat, y: nat, share: real)
    requires x < |vs| && y < |vs| && InRange(vs, max)
    requires Partially(t, base, max, vs, x, y, share)
    ensures var t' := if vs[y] != vs[x] then t[vs[x] - 1 := AddFriend(t[vs[x] - 1], vs[y], share)] else t;
      Partially(t', base, max, vs, x, y + 1, share)
  {
    var t' := if vs[y] != vs[x] then t[vs[x] - 1 := AddFriend(t[vs[x] - 1], vs[y], share)] else t;
    forall k, l | 0 <= k < max && 0 <= l < max
      ensures t'[k].friendliness[l] == base[k].friendliness[l] + (Partial(vs, x, y + 1, k + 1, l + 1) as real) * share
    {
      InnerCell(t, base, max, vs, x, y, share, k, l);
    }
  }

  lemma InnerCell(t: seq<BestFriendNumber>, base: seq<BestFriendNumber>, max: nat,
                  vs: seq<int>, x: nat, y: nat, share: real, k: nat, l: nat)
    requires x < |vs| && y < |vs| && InRange(vs, max) && k < max && l < max
    requires Shaped(t, max) && Shaped(base, max)
    requires t[k].friendliness[l] == base[k].friendliness[l] + (Partial(vs, x, y, k + 1, l + 1) as real) * share
    ensures var t' := if vs[y] != vs[x] then t[vs[x] - 1 := AddFriend(t[vs[x] - 1], vs[y], share)] else t;
      t'[k].friendliness[l] == base[k].friendliness[l] + (Partial(vs, x, y + 1, k + 1, l + 1) as real) * share
  {
    if vs[y] != vs[x] {
      InnerCellAdd(t, base, max, vs, x, y, share, k, l);
    } else {
      InnerCount(vs, x, y, k + 1, l + 1);
    }
  }

  /** The inner step for a different value: one weight gains `share`. */
  lemma InnerCellAdd(t: seq<BestFriendNumber>, base: seq<BestFriendNumber>, max: nat,
                     vs: seq<int>, x: nat, y: nat, share: real, k: nat, l: nat)
    requires x < |vs| && y < |vs| && InRange(vs, max) && k < max && l < max && vs[y] != vs[x]
    requires Shaped(t, max) && Shaped(base, max)
    requires t[k].friendliness[l] == base[k].friendliness[l] + (Partial(vs, x, y, k + 1, l + 1) as real) * share
    ensures var t' := t[vs[x] - 1 := AddFriend(t[vs[x] - 1], vs[y], share)];
      t'[k].friendliness[l] == base[k].friendliness[l] + (Partial(vs, x, y + 1, k + 1, l + 1) as real) * share
  {
    InnerCount(vs, x, y, k + 1, l + 1);
    AddFriendCell(t, max, vs[x] - 1, vs[y], share, k, l);
    var t' := t[vs[x] - 1 := AddFriend(t[vs[x] - 1], vs[y], share)];
    CellStep(t[k].friendliness[l], t'[k].friendliness[l], base[k].friendliness[l],
             Partial(vs, x, y, k + 1, l + 1), Partial(vs, x, y + 1, k + 1, l + 1),
             k == vs[x] - 1 && l == vs[y] - 1, share);
  }

  /** A cell that gains `share` exactly when its count gains one keeps
      equal to its base plus the scaled count. */
  lemma CellStep(cell: real, cell': real, base: real, p: nat, q: nat, bump: bool, share: real)
    requires cell == base + (p as real) * share
    requires cell' == cell + (if bump then share else 0.0)
    requires q == p + (if bump then 1 else 0)
    ensures cell' == base + (q as real) * share
  {
    if bump {
      MulSucc(p, share);
    }
  }

  /** Moving the outer loop to the next occurrence. */
  lemma PartialOuterStep(t: seq<BestFriendNumber>, base: seq<BestFriendNumber>, max: nat,
                        vs: seq<int>, x: nat, share: real)
    requires x < |vs|
    requires Partially(t, base, max, vs, x, |vs|, share)
    ensures Partially(t, base, max, vs, x + 1, 0, share)
  {
    forall k, l | 0 <= k < max && 0 <= l < max
      ensures t[k].friendliness[l] == base[k].friendliness[l] + (Partial(vs, x + 1, 0, k + 1, l + 1) as real) * share
    {
      OuterCount(vs, x, k + 1, l + 1);
    }
  }

  /** After a whole draw, the table has changed by that draw's `Pair`s. */
  lemma PartialEnd(t: seq<BestFriendNumber>, base: seq<BestFriendNumber>, max: nat, ds: seq<DrawResult>,
                   d: DrawResult, share: real)
    requires Accumulated(base, max, ds, share)
    requires Partially(t, base, max, ValuesOf(d), |d.numbers|, 0, share)
    ensures Accumulated(t, max, ds + [d], share)
  {
    var vs := ValuesOf(d);
    var all := ds + [d];
    assert all[..|all| - 1] == ds;
    assert vs[..|vs|] == vs;
    forall k, l | 0 <= k < max && 0 <= l < max
      ensures t[k].friendliness[l] == (CoOccurrences(all, k + 1, l + 1) as real) * share
    {
      var c := CoOccurrences(ds, k + 1, l + 1);
      var p := Pair(vs, k + 1, l + 1);
      assert Partial(vs, |vs|, 0, k + 1, l + 1) == p;
      assert ((c + p) as real) * share == (c as real) * share + (p as real) * share;
    }
  }

  /** The two inner loops of `deriveNumbersFriendliness`, over one draw. */
  method AddDrawFriends(t: seq<BestFriendNumber>, max: nat, ghost ds: seq<DrawResult>,
                        commonResult: DrawResult, standarizedValue: real)
    returns (numberFriendliness: seq<BestFriendNumber>)
    requires Accumulated(t, max, ds, standarizedValue) && InRange(ValuesOf(commonResult), max)
    ensures Accumulated(numberFriendliness, max, ds + [commonResult], standarizedValue)
  {
    ghost var vs := ValuesOf(commonResult);
    var numbers := commonResult.numbers;
    numberFriendliness := t;
    PartialStart(t, max, vs, standarizedValue);
    for x := 0 to |numbers|
      invariant Partially(numberFriendliness, t, max, vs, x, 0, standarizedValue)
    {
      var number := numbers[x];
      for y := 0 to |numbers|
        invariant Partially(numberFriendliness, t, max, vs, x, y, standarizedValue)
      {
        var theOther := numbers[y];
        PartialInnerStep(numberFriendliness, t, max, vs, x, y, standarizedValue);
        if theOther.Value() != number.Value() {
          var i := number.Value() - 1;
          numberFriendliness := numberFriendliness[i := AddFriend(numberFriendliness[i], theOther.Value(), standarizedValue)];
        }
      }
      PartialOuterStep(numberFriendliness, t, max, vs, x, standarizedValue);
    }
    PartialEnd(numberFriendliness, t, max, ds, commonResult, standarizedValue);
  }

  /** The empty table `Array(1...max).map { Number(value: $0) }`. */
  function EmptyTable(max: nat): (t: seq<BestFriendNumber>)
    ensures |t| == max
    ensures forall k :: 0 <= k < max ==> t[k] == NewBestFriendNumber(k + 1, max)
  {
    seq(max, k => NewBestFriendNumber(k + 1, max))
  }

  /** `deriveNumbersFriendliness`, the table it builds: value `a`'s weight
      for `b` is `1 / count` per co-occurrence of `a` with a different `b`
      in a draw. A value outside `1...max` would trap at the subscript. */
  method DeriveNumbersFriendliness(commonResults: seq<DrawResult>, max: nat)
    returns (numberFriendliness: seq<BestFriendNumber>)
    requires DrawsInRange(commonResults, max)
    ensures Accumulated(numberFriendliness, max, commonResults, Share(|commonResults|))
  {
    numberFriendliness := EmptyTable(max);
    ghost var share := Share(|commonResults|);
    assert Accumulated(numberFriendliness, max, commonResults[..0], share);
    for i := 0 to |commonResults|
      invariant Accumulated(numberFriendliness, max, commonResults[..i], share)
    {
      var commonResult := commonResults[i];
      var standarizedValue := 1.0 / (|commonResults| as real);
      assert commonResults[..i + 1] == commonResults[..i] + [commonResult];
      numberFriendliness := AddDrawFriends(numberFriendliness, max, commonResults[..i], commonResult, standarizedValue);
    }
    assert commonResults[..|commonResults|] == commonResults;
  }

  /** `reduce(0) { _, number in row[number] }`: the accumulator is
      ignored, so the fold yields the weight of the last number. */
  function IgnoringFold(row: seq<real>, acc: real, rest: seq<int>): real
    requires InRange(rest, |row|)
    decreases |rest|
  {
    if rest == [] then acc else IgnoringFold(row, row[rest[0] - 1], rest[1..])
  }

  lemma {:induction false} IgnoringFoldIsLast(row: seq<real>, acc: real, rest: seq<int>)
    requires InRange(rest, |row|)
    ensures IgnoringFold(row, acc, rest) == if rest == [] then acc else row[rest[|rest| - 1] - 1]
    decreases |rest|
  {
    if rest != [] {
      IgnoringFoldIsLast(row, row[rest[0] - 1], rest[1..]);
    }
  }

  /** `deriveResultFriendliness` on a trained table, as written: for each
      number the fold over the numbers after it, summed. */
  function ResultFriendliness(t: seq<BestFriendNumber>, max: nat, vs: seq<int>): real
    requires Shaped(t, max) && InRange(vs, max)
  {
    Sum(seq(|vs|, idx requires 0 <= idx < |vs| => IgnoringFold(t[vs[idx] - 1].friendliness, 0.0, vs[idx + 1..])))
  }

  /** The weights of every number but the last with the last one. */
  function WithLast(t: seq<BestFriendNumber>, max: nat, vs: seq<int>): (ws: seq<real>)
    requires Shaped(t, max) && InRange(vs, max) && vs != []
    ensures |ws| == |vs| - 1
    ensures forall i :: 0 <= i < |ws| ==> ws[i] == Weight(t, max, vs[i], vs[|vs| - 1])
  {
    seq(|vs| - 1, i requires 0 <= i < |vs| - 1 => Weight(t, max, vs[i], vs[|vs| - 1]))
  }

  lemma {:induction false} SumSnoc(xs: seq<real>, x: real)
    ensures Sum(xs + [x]) == Sum(xs) + x
  {
    if xs != [] {
      assert (xs + [x])[1..] == xs[1..] + [x];
      SumSnoc(xs[1..], x);
    }
  }

  /** The score is the sum, over all numbers but the last, of their weight
      for the last number; the last number's own fold is empty and adds 0. */
  lemma ResultFriendlinessIsWithLast(t: seq<BestFriendNumber>, max: nat, vs: seq<int>)
    requires Shaped(t, max) && InRange(vs, max)
    ensures vs == [] ==> ResultFriendliness(t, max, vs) == 0.0
    ensures vs != [] ==> ResultFriendliness(t, max, vs) == Sum(WithLast(t, max, vs))
  {
    var terms := seq(|vs|, idx requires 0 <= idx < |vs| => IgnoringFold(t[vs[idx] - 1].friendliness, 0.0, vs[idx + 1..]));
    if vs != [] {
      var ws := WithLast(t, max, vs);
      forall idx | 0 <= idx < |vs| ensures terms[idx] == (ws + [0.0])[idx] {
        IgnoringFoldIsLast(t[vs[idx] - 1].friendliness, 0.0, vs[idx + 1..]);
      }
      assert terms == ws + [0.0];
      SumSnoc(ws, 0.0);
    }
  }

  /** For three numbers the pair of the first two is not counted. */
  lemma ThreeNumberScore(t: seq<BestFriendNumber>, max: nat, a: int, b: int, c: int)
    requires Shaped(t, max) && 1 <= a <= max && 1 <= b <= max && 1 <= c <= max
    ensures ResultFriendliness(t, max, [a, b, c]) == Weight(t, max, a, c) + Weight(t, max, b, c)
  {
    ResultFriendlinessIsWithLast(t, max, [a, b, c]);
    var ws := WithLast(t, max, [a, b, c]);
    assert ws == [Weight(t, max, a, c), Weight(t, max, b, c)];
    assert ws[1..] == [ws[1]] && ws[1..][1..] == [];
    assert Sum(ws[1..]) == ws[1];
  }

  /** The scores of the history under a table. */
  function Scores(t: seq<BestFriendNumber>, max: nat, ds: seq<DrawResult>): (ss: seq<real>)
    requires Shaped(t, max) && DrawsInRange(ds, max)
    ensures |ss| == |ds|
    ensures forall i :: 0 <= i < |ds| ==> ss[i] == ResultFriendliness(t, max, ValuesOf(ds[i]))
  {
    seq(|ds|, i requires 0 <= i < |ds| => ResultFriendliness(t, max, ValuesOf(ds[i])))
  }

  /** `BestFriendsModelResults`: the statistic of the history's scores, read
      through `getFriendshipFactor`. */
  datatype BestFriendsModelResults = BestFriendsModelResults(results: ResultsStatistic)

  class BestFriendsModel {
    /** The result type's constants. */
    const rules: Rules
    const roiLength: int
    var innerResults: Option<BestFriendsModelResults>
    var numberFriendliness: Option<seq<BestFriendNumber>>
    /** The published statistic. */
    var results: Option<ResultsStatistic>

    /** A trained table is shaped, and the published statistic is the inner one's. */
    predicate Valid()
      reads this
    {
      rules.Valid()
      && (numberFriendliness.Some? ==> Shaped(numberFriendliness.value, rules.validNumberMaxValue))
      && results == (if innerResults.Some? then Some(innerResults.value.results) else None)
    }

    /** The initializer before its `Task` has run: nothing trained. */
    constructor (rules: Rules, rangeOfInterestLength: int)
      requires rules.Valid()
      ensures Valid() && this.rules == rules && roiLength == rangeOfInterestLength
      ensures innerResults.None? && numberFriendliness.None? && results.None?
    {
      this.rules := rules;
      roiLength := rangeOfInterestLength;
      innerResults := None;
      numberFriendliness := None;
      results := None;
    }

    /** The initializer's `Task`: train on the history and publish. */
    method Train(sqrt: real -> real, commonResults: seq<DrawResult>)
      requires Valid() && IsSqrt(sqrt) && DrawsInRange(commonResults, rules.validNumberMaxValue)
      modifies this
      ensures Valid()
      ensures innerResults.None? <==> commonResults == []
      ensures commonResults == [] ==> numberFriendliness == old(numberFriendliness)
      ensures commonResults != [] ==>
        numberFriendliness.Some?
        && Accumulated(numberFriendliness.value, rules.validNumberMaxValue, commonResults, Share(|commonResults|))
        && var scores := Scores(numberFriendliness.value, rules.validNumberMaxValue, commonResults);
           results == Some(ResultsStatistic([Mean(scores)], [StandardDeviation(sqrt, scores)]))
    {
      innerResults := ModelResultsBasedOn(sqrt, commonResults);
      results := if innerResults.Some? then Some(innerResults.value.results) else None;
    }

    /** `modelResultsBasedOn`: nothing for an empty history; otherwise the
        table is rebuilt, and the statistic holds the mean and deviation of
        the history's scores as one-element arrays. */
    method ModelResultsBasedOn(sqrt: real -> real, commonResults: seq<DrawResult>)
      returns (r: Option<BestFriendsModelResults>)
      requires Valid() && IsSqrt(sqrt) && DrawsInRange(commonResults, rules.validNumberMaxValue)
      modifies this`numberFriendliness
      ensures numberFriendliness.Some? ==> Shaped(numberFriendliness.value, rules.validNumberMaxValue)
      ensures r.None? <==> commonResults == []
      ensures commonResults == [] ==> numberFriendliness == old(numberFriendliness)
      ensures commonResults != [] ==>
        numberFriendliness.Some?
        && Accumulated(numberFriendliness.value, rules.validNumberMaxValue, commonResults, Share(|commonResults|))
        && var scores := Scores(numberFriendliness.value, rules.validNumberMaxValue, commonResults);
           r.value.results == ResultsStatistic([Mean(scores)], [StandardDeviation(sqrt, scores)])
    {
      if |commonResults| == 0 {
        return None;
      }
      var table := DeriveNumbersFriendliness(commonResults, rules.validNumberMaxValue);
      numberFriendliness := Some(table);
      var resultsFriendship: seq<real> := [];
      for i := 0 to |commonResults|
        invariant resultsFriendship == Scores(table, rules.validNumberMaxValue, commonResults)[..i]
      {
        var resultFriendliness := DeriveResultFriendliness(ValuesOf(commonResults[i]));
        resultsFriendship := resultsFriendship + [resultFriendliness];
      }
      assert resultsFriendship == Scores(table, rules.validNumberMaxValue, commonResults);
      var average := Mean(resultsFriendship);
      var deviation := StandardDeviation(sqrt, resultsFriendship);
      return Some(BestFriendsModelResults(ResultsStatistic([average], [deviation])));
    }

    /** `deriveResultFriendliness`: 0 before training, else the score as written. */
    function DeriveResultFriendliness(vs: seq<int>): (f: real)
      reads this
      requires rules.Valid()
      requires numberFriendliness.Some? ==> Shaped(numberFriendliness.value, rules.validNumberMaxValue)
      requires numberFriendliness.Some? ==> InRange(vs, rules.validNumberMaxValue)
      ensures numberFriendliness.None? ==> f == 0.0
      ensures numberFriendliness.Some? && vs == [] ==> f == 0.0
      ensures numberFriendliness.Some? && vs != [] ==>
        f == Sum(WithLast(numberFriendliness.value, rules.validNumberMaxValue, vs))
    {
      if numberFriendliness.None? then 0.0
      else
        ResultFriendlinessIsWithLast(numberFriendliness.value, rules.validNumberMaxValue, vs);
        ResultFriendliness(numberFriendliness.value, rules.validNumberMaxValue, vs)
    }

    /** `isResultInScope`: false without a published statistic with a first
        average and deviation, or for a result of the wrong length;
        otherwise whether the score lies strictly within one deviation of
        the average. */
    function IsResultInScope(result: seq<int>): (b: bool)
      reads this
      requires rules.Valid()
      requires numberFriendliness.Some? ==> Shaped(numberFriendliness.value, rules.validNumberMaxValue)
      requires numberFriendliness.Some? && |result| == rules.validNumbersCount ==>
        InRange(result, rules.validNumberMaxValue)
      ensures results.None? || |result| != rules.validNumbersCount ==> !b
      ensures b ==> results.value.average != [] && results.value.standardDeviation != []
      ensures (
          && results.Some? && results.value.average != [] && results.value.standardDeviation != []
          && |result| == rules.validNumbersCount
        ) ==>
          (var average := results.value.average[0];
          var deviation := results.value.standardDeviation[0];
          (b <==> average - deviation < DeriveResultFriendliness(result) < average + deviation))
    {
      if results.None? || results.value.average == [] || results.value.standardDeviation == []
         || |result| != rules.validNumbersCount then false
      else
        var average := results.value.average[0];
        var standardDeviation := results.value.standardDeviation[0];
        var friendliness := DeriveResultFriendliness(result);
        average - standardDeviation < friendliness && friendliness < average + standardDeviation
    }
  }

  /** Once trained on a non-empty history, a result of the right length is
      in scope exactly when the sum of its numbers' weights for its last
      number lies strictly within one deviation of the mean score. */
  lemma InScopeAfterTraining(m: BestFriendsModel, sqrt: real -> real, commonResults: seq<DrawResult>, result: seq<int>)
    requires m.Valid() && IsSqrt(sqrt) && commonResults != [] && DrawsInRange(commonResults, m.rules.validNumberMaxValue)
    requires m.numberFriendliness.Some?
    requires Accumulated(m.numberFriendliness.value, m.rules.validNumberMaxValue, commonResults, Share(|commonResults|))
    requires m.results == Some(ResultsStatistic(
      [Mean(Scores(m.numberFriendliness.value, m.rules.validNumberMaxValue, commonResults))],
      [StandardDeviation(sqrt, Scores(m.numberFriendliness.value, m.rules.validNumberMaxValue, commonResults))]))
    requires |result| == m.rules.validNumbersCount && InRange(result, m.rules.validNumberMaxValue)
    ensures var t := m.numberFriendliness.value;
      var scores := Scores(t, m.rules.validNumberMaxValue, commonResults);
      m.IsResultInScope(result) <==>
        Mean(scores) - StandardDeviation(sqrt, scores) < Sum(WithLast(t, m.rules.validNumberMaxValue, result))
        < Mean(scores) + StandardDeviation(sqrt, scores)
  {
    assert result != [] by {
      assert m.rules.Valid();
    }
  }
}
