/** `LottoResult`: the Lotto result type, a draw under the 6-of-49 rules. */
module LottoResults {
  import opened Text
  import opened DrawTypes
  import opened Numbers
  import opened Results

  const ValidNumbersCount: nat := 6
  const ValidNumberMaxValue: int := 49

  /** The static constants of the type agree with the `DrawType` case. */
  function TypeRules(): (r: Rules)
    ensures r == RulesOf(Lotto) && r.Valid()
    ensures r.validNumbersCount == 6 && r.validNumberMaxValue == 49
  {
    Rules(ValidNumbersCount, ValidNumberMaxValue)
  }

  /** `createResult`: a draw holding exactly the given index, date and numbers. */
  function CreateResult(idx: int, date: Date, numbers: seq<Number>): (d: Draw)
    ensures d.idx == idx && d.date == date && d.numbers == numbers
  {
    Draw(idx, date, numbers)
  }

  /** `containsNumber`: some stored number has value `v`. */
  function ContainsNumber(d: Draw, v: int): (b: bool)
    ensures b <==> exists i :: 0 <= i < |d.numbers| && d.numbers[i].value == v
  {
    Results.ContainsNumber(d, v)
  }

  /** `numbersAsString`: the values in stored order, comma separated. */
  function NumbersAsString(d: Draw): (s: string)
    ensures d.numbers != [] ==> Split(s, IsComma) == ShowInts(Values(d.numbers))
  {
    Results.NumbersAsString(d)
  }

  /** A well-formed Lotto draw written with `numbersAsString` reads back
      through `numbersFromString` with the same values, in order. */
  lemma NumbersRoundTrip(d: Draw, newId: nat -> Uuid)
    requires WellFormed(TypeRules(), d)
    ensures NumbersFromString(TypeRules(), NumbersAsString(d), newId).Success?
    ensures Values(NumbersFromString(TypeRules(), NumbersAsString(d), newId).value) == Values(d.numbers)
  {
    Results.NumbersRoundTrip(TypeRules(), d, newId);
  }
}
