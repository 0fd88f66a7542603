/** `MiniLottoResult`: the MiniLotto result type, a draw under the 5-of-42 rules. */
module MiniLottoResults {
  import opened Text
  import opened DrawTypes
  import opened Numbers
  import opened Results

  const ValidNumbersCount: nat := 5
  const ValidNumberMaxValue: int := 42

  /** The static constants of the type agree with the `DrawType` case. */
  function TypeRules(): (r: Rules)
    ensures r == RulesOf(MiniLotto) && r.Valid()
    ensures r.validNumbersCount == 5 && r.validNumberMaxValue == 42
  {
    Rules(ValidNumbersCount, ValidNumberMaxValue)
  }

  /** `createResult`: a draw holding exactly the given index, date and numbers. */
  function CreateResult(idx: int, date: Date, numbers: seq<Number>): (d: Draw)
    ensures d.idx == idx && d.date == date && d.numbers == numbers
  {
    Draw(idx, date, numbers)
  }

  /** `containsNumber`: some stored number has value `v`. */
  function ContainsNumber(d: Draw, v: int): (b: bool)
    ensures b <==> exists i :: 0 <= i < |d.numbers| && d.numbers[i].value == v
  {
    Results.ContainsNumber(d, v)
  }

  /** `numbersAsString`: the values in stored order, comma separated. */
  function NumbersAsString(d: Draw): (s: string)
    ensures d.numbers != [] ==> Split(s, IsComma) == ShowInts(Values(d.numbers))
  {
    Results.NumbersAsString(d)
  }

  /** A well-formed MiniLotto draw written with `numbersAsString` reads back
      through `numbersFromString` with the same values, in order. */
  lemma NumbersRoundTrip(d: Draw, newId: nat -> Uuid)
    requires WellFormed(TypeRules(), d)
    ensures NumbersFromString(TypeRules(), NumbersAsString(d), newId).Success?
    ensures Values(NumbersFromString(TypeRules(), NumbersAsString(d), newId).value) == Values(d.numbers)
  {
    Results.NumbersRoundTrip(TypeRules(), d, newId);
  }
}
