/** The older `Result` struct: the same draw operations with the Lotto rules
    (6 numbers out of 49) fixed as its static constants. */
module LegacyResults {
  import opened Wrappers
  import opened Text
  import opened DrawTypes
  import opened Numbers
  import opened Results

  const ValidNumbersCount: nat := 6
  const ValidNumberMaxValue: int := 49

  function StructRules(): (r: Rules)
    ensures r == RulesOf(Lotto) && r.Valid()
  {
    Rules(ValidNumbersCount, ValidNumberMaxValue)
  }

  /** `containsNumber`: some stored number has value `v`. */
  function ContainsNumber(d: Draw, v: int): (b: bool)
    ensures b <==> exists i :: 0 <= i < |d.numbers| && d.numbers[i].value == v
  {
    Results.ContainsNumber(d, v)
  }

  /** `numbersAsString`: the values in stored order, comma separated. */
  function NumbersAsString(d: Draw): (s: string)
    ensures d.numbers != [] ==> Split(s, IsComma) == ShowInts(Values(d.numbers))
  {
    Results.NumbersAsString(d)
  }

  /** `numbersFromString`: six parseable components are required before any
      is range checked; on success the values keep their order, each in
      `1...49` and aged zero. */
  function NumbersFromString(s: string, newId: nat -> Uuid): (r: Result<seq<Number>, ResultError>)
    ensures r == Failure(WrongNumbersCount) <==> |ParseInts(Split(s, IsComma))| != 6
    ensures r.Success? ==>
      Values(r.value) == ParseInts(Split(s, IsComma)) && |r.value| == 6
      && forall i :: 0 <= i < 6 ==> 1 <= r.value[i].value <= 49 && r.value[i].age == Some(0)
    ensures r == Failure(WrongNumbersRange) <==>
      |ParseInts(Split(s, IsComma))| == 6
      && exists i :: 0 <= i < 6 && !(1 <= ParseInts(Split(s, IsComma))[i] <= 49)
  {
    Results.NumbersFromString(StructRules(), s, newId)
  }

  /** `empty()`: six placeholder numbers, index 0, dated now. */
  method Empty(now: Date) returns (d: Draw)
    ensures d.idx == 0 && d.date == now && |d.numbers| == 6
    ensures forall i :: 0 <= i < 6 ==> d.numbers[i].value == 0 && d.numbers[i].age.None?
  {
    d := Results.Empty(StructRules(), now);
  }

  /** `resultsFrom(lines:)`: one six-number draw per line, in order, or the
      error of the first line that does not parse. */
  method ResultsFrom(lines: seq<string>, parseDate: string -> Option<Date>)
    returns (r: Result<seq<Draw>, DataParsingError>)
    ensures r.Failure? <==> ReadAll(LineParser(StructRules(), parseDate), lines).Failure?
    ensures r.Failure? ==> r.error == ReadAll(LineParser(StructRules(), parseDate), lines).error
    ensures r.Success? ==>
      |r.value| == |lines|
      && forall i :: 0 <= i < |lines| ==>
           Represents(r.value[i], ReadAll(LineParser(StructRules(), parseDate), lines).value[i])
           && |r.value[i].numbers| == 6
  {
    r := Results.ResultsFrom(StructRules(), lines, parseDate);
    if r.Success? {
      forall i | 0 <= i < |lines| ensures |r.value[i].numbers| == 6 {
        var data := ReadAll(LineParser(StructRules(), parseDate), lines);
        ReadAllLines(LineParser(StructRules(), parseDate), lines);
        assert ParseLine(StructRules(), lines[i], parseDate) == Success(data.value[i]);
      }
    }
  }
}
