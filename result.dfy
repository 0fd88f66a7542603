/** A published draw (the `Result` protocol shared by the Lotto and Mini Lotto
    result types) and the parser that reads draws from the bundled text files.

    A line of such a file reads `<idx>. <dd.MM.yyyy> <n1>,<n2>,...`. The date
    formatter is a parameter `parseDate`; `Date.now` is a parameter `now`; fresh
    `UUID`s are drawn by the methods and supplied by `newId` to the functions. */
module Results {
  import opened Wrappers
  import opened Sequences
  import opened Text
  import opened DrawTypes
  import opened Numbers

  /** A point in time, as seconds. */
  type Date = int

  datatype Draw = Draw(idx: int, date: Date, numbers: seq<Number>)

  datatype ResultError = WrongNumbersCount | WrongNumbersRange

  datatype DataParsingError = EmptyLine | MissingComponent | WrongComponent | WrongLineNumbersCount

  /** What a well-formed line carries, before identifiers are attached. */
  datatype LineData = LineData(idx: int, date: Date, values: seq<int>)

  function Values(ns: seq<Number>): (vs: seq<int>)
    ensures |vs| == |ns|
    ensures forall i :: 0 <= i < |ns| ==> vs[i] == ns[i].value
  {
    if ns == [] then [] else [ns[0].value] + Values(ns[1..])
  }

  /** The ages of a draw's numbers, before `compactMap { $0.age }` drops the missing ones. */
  function DrawAges(d: Draw): (ages: seq<Option<int>>)
    ensures |ages| == |d.numbers|
    ensures forall i :: 0 <= i < |ages| ==> ages[i] == d.numbers[i].age
  {
    seq(|d.numbers|, i requires 0 <= i < |d.numbers| => d.numbers[i].age)
  }

  /** `containsNumber`: some number of the draw has value `v`. */
  function ContainsNumber(d: Draw, v: int): (b: bool)
    ensures b <==> exists i :: 0 <= i < |d.numbers| && d.numbers[i].value == v
  {
    v in Values(d.numbers)
  }

  /** `numbersAsString`: the values, comma separated. */
  function NumbersAsString(d: Draw): (s: string)
    ensures Split(s, IsComma) == ShowInts(Values(d.numbers)) || d.numbers == []
  {
    var parts := ShowInts(Values(d.numbers));
    if parts == [] then ""
    else
      forall i | 0 <= i < |parts| ensures Avoids(parts[i], IsComma) {
        ShowIntChars(Values(d.numbers)[i]);
      }
      SplitJoin(parts, ',', IsComma);
      Join(parts, ',')
  }

  /** The numbers of a draw with the given values, each aged zero. */
  function Fresh(values: seq<int>, newId: nat -> Uuid): (ns: seq<Number>)
    ensures Values(ns) == values
    ensures forall i :: 0 <= i < |ns| ==> ns[i] == Number(newId(i), values[i], Some(0))
  {
    seq(|values|, i requires 0 <= i < |values| => Number(newId(i), values[i], Some(0)))
  }

  /** `numbersFromString`: the comma-separated components that parse as
      integers must be exactly `validNumbersCount` many (checked first), and
      all in `1...validNumberMaxValue`. */
  function NumbersFromString(rules: Rules, s: string, newId: nat -> Uuid): (r: Result<seq<Number>, ResultError>)
    ensures r.Success? <==>
      |ParseInts(Split(s, IsComma))| == rules.validNumbersCount
      && forall i :: 0 <= i < |ParseInts(Split(s, IsComma))| ==> rules.InRange(ParseInts(Split(s, IsComma))[i])
    ensures r == Failure(WrongNumbersCount) <==> |ParseInts(Split(s, IsComma))| != rules.validNumbersCount
    ensures r.Success? ==> Values(r.value) == ParseInts(Split(s, IsComma))
                           && forall i :: 0 <= i < |r.value| ==> r.value[i].age == Some(0)
  {
    var values := ParseInts(Split(s, IsComma));
    if |values| != rules.validNumbersCount then Failure(WrongNumbersCount)
    else if exists i :: 0 <= i < |values| && !rules.InRange(values[i]) then Failure(WrongNumbersRange)
    else Success(Fresh(values, newId))
  }

  /** A draw is well formed for `rules` when it has the right number of
      numbers, each in range. */
  predicate WellFormed(rules: Rules, d: Draw) {
    |d.numbers| == rules.validNumbersCount
    && forall i :: 0 <= i < |d.numbers| ==> rules.InRange(d.numbers[i].value)
  }

  /** Writing a well-formed draw's numbers and reading them back gives its
      values, freshly aged zero. */
  lemma NumbersRoundTrip(rules: Rules, d: Draw, newId: nat -> Uuid)
    requires rules.Valid() && rules.validNumberMaxValue <= MaxInt64
    requires WellFormed(rules, d)
    ensures NumbersFromString(rules, NumbersAsString(d), newId).Success?
    ensures Values(NumbersFromString(rules, NumbersAsString(d), newId).value) == Values(d.numbers)
  {
    var vs := Values(d.numbers);
    assert forall i :: 0 <= i < |vs| ==> InInt64(vs[i]) by {
      forall i | 0 <= i < |vs| ensures InInt64(vs[i]) {
        assert rules.InRange(d.numbers[i].value);
      }
    }
    ParseShowInts(vs);
  }

  /** `empty()`: `validNumbersCount` placeholder numbers, index 0, dated now.
      The loop `0...validNumbersCount-1` traps for a count below one. */
  method Empty(rules: Rules, now: Date) returns (d: Draw)
    requires rules.validNumbersCount >= 1
    ensures d.idx == 0 && d.date == now
    ensures |d.numbers| == rules.validNumbersCount
    ensures forall i :: 0 <= i < |d.numbers| ==> d.numbers[i].value == 0 && d.numbers[i].age.None?
  {
    var numbers: seq<Number> := [];
    for i := 0 to rules.validNumbersCount
      invariant |numbers| == i
      invariant forall k :: 0 <= k < i ==> numbers[k].value == 0 && numbers[k].age.None?
    {
      var id: Uuid := *;
      numbers := numbers + [Numbers.Empty(id)];
    }
    d := Draw(0, now, numbers);
  }

  /** One line of a results file. The identifier is the first component with
      surrounding punctuation trimmed; unlike `numbersFromString` the values
      are not range checked. */
  function ParseLine(rules: Rules, line: string, parseDate: string -> Option<Date>): (r: Result<LineData, DataParsingError>)
    ensures r == Failure(EmptyLine) <==> line == ""
    ensures r == Failure(MissingComponent) <==> line != "" && |Split(line, IsWhitespace)| != 3
    ensures r == Failure(WrongComponent) <==>
      var cs := Split(line, IsWhitespace);
      line != "" && |cs| == 3 && (ParseInt(TrimPunctuation(cs[0])).None? || parseDate(cs[1]).None?)
    ensures r == Failure(WrongLineNumbersCount) <==>
      var cs := Split(line, IsWhitespace);
      line != "" && |cs| == 3 && ParseInt(TrimPunctuation(cs[0])).Some? && parseDate(cs[1]).Some?
      && |ParseInts(Split(cs[2], IsComma))| != rules.validNumbersCount
    ensures r.Success? ==>
      var cs := Split(line, IsWhitespace);
      |cs| == 3 && ParseInt(TrimPunctuation(cs[0])).Some? && parseDate(cs[1]).Some?
      && r.value == LineData(ParseInt(TrimPunctuation(cs[0])).value, parseDate(cs[1]).value,
                             ParseInts(Split(cs[2], IsComma)))
    ensures r.Success? ==> |r.value.values| == rules.validNumbersCount
  {
    if line == "" then Failure(EmptyLine)
    else
      var components := Split(line, IsWhitespace);
      if |components| != 3 then Failure(MissingComponent)
      else
        var id := ParseInt(TrimPunctuation(components[0]));
        var date := parseDate(components[1]);
        if id.None? || date.None? then Failure(WrongComponent)
        else
          var values := ParseInts(Split(components[2], IsComma));
          if |values| != rules.validNumbersCount then Failure(WrongLineNumbersCount)
          else Success(LineData(id.value, date.value, values))
  }

  /** A line as the results files write it: `"<idx>. <date> <n1>,<n2>,..."`. */
  function FormatLine(idx: nat, dateText: string, values: seq<int>): string {
    Join([ShowNat(idx) + ".", dateText, Join(ShowInts(values), ',')], ' ')
  }

  lemma FormattedColumns(idx: nat, dateText: string, values: seq<int>)
    requires Avoids(dateText, IsWhitespace)
    ensures Split(FormatLine(idx, dateText, values), IsWhitespace)
            == [ShowNat(idx) + ".", dateText, Join(ShowInts(values), ',')]
  {
    var numbering := ShowNat(idx) + ".";
    var parts := ShowInts(values);
    forall i | 0 <= i < |parts| ensures Avoids(parts[i], IsWhitespace) {
      ShowIntChars(values[i]);
    }
    JoinAvoids(parts, ',', IsWhitespace);
    assert Avoids(numbering, IsWhitespace) by {
      forall k | 0 <= k < |numbering| ensures !IsWhitespace(numbering[k]) {
        if k < |numbering| - 1 {
          assert numbering[k] == ShowNat(idx)[k];
        }
      }
    }
    SplitJoin([numbering, dateText, Join(parts, ',')], ' ', IsWhitespace);
  }

  lemma FormattedNumbers(values: seq<int>)
    requires |values| >= 1
    requires forall i :: 0 <= i < |values| ==> InInt64(values[i])
    ensures ParseInts(Split(Join(ShowInts(values), ','), IsComma)) == values
  {
    var parts := ShowInts(values);
    forall i | 0 <= i < |parts| ensures Avoids(parts[i], IsComma) {
      ShowIntChars(values[i]);
    }
    SplitJoin(parts, ',', IsComma);
    ParseShowInts(values);
  }

  lemma FormattedId(idx: nat)
    requires idx <= MaxInt64
    ensures ParseInt(TrimPunctuation(ShowNat(idx) + ".")) == Some(idx)
  {
    TrimNumbering(idx);
    DigitsValueShowNat(idx);
  }

  /** Every well-formed line of a results file reads back as the draw it
      describes: the numbering dot is trimmed off the identifier, the date is
      whatever the formatter makes of its column, and the numbers are taken
      in order. */
  lemma ParseFormattedLine(rules: Rules, idx: nat, dateText: string, date: Date, values: seq<int>,
                           parseDate: string -> Option<Date>)
    requires idx <= MaxInt64
    requires parseDate(dateText) == Some(date) && Avoids(dateText, IsWhitespace)
    requires |values| == rules.validNumbersCount >= 1
    requires forall i :: 0 <= i < |values| ==> InInt64(values[i])
    ensures ParseLine(rules, FormatLine(idx, dateText, values), parseDate) == Success(LineData(idx, date, values))
  {
    var line := FormatLine(idx, dateText, values);
    var components := Split(line, IsWhitespace);
    FormattedColumns(idx, dateText, values);
    assert line != "" by {
      assert |components| != 1;
    }
    FormattedId(idx);
    assert ParseInts(Split(components[2], IsComma)) == values by {
      FormattedNumbers(values);
    }
  }

  /** The draw a parsed line becomes: its numbers aged zero. */
  predicate Represents(d: Draw, data: LineData) {
    d.idx == data.idx && d.date == data.date && Values(d.numbers) == data.values
    && forall i :: 0 <= i < |d.numbers| ==> d.numbers[i].age == Some(0)
  }

  /** The line parser of a file whose draws follow `rules`. */
  function LineParser(rules: Rules, parseDate: string -> Option<Date>): string -> Result<LineData, DataParsingError> {
    line => ParseLine(rules, line, parseDate)
  }

  /** The lines read in order by `parse`: the data of every line, or the error
      of the first line that does not parse. */
  function ReadAll(parse: string -> Result<LineData, DataParsingError>, lines: seq<string>): (r: Result<seq<LineData>, DataParsingError>)
    ensures r.Success? ==> |r.value| == |lines|
  {
    if lines == [] then Success([])
    else
      match ReadAll(parse, lines[..|lines| - 1])
      case Failure(e) => Failure(e)
      case Success(data) =>
        match parse(lines[|lines| - 1])
        case Failure(e) => Failure(e)
        case Success(d) => Success(data + [d])
  }

  /** Once a prefix of the file fails to read, the whole file fails with the
      same error: later lines are never looked at. */
  lemma {:induction false} ReadAllStopsAtFailure(parse: string -> Result<LineData, DataParsingError>, lines: seq<string>, k: nat)
    requires k <= |lines|
    requires ReadAll(parse, lines[..k]).Failure?
    ensures ReadAll(parse, lines) == ReadAll(parse, lines[..k])
    decreases |lines| - k
  {
    if k < |lines| {
      assert lines[..k + 1][..k] == lines[..k];
      ReadAllStopsAtFailure(parse, lines, k + 1);
    } else {
      assert lines[..k] == lines;
    }
  }

  /** A successful read holds, at each position, what that line parses to. */
  lemma {:induction false} ReadAllLines(parse: string -> Result<LineData, DataParsingError>, lines: seq<string>)
    requires ReadAll(parse, lines).Success?
    ensures forall i :: 0 <= i < |lines| ==> parse(lines[i]) == Success(ReadAll(parse, lines).value[i])
  {
    if lines != [] {
      var front := lines[..|lines| - 1];
      var all := ReadAll(parse, lines).value;
      var parsedFront := ReadAll(parse, front);
      var last := parse(lines[|lines| - 1]);
      assert parsedFront.Success? && last.Success?;
      assert all == parsedFront.value + [last.value];
      ReadAllLines(parse, front);
      forall i | 0 <= i < |lines|
        ensures parse(lines[i]) == Success(all[i])
      {
        if i < |lines| - 1 {
          assert lines[i] == front[i] && all[i] == parsedFront.value[i];
        }
      }
    }
  }

  /** `values.map { Number(value: $0, age: 0) }`, each with a fresh `UUID`. */
  method AgedZero(values: seq<int>) returns (numbers: seq<Number>)
    ensures Values(numbers) == values
    ensures forall i :: 0 <= i < |numbers| ==> numbers[i].age == Some(0)
  {
    numbers := [];
    var k := 0;
    while k < |values|
      invariant 0 <= k <= |values| && |numbers| == k
      invariant forall j :: 0 <= j < k ==> numbers[j].value == values[j] && numbers[j].age == Some(0)
    {
      var id: Uuid := *;
      numbers := numbers + [Number(id, values[k], Some(0))];
      k := k + 1;
    }
  }

  /** The read loop, for any line parser. */
  method ReadLines(parse: string -> Result<LineData, DataParsingError>, lines: seq<string>)
    returns (r: Result<seq<Draw>, DataParsingError>)
    ensures r.Failure? <==> ReadAll(parse, lines).Failure?
    ensures r.Failure? ==> r.error == ReadAll(parse, lines).error
    ensures r.Success? ==>
      |r.value| == |lines|
      && forall i :: 0 <= i < |lines| ==> Represents(r.value[i], ReadAll(parse, lines).value[i])
  {
    var results: seq<Draw> := [];
    ghost var data: seq<LineData> := [];
    var i := 0;
    while i < |lines|
      invariant 0 <= i <= |lines| && |results| == i
      invariant ReadAll(parse, lines[..i]) == Success(data)
      invariant forall j :: 0 <= j < i ==> Represents(results[j], data[j])
    {
      var parsed := parse(lines[i]);
      assert lines[..i + 1][..i] == lines[..i];
      if parsed.Failure? {
        ReadAllStopsAtFailure(parse, lines, i + 1);
        return Failure(parsed.error);
      }
      var numbers := AgedZero(parsed.value.values);
      data := data + [parsed.value];
      results := results + [Draw(parsed.value.idx, parsed.value.date, numbers)];
      i := i + 1;
    }
    assert lines[..i] == lines;
    return Success(results);
  }

  /** `resultsFrom(lines:)`: every line parsed in order; the first line that
      does not parse stops the read with its error. */
  method ResultsFrom(rules: Rules, lines: seq<string>, parseDate: string -> Option<Date>)
    returns (r: Result<seq<Draw>, DataParsingError>)
    ensures r.Failure? <==> ReadAll(LineParser(rules, parseDate), lines).Failure?
    ensures r.Failure? ==> r.error == ReadAll(LineParser(rules, parseDate), lines).error
    ensures r.Success? ==>
      |r.value| == |lines|
      && forall i :: 0 <= i < |lines| ==> Represents(r.value[i], ReadAll(LineParser(rules, parseDate), lines).value[i])
  {
    r := ReadLines(LineParser(rules, parseDate), lines);
  }
}
