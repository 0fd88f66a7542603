/** The string handling the draw-file parser relies on: Foundation's
    `components(separatedBy:)`, `joined(separator:)`, `trimmingCharacters(in:)`,
    Swift's failable `Int(_: String)` initialiser and integer interpolation
    `"\(n)"`. Strings are sequences of Unicode scalars. */
module Text {
  import opened Wrappers

  const MinInt64: int := -0x8000_0000_0000_0000
  const MaxInt64: int := 0x7FFF_FFFF_FFFF_FFFF

  /** The range of Swift's 64-bit `Int`. */
  predicate InInt64(n: int) {
    MinInt64 <= n <= MaxInt64
  }

  predicate IsComma(c: char) {
    c == ','
  }

  /** `CharacterSet.whitespaces`: the space separators (general category Zs)
      and the horizontal tab. */
  predicate IsWhitespace(c: char) {
    c == '\t' || c == ' ' || c == ' ' || c == ' '
    || (' ' <= c <= ' ') || c == ' ' || c == ' ' || c == '　'
  }

  /** The ASCII members of `CharacterSet.punctuationCharacters` (general category P). */
  predicate IsPunctuation(c: char) {
    c in "!\"#%&'()*,-./:;?@[\\]_{}"
  }

  predicate IsDigit(c: char) {
    '0' <= c <= '9'
  }

  predicate AllDigits(s: string) {
    forall i :: 0 <= i < |s| ==> IsDigit(s[i])
  }

  predicate Avoids(s: string, isSep: char -> bool) {
    forall i :: 0 <= i < |s| ==> !isSep(s[i])
  }

  // ---------------------------------------------------------------------------
  // Splitting and joining

  /** `components(separatedBy:)`: the maximal runs between separators. Empty
      runs are kept, so there is always one component more than there are
      separators. */
  function Split(s: string, isSep: char -> bool): (r: seq<string>)
    ensures |r| == SeparatorCount(s, isSep) + 1
    ensures forall i :: 0 <= i < |r| ==> Avoids(r[i], isSep)
    decreases |s|
  {
    if s == [] then [""]
    else
      var rest := Split(s[1..], isSep);
      if isSep(s[0]) then [""] + rest
      else [[s[0]] + rest[0]] + rest[1..]
  }

  function SeparatorCount(s: string, isSep: char -> bool): nat
    decreases |s|
  {
    if s == [] then 0 else (if isSep(s[0]) then 1 else 0) + SeparatorCount(s[1..], isSep)
  }

  /** `joined(separator:)` with a one-character separator. */
  function Join(parts: seq<string>, sep: char): string
    decreases |parts|
  {
    if |parts| == 0 then ""
    else if |parts| == 1 then parts[0]
    else parts[0] + [sep] + Join(parts[1..], sep)
  }

  /** Joining the comma-separated components restores the string. */
  lemma {:induction false} JoinSplit(s: string)
    ensures Join(Split(s, IsComma), ',') == s
    decreases |s|
  {
    if s != [] {
      var rest := Split(s[1..], IsComma);
      JoinSplit(s[1..]);
      if !IsComma(s[0]) {
        var r := [[s[0]] + rest[0]] + rest[1..];
        assert r[1..] == rest[1..];
        if |rest| > 1 {
          assert Join(rest, ',') == rest[0] + [','] + Join(rest[1..], ',');
          assert Join(r, ',') == ([s[0]] + rest[0]) + [','] + Join(rest[1..], ',');
        }
        assert Join(r, ',') == [s[0]] + Join(rest, ',');
      } else {
        assert ([""] + rest)[1..] == rest;
      }
      assert s == [s[0]] + s[1..];
    }
  }

  /** Splitting at a separator that does not occur inside any part gives the
      parts back: `components(separatedBy:)` inverts `joined(separator:)`. */
  lemma {:induction false} SplitJoin(parts: seq<string>, sep: char, isSep: char -> bool)
    requires |parts| >= 1 && isSep(sep)
    requires forall i :: 0 <= i < |parts| ==> Avoids(parts[i], isSep)
    ensures Split(Join(parts, sep), isSep) == parts
    decreases |parts|
  {
    if |parts| == 1 {
      SplitAvoiding(parts[0], [], isSep);
      assert parts[0] + [] == parts[0];
    } else {
      SplitJoin(parts[1..], sep, isSep);
      var tail := Join(parts[1..], sep);
      SplitSeparator(tail, isSep, sep);
      SplitAvoiding(parts[0], [sep] + tail, isSep);
      var whole := Split(Join(parts, sep), isSep);
      assert Join(parts, sep) == parts[0] + ([sep] + tail);
      assert whole[0] == parts[0] + "" == parts[0];
      assert whole[1..] == ([""] + Split(tail, isSep))[1..] == parts[1..];
      assert whole == [whole[0]] + whole[1..];
    }
  }

  /** Joining parts free of `p` with a separator outside `p` gives a string free of `p`. */
  lemma {:induction false} JoinAvoids(parts: seq<string>, sep: char, p: char -> bool)
    requires !p(sep)
    requires forall i :: 0 <= i < |parts| ==> Avoids(parts[i], p)
    ensures Avoids(Join(parts, sep), p)
    decreases |parts|
  {
    if |parts| > 1 {
      JoinAvoids(parts[1..], sep, p);
      var j := parts[0] + [sep] + Join(parts[1..], sep);
      forall i | 0 <= i < |j| ensures !p(j[i]) {
        if i < |parts[0]| {
        } else if i == |parts[0]| {
        } else {
          assert j[i] == Join(parts[1..], sep)[i - |parts[0]| - 1];
        }
      }
    }
  }

  /** A prefix free of separators becomes the front of the first component. */
  lemma {:induction false} SplitAvoiding(a: string, b: string, isSep: char -> bool)
    requires Avoids(a, isSep)
    ensures Split(a + b, isSep)[0] == a + Split(b, isSep)[0]
    ensures Split(a + b, isSep)[1..] == Split(b, isSep)[1..]
    decreases |a|
  {
    if a != [] {
      assert (a + b)[0] == a[0];
      assert (a + b)[1..] == a[1..] + b;
      SplitAvoiding(a[1..], b, isSep);
      assert a == [a[0]] + a[1..];
    } else {
      assert a + b == b;
    }
  }

  lemma SplitSeparator(t: string, isSep: char -> bool, c: char)
    requires isSep(c)
    ensures Split([c] + t, isSep) == [""] + Split(t, isSep)
  {
    assert ([c] + t)[1..] == t;
  }

  // ---------------------------------------------------------------------------
  // Integers

  function DigitValue(c: char): nat
    requires IsDigit(c)
  {
    c as int - '0' as int
  }

  function DigitChar(d: nat): (c: char)
    requires d < 10
    ensures IsDigit(c) && DigitValue(c) == d
  {
    ('0' as int + d) as char
  }

  /** The value of a run of decimal digits, most significant first. */
  function DigitsValue(s: string): nat
    requires AllDigits(s)
  {
    if s == [] then 0 else DigitsValue(s[..|s| - 1]) * 10 + DigitValue(s[|s| - 1])
  }

  /** Swift's `Int(_: String)`: an optional `+` or `-` followed by at least one
      ASCII digit and nothing else, whose value fits in 64 bits. */
  function ParseInt(s: string): (r: Option<int>)
    ensures r.Some? ==> InInt64(r.value)
    ensures r.Some? ==> |s| >= 1 && (IsDigit(s[0]) || s[0] == '+' || s[0] == '-')
  {
    var negative := |s| >= 1 && s[0] == '-';
    var body := if |s| >= 1 && (s[0] == '+' || s[0] == '-') then s[1..] else s;
    if body == [] || !AllDigits(body) then None
    else
      var magnitude: int := DigitsValue(body);
      var v := if negative then 0 - magnitude else magnitude;
      if InInt64(v) then Some(v) else None
  }

  /** Decimal digits of a natural number, without leading zeros. */
  function ShowNat(n: nat): (s: string)
    ensures |s| >= 1 && AllDigits(s)
  {
    if n < 10 then [DigitChar(n)] else ShowNat(n / 10) + [DigitChar(n % 10)]
  }

  /** Integer interpolation `"\(n)"`. */
  function ShowInt(n: int): (s: string)
    ensures |s| >= 1
  {
    if n < 0 then "-" + ShowNat(-n) else ShowNat(n)
  }

  lemma {:induction false} DigitsValueShowNat(n: nat)
    ensures DigitsValue(ShowNat(n)) == n
  {
    if n >= 10 {
      var s := ShowNat(n);
      assert s[..|s| - 1] == ShowNat(n / 10);
      DigitsValueShowNat(n / 10);
    }
  }

  /** Parsing the interpolated form of any 64-bit integer gives it back. */
  lemma ParseShowInt(n: int)
    requires InInt64(n)
    ensures ParseInt(ShowInt(n)) == Some(n)
  {
    if n < 0 {
      DigitsValueShowNat(-n);
      ParseNegative(ShowNat(-n));
    } else {
      DigitsValueShowNat(n);
      ParseDigits(ShowNat(n));
    }
  }

  lemma ParseDigits(s: string)
    requires |s| >= 1 && AllDigits(s) && InInt64(DigitsValue(s))
    ensures ParseInt(s) == Some(DigitsValue(s))
  {
    assert IsDigit(s[0]);
  }

  lemma ParseNegative(s: string)
    requires |s| >= 1 && AllDigits(s) && InInt64(0 - DigitsValue(s))
    ensures ParseInt("-" + s) == Some(0 - DigitsValue(s))
  {
    assert ("-" + s)[1..] == s;
  }

  /** A decimal numeral is made of digits and a leading minus sign, so it
      contains no comma and no whitespace. */
  lemma ShowIntChars(n: int)
    ensures forall i :: 0 <= i < |ShowInt(n)| ==> IsDigit(ShowInt(n)[i]) || ShowInt(n)[i] == '-'
    ensures Avoids(ShowInt(n), IsComma) && Avoids(ShowInt(n), IsWhitespace)
  {
    var s := ShowInt(n);
    if n < 0 {
      assert forall i :: 1 <= i < |s| ==> s[i] == ShowNat(-n)[i - 1];
    }
  }

  /** `compactMap { Int($0) }`: the values of the components that parse, in order. */
  function ParseInts(parts: seq<string>): (r: seq<int>)
    ensures |r| <= |parts|
    ensures forall i :: 0 <= i < |r| ==> InInt64(r[i])
  {
    if parts == [] then []
    else
      match ParseInt(parts[0])
      case Some(v) => [v] + ParseInts(parts[1..])
      case None => ParseInts(parts[1..])
  }

  function ShowInts(ns: seq<int>): (r: seq<string>)
    ensures |r| == |ns|
    ensures forall i :: 0 <= i < |ns| ==> r[i] == ShowInt(ns[i])
  {
    if ns == [] then [] else [ShowInt(ns[0])] + ShowInts(ns[1..])
  }

  /** `compactMap { Int($0) }` after `map { "\($0)" }` is the identity. */
  lemma {:induction false} ParseShowInts(ns: seq<int>)
    requires forall i :: 0 <= i < |ns| ==> InInt64(ns[i])
    ensures ParseInts(ShowInts(ns)) == ns
  {
    if ns != [] {
      ParseShowInt(ns[0]);
      assert ShowInts(ns)[1..] == ShowInts(ns[1..]);
      ParseShowInts(ns[1..]);
    }
  }

  // ---------------------------------------------------------------------------
  // Trimming

  /** Number of leading characters satisfying `p`. */
  function LeadingCount(s: string, p: char -> bool): (k: nat)
    ensures k <= |s|
    ensures forall i :: 0 <= i < k ==> p(s[i])
    ensures k < |s| ==> !p(s[k])
  {
    if s == [] || !p(s[0]) then 0 else 1 + LeadingCount(s[1..], p)
  }

  /** Number of trailing characters satisfying `p`. */
  function TrailingCount(s: string, p: char -> bool): (k: nat)
    ensures k <= |s|
    ensures forall i :: |s| - k <= i < |s| ==> p(s[i])
    ensures k < |s| ==> !p(s[|s| - k - 1])
  {
    if s == [] || !p(s[|s| - 1]) then 0 else 1 + TrailingCount(s[..|s| - 1], p)
  }

  /** `r` is `s` with `i` characters dropped in front and some dropped at the
      back, and every dropped character satisfies `p`. */
  predicate IsTrimmedInfix(s: string, r: string, i: int, p: char -> bool) {
    0 <= i <= |s| - |r| && r == s[i..i + |r|]
    && (forall k :: 0 <= k < i ==> p(s[k]))
    && (forall k :: i + |r| <= k < |s| ==> p(s[k]))
  }

  /** `trimmingCharacters(in: .punctuationCharacters)`: the longest infix
      obtained by dropping punctuation from both ends. */
  function TrimPunctuation(s: string): (r: string)
    ensures exists i :: IsTrimmedInfix(s, r, i, IsPunctuation)
    ensures r != [] ==> !IsPunctuation(r[0]) && !IsPunctuation(r[|r| - 1])
  {
    var front := LeadingCount(s, IsPunctuation);
    var rest := s[front..];
    var back := TrailingCount(rest, IsPunctuation);
    var r := rest[..|rest| - back];
    assert r == s[front..front + |r|];
    assert IsTrimmedInfix(s, r, front, IsPunctuation);
    r
  }

  lemma DigitIsNotPunctuation(c: char)
    requires IsDigit(c)
    ensures !IsPunctuation(c)
  {
  }

  /** The identifier column `"<n>."` trims back to the numeral. */
  lemma TrimNumbering(n: nat)
    ensures TrimPunctuation(ShowNat(n) + ".") == ShowNat(n)
  {
    var digits := ShowNat(n);
    var s := digits + ".";
    DigitIsNotPunctuation(s[0]);
    DigitIsNotPunctuation(digits[|digits| - 1]);
    assert LeadingCount(s, IsPunctuation) == 0;
    assert s[0..] == s;
    assert s[..|s| - 1] == digits;
    assert TrailingCount(s, IsPunctuation) == 1 by {
      assert IsPunctuation(s[|s| - 1]);
      assert TrailingCount(digits, IsPunctuation) == 0;
    }
  }
}
