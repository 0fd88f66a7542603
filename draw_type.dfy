/** The two games the application knows, with the rules each imposes on a draw. */
module DrawTypes {

  datatype DrawType = Lotto | MiniLotto

  /** How many numbers a draw holds and the largest number that can be drawn;
      the smallest is always 1. Every result type of the application carries
      one such pair as its static constants. */
  datatype Rules = Rules(validNumbersCount: nat, validNumberMaxValue: int)
  {
    /** A draw of distinct numbers in `1...validNumberMaxValue` can exist. */
    predicate Valid() {
      1 <= validNumbersCount <= validNumberMaxValue
    }

    predicate InRange(v: int) {
      1 <= v <= validNumberMaxValue
    }
  }

  function StringKey(t: DrawType): (k: string)
    ensures |k| >= 5
  {
    match t
    case Lotto => "lotto"
    case MiniLotto => "miniLotto"
  }

  function ValidNumbersCount(t: DrawType): (n: nat)
    ensures n >= 1
  {
    match t
    case Lotto => 6
    case MiniLotto => 5
  }

  function ValidNumberMaxValue(t: DrawType): (m: int)
    ensures m > ValidNumbersCount(t)
  {
    match t
    case Lotto => 49
    case MiniLotto => 42
  }

  /** The name of the bundled file holding a game's past draws. */
  function SourceFileName(t: DrawType): (f: string)
    ensures |f| == |StringKey(t)| + 4
    ensures f[..|StringKey(t)|] == StringKey(t)
    ensures f[|StringKey(t)|..] == ".txt"
  {
    StringKey(t) + ".txt"
  }

  function RulesOf(t: DrawType): (r: Rules)
    ensures r.Valid()
  {
    Rules(ValidNumbersCount(t), ValidNumberMaxValue(t))
  }

  /** Distinct games have distinct keys, hence distinct source files. */
  lemma StringKeyInjective(s: DrawType, t: DrawType)
    ensures StringKey(s) == StringKey(t) <==> s == t
    ensures SourceFileName(s) == SourceFileName(t) <==> s == t
  {
    if s != t {
      assert StringKey(Lotto)[1] != StringKey(MiniLotto)[1];
      assert SourceFileName(Lotto)[1] != SourceFileName(MiniLotto)[1];
    }
  }

  /** A Lotto coupon holds one number more than a Mini Lotto coupon and draws
      from a larger pool. */
  lemma LottoDominatesMiniLotto()
    ensures ValidNumbersCount(Lotto) == ValidNumbersCount(MiniLotto) + 1
    ensures ValidNumberMaxValue(Lotto) > ValidNumberMaxValue(MiniLotto)
  {
  }
}
