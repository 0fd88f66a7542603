/** The newer number types: a plain drawn number, an aged number and a number
    carrying its co-occurrence weights with every other value. */
module DomainNumbers {
  import opened Wrappers

  datatype NumberError = CompareWithAgeEmpty

  /** `DrawResultNumber`: a value as read from the draw history. */
  datatype DrawResultNumber = DrawResultNumber(value: int)

  /** `DrawResultNumber.<`: ascending by value. */
  predicate DrawResultLess(a: DrawResultNumber, b: DrawResultNumber) {
    a.value < b.value
  }

  function EmptyDrawResultNumber(): (n: DrawResultNumber)
    ensures n.value == 0
  {
    DrawResultNumber(0)
  }

  /** `AgedNumber`: a value and, if known, how many draws ago it last appeared. */
  datatype AgedNumber = AgedNumber(value: int, age: Option<int>)

  /** `AgedNumber.<`: ascending by value, whatever the ages. */
  predicate AgedLess(a: AgedNumber, b: AgedNumber) {
    a.value < b.value
  }

  /** Both orders are strict orders on the value alone. */
  lemma LessIsStrictOrderByValue(a: AgedNumber, b: AgedNumber, c: AgedNumber)
    ensures !AgedLess(a, a)
    ensures AgedLess(a, b) ==> !AgedLess(b, a)
    ensures AgedLess(a, b) && AgedLess(b, c) ==> AgedLess(a, c)
    ensures AgedLess(a, b) <==> DrawResultLess(DrawResultNumber(a.value), DrawResultNumber(b.value))
  {
  }

  /** `compareByAge`: fails unless both ages are known, else compares them. */
  function CompareByAge(lhs: AgedNumber, rhs: AgedNumber): (r: Result<bool, NumberError>)
    ensures r.Failure? <==> lhs.age.None? || rhs.age.None?
    ensures r.Failure? ==> r.error == CompareWithAgeEmpty
    ensures r.Success? ==> (r.value <==> lhs.age.value < rhs.age.value)
  {
    match (lhs.age, rhs.age)
    case (Some(l), Some(r)) => Success(l < r)
    case _ => Failure(CompareWithAgeEmpty)
  }

  /** `AgedNumber.empty()`: value 0 and age 0, not "unknown". */
  function EmptyAgedNumber(): (n: AgedNumber)
    ensures n.value == 0 && n.age == Some(0)
  {
    AgedNumber(0, Some(0))
  }

  /** `BestFriendNumber`: `friendliness[k]` weighs how often value `k + 1`
      was drawn together with this one. */
  datatype BestFriendNumber = BestFriendNumber(value: int, friendliness: seq<real>)

  /** `BestFriendNumber(value:)`: no weight with any of the `max` values. */
  function NewBestFriendNumber(value: int, max: nat): (n: BestFriendNumber)
    ensures n.value == value && |n.friendliness| == max
    ensures forall k :: 0 <= k < max ==> n.friendliness[k] == 0.0
  {
    BestFriendNumber(value, seq(max, _ => 0.0))
  }

  function EmptyBestFriendNumber(max: nat): (n: BestFriendNumber)
    ensures n.value == 0 && |n.friendliness| == max
    ensures forall k :: 0 <= k < max ==> n.friendliness[k] == 0.0
  {
    NewBestFriendNumber(0, max)
  }

  /** `addFriend`: adds `factor` to the weight for `friendValue`, except that
      a number is never its own friend. Indexing by `friendValue - 1` traps
      outside the table. */
  function AddFriend(n: BestFriendNumber, friendValue: int, factor: real): (r: BestFriendNumber)
    requires friendValue == n.value || 1 <= friendValue <= |n.friendliness|
    ensures r.value == n.value && |r.friendliness| == |n.friendliness|
    ensures friendValue == n.value ==> r == n
    ensures friendValue != n.value ==> r.friendliness[friendValue - 1] == n.friendliness[friendValue - 1] + factor
    ensures forall k :: 0 <= k < |n.friendliness| && k != friendValue - 1 ==> r.friendliness[k] == n.friendliness[k]
  {
    if friendValue == n.value then n
    else n.(friendliness := n.friendliness[friendValue - 1 := n.friendliness[friendValue - 1] + factor])
  }

  /** Adding a friend twice adds both weights. */
  lemma AddFriendAccumulates(n: BestFriendNumber, friendValue: int, f: real, g: real)
    requires friendValue != n.value && 1 <= friendValue <= |n.friendliness|
    ensures AddFriend(AddFriend(n, friendValue, f), friendValue, g).friendliness[friendValue - 1]
         == n.friendliness[friendValue - 1] + f + g
  {
  }

  /** `any Number`: the three kinds held together in a draw's number list. */
  datatype AnyNumber = Drawn(d: DrawResultNumber) | Aged(a: AgedNumber) | Friend(f: BestFriendNumber)
  {
    function Value(): int {
      match this
      case Drawn(d) => d.value
      case Aged(a) => a.value
      case Friend(f) => f.value
    }

    /** `($0 as? AgedNumber)?.age`: only an aged number with a known age has one. */
    function AgeIfAged(): (r: Option<int>)
      ensures r.Some? <==> this.Aged? && this.a.age.Some?
      ensures r.Some? ==> r.value == this.a.age.value
    {
      if this.Aged? then this.a.age else None
    }
  }

  /** `array[number]` (get): the entry at index `value - 1`. */
  function At<T>(s: seq<T>, number: AnyNumber): T
    requires 1 <= number.Value() <= |s|
  {
    s[number.Value() - 1]
  }

  /** `array[number] = x` (set): replaces the entry at index `value - 1` only. */
  function UpdateAt<T>(s: seq<T>, number: AnyNumber, x: T): (r: seq<T>)
    requires 1 <= number.Value() <= |s|
    ensures |r| == |s| && r[number.Value() - 1] == x
    ensures forall k :: 0 <= k < |s| && k != number.Value() - 1 ==> r[k] == s[k]
  {
    s[number.Value() - 1 := x]
  }

  /** Reading back what was written through the same number. */
  lemma AtUpdateAt<T>(s: seq<T>, number: AnyNumber, other: AnyNumber, x: T)
    requires 1 <= number.Value() <= |s| && 1 <= other.Value() <= |s|
    ensures At(UpdateAt(s, number, x), number) == x
    ensures other.Value() != number.Value() ==> At(UpdateAt(s, number, x), other) == At(s, other)
  {
  }

  /** A draw of the newer model: its numbers may be of any of the three kinds. */
  datatype DrawResult = DrawResult(idx: int, date: int, numbers: seq<AnyNumber>)

  /** `numbers.compactMap { ($0 as? AgedNumber)?.age }` before sorting. */
  function AgedAges(d: DrawResult): (ages: seq<Option<int>>)
    ensures |ages| == |d.numbers|
    ensures forall i :: 0 <= i < |ages| ==> ages[i] == d.numbers[i].AgeIfAged()
  {
    seq(|d.numbers|, i requires 0 <= i < |d.numbers| => d.numbers[i].AgeIfAged())
  }
}
