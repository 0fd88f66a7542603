/** A number of a published draw: its identity, its value and, once the aging
    pass has run, its age (how many draws ago it last came up). */
module Numbers {
  import opened Wrappers
  import opened Sorting

  /** A `UUID`; fresh identifiers are modelled as arbitrary naturals. */
  type Uuid = nat

  datatype Number = Number(id: Uuid, value: int, age: Option<int>)

  /** The number's `<`: a number ranks below another when its value is
      larger, so an ascending sort lists the values from highest to lowest. */
  predicate Less(a: Number, b: Number) {
    a.value > b.value
  }

  /** The placeholder number: value zero, no age. */
  function Empty(id: Uuid): (n: Number)
    ensures n.value == 0 && n.age.None?
    ensures n.id == id
  {
    Number(id, 0, None)
  }

  /** Equality is structural over id, value and age: two numbers with the
      same value but different identifiers are different numbers. */
  lemma EqualityCoversId(a: Number, b: Number)
    ensures a == b <==> a.id == b.id && a.value == b.value && a.age == b.age
    ensures a.value == b.value && a.id != b.id ==> a != b
  {
  }

  /** The sort key under which `SortBy` agrees with `Less`. */
  function Descending(n: Number): int {
    -n.value
  }

  /** `Less` is a strict weak order, so sorting by it is well defined:
      irreflexive, transitive, and incomparability (equal values) is an
      equivalence. */
  lemma LessIsStrictWeakOrder(a: Number, b: Number, c: Number)
    ensures !Less(a, a)
    ensures Less(a, b) ==> !Less(b, a)
    ensures Less(a, b) && Less(b, c) ==> Less(a, c)
    ensures !Less(a, b) && !Less(b, a) && !Less(b, c) && !Less(c, b) ==> !Less(a, c) && !Less(c, a)
  {
  }

  /** Sorting by `Descending` is sorting by `<`: no later element ranks
      below an earlier one, i.e. the values do not increase. */
  lemma SortedDescendingIsSortedByLess(s: seq<Number>)
    ensures SortedBy(s, Descending) <==> forall i, j :: 0 <= i < j < |s| ==> !Less(s[j], s[i])
    ensures SortedBy(s, Descending) <==> forall i, j :: 0 <= i < j < |s| ==> s[i].value >= s[j].value
  {
    if SortedBy(s, Descending) {
      forall i, j | 0 <= i < j < |s| ensures s[i].value >= s[j].value {
        assert Descending(s[i]) <= Descending(s[j]);
      }
    }
  }
}
