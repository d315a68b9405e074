/**
 `Triad` of Lab3_1: three numbers with no meaning beyond their position.
 */
module Triads {

  datatype Triad = Triad(a: int, b: int, c: int)

  /** `Triad.increase_by_one`: each of the three numbers goes up by one.
      Unlike `Date`, nothing is carried from one field into another. */
  function IncreaseByOne(t: Triad): (r: Triad)
    ensures r.a - t.a == 1 && r.b - t.b == 1 && r.c - t.c == 1
  {
    Triad(t.a + 1, t.b + 1, t.c + 1)
  }

  /** Subtracting one from each field, which undoes `IncreaseByOne`. */
  function DecreaseByOne(t: Triad): Triad {
    Triad(t.a - 1, t.b - 1, t.c - 1)
  }

  /** `IncreaseByOne` loses no information: it has an inverse, so distinct
      triads stay distinct. */
  lemma IncreaseByOneInvertible(t: Triad, u: Triad)
    ensures DecreaseByOne(IncreaseByOne(t)) == t
    ensures IncreaseByOne(t) == IncreaseByOne(u) ==> t == u
  {}

  lemma IncreaseByOneExample()
    ensures IncreaseByOne(Triad(1, 2, 3)) == Triad(2, 3, 4)
  {}
}
