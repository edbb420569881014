/** What several components say about numbers and lists. */
module Collections {

  function Min(a: int, b: int): int { if a <= b then a else b }

  function Max(a: int, b: int): int { if a >= b then a else b }

  predicate NoDup<T(==)>(list: seq<T>) {
    forall i, j :: 0 <= i < j < |list| ==> list[i] != list[j]
  }

  function Members<T>(list: seq<T>): set<T> {
    set x | x in list
  }
}
