/** Choosing an element of a non-empty set or map. The verifier does not derive the witness of a
    `:|` from `s != {}` on its own; these lemmas supply it (a separate version for integers,
    whose elements the verifier represents differently from those of a type parameter). */
module Sets {

  lemma NonEmpty<T>(s: set<T>)
    requires s != {}
    ensures exists x :: x in s
  {
    if forall x :: x !in s { assert false; }
  }

  lemma NonEmptyInts(s: set<int>)
    requires s != {}
    ensures exists x :: x in s
  {
    if forall x :: x !in s { assert false; }
  }

  lemma NonEmptyIntMap<V>(m: map<int, V>)
    requires m != map[]
    ensures exists k :: k in m
  {
    if forall k :: k !in m { assert false; }
  }
}
