/** Facts about sequences that the order lemmas of the filters share. */
module SeqFacts {

  /** Concatenation is associative. */
  lemma AppendAssoc<T>(x: seq<T>, y: seq<T>, z: seq<T>)
    ensures x + y + z == x + (y + z)
  {
  }

  /** Appending nothing changes nothing. */
  lemma AppendEmpty<T>(x: seq<T>)
    ensures x + [] == x
  {
  }

  /** The last element of `a + b` for a non-empty `b` is `b`'s, and what comes before it is
      `a` followed by the rest of `b`. */
  lemma SplitLast<T>(a: seq<T>, b: seq<T>)
    requires b != []
    ensures a + b != []
    ensures (a + b)[|a + b| - 1] == b[|b| - 1]
    ensures (a + b)[..|a + b| - 1] == a + b[..|b| - 1]
  {
  }
}
