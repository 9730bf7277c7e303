// Sequences without repetitions.
module Lists {
  predicate NoRepeats<T(==)>(s: seq<T>) { forall i, j :: 0 <= i < j < |s| ==> s[i] != s[j] }

  function Members<T(==)>(s: seq<T>): set<T> { set x <- s }
}
