/** Small types and predicates shared by every module. */
module Prelude {
  datatype Option<+T> = None | Some(value: T)

  /** Nothing occurs twice. */
  predicate Distinct<T(==)>(xs: seq<T>) {
    forall i, j :: 0 <= i < j < |xs| ==> xs[i] != xs[j]
  }

  /** A list of the members of a set, in any order. */
  ghost predicate Lists<T(!new)>(xs: seq<T>, members: set<T>) {
    Distinct(xs) && forall x :: x in xs <==> x in members
  }

  /** No two keys hold the same value. */
  ghost predicate Unshared<K, V>(m: map<K, V>) {
    forall a, b :: a in m && b in m && a != b ==> m[a] != m[b]
  }
}
