/** Small generic helpers shared by every module of the chat relay model. */
module Wrappers {

  /** Python's `X | None`: either a value or nothing. */
  datatype Option<+T> = None | Some(value: T)

  /** No element occurs twice in `s`. */
  predicate Distinct<T(==)>(s: seq<T>)
  {
    forall i, j :: 0 <= i < j < |s| ==> s[i] != s[j]
  }
}
