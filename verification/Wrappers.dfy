/** Failure-free helpers shared by every component of the model. */
module Wrappers {
  datatype Option<+T> = None | Some(value: T)

  /** Servers are compared and ordered by address only. */
  type Address = int

  /** A transport is named by the position of its creation. */
  type Transport = nat

  function Max(a: int, b: int): int { if a > b then a else b }

  function Min(a: int, b: int): int { if a < b then a else b }

  /** No element occurs at two positions. */
  ghost predicate NoDuplicates<T>(s: seq<T>) {
    forall i, j :: 0 <= i < j < |s| ==> s[i] != s[j]
  }

  ghost predicate Ascending(s: seq<int>) {
    forall i, j :: 0 <= i < j < |s| ==> s[i] <= s[j]
  }

  /** `s` with the element at index `i` left out. */
  function Drop<T>(s: seq<T>, i: nat): seq<T>
    requires i < |s|
  {
    s[..i] + s[i + 1..]
  }
}
