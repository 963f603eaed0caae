/**
 Definitions that several of the models share.
 */
module Basics {

  newtype Byte = b: int | 0 <= b < 256

  // A C string.
  type Key = s: seq<Byte> | 0 !in s

  datatype Option<+T> = None | Some(value: T)

  function One(b: bool): nat { if b then 1 else 0 }

  ghost predicate Distinct<T>(s: seq<T>) {
    forall i, j :: 0 <= i < j < |s| ==> s[i] != s[j]
  }

  // What follows i elements of a chain that ends with `end`, the null pointer usually.
  function AtOr<T>(s: seq<T>, i: nat, end: T): T {
    if i < |s| then s[i] else end
  }
}
