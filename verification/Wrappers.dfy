// Bytes, and options and results standing for the source's `Option` and `Result`.

module Wrappers {

  type byte = b: int | 0 <= b < 256

  datatype Option<+T> = None | Some(value: T)

  datatype Result<+T, +E> = Ok(value: T) | Err(error: E)

  /** The larger of a configured limit and one: the source clamps most limits this way. */
  function AtLeastOne(n: nat): (r: nat)
    ensures r >= 1
  {
    if n < 1 then 1 else n
  }

  ghost predicate Distinct<T>(s: seq<T>) {
    forall i, j :: 0 <= i < j < |s| ==> s[i] != s[j]
  }

  function Elements<T>(s: seq<T>): set<T>
  {
    set x | x in s
  }
}
