/** What every other module uses: optional values, results, 64-bit words, and sequences as sets. */
module Basics {
  datatype Option<+T> = None | Some(value: T)

  datatype Result<+T, +E> = Ok(value: T) | Err(error: E)

  /** One more than the largest 64-bit unsigned integer. */
  const WORD: nat := 0x1_0000_0000_0000_0000

  function Elements<T>(s: seq<T>): set<T> {
    set x | x in s
  }

  ghost predicate NoDup<T>(s: seq<T>) {
    forall i, j :: 0 <= i < j < |s| ==> s[i] != s[j]
  }
}
