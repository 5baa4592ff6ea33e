/** What several components need. */
module Wrappers {
  const TWO_TO_32: nat := 0x1_0000_0000

  datatype Option<+T> = None | Some(value: T)

  ghost predicate NoDup<T>(s: seq<T>) {
    forall i, j :: 0 <= i < j < |s| ==> s[i] != s[j]
  }

  /** A fact that is stated under `forall u {:trigger Looking(u)} :: Looking(u) ==> ...` is out of the verifier's sight
      until Looking is asserted of something: long proofs carry such facts along without looking into them. */
  ghost predicate Looking(u: int) { true }
}
