/** Definitions shared by all parts. */
module Common {
  datatype Option<T> = None | Some(value: T)

  function Max(a: int, b: int): int {
    if a < b then b else a
  }

  /** Mentioning `Unfold(true)` opens a definition that is otherwise taken as a whole. */
  ghost predicate Unfold(b: bool) {
    true
  }

  ghost predicate NoDup<T>(l: seq<T>) {
    forall i, j :: 0 <= i < j < |l| ==> l[i] != l[j]
  }
}
