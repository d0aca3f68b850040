/** Small helpers shared by the elevator model. */
module Common {

  /** A value that may be absent (Python's `Optional`). */
  datatype Option<T> = None | Some(value: T)

  /** No element occurs twice in `s`. */
  ghost predicate Distinct<T>(s: seq<T>)
  {
    forall i, j :: 0 <= i < j < |s| ==> s[i] != s[j]
  }

  /** The floor numbers of a building with `maxFloor` floors. */
  ghost predicate IsFloor(f: int, maxFloor: int)
  {
    1 <= f <= maxFloor
  }

  function Abs(x: int): int
  {
    if x < 0 then -x else x
  }

  function Min(x: int, y: int): int
  {
    if x <= y then x else y
  }
}
