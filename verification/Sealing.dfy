/** Predicates that are always true.  A predicate P of many parts is locked when it is
    written as forall x :: Key(x) ==> P: a proof that needs its parts states Key(0), and
    one that only hands it on does not, and stays small. */
module Sealing {
  ghost predicate Key(x: int) { true }

  ghost predicate Seal(x: int) { true }

  ghost predicate Turn(x: int) { true }

  /** A lock for one range only. */
  ghost predicate Door(x: int, lo: int, hi: int) { true }
}
