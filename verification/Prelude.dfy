/** Vocabulary shared by the services: identifiers, optional values and the ways a transaction can end. */
module Prelude {

  datatype Option<+T> = None | Some(value: T)

  /** A UUID, taken as an opaque number; NIL is the all-zero uuid.Nil. */
  type Uuid = nat

  const NIL: Uuid := 0

  /**
   * How a database transaction ends once its statements have run. `Aborted` stands for any failed
   * statement or commit: nothing is kept. `AckLost` is a commit that took effect although the
   * client was told that it failed.
   */
  datatype Ending = Committed | Aborted | AckLost {
    predicate Durable() {
      !Aborted?
    }
  }

  datatype Error = NotFound | Forbidden | Unauthorized | Validation | Conflict | Database

  predicate Distinct<T(==)>(s: seq<T>) {
    forall i, j :: 0 <= i < j < |s| ==> s[i] != s[j]
  }
}

