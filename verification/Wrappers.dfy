/** Result types and small facts shared by the modules. */
module Wrappers {
  datatype Option<+T> = None | Some(value: T)

  /** What becomes of one request: it takes effect and is answered, it never takes effect, or it
      takes effect and the answer is lost. */
  datatype Delivery = Delivered | Lost | ReplyLost

  datatype Result<+T, +E> = Ok(value: T) | Err(error: E)

  predicate NoDuplicates<T(==)>(s: seq<T>) {
    forall i, j | 0 <= i < j < |s| :: s[i] != s[j]
  }

  lemma Assoc<T>(a: seq<T>, b: seq<T>, c: seq<T>)
    ensures a + (b + c) == (a + b) + c
  {
  }
}
