/** Failure-compatible results shared by every module. */
module Wrappers {

  datatype Option<+T> = None | Some(value: T)

  datatype Result<+T, +E> = Ok(value: T) | Err(error: E) {
    predicate IsFailure() {
      Err?
    }

    function PropagateFailure<U>(): Result<U, E>
      requires Err?
    {
      Err(error)
    }

    function Extract(): T
      requires Ok?
    {
      value
    }
  }

  // ---- Collecting what a reader returns ----------------------------------

  /** The elements in front, then those of the result. */
  function Prepend<T, E>(front: seq<T>, r: Result<seq<T>, E>): Result<seq<T>, E> {
    if r.Ok? then Ok(front + r.value) else r
  }

  lemma PrependPrepend<T, E>(a: seq<T>, b: seq<T>, r: Result<seq<T>, E>)
    ensures Prepend(a, Prepend(b, r)) == Prepend(a + b, r)
    ensures Prepend([], r) == r
  {
    if r.Ok? {
      assert a + (b + r.value) == (a + b) + r.value;
      assert [] + r.value == r.value;
    }
  }

  /** The same for a result that carries the position after it. */
  function Carry<T, E>(front: seq<T>, r: Result<(seq<T>, nat), E>): Result<(seq<T>, nat), E> {
    if r.Ok? then Ok((front + r.value.0, r.value.1)) else r
  }

  lemma CarryCarry<T, E>(a: seq<T>, b: seq<T>, r: Result<(seq<T>, nat), E>)
    ensures Carry(a, Carry(b, r)) == Carry(a + b, r)
    ensures Carry([], r) == r
  {
    if r.Ok? {
      assert a + (b + r.value.0) == (a + b) + r.value.0;
      assert [] + r.value.0 == r.value.0;
    }
  }
}
