/** The failure-compatible result type used by every instruction of the model.
    An instruction that returns `Err` leaves no trace: the runtime discards
    the whole transaction, so only an `Ok` state is ever committed. */
module Results {

  /** Either the committed value or the error that rejected the instruction. */
  datatype Result<+T, +E> = Ok(value: T) | Err(error: E) {

    predicate IsFailure() {
      Err?
    }

    function PropagateFailure<U>(): Result<U, E>
      requires Err?
    {
      Err(error)
    }

    function Extract(): T
      requires Ok?
    {
      value
    }

    /** Re-labels the error, keeping a success as it is. */
    function MapErr<F>(wrap: E -> F): (r: Result<T, F>)
      ensures r.Ok? <==> Ok?
      ensures Ok? ==> r.value == value
    {
      match this
      case Ok(v) => Ok(v)
      case Err(e) => Err(wrap(e))
    }
  }

  /** `var _ :- Need(c, e);` rejects with `e` unless `c` holds. */
  function Need<E>(condition: bool, error: E): (c: Result<(), E>)
    ensures c.Ok? <==> condition
  {
    if condition then Ok(()) else Err(error)
  }
}
