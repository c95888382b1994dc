/** Result types shared by the readers. */
module Wrappers {

  datatype Option<+T> = None | Some(value: T) {
    predicate IsFailure() { None? }

    function PropagateFailure<U>(): Option<U>
      requires None?
    {
      None
    }

    function Extract(): T
      requires Some?
    {
      value
    }
  }

  /** A memory access, or a computation made of them: `Fault` when a byte outside the buffer is touched. */
  datatype Checked<+T> = Ok(value: T) | Fault {
    predicate IsFailure() { Fault? }

    function PropagateFailure<U>(): Checked<U>
      requires Fault?
    {
      Fault
    }

    function Extract(): T
      requires Ok?
    {
      value
    }
  }
}
