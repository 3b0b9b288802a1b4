/**
 * Failure-compatible result types shared by every solver model.
 *
 * The solvers report malformed input by raising a Python exception; the
 * model names the exception class instead, so that an error path is a value
 * a contract can talk about rather than a precondition that hides it.
 */
module Outcomes {

  /** The Python exception classes the solvers raise (explicitly or through
      indexing, dictionary lookup and `assert`). */
  datatype Error =
    | ValueError
    | IndexError
    | KeyError
    | AssertionError
    | RuntimeError
    | TypeError
    | AttributeError
    | NameError
    | ZeroDivisionError

  datatype Option<+T> = None | Some(value: T) {
    predicate IsFailure() { None? }

    function PropagateFailure<U>(): Option<U>
      requires None?
    {
      None
    }

    function Extract(): T
      requires Some?
    {
      value
    }
  }

  datatype Result<+T> = Ok(value: T) | Err(error: Error) {
    predicate IsFailure() { Err? }

    function PropagateFailure<U>(): Result<U>
      requires Err?
    {
      Err(error)
    }

    function Extract(): T
      requires Ok?
    {
      value
    }
  }

  /** A run of an unbounded loop under an iteration bound: `Ended(r)` when
      it stopped, with outcome `r`, and `Unfinished` when it would go on. */
  datatype Run<+T> = Ended(outcome: Result<T>) | Unfinished

  /** `Need(c, e)` fails with `e` unless `c` holds; used as `:- Need(...)`. */
  datatype Check = Pass | Fail(error: Error) {
    predicate IsFailure() { Fail? }

    function PropagateFailure<U>(): Result<U>
      requires Fail?
    {
      Err(error)
    }
  }

  function Need(condition: bool, error: Error): Check
  {
    if condition then Pass else Fail(error)
  }
}
