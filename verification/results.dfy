/**
 Python's exceptions as values.

 A raised exception becomes the `Err` case of a `Result`; a property setter that
 may raise becomes an `Assignment` that carries the object's state afterwards,
 so "the object is left unchanged" can be stated about the `Rejected` case.
 */
module Results {

  /** The built-in exception classes the modelled code raises or lets escape. */
  datatype ErrorKind =
    | ValueError
    | TypeError
    | IndexError
    | AttributeError
    | RuntimeError
    | RecursionError
    | NotImplementedError
    | StopIteration

  /** An exception object: its class, its message (`str(e)`) and its `__cause__`. */
  datatype Exception = Exception(kind: ErrorKind, message: string, cause: Cause)

  /** `__cause__` is set by `raise ... from e` and is `None` otherwise. */
  datatype Cause = NoCause | CausedBy(original: Exception)

  /** An exception raised without `from`. */
  function Error(kind: ErrorKind, message: string): Exception
  {
    Exception(kind, message, NoCause)
  }

  /** Either the value a call returns or the exception it raises. */
  datatype Result<+T> = Ok(value: T) | Err(error: Exception) {

    predicate IsFailure() {
      Err?
    }

    function PropagateFailure<U>(): Result<U>
      requires Err?
    {
      Err(error)
    }

    function Extract(): T
      requires Ok?
    {
      value
    }
  }

  /** A value that may be absent, like a Python `None` default. */
  datatype Option<+T> = None | Some(value: T)

  /** The outcome of `obj.attr = value` on an object whose setter may raise. */
  datatype Assignment<+S> = Assigned(state: S) | Rejected(state: S, error: Exception)
}
