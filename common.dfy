/** Result and option types for the error paths of the helpers and decoders. */
module Wrappers {

  datatype Option<T> = None | Some(value: T)

  datatype Result<T, E> = Ok(value: T) | Err(error: E)

  /** The outcome of an operation that returns nothing: it either completes or raises. */
  datatype Outcome<E> = Pass | Fail(error: E)
}

/** The exceptions the modelled Python code can raise, one constructor per cause. */
module Errors {

  datatype Error =
    /** `KeyError`: a dictionary was indexed with a key it does not hold. */
    | KeyError(key: string)
    /** `IndexError`: a tensor element past its end was written. */
    | IndexError(index: int)
    /** `ZeroDivisionError`: an integer floor division by zero. */
    | ZeroDivisionError
    /** `ValueError` raised by a decoder constructor for an unsupported `--model` option. */
    | InvalidModelName(model: string)
    /** `ValueError` raised by `nn.Dropout` for a dropout probability outside [0, 1]. */
    | InvalidDropout(rate: real)
    /** `ValueError` raised by numpy when a vector cannot be broadcast into a table row. */
    | BroadcastError(vectorLength: nat, rowWidth: nat)
    /** `RuntimeError` raised by torch for `max()` of a tensor with no elements. */
    | EmptyTensorMax
    /** `RuntimeError` raised by torch when `copy_` is given a table of another shape. */
    | CopyShapeMismatch
}
