/** Optional values, the exceptions the reader library raises, and a result type that
    carries either a value or one of those exceptions. */
module Results {

  datatype Option<T> = None | Some(value: T)

  /** The kinds of exception a reader operation can end with.
      - ReaderError: an RfidReaderException;
      - TransponderError: a transponder exception (an error reported by the tag, not the reader);
      - Timeout: a TimeoutError;
      - Fault: a Python error the library does not catch (IndexError, ValueError, KeyError,
        UnboundLocalError), raised by malformed device output. */
  datatype Error =
    | ReaderError(msg: string)
    | TransponderError(msg: string)
    | Timeout(msg: string)
    | Fault(msg: string)

  /** The errors an `except RfidReaderException` handler catches: the library's own. A
      transponder error is treated as a kind of reader error everywhere in the model. */
  predicate IsReaderException(e: Error)
  {
    e.ReaderError? || e.TransponderError?
  }

  datatype Result<T> = Ok(value: T) | Err(error: Error) {
    predicate IsFailure() { Err? }
    function PropagateFailure<U>(): Result<U> requires Err? { Err(error) }
    function Extract(): T requires Ok? { value }
  }

  /** An outcome without a value: the operation returned normally or raised. */
  datatype Outcome = Done | Raise(error: Error)
}
