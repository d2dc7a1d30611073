/**
 * The error taxonomy of the generator (exceptions.py) and the result type
 * that carries either a value or one of those errors.
 */
module Errors {

  /** Which list of the item bank an entry belongs to. */
  datatype ItemKind = Explain | Statement

  /** Why a configuration could not be turned into an item bank. */
  datatype ConfigFault =
    | NotFound(path: string)
    | ReadFailed
    | InvalidItemFormat(kind: ItemKind, position: nat)

  /** A Python error that is not one of the generator's own. */
  datatype PythonFault =
    | NotAnObject       // the parsed document has no `.get` (AttributeError)
    | NotIterable(key: string)  // the value under `key` cannot be iterated (TypeError)
    | NotUtf8           // the file's bytes are not UTF-8 (UnicodeDecodeError, a ValueError)

  datatype Error =
    | ConfigurationError(fault: ConfigFault)
    | ValidationError
    | DocumentGenerationError(missingHeading: nat)
    | UnexpectedError(cause: PythonFault)
  {
    /** Whether this is one of the generator's own exceptions. */
    predicate IsDomainError() {
      !UnexpectedError?
    }
  }

  datatype Result<T> = Ok(value: T) | Err(error: Error)

  datatype Option<T> = None | Some(value: T)
}
