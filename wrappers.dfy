/** Failure-carrying wrappers shared by every module of the model. */
module Wrappers {

  datatype Option<+T> = None | Some(value: T)

  /** The value of a computation that either returns or raises. */
  datatype Result<+T, +E> = Ok(value: T) | Err(error: E)

  /** The outcome of a call that returns nothing (a Python `-> None`) or raises. */
  datatype Outcome<+E> = Pass | Fail(error: E)
}

/**
 * The exceptions the modelled code raises. All but the last are Python's
 * built-in exceptions, listed by their own names. `IncompatibleModuleError`
 * is declared in src/errors.py, next to `BotBaseException`,
 * `ModuleException` and `ModuleNotFound`, which the modelled code never raises.
 */
module Errors {

  datatype Error =
    | ValueError
    | TypeError
    | KeyError
    | IndexError
    /** Raised when code names an attribute that does not exist, including the
        exception classes that src/errors.py never declares. */
    | AttributeError
    | UnicodeDecodeError
    | FileNotFoundError
    | IncompatibleModuleError
}
