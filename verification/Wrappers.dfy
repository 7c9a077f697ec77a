/** The error-carrying types of the engine. */
module Wrappers {

  datatype Option<+T> = None | Some(value: T)

  /** The failure classes of `CoreError` and `KeriError`, without their message text. */
  datatype Error =
    | Crypto
    | Json
    | Cbor
    | MsgPack
    | UnexpectedIlk
    | MissingField(name: string)
    | SaidMismatch
    | OutOfOrder(expected: nat, got: nat)
    | ThresholdNotMet
    | InvalidPrefix
    | InvalidVersion
    | ParseError
    | Validation
    | Database
    | Config
    | NotFound
    | AlreadyExists

  datatype Result<+T> = Ok(value: T) | Err(error: Error) {

    predicate IsFailure() {
      Err?
    }

    function PropagateFailure<U>(): Result<U>
      requires Err?
    {
      Err(error)
    }

    function Extract(): T
      requires Ok?
    {
      value
    }
  }

  function OkOr<T>(o: Option<T>, error: Error): Result<T> {
    match o
    case Some(v) => Ok(v)
    case None => Err(error)
  }

  function Need(condition: bool, error: Error): Result<()> {
    if condition then Ok(()) else Err(error)
  }
}
