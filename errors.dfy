/** Error values and the Option/Result wrappers shared by every module.
    Go's `error` is modelled as a datatype: a freshly created error carries
    its message, `fmt.Errorf("…: %w", err)` becomes `Wrapped`, and the
    sentinel errors the code compares with `errors.Is` are constants. */
module Errors {

  datatype Option<+T> = None | Some(value: T)

  datatype Error =
    | Failure(message: string)             // errors.New / fmt.Errorf without %w
    | Wrapped(context: string, cause: Error) // fmt.Errorf("context: %w", cause)
    | NoRows                               // database/sql.ErrNoRows
    | EndOfInput                           // io.EOF from an exhausted reader
    | External(origin: string)             // an error raised inside foreign code
    | Panic(message: string)               // a Go runtime panic

  datatype Result<+T> = Ok(value: T) | Err(error: Error) {
    predicate IsFailure() { Err? }

    function PropagateFailure<U>(): Result<U>
      requires Err?
    {
      Err(error)
    }

    function Extract(): T
      requires Ok?
    {
      value
    }
  }

  /** credentials.ErrNoCredentialsFound */
  const ErrNoCredentialsFound: Error := Failure("no L402 credentials found")

  /** wallets.ErrNoWalletFound */
  const ErrNoWalletFound: Error := Failure("no wallet found")

  /** An error raised by the SQL engine (a failing statement). */
  const DatabaseFailure: Error := External("database/sql")

  /** errors.Is: `e` is `target` or wraps it, at any depth. */
  predicate Is(e: Error, target: Error) {
    e == target || (e.Wrapped? && Is(e.cause, target))
  }
}
