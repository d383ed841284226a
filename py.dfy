/** The few pieces of the Python runtime that the handlers' behaviour depends on:
    the exceptions they can raise and a result type that either carries a value
    or says which exception was raised. */
module Py {

  /** The exceptions the modelled code can raise. `Unverified` is the exception
      the edge handler raises itself; `NotModelled` marks the one place where
      Python would produce a value that this model does not compute. */
  datatype Exception =
    | AttributeError     // attribute lookup on the wrong type, e.g. `None.get`
    | TypeError          // subscripting a value that does not support it
    | KeyError           // `d[k]` on a dict without key `k`
    | IndexError         // `xs[i]` with `i` out of range
    | ValueError         // a malformed argument, e.g. non-hex text for `bytes.fromhex`
    | BadSignatureError  // raised by the signature check when the signature does not match
    | Unverified         // the edge handler's own "Unverified, ..." exception
    | NotModelled        // `str()` of a JSON array or object (see README, Left out)

  /** Either the value a Python expression evaluates to, or the exception it raises. */
  datatype Result<+T> = Ok(value: T) | Raise(exc: Exception) {

    predicate IsFailure() {
      Raise?
    }

    function PropagateFailure<U>(): Result<U>
      requires Raise?
    {
      Raise(exc)
    }

    function Extract(): T
      requires Ok?
    {
      value
    }
  }

  datatype Option<+T> = None | Some(value: T)
}
