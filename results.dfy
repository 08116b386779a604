/** Failure-compatible wrappers shared by the whole model. A Python exception that the
    tool does not catch becomes an `Err` carrying the exception's class. */
module Results {

  datatype Option<T> = None | Some(value: T)

  /** The Python exceptions the modelled code can raise on card data. */
  datatype Failure =
    | IndexError      // a list index past the end (truncated tag, length or locator entry)
    | AttributeError  // `.get`, `.replace` or `.lower` on a value of the wrong kind
    | TypeError       // slicing a dict or `None`, or `toBytes` on text that is not hex
    | ValueError      // `binascii.unhexlify` on text that is not hex
    | NameError       // a name that is not bound where it is used

  datatype Result<T> = Ok(value: T) | Err(failure: Failure) {
    predicate IsFailure() { Err? }

    function PropagateFailure<U>(): Result<U>
      requires Err?
    {
      Err(failure)
    }

    function Extract(): T
      requires Ok?
    {
      value
    }
  }
}
