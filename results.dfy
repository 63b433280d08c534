/** Option, Result and the error conditions raised by the codec and by the
    Node runtime calls it makes. */
module Results {

  datatype Option<+T> = None | Some(value: T)

  /** The exceptions the core can throw.  Each one aborts the whole
      encode or decode; nothing is salvaged. */
  datatype Error =
    | SizeNegative              // "Sizes must be positive"
    | SizeTooLarge              // "Can not encode size; too large"
    | OutOfRange                // Node's range check in writeUInt*/readUInt*/read*BE
    | UnexpectedEnd             // "Unexpected end of stream"
    | InvalidSize(lead: int)    // "Invalid size encountered"
    | UnknownCode(code: int)    // "Unknown code"
    | InvalidType               // "Invalid type"
    | TypeError                 // a JavaScript TypeError (Object.keys(undefined), getTime of a non-Date)
    | NotModelled(what: string) // an implicit JavaScript coercion this model does not follow

  datatype Result<+T> = Ok(value: T) | Err(error: Error)

  /** The outcome of a method that only has effects. */
  datatype Outcome = Pass | Fail(error: Error)
}
