/** Option and Result: Java's nullable references and thrown exceptions, JavaScript's
    undefined values and rejected promises, all become explicit values. */
module Wrappers {

  datatype Option<+T> = None | Some(value: T)

  datatype Result<+T, +E> = Ok(value: T) | Err(error: E)
}
