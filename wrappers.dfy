/** Option and Result values, and the Python exceptions the modelled code raises. */
module Wrappers {

  datatype Option<+T> = None | Some(value: T)

  datatype Result<+T, +E> = Ok(value: T) | Err(error: E)

  /** The exception kinds that escape from the modelled code. `ModelFailure` stands for
      whatever a language-model backend raises; the engine passes it on unchanged. */
  datatype PyError =
    | IndexError
    | KeyError
    | TypeError
    | ValueError(message: string)
    | AssertionError
    | AttributeError
    | ModelFailure(message: string)
}
