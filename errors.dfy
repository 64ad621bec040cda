/** Outcomes shared by the collator and the training loop: a value, or the
    exception the Python program would raise at that point. */
module Errors {

  datatype Option<T> = None | Some(value: T)

  /** The exceptions the modelled code can raise on its own inputs. */
  datatype Failure =
    | ValueError                       // unpacking an empty batch, or a ragged tensor
    | ZeroDivisionError                // `%` or `//` by a zero configuration value
    | UnboundLocalError(name: string)  // a loop variable read after a loop with no iterations

  datatype Result<T> = Ok(value: T) | Err(failure: Failure)
}
