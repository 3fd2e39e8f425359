/**
  Failure-compatible wrappers shared by every module of the model.

  The original program reports failures by throwing C++ exceptions
  (`std::out_of_range` from `.at()`, nlohmann type errors) or by undefined
  behaviour (dereferencing a null `unique_ptr`). The model turns each of
  those into an explicit `Err` value, so that a precondition never has to
  exclude an input the program accepts.
 */
module Results {

  datatype Option<+T> = None | Some(value: T)

  /** Why an operation did not produce a value. */
  datatype Error =
    | EmptyHitSet                              // `.at(0)` on an empty hit vector
    | UnknownChannel(mod: int, channel: int) // `.at()` past the settings grid
    | MissingKey(key: string)                   // a channel object lacks a key
    | WrongType(key: string)                    // a JSON value of the wrong kind
    | NullBatch                                 // a null event list handed to the writer
    | NoFiles                                   // no input file matched the run
    | NoChannelSettings                         // the settings grid is empty

  datatype Result<+T> = Ok(value: T) | Err(error: Error) {

    predicate IsFailure() {
      Err?
    }

    function PropagateFailure<U>(): Result<U>
      requires Err?
    {
      Err(error)
    }

    function Extract(): T
      requires Ok?
    {
      value
    }
  }
}
