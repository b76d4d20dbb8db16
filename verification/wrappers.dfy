/** Option and Result types shared by the whole model, and the error kinds
    the modelled Java code raises (exceptions become `Err` values). */
module Wrappers {

  datatype Option<+T> = None | Some(value: T)

  /** The exceptions of the modelled code, by kind. */
  datatype Error =
    | IndexOutOfBounds            // StringIndexOutOfBoundsException, List.get on an empty list
    | NullReference               // NullPointerException on an unset field
    | FileNotFound(path: string)  // FileNotFoundException
    | JsonSyntax                  // the JSON parser rejects the text
    | InvalidResourceLink(message: string)  // the invoker's own exception
    | PollsExhausted              // the log store stayed empty for every modelled poll

  datatype Result<+T> = Ok(value: T) | Err(error: Error) {
    predicate IsFailure() { Err? }

    function PropagateFailure<U>(): Result<U>
      requires Err?
    {
      Err(error)
    }

    function Extract(): T
      requires Ok?
    {
      value
    }
  }
}
