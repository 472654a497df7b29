/** Small result types shared by the stores, the service and the actions. */
module Wrappers {

  datatype Option<+T> = None | Some(value: T)

  /** What a JavaScript `throw` carries in this model. */
  datatype Exception =
    | Failed(message: string)   // `new Error(message)`
    | InvalidJson               // the SyntaxError of `JSON.parse(undefined)`

  /** The outcome of a call that may throw: a returned value or a thrown exception. */
  datatype Outcome<+T> = Returned(value: T) | Threw(error: Exception)
}
