/** Option and the outcome of a JavaScript call that either returns or throws. */
module Wrappers {

  datatype Option<+T> = None | Some(value: T)

  /** What an awaited call yields: a value, or a thrown error carrying its
      `message` (the empty string stands for an empty or absent message). */
  datatype Outcome<+T> = Returned(value: T) | Threw(message: string)
}
