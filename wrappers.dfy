/** The conventional optional value, used where the reporter's library answers
    "no value" (a string search that finds nothing, a summary with no samples). */
module Wrappers {

  datatype Option<+T> = None | Some(value: T)

}
