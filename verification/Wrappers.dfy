/** What the queues return. */
module Wrappers {
  datatype Option<+T> = None | Some(value: T)
}
