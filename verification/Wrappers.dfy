/** The optional value used wherever the agent has a pointer that may be nil or a map lookup that may miss. */
module Wrappers {
  datatype Option<+T> = None | Some(value: T)
}
