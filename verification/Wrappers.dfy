/** The one result type every step function of the model returns: the next state, or `None` when the
    step cannot happen in the given state. */
module Wrappers {
  datatype Option<+T> = None | Some(value: T)
}
