/** The Option type used for every collaborator that may raise: `None` stands
    for "the call raised an exception", `Some(v)` for a normal return. */
module Wrappers {
  datatype Option<+T> = None | Some(value: T)
}
