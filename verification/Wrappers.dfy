/** Presence-or-absence results. */
module Wrappers {
  datatype Option<+T> = None | Some(value: T)
}
