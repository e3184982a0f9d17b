/** A minimal Option type: the absent value of a lookup that may find nothing. */
module Wrappers {

  datatype Option<+T> = None | Some(value: T)
}
