/** The optional value used for a store lookup that may find nothing and for a
    decoder that may reject its input. */
module Wrappers {

  datatype Option<+T> = None | Some(value: T)
}
