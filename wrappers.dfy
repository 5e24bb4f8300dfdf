/** The optional value of a nullable column or an omitted parameter. */
module Wrappers {

  datatype Option<+T> = None | Some(value: T)
}
