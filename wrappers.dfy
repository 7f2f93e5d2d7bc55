/** The optional value used for the page's load outcome and for absent move handlers. */
module Wrappers {
  datatype Option<T> = None | Some(value: T)
}
