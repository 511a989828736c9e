/** An optional value, shared by the caret walk and the text decoders. */
module Wrappers {

  datatype Option<T> = None | Some(value: T)
}
