/** The optional value used wherever the C++ code has a nullable pointer
    or a key that may be absent. */
module Wrappers {

  datatype Option<+T> = None | Some(value: T)

}
