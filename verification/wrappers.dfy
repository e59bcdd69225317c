/** The nullable references of the program: a property that JSON may leave
    absent, or a string that may be null, is an `Option`. */
module Wrappers {

  datatype Option<+T> = None | Some(value: T)
}
