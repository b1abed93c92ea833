/** Option type used for the operations that Python would abort with an exception. */
module Wrappers {

  datatype Option<+T> = None | Some(value: T)
}
