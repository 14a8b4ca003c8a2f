/** The optional value used wherever the PHP code has a nullable value (`?int`, a `find` that may miss). */
module Wrappers {

  datatype Option<+T> = None | Some(value: T)
}
