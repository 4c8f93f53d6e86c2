/** The nullable values of the source (`editingTaskId`, the result of `find`,
    the `data` of a fetch) as an explicit Some/None datatype. */
module Wrappers {

  datatype Option<+T> = None | Some(value: T)
}
