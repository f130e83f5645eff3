/** The optional value used for results that may be absent, such as the
    statistics of an empty list or a message that is not printed. */
module Wrappers {

  datatype Option<+T> = None | Some(value: T)
}
