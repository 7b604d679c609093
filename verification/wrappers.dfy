/** The optional value used for results that may be absent: a session that
    does not resolve, a path id that does not parse, a body that cannot be read. */
module Wrappers {

  datatype Option<+T> = None | Some(value: T)
}
