/** A value that may be absent: an unset query parameter, an unset
    environment variable, or a token field missing from a reply. */
module Wrappers {

  datatype Option<+T> = None | Some(value: T)
}
