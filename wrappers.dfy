/** A value that may be absent: an optional property of a record, or a storage
    slot that has never been written. */
module Wrappers {

  datatype Option<T> = None | Some(value: T)
}
