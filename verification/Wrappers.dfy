// A value that may be missing: absent columns, failed lookups, rejected requests.

module Wrappers {
  datatype Option<+T> = None | Some(value: T)
}
