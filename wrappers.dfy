/** Option: the codec's "absent" outcome (no hash, no aspect ratio, no alpha). */
module Wrappers {

  datatype Option<+T> = None | Some(value: T)
}
