/** Types that all parts share. */
module Wrappers {
  /** A possibly-null result. */
  datatype Option<+T> = None | Some(value: T)

  type Bytes = seq<bv8>
}
