/** What every part of the service shares. */
module Basics {
  /** Python's `X | None`. */
  datatype Option<+T> = None | Some(value: T)

  type Bytes = seq<int>

  /** An image's UUID, opaque. */
  type ImageId = nat
}
