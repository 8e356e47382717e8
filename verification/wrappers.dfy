/** Optional values, standing in for Python's `Optional[...]` / `None`. */
module Wrappers {
  datatype Option<+T> = None | Some(value: T)
}

/** An 8-bit unsigned value, as carried on the I2C bus and in image files. */
module Bytes {
  newtype byte = b: int | 0 <= b < 256
}
