// What files and streams are made of.

module Bytes {
  type Byte = b: nat | b < 256
}
