module Bytes {
  /** An `unsigned char`. */
  type Byte = n: nat | n < 256
}
