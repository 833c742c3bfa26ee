/** The byte type shared by every module: Go's byte (uint8). */
module Bytes {
  type byte = bv8
}
