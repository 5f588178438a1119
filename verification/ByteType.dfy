/** Bytes as numbers. */
module ByteType {
  type Byte = b: nat | b < 256
}
