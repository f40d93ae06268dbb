/** Bytes and digests. */
module Content {
  type Byte = x: int | 0 <= x < 256
  type Bytes = seq<Byte>

  datatype Digest = Digest(hash: string, size: int)
}
