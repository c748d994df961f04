/** Checksums of a type byte and a payload, as log fragments and table blocks carry them. */
module Checksums {
  import opened Bytes
  import opened Coding

  type u32 = n: nat | n < U32

  /** The masked checksum. What is proved of logs and tables holds whatever this function is. */
  type Sum = (byte, bytes) -> u32
}
