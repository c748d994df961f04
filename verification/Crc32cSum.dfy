/** The checksum the files carry: masked CRC-32C of the type byte and the payload (src/db/log_writer.cc,
    src/table/format.cc). */
module Crc32cSums {
  import opened Bytes
  import opened Checksums
  import C = Crc32c
  import Fast = Crc32cFast

  /** An instance of `Sum`. */
  function MaskedSum(kind: byte, payload: bytes): u32 {
    C.Mask(C.Extend(C.Value([kind]), payload)) as int
  }

  /** It is the masked CRC of the type byte and the payload as one string. */
  lemma MaskedSumIs(kind: byte, payload: bytes)
    ensures MaskedSum(kind, payload) == C.Mask(C.Value([kind] + payload)) as int
  {
    C.ExtendSplit(0, [kind], payload);
  }

  /** As computed: two runs of the table-driven `Extend`. */
  method Compute(kind: byte, payload: bytes) returns (s: u32)
    ensures s == MaskedSum(kind, payload)
  {
    var crc := Fast.ExtendSliced(0, [kind]);
    crc := Fast.ExtendSliced(crc, payload);
    s := C.Mask(crc) as int;
  }

  lemma IntOfBits(b: bv32)
    ensures (b as int) as bv32 == b
  {
  }

  /** Unmasking the stored word and comparing checksums, as tables do, decides what comparing masked values decides, as
      logs do. */
  lemma UnmaskedCheck(stored: bv32, kind: byte, payload: bytes)
    ensures C.Unmask(stored) == C.Extend(C.Value([kind]), payload) <==> stored as int == MaskedSum(kind, payload)
  {
    var crc := C.Extend(C.Value([kind]), payload);
    C.MaskRoundTrip(crc);
    C.MaskRoundTrip(stored);
    IntOfBits(stored);
    IntOfBits(C.Mask(crc));
  }
}
