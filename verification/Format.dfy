/** Block handles, the table footer, and sealed blocks in a file (src/table/format.cc). */
module Format {
  import opened Bytes
  import opened Checksums
  import opened Coding
  import Seqs

  const MAGIC: nat := 0xdb4775248b80fb57
  const HANDLES: nat := 40
  const FOOTER: nat := 48
  const TRAILER: nat := 5
  const NO_COMPRESSION: byte := 0

  datatype Handle = Handle(offset: nat, size: nat)

  datatype Status<+T> = Ok(value: T) | IOError | Corruption

  // ---------------------------------------------------------------- handles and footer

  function EncodeHandle(h: Handle): bytes {
    Varint(h.offset) + Varint(h.size)
  }

  function DecodeHandle(input: bytes): Option<(Handle, bytes)> {
    var offset := GetVarint64(input);
    if offset.None? then None else
    var size := GetVarint64(offset.value.1);
    if size.None? then None else Some((Handle(offset.value.0, size.value.0), size.value.1))
  }

  predicate HandleFits(h: Handle) {
    h.offset < U64 && h.size < U64
  }

  lemma HandleRoundTrip(h: Handle, rest: bytes)
    requires HandleFits(h)
    ensures DecodeHandle(EncodeHandle(h) + rest) == Some((h, rest)) && |EncodeHandle(h)| <= 20
  {
    Seqs.Assoc(Varint(h.offset), Varint(h.size), rest);
    GetVarint64Of(h.offset, Varint(h.size) + rest);
    GetVarint64Of(h.size, rest);
  }

  /** `resize` with zeros. */
  function PadTo(b: bytes, n: nat): (r: bytes)
    ensures |r| == n
  {
    if n <= |b| then b[..n] else b + seq(n - |b|, i => 0)
  }

  function EncodeFooter(meta: Handle, index: Handle): (b: bytes)
    ensures |b| == FOOTER
  {
    PadTo(EncodeHandle(meta) + EncodeHandle(index), HANDLES) + (Fixed(MAGIC % U32, 4) + Fixed(MAGIC / U32, 4))
  }

  /** The two handles of a footer. */
  function DecodeFooter(input: bytes): Status<(Handle, Handle)> {
    if |input| < FOOTER then Corruption
    else if FromFixed(input[HANDLES..FOOTER]) != MAGIC then Corruption
    else
      var meta := DecodeHandle(input);
      if meta.None? then Corruption else
      var index := DecodeHandle(meta.value.1);
      if index.None? then Corruption else Ok((meta.value.0, index.value.0))
  }

  lemma PadToTail(b: bytes, n: nat) returns (tail: bytes)
    requires |b| <= n
    ensures PadTo(b, n) == b + tail
  {
    tail := PadTo(b, n)[|b|..];
  }

  lemma TwoHandles(meta: Handle, index: Handle, tail: bytes, input: bytes)
    requires HandleFits(meta) && HandleFits(index) && input == (EncodeHandle(meta) + EncodeHandle(index)) + tail
    ensures DecodeHandle(input) == Some((meta, EncodeHandle(index) + tail))
    ensures DecodeHandle(EncodeHandle(index) + tail) == Some((index, tail))
  {
    Seqs.Assoc(EncodeHandle(meta), EncodeHandle(index), tail);
    HandleRoundTrip(meta, EncodeHandle(index) + tail);
    HandleRoundTrip(index, tail);
  }

  lemma FooterParts(handles: bytes, magic: bytes) returns (tail: bytes)
    requires |handles| <= HANDLES && |magic| == 8
    ensures PadTo(handles, HANDLES) + magic == handles + tail
    ensures (PadTo(handles, HANDLES) + magic)[HANDLES..FOOTER] == magic
  {
    var pad := PadToTail(handles, HANDLES);
    tail := pad + magic;
    Seqs.Assoc(handles, pad, magic);
  }

  lemma MagicStored()
    ensures FromFixed(Fixed(MAGIC % U32, 4) + Fixed(MAGIC / U32, 4)) == MAGIC
  {
    FixedHalves(MAGIC);
    Fixed64RoundTrip(MAGIC);
  }

  lemma FooterRoundTrip(meta: Handle, index: Handle)
    requires HandleFits(meta) && HandleFits(index)
    ensures DecodeFooter(EncodeFooter(meta, index)) == Ok((meta, index))
  {
    HandleRoundTrip(meta, []);
    HandleRoundTrip(index, []);
    var tail := FooterParts(EncodeHandle(meta) + EncodeHandle(index), Fixed(MAGIC % U32, 4) + Fixed(MAGIC / U32, 4));
    TwoHandles(meta, index, tail, EncodeFooter(meta, index));
    MagicStored();
  }

  /** Two handles, each an offset and a size, padded to 40 bytes, and the magic number. */
  lemma FooterLaid(meta: Handle, index: Handle)
    requires HandleFits(meta) && HandleFits(index)
    ensures var b := EncodeFooter(meta, index);
      && |b| == 48 && b[40..] == Fixed(0xdb47_7524_8b80_fb57, 8)
      && (Varint(meta.offset) + Varint(meta.size)) + (Varint(index.offset) + Varint(index.size)) <= b
      && forall i :: |EncodeHandle(meta) + EncodeHandle(index)| <= i < 40 ==> b[i] == 0
  {
    HandleRoundTrip(meta, []);
    HandleRoundTrip(index, []);
    var tail := FooterParts(EncodeHandle(meta) + EncodeHandle(index), Fixed(MAGIC % U32, 4) + Fixed(MAGIC / U32, 4));
    FixedHalves(MAGIC);
  }

  lemma MagicOnly(tail: bytes, magic: nat)
    requires |tail| == 8 && magic == MAGIC
    ensures FromFixed(tail) == magic <==> tail == Fixed(magic, 8)
  {
    FixedOnto(tail);
    Fixed64RoundTrip(magic);
  }

  predicate TwoDecode(input: bytes) {
    DecodeHandle(input).Some? && DecodeHandle(DecodeHandle(input).value.1).Some?
  }

  /** Exactly what ends in the magic number and starts with two handles passes for a footer. */
  lemma FooterDecodes(input: bytes)
    requires |input| == 48
    ensures DecodeFooter(input).Ok? <==> input[40..] == Fixed(0xdb47_7524_8b80_fb57, 8) && TwoDecode(input)
    ensures !DecodeFooter(input).Ok? ==> DecodeFooter(input) == Corruption
  {
    MagicOnly(input[HANDLES..FOOTER], MAGIC);
    assert input[HANDLES..FOOTER] == input[40..];
  }

  // ---------------------------------------------------------------- sealed blocks

  /** A block followed by its type byte and its masked checksum. */
  function Sealed(sum: Sum, contents: bytes): (b: bytes)
    ensures |b| == |contents| + TRAILER
  {
    contents + [NO_COMPRESSION] + Fixed(sum(NO_COMPRESSION, contents), 4)
  }

  /** `ReadBlock`: the contents, or why they cannot be had. */
  function ReadBlock(sum: Sum, file: bytes, h: Handle): Status<bytes> {
    var end := h.offset + h.size;
    if end + TRAILER > |file| then IOError
    else if file[end] != NO_COMPRESSION then Corruption
    else if FromFixed(file[end + 1..end + TRAILER]) != sum(NO_COMPRESSION, file[h.offset..end]) then Corruption
    else Ok(file[h.offset..end])
  }

  lemma SealedParts(contents: bytes, kind: byte, crc: bytes)
    requires |crc| == 4
    ensures var b := contents + [kind] + crc; var n := |contents|;
      |b| == n + TRAILER && b[0..n] == contents && b[n] == kind && b[n + 1..n + TRAILER] == crc
  {
  }

  /** A sealed block standing in a file is read back through its handle. */
  lemma ReadSealed(sum: Sum, file: bytes, h: Handle, contents: bytes)
    requires Seqs.At(file, h.offset, Sealed(sum, contents)) && h.size == |contents|
    ensures ReadBlock(sum, file, h) == Ok(contents)
  {
    var b, n := Sealed(sum, contents), |contents|;
    SealedParts(contents, NO_COMPRESSION, Fixed(sum(NO_COMPRESSION, contents), 4));
    Seqs.AtSlice(file, h.offset, b, 0, n);
    Seqs.AtIndex(file, h.offset, b, n);
    Seqs.AtSlice(file, h.offset, b, n + 1, n + TRAILER);
    Fixed32RoundTrip(sum(NO_COMPRESSION, contents));
  }

  lemma SealedIs(contents: bytes, trailer: bytes, sealed: bytes, sum: Sum)
    requires |trailer| == TRAILER && sealed == contents + trailer && trailer[0] == NO_COMPRESSION
    requires FromFixed(trailer[1..]) == sum(NO_COMPRESSION, contents)
    ensures sealed == Sealed(sum, contents)
  {
    FixedOnto(trailer[1..]);
    assert trailer == [NO_COMPRESSION] + trailer[1..];
    Seqs.Assoc(contents, [NO_COMPRESSION], trailer[1..]);
  }

  /** Only what was sealed is read: the contents are returned exactly when a block with their type byte and checksum
      stands at the handle. */
  lemma ReadsOnlySealed(sum: Sum, file: bytes, h: Handle, contents: bytes)
    ensures ReadBlock(sum, file, h) == Ok(contents)
       <==> |contents| == h.size && Seqs.At(file, h.offset, contents + [0] + Fixed(sum(0, contents), 4))
  {
    if ReadBlock(sum, file, h) == Ok(contents) {
      var end := h.offset + h.size;
      var trailer := file[end..end + TRAILER];
      assert trailer[1..] == file[end + 1..end + TRAILER];
      SealedIs(contents, trailer, contents + trailer, sum);
      assert file[h.offset..h.offset + |contents + trailer|] == contents + trailer;
    } else if |contents| == h.size && Seqs.At(file, h.offset, Sealed(sum, contents)) {
      ReadSealed(sum, file, h, contents);
    }
  }

  /** What does not fit the file is an input error, any other failure a corruption. */
  lemma ReadFails(sum: Sum, file: bytes, h: Handle)
    ensures ReadBlock(sum, file, h) == IOError <==> h.offset + h.size + 5 > |file|
  {
  }

  /** `WriteBlock`: append a sealed block and say where it went. */
  method WriteBlock(sum: Sum, file: bytes, contents: bytes) returns (longer: bytes, h: Handle)
    ensures longer == file + Sealed(sum, contents) && h == Handle(|file|, |contents|)
    ensures ReadBlock(sum, longer, h) == Ok(contents)
  {
    h := Handle(|file|, |contents|);
    longer := file + contents;
    longer := longer + ([NO_COMPRESSION] + Fixed(sum(NO_COMPRESSION, contents), 4));
    Seqs.Assoc3(file, contents, [NO_COMPRESSION], Fixed(sum(NO_COMPRESSION, contents), 4));
    Seqs.Assoc(file + contents, [NO_COMPRESSION], Fixed(sum(NO_COMPRESSION, contents), 4));
    assert longer[|file|..|longer|] == Sealed(sum, contents);
    ReadSealed(sum, longer, h, contents);
  }
}
