/** What a reader makes of a damaged table file (src/table/format.cc, src/table/table.cc). */
module TableDamage {
  import opened Bytes
  import opened Checksums
  import opened Coding
  import opened DbFormat
  import opened BlockFormat
  import opened BlockProofs
  import opened Format
  import opened TableFormat
  import opened TableProofs
  import opened TableLookup
  import Seqs

  // ---------------------------------------------------------------- any file

  /** A file opens as a table only if it ends in the magic number and its footer leads to a sealed block. */
  lemma OpensOnlySealed(sum: Sum, file: bytes, index: bytes) returns (h: Handle)
    requires OpenTable(sum, file) == Ok(index)
    ensures |file| >= 48 && file[|file| - 8..] == Fixed(0xdb47_7524_8b80_fb57, 8)
    ensures |index| == h.size && Seqs.At(file, h.offset, Sealed(sum, index))
  {
    var input := file[|file| - FOOTER..];
    FooterDecodes(input);
    assert input[40..] == file[|file| - 8..];
    h := DecodeFooter(input).value.1;
    ReadsOnlySealed(sum, file, h, index);
  }

  /** Without the magic number at its end a file does not open. */
  lemma OpensOnlyMagic(sum: Sum, file: bytes)
    requires |file| < 48 || file[|file| - 8..] != Fixed(0xdb47_7524_8b80_fb57, 8)
    ensures OpenTable(sum, file) == Status.Corruption
  {
    if |file| >= 48 {
      var input := file[|file| - FOOTER..];
      FooterDecodes(input);
      assert input[40..] == file[|file| - 8..];
    }
  }

  /** Whatever is answered but nothing comes from a sealed block. */
  lemma AnswersOnlySealed(sum: Sum, file: bytes, index: bytes, user: bytes) returns (h: Handle, contents: bytes)
    requires GetIn(sum, file, index, user) != NotFound
    ensures |contents| == h.size && Seqs.At(file, h.offset, Sealed(sum, contents))
    ensures GetIn(sum, file, index, user) == Judge(SeekBlock(contents, user), user)
  {
    h := DecodeHandle(SeekBlock(index, user).value).value.0;
    contents := ReadBlock(sum, file, h).value;
    ReadsOnlySealed(sum, file, h, contents);
  }

  // ---------------------------------------------------------------- one block of a built table

  /** The checksum does not match what stands there. */
  ghost predicate Unsealed(sum: Sum, g: bytes, h: Handle) {
    h.offset + h.size <= |g| && !Seqs.At(g, h.offset, Sealed(sum, g[h.offset..h.offset + h.size]))
  }

  lemma UnsealedFails(sum: Sum, g: bytes, h: Handle)
    requires Unsealed(sum, g, h)
    ensures !ReadBlock(sum, g, h).Ok?
  {
    if ReadBlock(sum, g, h).Ok? {
      ReadsOnlySealed(sum, g, h, ReadBlock(sum, g, h).value);
    }
  }

  lemma GetOpened(sum: Sum, g: bytes, index: bytes, user: bytes)
    requires OpenTable(sum, g) == Ok(index)
    ensures TableGet(sum, g, user) == GetIn(sum, g, index, user)
  {
  }

  /** Where the index sends a key: to block `n`, or past the last. */
  ghost predicate SentTo(sum: Sum, blocks: seq<seq<Entry>>, user: bytes, n: nat) {
    On(IndexOf(sum, blocks), SeekBlock(BlockOf(IndexOf(sum, blocks)), user), n)
  }

  lemma IsSent(sum: Sum, blocks: seq<seq<Entry>>, user: bytes) returns (n: nat)
    requires TableFits(sum, blocks)
    ensures n <= |blocks| && SentTo(sum, blocks, user, n)
  {
    n := SeekBuilt(IndexOf(sum, blocks), user, |blocks|);
  }

  /** The file but for the bytes of block `n` and its trailer. */
  ghost predicate DamagedAt(sum: Sum, blocks: seq<seq<Entry>>, g: bytes, n: nat)
    requires n < |blocks|
  {
    var h := HandleOf(sum, blocks, n);
    Seqs.Damaged(TableFile(sum, blocks), g, h.offset, h.offset + h.size + TRAILER)
  }

  lemma {:induction false} OffsetsAscend(sum: Sum, blocks: seq<seq<Entry>>, i: nat, j: nat)
    requires i <= j <= |blocks|
    ensures Offset(sum, blocks, i) <= Offset(sum, blocks, j)
    decreases j - i
  {
    if i < j {
      Tiles(sum, blocks, i);
      OffsetsAscend(sum, blocks, i + 1, j);
    }
  }

  /** Another block stands as before. */
  lemma OthersStand(sum: Sum, blocks: seq<seq<Entry>>, g: bytes, n: nat, j: nat, h: Handle)
    requires n < |blocks| && j < |blocks| && j != n && DamagedAt(sum, blocks, g, n) && h == HandleOf(sum, blocks, j)
    ensures Seqs.At(g, h.offset, Sealed(sum, BlockOf(blocks[j])))
  {
    var f, image, h' := TableFile(sum, blocks), Image(sum, blocks), HandleOf(sum, blocks, n);
    TableParts(image, Sealed(sum, BlockOf(IndexOf(sum, blocks))), EncodeFooter(Handle(0, 0), IndexHandle(sum, blocks)));
    Tiles(sum, blocks, j);
    Tiles(sum, blocks, n);
    AtPrefix(image, f, h.offset, Sealed(sum, BlockOf(blocks[j])));
    if j < n {
      OffsetsAscend(sum, blocks, j + 1, n);
    } else {
      OffsetsAscend(sum, blocks, n + 1, j);
    }
    Seqs.AtOutside(f, g, h'.offset, h'.offset + h'.size + TRAILER, h.offset, Sealed(sum, BlockOf(blocks[j])));
  }

  /** So do the index and the footer. */
  lemma StillOpens(sum: Sum, blocks: seq<seq<Entry>>, g: bytes, n: nat)
    requires TableFits(sum, blocks) && n < |blocks| && DamagedAt(sum, blocks, g, n)
    ensures OpenTable(sum, g) == Ok(BlockOf(IndexOf(sum, blocks)))
  {
    var h := HandleOf(sum, blocks, n);
    var e := h.offset + h.size + TRAILER;
    BlockEnds(sum, blocks, n, e);
    LastFits(sum, blocks);
    OpensBehind(sum, TableFile(sum, blocks), Image(sum, blocks), BlockOf(IndexOf(sum, blocks)),
                IndexHandle(sum, blocks), g, h.offset, e);
  }

  lemma BlockEnds(sum: Sum, blocks: seq<seq<Entry>>, n: nat, e: nat)
    requires n < |blocks| && e == HandleOf(sum, blocks, n).offset + HandleOf(sum, blocks, n).size + TRAILER
    ensures e <= |Image(sum, blocks)|
  {
    Tiles(sum, blocks, n);
    OffsetBound(sum, blocks, n + 1);
  }

  lemma LastFits(sum: Sum, blocks: seq<seq<Entry>>)
    requires TableFits(sum, blocks)
    ensures HandleFits(IndexHandle(sum, blocks))
  {
    OpenBuiltTable(sum, blocks);
  }

  lemma OpensBehind(sum: Sum, file: bytes, image: bytes, index: bytes, last: Handle, g: bytes, q: nat, e: nat)
    requires HandleFits(last) && last == Handle(|image|, |index|) && e <= |image| && Seqs.Damaged(file, g, q, e)
    requires file == image + Sealed(sum, index) + EncodeFooter(Handle(0, 0), last)
    ensures OpenTable(sum, g) == Ok(index)
  {
    EndKept(file, image, Sealed(sum, index), EncodeFooter(Handle(0, 0), last), g, q, e);
    OpenFrom(sum, g, EncodeFooter(Handle(0, 0), last), last, index);
  }

  lemma EndKept(f: bytes, image: bytes, index: bytes, footer: bytes, g: bytes, q: nat, e: nat)
    requires f == image + index + footer && Seqs.Damaged(f, g, q, e) && e <= |image| && |footer| == FOOTER
    ensures |g| >= FOOTER && g[|g| - FOOTER..] == footer && Seqs.At(g, |image|, index)
  {
    TableParts(image, index, footer);
    Seqs.AtOutside(f, g, q, e, |image|, index);
    assert Seqs.At(f, |image| + |index|, footer);
    Seqs.AtOutside(f, g, q, e, |image| + |index|, footer);
  }

  lemma OpenFrom(sum: Sum, g: bytes, footer: bytes, h: Handle, index: bytes)
    requires HandleFits(h) && footer == EncodeFooter(Handle(0, 0), h) && |g| >= FOOTER && g[|g| - FOOTER..] == footer
    requires |index| == h.size && Seqs.At(g, h.offset, Sealed(sum, index))
    ensures OpenTable(sum, g) == Ok(index)
  {
    FooterRoundTrip(Handle(0, 0), h);
    ReadSealed(sum, g, h, index);
  }

  /** A table changed only in its index block and trailer, so that the checksum no longer matches, does not open. */
  lemma IndexDamaged(sum: Sum, blocks: seq<seq<Entry>>, g: bytes)
    requires TableFits(sum, blocks)
    requires var h := IndexHandle(sum, blocks);
      Seqs.Damaged(TableFile(sum, blocks), g, h.offset, h.offset + h.size + TRAILER) && Unsealed(sum, g, h)
    ensures !OpenTable(sum, g).Ok?
  {
    var h := IndexHandle(sum, blocks);
    LastFits(sum, blocks);
    FooterRoundTrip(Handle(0, 0), h);
    FooterBehind(Image(sum, blocks), Sealed(sum, BlockOf(IndexOf(sum, blocks))), EncodeFooter(Handle(0, 0), h), g,
                 h.offset, h.offset + h.size + TRAILER);
    UnsealedFails(sum, g, h);
  }

  lemma FooterBehind(image: bytes, index: bytes, footer: bytes, g: bytes, q: nat, e: nat)
    requires Seqs.Damaged(image + index + footer, g, q, e) && e <= |image| + |index| && |footer| == FOOTER
    ensures |g| >= FOOTER && g[|g| - FOOTER..] == footer
  {
    var f := image + index + footer;
    assert Seqs.At(f, |image| + |index|, footer);
    Seqs.AtOutside(f, g, q, e, |image| + |index|, footer);
  }

  lemma HandleRead(sum: Sum, blocks: seq<seq<Entry>>, j: nat, h: Handle)
    requires TableFits(sum, blocks) && NonEmpty(blocks) && j < |blocks| && h == HandleOf(sum, blocks, j)
    ensures var found := DecodeHandle(IndexOf(sum, blocks)[j].value); found.Some? && found.value.0 == h
  {
    IndexAt(sum, blocks, j);
    TableParts(Image(sum, blocks), Sealed(sum, BlockOf(IndexOf(sum, blocks))),
               EncodeFooter(Handle(0, 0), IndexHandle(sum, blocks)));
    Tiles(sum, blocks, j);
    OffsetBound(sum, blocks, j + 1);
    Seqs.Nil(EncodeHandle(h));
    HandleRoundTrip(h, []);
  }

  /** A key sent to the damaged block is not found. */
  lemma LostInside(sum: Sum, blocks: seq<seq<Entry>>, g: bytes, n: nat, user: bytes, h: Handle)
    requires TableFits(sum, blocks) && NonEmpty(blocks) && n < |blocks| && h == HandleOf(sum, blocks, n)
    requires SentTo(sum, blocks, user, n) && !ReadBlock(sum, g, h).Ok?
    ensures GetIn(sum, g, BlockOf(IndexOf(sum, blocks)), user) == NotFound
  {
    HandleRead(sum, blocks, n, h);
  }

  /** A key sent elsewhere is answered as before. */
  lemma KeptOutside(sum: Sum, blocks: seq<seq<Entry>>, g: bytes, n: nat, user: bytes, j: nat)
    requires TableFits(sum, blocks) && NonEmpty(blocks) && n < |blocks| && DamagedAt(sum, blocks, g, n)
    requires SentTo(sum, blocks, user, j) && j != n && j <= |blocks|
    ensures GetIn(sum, g, BlockOf(IndexOf(sum, blocks)), user)
         == GetIn(sum, TableFile(sum, blocks), BlockOf(IndexOf(sum, blocks)), user)
  {
    var index, f := IndexOf(sum, blocks), TableFile(sum, blocks);
    if j == |blocks| {
      GetPast(sum, g, index, user, j);
      GetPast(sum, f, index, user, j);
    } else {
      var h := HandleOf(sum, blocks, j);
      HandleRead(sum, blocks, j, h);
      OthersStand(sum, blocks, g, n, j, h);
      ReadSealed(sum, g, h, BlockOf(blocks[j]));
      ReadDataBlock(sum, blocks, j);
      GetAt(sum, g, index, user, j, BlockOf(blocks[j]));
      GetAt(sum, f, index, user, j, BlockOf(blocks[j]));
    }
  }

  /** A table changed only inside one data block and its trailer, so that the checksum no longer matches: keys that
      the index sends there are not found, and every other key is answered as before. */
  lemma BlockDamaged(sum: Sum, blocks: seq<seq<Entry>>, g: bytes, n: nat, user: bytes)
    requires TableFits(sum, blocks) && NonEmpty(blocks) && n < |blocks| && DamagedAt(sum, blocks, g, n)
    requires Unsealed(sum, g, HandleOf(sum, blocks, n))
    ensures SentTo(sum, blocks, user, n) ==> TableGet(sum, g, user) == NotFound
    ensures !SentTo(sum, blocks, user, n) ==> TableGet(sum, g, user) == TableGet(sum, TableFile(sum, blocks), user)
  {
    var h := HandleOf(sum, blocks, n);
    StillOpens(sum, blocks, g, n);
    GetOpened(sum, g, BlockOf(IndexOf(sum, blocks)), user);
    OpenBuiltTable(sum, blocks);
    GetOpened(sum, TableFile(sum, blocks), BlockOf(IndexOf(sum, blocks)), user);
    if SentTo(sum, blocks, user, n) {
      UnsealedFails(sum, g, h);
      LostInside(sum, blocks, g, n, user, h);
    } else {
      var j := IsSent(sum, blocks, user);
      KeptOutside(sum, blocks, g, n, user, j);
    }
  }
}
