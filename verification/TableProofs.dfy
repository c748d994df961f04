/** The layout of a built table, and what a lookup in it finds. */
module TableProofs {
  import opened Bytes
  import opened Checksums
  import opened DbFormat
  import opened BlockFormat
  import opened BlockProofs
  import opened Format
  import opened TableFormat
  import Seqs

  // ---------------------------------------------------------------- blocks hold the entries, in order

  function Concat(blocks: seq<seq<Entry>>): seq<Entry> {
    if blocks == [] then [] else Concat(blocks[..|blocks| - 1]) + blocks[|blocks| - 1]
  }

  lemma ConcatAppend(blocks: seq<seq<Entry>>, data: seq<Entry>)
    ensures Concat(blocks + [data]) == Concat(blocks) + data
  {
    assert (blocks + [data])[..|blocks|] == blocks;
  }

  /** No block is empty. */
  predicate NonEmpty(blocks: seq<seq<Entry>>) {
    forall j :: 0 <= j < |blocks| ==> blocks[j] != []
  }

  lemma AddHolds(full: seq<Entry> -> bool, c: Cut, e: Entry)
    requires NonEmpty(c.blocks)
    ensures var d := AddCut(full, c, e);
      Concat(d.blocks) + d.data == Concat(c.blocks) + c.data + [e] && NonEmpty(d.blocks)
  {
    var longer := c.data + [e];
    Seqs.Assoc(Concat(c.blocks), c.data, [e]);
    ConcatAppend(c.blocks, longer);
    Seqs.Nil(Concat(c.blocks) + longer);
  }

  ghost predicate Holds(c: Cut, es: seq<Entry>) {
    Concat(c.blocks) + c.data == es && NonEmpty(c.blocks)
  }

  lemma AddKeeps(full: seq<Entry> -> bool, c: Cut, head: seq<Entry>, e: Entry, es: seq<Entry>)
    requires Holds(c, head) && es == head + [e]
    ensures Holds(AddCut(full, c, e), es)
  {
    AddHolds(full, c, e);
  }

  lemma {:induction false} CutHolds(full: seq<Entry> -> bool, es: seq<Entry>)
    ensures Holds(CutOf(full, es), es)
    decreases |es|
  {
    if es != [] {
      var n := |es| - 1;
      var head, e := es[..n], es[n];
      CutHolds(full, head);
      Seqs.SnocLast(es);
      AddKeeps(full, CutOf(full, head), head, e, es);
    }
  }

  lemma FlushHolds(c: Cut)
    requires NonEmpty(c.blocks)
    ensures Concat(FlushCut(c).blocks) == Concat(c.blocks) + c.data && NonEmpty(FlushCut(c).blocks)
  {
    ConcatAppend(c.blocks, c.data);
    Seqs.Nil(Concat(c.blocks));
  }

  /** Cutting into blocks loses, adds and reorders nothing. */
  lemma BlocksHold(es: seq<Entry>)
    ensures Concat(BlocksOf(es)) == es && NonEmpty(BlocksOf(es))
  {
    CutHolds(Full, es);
    FlushHolds(CutOf(Full, es));
  }

  /** A block that was written out because it had reached 4096 bytes, and not before. */
  predicate WrittenFull(data: seq<Entry>) {
    data != [] && |BlockOf(data)| >= 4096 > |BlockOf(data[..|data| - 1])|
  }

  predicate CutFull(c: Cut) {
    |BlockOf(c.data)| < 4096 && forall j :: 0 <= j < |c.blocks| ==> WrittenFull(c.blocks[j])
  }

  lemma AddCuts(c: Cut, e: Entry)
    requires CutFull(c)
    ensures CutFull(AddCut(Full, c, e))
  {
    assert (c.data + [e])[..|c.data|] == c.data;
  }

  lemma {:induction false} CutsFull(es: seq<Entry>)
    ensures CutFull(CutOf(Full, es))
    decreases |es|
  {
    if es != [] {
      CutsFull(es[..|es| - 1]);
      AddCuts(CutOf(Full, es[..|es| - 1]), es[|es| - 1]);
    }
  }

  /** Every block but the last reaches 4096 bytes with its last entry; the last one, too, or it stays below. */
  lemma BlocksCut(es: seq<Entry>, j: nat)
    requires j < |BlocksOf(es)|
    ensures WrittenFull(BlocksOf(es)[j]) || (j == |BlocksOf(es)| - 1 && |BlockOf(BlocksOf(es)[j])| < 4096)
  {
    CutsFull(es);
  }

  // ---------------------------------------------------------------- layout

  function Offset(sum: Sum, blocks: seq<seq<Entry>>, j: nat): nat
    requires j <= |blocks|
  {
    |Image(sum, blocks[..j])|
  }

  function HandleOf(sum: Sum, blocks: seq<seq<Entry>>, j: nat): Handle
    requires j < |blocks|
  {
    Handle(Offset(sum, blocks, j), |BlockOf(blocks[j])|)
  }

  lemma ImageStep(sum: Sum, blocks: seq<seq<Entry>>, j: nat)
    requires j < |blocks|
    ensures Image(sum, blocks[..j + 1]) == Image(sum, blocks[..j]) + Sealed(sum, BlockOf(blocks[j]))
  {
    assert blocks[..j + 1][..j] == blocks[..j];
  }

  lemma {:induction false} ImagePrefix(sum: Sum, blocks: seq<seq<Entry>>, j: nat)
    requires j <= |blocks|
    ensures Image(sum, blocks[..j]) <= Image(sum, blocks)
    decreases |blocks| - j
  {
    if j == |blocks| {
      Seqs.TakeAll(blocks);
    } else {
      ImagePrefix(sum, blocks, j + 1);
      ImageStep(sum, blocks, j);
    }
  }

  /** Blocks and trailers tile the file: each handle starts where the block before it, with its trailer, ended. */
  lemma Tiles(sum: Sum, blocks: seq<seq<Entry>>, j: nat)
    requires j < |blocks|
    ensures Offset(sum, blocks, 0) == 0
    ensures Offset(sum, blocks, j + 1) == HandleOf(sum, blocks, j).offset + HandleOf(sum, blocks, j).size + TRAILER
    ensures Seqs.At(Image(sum, blocks), Offset(sum, blocks, j), Sealed(sum, BlockOf(blocks[j])))
  {
    ImageStep(sum, blocks, j);
    ImagePrefix(sum, blocks, j + 1);
    PrefixAt(Image(sum, blocks[..j]), Sealed(sum, BlockOf(blocks[j])), Image(sum, blocks));
  }

  lemma OffsetBound(sum: Sum, blocks: seq<seq<Entry>>, j: nat)
    requires j <= |blocks|
    ensures Offset(sum, blocks, j) <= |Image(sum, blocks)|
  {
    ImagePrefix(sum, blocks, j);
  }

  lemma IndexStep(sum: Sum, blocks: seq<seq<Entry>>, j: nat)
    requires j < |blocks|
    ensures IndexOf(sum, blocks[..j + 1]) == IndexOf(sum, blocks[..j]) + [IndexEntry(sum, blocks[..j], blocks[j])]
  {
    assert blocks[..j + 1][..j] == blocks[..j];
  }

  lemma {:induction false} IndexPrefix(sum: Sum, blocks: seq<seq<Entry>>, j: nat)
    requires j <= |blocks|
    ensures IndexOf(sum, blocks[..j]) <= IndexOf(sum, blocks)
    decreases |blocks| - j
  {
    if j == |blocks| {
      Seqs.TakeAll(blocks);
    } else {
      IndexPrefix(sum, blocks, j + 1);
      IndexStep(sum, blocks, j);
    }
  }

  lemma IndexAt(sum: Sum, blocks: seq<seq<Entry>>, j: nat)
    requires j < |blocks| && NonEmpty(blocks)
    ensures IndexOf(sum, blocks)[j] == Entry(blocks[j][|blocks[j]| - 1].ikey, EncodeHandle(HandleOf(sum, blocks, j)))
  {
    IndexStep(sum, blocks, j);
    IndexPrefix(sum, blocks, j + 1);
  }

  lemma TableParts(image: bytes, index: bytes, footer: bytes)
    ensures var file := image + index + footer;
      && |file| == |image| + |index| + |footer| && file[|image| + |index|..] == footer
      && Seqs.At(file, |image|, index) && image <= file
  {
  }

  lemma AtPrefix(f: bytes, g: bytes, p: nat, a: bytes)
    requires f <= g && Seqs.At(f, p, a)
    ensures Seqs.At(g, p, a)
  {
    assert g[p..p + |a|] == f[p..p + |a|];
  }

  /** The footer leads to the index block, whose offset and size close the tiling up to the footer. */
  lemma OpenBuiltTable(sum: Sum, blocks: seq<seq<Entry>>)
    requires TableFits(sum, blocks)
    ensures OpenTable(sum, TableFile(sum, blocks)) == Ok(BlockOf(IndexOf(sum, blocks)))
    ensures IndexHandle(sum, blocks).offset + IndexHandle(sum, blocks).size + TRAILER + FOOTER
      == |TableFile(sum, blocks)|
  {
    var image, h := Image(sum, blocks), IndexHandle(sum, blocks);
    var index := Sealed(sum, BlockOf(IndexOf(sum, blocks)));
    var footer := EncodeFooter(Handle(0, 0), h);
    TableParts(image, index, footer);
    FooterRoundTrip(Handle(0, 0), h);
    ReadSealed(sum, TableFile(sum, blocks), h, BlockOf(IndexOf(sum, blocks)));
  }

  /** Each index entry's handle reads back its data block. */
  lemma ReadDataBlock(sum: Sum, blocks: seq<seq<Entry>>, j: nat)
    requires TableFits(sum, blocks) && NonEmpty(blocks) && j < |blocks|
    ensures var found := DecodeHandle(IndexOf(sum, blocks)[j].value);
      found.Some? && ReadBlock(sum, TableFile(sum, blocks), found.value.0) == Ok(BlockOf(blocks[j]))
  {
    var h, file, image := HandleOf(sum, blocks, j), TableFile(sum, blocks), Image(sum, blocks);
    TableParts(image, Sealed(sum, BlockOf(IndexOf(sum, blocks))), EncodeFooter(Handle(0, 0), IndexHandle(sum, blocks)));
    IndexAt(sum, blocks, j);
    Tiles(sum, blocks, j);
    OffsetBound(sum, blocks, j + 1);
    Seqs.Nil(EncodeHandle(h));
    HandleRoundTrip(h, []);
    AtPrefix(image, file, h.offset, Sealed(sum, BlockOf(blocks[j])));
    ReadSealed(sum, file, h, BlockOf(blocks[j]));
  }
}
