/** Tables: data blocks, the index block and the footer, and the two-level lookup
    (src/table/table_builder.cc, src/table/table.cc). */
module TableFormat {
  import opened Bytes
  import opened Checksums
  import opened Coding
  import opened DbFormat
  import opened BlockFormat
  import opened Format

  const DATA_BLOCK: nat := 0x1000

  // ---------------------------------------------------------------- building

  /** Data blocks already written, and the entries of the one being filled. */
  datatype Cut = Cut(blocks: seq<seq<Entry>>, data: seq<Entry>)

  function FlushCut(c: Cut): Cut {
    if c.data == [] then c else Cut(c.blocks + [c.data], [])
  }

  /** The size estimate at which a data block is written out: 4 KB. */
  predicate Full(data: seq<Entry>) {
    |BlockOf(data)| >= DATA_BLOCK
  }

  /** `Add`: write the block out as soon as it is full. */
  function AddCut(full: seq<Entry> -> bool, c: Cut, e: Entry): Cut {
    var longer := c.data + [e];
    if full(longer) then Cut(c.blocks + [longer], []) else Cut(c.blocks, longer)
  }

  function CutOf(full: seq<Entry> -> bool, es: seq<Entry>): Cut
    decreases |es|
  {
    if es == [] then Cut([], []) else AddCut(full, CutOf(full, es[..|es| - 1]), es[|es| - 1])
  }

  /** The data blocks of the finished table. */
  function BlocksOf(es: seq<Entry>): seq<seq<Entry>> {
    FlushCut(CutOf(Full, es)).blocks
  }

  function Image(sum: Sum, blocks: seq<seq<Entry>>): bytes {
    if blocks == [] then []
    else Image(sum, blocks[..|blocks| - 1]) + Sealed(sum, BlockOf(blocks[|blocks| - 1]))
  }

  /** The handle of a data block written after `before`. */
  function HandleAfter(sum: Sum, before: seq<seq<Entry>>, data: seq<Entry>): Handle {
    Handle(|Image(sum, before)|, |BlockOf(data)|)
  }

  /** The index entry of a data block written after `before`: its last key and its handle. */
  function IndexEntry(sum: Sum, before: seq<seq<Entry>>, data: seq<Entry>): Entry {
    Entry(if data == [] then [] else data[|data| - 1].ikey, EncodeHandle(HandleAfter(sum, before, data)))
  }

  function IndexOf(sum: Sum, blocks: seq<seq<Entry>>): (index: seq<Entry>)
    ensures |index| == |blocks|
  {
    if blocks == [] then []
    else
      var before := blocks[..|blocks| - 1];
      IndexOf(sum, before) + [IndexEntry(sum, before, blocks[|blocks| - 1])]
  }

  function IndexHandle(sum: Sum, blocks: seq<seq<Entry>>): Handle {
    Handle(|Image(sum, blocks)|, |BlockOf(IndexOf(sum, blocks))|)
  }

  /** The whole file. */
  function TableFile(sum: Sum, blocks: seq<seq<Entry>>): bytes {
    Image(sum, blocks) + Sealed(sum, BlockOf(IndexOf(sum, blocks)))
        + EncodeFooter(Handle(0, 0), IndexHandle(sum, blocks))
  }

  function BuildTable(sum: Sum, es: seq<Entry>): bytes {
    TableFile(sum, BlocksOf(es))
  }

  /** Every block fits its 32-bit fields and the file its 64-bit ones. */
  predicate TableFits(sum: Sum, blocks: seq<seq<Entry>>) {
    && (forall j :: 0 <= j < |blocks| ==> Fits(blocks[j]))
    && Fits(IndexOf(sum, blocks))
    && |TableFile(sum, blocks)| < U64
  }

  // ---------------------------------------------------------------- reading

  /** `Table::Open`: the contents of the index block. */
  function OpenTable(sum: Sum, file: bytes): Status<bytes> {
    if |file| < FOOTER then Status.Corruption
    else
      var footer := DecodeFooter(file[|file| - FOOTER..]);
      if !footer.Ok? then Status.Corruption else ReadBlock(sum, file, footer.value.1)
  }

  function SeekBlock(contents: bytes, user: bytes): Iter {
    Seek(OpenBlock(contents), START, user)
  }

  /** What the entry found says about `user`. */
  function Judge(it: Iter, user: bytes): LookupState {
    if !it.valid || |it.key| < 8 then NotFound
    else if UserKey(it.key) != user then NotFound
    else Answer(Entry(it.key, it.value))
  }

  /** `Table::Get` over an opened table. */
  function GetIn(sum: Sum, file: bytes, index: bytes, user: bytes): LookupState {
    var at := SeekBlock(index, user);
    if !at.valid then NotFound else
    var handle := DecodeHandle(at.value);
    if handle.None? then NotFound else
    var contents := ReadBlock(sum, file, handle.value.0);
    if !contents.Ok? then NotFound else Judge(SeekBlock(contents.value, user), user)
  }

  /** `Open`, then `Get`. */
  function TableGet(sum: Sum, file: bytes, user: bytes): LookupState {
    var index := OpenTable(sum, file);
    if index.Ok? then GetIn(sum, file, index.value, user) else NotFound
  }
}
