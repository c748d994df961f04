/** The table writer and the table reader as objects (src/table/table_builder.cc, src/table/table.cc). */
module Tables {
  import opened Bytes
  import opened Checksums
  import opened DbFormat
  import opened BlockFormat
  import opened Blocks
  import opened Format
  import opened TableFormat

  lemma BuildSnoc(es: seq<Entry>, e: Entry)
    ensures Build(es + [e]) == AddEntry(Build(es), e)
  {
    assert (es + [e])[..|es|] == es;
  }

  lemma ImageSnoc(sum: Sum, blocks: seq<seq<Entry>>, data: seq<Entry>)
    ensures Image(sum, blocks + [data]) == Image(sum, blocks) + Sealed(sum, BlockOf(data))
    ensures IndexOf(sum, blocks + [data]) == IndexOf(sum, blocks) + [IndexEntry(sum, blocks, data)]
  {
    assert (blocks + [data])[..|blocks|] == blocks;
  }

  lemma CutSnoc(full: seq<Entry> -> bool, es: seq<Entry>, e: Entry)
    ensures CutOf(full, es + [e]) == AddCut(full, CutOf(full, es), e)
  {
    assert (es + [e])[..|es|] == es;
  }

  /** `c` with one more entry in the block being filled. */
  function Longer(c: Cut, e: Entry): Cut {
    Cut(c.blocks, c.data + [e])
  }

  /** The cut after one more entry: the block is written out just when it became full. */
  lemma CutAdded(es: seq<Entry>, c: Cut, e: Entry, longer: Cut, es': seq<Entry>) returns (next: Cut)
    requires c == CutOf(Full, es) && longer == Longer(c, e) && es' == es + [e]
    ensures next == CutOf(Full, es')
    ensures next == if |BlockOf(longer.data)| >= DATA_BLOCK then Cut(longer.blocks + [longer.data], []) else longer
  {
    next := CutOf(Full, es');
    CutSnoc(Full, es, e);
  }

  lemma BuildIs(sum: Sum, es: seq<Entry>, c: Cut)
    requires c == CutOf(Full, es)
    ensures BuildTable(sum, es) == TableFile(sum, FlushCut(c).blocks)
  {
  }

  lemma EmptyBuild(es: seq<Entry>)
    ensures Build(es).buffer == [] <==> es == []
  {
  }

  class TableBuilder {
    const sum: Sum
    /** The contents of the file written to. */
    var file: bytes
    const dataBlock: BlockBuilder
    const indexBlock: BlockBuilder
    var lastKey: bytes
    var fileSize: nat
    var finished: bool

    /** The fields hold what has been cut so far. */
    ghost predicate Filling(c: Cut)
      reads `file, `lastKey, dataBlock, indexBlock
    {
      && dataBlock.State() == Build(c.data) && indexBlock.State() == Build(IndexOf(sum, c.blocks))
      && file == Image(sum, c.blocks)
      && (c.data != [] ==> lastKey == c.data[|c.data| - 1].ikey)
    }

    /** `c`, if the fields hold just that. */
    ghost function Fill(c: Cut): Option<Cut>
      reads `file, `lastKey, `fileSize, dataBlock, indexBlock
    {
      if dataBlock != indexBlock && fileSize == |file| && Filling(c) then Some(c) else None
    }

    /** `es`, if that is what an unfinished builder has taken. */
    ghost function Taken(es: seq<Entry>): Option<seq<Entry>>
      reads this, dataBlock, indexBlock
    {
      if !finished && Fill(CutOf(Full, es)) == Some(CutOf(Full, es)) then Some(es) else None
    }

    constructor (sum: Sum)
      ensures Taken([]) == Some([]) && fresh(dataBlock) && fresh(indexBlock) && this.sum == sum
    {
      this.sum := sum;
      dataBlock := new BlockBuilder();
      indexBlock := new BlockBuilder();
      file, lastKey, fileSize, finished := [], [], 0, false;
    }

    /** Append one entry; refused once the table is finished. */
    method Add(key: bytes, value: bytes, ghost es: seq<Entry>) returns (ok: bool)
      requires finished || Taken(es) == Some(es)
      modifies this, dataBlock, indexBlock
      ensures ok == !old(finished) && finished == old(finished)
      ensures if ok then Taken(es + [Entry(key, value)]) == Some(es + [Entry(key, value)]) else file == old(file)
    {
      ok := !finished;
      if ok {
        AddOpen(key, value, es, es + [Entry(key, value)]);
      }
    }

    method AddOpen(key: bytes, value: bytes, ghost es: seq<Entry>, ghost es': seq<Entry>)
      requires Taken(es) == Some(es) && es' == es + [Entry(key, value)]
      modifies `file, `fileSize, `lastKey, dataBlock, indexBlock
      ensures Taken(es') == Some(es')
    {
      ghost var c := CutOf(Full, es);
      ghost var longer := Longer(c, Entry(key, value));
      ghost var next := CutAdded(es, c, Entry(key, value), longer, es');
      AddTo(key, value, c, longer, next);
    }

    /** Put the entry into the block, and write that out if it became full. */
    method AddTo(key: bytes, value: bytes, ghost c: Cut, ghost longer: Cut, ghost next: Cut)
      requires Fill(c) == Some(c) && longer == Longer(c, Entry(key, value))
      requires next == if |BlockOf(longer.data)| >= DATA_BLOCK then Cut(longer.blocks + [longer.data], []) else longer
      modifies `file, `fileSize, `lastKey, dataBlock, indexBlock
      ensures Fill(next) == Some(next)
    {
      PutEntry(key, value, c, longer);
      FlushIfFull(longer, next);
    }

    /** Write the block out once its size estimate reaches 4 KB. */
    method FlushIfFull(ghost c: Cut, ghost next: Cut)
      requires Fill(c) == Some(c) && c.data != []
      requires next == if |BlockOf(c.data)| >= DATA_BLOCK then Cut(c.blocks + [c.data], []) else c
      modifies `file, `fileSize, dataBlock, indexBlock
      ensures Fill(next) == Some(next)
    {
      if dataBlock.CurrentSizeEstimate() >= DATA_BLOCK {
        WriteDataBlock(c);
      }
    }

    method PutEntry(key: bytes, value: bytes, ghost c: Cut, ghost longer: Cut)
      requires Fill(c) == Some(c) && longer == Longer(c, Entry(key, value))
      modifies dataBlock, `lastKey
      ensures Fill(longer) == Some(longer)
    {
      dataBlock.Add(key, value);
      BuildSnoc(c.data, Entry(key, value));
      lastKey := key;
    }

    /** Write the current block out, if it holds anything, and index it. */
    method FlushDataBlock(ghost c: Cut)
      requires Fill(c) == Some(c)
      modifies `file, `fileSize, dataBlock, indexBlock
      ensures Fill(FlushCut(c)) == Some(FlushCut(c))
    {
      EmptyBuild(c.data);
      if dataBlock.buffer != [] {
        WriteDataBlock(c);
      }
    }

    method WriteDataBlock(ghost c: Cut)
      requires Fill(c) == Some(c) && c.data != []
      modifies `file, `fileSize, dataBlock, indexBlock
      ensures var next := Cut(c.blocks + [c.data], []); Fill(next) == Some(next)
    {
      var contents := dataBlock.Finish();
      var handle := Seal(contents);
      ImageSnoc(sum, c.blocks, c.data);
      BuildSnoc(IndexOf(sum, c.blocks), IndexEntry(sum, c.blocks, c.data));
      indexBlock.Add(lastKey, EncodeHandle(handle));
      dataBlock.Reset();
    }

    /** Append a block with its trailer. */
    method Seal(contents: bytes) returns (handle: Handle)
      requires fileSize == |file|
      modifies `file, `fileSize
      ensures file == old(file) + Sealed(sum, contents) && fileSize == |file|
      ensures handle == Handle(|old(file)|, |contents|)
    {
      file, handle := WriteBlock(sum, file, contents);
      fileSize := fileSize + |contents| + TRAILER;
    }

    /** Write the rest: last data block, index block and footer. */
    method Finish(ghost es: seq<Entry>) returns (ok: bool)
      requires finished || Taken(es) == Some(es)
      modifies this, dataBlock, indexBlock
      ensures ok == !old(finished) && finished
      ensures if ok then file == BuildTable(sum, es) && fileSize == |file| else file == old(file)
    {
      ok := !finished;
      if ok {
        BuildIs(sum, es, CutOf(Full, es));
        WriteRest(CutOf(Full, es));
        finished := true;
      }
    }

    method WriteRest(ghost c: Cut)
      requires Fill(c) == Some(c)
      modifies `file, `fileSize, dataBlock, indexBlock
      ensures file == TableFile(sum, FlushCut(c).blocks) && fileSize == |file|
    {
      FlushDataBlock(c);
      WriteTail(FlushCut(c));
    }

    /** The index block and the footer. */
    method WriteTail(ghost c: Cut)
      requires Fill(c) == Some(c)
      modifies `file, `fileSize, indexBlock
      ensures file == TableFile(sum, c.blocks) && fileSize == |file|
    {
      var index := indexBlock.Finish();
      var handle := Seal(index);
      file := file + EncodeFooter(Handle(0, 0), handle);
      fileSize := fileSize + FOOTER;
    }
  }

  class Table {
    const sum: Sum
    const file: bytes
    const indexData: bytes

    constructor (sum: Sum, file: bytes, indexData: bytes)
      ensures this.sum == sum && this.file == file && this.indexData == indexData
    {
      this.sum, this.file, this.indexData := sum, file, indexData;
    }

    /** Open a table file, or say why it is none. */
    static method Open(sum: Sum, file: bytes) returns (r: Status<Table>)
      ensures match OpenTable(sum, file)
        case Ok(index) => r.Ok? && fresh(r.value) && r.value.sum == sum && r.value.file == file
          && r.value.indexData == index
        case IOError => r.IOError?
        case Corruption => r.Corruption?
    {
      if |file| < FOOTER {
        return Status.Corruption;
      }
      var footer := DecodeFooter(file[|file| - FOOTER..]);
      if !footer.Ok? {
        return Status.Corruption;
      }
      var index := ReadBlock(sum, file, footer.value.1);
      match index {
        case Ok(contents) =>
          var table := new Table(sum, file, contents);
          r := Ok(table);
        case IOError => r := IOError;
        case Corruption => r := Corruption;
      }
    }

    /** Index block, then data block, then the check of the key found. */
    method Get(user: bytes) returns (state: LookupState)
      ensures state == GetIn(sum, file, indexData, user)
    {
      var indexIt := new BlockIterator(OpenBlock(indexData));
      indexIt.Seek(user);
      if !indexIt.valid {
        return NotFound;
      }
      var handle := DecodeHandle(indexIt.value);
      if handle.None? {
        return NotFound;
      }
      var contents := ReadBlock(sum, file, handle.value.0);
      if !contents.Ok? {
        return NotFound;
      }
      var dataIt := new BlockIterator(OpenBlock(contents.value));
      dataIt.Seek(user);
      if !dataIt.valid || |dataIt.key| < 8 {
        return NotFound;
      }
      if UserKey(dataIt.key) != user {
        return NotFound;
      }
      if TagOf(dataIt.key) % 256 != TYPE_VALUE {
        return Deleted;
      }
      state := Found(dataIt.value);
    }
  }
}
