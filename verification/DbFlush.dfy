/** Writing a memtable out as a table file (src/db/db_impl.cc). */
module DbFlush {
  import opened Bytes
  import opened Checksums
  import opened MemTables
  import opened SkipLists
  import opened Tables
  import TableFormat
  import Seqs

  /** Where the iterator stands in a list of `es`, if it does. */
  ghost function Reached(it: Iterator<MemEntry>, es: seq<MemEntry>): Option<nat>
    reads it, it.list, it.list.rng, it.list.list
  {
    if it.Valid() && it.list.Contents() == es then Some(it.at) else None
  }

  method Started(sum: Sum, ghost es: seq<MemEntry>) returns (builder: TableBuilder)
    ensures fresh(builder) && fresh(builder.dataBlock) && fresh(builder.indexBlock)
    ensures builder.sum == sum && builder.Taken(es[..0]) == Some(es[..0])
  {
    builder := new TableBuilder(sum);
    assert es[..0] == [];
  }

  method FinishFed(builder: TableBuilder, ghost es: seq<MemEntry>) returns (file: bytes)
    requires builder.Taken(es[..|es|]) == Some(es[..|es|])
    modifies builder, builder.dataBlock, builder.indexBlock
    ensures file == TableFormat.BuildTable(builder.sum, es)
  {
    Seqs.TakeAll(es);
    var ok := builder.Finish(es);
    file := builder.file;
  }

  method AtFirst(list: SkipList<MemEntry>) returns (it: Iterator<MemEntry>)
    requires list.Valid()
    ensures fresh(it) && it.list == list && Reached(it, list.Contents()) == Some(0)
  {
    it := new Iterator(list);
    it.SeekToFirst();
  }

  /** The entry under the iterator, which moves on. */
  method Take(it: Iterator<MemEntry>, ghost es: seq<MemEntry>, ghost i: nat) returns (e: MemEntry)
    requires Reached(it, es) == Some(i) && it.node != null
    modifies it
    ensures Reached(it, es) == Some(i + 1) && i < |es| && e == es[i]
  {
    e := it.Key();
    it.Next();
  }

  /** The iterator is off the list just behind its last entry. */
  lemma AtEnd(it: Iterator<MemEntry>, es: seq<MemEntry>, i: nat)
    requires Reached(it, es) == Some(i)
    ensures i <= |es| && (it.node == null <==> i == |es|)
  {
  }

  method FeedOne(builder: TableBuilder, e: MemEntry, ghost es: seq<MemEntry>, ghost es': seq<MemEntry>)
    requires builder.Taken(es) == Some(es) && es' == es + [e]
    modifies builder, builder.dataBlock, builder.indexBlock
    ensures builder.Taken(es') == Some(es')
  {
    var ok := builder.Add(e.ikey, e.value, es);
  }

  /** One turn of the loop; the entries taken by the builder go from `fed` to `more`. */
  method FeedNext(it: Iterator<MemEntry>, builder: TableBuilder, ghost es: seq<MemEntry>, ghost i: nat,
                  ghost fed: seq<MemEntry>, ghost more: seq<MemEntry>)
    requires builder.Taken(fed) == Some(fed) && i < |es| && more == fed + [es[i]]
    requires Reached(it, es) == Some(i) && it.node != null
    modifies it, builder, builder.dataBlock, builder.indexBlock
    ensures builder.Taken(more) == Some(more) && Reached(it, es) == Some(i + 1)
  {
    var e := Take(it, es, i);
    FeedOne(builder, e, fed, more);
  }

  method FeedAll(it: Iterator<MemEntry>, builder: TableBuilder, ghost es: seq<MemEntry>)
    requires Reached(it, es) == Some(0) && builder.Taken(es[..0]) == Some(es[..0])
    modifies it, builder, builder.dataBlock, builder.indexBlock
    ensures builder.Taken(es[..|es|]) == Some(es[..|es|])
  {
    ghost var i := 0;
    while it.node != null
      invariant i <= |es| && Reached(it, es) == Some(i) && builder.Taken(es[..i]) == Some(es[..i])
      decreases |es| - i
    {
      AtEnd(it, es, i);
      Seqs.TakeSnoc(es, i);
      FeedNext(it, builder, es, i, es[..i], es[..i + 1]);
      i := i + 1;
    }
    AtEnd(it, es, i);
  }

  method WriteFrom(sum: Sum, it: Iterator<MemEntry>, ghost es: seq<MemEntry>) returns (file: bytes)
    requires Reached(it, es) == Some(0)
    modifies it
    ensures file == TableFormat.BuildTable(sum, es)
  {
    var builder := Started(sum, es);
    FeedAll(it, builder, es);
    file := FinishFed(builder, es);
  }

  /** The file that a flush writes: the table of the memtable's entries, in the list's order. */
  method WriteTable(sum: Sum, list: SkipList<MemEntry>) returns (file: bytes)
    requires list.Valid()
    ensures file == TableFormat.BuildTable(sum, list.Contents())
  {
    ghost var es := list.Contents();
    var it := AtFirst(list);
    file := WriteFrom(sum, it, es);
  }
}
