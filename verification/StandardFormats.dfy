/** The byte formats of this repository obey the store's laws, so its theorems hold of them. */
module StandardFormats {
  import opened Bytes
  import opened Checksums
  import opened DbFormat
  import opened MemTables
  import opened SkipLists
  import opened Recovery
  import opened Layers
  import opened Store
  import opened StoreProofs
  import opened StoreTheorem
  import LogFormat
  import LogProofs
  import TableFormat
  import TableProofs
  import TableLookup

  /** The log and the tables as bytes, for any checksum. */
  function Standard(sum: Sum): Formats {
    Formats(
      f => LogFormat.Records(sum, f),
      f => LogProofs.Clean(sum, f),
      f => LogProofs.Truncated(sum, f),
      (f, record) => LogProofs.Added(sum, f, record),
      es => TableFormat.BuildTable(sum, es),
      es => TableFormat.TableFits(sum, TableFormat.BlocksOf(es)),
      file => TableFormat.OpenTable(sum, file).Ok?,
      (file, user) => TableFormat.TableGet(sum, file, user))
  }

  lemma AppendObeys(sum: Sum, f: bytes, r: bytes, c: nat)
    requires LogProofs.Clean(sum, f) && c <= |LogProofs.Added(sum, f, r)|
    ensures var added := LogProofs.Added(sum, f, r);
      if c < |added| then LogFormat.Records(sum, f + added[..c]) == LogFormat.Records(sum, f)
      else LogProofs.Clean(sum, f + added) && LogFormat.Records(sum, f + added) == LogFormat.Records(sum, f) + [r]
  {
    if c < |LogProofs.Added(sum, f, r)| {
      LogProofs.AppendTorn(sum, f, r, c);
    } else {
      LogProofs.AppendClean(sum, f, r);
    }
  }

  lemma AddedSome(sum: Sum, f: bytes, r: bytes)
    ensures |LogProofs.Added(sum, f, r)| > 0
  {
  }

  lemma LogObeys(sum: Sum)
    ensures LogLaws(Standard(sum))
  {
    LogProofs.EmptyClean(sum);
    forall f ensures LogProofs.Clean(sum, LogProofs.Truncated(sum, f))
      && LogFormat.Records(sum, LogProofs.Truncated(sum, f)) == LogFormat.Records(sum, f)
    {
      LogProofs.TruncateClean(sum, f);
    }
    forall f, r ensures |LogProofs.Added(sum, f, r)| > 0 {
      AddedSome(sum, f, r);
    }
    forall f, r, c: nat | LogProofs.Clean(sum, f) && c <= |LogProofs.Added(sum, f, r)|
      ensures var added := LogProofs.Added(sum, f, r);
        if c < |added| then LogFormat.Records(sum, f + added[..c]) == LogFormat.Records(sum, f)
        else LogProofs.Clean(sum, f + added) && LogFormat.Records(sum, f + added) == LogFormat.Records(sum, f) + [r]
    {
      AppendObeys(sum, f, r, c);
    }
  }

  lemma ProperTyped(e: MemEntry)
    ensures TableLookup.Typed(e.ikey)
  {
    var tag := e.ikey[|e.ikey| - 8..];
    assert tag[0] == e.ikey[|e.ikey| - 8];
    assert TagOf(e.ikey) % 256 == tag[0];
  }

  /** A key that is nowhere in the table is not found there. */
  lemma AbsentFromTable(sum: Sum, es: seq<MemEntry>, keys: set<bytes>, user: bytes)
    requires TableFormat.TableFits(sum, TableFormat.BlocksOf(es)) && InOrder(EntryBefore, es)
    requires KeysIn(es, keys) && user !in keys
    ensures TableFormat.TableGet(sum, TableFormat.BuildTable(sum, es), user) == Lookup(es, user)
  {
    OrderIsSorted(es);
    LookupAbsent(es, user);
    TableLookup.TableGetNeverWrong(sum, es, user);
  }

  /** A built table is looked up like the memtable entries it was built of. */
  lemma TableIsLayer(sum: Sum, es: seq<MemEntry>, keys: set<bytes>, user: bytes)
    requires TableFormat.TableFits(sum, TableFormat.BlocksOf(es)) && InOrder(EntryBefore, es)
    requires KeysIn(es, keys) && Sought(keys, user)
    ensures TableFormat.TableGet(sum, TableFormat.BuildTable(sum, es), user) == Lookup(es, user)
  {
    if user in keys {
      OrderIsSorted(es);
      forall j | 0 <= j < |es| ensures TableLookup.Typed(es[j].ikey) {
        ProperTyped(es[j]);
      }
      TableLookup.TableGetCorrect(sum, es, user);
    } else {
      AbsentFromTable(sum, es, keys, user);
    }
  }

  lemma TableObeys(sum: Sum)
    ensures TableLaws(Standard(sum))
  {
    forall es: seq<MemEntry> | TableFormat.TableFits(sum, TableFormat.BlocksOf(es))
      ensures TableFormat.OpenTable(sum, TableFormat.BuildTable(sum, es)).Ok?
    {
      TableProofs.OpenBuiltTable(sum, TableFormat.BlocksOf(es));
    }
    forall es: seq<MemEntry>, keys, user | TableFormat.TableFits(sum, TableFormat.BlocksOf(es))
        && InOrder(EntryBefore, es)
        && KeysIn(es, keys) && Sought(keys, user)
      ensures TableFormat.TableGet(sum, TableFormat.BuildTable(sum, es), user) == Lookup(es, user)
    {
      TableIsLayer(sum, es, keys, user);
    }
  }

  /** Every run of the store over real log and table bytes, with crashes at any step and any byte of an append,
      is a run of a plain map with the same events. Whenever the database is open, `Get` of a key apart from the
      keys written returns what the map has; and at every moment so would a recovery from the disk alone, a
      write counting from the last byte of its record on. */
  lemma StoreRefinesMap(sum: Sum, fm: Formats, run: seq<System>, events: seq<Label>) returns (ts: seq<Plain>)
    requires fm == Standard(sum) && IsRun(fm, run, events)
    ensures IsPlainRun(ts, events)
    ensures forall i, user :: 0 <= i < |run| && run[i].process.Ready? && Sought(WrittenBy(events), user) ==>
      DbGet(fm, run[i].process.memory, user) == MapGet(ts[i].m, user)
    ensures forall i, user :: 0 <= i < |run| && Sought(WrittenBy(events), user) ==>
      Recoverable(fm, run[i].disk, user) == MapGet(Target(fm, run[i].process, ts[i].m), user)
  {
    LogObeys(sum);
    TableObeys(sum);
    ts := RefinesMap(fm, run, events);
  }
}
