/** The database object (src/db/db_impl.cc). */
module DbImpl {
  import opened Bytes
  import opened Checksums
  import opened DbFormat
  import opened WriteBatches
  import opened MemTables
  import opened Tables
  import opened Recovery
  import opened Layers
  import opened Store
  import opened StandardFormats
  import opened DbReplay
  import opened DbFlush
  import opened DbPaths
  import opened DbSteps
  import LogWriters
  import Format
  import TableFormat
  import Seqs

  // ---------------------------------------------------------------- open tables

  ghost function Files(tables: seq<Table>): (fs: seq<bytes>)
    ensures |fs| == |tables| && forall i :: 0 <= i < |fs| ==> fs[i] == tables[i].file
  {
    seq(|tables|, i requires 0 <= i < |tables| => tables[i].file)
  }

  /** A table object that holds the index of its file. */
  ghost predicate OpenedOne(sum: Sum, table: Table) {
    table.sum == sum && TableFormat.OpenTable(sum, table.file) == Format.Ok(table.indexData)
  }

  ghost predicate Opened(sum: Sum, tables: seq<Table>) {
    forall i :: 0 <= i < |tables| ==> OpenedOne(sum, tables[i])
  }

  lemma GetFromNext(fm: Formats, files: seq<bytes>, i: nat, user: bytes)
    requires i < |files|
    ensures GetFrom(fm, files[i..], user) == Resolve(fm.tableGet(files[i], user), GetFrom(fm, files[i + 1..], user))
  {
    Seqs.DropCons(files, i);
    GetFromCons(fm, files[i], files[i + 1..], user);
  }

  /** The descent through the tables, from newest to oldest. */
  method GetInTables(sum: Sum, tables: seq<Table>, user: bytes) returns (state: LookupState)
    requires Opened(sum, tables)
    ensures state == GetFrom(Standard(sum), Files(tables), user)
  {
    ghost var fm, files := Standard(sum), Files(tables);
    Seqs.DropNone(files);
    var i := 0;
    while i < |tables|
      invariant 0 <= i <= |tables| && GetFrom(fm, files, user) == GetFrom(fm, files[i..], user)
    {
      GetFromNext(fm, files, i, user);
      state := TableGetOf(sum, tables[i], user);
      if !state.NotFound? {
        return;
      }
      i := i + 1;
    }
    state := NotFound;
  }

  method TableGetOf(sum: Sum, table: Table, user: bytes) returns (state: LookupState)
    requires OpenedOne(sum, table)
    ensures state == Standard(sum).tableGet(table.file, user)
  {
    state := table.Get(user);
  }

  method IsEmpty(mem: MemTable, ghost es: seq<MemEntry>) returns (empty: bool)
    requires EntriesOf(mem) == Some(es)
    ensures empty <==> es == []
  {
    var it := AtFirst(mem.table);
    empty := it.node == null;
  }

  /** The file a flush writes, of a memtable that is not empty. */
  method MemFile(sum: Sum, mem: MemTable, ghost es: seq<MemEntry>) returns (file: Option<bytes>)
    requires EntriesOf(mem) == Some(es)
    ensures file == if es == [] then None else Some(TableFormat.BuildTable(sum, es))
  {
    var empty := IsEmpty(mem, es);
    if empty {
      return None;
    }
    var written := WriteTable(sum, mem.table);
    file := Some(written);
  }

  lemma FlushDoneIs(sum: Sum, s: Open, file: Option<bytes>)
    requires var es := s.process.memory.mem; file == if es == [] then None else Some(TableFormat.BuildTable(sum, es))
    ensures FlushDone(sum, s) == if file.None? then Done(true, s, []) else FlushInto(sum, s, file.value)
  {
  }

  /** Open a table file, if it is one. */
  method OpenFile(sum: Sum, file: bytes) returns (table: Option<Table>)
    ensures table.Some? == Opens(sum, file)
    ensures table.Some? ==> table.value.file == file && Opened(sum, [table.value])
  {
    var r := Table.Open(sum, file);
    table := if r.Ok? then Some(r.value) else None;
  }

  lemma FilesCons(table: Table, tables: seq<Table>)
    ensures Files([table] + tables) == [table.file] + Files(tables)
  {
    var all, fs := [table] + tables, [table.file] + Files(tables);
    forall i | 0 <= i < |all| ensures Files(all)[i] == fs[i] {
    }
  }

  lemma OpenedCons(sum: Sum, table: Table, tables: seq<Table>)
    requires Opened(sum, [table]) && Opened(sum, tables)
    ensures Opened(sum, [table] + tables)
  {
    var all := [table] + tables;
    forall i | 0 <= i < |all| ensures OpenedOne(sum, all[i]) {
      assert all[i] == if i == 0 then [table][0] else tables[i - 1];
    }
  }

  lemma FilesSnoc(sum: Sum, tables: seq<Table>, table: Table)
    requires Opened(sum, tables) && OpenedOne(sum, table)
    ensures Opened(sum, tables + [table]) && Files(tables + [table]) == Files(tables) + [table.file]
  {
    var all, fs := tables + [table], Files(tables) + [table.file];
    forall i | 0 <= i < |all| ensures Files(all)[i] == fs[i] && OpenedOne(sum, all[i]) {
    }
  }

  /** The directory states that bring in table `n`. */
  ghost predicate TableDisks(d: Disk, n: nat, file: bytes, ds: seq<Disk>)
    requires |ds| == 5
  {
    && ds[0] == d.(tmps := d.tmps[n := []]) && ds[1] == ds[0].(tmps := ds[0].tmps[n := file])
    && ds[2] == ds[1].(tmps := ds[1].tmps - {n}, tables := ds[1].tables[n := file])
  }

  /** The directory states of a flush of `memory`. */
  ghost predicate FlushGoes(d: Disk, memory: Memory, file: bytes, ds: seq<Disk>) {
    && |ds| == 5 && TableDisks(d, memory.nextFile, file, ds)
    && ds[3] == ds[2].(logs := ds[2].logs - {memory.logNumber})
    && ds[4] == ds[3].(logs := ds[3].logs[memory.nextFile + 1 := []])
  }

  lemma FlushDisksAre(d: Disk, memory: Memory, file: bytes)
    ensures FlushGoes(d, memory, file, FlushDisks(d, memory, file))
  {
    var n := memory.nextFile;
    assert d.tmps[n := []][n := file] == d.tmps[n := file];
    assert d.tmps[n := file] - {n} == d.tmps - {n};
  }

  /** How far a scan of the listing has come: the next number, the last log, the directory and its states. */
  datatype Scanning = Scanning(next: nat, maxLog: nat, disk: Disk, trail: seq<Disk>)

  function Scanned(d: Disk, files: seq<FileInfo>, was: seq<Disk>): Scanning {
    Scanning(NextAfter(files), LastLog(files), CleanedAll(d, files), was + CleanDisks(d, files))
  }

  /** One more file is seen. */
  function Saw(x: Scanning, f: FileInfo): Scanning {
    Scanning(if f.number >= x.next then f.number + 1 else x.next,
             if f.kind.LogFile? && f.number > x.maxLog then f.number else x.maxLog,
             Cleaned(x.disk, f),
             x.trail + if f.kind.TempFile? then [Cleaned(x.disk, f)] else [])
  }

  lemma ScanMore(d: Disk, files: seq<FileInfo>, i: nat, was: seq<Disk>)
    requires i < |files|
    ensures Scanned(d, files[..i + 1], was) == Saw(Scanned(d, files[..i], was), files[i])
  {
    assert files[..i + 1][..i] == files[..i];
  }

  /** Every table listed is in the directory. */
  predicate TablesThere(d: Disk, files: seq<FileInfo>) {
    forall i :: 0 <= i < |files| && files[i].kind.TableFile? ==> files[i].number in d.tables
  }

  predicate OpenFrom(sum: Sum, d: Disk, files: seq<FileInfo>, i: nat) {
    forall j :: i <= j < |files| && files[j].kind.TableFile? ==>
      files[j].number in d.tables && Opens(sum, d.tables[files[j].number])
  }

  predicate ListedOpen(sum: Sum, d: Disk, files: seq<FileInfo>) {
    OpenFrom(sum, d, files, 0)
  }

  lemma OpenMore(sum: Sum, d: Disk, files: seq<FileInfo>, i: nat)
    requires i < |files| && OpenFrom(sum, d, files, i + 1)
    requires files[i].kind.TableFile? ==> files[i].number in d.tables && Opens(sum, d.tables[files[i].number])
    ensures OpenFrom(sum, d, files, i)
  {
  }

  lemma ListedTables(sum: Sum, d: Disk, files: seq<FileInfo>)
    requires Listing(d, files)
    ensures TablesThere(d, files) && (ListedOpen(sum, d, files) <==> TablesOpen(sum, d))
  {
    forall i | 0 <= i < |files| && files[i].kind.TableFile? ensures files[i].number in d.tables {
      assert files[i] == FileInfo(files[i].number, TableFile);
    }
    forall n | n in d.tables ensures exists i :: 0 <= i < |files| && files[i].kind.TableFile? && files[i].number == n {
      assert FileInfo(n, TableFile) in files;
    }
  }

  lemma NumbersStep(m: map<nat, bytes>, files: seq<FileInfo>, i: nat)
    requires i < |files| && (files[i].kind.TableFile? ==> files[i].number in m)
    ensures Pick(m, TableNumbers(files[..i + 1]))
         == (if files[i].kind.TableFile? then [m[files[i].number]] else []) + Pick(m, TableNumbers(files[..i]))
  {
    assert files[..i + 1][..i] == files[..i];
    if files[i].kind.TableFile? {
      PickFirst(m, files[i].number, TableNumbers(files[..i]));
    } else {
      Seqs.Nil(TableNumbers(files[..i]));
      Seqs.Nil(Pick(m, TableNumbers(files[..i])));
    }
  }

  /** Every log listed is in the directory. */
  predicate LogsThere(d: Disk, files: seq<FileInfo>) {
    forall i :: 0 <= i < |files| && files[i].kind.LogFile? ==> files[i].number in d.logs
  }

  /** `rs` holds what each prefix of the listing comes to; a log that is corrupt decides the whole. */
  ghost predicate Prefixes(sum: Sum, files: seq<FileInfo>, rs: seq<Replay>) {
    && |rs| == |files| + 1
    && forall i :: 0 <= i < |files| ==> TurnAt(sum, files, rs, i)
  }

  ghost predicate TurnAt(sum: Sum, files: seq<FileInfo>, rs: seq<Replay>, i: nat)
    requires i < |files| && |rs| == |files| + 1
  {
    var r, f := rs[i], files[i];
    && (r.ok ==> (f.kind.LogFile? ==> f.number in r.disk.logs)
                 && rs[i + 1] == if f.kind.LogFile? then ReplayOne(sum, r, f.number) else r)
    && (!rs[i + 1].ok ==> rs[i + 1] == rs[|files|])
  }

  function PrefixReplays(sum: Sum, d: Disk, files: seq<FileInfo>): (rs: seq<Replay>)
    requires LogsThere(d, files)
    ensures |rs| == |files| + 1 && rs[0] == Replay(true, d, [], 0, []) && rs[|files|] == ReplayLogs(sum, d, files)
    ensures Prefixes(sum, files, rs)
  {
    var rs := seq(|files| + 1, i requires 0 <= i <= |files| => ReplayLogs(sum, d, files[..i]));
    Seqs.TakeAll(files);
    assert forall i :: 0 <= i < |files| ==> TurnAt(sum, files, rs, i) by {
      forall i | 0 <= i < |files| ensures TurnAt(sum, files, rs, i) {
        ReplaysMore(sum, d, files, i);
        if !rs[i + 1].ok {
          ReplayFails(sum, d, files, i + 1);
        }
      }
    }
    rs
  }

  lemma ReplaysMore(sum: Sum, d: Disk, files: seq<FileInfo>, i: nat)
    requires i < |files| && LogsThere(d, files)
    ensures var r, f := ReplayLogs(sum, d, files[..i]), files[i];
      ReplayLogs(sum, d, files[..i + 1]) == if r.ok && f.kind.LogFile? then ReplayOne(sum, r, f.number) else r
  {
    assert files[..i + 1][..i] == files[..i];
  }

  lemma ReplayTrail(sum: Sum, r: Replay, r': Replay, n: nat, was: seq<Disk>)
    requires n in r.disk.logs && r' == ReplayOne(sum, r, n)
    ensures was + r'.trail == if r'.ok then (was + r.trail) + [r'.disk] else was + r.trail
  {
    Seqs.Assoc(was, r.trail, [r'.disk]);
  }

  lemma {:induction false} ReplayFails(sum: Sum, d: Disk, files: seq<FileInfo>, i: nat)
    requires i <= |files| && LogsThere(d, files) && !ReplayLogs(sum, d, files[..i]).ok
    ensures ReplayLogs(sum, d, files) == ReplayLogs(sum, d, files[..i])
    decreases |files|
  {
    if i == |files| {
      Seqs.TakeAll(files);
    } else {
      Seqs.TakeTake(files, |files| - 1, i);
      ReplayFails(sum, d, files[..|files| - 1], i);
    }
  }

  /** What a start-up over the cleaned directory comes to, if the logs listed are there. */
  function StartFrom(sum: Sum, d: Disk, files: seq<FileInfo>, maxLog: nat, next: nat, mounted: seq<bytes>)
    : Option<Started>
  {
    if maxLog == 0 then Some(LogCreated(d, next, mounted))
    else if LogsThere(d, files) && FileInfo(maxLog, LogFile) in files && maxLog in d.logs
    then Some(LogsStarted(sum, d, files, maxLog, next, mounted))
    else None
  }

  /** What `Init` comes to once the tables are mounted, as its own state and steps. */
  lemma InitParts(sum: Sum, d: Disk, files: seq<FileInfo>) returns (r: Started)
    requires Listing(d, files)
    ensures StartFrom(sum, d.(tmps := map[]), files, LastLog(files), NextAfter(files), Mounted(d.tables)) == Some(r)
    ensures InitDone(sum, d, files) == InitFrom(ListedOpen(sum, d, files), d, CleanDisks(d, files), r)
    ensures TablesThere(d, files) && CleanedAll(d, files) == d.(tmps := map[])
    ensures Mounted(d.tables) == Pick(d.tables, TableNumbers(files))
  {
    ListedTables(sum, d, files);
    MountOrder(d, files);
    CleanedFully(d, files);
    LogsListed(d, files);
    LastLogIs(files);
    r := LogStarted(sum, d, files, Mounted(d.tables));
  }

  /** The tables open and the start-up comes to `r`, or it ends where the scan has led. */
  function InitFrom(open: bool, d: Disk, cleaning: seq<Disk>, r: Started): Started {
    if open then Started(r.state, r.disk, cleaning + r.trail) else Started(None, d.(tmps := map[]), cleaning)
  }

  method BatchFor(op: Op) returns (batch: WriteBatch)
    ensures fresh(batch) && batch.Valid() && batch.rep == BatchOf(op)
  {
    batch := new WriteBatch();
    match op {
      case Put(key, value) => batch.Put(key, value);
      case Delete(key) => batch.Delete(key);
    }
  }

  class DBImpl {
    const sum: Sum
    /** The directory, and every state it went through. */
    var disk: Disk
    ghost var trail: seq<Disk>
    var mem: MemTable
    var log: LogWriters.LogWriter?
    var tables: seq<Table>
    var logNumber: nat
    var lastSeq: nat
    var nextFile: nat

    /** The parts are in order, and the log object writes the current log. */
    ghost predicate Valid()
      reads this, log, mem, mem.table, mem.table.rng, mem.table.list
    {
      && mem.Valid() && Opened(sum, tables) && log != null && Logging(log)
    }

    ghost predicate Logging(log: LogWriters.LogWriter)
      reads `disk, `logNumber, log
    {
      log.Valid() && log.sum == sum && logNumber in disk.logs && log.file == disk.logs[logNumber]
    }

    /** What the object holds in memory. */
    ghost function Now(): Memory
      requires mem.Valid()
      reads this, mem, mem.table, mem.table.rng, mem.table.list
    {
      Memory(logNumber, mem.Entries(), Files(tables), lastSeq, nextFile)
    }

    /** Over a directory, not yet opened. */
    ghost predicate Closed()
      reads this, mem, mem.table, mem.table.rng, mem.table.list
    {
      mem.Valid() && mem.Entries() == [] && log == null && tables == [] && nextFile == 1
    }

    constructor (sum: Sum, disk: Disk)
      ensures Closed() && this.sum == sum && this.disk == disk && trail == []
      ensures fresh(mem) && fresh(mem.table) && fresh(mem.table.rng) && fresh(set x | x in mem.table.list)
    {
      this.sum, this.disk, trail := sum, disk, [];
      mem := new MemTable();
      log := null;
      tables, logNumber, lastSeq, nextFile := [], 0, 0, 1;
    }

    /** One change of the directory. */
    method SetDisk(d: Disk)
      modifies `disk, `trail
      ensures disk == d && trail == old(trail) + [d]
    {
      disk := d;
      trail := trail + [d];
    }

    // ---------------------------------------------------------------- starting up

    /** The scan: find the next file number and the last log, and remove temporary files. */
    method Scan(files: seq<FileInfo>) returns (maxLog: nat)
      requires nextFile == 1
      modifies `disk, `trail, `nextFile
      ensures Scanning(nextFile, maxLog, disk, trail) == Scanned(old(disk), files, old(trail))
    {
      ghost var d, was := disk, trail;
      maxLog := 0;
      var i := 0;
      while i < |files|
        invariant 0 <= i <= |files| && Scanning(nextFile, maxLog, disk, trail) == Scanned(d, files[..i], was)
      {
        ScanMore(d, files, i, was);
        maxLog := See(files[i], maxLog);
        i := i + 1;
      }
      Seqs.TakeAll(files);
    }

    method See(f: FileInfo, before: nat) returns (maxLog: nat)
      modifies `disk, `trail, `nextFile
      ensures Scanning(nextFile, maxLog, disk, trail) == Saw(Scanning(old(nextFile), before, old(disk), old(trail)), f)
    {
      maxLog := before;
      if f.number >= nextFile {
        nextFile := f.number + 1;
      }
      if f.kind.TempFile? {
        SetDisk(disk.(tmps := disk.tmps - {f.number}));
      } else if f.kind.LogFile? && f.number > before {
        maxLog := f.number;
      }
    }

    /** Open the tables, from the last listed to the first; stop at one that does not open. */
    method MountAll(files: seq<FileInfo>) returns (ok: bool)
      requires tables == []
      requires TablesThere(disk, files)
      modifies `tables
      ensures ok <==> ListedOpen(sum, disk, files)
      ensures ok ==> Opened(sum, tables) && Files(tables) == Pick(disk.tables, TableNumbers(files))
    {
      ghost var all := Pick(disk.tables, TableNumbers(files));
      Seqs.TakeAll(files);
      Seqs.Nil(all);
      var i := |files|;
      while i > 0
        invariant 0 <= i <= |files| && MountedFrom(files, i, all)
      {
        i := i - 1;
        ok := MountNext(files, i, all);
        if !ok {
          return;
        }
      }
      MountedWhole(files, all);
      ok := true;
    }

    /** The tables listed from `i` on are mounted. */
    ghost predicate MountedFrom(files: seq<FileInfo>, i: nat, all: seq<bytes>)
      requires i <= |files|
      reads `disk, `tables
    {
      (Opened(sum, tables), Files(tables) + Pick(disk.tables, TableNumbers(files[..i])), OpenFrom(sum, disk, files, i))
        == (true, all, true)
    }

    lemma MountedWhole(files: seq<FileInfo>, all: seq<bytes>)
      requires MountedFrom(files, 0, all)
      ensures Opened(sum, tables) && Files(tables) == all && ListedOpen(sum, disk, files)
    {
      Seqs.Nil(Files(tables));
    }

    method MountNext(files: seq<FileInfo>, i: nat, ghost all: seq<bytes>) returns (ok: bool)
      requires i < |files| && MountedFrom(files, i + 1, all)
        && (files[i].kind.TableFile? ==> files[i].number in disk.tables)
      modifies `tables
      ensures ok ==> MountedFrom(files, i, all)
      ensures !ok ==> files[i].kind.TableFile? && !Opens(sum, disk.tables[files[i].number])
    {
      NumbersStep(disk.tables, files, i);
      ok := true;
      if files[i].kind.TableFile? {
        Seqs.Assoc(Files(tables), [disk.tables[files[i].number]], Pick(disk.tables, TableNumbers(files[..i])));
        ok := MountLast(files[i].number);
      } else {
        Seqs.Nil(Pick(disk.tables, TableNumbers(files[..i])));
      }
      if ok {
        OpenMore(sum, disk, files, i);
      }
    }

    method MountLast(n: nat) returns (ok: bool)
      requires n in disk.tables && Opened(sum, tables)
      modifies `tables
      ensures ok == Opens(sum, disk.tables[n])
      ensures ok ==> Opened(sum, tables) && Files(tables) == Files(old(tables)) + [disk.tables[n]]
    {
      var r := Table.Open(sum, disk.tables[n]);
      if !r.Ok? {
        return false;
      }
      FilesSnoc(sum, tables, r.value);
      tables := tables + [r.value];
      ok := true;
    }

    /** Replay the log `n` into the memtable, and cut it where replaying stopped. */
    method Recover(n: nat, ghost r: Replay, ghost r': Replay, ghost current: Option<nat>)
      returns (ok: bool, maxSeq: nat)
      requires disk == r.disk && EntriesOf(mem) == Some(r.es) && n in disk.logs && r' == ReplayOne(sum, r, n)
        && Current() == current
      modifies `disk, `trail, mem.table, mem.table.rng, (set x | x in mem.table.list)
      ensures Grown(mem)
      ensures (ok, disk, trail) == (r'.ok, r'.disk, if r'.ok then old(trail) + [r'.disk] else old(trail))
      ensures ok ==> (EntriesOf(mem), maxSeq) == (Some(r'.es), r'.lastSeq)
      ensures ok && current.Some? && current.value != n ==> Current() == current
    {
      var file := disk.logs[n];
      var end: nat;
      ghost var es;
      ok, maxSeq, end, es := ReplayLog(sum, file, mem, r.es);
      if ok {
        Cut(n, end, current);
      }
    }

    /** Cut the log `n`; another log that is being written goes on being written. */
    method Cut(n: nat, end: nat, ghost current: Option<nat>)
      requires n in disk.logs && end <= |disk.logs[n]| && Current() == current
      modifies `disk, `trail
      ensures disk == old(disk).(logs := old(disk).logs[n := old(disk).logs[n][..end]]) && trail == old(trail) + [disk]
      ensures current.Some? && current.value != n ==> Current() == current
    {
      SetDisk(disk.(logs := disk.logs[n := disk.logs[n][..end]]));
    }

    /** The log `n` goes on being written. */
    method GoOn(n: nat, ghost es: seq<MemEntry>)
      requires n in disk.logs && EntriesOf(mem) == Some(es)
      modifies `logNumber, `log
      ensures EntriesOf(mem) == Some(es) && Current() == Some(n) && fresh(log)
    {
      logNumber := n;
      StartLog();
    }

    /** One turn of the loop over the listing: a log is replayed; the last one goes on being written. */
    method RecoverListed(n: nat, maxLog: nat, ghost r: Replay, ghost r': Replay, ghost current: Option<nat>)
      returns (ok: bool, maxSeq: nat)
      requires disk == r.disk && EntriesOf(mem) == Some(r.es) && n in disk.logs && r' == ReplayOne(sum, r, n)
        && Current() == current
      modifies `disk, `trail, `logNumber, `log, mem.table, mem.table.rng, (set x | x in mem.table.list)
      ensures Kept()
      ensures (ok, disk, trail) == (r'.ok, r'.disk, if r'.ok then old(trail) + [r'.disk] else old(trail))
      ensures ok ==> (EntriesOf(mem), maxSeq) == (Some(r'.es), r'.lastSeq)
      ensures ok && (n == maxLog || current == Some(maxLog)) ==> Current() == Some(maxLog)
    {
      ok, maxSeq := Recover(n, r, r', current);
      if ok && n == maxLog {
        GoOn(n, r'.es);
      }
    }

    /** Replay stands before the `i`th file listed, with the last log open if that is behind it. */
    ghost predicate Midway(files: seq<FileInfo>, i: nat, maxLog: nat, r: Replay, es: Option<seq<MemEntry>>,
                           current: Option<nat>)
      requires i <= |files|
      reads `disk
    {
      && r.ok && disk == r.disk && es == Some(r.es)
      && (FileInfo(maxLog, LogFile) in files[..i] ==> current == Some(maxLog))
    }

    /** The replay so far, if the loop over the listing has come to its `i`th file with that. */
    ghost function Reached(files: seq<FileInfo>, i: nat, maxLog: nat, maxSeq: nat, was: seq<Disk>, r: Replay)
      : Option<Replay>
      requires i <= |files|
      reads `disk, `trail, `logNumber, `log, log, `mem, mem, mem.table, mem.table.rng, mem.table.list
    {
      if Midway(files, i, maxLog, r, EntriesOf(mem), Current()) && maxSeq == r.lastSeq && trail == was + r.trail
      then Some(r) else None
    }

    lemma ReachedEnd(files: seq<FileInfo>, maxLog: nat, maxSeq: nat, was: seq<Disk>, r: Replay)
      requires Reached(files, |files|, maxLog, maxSeq, was, r) == Some(r) && FileInfo(maxLog, LogFile) in files
      ensures (disk, maxSeq, EntriesOf(mem), Current()) == (r.disk, r.lastSeq, Some(r.es), Some(maxLog))
    {
      Seqs.TakeAll(files);
    }

    method RecoverNext(files: seq<FileInfo>, i: nat, maxLog: nat, maxSeq: nat, ghost was: seq<Disk>,
                       ghost r: Replay, ghost r': Replay)
      returns (ok: bool, maxSeq': nat)
      requires i < |files| && Reached(files, i, maxLog, maxSeq, was, r) == Some(r)
      requires files[i].kind.LogFile? ==> files[i].number in r.disk.logs
      requires r' == if files[i].kind.LogFile? then ReplayOne(sum, r, files[i].number) else r
      modifies `disk, `trail, `logNumber, `log, mem.table, mem.table.rng, (set x | x in mem.table.list)
      ensures Kept()
      ensures (ok, disk, trail) == (r'.ok, r'.disk, was + r'.trail)
      ensures ok ==> Reached(files, i + 1, maxLog, maxSeq', was, r') == Some(r')
    {
      Seqs.TakeSnoc(files, i);
      ok, maxSeq' := true, maxSeq;
      if files[i].kind.LogFile? {
        ReplayTrail(sum, r, r', files[i].number, was);
        ok, maxSeq' := RecoverListed(files[i].number, maxLog, r, r', Current());
      }
    }

    /** Replay every log listed, in the listing's order. */
    method RecoverLogs(files: seq<FileInfo>, maxLog: nat, ghost rs: seq<Replay>) returns (ok: bool, maxSeq: nat)
      requires EntriesOf(mem) == Some([]) && Prefixes(sum, files, rs) && rs[0] == Replay(true, disk, [], 0, [])
      modifies `disk, `trail, `logNumber, `log, mem.table, mem.table.rng, (set x | x in mem.table.list)
      ensures Kept()
      ensures var r := rs[|files|]; (ok, disk, trail) == (r.ok, r.disk, old(trail) + r.trail)
      ensures ok ==> Reached(files, |files|, maxLog, maxSeq, old(trail), rs[|files|]) == Some(rs[|files|])
    {
      var i := 0;
      ok, maxSeq := true, 0;
      Seqs.Nil(trail);
      while i < |files|
        invariant 0 <= i <= |files| && ok
        invariant var r := rs[i]; (ok, disk, trail) == (r.ok, r.disk, old(trail) + r.trail)
        invariant Reached(files, i, maxLog, maxSeq, old(trail), rs[i]) == Some(rs[i])
        invariant Kept()
      {
        assert TurnAt(sum, files, rs, i);
        ok, maxSeq := RecoverNext(files, i, maxLog, maxSeq, old(trail), rs[i], rs[i + 1]);
        i := i + 1;
        if !ok {
          return;
        }
      }
    }

    /** The first log of a new database. */
    method Create()
      modifies `disk, `trail, `logNumber, `nextFile, `lastSeq, `log
      ensures fresh(log)
      ensures logNumber == old(nextFile) && nextFile == old(nextFile) + 1 && LogBytes() == Some([]) && lastSeq == 0
      ensures disk == old(disk).(logs := old(disk).logs[old(nextFile) := []]) && trail == old(trail) + [disk]
    {
      logNumber := nextFile;
      nextFile := nextFile + 1;
      SetDisk(disk.(logs := disk.logs[logNumber := []]));
      StartLog();
      lastSeq := 0;
    }

    /** Everything before the logs: the scan, then the tables. */
    method Prepare(files: seq<FileInfo>, ghost d: Disk, ghost open: bool, ghost cleaning: seq<Disk>,
                   ghost mounted: seq<bytes>)
      returns (ok: bool, maxLog: nat)
      requires tables == [] && nextFile == 1 && disk == d && TablesThere(d, files)
      requires (open, cleaning) == (ListedOpen(sum, d, files), CleanDisks(d, files))
      requires CleanedAll(d, files) == d.(tmps := map[]) && mounted == Pick(d.tables, TableNumbers(files))
      modifies `disk, `trail, `nextFile, `tables
      ensures ok == open && (ok ==> Opened(sum, tables) && Files(tables) == mounted)
      ensures (nextFile, maxLog, disk, trail)
        == (NextAfter(files), LastLog(files), d.(tmps := map[]), old(trail) + cleaning)
    {
      maxLog := Scan(files);
      ok := MountAll(files);
    }

    /** With the tables mounted: replay the logs, and go on with the last. */
    method OpenLogs(files: seq<FileInfo>, maxLog: nat, ghost mounted: seq<bytes>, ghost rs: seq<Replay>,
                    ghost r: Replay)
      returns (ok: bool)
      requires EntriesOf(mem) == Some([]) && Opened(sum, tables) && Files(tables) == mounted
      requires FileInfo(maxLog, LogFile) in files && maxLog in r.disk.logs
      requires Prefixes(sum, files, rs) && rs[0] == Replay(true, disk, [], 0, []) && rs[|files|] == r
      modifies `disk, `trail, `logNumber, `lastSeq, `log, mem.table, mem.table.rng, (set x | x in mem.table.list)
      ensures Kept()
      ensures (ok, disk, trail) == (r.ok, r.disk, old(trail) + r.trail)
      ensures ok ==> State() == Some(System(r.disk, Ready(Memory(maxLog, r.es, mounted, r.lastSeq, nextFile))))
    {
      var maxSeq;
      ok, maxSeq := RecoverLogs(files, maxLog, rs);
      if ok {
        ReachedEnd(files, maxLog, maxSeq, old(trail), r);
        Resumed(maxSeq, r.disk, Memory(maxLog, r.es, mounted, r.lastSeq, nextFile));
      }
    }

    /** What is left to do once the logs are replayed. */
    method Resumed(maxSeq: nat, ghost d: Disk, ghost memory: Memory)
      requires disk == d && EntriesOf(mem) == Some(memory.mem) && Current() == Some(memory.logNumber)
      requires Opened(sum, tables) && Files(tables) == memory.tables && maxSeq == memory.lastSeq
        && nextFile == memory.nextFile
      requires memory.logNumber in d.logs
      modifies `lastSeq
      ensures State() == Some(System(d, Ready(memory)))
    {
      lastSeq := maxSeq;
      StateIs(d, memory);
    }

    /** With the tables mounted: the first log of a new database. */
    method OpenNew(ghost d: Disk, ghost n: nat, ghost mounted: seq<bytes>)
      requires EntriesOf(mem) == Some([]) && Opened(sum, tables) && Files(tables) == mounted && disk == d
        && nextFile == n
      modifies `disk, `trail, `logNumber, `nextFile, `lastSeq, `log
      ensures fresh(log)
      ensures var r := LogCreated(d, n, mounted); (State(), disk, trail) == (r.state, r.disk, old(trail) + r.trail)
    {
      Create();
      StateIs(disk, Memory(n, [], mounted, 0, n + 1));
    }

    /** With the tables mounted: replay the logs, or create the first one. */
    method OpenLog(files: seq<FileInfo>, maxLog: nat, ghost d: Disk, ghost mounted: seq<bytes>, ghost r: Started)
      returns (ok: bool)
      requires EntriesOf(mem) == Some([]) && Opened(sum, tables) && Files(tables) == mounted && disk == d
      requires StartFrom(sum, d, files, maxLog, nextFile, mounted) == Some(r)
      modifies `disk, `trail, `logNumber, `nextFile, `lastSeq, `log, mem.table, mem.table.rng,
               (set x | x in mem.table.list)
      ensures Kept()
      ensures (ok, disk, trail) == (r.state.Some?, r.disk, old(trail) + r.trail) && (ok ==> State() == r.state)
    {
      if maxLog == 0 {
        OpenNew(d, nextFile, mounted);
        ok := true;
      } else {
        ok := OpenLogs(files, maxLog, mounted, PrefixReplays(sum, d, files), ReplayLogs(sum, d, files));
      }
    }

    /** Scan the directory, mount the tables, then replay the logs or create the first one. */
    method Init(files: seq<FileInfo>) returns (ok: bool)
      requires Closed() && Listing(disk, files)
      modifies `disk, `trail, `logNumber, `nextFile, `lastSeq, `log, `tables, mem.table, mem.table.rng,
               (set x | x in mem.table.list)
      ensures Grown(mem) && (log == null || fresh(log))
      ensures var r := InitDone(sum, old(disk), files);
        (ok, disk, trail) == (r.state.Some?, r.disk, old(trail) + r.trail) && (ok ==> State() == r.state)
    {
      ghost var r := InitParts(sum, disk, files);
      ok := InitFiles(files, disk, ListedOpen(sum, disk, files), CleanDisks(disk, files), Mounted(disk.tables), r);
    }

    method InitFiles(files: seq<FileInfo>, ghost d: Disk, ghost open: bool, ghost cleaning: seq<Disk>,
                     ghost mounted: seq<bytes>, ghost r: Started)
      returns (ok: bool)
      requires EntriesOf(mem) == Some([]) && tables == [] && nextFile == 1 && disk == d && TablesThere(d, files)
      requires (open, cleaning) == (ListedOpen(sum, d, files), CleanDisks(d, files))
      requires CleanedAll(d, files) == d.(tmps := map[]) && mounted == Pick(d.tables, TableNumbers(files))
      requires StartFrom(sum, d.(tmps := map[]), files, LastLog(files), NextAfter(files), mounted) == Some(r)
      modifies `disk, `trail, `logNumber, `nextFile, `lastSeq, `log, `tables, mem.table, mem.table.rng,
               (set x | x in mem.table.list)
      ensures Grown(mem) && (log == old(log) || fresh(log))
      ensures var r' := InitFrom(open, d, cleaning, r);
        (ok, disk, trail) == (r'.state.Some?, r'.disk, old(trail) + r'.trail) && (ok ==> State() == r'.state)
    {
      ghost var was := trail;
      var maxLog;
      ok, maxLog := Prepare(files, d, open, cleaning, mounted);
      ok := OpenRest(ok, files, maxLog, d, was, cleaning, r);
    }

    /** What follows when the tables are mounted, or are not. */
    method OpenRest(mounted: bool, files: seq<FileInfo>, maxLog: nat, ghost d: Disk, ghost was: seq<Disk>,
                    ghost cleaning: seq<Disk>, ghost r: Started)
      returns (ok: bool)
      requires disk == d.(tmps := map[]) && trail == was + cleaning
      requires mounted ==> Opened(sum, tables) && EntriesOf(mem) == Some([])
      requires mounted ==> StartFrom(sum, disk, files, maxLog, nextFile, Files(tables)) == Some(r)
      modifies `disk, `trail, `logNumber, `nextFile, `lastSeq, `log, mem.table, mem.table.rng,
               (set x | x in mem.table.list)
      ensures Grown(mem) && (log == old(log) || fresh(log))
      ensures var r' := InitFrom(mounted, d, cleaning, r);
        (ok, disk, trail) == (r'.state.Some?, r'.disk, was + r'.trail) && (ok ==> State() == r'.state)
    {
      ok := mounted;
      if mounted {
        ok := OpenLog(files, maxLog, disk, Files(tables), r);
        Seqs.Assoc(was, cleaning, r.trail);
      }
    }

    /** The file the log object writes, if that is the current log. */
    ghost function LogBytes(): Option<bytes>
      reads `disk, `logNumber, `log, log
    {
      if log != null && Logging(log) then Some(log.file) else None
    }

    /** The log that is being written. */
    ghost function Current(): Option<nat>
      reads `disk, `logNumber, `log, log
    {
      if LogBytes().Some? then Some(logNumber) else None
    }

    /** The object's place among the states of the store. */
    ghost function State(): Option<Open>
      reads this, log, mem, mem.table, mem.table.rng, mem.table.list
    {
      if Valid() then Some(System(disk, Ready(Now()))) else None
    }

    lemma StateGives(d: Disk, memory: Memory)
      requires State() == Some(System(d, Ready(memory)))
      ensures Parts(d, memory, EntriesOf(mem), LogBytes())
    {
    }

    /** `State`, part by part. */
    ghost predicate Parts(d: Disk, memory: Memory, es: Option<seq<MemEntry>>, file: Option<bytes>)
      reads this
    {
      && memory.logNumber in d.logs && Opened(sum, tables)
      && (es, file, disk, Files(tables)) == (Some(memory.mem), Some(d.logs[memory.logNumber]), d, memory.tables)
      && (logNumber, lastSeq, nextFile) == (memory.logNumber, memory.lastSeq, memory.nextFile)
    }

    lemma StateIs(d: Disk, memory: Memory)
      requires Parts(d, memory, EntriesOf(mem), LogBytes())
      ensures State() == Some(System(d, Ready(memory)))
    {
    }

    /** The objects it writes to are those it had, or new. */
    twostate predicate Kept()
      reads `log, `mem, mem.table
    {
      && (log == old(log) || fresh(log))
      && (mem == old(mem) || (fresh(mem) && fresh(mem.table) && fresh(mem.table.rng)))
      && forall x :: x in mem.table.list ==> x in old(mem.table.list) || fresh(x)
    }

    // ---------------------------------------------------------------- writing

    method LogRecord(record: bytes, ghost d: Disk, ghost memory: Memory)
      requires disk == d && logNumber == memory.logNumber && logNumber in d.logs
        && LogBytes() == Some(d.logs[logNumber])
      modifies `disk, `trail, log
      ensures disk == LoggedDisk(sum, d, memory, record) && LogBytes() == Some(disk.logs[logNumber])
        && trail == old(trail) + [disk]
    {
      log.AddRecord(record);
      SetDisk(disk.(logs := disk.logs[logNumber := log.file]));
    }

    method LogBatch(batch: WriteBatch, ghost d: Disk, ghost memory: Memory, ghost record: bytes)
      requires Parts(d, memory, EntriesOf(mem), LogBytes()) && batch.Valid()
        && record == Stamped(batch.rep, memory.lastSeq)
      modifies `disk, `trail, batch, log
      ensures Parts(LoggedDisk(sum, d, memory, record), memory, EntriesOf(mem), LogBytes())
        && trail == old(trail) + [disk]
      ensures batch.Valid() && batch.rep == record
    {
      batch.SetSequence(lastSeq + 1);
      LogRecord(batch.rep, d, memory);
    }

    /** The second half of a write: replay the logged batch into the memtable. */
    method TakeBatch(batch: WriteBatch, ghost d: Disk, ghost memory: Memory, ghost after: Memory) returns (ok: bool)
      requires Parts(d, memory, EntriesOf(mem), LogBytes()) && batch.Valid() && after == Absorbed(memory, batch.rep)
      modifies `lastSeq, mem.table, mem.table.rng, (set x | x in mem.table.list)
      ensures Grown(mem)
      ensures ok == (ReplayBatch(batch.rep).1 == WriteBatches.Ok) && Parts(d, after, EntriesOf(mem), LogBytes())
    {
      ghost var between := memory.(mem := AddCalls(memory.mem, ReplayBatch(batch.rep).0));
      var calls, status := batch.Iterate();
      TakeCalls(calls, d, memory, between);
      ok := status == WriteBatches.Ok;
      if ok {
        SetLastSeq(Counted(lastSeq, batch.rep), d, between, after);
      }
    }

    method TakeCalls(calls: seq<Call>, ghost d: Disk, ghost memory: Memory, ghost after: Memory)
      requires Parts(d, memory, EntriesOf(mem), LogBytes()) && after == memory.(mem := AddCalls(memory.mem, calls))
      modifies mem.table, mem.table.rng, (set x | x in mem.table.list)
      ensures Grown(mem)
      ensures Parts(d, after, EntriesOf(mem), LogBytes())
    {
      InsertAll(mem, calls, memory.mem);
    }

    method SetLastSeq(n: nat, ghost d: Disk, ghost memory: Memory, ghost after: Memory)
      requires Parts(d, memory, EntriesOf(mem), LogBytes()) && after == memory.(lastSeq := n)
      modifies `lastSeq
      ensures Parts(d, after, EntriesOf(mem), LogBytes())
    {
      lastSeq := n;
    }

    /** Log the batch, then take it into the memtable. */
    method Commit(batch: WriteBatch) returns (ok: bool)
      requires State().Some? && batch.Valid()
      modifies `disk, `trail, `lastSeq, batch, log, mem.table, mem.table.rng, (set x | x in mem.table.list)
      ensures Grown(mem)
      ensures var r := CommitDone(sum, old(State()).value, old(batch.rep));
        (ok, State(), trail) == Report(r, old(trail))
    {
      ghost var d, memory := State().value.disk, State().value.process.memory;
      ghost var record := Stamped(batch.rep, memory.lastSeq);
      StateGives(d, memory);
      LogBatch(batch, d, memory, record);
      ok := TakeBatch(batch, LoggedDisk(sum, d, memory, record), memory, Absorbed(memory, record));
      StateIs(LoggedDisk(sum, d, memory, record), Absorbed(memory, record));
    }

    /** Whether the memtable's memory has reached the limit. */
    function IsFull(): (full: bool)
      requires State().Some?
      reads this, log, mem, mem.table, mem.table.rng, mem.table.list
      ensures full == Full(State().value.process.memory)
    {
      mem.ApproximateMemoryUsage() >= MAX_MEM_TABLE_BYTES
    }

    /** With the batch committed: flush when the memtable is full. */
    method MakeRoom(ghost c: Done, ghost was: seq<Disk>) returns (ok: bool)
      requires c.ok && (State(), trail) == (Some(c.state), was + c.trail)
      modifies this
      ensures Kept()
      ensures var r := if Full(c.state.process.memory) then Then(c, FlushDone(sum, c.state)) else c;
        (ok, State(), trail) == Report(r, was)
    {
      ok := true;
      if IsFull() {
        Seqs.Assoc(was, c.trail, FlushDone(sum, c.state).trail);
        ok := FlushMemTable();
      }
    }

    /** `Write`: commit, then flush when the memtable is full. */
    method Write(batch: WriteBatch) returns (ok: bool)
      requires State().Some? && batch.Valid()
      modifies this, batch, log, mem.table, mem.table.rng, (set x | x in mem.table.list)
      ensures Kept()
      ensures var r := WriteDone(sum, old(State()).value, old(batch.rep));
        (ok, State(), trail) == Report(r, old(trail))
      ensures ok ==> MemUsage(State().value.process.memory.mem) < 4_194_304
    {
      ghost var c := CommitDone(sum, State().value, batch.rep);
      ok := Commit(batch);
      if ok {
        ok := MakeRoom(c, old(trail));
      }
      FlushesWhenFull(sum, old(State()).value, old(batch.rep));
    }

    method Put(key: bytes, value: bytes) returns (ok: bool)
      requires State().Some?
      modifies this, log, mem.table, mem.table.rng, (set x | x in mem.table.list)
      ensures Kept()
      ensures var r := WriteDone(sum, old(State()).value, BatchOf(Op.Put(key, value)));
        (ok, State(), trail) == Report(r, old(trail))
      ensures ok ==> MemUsage(State().value.process.memory.mem) < 4_194_304
    {
      var batch := BatchFor(Op.Put(key, value));
      ok := Write(batch);
    }

    method Delete(key: bytes) returns (ok: bool)
      requires State().Some?
      modifies this, log, mem.table, mem.table.rng, (set x | x in mem.table.list)
      ensures Kept()
      ensures var r := WriteDone(sum, old(State()).value, BatchOf(Op.Delete(key)));
        (ok, State(), trail) == Report(r, old(trail))
      ensures ok ==> MemUsage(State().value.process.memory.mem) < 4_194_304
    {
      var batch := BatchFor(Op.Delete(key));
      ok := Write(batch);
    }

    // ---------------------------------------------------------------- flushing

    /** Write the memtable out as a table, then start a new log and a new memtable. An empty memtable is left alone. */
    method FlushMemTable() returns (ok: bool)
      requires State().Some?
      modifies this
      ensures Kept()
      ensures var r := FlushDone(sum, old(State()).value);
        (ok, State(), trail) == Report(r, old(trail))
    {
      ghost var s := State().value;
      var file := FileNow(s);
      FlushDoneIs(sum, s, file);
      StateGives(s.disk, s.process.memory);
      ok := FlushFile(file, s, s.disk, s.process.memory);
    }

    method FileNow(ghost s: Open) returns (file: Option<bytes>)
      requires State() == Some(s)
      ensures State() == Some(s)
      ensures var es := s.process.memory.mem; file == if es == [] then None else Some(TableFormat.BuildTable(sum, es))
    {
      StateGives(s.disk, s.process.memory);
      file := MemFile(sum, mem, s.process.memory.mem);
    }

    /** With the file of a non-empty memtable in hand. */
    method FlushFile(file: Option<bytes>, ghost s: Open, ghost d: Disk, ghost memory: Memory) returns (ok: bool)
      requires Parts(d, memory, EntriesOf(mem), LogBytes()) && s == System(d, Ready(memory))
      modifies this
      ensures Kept()
      ensures (ok, State(), trail)
        == Report(if file.None? then Done(true, s, []) else FlushInto(sum, s, file.value), old(trail))
    {
      if file.None? {
        Seqs.Nil(trail);
        StateIs(d, memory);
        return true;
      }
      ok := FlushTo(file.value, s, d, memory);
    }

    method FlushTo(file: bytes, ghost s: Open, ghost d: Disk, ghost memory: Memory) returns (ok: bool)
      requires Parts(d, memory, EntriesOf(mem), LogBytes()) && s == System(d, Ready(memory))
      modifies this
      ensures Kept()
      ensures (ok, State(), trail) == Report(FlushInto(sum, s, file), old(trail))
    {
      ghost var ds := FlushDisks(d, memory, file);
      FlushDisksAre(d, memory, file);
      ok := Install(file, d, memory, trail, ds, Published(memory), Flushed(memory, file));
      Seqs.TakeAll(ds);
    }

    /** The next of the directory states `ds`. */
    method Advance(next: Disk, ghost k: nat, ghost was: seq<Disk>, ghost ds: seq<Disk>)
      requires k < |ds| && next == ds[k] && trail == was + ds[..k]
      modifies `disk, `trail
      ensures disk == ds[k] && trail == was + ds[..k + 1]
    {
      Seqs.TakeSnoc(ds, k);
      Seqs.Assoc(was, ds[..k], [next]);
      SetDisk(next);
    }

    /** Take a table through the directory: a temporary file, filled, renamed and mounted in front of the others;
        then the old log gives way to a new one. */
    method Install(file: bytes, ghost d: Disk, ghost memory: Memory, ghost was: seq<Disk>, ghost ds: seq<Disk>,
                   ghost between: Memory, ghost after: Memory)
      returns (ok: bool)
      requires Parts(d, memory, EntriesOf(mem), LogBytes()) && trail == was
      requires FlushGoes(d, memory, file, ds) && between == Published(memory) && after == Flushed(memory, file)
      modifies this
      ensures Kept()
      ensures ok == Opens(sum, file)
      ensures ok ==> State() == Some(System(ds[4], Ready(after))) && trail == was + ds[..5]
      ensures !ok ==> State() == Some(System(ds[2], Ready(between))) && trail == was + ds[..3]
    {
      var newLog := nextFile + 1;
      NewTable(file, was, ds);
      ok := Adopt(file, newLog, was, ds, between, after);
    }

    /** Mount the renamed file and change over to a new log, if it opens. */
    method Adopt(file: bytes, newLog: nat, ghost was: seq<Disk>, ghost ds: seq<Disk>, ghost memory: Memory,
                 ghost after: Memory)
      returns (ok: bool)
      requires |ds| == 5 && trail == was + ds[..3] && Parts(ds[2], memory, EntriesOf(mem), LogBytes())
      requires ds[3] == ds[2].(logs := ds[2].logs - {memory.logNumber})
        && ds[4] == ds[3].(logs := ds[3].logs[newLog := []])
      requires after == Memory(newLog, [], [file] + memory.tables, memory.lastSeq, memory.nextFile)
      modifies this
      ensures Kept()
      ensures ok == Opens(sum, file)
      ensures ok ==> State() == Some(System(ds[4], Ready(after))) && trail == was + ds[..5]
      ensures !ok ==> State() == Some(System(ds[2], Ready(memory))) && trail == was + ds[..3]
    {
      var table := OpenFile(sum, file);
      ok := table.Some?;
      if ok {
        Switch(table.value, newLog, was, ds, after);
      } else {
        StateIs(ds[2], memory);
      }
    }

    /** The table goes in front of the others, and a new log and memtable take over. */
    method Switch(table: Table, newLog: nat, ghost was: seq<Disk>, ghost ds: seq<Disk>, ghost after: Memory)
      requires |ds| == 5 && disk == ds[2] && trail == was + ds[..3] && Opened(sum, [table]) && Opened(sum, tables)
      requires ds[3] == disk.(logs := disk.logs - {logNumber}) && ds[4] == ds[3].(logs := ds[3].logs[newLog := []])
      requires after == Memory(newLog, [], [table.file] + Files(tables), lastSeq, nextFile)
      modifies `disk, `trail, `tables, `logNumber, `log, `mem
      ensures fresh(log) && fresh(mem) && fresh(mem.table) && fresh(mem.table.rng) && fresh(mem.table.list)
      ensures State() == Some(System(ds[4], Ready(after))) && trail == was + ds[..5]
    {
      Mount(table);
      NewLog(newLog, was, ds);
      Restart(ds[4], after);
    }

    /** A new memtable goes with the new log. */
    method Restart(ghost d: Disk, ghost after: Memory)
      requires Parts(d, after, Some([]), LogBytes())
      modifies `mem
      ensures State() == Some(System(d, Ready(after)))
      ensures fresh(mem) && fresh(mem.table) && fresh(mem.table.rng) && fresh(mem.table.list)
    {
      NewMem();
      StateIs(d, after);
    }

    method NewTable(file: bytes, ghost was: seq<Disk>, ghost ds: seq<Disk>)
      requires |ds| == 5 && trail == was && TableDisks(disk, nextFile, file, ds)
      modifies `disk, `trail, `nextFile
      ensures nextFile == old(nextFile) + 2 && disk == ds[2] && trail == was + ds[..3]
    {
      var n := nextFile;
      nextFile := n + 2;
      Seqs.Nil(was);
      Advance(disk.(tmps := disk.tmps[n := []]), 0, was, ds);
      Advance(disk.(tmps := disk.tmps[n := file]), 1, was, ds);
      Advance(disk.(tmps := disk.tmps - {n}, tables := disk.tables[n := file]), 2, was, ds);
    }

    method Mount(table: Table)
      requires Opened(sum, [table]) && Opened(sum, tables)
      modifies `tables
      ensures Opened(sum, tables) && Files(tables) == [table.file] + Files(old(tables))
    {
      OpenedCons(sum, table, tables);
      FilesCons(table, tables);
      tables := [table] + tables;
    }

    /** Remove the old log, then create the new one. */
    method NewLog(newLog: nat, ghost was: seq<Disk>, ghost ds: seq<Disk>)
      requires |ds| == 5 && disk == ds[2] && trail == was + ds[..3]
      requires ds[3] == disk.(logs := disk.logs - {logNumber}) && ds[4] == ds[3].(logs := ds[3].logs[newLog := []])
      modifies `disk, `trail, `logNumber, `log
      ensures logNumber == newLog && LogBytes() == Some([]) && disk == ds[4] && trail == was + ds[..5] && fresh(log)
    {
      Advance(disk.(logs := disk.logs - {logNumber}), 3, was, ds);
      logNumber := newLog;
      Advance(disk.(logs := disk.logs[logNumber := []]), 4, was, ds);
      StartLog();
    }

    /** An empty memtable. */
    method NewMem()
      modifies `mem
      ensures EntriesOf(mem) == Some([])
      ensures fresh(mem) && fresh(mem.table) && fresh(mem.table.rng) && fresh(mem.table.list)
    {
      mem := new MemTable();
    }

    /** A writer at the end of the current log. */
    method StartLog()
      requires logNumber in disk.logs
      modifies `log
      ensures log != null && fresh(log) && LogBytes() == Some(disk.logs[logNumber])
    {
      log := new LogWriters.LogWriter(sum, disk.logs[logNumber]);
    }

    method Get(user: bytes) returns (value: Option<bytes>)
      requires Valid()
      ensures value == DbGet(Standard(sum), Now(), user)
    {
      var state := mem.Get(user);
      if state.Found? {
        return Some(state.value);
      }
      if state.Deleted? {
        return None;
      }
      state := GetInTables(sum, tables, user);
      value := if state.Found? then Some(state.value) else None;
    }
  }
}
