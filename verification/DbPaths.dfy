/** What each operation of the database does to directory and memory, and that it does so in the store's steps. */
module DbPaths {
  import opened Bytes
  import opened DbFormat
  import opened WriteBatches
  import opened MemTables
  import opened Recovery
  import opened Layers
  import opened Store
  import opened StoreProofs
  import opened StoreTheorem
  import Seqs

  // ---------------------------------------------------------------- paths

  /** Steps from the first state to the last, with these events. */
  ghost predicate Path(fm: Formats, path: seq<System>, events: seq<Label>) {
    && |path| == |events| + 1
    && forall i :: 0 <= i < |events| ==> Step(fm, path[i], events[i], path[i + 1])
  }

  lemma PathStart(fm: Formats, s: System)
    ensures Path(fm, [s], [])
  {
  }

  lemma PathMore(fm: Formats, path: seq<System>, events: seq<Label>, s: System, event: Label, s': System)
    requires Path(fm, path, events) && path[|events|] == s && Step(fm, s, event, s')
    ensures Path(fm, path + [s'], events + [event])
  {
    var path', events' := path + [s'], events + [event];
    forall i | 0 <= i < |events'| ensures Step(fm, path'[i], events'[i], path'[i + 1]) {
      PathMoreAt(fm, path, events, s', event, path', events', i);
    }
  }

  lemma PathMoreAt(fm: Formats, path: seq<System>, events: seq<Label>, s': System, event: Label, path': seq<System>,
                   events': seq<Label>, i: nat)
    requires Path(fm, path, events) && Step(fm, path[|events|], event, s')
    requires path' == path + [s'] && events' == events + [event] && i < |events'|
    ensures Step(fm, path'[i], events'[i], path'[i + 1])
  {
    if i < |events| {
      assert Step(fm, path[i], events[i], path[i + 1]);
      assert path'[i] == path[i] && path'[i + 1] == path[i + 1] && events'[i] == events[i];
    }
  }

  /** A path from where a run ends makes a longer run. */
  lemma RunThenPath(fm: Formats, run: seq<System>, events: seq<Label>, path: seq<System>, more: seq<Label>)
    requires IsRun(fm, run, events) && Path(fm, path, more) && run[|events|] == path[0]
    ensures IsRun(fm, run + path[1..], events + more)
  {
    var all, labels := run + path[1..], events + more;
    forall i | 0 <= i < |labels| ensures Step(fm, all[i], labels[i], all[i + 1]) {
      if i < |events| {
        assert Step(fm, run[i], events[i], run[i + 1]);
      } else {
        var j := i - |events|;
        assert Step(fm, path[j], more[j], path[j + 1]);
        assert all[i] == path[j] && all[i + 1] == path[j + 1];
      }
    }
  }

  /** The directory states on a path. */
  function Disks(path: seq<System>): (ds: seq<Disk>)
    ensures |ds| == |path|
  {
    seq(|path|, i requires 0 <= i < |path| => path[i].disk)
  }

  // ---------------------------------------------------------------- a write

  /** The directory with `added` at the end of the current log. */
  function LogGrown(d: Disk, memory: Memory, added: bytes): Disk
    requires memory.logNumber in d.logs
  {
    d.(logs := d.logs[memory.logNumber := d.logs[memory.logNumber] + added])
  }

  /** The memory after a write that leaves `es` in the memtable. */
  function Holding(memory: Memory, es: seq<MemEntry>, lastSeq: nat): Memory {
    memory.(mem := es, lastSeq := lastSeq)
  }

  lemma RememberedIs(memory: Memory, ops: seq<Op>, start: nat, es: seq<MemEntry>, lastSeq: nat)
    requires start == memory.lastSeq + 1 && es == AddCalls(memory.mem, Calls(start, ops))
    requires lastSeq == memory.lastSeq + |ops|
    ensures Remembered(memory, ops) == Holding(memory, es, lastSeq)
  {
  }

  function WritePath(d: Disk, memory: Memory, ops: seq<Op>, added: bytes): seq<System>
    requires memory.logNumber in d.logs
  {
    var before, d' := d.logs[memory.logNumber], LogGrown(d, memory, added);
    [System(d, Ready(memory)), System(d, Writing(memory, ops, before, 0)),
     System(d', Writing(memory, ops, before, |added|)), System(d', Ready(Remembered(memory, ops)))]
  }

  lemma BeginIs(fm: Formats, d: Disk, memory: Memory, ops: seq<Op>)
    requires memory.logNumber in d.logs && OpsFit(ops) && memory.lastSeq + |ops| <= MAX_SEQUENCE
    ensures Step(fm, System(d, Ready(memory)), Begin(ops), System(d, Writing(memory, ops, d.logs[memory.logNumber], 0)))
  {
  }

  lemma AppendIs(fm: Formats, d: Disk, memory: Memory, ops: seq<Op>, before: bytes, added: bytes)
    requires memory.logNumber in d.logs && before == d.logs[memory.logNumber]
    requires added == fm.added(before, Record(memory, ops)) && added != []
    ensures Step(fm, System(d, Writing(memory, ops, before, 0)), Internal,
      System(LogGrown(d, memory, added), Writing(memory, ops, before, |added|)))
  {
    Seqs.TakeAll(added);
    assert AppendStep(fm, System(d, Writing(memory, ops, before, 0)),
      System(LogGrown(d, memory, added), Writing(memory, ops, before, |added|)), |added|);
  }

  lemma AckIs(fm: Formats, d: Disk, memory: Memory, ops: seq<Op>, before: bytes, added: bytes)
    requires added == fm.added(before, Record(memory, ops))
    ensures Step(fm, System(d, Writing(memory, ops, before, |added|)), Ack, System(d, Ready(Remembered(memory, ops))))
  {
  }

  /** A write is a path of the store that begins, appends and acknowledges. */
  lemma WriteIsPath(fm: Formats, d: Disk, memory: Memory, ops: seq<Op>, added: bytes)
    requires memory.logNumber in d.logs && OpsFit(ops) && memory.lastSeq + |ops| <= MAX_SEQUENCE
    requires added == fm.added(d.logs[memory.logNumber], Record(memory, ops)) && added != []
    ensures Path(fm, WritePath(d, memory, ops, added), [Begin(ops), Internal, Ack])
  {
    var before, d' := d.logs[memory.logNumber], LogGrown(d, memory, added);
    BeginIs(fm, d, memory, ops);
    AppendIs(fm, d, memory, ops, before, added);
    AckIs(fm, d', memory, ops, before, added);
  }

  // ---------------------------------------------------------------- a flush

  /** The directory states of a flush of `memory` to the table `file`. */
  function FlushDisks(d: Disk, memory: Memory, file: bytes): seq<Disk> {
    var n := memory.nextFile;
    var begun := d.(tmps := d.tmps[n := []]);
    var filled := d.(tmps := d.tmps[n := file]);
    var renamed := d.(tmps := d.tmps - {n}, tables := d.tables[n := file]);
    var removed := renamed.(logs := renamed.logs - {memory.logNumber});
    [begun, filled, renamed, removed, removed.(logs := removed.logs[n + 1 := []])]
  }

  /** The memory after it: an empty memtable with a new log, and the table in front. */
  function Flushed(memory: Memory, file: bytes): Memory {
    Memory(memory.nextFile + 1, [], [file] + memory.tables, memory.lastSeq, memory.nextFile + 2)
  }

  function FlushPath(d: Disk, memory: Memory, file: bytes): seq<System> {
    var n := memory.nextFile;
    var ds := FlushDisks(d, memory, file);
    var m := memory.(nextFile := n + 2);
    var m' := m.(tables := [file] + m.tables);
    [System(d, Ready(memory)), System(ds[0], Flushing(m, Filling, n, n + 1)),
     System(ds[1], Flushing(m, Filling, n, n + 1)),
     System(ds[2], Flushing(m', Renamed, n, n + 1)), System(ds[3], Flushing(m', LogGone, n, n + 1)),
     System(ds[4], Ready(Flushed(memory, file)))]
  }

  lemma FlushBegins(fm: Formats, d: Disk, memory: Memory, file: bytes)
    requires memory.mem != [] && fm.fits(memory.mem)
    ensures var p := FlushPath(d, memory, file); Step(fm, p[0], Internal, p[1])
  {
    var p := FlushPath(d, memory, file);
    assert FlushStep(fm, p[0], p[1]);
  }

  lemma FlushFills(fm: Formats, d: Disk, memory: Memory, file: bytes)
    requires file == fm.table(memory.mem)
    ensures var p := FlushPath(d, memory, file); Step(fm, p[1], Internal, p[2])
  {
    var p := FlushPath(d, memory, file);
    assert FillStep(fm, p[1], p[2], file);
  }

  lemma FlushRenames(fm: Formats, d: Disk, memory: Memory, file: bytes)
    requires file == fm.table(memory.mem)
    ensures var p := FlushPath(d, memory, file); Step(fm, p[2], Internal, p[3])
  {
    var p := FlushPath(d, memory, file);
    assert d.tmps - {memory.nextFile} == d.tmps[memory.nextFile := file] - {memory.nextFile};
    assert RenameStep(fm, p[2], p[3]);
  }

  lemma FlushRotates(fm: Formats, d: Disk, memory: Memory, file: bytes)
    ensures var p := FlushPath(d, memory, file); Step(fm, p[3], Internal, p[4]) && Step(fm, p[4], Internal, p[5])
  {
    var p := FlushPath(d, memory, file);
    assert RemoveStep(p[3], p[4]);
    assert RotateStep(p[4], p[5]);
  }

  const FLUSH_EVENTS: seq<Label> := [Internal, Internal, Internal, Internal, Internal]

  /** A flush is a path of the store, through exactly its directory states. */
  lemma FlushIsPath(fm: Formats, d: Disk, memory: Memory, file: bytes)
    requires memory.mem != [] && fm.fits(memory.mem) && file == fm.table(memory.mem)
    ensures Path(fm, FlushPath(d, memory, file), FLUSH_EVENTS)
    ensures Disks(FlushPath(d, memory, file)) == [d] + FlushDisks(d, memory, file)
  {
    FlushBegins(fm, d, memory, file);
    FlushFills(fm, d, memory, file);
    FlushRenames(fm, d, memory, file);
    FlushRotates(fm, d, memory, file);
    FivePath(fm, FlushPath(d, memory, file));
    FlushShows(d, memory, file, FlushPath(d, memory, file), [d] + FlushDisks(d, memory, file));
  }

  lemma FivePath(fm: Formats, p: seq<System>)
    requires |p| == 6 && Step(fm, p[0], Internal, p[1]) && Step(fm, p[1], Internal, p[2])
    requires Step(fm, p[2], Internal, p[3]) && Step(fm, p[3], Internal, p[4]) && Step(fm, p[4], Internal, p[5])
    ensures Path(fm, p, FLUSH_EVENTS)
  {
    forall i | 0 <= i < 5 ensures Step(fm, p[i], FLUSH_EVENTS[i], p[i + 1]) {
      assert i == 0 || i == 1 || i == 2 || i == 3 || i == 4;
    }
  }

  lemma FlushShows(d: Disk, memory: Memory, file: bytes, path: seq<System>, ds: seq<Disk>)
    requires path == FlushPath(d, memory, file) && ds == [d] + FlushDisks(d, memory, file)
    ensures Disks(path) == ds
  {
    forall i | 0 <= i < 6 ensures path[i].disk == ds[i] {
      assert i == 0 || ds[i] == FlushDisks(d, memory, file)[i - 1];
    }
  }

  // ---------------------------------------------------------------- starting up

  datatype FileType = LogFile | TableFile | TempFile

  datatype FileInfo = FileInfo(number: nat, kind: FileType)

  /** By number, and no file twice. */
  predicate Ascending(files: seq<FileInfo>) {
    forall i, j :: 0 <= i < j < |files| ==> files[i].number <= files[j].number && files[i] != files[j]
  }

  /** `files` lists the directory, numbers ascending. */
  ghost predicate Listing(d: Disk, files: seq<FileInfo>) {
    && Ascending(files)
    && (forall n :: n in d.logs <==> FileInfo(n, LogFile) in files)
    && (forall n :: n in d.tables <==> FileInfo(n, TableFile) in files)
    && (forall n :: n in d.tmps <==> FileInfo(n, TempFile) in files)
  }

  method Least(s: set<nat>) returns (n: nat)
    requires s != {}
    ensures n in s && forall i :: i in s ==> n <= i
  {
    n :| n in s;
    var rest := s - {n};
    while rest != {}
      invariant rest <= s && n in s && forall i :: i in s && i !in rest ==> n <= i
      decreases rest
    {
      var m :| m in rest;
      if m < n {
        n := m;
      }
      rest := rest - {m};
    }
  }

  /** The files with one number. */
  function FilesAt(d: Disk, n: nat): seq<FileInfo> {
    (if n in d.logs then [FileInfo(n, LogFile)] else []) + (if n in d.tables then [FileInfo(n, TableFile)] else [])
    + (if n in d.tmps then [FileInfo(n, TempFile)] else [])
  }

  /** A listing of the directory but for the numbers `left`, which are greater. */
  ghost predicate ListedBut(d: Disk, left: set<nat>, files: seq<FileInfo>) {
    && Ascending(files) && (forall f :: f in files ==> f in FilesAt(d, f.number))
    && (forall n, f :: n in Numbers(d) && n !in left && f in FilesAt(d, n) ==> f in files)
    && (forall n, f :: n in left && f in files ==> f.number < n)
  }

  lemma FilesAtOne(d: Disk, n: nat)
    ensures Ascending(FilesAt(d, n)) && forall f :: f in FilesAt(d, n) ==> f.number == n
  {
  }

  lemma AscendingMore(files: seq<FileInfo>, more: seq<FileInfo>, n: nat)
    requires Ascending(files) && Ascending(more)
    requires (forall f :: f in files ==> f.number < n) && forall f :: f in more ==> f.number == n
    ensures Ascending(files + more)
  {
    var all := files + more;
    forall i, j | 0 <= i < j < |all| ensures all[i].number <= all[j].number && all[i] != all[j] {
      assert all[i] == if i < |files| then files[i] else more[i - |files|];
      assert all[j] == if j < |files| then files[j] else more[j - |files|];
      assert i < |files| <= j ==> files[i] in files && more[j - |files|] in more;
    }
  }

  lemma ListedMore(d: Disk, left: set<nat>, files: seq<FileInfo>, n: nat)
    requires ListedBut(d, left, files) && n in left && forall i :: i in left ==> n <= i
    ensures ListedBut(d, left - {n}, files + FilesAt(d, n))
  {
    FilesAtOne(d, n);
    AscendingMore(files, FilesAt(d, n), n);
  }

  lemma ListedAt(d: Disk, files: seq<FileInfo>, n: nat)
    requires ListedBut(d, {}, files)
    ensures n in d.logs <==> FileInfo(n, LogFile) in files
    ensures n in d.tables <==> FileInfo(n, TableFile) in files
    ensures n in d.tmps <==> FileInfo(n, TempFile) in files
  {
    assert n in d.logs ==> n in Numbers(d) && FileInfo(n, LogFile) in FilesAt(d, n);
    assert n in d.tables ==> n in Numbers(d) && FileInfo(n, TableFile) in FilesAt(d, n);
    assert n in d.tmps ==> n in Numbers(d) && FileInfo(n, TempFile) in FilesAt(d, n);
  }

  lemma AllListed(d: Disk, files: seq<FileInfo>)
    requires ListedBut(d, {}, files)
    ensures Listing(d, files)
  {
    forall n: nat
      ensures n in d.logs <==> FileInfo(n, LogFile) in files
      ensures n in d.tables <==> FileInfo(n, TableFile) in files
      ensures n in d.tmps <==> FileInfo(n, TempFile) in files
    {
      ListedAt(d, files, n);
    }
  }

  /** The directory's files by ascending number. */
  method ListFiles(d: Disk) returns (files: seq<FileInfo>)
    ensures Listing(d, files)
  {
    files := [];
    var left := Numbers(d);
    while left != {}
      invariant left <= Numbers(d) && ListedBut(d, left, files)
      decreases left
    {
      var n := Least(left);
      ListedMore(d, left, files, n);
      files := files + FilesAt(d, n);
      left := left - {n};
    }
    AllListed(d, files);
  }

  /** The next file number after the scan. */
  function NextAfter(files: seq<FileInfo>): (n: nat)
    ensures n >= 1 && (forall f :: f in files ==> f.number < n)
    ensures n == 1 || exists f :: f in files && f.number == n - 1
  {
    if files == [] then 1 else
    var head, last := files[..|files| - 1], files[|files| - 1];
    assert files == head + [last];
    if last.number >= NextAfter(head) then last.number + 1 else NextAfter(head)
  }

  lemma NextIsAbove(d: Disk, files: seq<FileInfo>, n: nat)
    requires Listing(d, files) && n >= 1 && (forall f :: f in files ==> f.number < n)
    requires n == 1 || exists f :: f in files && f.number == n - 1
    ensures IsNext(d, n)
  {
    forall i | i in Numbers(d) ensures i < n {
      if i in d.logs {
        assert FileInfo(i, LogFile).number < n;
      } else if i in d.tables {
        assert FileInfo(i, TableFile).number < n;
      } else {
        assert FileInfo(i, TempFile).number < n;
      }
    }
    if n > 1 {
      var f :| f in files && f.number == n - 1;
      match f.kind {
        case LogFile => assert f == FileInfo(n - 1, LogFile);
        case TableFile => assert f == FileInfo(n - 1, TableFile);
        case TempFile => assert f == FileInfo(n - 1, TempFile);
      }
    }
  }

  lemma NextIs(d: Disk, files: seq<FileInfo>)
    requires Listing(d, files)
    ensures IsNext(d, NextAfter(files))
  {
    NextIsAbove(d, files, NextAfter(files));
  }

  /** The directory after one file of the listing was seen: temporary files are removed. */
  function Cleaned(d: Disk, f: FileInfo): Disk {
    if f.kind.TempFile? then d.(tmps := d.tmps - {f.number}) else d
  }

  function CleanedAll(d: Disk, files: seq<FileInfo>): Disk {
    if files == [] then d else Cleaned(CleanedAll(d, files[..|files| - 1]), files[|files| - 1])
  }

  /** The directory states of that scan. */
  function CleanDisks(d: Disk, files: seq<FileInfo>): seq<Disk> {
    if files == [] then []
    else
      CleanDisks(d, files[..|files| - 1]) + (if files[|files| - 1].kind.TempFile? then [CleanedAll(d, files)] else [])
  }

  lemma {:induction false} CleanedIs(d: Disk, files: seq<FileInfo>)
    ensures var c := CleanedAll(d, files);
      && c.logs == d.logs && c.tables == d.tables
      && forall n :: n in c.tmps <==> n in d.tmps && FileInfo(n, TempFile) !in files
    decreases |files|
  {
    if files != [] {
      var head, last := files[..|files| - 1], files[|files| - 1];
      CleanedIs(d, head);
      assert files == head + [last];
    }
  }

  /** Over a full listing no temporary file is left. */
  lemma CleanedFully(d: Disk, files: seq<FileInfo>)
    requires Listing(d, files)
    ensures CleanedAll(d, files) == d.(tmps := map[])
  {
    CleanedIs(d, files);
    assert CleanedAll(d, files).tmps == map[];
  }

  /** The state in which the database opens: over the replayed log, or over a new one. */
  ghost function InitState(d: Disk, next: nat, replayed: Option<(seq<MemEntry>, nat)>, kept: bytes): Option<System> {
    if d.logs == map[] then
      Some(System(d.(tmps := map[], logs := map[next := []]), Ready(Memory(next, [], Mounted(d.tables), 0, next + 1))))
    else if replayed.None? then None
    else
      var n := Greatest(d.logs.Keys);
      Some(System(d.(tmps := map[], logs := map[n := kept]),
                  Ready(Memory(n, replayed.value.0, Mounted(d.tables), replayed.value.1, next))))
  }

  /** The log that a start-up replays. */
  ghost function OldLog(d: Disk): bytes {
    if d.logs == map[] then [] else d.logs[Greatest(d.logs.Keys)]
  }

  function Silent(n: nat): (es: seq<Label>)
    ensures |es| == n
  {
    seq(n, i => Internal)
  }

  lemma SilentMore(n: nat)
    ensures Silent(n + 1) == Silent(n) + [Internal]
  {
  }

  /** A path without visible events from `s` to `s'`, through the directory states `ds`. */
  ghost predicate SilentPath(fm: Formats, path: seq<System>, s: System, s': System, ds: seq<Disk>) {
    && |path| > 0 && Path(fm, path, Silent(|path| - 1)) && path[0] == s && path[|path| - 1] == s'
    && Disks(path) == [s.disk] + ds
  }

  lemma SilentStep(fm: Formats, path: seq<System>, s: System, s': System, ds: seq<Disk>, next: System)
    returns (longer: seq<System>)
    requires SilentPath(fm, path, s, s', ds) && InternalStep(fm, s', next)
    ensures SilentPath(fm, longer, s, next, ds + [next.disk])
  {
    longer := path + [next];
    SilentMore(|path| - 1);
    PathMore(fm, path, Silent(|path| - 1), s', Internal, next);
    assert Disks(longer) == Disks(path) + [next.disk];
  }

  lemma {:induction false} CleaningIsPath(fm: Formats, d: Disk, files: seq<FileInfo>, next: nat)
    returns (path: seq<System>)
    requires IsNext(d, next) && (forall i :: 0 <= i < |files| && files[i].kind.TempFile? ==> files[i].number in d.tmps)
    requires forall i, j :: 0 <= i < j < |files| ==> files[i] != files[j]
    ensures SilentPath(fm, path, System(d, Down), System(CleanedAll(d, files), Cleaning(next)),
      [d] + CleanDisks(d, files))
    decreases |files|
  {
    if files == [] {
      PathStart(fm, System(d, Down));
      assert SilentPath(fm, [System(d, Down)], System(d, Down), System(d, Down), []);
      assert ScanStep(System(d, Down), System(d, Cleaning(next)));
      path := SilentStep(fm, [System(d, Down)], System(d, Down), System(d, Down), [], System(d, Cleaning(next)));
    } else {
      var head, last := files[..|files| - 1], files[|files| - 1];
      path := CleaningIsPath(fm, d, head, next);
      if last.kind.TempFile? {
        CleanedIs(d, head);
        var s, s' := System(CleanedAll(d, head), Cleaning(next)), System(CleanedAll(d, files), Cleaning(next));
        assert last == FileInfo(last.number, TempFile) && last !in head;
        assert CleanStep(s, s', last.number);
        path := SilentStep(fm, path, System(d, Down), s, [d] + CleanDisks(d, head), s');
        Seqs.Assoc([d], CleanDisks(d, head), [s'.disk]);
      } else {
        Seqs.Nil(CleanDisks(d, head));
      }
    }
  }

  lemma TempsListed(d: Disk, files: seq<FileInfo>)
    requires Listing(d, files)
    ensures forall i :: 0 <= i < |files| && files[i].kind.TempFile? ==> files[i].number in d.tmps
  {
    forall i | 0 <= i < |files| && files[i].kind.TempFile? ensures files[i].number in d.tmps {
      assert files[i] == FileInfo(files[i].number, TempFile);
    }
  }

  lemma MountIs(fm: Formats, d: Disk, next: nat, s': System)
    requires forall n :: n in d.tables ==> fm.opens(d.tables[n])
    requires forall n :: n in d.logs ==> d.logs.Keys == {n} && n > 0
    requires InitState(d, next, Recovered(fm.records(OldLog(d)), [], 0), fm.truncated(OldLog(d))) == Some(s')
    ensures InternalStep(fm, System(d.(tmps := map[]), Cleaning(next)), s')
  {
    var s := System(d.(tmps := map[]), Cleaning(next));
    if d.logs == map[] {
      assert CreateStep(fm, s, s');
    } else {
      assert RecoverStep(fm, s, s', Greatest(d.logs.Keys));
    }
  }

  /** Starting up is a silent path of the store: scan, remove temporary files one by one, then recover or create the
      log. */
  lemma InitIsPath(fm: Formats, d: Disk, files: seq<FileInfo>, s': System) returns (path: seq<System>)
    requires Listing(d, files)
    requires forall n :: n in d.tables ==> fm.opens(d.tables[n])
    requires forall n :: n in d.logs ==> d.logs.Keys == {n} && n > 0
    requires InitState(d, NextAfter(files), Recovered(fm.records(OldLog(d)), [], 0), fm.truncated(OldLog(d)))
      == Some(s')
    ensures SilentPath(fm, path, System(d, Down), s', [d] + CleanDisks(d, files) + [s'.disk])
  {
    var next := NextAfter(files);
    NextIs(d, files);
    TempsListed(d, files);
    CleanedFully(d, files);
    path := CleaningIsPath(fm, d, files, next);
    MountIs(fm, d, next, s');
    path := SilentStep(fm, path, System(d, Down), System(d.(tmps := map[]), Cleaning(next)),
      [d] + CleanDisks(d, files), s');
  }

  // ---------------------------------------------------------------- mounting in the listing's reverse order

  /** The numbers of the listed tables, last first. */
  function TableNumbers(files: seq<FileInfo>): seq<nat> {
    if files == [] then []
    else
      (if files[|files| - 1].kind.TableFile? then [files[|files| - 1].number] else [])
      + TableNumbers(files[..|files| - 1])
  }

  function TableSet(files: seq<FileInfo>): set<nat> {
    if files == [] then {}
    else
      TableSet(files[..|files| - 1])
      + (if files[|files| - 1].kind.TableFile? then {files[|files| - 1].number} else {})
  }

  lemma {:induction false} TableSetIs(files: seq<FileInfo>, n: nat)
    ensures n in TableSet(files) <==> FileInfo(n, TableFile) in files
    decreases |files|
  {
    if files != [] {
      TableSetIs(files[..|files| - 1], n);
      Seqs.SnocLast(files);
    }
  }

  lemma LastAbove(files: seq<FileInfo>, i: nat)
    requires files != [] && Ascending(files) && files[|files| - 1].kind.TableFile?
      && i in TableSet(files[..|files| - 1])
    ensures i < files[|files| - 1].number
  {
    TableSetIs(files[..|files| - 1], i);
    var j :| 0 <= j < |files| - 1 && files[j] == FileInfo(i, TableFile);
  }

  lemma {:induction false} ReverseIsDescending(files: seq<FileInfo>)
    requires Ascending(files)
    ensures TableNumbers(files) == Descending(TableSet(files))
    decreases |files|
  {
    if files != [] {
      var head, n := files[..|files| - 1], files[|files| - 1].number;
      ReverseIsDescending(head);
      if files[|files| - 1].kind.TableFile? {
        forall i | i in TableSet(head) ensures i < n {
          LastAbove(files, i);
        }
        DescendingAbove(TableSet(head), n);
      } else {
        Seqs.Nil(TableNumbers(head));
        assert TableSet(head) + {} == TableSet(head);
      }
    }
  }

  /** Walking the listing backwards meets the tables newest first. */
  lemma MountOrder(d: Disk, files: seq<FileInfo>)
    requires Listing(d, files)
    ensures Pick(d.tables, TableNumbers(files)) == Mounted(d.tables)
  {
    ReverseIsDescending(files);
    forall n: nat ensures n in TableSet(files) <==> n in d.tables {
      TableSetIs(files, n);
    }
    assert TableSet(files) == d.tables.Keys;
  }

  /** The greatest listed log number, or 0. */
  function LastLog(files: seq<FileInfo>): nat {
    if files == [] then 0 else
    var f, before := files[|files| - 1], LastLog(files[..|files| - 1]);
    if f.kind.LogFile? && f.number > before then f.number else before
  }

  lemma {:induction false} LastLogIs(files: seq<FileInfo>)
    ensures LastLog(files) == 0 || FileInfo(LastLog(files), LogFile) in files
    ensures forall n: nat :: FileInfo(n, LogFile) in files ==> n <= LastLog(files)
    decreases |files|
  {
    if files != [] {
      LastLogIs(files[..|files| - 1]);
      Seqs.SnocLast(files);
    }
  }

  /** `n` is the one log, or 0 when there is none. */
  ghost predicate OnlyLog(d: Disk, n: nat) {
    if n == 0 then d.logs == map[] else n in d.logs && Greatest(d.logs.Keys) == n && d.logs.Keys == {n}
  }

  /** With one log at most, that is the one. */
  lemma LastLogOnly(d: Disk, files: seq<FileInfo>)
    requires Listing(d, files) && forall n :: n in d.logs ==> d.logs.Keys == {n} && n > 0
    ensures OnlyLog(d, LastLog(files))
  {
    LastLogIs(files);
    if d.logs != map[] {
      var n := Greatest(d.logs.Keys);
      assert n in d.logs && FileInfo(n, LogFile) in files;
    }
  }

  /** What start-up relies on holds of every directory a run leaves behind. */
  lemma DownFacts(fm: Formats, run: seq<System>, events: seq<Label>, d: Disk) returns (batches: seq<Logged>)
    requires LogLaws(fm) && TableLaws(fm) && IsRun(fm, run, events) && run[|events|] == System(d, Down)
    ensures forall n :: n in d.tables ==> fm.opens(d.tables[n])
    ensures forall n :: n in d.logs ==> d.logs.Keys == {n} && n > 0
    ensures Chained(batches) && (d.logs != map[] ==> fm.records(OldLog(d)) == Encoded(batches))
  {
    var ts, ws := Refines(fm, run, events);
    var t, w := ts[|events|], ws[|events|];
    assert Inv(fm, System(d, Down), t, w);
    TablesOpen(fm, d, w, t.written);
    batches := w.batches;
    forall n | n in d.logs ensures d.logs.Keys == {n} && n > 0 {
      LogReads(fm, d, w, t.written, n);
    }
    if d.logs != map[] {
      LogReads(fm, d, w, t.written, Greatest(d.logs.Keys));
    }
  }
}
