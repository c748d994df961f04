/** What each operation of the database object comes to, as a function of its state, and that the store's steps lead
    there (src/db/db_impl.cc). */
module DbSteps {
  import opened Bytes
  import opened Checksums
  import opened DbFormat
  import opened WriteBatches
  import opened MemTables
  import opened Recovery
  import opened Store
  import opened StandardFormats
  import opened DbReplay
  import opened DbPaths
  import opened StoreTheorem
  import LogFormat
  import LogProofs
  import TableFormat
  import TableProofs
  import Coding
  import Seqs

  /** An open database, with a log to write to. */
  type Open = s: System | s.process.Ready? && s.process.memory.logNumber in s.disk.logs
    witness System(Disk(map[1 := []], map[], map[]), Ready(Memory(1, [], [], 0, 2)))

  /** The outcome of an operation: its success, the state it leaves, and the directory states on the way. */
  datatype Done = Done(ok: bool, state: Open, trail: seq<Disk>)

  /** What the object shows of an outcome: success, its state, and the directory states so far. */
  function Report(r: Done, was: seq<Disk>): (bool, Option<Open>, seq<Disk>) {
    (r.ok, Some(r.state), was + r.trail)
  }

  // ---------------------------------------------------------------- a write

  /** The batch with its sequence number set: the record that is logged. */
  function Stamped(rep: bytes, lastSeq: nat): bytes
    requires |rep| >= HEADER
  {
    Coding.Fixed(lastSeq + 1, 8) + rep[8..]
  }

  /** What a record makes of the memory. Its operations count even when it turns out to be corrupt behind them. */
  function Absorbed(memory: Memory, record: bytes): Memory
    requires |record| >= HEADER
  {
    var r := ReplayBatch(record);
    memory.(mem := AddCalls(memory.mem, r.0),
            lastSeq := if r.1 == WriteBatches.Ok then Counted(memory.lastSeq, record) else memory.lastSeq)
  }

  /** The record's count added in 64 bits; it may be negative. */
  function Counted(lastSeq: nat, record: bytes): nat
    requires |record| >= HEADER
  {
    (lastSeq + Count(record)) % Coding.U64
  }

  function LoggedDisk(sum: Sum, d: Disk, memory: Memory, record: bytes): Disk
    requires memory.logNumber in d.logs
  {
    LogGrown(d, memory, LogProofs.Added(sum, d.logs[memory.logNumber], record))
  }

  /** Log the batch, then replay it into the memtable. */
  function CommitDone(sum: Sum, s: Open, rep: bytes): Done
    requires |rep| >= HEADER
  {
    var memory := s.process.memory;
    var record := Stamped(rep, memory.lastSeq);
    var d := LoggedDisk(sum, s.disk, memory, record);
    Done(ReplayBatch(record).1 == WriteBatches.Ok, System(d, Ready(Absorbed(memory, record))), [d])
  }

  predicate Opens(sum: Sum, file: bytes) {
    TableFormat.OpenTable(sum, file).Ok?
  }

  /** The memory once the file is in place: two numbers are taken. */
  function Published(memory: Memory): Memory {
    memory.(nextFile := memory.nextFile + 2)
  }

  /** A flush to a file that opens as a table. */
  function FlushOpened(s: Open, file: bytes): Done {
    var memory, ds := s.process.memory, FlushDisks(s.disk, s.process.memory, file);
    Done(true, System(ds[4], Ready(Flushed(memory, file))), ds)
  }

  /** A file that does not open stays in the directory, under the old log. */
  function FlushUnopened(s: Open, file: bytes): Done {
    var memory, ds := s.process.memory, FlushDisks(s.disk, s.process.memory, file);
    Done(false, System(ds[2], Ready(Published(memory))), ds[..3])
  }

  function FlushInto(sum: Sum, s: Open, file: bytes): Done {
    if Opens(sum, file) then FlushOpened(s, file) else FlushUnopened(s, file)
  }

  function FlushDone(sum: Sum, s: Open): Done {
    if s.process.memory.mem == [] then Done(true, s, [])
    else FlushInto(sum, s, TableFormat.BuildTable(sum, s.process.memory.mem))
  }

  function Then(first: Done, second: Done): Done {
    Done(second.ok, second.state, first.trail + second.trail)
  }

  const MAX_MEM_TABLE_BYTES: nat := 4 * 1024 * 1024

  /** The memtable's memory has reached the limit. */
  predicate Full(memory: Memory) {
    MemUsage(memory.mem) >= MAX_MEM_TABLE_BYTES
  }

  /** `Write`: commit, then flush when the memtable is full. */
  function WriteDone(sum: Sum, s: Open, rep: bytes): Done
    requires |rep| >= HEADER
  {
    var c := CommitDone(sum, s, rep);
    if c.ok && Full(c.state.process.memory) then Then(c, FlushDone(sum, c.state)) else c
  }

  lemma EmptyUsage()
    ensures MemUsage([]) == 128
  {
  }

  lemma FlushShows(sum: Sum, s: Open)
    requires MemUsage(s.process.memory.mem) >= 4_194_304
    ensures var r := FlushDone(sum, s);
      |r.trail| >= 3 && (r.ok <==> |r.trail| == 5) && (r.ok ==> r.state.process.memory.mem == [])
  {
    EmptyUsage();
  }

  /** A write flushes exactly when the batch was sound and the memtable has come to 4 megabytes with it. So a write that
      succeeds leaves less than that, and one that does not flush changes the directory once. */
  lemma FlushesWhenFull(sum: Sum, s: Open, rep: bytes)
    requires |rep| >= HEADER
    ensures var r, c := WriteDone(sum, s, rep), CommitDone(sum, s, rep);
      && (|r.trail| > 1 <==> c.ok && MemUsage(c.state.process.memory.mem) >= 4_194_304)
      && (|r.trail| <= 1 ==> r == c && |r.trail| == 1)
      && (r.ok ==> MemUsage(r.state.process.memory.mem) < 4_194_304)
  {
    var c := CommitDone(sum, s, rep);
    if c.ok && MemUsage(c.state.process.memory.mem) >= 4_194_304 {
      FlushShows(sum, c.state);
      EmptyUsage();
    }
  }

  /** The batch that `Put` and `Delete` make. */
  function BatchOf(op: Op): (rep: bytes)
    ensures |rep| >= HEADER
  {
    AppendOp(Batch(0, []), op)
  }

  // ---------------------------------------------------------------- starting up

  /** The replay of some of the logs: whether all were sound, the directory, the memtable, the last log's greatest
      sequence number. */
  datatype Replay = Replay(ok: bool, disk: Disk, es: seq<MemEntry>, lastSeq: nat, trail: seq<Disk>)

  function Kept(sum: Sum, file: bytes): bytes {
    file[..ReplayedEnd(sum, file)]
  }

  /** One more log: replayed into the memtable, then cut. */
  function ReplayOne(sum: Sum, r: Replay, n: nat): Replay
    requires n in r.disk.logs
  {
    var file := r.disk.logs[n];
    var found := Recovered(LogFormat.Records(sum, file), r.es, 0);
    if found.None? then r.(ok := false)
    else
      var d := r.disk.(logs := r.disk.logs[n := Kept(sum, file)]);
      Replay(true, d, found.value.0, found.value.1, r.trail + [d])
  }

  /** All the logs of a listing, in its order, until one is corrupt. */
  function ReplayLogs(sum: Sum, d: Disk, files: seq<FileInfo>): (r: Replay)
    requires forall i :: 0 <= i < |files| && files[i].kind.LogFile? ==> files[i].number in d.logs
    ensures r.disk.logs.Keys == d.logs.Keys
  {
    if files == [] then Replay(true, d, [], 0, [])
    else
      var r, f := ReplayLogs(sum, d, files[..|files| - 1]), files[|files| - 1];
      if r.ok && f.kind.LogFile? then ReplayOne(sum, r, f.number) else r
  }

  /** How a start-up ends: in an open database or in none, with what it did to the directory. */
  datatype Started = Started(state: Option<Open>, disk: Disk, trail: seq<Disk>)

  lemma LogsListed(d: Disk, files: seq<FileInfo>)
    requires Listing(d, files)
    ensures forall i :: 0 <= i < |files| && files[i].kind.LogFile? ==> files[i].number in d.logs
    ensures LastLog(files) != 0 ==> LastLog(files) in d.logs
  {
    forall i | 0 <= i < |files| && files[i].kind.LogFile? ensures files[i].number in d.logs {
      assert files[i] == FileInfo(files[i].number, LogFile);
    }
    LastLogIs(files);
  }

  /** The start-up that replays all logs and goes on with log `n`. */
  function LogsStarted(sum: Sum, d: Disk, files: seq<FileInfo>, n: nat, next: nat, mounted: seq<bytes>): Started
    requires n in d.logs && forall i :: 0 <= i < |files| && files[i].kind.LogFile? ==> files[i].number in d.logs
  {
    var r := ReplayLogs(sum, d, files);
    Started(if r.ok then Some(System(r.disk, Ready(Memory(n, r.es, mounted, r.lastSeq, next)))) else None,
            r.disk, r.trail)
  }

  /** The start-up that creates the log `n`. */
  function LogCreated(d: Disk, n: nat, mounted: seq<bytes>): Started {
    var created := d.(logs := d.logs[n := []]);
    Started(Some(System(created, Ready(Memory(n, [], mounted, 0, n + 1)))), created, [created])
  }

  /** With the tables mounted: replay the logs, or create the first one. Only a log numbered above 0 counts. */
  ghost function LogStarted(sum: Sum, d: Disk, files: seq<FileInfo>, mounted: seq<bytes>): Started
    requires Listing(d, files)
  {
    LogsListed(d, files);
    if LastLog(files) == 0 then LogCreated(d.(tmps := map[]), NextAfter(files), mounted)
    else LogsStarted(sum, d.(tmps := map[]), files, LastLog(files), NextAfter(files), mounted)
  }

  ghost predicate TablesOpen(sum: Sum, d: Disk) {
    forall n :: n in d.tables ==> Opens(sum, d.tables[n])
  }

  /** `Init`: remove temporary files, mount the tables, see to the logs. */
  ghost function InitDone(sum: Sum, d: Disk, files: seq<FileInfo>): Started
    requires Listing(d, files)
  {
    if TablesOpen(sum, d) then
      var r := LogStarted(sum, d, files, Mounted(d.tables));
      Started(r.state, r.disk, CleanDisks(d, files) + r.trail)
    else Started(None, d.(tmps := map[]), CleanDisks(d, files))
  }

  // ---------------------------------------------------------------- a write is a path of the store

  lemma StandardAdded(sum: Sum, before: bytes, record: bytes)
    ensures Standard(sum).added(before, record) == LogProofs.Added(sum, before, record) != []
  {
    AddedSome(sum, before, record);
  }

  lemma StandardTable(sum: Sum, es: seq<MemEntry>)
    ensures Standard(sum).table(es) == TableFormat.BuildTable(sum, es)
      && Standard(sum).fits(es) == TableFormat.TableFits(sum, TableFormat.BlocksOf(es))
  {
  }

  lemma StandardLog(sum: Sum, file: bytes)
    ensures Standard(sum).records(file) == LogFormat.Records(sum, file)
      && Standard(sum).truncated(file) == LogProofs.Truncated(sum, file)
  {
  }

  lemma StandardOpens(sum: Sum, file: bytes)
    ensures Standard(sum).opens(file) == Opens(sum, file)
  {
  }

  lemma StampedIs(start: nat, start': nat, lastSeq: nat, ops: seq<Op>)
    requires start' == lastSeq + 1
    ensures Stamped(Batch(start, ops), lastSeq) == Batch(start', ops)
  {
    var head, head', count := Coding.Fixed(start, 8), Coding.Fixed(start', 8), Coding.Fixed(|ops|, 4);
    Seqs.Assoc(head, count, EncodeOps(ops));
    Seqs.Assoc(head', count, EncodeOps(ops));
    Seqs.DropRight(head, count + EncodeOps(ops), 8);
    Seqs.DropNone(count + EncodeOps(ops));
  }

  lemma AbsorbedIs(memory: Memory, ops: seq<Op>, start: nat, record: bytes)
    requires OpsFit(ops) && memory.lastSeq + |ops| <= MAX_SEQUENCE
    requires start == memory.lastSeq + 1 && record == Batch(start, ops)
    ensures Absorbed(memory, record) == Remembered(memory, ops) && ReplayBatch(record).1 == WriteBatches.Ok
  {
    IterateRoundTrip(start, ops);
    AbsorbedParts(memory, record, Calls(start, ops), |ops|);
    RememberedIs(memory, ops, start, AddCalls(memory.mem, Calls(start, ops)), memory.lastSeq + |ops|);
  }

  lemma AbsorbedParts(memory: Memory, record: bytes, calls: seq<Call>, n: nat)
    requires |record| >= HEADER && ReplayBatch(record) == (calls, WriteBatches.Ok) && Count(record) == n
    requires memory.lastSeq + n <= MAX_SEQUENCE
    ensures Absorbed(memory, record) == Holding(memory, AddCalls(memory.mem, calls), memory.lastSeq + n)
  {
  }

  /** The state after a write was logged and taken into the memtable. */
  function Committed(sum: Sum, s: Open, ops: seq<Op>): Open {
    var memory := s.process.memory;
    System(LoggedDisk(sum, s.disk, memory, Record(memory, ops)), Ready(Remembered(memory, ops)))
  }

  /** A batch of operations within the format's sizes and numbers is committed whole. */
  lemma CommitDoneIs(sum: Sum, s: Open, start: nat, ops: seq<Op>)
    requires OpsFit(ops) && s.process.memory.lastSeq + |ops| <= MAX_SEQUENCE
    ensures CommitDone(sum, s, Batch(start, ops)) == Done(true, Committed(sum, s, ops), [Committed(sum, s, ops).disk])
  {
    var memory := s.process.memory;
    StampedIs(start, memory.lastSeq + 1, memory.lastSeq, ops);
    AbsorbedIs(memory, ops, memory.lastSeq + 1, Record(memory, ops));
  }

  /** Committing it is begin, append and acknowledge. */
  lemma CommitIsPath(sum: Sum, fm: Formats, s: Open, ops: seq<Op>) returns (path: seq<System>)
    requires fm == Standard(sum) && OpsFit(ops) && s.process.memory.lastSeq + |ops| <= MAX_SEQUENCE
    ensures Path(fm, path, [Begin(ops), Internal, Ack]) && path[0] == s && path[3] == Committed(sum, s, ops)
  {
    var d, memory := s.disk, s.process.memory;
    var added := LogProofs.Added(sum, d.logs[memory.logNumber], Record(memory, ops));
    StandardAdded(sum, d.logs[memory.logNumber], Record(memory, ops));
    WriteIsPath(fm, d, memory, ops, added);
    path := WritePath(d, memory, ops, added);
  }

  lemma BatchOfIs(op: Op)
    requires OpFits(op)
    ensures BatchOf(op) == Batch(0, [op])
  {
    AppendOpBatch(0, [], op);
    Seqs.Nil([op]);
  }

  /** A batch with an unknown tag behind `ops`: it is logged whole, its sound operations enter the memtable, the write
      fails and the last number stays. */
  lemma CommitUnknown(sum: Sum, s: Open, start: nat, ops: seq<Op>, n: nat, tag: byte, rest: bytes)
    requires OpsFit(ops) && |ops| < n < I32 && tag >= 2 && s.process.memory.lastSeq + 1 < Coding.U64
    ensures var rep := Coding.Fixed(start, 8) + Coding.Fixed(n, 4) + EncodeOps(ops) + [tag] + rest;
      var memory, r := s.process.memory, CommitDone(sum, s, rep);
      && !r.ok && r.state.process.memory == memory.(mem := AddCalls(memory.mem, Calls(memory.lastSeq + 1, ops)))
      && r.state.disk == LoggedDisk(sum, s.disk, memory,
           Coding.Fixed(memory.lastSeq + 1, 8) + Coding.Fixed(n, 4) + EncodeOps(ops) + [tag] + rest)
  {
    var tail := EncodeOps(ops) + [tag] + rest;
    StampsAny(start, n, EncodeOps(ops), [tag], rest, s.process.memory.lastSeq);
    IterateUnknown(s.process.memory.lastSeq + 1, ops, n, tag, rest);
  }

  lemma SameModulo(a: nat, count: int, n: nat)
    requires n == count % 0x1_0000_0000_0000_0000
    ensures (a + count) % 0x1_0000_0000_0000_0000 == (a + n) % 0x1_0000_0000_0000_0000
  {
  }

  /** The number after `n` more, in 64 bits, or the same. */
  function Moved(lastSeq: nat, ok: bool, n: nat): nat {
    if ok then (lastSeq + n) % 0x1_0000_0000_0000_0000 else lastSeq
  }

  lemma SoundCalls(record: bytes, n: nat)
    requires |record| >= HEADER && ReplayBatch(record).1 == WriteBatches.Ok && n == |ReplayBatch(record).0|
    ensures n == Quota(record)
  {
    IterateCounts(record);
  }

  lemma AbsorbsSound(memory: Memory, record: bytes, n: nat)
    requires |record| >= HEADER && ReplayBatch(record).1 == WriteBatches.Ok && n == Quota(record)
    ensures Absorbed(memory, record).lastSeq == Moved(memory.lastSeq, true, n)
  {
    CountedIs(memory.lastSeq, record, n);
  }

  lemma CountedIs(lastSeq: nat, record: bytes, quota: nat)
    requires |record| >= HEADER && quota == Quota(record)
    ensures Counted(lastSeq, record) == Moved(lastSeq, true, quota)
  {
    CountIsSigned(record);
    SameModulo(lastSeq, Count(record), quota);
  }

  lemma AbsorbsCorrupt(memory: Memory, record: bytes)
    requires |record| >= HEADER && ReplayBatch(record).1 != WriteBatches.Ok
    ensures Absorbed(memory, record).lastSeq == Moved(memory.lastSeq, false, 0)
  {
  }

  lemma AbsorbsCounted(memory: Memory, record: bytes, calls: seq<Call>, status: WriteBatches.Status)
    requires |record| >= HEADER && ReplayBatch(record) == (calls, status)
    ensures Absorbed(memory, record).lastSeq == Moved(memory.lastSeq, status == WriteBatches.Ok, |calls|)
  {
    if status == WriteBatches.Ok {
      SoundCalls(record, |calls|);
      AbsorbsSound(memory, record, |calls|);
    } else {
      AbsorbsCorrupt(memory, record);
    }
  }

  /** A write of any bytes that succeeds moves the last number by as many as it has operations, in 64 bits; one that
      does not leaves it. */
  lemma CommitCounts(sum: Sum, s: Open, rep: bytes, record: bytes)
    requires |rep| >= HEADER && record == Stamped(rep, s.process.memory.lastSeq)
    ensures var r := CommitDone(sum, s, rep);
      r.state.process.memory.lastSeq == Moved(s.process.memory.lastSeq, r.ok, |ReplayBatch(record).0|)
  {
    AbsorbsCounted(s.process.memory, record, ReplayBatch(record).0, ReplayBatch(record).1);
  }

  lemma StampsAny(start: nat, n: nat, a: bytes, b: bytes, c: bytes, lastSeq: nat)
    ensures Stamped(Coding.Fixed(start, 8) + Coding.Fixed(n, 4) + a + b + c, lastSeq)
         == Coding.Fixed(lastSeq + 1, 8) + Coding.Fixed(n, 4) + a + b + c
  {
    Restamp(Coding.Fixed(start, 8), Coding.Fixed(lastSeq + 1, 8), Coding.Fixed(n, 4), a, b, c);
  }

  lemma Restamp(x: bytes, y: bytes, n: bytes, a: bytes, b: bytes, c: bytes)
    requires |x| == 8
    ensures y + (x + n + a + b + c)[8..] == y + n + a + b + c
  {
  }

  // ---------------------------------------------------------------- so is a flush

  /** Table `n` in place and in front of the others, and log `n + 1` after it, empty, instead of the old one. */
  predicate Rotated(s: Open, t: Open, file: bytes) {
    var memory, n := s.process.memory, s.process.memory.nextFile;
    && t.disk.tables == s.disk.tables[n := file] && t.disk.tmps == s.disk.tmps - {n}
    && t.disk.logs == (s.disk.logs - {memory.logNumber})[n + 1 := []]
    && t.process.memory == Memory(n + 1, [], [file] + memory.tables, memory.lastSeq, n + 2)
  }

  /** Table `n` in place, but neither log nor memtable touched. */
  predicate Stranded(s: Open, t: Open, file: bytes) {
    var memory, n := s.process.memory, s.process.memory.nextFile;
    && t.disk.tables == s.disk.tables[n := file] && t.disk.tmps == s.disk.tmps - {n} && t.disk.logs == s.disk.logs
    && t.process.memory == memory.(nextFile := n + 2)
  }

  lemma OpenedRotates(s: Open, file: bytes)
    ensures Rotated(s, FlushOpened(s, file).state, file)
  {
  }

  lemma UnopenedStrands(s: Open, file: bytes)
    ensures Stranded(s, FlushUnopened(s, file).state, file)
  {
  }

  /** There is nothing to flush of an empty memtable. */
  lemma FlushNothing(sum: Sum, s: Open)
    requires s.process.memory.mem == []
    ensures FlushDone(sum, s).ok && FlushDone(sum, s).state == s && FlushDone(sum, s).trail == []
  {
  }

  /** What a flush comes to, whether the table opens or not; if not, every answer is as it was. */
  lemma FlushNet(sum: Sum, fm: Formats, s: Open, file: bytes, opens: bool, user: bytes)
    requires s.process.memory.mem != [] && file == TableFormat.BuildTable(sum, s.process.memory.mem)
    requires opens == Opens(sum, file)
    ensures var r := FlushDone(sum, s);
      && r.ok == opens && (if opens then Rotated(s, r.state, file) else Stranded(s, r.state, file))
      && (!opens ==> DbGet(fm, r.state.process.memory, user) == DbGet(fm, s.process.memory, user))
  {
    if opens {
      OpenedRotates(s, file);
    } else {
      UnopenedStrands(s, file);
      SameAnswers(fm, s.process.memory, s.process.memory.nextFile + 2, user);
    }
  }

  lemma SameAnswers(fm: Formats, memory: Memory, next: nat, user: bytes)
    ensures DbGet(fm, memory.(nextFile := next), user) == DbGet(fm, memory, user)
  {
  }

  predicate MemFits(sum: Sum, s: Open) {
    TableFormat.TableFits(sum, TableFormat.BlocksOf(s.process.memory.mem))
  }

  lemma BuiltOpens(sum: Sum, es: seq<MemEntry>, file: bytes)
    requires file == TableFormat.BuildTable(sum, es) && TableFormat.TableFits(sum, TableFormat.BlocksOf(es))
    ensures Opens(sum, file)
  {
    TableProofs.OpenBuiltTable(sum, TableFormat.BlocksOf(es));
  }

  /** A flush of a memtable that fits succeeds. It is a silent path through exactly the directory states it leaves
      behind. */
  lemma FlushTakesSteps(sum: Sum, fm: Formats, s: Open) returns (path: seq<System>)
    requires fm == Standard(sum) && s.process.memory.mem != [] && MemFits(sum, s)
    ensures var r := FlushDone(sum, s);
      && r.ok && Path(fm, path, FLUSH_EVENTS) && path[0] == s && path[5] == r.state && Disks(path) == [s.disk] + r.trail
  {
    var memory := s.process.memory;
    var file := TableFormat.BuildTable(sum, memory.mem);
    BuiltOpens(sum, memory.mem, file);
    StandardTable(sum, memory.mem);
    FlushIsPath(fm, s.disk, memory, file);
    path := FlushPath(s.disk, memory, file);
  }

  // ---------------------------------------------------------------- and starting up

  lemma {:induction false} NoLogs(sum: Sum, d: Disk, files: seq<FileInfo>)
    requires forall i :: 0 <= i < |files| ==> !files[i].kind.LogFile?
    ensures ReplayLogs(sum, d, files) == Replay(true, d, [], 0, [])
    decreases |files|
  {
    if files != [] {
      NoLogs(sum, d, files[..|files| - 1]);
    }
  }

  /** With one log, that one is replayed. */
  lemma {:induction false} OneLog(sum: Sum, d: Disk, files: seq<FileInfo>, n: nat)
    requires Ascending(files) && n in d.logs && FileInfo(n, LogFile) in files
    requires forall i :: 0 <= i < |files| && files[i].kind.LogFile? ==> files[i].number == n
    ensures ReplayLogs(sum, d, files) == ReplayOne(sum, Replay(true, d, [], 0, []), n)
    decreases |files|
  {
    var head, f := files[..|files| - 1], files[|files| - 1];
    Seqs.SnocLast(files);
    if f.kind.LogFile? {
      forall i | 0 <= i < |head| ensures !head[i].kind.LogFile? {
        assert files[i] == head[i] && files[i] != f;
        assert head[i] == FileInfo(head[i].number, head[i].kind) && f == FileInfo(n, LogFile);
      }
      NoLogs(sum, d, head);
    } else {
      OneLog(sum, d, head, n);
    }
  }

  /** No two files listed are the same log. */
  predicate LogsOnce(files: seq<FileInfo>) {
    forall i, j :: 0 <= i < j < |files| && files[i].kind.LogFile? && files[j].kind.LogFile? ==>
      files[i].number != files[j].number
  }

  /** None of the logs listed is corrupt. */
  ghost predicate LogsSound(sum: Sum, d: Disk, files: seq<FileInfo>)
    requires forall i :: 0 <= i < |files| && files[i].kind.LogFile? ==> files[i].number in d.logs
  {
    forall i :: 0 <= i < |files| && files[i].kind.LogFile? ==>
      !Corrupts(LogFormat.Records(sum, d.logs[files[i].number]))
  }

  /** Logs not listed are left alone. */
  lemma {:induction false} ReplaysListed(sum: Sum, d: Disk, files: seq<FileInfo>, n: nat)
    requires forall i :: 0 <= i < |files| && files[i].kind.LogFile? ==> files[i].number in d.logs
    requires n in d.logs && FileInfo(n, LogFile) !in files
    ensures ReplayLogs(sum, d, files).disk.logs[n] == d.logs[n]
    decreases |files|
  {
    if files != [] {
      Seqs.SnocLast(files);
      ReplaysListed(sum, d, files[..|files| - 1], n);
      assert files[|files| - 1] == FileInfo(files[|files| - 1].number, files[|files| - 1].kind);
    }
  }

  lemma NotBefore(files: seq<FileInfo>, m: nat)
    requires LogsOnce(files) && m < |files| && files[m].kind.LogFile?
    ensures FileInfo(files[m].number, LogFile) !in files[..m]
  {
    forall i | 0 <= i < m ensures files[..m][i] != FileInfo(files[m].number, LogFile) {
      assert files[..m][i] == files[i];
    }
  }

  /** Replaying succeeds exactly when no log is corrupt. */
  lemma {:induction false} ReplaysSound(sum: Sum, d: Disk, files: seq<FileInfo>)
    requires LogsOnce(files)
    requires forall i :: 0 <= i < |files| && files[i].kind.LogFile? ==> files[i].number in d.logs
    ensures ReplayLogs(sum, d, files).ok <==> LogsSound(sum, d, files)
    decreases |files|
  {
    if files != [] {
      var m := |files| - 1;
      var head, f := files[..m], files[m];
      ReplaysSound(sum, d, head);
      assert forall i :: 0 <= i < m ==> head[i] == files[i];
      if f.kind.LogFile? {
        NotBefore(files, m);
        ReplaysListed(sum, d, head, f.number);
        var r := ReplayLogs(sum, d, head);
        FailsOnCorrupt(LogFormat.Records(sum, d.logs[f.number]), r.es, 0);
      }
    }
  }

  /** The records of all logs listed, as far as each is replayed. */
  function ListedRecords(sum: Sum, d: Disk, files: seq<FileInfo>): seq<bytes>
    requires forall i :: 0 <= i < |files| && files[i].kind.LogFile? ==> files[i].number in d.logs
  {
    if files == [] then []
    else
      var head, f := files[..|files| - 1], files[|files| - 1];
      ListedRecords(sum, d, head)
        + if f.kind.LogFile? then Replayable(LogFormat.Records(sum, d.logs[f.number])) else []
  }

  lemma {:induction false} ListedBatches(sum: Sum, d: Disk, files: seq<FileInfo>)
    requires forall i :: 0 <= i < |files| && files[i].kind.LogFile? ==> files[i].number in d.logs
    ensures AllBatches(ListedRecords(sum, d, files))
    decreases |files|
  {
    if files != [] {
      var f := files[|files| - 1];
      ListedBatches(sum, d, files[..|files| - 1]);
      if f.kind.LogFile? {
        ReplayableAll(LogFormat.Records(sum, d.logs[f.number]));
      }
    }
  }

  /** Several logs are replayed one behind the other into one memtable; the last number is that of the last one alone.
      */
  lemma {:induction false} SeveralLogs(sum: Sum, d: Disk, files: seq<FileInfo>) returns (l: nat)
    requires forall i :: 0 <= i < |files| && files[i].kind.LogFile? ==> files[i].number in d.logs
    requires LogsOnce(files) && ReplayLogs(sum, d, files).ok
    ensures Recovered(ListedRecords(sum, d, files), [], 0) == Some((ReplayLogs(sum, d, files).es, l))
    ensures files != [] && files[|files| - 1].kind.LogFile? ==>
      var found := Recovered(LogFormat.Records(sum, d.logs[files[|files| - 1].number]), [], 0);
      found.Some? && found.value.1 == ReplayLogs(sum, d, files).lastSeq
    decreases |files|
  {
    if files == [] {
      return 0;
    }
    var m := |files| - 1;
    var head, f := files[..m], files[m];
    assert forall i :: 0 <= i < m ==> head[i] == files[i];
    l := SeveralLogs(sum, d, head);
    if f.kind.LogFile? {
      NotBefore(files, m);
      ReplaysListed(sum, d, head, f.number);
      ListedBatches(sum, d, head);
      var r, records := ReplayLogs(sum, d, head), LogFormat.Records(sum, d.logs[f.number]);
      var found := Recovered(records, r.es, 0);
      l := OneMoreLog(ListedRecords(sum, d, head), records, r.es, l, found.value.0, found.value.1);
      NumbersAlone(records, r.es, [], 0);
    } else {
      Seqs.Nil(ListedRecords(sum, d, head));
    }
  }

  lemma ListedOnce(files: seq<FileInfo>)
    requires Ascending(files)
    ensures LogsOnce(files)
  {
    forall i, j | 0 <= i < j < |files| && files[i].kind.LogFile? && files[j].kind.LogFile?
      ensures files[i].number != files[j].number
    {
      assert files[i] == FileInfo(files[i].number, LogFile) && files[j] == FileInfo(files[j].number, LogFile);
    }
  }

  /** Whether a directory can be opened: every table opens, and unless there is no log but one numbered 0, no log
      holds a corrupt batch. */
  lemma OpensExactly(sum: Sum, d: Disk, files: seq<FileInfo>)
    requires Listing(d, files)
    ensures InitDone(sum, d, files).state.Some?
       <==> && (forall n :: n in d.tables ==> Opens(sum, d.tables[n]))
            && (d.logs.Keys <= {0} || forall n :: n in d.logs ==> !Corrupts(LogFormat.Records(sum, d.logs[n])))
  {
    LogsListed(d, files);
    LastLogIs(files);
    ListedOnce(files);
    var cleaned := d.(tmps := map[]);
    ReplaysSound(sum, cleaned, files);
    SoundMeans(sum, cleaned, files, d);
    NoLogNumbered(d, files);
  }

  lemma SoundMeans(sum: Sum, cleaned: Disk, files: seq<FileInfo>, d: Disk)
    requires Listing(d, files) && cleaned.logs == d.logs
    requires forall i :: 0 <= i < |files| && files[i].kind.LogFile? ==> files[i].number in d.logs
    ensures LogsSound(sum, cleaned, files)
       <==> forall n :: n in d.logs ==> !Corrupts(LogFormat.Records(sum, d.logs[n]))
  {
    forall n | n in d.logs ensures exists i :: 0 <= i < |files| && files[i].kind.LogFile? && files[i].number == n {
      assert FileInfo(n, LogFile) in files;
    }
  }

  lemma NoLogNumbered(d: Disk, files: seq<FileInfo>)
    requires Listing(d, files)
    ensures LastLog(files) == 0 <==> d.logs.Keys <= {0}
  {
    LastLogIs(files);
    forall n | n in d.logs ensures n <= LastLog(files) {
      assert FileInfo(n, LogFile) in files;
    }
  }

  lemma EncodedAreBatches(bs: seq<Logged>)
    ensures AllBatches(Encoded(bs))
  {
    forall i | 0 <= i < |bs| ensures |Encoded(bs)[i]| >= HEADER {
      BatchLength(bs[i]);
    }
  }

  lemma KeptIs(sum: Sum, file: bytes, bs: seq<Logged>)
    requires LogFormat.Records(sum, file) == Encoded(bs) && Chained(bs)
    ensures Kept(sum, file) == LogProofs.Truncated(sum, file)
    ensures Recovered(LogFormat.Records(sum, file), [], 0) == Some((MemOf(bs), MaxEnd(bs)))
  {
    EncodedAreBatches(bs);
    KeepsBatches(sum, file);
    RecoverAll(bs);
  }

  /** What a start-up relies on: at most one log, of chained batches, and tables that open. */
  ghost predicate Sound(sum: Sum, d: Disk, bs: seq<Logged>) {
    && TablesOpen(sum, d) && (forall n :: n in d.logs ==> d.logs.Keys == {n} && n > 0) && Chained(bs)
    && (d.logs != map[] ==> LogFormat.Records(sum, OldLog(d)) == Encoded(bs))
  }

  /** `n` is the one log listed. */
  predicate OnlyFile(files: seq<FileInfo>, n: nat) {
    && Ascending(files) && FileInfo(n, LogFile) in files
    && forall i :: 0 <= i < |files| && files[i].kind.LogFile? ==> files[i].number == n
  }

  lemma OnlyListed(d: Disk, files: seq<FileInfo>, n: nat)
    requires Listing(d, files) && d.logs.Keys == {n}
    ensures OnlyFile(files, n)
  {
    forall i | 0 <= i < |files| && files[i].kind.LogFile? ensures files[i].number == n {
      assert files[i] == FileInfo(files[i].number, LogFile);
    }
    assert n in d.logs;
  }

  lemma ReplayOneIs(sum: Sum, d: Disk, file: bytes, bs: seq<Logged>, n: nat, kept: bytes)
    requires d.logs.Keys == {n} && d.logs[n] == file && kept == Kept(sum, file)
    requires Recovered(LogFormat.Records(sum, file), [], 0) == Some((MemOf(bs), MaxEnd(bs)))
    ensures var d' := d.(logs := map[n := kept]);
      ReplayOne(sum, Replay(true, d, [], 0, []), n) == Replay(true, d', MemOf(bs), MaxEnd(bs), [d'])
  {
    assert d.logs[n := kept] == map[n := kept];
  }

  lemma ReplayIs(sum: Sum, d: Disk, files: seq<FileInfo>, bs: seq<Logged>, n: nat, kept: bytes)
    requires OnlyFile(files, n) && d.logs.Keys == {n} && kept == LogProofs.Truncated(sum, d.logs[n])
    requires LogFormat.Records(sum, d.logs[n]) == Encoded(bs) && Chained(bs)
    ensures var d' := d.(logs := map[n := kept]);
      ReplayLogs(sum, d, files) == Replay(true, d', MemOf(bs), MaxEnd(bs), [d'])
  {
    KeptIs(sum, d.logs[n], bs);
    ReplayOneIs(sum, d, d.logs[n], bs, n, kept);
    OneLog(sum, d, files, n);
  }

  ghost function StandardInit(sum: Sum, d: Disk, files: seq<FileInfo>): Option<System> {
    InitState(d, NextAfter(files), Recovered(LogFormat.Records(sum, OldLog(d)), [], 0),
              LogProofs.Truncated(sum, OldLog(d)))
  }

  /** There the start-up comes to what the store's steps do. */
  lemma LogStartedIs(sum: Sum, d: Disk, files: seq<FileInfo>, bs: seq<Logged>) returns (s: Open)
    requires Listing(d, files) && Sound(sum, d, bs)
    ensures StandardInit(sum, d, files) == Some(s)
    ensures LogStarted(sum, d, files, Mounted(d.tables)) == Started(Some(s), s.disk, [s.disk])
  {
    LastLogOnly(d, files);
    LogsListed(d, files);
    var cleaned, n := d.(tmps := map[]), LastLog(files);
    if n == 0 {
      s := LogCreated(cleaned, NextAfter(files), Mounted(d.tables)).state.value;
      assert cleaned.logs[NextAfter(files) := []] == map[NextAfter(files) := []];
    } else {
      OnlyListed(d, files, n);
      ReplayIs(sum, cleaned, files, bs, n, LogProofs.Truncated(sum, OldLog(d)));
      KeptIs(sum, OldLog(d), bs);
      s := LogsStarted(sum, cleaned, files, n, NextAfter(files), Mounted(d.tables)).state.value;
    }
  }

  /** On every directory that a run with crashes leaves behind, `Init` succeeds. It is a silent path through exactly
      the directory states it leaves in its trail. */
  lemma InitTakesSteps(sum: Sum, fm: Formats, run: seq<System>, events: seq<Label>, d: Disk, files: seq<FileInfo>)
    returns (path: seq<System>, s: Open)
    requires fm == Standard(sum) && IsRun(fm, run, events) && run[|events|] == System(d, Down) && Listing(d, files)
    ensures InitDone(sum, d, files) == Started(Some(s), s.disk, CleanDisks(d, files) + [s.disk])
    ensures SilentPath(fm, path, System(d, Down), s, [d] + CleanDisks(d, files) + [s.disk])
  {
    LogObeys(sum);
    TableObeys(sum);
    var bs := DownFacts(fm, run, events, d);
    forall n | n in d.tables ensures Opens(sum, d.tables[n]) {
      StandardOpens(sum, d.tables[n]);
    }
    StandardLog(sum, OldLog(d));
    s := LogStartedIs(sum, d, files, bs);
    path := InitIsPath(fm, d, files, s);
  }
}
