/** The database as a machine over disk steps, with a crash possible between any two (src/db/db_impl.cc). */
module Store {
  import opened Bytes
  import opened Coding
  import opened DbFormat
  import opened WriteBatches
  import opened MemTables

  // ---------------------------------------------------------------- files

  /** What the store needs of its log and table files. */
  datatype Formats = Formats(
    // the records a log reads as, whether it ends with a good fragment, what recovery keeps of it, what one record adds
    records: bytes -> seq<bytes>,
    clean: bytes -> bool,
    truncated: bytes -> bytes,
    added: (bytes, bytes) -> bytes,
    // the table of a memtable's contents, whether these fit one, whether a file opens as a table, and a lookup in it
    table: seq<MemEntry> -> bytes,
    fits: seq<MemEntry> -> bool,
    opens: bytes -> bool,
    tableGet: (bytes, bytes) -> LookupState)

  // ---------------------------------------------------------------- state

  /** File contents by number: logs, tables, and tables still under construction. */
  datatype Disk = Disk(logs: map<nat, bytes>, tables: map<nat, bytes>, tmps: map<nat, bytes>)

  const EMPTY_DISK: Disk := Disk(map[], map[], map[])

  /** What an open database holds in memory; its tables newest first. */
  datatype Memory = Memory(logNumber: nat, mem: seq<MemEntry>, tables: seq<bytes>, lastSeq: nat, nextFile: nat)

  /** How far a flush has come: temporary file open, renamed, old log gone. */
  datatype Stage = Filling | Renamed | LogGone

  datatype Process =
    | Down
    | Cleaning(nextFile: nat)
    | Ready(memory: Memory)
    | Writing(memory: Memory, ops: seq<Op>, before: bytes, done: nat)
    | Flushing(memory: Memory, stage: Stage, tableNumber: nat, newLog: nat)

  datatype System = System(disk: Disk, process: Process)

  /** What a client sees of a step: a write requested, a write acknowledged, a crash, or nothing. */
  datatype Label = Internal | Begin(ops: seq<Op>) | Ack | Crash

  // ---------------------------------------------------------------- the functions of the steps

  function Numbers(d: Disk): set<nat> {
    d.logs.Keys + d.tables.Keys + d.tmps.Keys
  }

  /** One above every file number, and at least one. */
  predicate IsNext(d: Disk, n: nat) {
    && n >= 1 && (forall i :: i in Numbers(d) ==> i < n)
    && (n == 1 || n - 1 in Numbers(d))
  }

  ghost function Greatest(s: set<nat>): (n: nat)
    requires s != {}
    ensures n in s && forall i :: i in s ==> i <= n
  {
    var m :| m in s;
    if s == {m} then m
    else
      var r := Greatest(s - {m});
      assert forall i :: i in s ==> i == m || i in s - {m};
      if r < m then m else r
  }

  /** The numbers in descending order. */
  ghost function Descending(s: set<nat>): seq<nat> {
    if s == {} then [] else [Greatest(s)] + Descending(s - {Greatest(s)})
  }

  /** What `m` holds at these numbers. */
  ghost function Pick<T>(m: map<nat, T>, numbers: seq<nat>): seq<T> {
    if numbers == [] then []
    else (if numbers[0] in m then [m[numbers[0]]] else []) + Pick(m, numbers[1..])
  }

  /** Newest first: the order in which tables are mounted. */
  ghost function Mounted<T>(tables: map<nat, T>): seq<T> {
    Pick(tables, Descending(tables.Keys))
  }

  function AddOp(es: seq<MemEntry>, sequence: nat, op: Op): seq<MemEntry> {
    match op
    case Put(k, v) => MemTables.AddEntry(es, MakeEntry(sequence, TYPE_VALUE, k, v))
    case Delete(k) => MemTables.AddEntry(es, MakeEntry(sequence, TYPE_DELETION, k, []))
  }

  /** The memtable after the handler calls. */
  function AddCalls(es: seq<MemEntry>, calls: seq<Call>): seq<MemEntry>
    decreases |calls|
  {
    if calls == [] then es
    else AddOp(AddCalls(es, calls[..|calls| - 1]), calls[|calls| - 1].sequence, calls[|calls| - 1].op)
  }

  /** The last sequence number of a batch, or the one before when it is empty. */
  function LaterOf(lastSeq: nat, rep: bytes): nat
    requires |rep| >= HEADER
  {
    var end := (Sequence(rep) + Count(rep) - 1) % U64;
    if Count(rep) > 0 && end > lastSeq then end else lastSeq
  }

  /** `Recover`'s loop: the memtable and the greatest sequence number, or nothing when a batch is corrupt. */
  function Recovered(records: seq<bytes>, es: seq<MemEntry>, lastSeq: nat): Option<(seq<MemEntry>, nat)>
    decreases |records|
  {
    if records == [] || |records[0]| < HEADER then Some((es, lastSeq))
    else if ReplayBatch(records[0]).1 != WriteBatches.Ok then None
    else Recovered(records[1..], AddCalls(es, ReplayBatch(records[0]).0), LaterOf(lastSeq, records[0]))
  }

  /** What `Write` logs for `ops`. */
  function Record(memory: Memory, ops: seq<Op>): bytes {
    Batch(memory.lastSeq + 1, ops)
  }

  function Remembered(memory: Memory, ops: seq<Op>): Memory {
    memory.(mem := AddCalls(memory.mem, Calls(memory.lastSeq + 1, ops)), lastSeq := memory.lastSeq + |ops|)
  }

  /** `Get`: the memtable, then the tables from newest to oldest; a tombstone ends the descent. */
  function GetFrom(fm: Formats, tables: seq<bytes>, user: bytes): LookupState {
    if tables == [] then NotFound
    else
      var here := fm.tableGet(tables[0], user);
      if here.NotFound? then GetFrom(fm, tables[1..], user) else here
  }

  function DbGet(fm: Formats, memory: Memory, user: bytes): Option<bytes> {
    var here := MemGet(memory.mem, user);
    var found := if here.NotFound? then GetFrom(fm, memory.tables, user) else here;
    if found.Found? then Some(found.value) else None
  }

  // ---------------------------------------------------------------- the steps

  /** Starting up: scan the directory for the next file number. */
  predicate ScanStep(s: System, s': System) {
    s.process.Down? && s'.process.Cleaning? && IsNext(s.disk, s'.process.nextFile) && s'.disk == s.disk
  }

  /** Starting up: remove one orphaned temporary file. */
  predicate CleanStep(s: System, s': System, n: nat) {
    && s.process.Cleaning? && n in s.disk.tmps
    && s' == s.(disk := s.disk.(tmps := s.disk.tmps - {n}))
  }

  /** Starting up: mount the tables, replay the log `n`, and truncate it after its last good fragment. */
  ghost predicate RecoverStep(fm: Formats, s: System, s': System, n: nat) {
    && s.process.Cleaning? && s.disk.tmps == map[] && s.disk.logs.Keys == {n} && n > 0
    && (forall t :: t in s.disk.tables ==> fm.opens(s.disk.tables[t]))
    && var log := s.disk.logs[n];
       var r := Recovered(fm.records(log), [], 0);
       && r.Some?
       && s' == System(s.disk.(logs := map[n := fm.truncated(log)]),
                       Ready(Memory(n, r.value.0, Mounted(s.disk.tables), r.value.1, s.process.nextFile)))
  }

  /** Starting up without a log: create the first one. */
  ghost predicate CreateStep(fm: Formats, s: System, s': System) {
    && s.process.Cleaning? && s.disk.tmps == map[] && s.disk.logs == map[]
    && (forall t :: t in s.disk.tables ==> fm.opens(s.disk.tables[t]))
    && var n := s.process.nextFile;
       s' == System(s.disk.(logs := map[n := []]), Ready(Memory(n, [], Mounted(s.disk.tables), 0, n + 1)))
  }

  /** A write arrives; it fits the format's sizes and sequence numbers. */
  predicate BeginStep(s: System, s': System, ops: seq<Op>) {
    && s.process.Ready?
    && var memory := s.process.memory;
       && OpsFit(ops) && memory.lastSeq + |ops| <= MAX_SEQUENCE && memory.logNumber in s.disk.logs
       && s' == s.(process := Writing(memory, ops, s.disk.logs[memory.logNumber], 0))
  }

  /** Some more bytes of the record reach the log. */
  predicate AppendStep(fm: Formats, s: System, s': System, done: nat) {
    && s.process.Writing?
    && var Writing(memory, ops, before, was) := s.process;
       var added := fm.added(before, Record(memory, ops));
       && was < done <= |added|
       && s' == System(s.disk.(logs := s.disk.logs[memory.logNumber := before + added[..done]]),
                       Writing(memory, ops, before, done))
  }

  /** The record is complete: the memtable takes the batch and the write is acknowledged. */
  predicate AckStep(fm: Formats, s: System, s': System) {
    && s.process.Writing?
    && var Writing(memory, ops, before, done) := s.process;
       && done == |fm.added(before, Record(memory, ops))|
       && s' == s.(process := Ready(Remembered(memory, ops)))
  }

  /** A flush of a nonempty memtable begins: two file numbers are taken and the temporary file is created. */
  predicate FlushStep(fm: Formats, s: System, s': System) {
    && s.process.Ready?
    && var memory := s.process.memory;
       var n := memory.nextFile;
       && memory.mem != [] && fm.fits(memory.mem)
       && s' == System(s.disk.(tmps := s.disk.tmps[n := []]), Flushing(memory.(nextFile := n + 2), Filling, n, n + 1))
  }

  /** Some of the table reaches the temporary file. */
  predicate FillStep(fm: Formats, s: System, s': System, part: bytes) {
    && s.process.Flushing? && s.process.stage.Filling?
    && part <= fm.table(s.process.memory.mem)
    && s' == s.(disk := s.disk.(tmps := s.disk.tmps[s.process.tableNumber := part]))
  }

  /** The complete temporary file becomes a table, which is opened in front of the others. */
  predicate RenameStep(fm: Formats, s: System, s': System) {
    && s.process.Flushing? && s.process.stage.Filling?
    && var n := s.process.tableNumber;
       var file := fm.table(s.process.memory.mem);
       && n in s.disk.tmps && s.disk.tmps[n] == file
       && s' == System(s.disk.(tmps := s.disk.tmps - {n}, tables := s.disk.tables[n := file]),
                       s.process.(stage := Renamed,
                                  memory := s.process.memory.(tables := [file] + s.process.memory.tables)))
  }

  /** The old log is removed, before the new one is created. */
  predicate RemoveStep(s: System, s': System) {
    && s.process.Flushing? && s.process.stage.Renamed?
    && s' == System(s.disk.(logs := s.disk.logs - {s.process.memory.logNumber}), s.process.(stage := LogGone))
  }

  /** The new log is created, and with it the memtable starts afresh. */
  predicate RotateStep(s: System, s': System) {
    && s.process.Flushing? && s.process.stage.LogGone?
    && var n := s.process.newLog;
       s' == System(s.disk.(logs := s.disk.logs[n := []]), Ready(s.process.memory.(logNumber := n, mem := [])))
  }

  ghost predicate InternalStep(fm: Formats, s: System, s': System) {
    || ScanStep(s, s') || (exists n :: CleanStep(s, s', n))
    || (exists n :: RecoverStep(fm, s, s', n)) || CreateStep(fm, s, s')
    || (exists done :: AppendStep(fm, s, s', done))
    || FlushStep(fm, s, s') || (exists part :: FillStep(fm, s, s', part))
    || RenameStep(fm, s, s') || RemoveStep(s, s') || RotateStep(s, s')
  }

  /** One step of the database. A crash loses the process and nothing else. */
  ghost predicate Step(fm: Formats, s: System, event: Label, s': System) {
    match event
    case Internal => InternalStep(fm, s, s')
    case Begin(ops) => BeginStep(s, s', ops)
    case Ack => AckStep(fm, s, s')
    case Crash => s' == System(s.disk, Down)
  }

  // ---------------------------------------------------------------- the plain map

  /** A map, the write under way, and every key a write was ever requested for. */
  datatype Plain = Plain(m: map<bytes, bytes>, pending: Option<seq<Op>>, written: set<bytes>)

  function ApplyOp(m: map<bytes, bytes>, op: Op): map<bytes, bytes> {
    match op
    case Put(k, v) => m[k := v]
    case Delete(k) => m - {k}
  }

  function Apply(m: map<bytes, bytes>, ops: seq<Op>): map<bytes, bytes> {
    if ops == [] then m else ApplyOp(Apply(m, ops[..|ops| - 1]), ops[|ops| - 1])
  }

  function KeysOf(ops: seq<Op>): set<bytes> {
    set i | 0 <= i < |ops| :: ops[i].key
  }

  /** An acknowledged write is applied; a write cut short by a crash is applied whole or not at all. */
  predicate PlainStep(t: Plain, event: Label, t': Plain) {
    match event
    case Internal => t' == t
    case Begin(ops) => t.pending.None? && t' == Plain(t.m, Some(ops), t.written + KeysOf(ops))
    case Ack => t.pending.Some? && t' == Plain(Apply(t.m, t.pending.value), None, t.written)
    case Crash =>
      && t'.pending.None? && t'.written == t.written
      && (t'.m == t.m || (t.pending.Some? && t'.m == Apply(t.m, t.pending.value)))
  }
}
