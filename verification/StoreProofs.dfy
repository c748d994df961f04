/** The store refines a plain map, whatever crashes: the invariant, one lemma a step, and the theorem over runs. */
module StoreProofs {
  import opened Bytes
  import opened DbFormat
  import opened WriteBatches
  import opened MemTables
  import opened Recovery
  import opened Layers
  import opened Store
  import Seqs

  // ---------------------------------------------------------------- the invariant

  /** At most one log, and it reads as the batches. */
  ghost predicate LogsHold(fm: Formats, logs: map<nat, bytes>, batches: seq<Logged>) {
    && (logs == map[] ==> batches == [])
    && forall n :: n in logs ==> logs.Keys == {n} && fm.records(logs[n]) == Encoded(batches)
  }

  ghost predicate DiskHolds(fm: Formats, d: Disk, w: Witness, keys: set<bytes>) {
    && TablesHold(fm, d.tables, w.content, keys) && LogsHold(fm, d.logs, w.batches)
    && Chained(w.batches) && KeysOf(OpsOf(w.batches)) <= keys
    && 0 !in Numbers(d)
  }

  predicate AllBelow(d: Disk, n: nat) {
    forall i :: i in Numbers(d) ==> i < n
  }

  /** The memtable is that of the batches, and new sequence numbers follow theirs. */
  ghost predicate MemoryHolds(d: Disk, memory: Memory, batches: seq<Logged>) {
    && memory.mem == MemOf(batches) && memory.tables == Mounted(d.tables)
    && memory.lastSeq <= MAX_SEQUENCE && (MaxEnd(batches) > 0 ==> memory.lastSeq == MaxEnd(batches))
    && AllBelow(d, memory.nextFile)
  }

  /** The log is the current one, and ends with a good fragment. */
  ghost predicate LogOpen(fm: Formats, d: Disk, memory: Memory) {
    memory.logNumber in d.logs && fm.clean(d.logs[memory.logNumber]) && d.tmps == map[]
  }

  function AddedBy(fm: Formats, memory: Memory, ops: seq<Op>, before: bytes): bytes {
    fm.added(before, Record(memory, ops))
  }

  function LoggedBy(memory: Memory, ops: seq<Op>): Logged {
    Logged(memory.lastSeq + 1, ops)
  }

  // ---------------------------------------------------------------- one part of the disk changes

  lemma OneLog(fm: Formats, n: nat, log: bytes, batches: seq<Logged>)
    requires fm.records(log) == Encoded(batches)
    ensures LogsHold(fm, map[n := log], batches)
  {
    assert n in map[n := log];
    assert map[n := log].Keys == {n};
  }

  lemma LogReplaced(fm: Formats, d: Disk, w: Witness, keys: set<bytes>, n: nat, log: bytes, batches: seq<Logged>)
    requires DiskHolds(fm, d, w, keys) && n >= 1 && fm.records(log) == Encoded(batches)
    requires Chained(batches) && KeysOf(OpsOf(batches)) <= keys
    ensures DiskHolds(fm, d.(logs := map[n := log]), w.(batches := batches), keys)
  {
    OneLog(fm, n, log, batches);
  }

  lemma LogRemoved(fm: Formats, d: Disk, w: Witness, keys: set<bytes>)
    requires DiskHolds(fm, d, w, keys)
    ensures DiskHolds(fm, d.(logs := map[]), w.(batches := []), keys)
  {
  }

  lemma TableAdded(fm: Formats, d: Disk, w: Witness, keys: set<bytes>, n: nat, file: bytes, es: seq<MemEntry>)
    requires DiskHolds(fm, d, w, keys) && n >= 1 && Built(fm, file, es, keys)
    ensures DiskHolds(fm, d.(tables := d.tables[n := file]), w.(content := w.content[n := es]), keys)
  {
  }

  lemma TmpsChanged(fm: Formats, d: Disk, w: Witness, keys: set<bytes>, tmps: map<nat, bytes>)
    requires DiskHolds(fm, d, w, keys) && 0 !in tmps
    ensures DiskHolds(fm, d.(tmps := tmps), w, keys)
  {
  }

  lemma MoreKeys(fm: Formats, d: Disk, w: Witness, keys: set<bytes>, keys': set<bytes>)
    requires DiskHolds(fm, d, w, keys) && keys <= keys'
    ensures DiskHolds(fm, d, w, keys')
  {
  }

  // ---------------------------------------------------------------- the invariant of each state of the process

  /** A write under way: `base` is what was logged before it. */
  ghost predicate WritingHolds(fm: Formats, d: Disk, memory: Memory, ops: seq<Op>, before: bytes, done: nat,
                               base: seq<Logged>) {
    var added := AddedBy(fm, memory, ops, before);
    && OpsFit(ops) && memory.lastSeq + |ops| <= MAX_SEQUENCE
    && done <= |added| && d.logs == map[memory.logNumber := before + added[..done]] && d.tmps == map[]
    && fm.clean(before) && fm.records(before) == Encoded(base)
    && MemoryHolds(d, memory, base)
  }

  /** The log reads as `base`, until the last byte of the record is there. */
  predicate ReadsAs(complete: bool, base: seq<Logged>, b: Logged, batches: seq<Logged>) {
    batches == if complete then base + [b] else base
  }

  ghost predicate FillingHolds(fm: Formats, d: Disk, memory: Memory, n: nat, batches: seq<Logged>) {
    && MemoryHolds(d, memory, batches) && memory.logNumber in d.logs && d.tmps.Keys <= {n}
    && (forall i :: i in d.tables || i in d.logs ==> i < n)
    && n >= 1 && fm.fits(memory.mem)
  }

  ghost predicate RenamedHolds(d: Disk, memory: Memory, n: nat, newLog: nat, w: Witness) {
    && MemoryHolds(d, memory, w.batches) && memory.logNumber in d.logs && d.tmps == map[]
    && AllBelow(d, newLog) && n in w.content && w.content[n] == memory.mem
  }

  ghost predicate LogGoneHolds(d: Disk, memory: Memory, newLog: nat) {
    MemoryHolds(d, memory.(mem := []), []) && d.logs == map[] && d.tmps == map[] && AllBelow(d, newLog)
  }

  ghost predicate FlushingHolds(fm: Formats, d: Disk, memory: Memory, stage: Stage, n: nat, newLog: nat, w: Witness) {
    && newLog == n + 1 && memory.nextFile == n + 2
    && match stage
       case Filling => FillingHolds(fm, d, memory, n, w.batches)
       case Renamed => RenamedHolds(d, memory, n, newLog, w)
       case LogGone => LogGoneHolds(d, memory, newLog)
  }

  ghost predicate ReadyHolds(fm: Formats, d: Disk, memory: Memory, batches: seq<Logged>) {
    MemoryHolds(d, memory, batches) && LogOpen(fm, d, memory)
  }

  ghost predicate ProcessHolds(fm: Formats, s: System, w: Witness) {
    match s.process
    case Down => true
    case Cleaning(nextFile) => nextFile >= 1 && AllBelow(s.disk, nextFile)
    case Ready(memory) => ReadyHolds(fm, s.disk, memory, w.batches)
    case Writing(memory, ops, before, done) =>
      exists base :: && ReadsAs(done == |AddedBy(fm, memory, ops, before)|, base, LoggedBy(memory, ops), w.batches)
                     && WritingHolds(fm, s.disk, memory, ops, before, done, base)
    case Flushing(memory, stage, n, newLog) => FlushingHolds(fm, s.disk, memory, stage, n, newLog, w)
  }

  /** A write whose record is complete in the log counts as applied, acknowledged or not. */
  predicate Complete(fm: Formats, p: Process) {
    p.Writing? && p.done == |AddedBy(fm, p.memory, p.ops, p.before)|
  }

  /** What the disk must say: the map, with the write under way if its record is complete. */
  function Target(fm: Formats, p: Process, m: map<bytes, bytes>): map<bytes, bytes> {
    if Complete(fm, p) then Apply(m, p.ops) else m
  }

  function Pending(p: Process): Option<seq<Op>> {
    if p.Writing? then Some(p.ops) else None
  }

  ghost predicate Inv(fm: Formats, s: System, t: Plain, w: Witness) {
    && DiskHolds(fm, s.disk, w, t.written) && ProcessHolds(fm, s, w)
    && t.pending == Pending(s.process) && (s.process.Writing? ==> KeysOf(s.process.ops) <= t.written)
    && Agrees(w, Target(fm, s.process, t.m))
  }

  /** The parts of the invariant while a write is under way. */
  lemma WritingBase(fm: Formats, s: System, w: Witness) returns (base: seq<Logged>)
    requires ProcessHolds(fm, s, w) && s.process.Writing?
    ensures ReadsAs(Complete(fm, s.process), base, LoggedBy(s.process.memory, s.process.ops), w.batches)
    ensures WritingHolds(fm, s.disk, s.process.memory, s.process.ops, s.process.before, s.process.done, base)
  {
    var Writing(memory, ops, before, done) := s.process;
    base :| && ReadsAs(done == |AddedBy(fm, memory, ops, before)|, base, LoggedBy(memory, ops), w.batches)
            && WritingHolds(fm, s.disk, memory, ops, before, done, base);
  }

  lemma ReadyInv(fm: Formats, d: Disk, memory: Memory, t: Plain, w: Witness)
    requires DiskHolds(fm, d, w, t.written) && ReadyHolds(fm, d, memory, w.batches) && Agrees(w, t.m) && t.pending.None?
    ensures Inv(fm, System(d, Ready(memory)), t, w)
  {
  }

  // ---------------------------------------------------------------- starting up

  lemma InitHolds(fm: Formats)
    ensures Inv(fm, System(EMPTY_DISK, Down), Plain(map[], None, {}), Witness(map[], []))
  {
    forall user ensures Visible(View(Witness(map[], []), user)) == MapGet(map[], user) {
    }
    assert KeysOf([]) == {};
  }

  lemma ScanKeeps(fm: Formats, s: System, s': System, t: Plain, w: Witness)
    requires Inv(fm, s, t, w) && ScanStep(s, s')
    ensures Inv(fm, s', t, w)
  {
  }

  lemma CleanKeeps(fm: Formats, s: System, s': System, n: nat, t: Plain, w: Witness)
    requires Inv(fm, s, t, w) && CleanStep(s, s', n)
    ensures Inv(fm, s', t, w)
  {
    TmpsChanged(fm, s.disk, w, t.written, s'.disk.tmps);
    assert Numbers(s'.disk) <= Numbers(s.disk);
  }

  lemma TruncateLaw(fm: Formats, log: bytes, kept: bytes)
    requires LogLaws(fm) && kept == fm.truncated(log)
    ensures fm.clean(kept) && fm.records(kept) == fm.records(log)
  {
  }

  lemma RecoverReady(fm: Formats, d: Disk, d': Disk, n: nat, kept: bytes, memory: Memory, w: Witness,
                     keys: set<bytes>)
    requires DiskHolds(fm, d, w, keys) && AllBelow(d, memory.nextFile) && d.tmps == map[] && n in d.logs
    requires fm.clean(kept) && fm.records(kept) == fm.records(d.logs[n]) && d' == d.(logs := map[n := kept])
    requires memory == Memory(n, MemOf(w.batches), Mounted(d.tables), MaxEnd(w.batches), memory.nextFile)
    ensures DiskHolds(fm, d', w, keys) && ReadyHolds(fm, d', memory, w.batches)
  {
    LogReplaced(fm, d, w, keys, n, kept, w.batches);
    MaxEndBound(w.batches);
    assert Numbers(d') == Numbers(d);
  }

  /** Replay rebuilds exactly the memtable, and truncation keeps every record. */
  lemma RecoverKeeps(fm: Formats, s: System, s': System, n: nat, t: Plain, w: Witness)
    requires LogLaws(fm) && Inv(fm, s, t, w) && RecoverStep(fm, s, s', n)
    ensures Inv(fm, s', t, w)
  {
    assert n in s.disk.logs;
    RecoverAll(w.batches);
    TruncateLaw(fm, s.disk.logs[n], s'.disk.logs[n]);
    RecoverReady(fm, s.disk, s'.disk, n, s'.disk.logs[n], s'.process.memory, w, t.written);
  }

  lemma CreateKeeps(fm: Formats, s: System, s': System, t: Plain, w: Witness)
    requires LogLaws(fm) && Inv(fm, s, t, w) && CreateStep(fm, s, s')
    ensures Inv(fm, s', t, w)
  {
    CreateReady(fm, s.disk, s'.disk, s.process.nextFile, s'.process.memory, w, t.written);
  }

  lemma CreateReady(fm: Formats, d: Disk, d': Disk, n: nat, memory: Memory, w: Witness, keys: set<bytes>)
    requires LogLaws(fm) && DiskHolds(fm, d, w, keys) && n >= 1 && AllBelow(d, n) && d.tmps == map[] && d.logs == map[]
    requires d' == d.(logs := map[n := []]) && memory.logNumber == n && memory.mem == []
      && memory.lastSeq <= MAX_SEQUENCE
    requires memory.tables == Mounted(d.tables) && memory.nextFile == n + 1
    ensures DiskHolds(fm, d', w, keys) && ReadyHolds(fm, d', memory, w.batches)
  {
    LogReplaced(fm, d, w, keys, n, [], w.batches);
    assert Numbers(d') == Numbers(d) + {n};
  }

  // ---------------------------------------------------------------- writing

  lemma BeginKeeps(fm: Formats, s: System, s': System, ops: seq<Op>, t: Plain, t': Plain, w: Witness)
    requires LogLaws(fm) && Inv(fm, s, t, w) && BeginStep(s, s', ops)
    requires t' == Plain(t.m, Some(ops), t.written + KeysOf(ops))
    ensures Inv(fm, s', t', w)
  {
    var memory, before := s.process.memory, s.disk.logs[s.process.memory.logNumber];
    MoreKeys(fm, s.disk, w, t.written, t'.written);
    BeginWriting(fm, s.disk, memory, ops, before, w.batches);
    assert ReadsAs(false, w.batches, LoggedBy(memory, ops), w.batches);
  }

  lemma BeginWriting(fm: Formats, d: Disk, memory: Memory, ops: seq<Op>, before: bytes, base: seq<Logged>)
    requires ReadyHolds(fm, d, memory, base) && LogsHold(fm, d.logs, base)
    requires OpsFit(ops) && memory.lastSeq + |ops| <= MAX_SEQUENCE && before == d.logs[memory.logNumber]
    ensures WritingHolds(fm, d, memory, ops, before, 0, base)
  {
    Seqs.Nil(before);
    assert d.logs == map[memory.logNumber := before];
  }

  lemma NextFollows(d: Disk, memory: Memory, ops: seq<Op>, base: seq<Logged>)
    requires MemoryHolds(d, memory, base) && OpsFit(ops) && memory.lastSeq + |ops| <= MAX_SEQUENCE
    ensures Follows(base, LoggedBy(memory, ops))
  {
  }

  lemma EncodedMore(base: seq<Logged>, memory: Memory, ops: seq<Op>)
    ensures Encoded(base + [LoggedBy(memory, ops)]) == Encoded(base) + [Record(memory, ops)]
  {
    Snoc(base, LoggedBy(memory, ops));
  }

  /** What the log reads as after `done` bytes of the new record. */
  lemma AppendReads(fm: Formats, d: Disk, memory: Memory, ops: seq<Op>, before: bytes, done: nat, base: seq<Logged>)
    requires LogLaws(fm) && WritingHolds(fm, d, memory, ops, before, done, base)
    ensures var added := AddedBy(fm, memory, ops, before);
      && (done < |added| ==> fm.records(before + added[..done]) == Encoded(base))
      && (done == |added| ==>
            && fm.clean(before + added[..done])
            && fm.records(before + added[..done]) == Encoded(base + [LoggedBy(memory, ops)]))
  {
    AppendLaw(fm, before, Record(memory, ops), done);
    EncodedMore(base, memory, ops);
  }

  lemma AppendWriting(fm: Formats, d: Disk, d': Disk, memory: Memory, ops: seq<Op>, before: bytes, was: nat, done: nat,
                      base: seq<Logged>)
    requires WritingHolds(fm, d, memory, ops, before, was, base) && done <= |AddedBy(fm, memory, ops, before)|
    requires d' == d.(logs := d.logs[memory.logNumber := before + AddedBy(fm, memory, ops, before)[..done]])
    ensures WritingHolds(fm, d', memory, ops, before, done, base)
    ensures d' == d.(logs := map[memory.logNumber := before + AddedBy(fm, memory, ops, before)[..done]])
  {
    assert d'.logs == map[memory.logNumber := before + AddedBy(fm, memory, ops, before)[..done]];
    assert Numbers(d') == Numbers(d);
  }

  /** Chaining goes on with the new batch. */
  lemma LoggedChained(w: Witness, b: Logged, keys: set<bytes>)
    requires Chained(w.batches) && KeysOf(OpsOf(w.batches)) <= keys && KeysOf(b.ops) <= keys && Follows(w.batches, b)
    ensures Chained(w.batches + [b]) && KeysOf(OpsOf(w.batches + [b])) <= keys
  {
    Snoc(w.batches, b);
    KeysOfSplit(OpsOf(w.batches), b.ops);
  }

  lemma AppendPart(fm: Formats, d: Disk, memory: Memory, ops: seq<Op>, before: bytes, done: nat, w: Witness,
                   keys: set<bytes>,
                   log: bytes)
    requires LogLaws(fm) && DiskHolds(fm, d, w, keys) && memory.logNumber >= 1
    requires WritingHolds(fm, d.(logs := map[memory.logNumber := log]), memory, ops, before, done, w.batches)
    requires done < |AddedBy(fm, memory, ops, before)| && log == before + AddedBy(fm, memory, ops, before)[..done]
    ensures DiskHolds(fm, d.(logs := map[memory.logNumber := log]), w, keys)
  {
    AppendReads(fm, d.(logs := map[memory.logNumber := log]), memory, ops, before, done, w.batches);
    LogReplaced(fm, d, w, keys, memory.logNumber, log, w.batches);
  }

  lemma AppendLast(fm: Formats, d: Disk, memory: Memory, ops: seq<Op>, before: bytes, done: nat, w: Witness,
                   keys: set<bytes>,
                   log: bytes, b: Logged)
    requires LogLaws(fm) && DiskHolds(fm, d, w, keys) && KeysOf(ops) <= keys && memory.logNumber >= 1
    requires WritingHolds(fm, d.(logs := map[memory.logNumber := log]), memory, ops, before, done, w.batches)
    requires done == |AddedBy(fm, memory, ops, before)| && log == before + AddedBy(fm, memory, ops, before)[..done]
    requires b == LoggedBy(memory, ops)
    ensures DiskHolds(fm, d.(logs := map[memory.logNumber := log]), w.(batches := w.batches + [b]), keys)
  {
    var d' := d.(logs := map[memory.logNumber := log]);
    AppendReads(fm, d', memory, ops, before, done, w.batches);
    NextFollows(d', memory, ops, w.batches);
    LoggedChained(w, b, keys);
    LogReplaced(fm, d, w, keys, memory.logNumber, log, w.batches + [b]);
  }

  lemma PartKeeps(fm: Formats, s: System, s': System, done: nat, t: Plain, w: Witness)
    requires LogLaws(fm) && Inv(fm, s, t, w) && AppendStep(fm, s, s', done) && !Complete(fm, s'.process)
    ensures Inv(fm, s', t, w)
  {
    var Writing(memory, ops, before, was) := s.process;
    var base := WritingBase(fm, s, w);
    AppendWriting(fm, s.disk, s'.disk, memory, ops, before, was, done, base);
    LogNumberPositive(s.disk, memory);
    AppendPart(fm, s.disk, memory, ops, before, done, w, t.written, before + AddedBy(fm, memory, ops, before)[..done]);
  }

  lemma LogNumberPositive(d: Disk, memory: Memory)
    requires memory.logNumber in d.logs && 0 !in Numbers(d)
    ensures memory.logNumber >= 1
  {
    assert memory.logNumber in Numbers(d);
  }

  lemma LastKeeps(fm: Formats, s: System, s': System, done: nat, t: Plain, w: Witness, w': Witness)
    requires LogLaws(fm) && Inv(fm, s, t, w) && AppendStep(fm, s, s', done) && Complete(fm, s'.process)
    requires w' == w.(batches := w.batches + [LoggedBy(s.process.memory, s.process.ops)])
    ensures Inv(fm, s', t, w')
  {
    var Writing(memory, ops, before, was) := s.process;
    var b := LoggedBy(memory, ops);
    var base := WritingBase(fm, s, w);
    AppendWriting(fm, s.disk, s'.disk, memory, ops, before, was, done, base);
    LogNumberPositive(s.disk, memory);
    AppendLast(fm, s.disk, memory, ops, before, done, w, t.written,
      before + AddedBy(fm, memory, ops, before)[..done], b);
    ViewLogged(w, b, t.m);
    assert ReadsAs(true, base, b, w'.batches);
  }

  lemma AckReady(fm: Formats, d: Disk, memory: Memory, ops: seq<Op>, before: bytes, done: nat, base: seq<Logged>)
    requires LogLaws(fm) && WritingHolds(fm, d, memory, ops, before, done, base)
    requires done == |AddedBy(fm, memory, ops, before)|
    ensures ReadyHolds(fm, d, Remembered(memory, ops), base + [LoggedBy(memory, ops)])
  {
    AppendReads(fm, d, memory, ops, before, done, base);
    Snoc(base, LoggedBy(memory, ops));
  }

  lemma AckKeeps(fm: Formats, s: System, s': System, t: Plain, t': Plain, w: Witness)
    requires LogLaws(fm) && Inv(fm, s, t, w) && AckStep(fm, s, s')
      && t' == Plain(Apply(t.m, s.process.ops), None, t.written)
    ensures Inv(fm, s', t', w)
  {
    var Writing(memory, ops, before, done) := s.process;
    var base := WritingBase(fm, s, w);
    AckReady(fm, s.disk, memory, ops, before, done, base);
    ReadyInv(fm, s.disk, Remembered(memory, ops), t', w);
  }

  // ---------------------------------------------------------------- flushing

  lemma FlushFilling(fm: Formats, d: Disk, memory: Memory, n: nat, w: Witness, keys: set<bytes>)
    requires DiskHolds(fm, d, w, keys) && ReadyHolds(fm, d, memory, w.batches) && fm.fits(memory.mem)
      && n == memory.nextFile
    ensures DiskHolds(fm, d.(tmps := d.tmps[n := []]), w, keys)
    ensures FillingHolds(fm, d.(tmps := d.tmps[n := []]), memory.(nextFile := n + 2), n, w.batches)
  {
    assert memory.logNumber in Numbers(d);
    TmpsChanged(fm, d, w, keys, d.tmps[n := []]);
    assert Numbers(d.(tmps := d.tmps[n := []])) == Numbers(d) + {n};
  }

  lemma FlushKeeps(fm: Formats, s: System, s': System, t: Plain, w: Witness)
    requires Inv(fm, s, t, w) && FlushStep(fm, s, s')
    ensures Inv(fm, s', t, w)
  {
    FlushFilling(fm, s.disk, s.process.memory, s.process.memory.nextFile, w, t.written);
  }

  lemma FillKeeps(fm: Formats, s: System, s': System, part: bytes, t: Plain, w: Witness)
    requires Inv(fm, s, t, w) && FillStep(fm, s, s', part)
    ensures Inv(fm, s', t, w)
  {
    TmpsChanged(fm, s.disk, w, t.written, s'.disk.tmps);
  }

  lemma RenameDisk(fm: Formats, d: Disk, d': Disk, es: seq<MemEntry>, n: nat, w: Witness, w': Witness, keys: set<bytes>)
    requires DiskHolds(fm, d, w, keys) && n >= 1 && fm.fits(es) && es == MemOf(w.batches)
    requires d' == d.(tmps := d.tmps - {n}, tables := d.tables[n := fm.table(es)])
    requires w' == w.(content := w.content[n := es])
    ensures DiskHolds(fm, d', w', keys)
  {
    MemHolds(w.batches, keys, []);
    TmpsChanged(fm, d, w, keys, d.tmps - {n});
    TableAdded(fm, d.(tmps := d.tmps - {n}), w, keys, n, fm.table(es), es);
  }

  lemma RenameRenamed(fm: Formats, d: Disk, d': Disk, memory: Memory, n: nat, newLog: nat, w: Witness, w': Witness)
    requires FillingHolds(fm, d, memory, n, w.batches) && n in d.tmps && newLog == n + 1
    requires d' == d.(tmps := d.tmps - {n}, tables := d.tables[n := fm.table(memory.mem)])
    requires w' == w.(content := w.content[n := memory.mem])
    ensures RenamedHolds(d', memory.(tables := [fm.table(memory.mem)] + memory.tables), n, newLog, w')
  {
    MountedAbove(d.tables, n, fm.table(memory.mem));
    NumbersMoved(d, d', n, fm.table(memory.mem));
  }

  /** The renamed file keeps its number. */
  lemma NumbersMoved(d: Disk, d': Disk, n: nat, file: bytes)
    requires n in d.tmps && d' == d.(tmps := d.tmps - {n}, tables := d.tables[n := file])
    ensures Numbers(d') == Numbers(d)
  {
  }

  lemma RenameKeeps(fm: Formats, s: System, s': System, t: Plain, w: Witness, w': Witness)
    requires Inv(fm, s, t, w) && RenameStep(fm, s, s')
    requires w' == w.(content := w.content[s.process.tableNumber := s.process.memory.mem])
    ensures Inv(fm, s', t, w')
  {
    var memory, n := s.process.memory, s.process.tableNumber;
    RenameDisk(fm, s.disk, s'.disk, memory.mem, n, w, w', t.written);
    RenameRenamed(fm, s.disk, s'.disk, memory, n, s.process.newLog, w, w');
    AgreesFlushed(w, n, t.m);
  }

  /** A table of the log's memtable changes nothing. */
  lemma AgreesFlushed(w: Witness, n: nat, m: map<bytes, bytes>)
    requires Agrees(w, m) && Chained(w.batches) && forall i :: i in w.content ==> i < n
    ensures Agrees(w.(content := w.content[n := MemOf(w.batches)]), m)
  {
    forall user ensures Visible(View(w.(content := w.content[n := MemOf(w.batches)]), user)) == MapGet(m, user) {
      ViewFlushed(w, n, user);
      assert Visible(View(w, user)) == MapGet(m, user);
    }
  }

  /** With that table there, neither does the removal of the log. */
  lemma AgreesRotated(w: Witness, n: nat, m: map<bytes, bytes>)
    requires Agrees(w, m) && Chained(w.batches) && (forall i :: i in w.content ==> i <= n)
    requires n in w.content && w.content[n] == MemOf(w.batches)
    ensures Agrees(w.(batches := []), m)
  {
    var older := w.(content := w.content - {n});
    assert w.content == older.content[n := MemOf(w.batches)];
    forall user ensures Visible(View(w.(batches := []), user)) == MapGet(m, user) {
      ViewFlushed(older, n, user);
      ViewRotated(older, n, user);
      assert Visible(View(w, user)) == MapGet(m, user);
    }
  }

  lemma RemoveGone(fm: Formats, d: Disk, d': Disk, memory: Memory, n: nat, newLog: nat, w: Witness, keys: set<bytes>)
    requires DiskHolds(fm, d, w, keys) && RenamedHolds(d, memory, n, newLog, w) && d' == d.(logs := map[])
    ensures DiskHolds(fm, d', w.(batches := []), keys) && LogGoneHolds(d', memory, newLog)
  {
    LogRemoved(fm, d, w, keys);
    MaxEndBound(w.batches);
    assert Numbers(d') <= Numbers(d);
  }

  lemma RemoveKeeps(fm: Formats, s: System, s': System, t: Plain, w: Witness)
    requires Inv(fm, s, t, w) && RemoveStep(s, s')
    ensures Inv(fm, s', t, w.(batches := []))
  {
    var memory, n := s.process.memory, s.process.tableNumber;
    assert s'.disk == s.disk.(logs := map[]);
    RemoveGone(fm, s.disk, s'.disk, memory, n, s.process.newLog, w, t.written);
    AgreesRotated(w, n, t.m);
  }

  lemma RotateReady(fm: Formats, d: Disk, d': Disk, memory: Memory, newLog: nat, w: Witness, keys: set<bytes>)
    requires LogLaws(fm) && DiskHolds(fm, d, w, keys) && LogGoneHolds(d, memory, newLog) && newLog >= 1
    requires memory.nextFile == newLog + 1 && d' == d.(logs := map[newLog := []])
    ensures DiskHolds(fm, d', w, keys) && ReadyHolds(fm, d', memory.(logNumber := newLog, mem := []), w.batches)
  {
    LogReplaced(fm, d, w, keys, newLog, [], w.batches);
    assert Numbers(d') == Numbers(d) + {newLog};
  }

  lemma RotateKeeps(fm: Formats, s: System, s': System, t: Plain, w: Witness)
    requires LogLaws(fm) && Inv(fm, s, t, w) && RotateStep(s, s')
    ensures Inv(fm, s', t, w)
  {
    assert s'.disk == s.disk.(logs := map[s.process.newLog := []]);
    RotateReady(fm, s.disk, s'.disk, s.process.memory, s.process.newLog, w, t.written);
  }

  lemma CrashKeeps(fm: Formats, s: System, t: Plain, t': Plain, w: Witness)
    requires Inv(fm, s, t, w) && t' == Plain(Target(fm, s.process, t.m), None, t.written)
    ensures Inv(fm, System(s.disk, Down), t', w)
  {
  }

  // ---------------------------------------------------------------- one step, and whole runs

  lemma InternalKeeps(fm: Formats, s: System, s': System, t: Plain, w: Witness) returns (w': Witness)
    requires LogLaws(fm) && Inv(fm, s, t, w) && InternalStep(fm, s, s')
    ensures Inv(fm, s', t, w')
  {
    w' := w;
    if ScanStep(s, s') {
      ScanKeeps(fm, s, s', t, w);
    } else if n :| CleanStep(s, s', n) {
      CleanKeeps(fm, s, s', n, t, w);
    } else if n :| RecoverStep(fm, s, s', n) {
      RecoverKeeps(fm, s, s', n, t, w);
    } else if CreateStep(fm, s, s') {
      CreateKeeps(fm, s, s', t, w);
    } else if done :| AppendStep(fm, s, s', done) {
      if Complete(fm, s'.process) {
        w' := w.(batches := w.batches + [LoggedBy(s.process.memory, s.process.ops)]);
        LastKeeps(fm, s, s', done, t, w, w');
      } else {
        PartKeeps(fm, s, s', done, t, w);
      }
    } else {
      w' := FlushStepKeeps(fm, s, s', t, w);
    }
  }

  lemma FlushStepKeeps(fm: Formats, s: System, s': System, t: Plain, w: Witness) returns (w': Witness)
    requires LogLaws(fm) && Inv(fm, s, t, w)
    requires FlushStep(fm, s, s') || (exists part :: FillStep(fm, s, s', part))
          || RenameStep(fm, s, s') || RemoveStep(s, s') || RotateStep(s, s')
    ensures Inv(fm, s', t, w')
  {
    w' := w;
    if FlushStep(fm, s, s') {
      FlushKeeps(fm, s, s', t, w);
    } else if part :| FillStep(fm, s, s', part) {
      FillKeeps(fm, s, s', part, t, w);
    } else if RenameStep(fm, s, s') {
      w' := w.(content := w.content[s.process.tableNumber := s.process.memory.mem]);
      RenameKeeps(fm, s, s', t, w, w');
    } else if RemoveStep(s, s') {
      w' := w.(batches := []);
      RemoveKeeps(fm, s, s', t, w);
    } else {
      RotateKeeps(fm, s, s', t, w);
    }
  }
}
