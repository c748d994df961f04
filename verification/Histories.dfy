/** A run of the store beside its run of the plain map, made longer by what a client does. */
module Histories {
  import opened Bytes
  import opened Checksums
  import opened DbFormat
  import opened WriteBatches
  import opened MemTables
  import opened SkipLists
  import opened Recovery
  import opened Layers
  import opened Store
  import opened StoreProofs
  import opened StoreTheorem
  import opened StandardFormats
  import opened DbPaths
  import opened DbSteps
  import ClientRuns
  import TableFormat
  import TableSizes
  import Seqs

  /** The run so far, its events, the plain run with the same events, and the witness that ties their last states. */
  datatype History = History(run: seq<System>, events: seq<Label>, ts: seq<Plain>, w: Witness)

  ghost predicate Holds(fm: Formats, h: History) {
    && IsRun(fm, h.run, h.events) && IsPlainRun(h.ts, h.events)
    && Inv(fm, h.run[|h.events|], h.ts[|h.events|], h.w)
  }

  /** The history leads to `s`. */
  ghost predicate LeadsTo(fm: Formats, h: History, s: System) {
    Holds(fm, h) && h.run[|h.events|] == s
  }

  /** The plain state now. */
  ghost function Now(h: History): Plain
    requires |h.ts| > |h.events|
  {
    h.ts[|h.events|]
  }

  /** `h'` has the events of `h` and then `more`; of both runs, `h` has the beginning. */
  ghost predicate Continues(h: History, h': History, more: seq<Label>) {
    h'.events == h.events + more && h.run <= h'.run && h.ts <= h'.ts
  }

  /** Nothing has happened yet. */
  const START: History := History([System(EMPTY_DISK, Down)], [], [Plain(map[], None, {})], Witness(map[], []))

  lemma StartHolds(fm: Formats)
    ensures LeadsTo(fm, START, System(EMPTY_DISK, Down))
  {
    InitHolds(fm);
  }

  /** Every run has a history. */
  lemma HistoryOf(sum: Sum, fm: Formats, run: seq<System>, events: seq<Label>) returns (h: History)
    requires fm == Standard(sum) && IsRun(fm, run, events)
    ensures Holds(fm, h) && h.run == run && h.events == events
  {
    LogObeys(sum);
    var ts, ws := Refines(fm, run, events);
    assert Inv(fm, run[|events|], ts[|events|], ws[|events|]);
    h := History(run, events, ts, ws[|events|]);
  }

  // ---------------------------------------------------------------- one more step

  lemma RunLonger(fm: Formats, run: seq<System>, events: seq<Label>, e: Label, s': System)
    requires IsRun(fm, run, events) && Step(fm, run[|events|], e, s')
    ensures IsRun(fm, run + [s'], events + [e])
  {
    var all, labels := run + [s'], events + [e];
    forall i | 0 <= i < |labels| ensures Step(fm, all[i], labels[i], all[i + 1]) {
      if i < |events| {
        assert Step(fm, run[i], events[i], run[i + 1]);
      }
    }
  }

  lemma PlainRunLonger(ts: seq<Plain>, events: seq<Label>, e: Label, t': Plain)
    requires IsPlainRun(ts, events) && PlainStep(ts[|events|], e, t')
    ensures IsPlainRun(ts + [t'], events + [e])
  {
    var all, labels := ts + [t'], events + [e];
    forall i | 0 <= i < |labels| ensures PlainStep(all[i], labels[i], all[i + 1]) {
      if i < |events| {
        assert PlainStep(ts[i], events[i], ts[i + 1]);
      }
    }
  }

  /** The history with one more step. */
  function Longer(h: History, s: System, e: Label, t: Plain, w: Witness): History {
    History(h.run + [s], h.events + [e], h.ts + [t], w)
  }

  lemma RunsLonger(fm: Formats, h: History, e: Label, s: System, t: Plain, w: Witness)
    requires IsRun(fm, h.run, h.events) && IsPlainRun(h.ts, h.events)
    requires Step(fm, h.run[|h.events|], e, s) && PlainStep(Now(h), e, t)
    ensures var h' := Longer(h, s, e, t, w); IsRun(fm, h'.run, h'.events) && IsPlainRun(h'.ts, h'.events)
  {
    RunLonger(fm, h.run, h.events, e, s);
    PlainRunLonger(h.ts, h.events, e, t);
  }

  lemma LongerEnds(h: History, s: System, e: Label, t: Plain, w: Witness)
    requires |h.run| == |h.ts| == |h.events| + 1
    ensures var h' := Longer(h, s, e, t, w);
      |h'.run| == |h'.ts| == |h'.events| + 1 && h'.run[|h'.events|] == s && Now(h') == t && Continues(h, h', [e])
  {
  }

  lemma HistoryStep(fm: Formats, h: History, s: System, e: Label, s': System) returns (h': History)
    requires LogLaws(fm) && LeadsTo(fm, h, s) && Step(fm, s, e, s')
    ensures LeadsTo(fm, h', s') && Continues(h, h', [e]) && PlainStep(Now(h), e, Now(h'))
  {
    var t', w' := StepKeeps(fm, s, e, s', Now(h), h.w);
    RunsLonger(fm, h, e, s', t', w');
    LongerEnds(h, s', e, t', w');
    h' := Longer(h, s', e, t', w');
  }

  lemma ContinuesMore(h: History, h1: History, h2: History, a: seq<Label>, b: seq<Label>)
    requires Continues(h, h1, a) && Continues(h1, h2, b)
    ensures Continues(h, h2, a + b)
  {
  }

  /** Steps that nobody sees leave the plain state alone. */
  lemma {:induction false} HistorySilent(fm: Formats, h: History, path: seq<System>, n: nat) returns (h': History)
    requires LogLaws(fm) && Path(fm, path, Silent(n)) && LeadsTo(fm, h, path[0])
    ensures LeadsTo(fm, h', path[n]) && Continues(h, h', Silent(n)) && Now(h') == Now(h)
    decreases n
  {
    if n == 0 {
      h' := h;
    } else {
      SilentMore(n - 1);
      PathShorter(fm, path, n);
      h' := HistorySilent(fm, h, path[..n], n - 1);
      var h1 := h';
      h' := HistoryStep(fm, h1, path[n - 1], Internal, path[n]);
      ContinuesMore(h, h1, h', Silent(n - 1), [Internal]);
    }
  }

  lemma PathShorter(fm: Formats, path: seq<System>, n: nat)
    requires n > 0 && Path(fm, path, Silent(n))
    ensures Path(fm, path[..n], Silent(n - 1)) && Step(fm, path[n - 1], Internal, path[n])
  {
    assert Silent(n)[n - 1] == Internal;
    forall i | 0 <= i < n - 1 ensures Step(fm, path[..n][i], Silent(n - 1)[i], path[..n][i + 1]) {
      assert Step(fm, path[i], Silent(n)[i], path[i + 1]);
    }
  }

  // ---------------------------------------------------------------- one write

  lemma WriteSteps(fm: Formats, path: seq<System>, ops: seq<Op>)
    requires Path(fm, path, [Begin(ops), Internal, Ack])
    ensures Step(fm, path[0], Begin(ops), path[1]) && Step(fm, path[1], Internal, path[2])
      && Step(fm, path[2], Ack, path[3])
  {
    var events := [Begin(ops), Internal, Ack];
    assert Step(fm, path[0], events[0], path[1]);
    assert Step(fm, path[1], events[1], path[2]);
    assert Step(fm, path[2], events[2], path[3]);
  }

  lemma HistoryBegin(fm: Formats, h: History, s: System, ops: seq<Op>, s': System) returns (h': History)
    requires LogLaws(fm) && LeadsTo(fm, h, s) && Step(fm, s, Begin(ops), s')
    ensures LeadsTo(fm, h', s') && Continues(h, h', [Begin(ops)])
    ensures Now(h').m == Now(h).m && Now(h').pending == Some(ops)
  {
    h' := HistoryStep(fm, h, s, Begin(ops), s');
  }

  lemma HistoryAppend(fm: Formats, h: History, s: System, s': System) returns (h': History)
    requires LogLaws(fm) && LeadsTo(fm, h, s) && Step(fm, s, Internal, s')
    ensures LeadsTo(fm, h', s') && Continues(h, h', [Internal]) && Now(h') == Now(h)
  {
    h' := HistoryStep(fm, h, s, Internal, s');
  }

  lemma HistoryAck(fm: Formats, h: History, s: System, ops: seq<Op>, s': System) returns (h': History)
    requires LogLaws(fm) && LeadsTo(fm, h, s) && Step(fm, s, Ack, s') && Now(h).pending == Some(ops)
    ensures LeadsTo(fm, h', s') && Continues(h, h', [Ack])
    ensures Now(h').m == Apply(Now(h).m, ops) && Now(h').pending.None?
  {
    h' := HistoryStep(fm, h, s, Ack, s');
  }

  lemma ContinuesWrite(h: History, h1: History, h2: History, h3: History, ops: seq<Op>)
    requires Continues(h, h1, [Begin(ops)]) && Continues(h1, h2, [Internal]) && Continues(h2, h3, [Ack])
    ensures Continues(h, h3, [Begin(ops), Internal, Ack])
  {
    ContinuesMore(h, h1, h2, [Begin(ops)], [Internal]);
    ContinuesMore(h, h2, h3, [Begin(ops)] + [Internal], [Ack]);
    assert [Begin(ops)] + [Internal] + [Ack] == [Begin(ops), Internal, Ack];
  }

  /** A write that completes is applied to the map. */
  lemma HistoryWrite(fm: Formats, h: History, path: seq<System>, ops: seq<Op>) returns (h': History)
    requires LogLaws(fm) && Path(fm, path, [Begin(ops), Internal, Ack]) && LeadsTo(fm, h, path[0])
    ensures LeadsTo(fm, h', path[3]) && Continues(h, h', [Begin(ops), Internal, Ack])
    ensures Now(h').m == Apply(Now(h).m, ops) && Now(h').pending.None?
  {
    WriteSteps(fm, path, ops);
    var h1 := HistoryBegin(fm, h, path[0], ops, path[1]);
    var h2 := HistoryAppend(fm, h1, path[1], path[2]);
    h' := HistoryAck(fm, h2, path[2], ops, path[3]);
    ContinuesWrite(h, h1, h2, h', ops);
  }

  /** A crash loses no write that was acknowledged; one under way it loses whole or not at all. */
  lemma HistoryCrash(fm: Formats, h: History, s: System) returns (h': History)
    requires LogLaws(fm) && LeadsTo(fm, h, s)
    ensures LeadsTo(fm, h', System(s.disk, Down)) && Continues(h, h', [Crash]) && Now(h').pending.None?
    ensures Now(h').m == Now(h).m || (Now(h).pending.Some? && Now(h').m == Apply(Now(h).m, Now(h).pending.value))
  {
    h' := HistoryStep(fm, h, s, Crash, System(s.disk, Down));
  }

  lemma SomeAppended(fm: Formats, d: Disk, memory: Memory, ops: seq<Op>, before: bytes, added: bytes, c: nat)
    requires memory.logNumber in d.logs && before == d.logs[memory.logNumber]
    requires added == fm.added(before, Record(memory, ops)) && 0 < c <= |added|
    ensures Step(fm, System(d, Writing(memory, ops, before, 0)), Internal,
      System(LogGrown(d, memory, added[..c]), Writing(memory, ops, before, c)))
  {
    assert AppendStep(fm, System(d, Writing(memory, ops, before, 0)),
      System(LogGrown(d, memory, added[..c]), Writing(memory, ops, before, c)), c);
  }

  lemma NoneAppended(d: Disk, memory: Memory)
    requires memory.logNumber in d.logs
    ensures LogGrown(d, memory, []) == d
  {
    Seqs.Nil(d.logs[memory.logNumber]);
    assert d.logs[memory.logNumber := d.logs[memory.logNumber]] == d.logs;
  }

  /** A write begun, and `c` bytes of its record in the log. */
  lemma HistoryPartial(fm: Formats, h: History, d: Disk, memory: Memory, ops: seq<Op>, before: bytes, added: bytes,
                       c: nat)
    returns (h': History)
    requires LogLaws(fm) && LeadsTo(fm, h, System(d, Ready(memory))) && memory.logNumber in d.logs
    requires OpsFit(ops) && memory.lastSeq + |ops| <= MAX_SEQUENCE && before == d.logs[memory.logNumber]
    requires added == fm.added(before, Record(memory, ops)) && c <= |added|
    ensures LeadsTo(fm, h', System(LogGrown(d, memory, added[..c]), Writing(memory, ops, before, c)))
    ensures Now(h').m == Now(h).m && Now(h').pending == Some(ops) && h.run <= h'.run && h.ts <= h'.ts
  {
    BeginIs(fm, d, memory, ops);
    h' := HistoryBegin(fm, h, System(d, Ready(memory)), ops, System(d, Writing(memory, ops, before, 0)));
    if c > 0 {
      SomeAppended(fm, d, memory, ops, before, added, c);
      h' := HistoryAppend(fm, h', System(d, Writing(memory, ops, before, 0)),
        System(LogGrown(d, memory, added[..c]), Writing(memory, ops, before, c)));
    } else {
      NoneAppended(d, memory);
    }
  }

  /** A crash after any byte of a write's record: from the directory it leaves, the database is opened with the write
      applied whole or not at all. */
  lemma HistoryTorn(fm: Formats, h: History, s: Open, ops: seq<Op>, added: bytes, c: nat) returns (h': History)
    requires LogLaws(fm) && LeadsTo(fm, h, s) && OpsFit(ops) && s.process.memory.lastSeq + |ops| <= MAX_SEQUENCE
    requires var memory := s.process.memory;
      added == fm.added(s.disk.logs[memory.logNumber], Record(memory, ops)) && c <= |added|
    ensures LeadsTo(fm, h', System(LogGrown(s.disk, s.process.memory, added[..c]), Down))
    ensures Now(h').pending.None? && (Now(h').m == Now(h).m || Now(h').m == Apply(Now(h).m, ops))
    ensures h.run <= h'.run && h.ts <= h'.ts
  {
    var d, memory := s.disk, s.process.memory;
    var before := d.logs[memory.logNumber];
    var h1 := HistoryPartial(fm, h, d, memory, ops, before, added, c);
    h' := HistoryCrash(fm, h1, System(LogGrown(d, memory, added[..c]), Writing(memory, ops, before, c)));
  }

  // ---------------------------------------------------------------- what a client may do, and what it reads

  /** The write fills the memtable. */
  predicate Fills(s: Open, op: Op) {
    Full(Remembered(s.process.memory, [op]))
  }

  /** The write is within the format's sizes and numbers, and so is the table when it brings one about. */
  predicate WriteFits(sum: Sum, s: Open, op: Op) {
    && OpFits(op) && s.process.memory.lastSeq < MAX_SEQUENCE
    && (Fills(s, op) ==> MemFits(sum, Committed(sum, s, [op])))
  }

  /** The events of such a write. */
  function WriteAndFlush(op: Op, full: bool): seq<Label> {
    [Begin([op]), Internal, Ack] + if full then FLUSH_EVENTS else []
  }

  lemma RemembersSome(memory: Memory, op: Op)
    requires memory.lastSeq < MAX_SEQUENCE
    ensures Remembered(memory, [op]).mem != []
  {
    ClientRuns.AddsOne(memory.mem, memory.lastSeq + 1, op);
  }

  lemma OpFitsAlone(op: Op)
    requires OpFits(op)
    ensures OpsFit([op])
  {
  }

  lemma FlushIsSilent(sum: Sum, fm: Formats, s: Open) returns (path: seq<System>, s': Open, n: nat)
    requires fm == Standard(sum) && s.process.memory.mem != [] && MemFits(sum, s)
    ensures FlushDone(sum, s).ok && s' == FlushDone(sum, s).state && Silent(n) == FLUSH_EVENTS
    ensures Path(fm, path, Silent(n)) && path[0] == s && path[n] == s'
    ensures Disks(path) == [s.disk] + FlushDone(sum, s).trail
  {
    n := 5;
    assert Silent(n) == FLUSH_EVENTS;
    path := FlushTakesSteps(sum, fm, s);
    s' := FlushDone(sum, s).state;
  }

  lemma HistoryFlush(sum: Sum, fm: Formats, h: History, s: Open) returns (h': History)
    requires fm == Standard(sum) && LogLaws(fm) && LeadsTo(fm, h, s) && s.process.memory.mem != [] && MemFits(sum, s)
    ensures FlushDone(sum, s).ok && LeadsTo(fm, h', FlushDone(sum, s).state)
    ensures Continues(h, h', FLUSH_EVENTS) && Now(h') == Now(h)
  {
    var path, s', n := FlushIsSilent(sum, fm, s);
    h' := HistorySilent(fm, h, path, n);
  }

  /** The database object's `Put` or `Delete`: it succeeds, and the plain map has the operation applied. */
  lemma HistoryOp(sum: Sum, fm: Formats, h: History, s: Open, op: Op) returns (h': History)
    requires fm == Standard(sum) && LeadsTo(fm, h, s) && WriteFits(sum, s, op)
    ensures var r := WriteDone(sum, s, BatchOf(op)); r.ok && LeadsTo(fm, h', r.state)
    ensures Continues(h, h', WriteAndFlush(op, Fills(s, op))) && Now(h').m == ApplyOp(Now(h).m, op)
  {
    LogObeys(sum);
    OpFitsAlone(op);
    BatchOfIs(op);
    CommitDoneIs(sum, s, 0, [op]);
    var path := CommitIsPath(sum, fm, s, [op]);
    h' := HistoryWrite(fm, h, path, [op]);
    assert Apply(Now(h).m, [op]) == ApplyOp(Now(h).m, op) by {
      assert [op][..0] == [];
    }
    if Fills(s, op) {
      var h1 := h';
      RemembersSome(s.process.memory, op);
      h' := HistoryFlush(sum, fm, h1, Committed(sum, s, [op]));
      ContinuesMore(h, h1, h', [Begin([op]), Internal, Ack], FLUSH_EVENTS);
    } else {
      Seqs.Nil([Begin([op]), Internal, Ack]);
    }
  }

  /** Opening the database. */
  lemma HistoryInit(sum: Sum, fm: Formats, h: History, d: Disk, files: seq<FileInfo>)
    returns (h': History, s: Open, n: nat)
    requires fm == Standard(sum) && LeadsTo(fm, h, System(d, Down)) && Listing(d, files)
    ensures InitDone(sum, d, files).state == Some(s) && LeadsTo(fm, h', s)
    ensures Continues(h, h', Silent(n)) && Now(h') == Now(h)
  {
    LogObeys(sum);
    var path;
    path, s, n := InitIsSilent(sum, fm, h.run, h.events, d, files);
    h' := HistorySilent(fm, h, path, n);
  }

  // ---------------------------------------------------------------- crashes between directory states

  lemma PathPrefix(fm: Formats, path: seq<System>, n: nat, i: nat)
    requires Path(fm, path, Silent(n)) && i <= n
    ensures Path(fm, path[..i + 1], Silent(i))
  {
    forall j | 0 <= j < i ensures Step(fm, path[..i + 1][j], Silent(i)[j], path[..i + 1][j + 1]) {
      assert Step(fm, path[j], Silent(n)[j], path[j + 1]);
    }
  }

  /** A crash at any place of a silent path from a state without a write under way leaves the map as it was. */
  lemma HistoryCut(fm: Formats, h: History, path: seq<System>, n: nat, i: nat) returns (h': History)
    requires LogLaws(fm) && Path(fm, path, Silent(n)) && LeadsTo(fm, h, path[0]) && i <= n && Now(h).pending.None?
    ensures LeadsTo(fm, h', System(path[i].disk, Down)) && Continues(h, h', Silent(i) + [Crash])
    ensures Now(h').m == Now(h).m
  {
    PathPrefix(fm, path, n, i);
    var h1 := HistorySilent(fm, h, path[..i + 1], i);
    h' := HistoryCrash(fm, h1, path[i]);
    ContinuesMore(h, h1, h', Silent(i), [Crash]);
  }

  lemma NothingPending(fm: Formats, h: History, s: System)
    requires LeadsTo(fm, h, s) && !s.process.Writing?
    ensures Now(h).pending.None?
  {
  }

  lemma DiskAt(path: seq<System>, before: seq<Disk>, trail: seq<Disk>, i: nat, j: nat)
    requires Disks(path) == before + trail && i < |trail| && j == |before| + i
    ensures j < |path| && path[j].disk == trail[i]
  {
    assert Disks(path)[j] == trail[i];
  }

  /** A crash at place `i` of `trail`, where the path goes through these directory states behind those before. */
  lemma HistoryAtTrail(fm: Formats, h: History, path: seq<System>, n: nat, before: seq<Disk>, trail: seq<Disk>, i: nat)
    returns (h': History, j: nat)
    requires LogLaws(fm) && Path(fm, path, Silent(n)) && LeadsTo(fm, h, path[0]) && !path[0].process.Writing?
    requires Disks(path) == before + trail && i < |trail|
    ensures LeadsTo(fm, h', System(trail[i], Down)) && Continues(h, h', Silent(j) + [Crash]) && Now(h').m == Now(h).m
  {
    j := |before| + i;
    NothingPending(fm, h, path[0]);
    DiskAt(path, before, trail, i, j);
    h' := HistoryCut(fm, h, path, n, j);
  }

  /** A crash after any directory state of a flush: the database is opened from it with the same map. */
  lemma HistoryFlushCrash(sum: Sum, fm: Formats, h: History, s: Open, trail: seq<Disk>, i: nat)
    returns (h': History, n: nat)
    requires fm == Standard(sum) && LeadsTo(fm, h, s) && s.process.memory.mem != [] && MemFits(sum, s)
    requires trail == FlushDone(sum, s).trail && i < |trail|
    ensures LeadsTo(fm, h', System(trail[i], Down)) && Now(h').m == Now(h).m
    ensures Continues(h, h', Silent(n) + [Crash])
  {
    LogObeys(sum);
    var path, _, m := FlushIsSilent(sum, fm, s);
    h', n := HistoryAtTrail(fm, h, path, m, [s.disk], trail, i);
  }

  lemma Regrouped(d: Disk, ds: seq<Disk>, last: Disk)
    ensures [d] + ([d] + ds + [last]) == [d, d] + (ds + [last])
  {
  }

  lemma SilentGives(fm: Formats, path: seq<System>, s: System, s': System, ds: seq<Disk>) returns (n: nat)
    requires SilentPath(fm, path, s, s', ds)
    ensures n + 1 == |path| && Path(fm, path, Silent(n)) && path[0] == s && path[n] == s'
      && Disks(path) == [s.disk] + ds
  {
    n := |path| - 1;
  }

  lemma InitIsSilent(sum: Sum, fm: Formats, run: seq<System>, events: seq<Label>, d: Disk, files: seq<FileInfo>)
    returns (path: seq<System>, s: Open, n: nat)
    requires fm == Standard(sum) && IsRun(fm, run, events) && run[|events|] == System(d, Down) && Listing(d, files)
    ensures InitDone(sum, d, files).state == Some(s) && Path(fm, path, Silent(n)) && path[0] == System(d, Down)
    ensures path[n] == s && Disks(path) == [d, d] + InitDone(sum, d, files).trail
  {
    path, s := InitTakesSteps(sum, fm, run, events, d, files);
    n := SilentGives(fm, path, System(d, Down), s, [d] + CleanDisks(d, files) + [s.disk]);
    Regrouped(d, CleanDisks(d, files), s.disk);
  }

  /** The same after any directory state of a start-up. */
  lemma HistoryInitCrash(sum: Sum, fm: Formats, h: History, d: Disk, files: seq<FileInfo>, trail: seq<Disk>, i: nat)
    returns (h': History, n: nat)
    requires fm == Standard(sum) && LeadsTo(fm, h, System(d, Down)) && Listing(d, files)
    requires trail == InitDone(sum, d, files).trail && i < |trail|
    ensures LeadsTo(fm, h', System(trail[i], Down)) && Now(h').m == Now(h).m
    ensures Continues(h, h', Silent(n) + [Crash])
  {
    LogObeys(sum);
    var path, _, m := InitIsSilent(sum, fm, h.run, h.events, d, files);
    h', n := HistoryAtTrail(fm, h, path, m, [d, d], trail, i);
  }

  // ---------------------------------------------------------------- reading

  /** What is read of a key apart from every key written is what the plain map has. */
  lemma HistoryAnswers(sum: Sum, fm: Formats, h: History, s: Open, user: bytes)
    requires fm == Standard(sum) && LeadsTo(fm, h, s) && Sought(WrittenBy(h.events), user)
    ensures DbGet(fm, s.process.memory, user) == MapGet(Now(h).m, user)
  {
    TableObeys(sum);
    WrittenIs(h.ts, h.events, |h.events|);
    GetAnswers(fm, s, Now(h), h.w, user);
  }

  // ---------------------------------------------------------------- a condition to check before a write

  /** What `op` takes of the memtable's memory. */
  function OpSize(op: Op): nat {
    NODE_SIZE + |op.key| + 8 + if op.Put? then |op.value| else 0
  }

  lemma EntryOfSize(n: nat, op: Op)
    ensures EntrySize(EntryOf(n, op)) == OpSize(op)
  {
  }

  /** What a write leaves of sequence numbers and memory: it takes one number, and no more memory than its size. */
  ghost predicate Takes(before: Memory, after: Memory, op: Op) {
    after.lastSeq == before.lastSeq + 1 && MemUsage(after.mem) <= MemUsage(before.mem) + OpSize(op)
  }

  lemma RememberedTakes(memory: Memory, op: Op)
    requires memory.lastSeq < MAX_SEQUENCE
    ensures Takes(memory, Remembered(memory, [op]), op)
    ensures MemUsage(Remembered(memory, [op]).mem) == MemUsage(memory.mem) + OpSize(op)
  {
    var n := memory.lastSeq + 1;
    ClientRuns.AddsOne(memory.mem, n, op);
    UsageAdded(memory.mem, EntryOf(n, op));
    EntryOfSize(n, op);
  }

  /** A flush gives out no numbers, and keeps or empties the memtable. */
  ghost predicate Drains(before: Memory, after: Memory) {
    after.lastSeq == before.lastSeq && (after.mem == before.mem || after.mem == [])
  }

  lemma FlushDrains(sum: Sum, s: Open, file: bytes)
    ensures Drains(s.process.memory, FlushInto(sum, s, file).state.process.memory)
  {
  }

  lemma TakesDrained(before: Memory, between: Memory, after: Memory, op: Op)
    requires Takes(before, between, op) && Drains(between, after)
    ensures Takes(before, after, op)
  {
  }

  lemma FlushTakes(sum: Sum, s: Open, before: Memory, op: Op)
    requires Takes(before, s.process.memory, op)
    ensures Takes(before, FlushDone(sum, s).state.process.memory, op)
  {
    if s.process.memory.mem != [] {
      var file := TableFormat.BuildTable(sum, s.process.memory.mem);
      FlushDrains(sum, s, file);
      TakesDrained(before, s.process.memory, FlushInto(sum, s, file).state.process.memory, op);
    }
  }

  lemma CommitTakes(sum: Sum, s: Open, op: Op)
    requires OpFits(op) && s.process.memory.lastSeq < MAX_SEQUENCE
    ensures Takes(s.process.memory, CommitDone(sum, s, BatchOf(op)).state.process.memory, op)
  {
    OpFitsAlone(op);
    BatchOfIs(op);
    CommitDoneIs(sum, s, 0, [op]);
    RememberedTakes(s.process.memory, op);
  }

  lemma WriteTakes(sum: Sum, s: Open, op: Op)
    requires OpFits(op) && s.process.memory.lastSeq < MAX_SEQUENCE
    ensures Takes(s.process.memory, WriteDone(sum, s, BatchOf(op)).state.process.memory, op)
  {
    CommitTakes(sum, s, op);
    FlushTakes(sum, CommitDone(sum, s, BatchOf(op)).state, s.process.memory, op);
  }

  /** With the memtable and the write within a gigabyte, the write fits. */
  lemma RoomFits(sum: Sum, s: Open, op: Op)
    requires OpFits(op) && s.process.memory.lastSeq < MAX_SEQUENCE
    requires MemUsage(s.process.memory.mem) + OpSize(op) <= TableSizes.LIGHT
    ensures WriteFits(sum, s, op)
  {
    RememberedTakes(s.process.memory, op);
    LightMemFits(sum, Committed(sum, s, [op]));
  }

  lemma {:induction false} WeightOfUsage(es: seq<MemEntry>)
    ensures TableSizes.Weight(es) <= EntrySizes(es)
    decreases |es|
  {
    if es != [] {
      WeightOfUsage(es[..|es| - 1]);
    }
  }

  /** A memtable that uses up to a gigabyte fits a table. */
  lemma LightMemFits(sum: Sum, s: Open)
    requires MemUsage(s.process.memory.mem) <= TableSizes.LIGHT
    ensures MemFits(sum, s)
  {
    WeightOfUsage(s.process.memory.mem);
    TableSizes.LightFits(sum, s.process.memory.mem);
  }

  // ---------------------------------------------------------------- the same for an object that is in some state

  /** The plain map that an open database stands for, if the history leads to its state. */
  ghost function Shown(sum: Sum, h: History, s: Option<Open>): Option<map<bytes, bytes>> {
    if s.Some? && LeadsTo(Standard(sum), h, s.value) then Some(Now(h).m) else None
  }

  lemma ShownOp(sum: Sum, h: History, s: Open, m: map<bytes, bytes>, op: Op) returns (h': History, r: Done)
    requires Shown(sum, h, Some(s)) == Some(m) && WriteFits(sum, s, op)
    ensures r == WriteDone(sum, s, BatchOf(op)) && r.ok && Shown(sum, h', Some(r.state)) == Some(ApplyOp(m, op))
    ensures Continues(h, h', WriteAndFlush(op, Fills(s, op))) && Takes(s.process.memory, r.state.process.memory, op)
  {
    WriteTakes(sum, s, op);
    h' := HistoryOp(sum, Standard(sum), h, s, op);
    r := WriteDone(sum, s, BatchOf(op));
  }

  /** Any write: the map is changed if it fits, and nothing is said of the map if it does not. */
  lemma ShownWrite(sum: Sum, h: History, s: Open, m: Option<map<bytes, bytes>>, op: Op, fits: bool)
    returns (h': History, r: Done)
    requires Shown(sum, h, Some(s)) == m && fits == (m.Some? && WriteFits(sum, s, op))
    ensures r == WriteDone(sum, s, BatchOf(op))
    ensures fits ==> r.ok && Shown(sum, h', Some(r.state)) == Some(ApplyOp(m.value, op))
    ensures fits ==> Continues(h, h', WriteAndFlush(op, Fills(s, op)))
    ensures fits ==> Takes(s.process.memory, r.state.process.memory, op)
    ensures r.ok ==> MemUsage(r.state.process.memory.mem) < 4_194_304
  {
    FlushesWhenFull(sum, s, BatchOf(op));
    if fits {
      h', r := ShownOp(sum, h, s, m.value, op);
    } else {
      h', r := h, WriteDone(sum, s, BatchOf(op));
    }
  }

  lemma ShownInit(sum: Sum, h: History, d: Disk, files: seq<FileInfo>, m: map<bytes, bytes>)
    returns (h': History, s: Open, n: nat)
    requires LeadsTo(Standard(sum), h, System(d, Down)) && Now(h).m == m && Listing(d, files)
    ensures InitDone(sum, d, files).state == Some(s) && Shown(sum, h', Some(s)) == Some(m)
    ensures Continues(h, h', Silent(n))
  {
    h', s, n := HistoryInit(sum, Standard(sum), h, d, files);
  }

  /** A crash, or a close, loses nothing that was acknowledged. */
  lemma ShownCrash(sum: Sum, h: History, s: Open, m: map<bytes, bytes>) returns (h': History)
    requires Shown(sum, h, Some(s)) == Some(m)
    ensures LeadsTo(Standard(sum), h', System(s.disk, Down)) && Now(h').m == m && Continues(h, h', [Crash])
  {
    LogObeys(sum);
    h' := HistoryCrash(Standard(sum), h, s);
    NothingPending(Standard(sum), h, s);
  }

  /** What `Get` answers, when the key is apart from every key ever written. */
  lemma ShownAnswers(sum: Sum, h: History, s: Open, m: map<bytes, bytes>, user: bytes)
    requires Shown(sum, h, Some(s)) == Some(m) && Sought(WrittenBy(h.events), user)
    ensures DbGet(Standard(sum), s.process.memory, user) == MapGet(m, user)
  {
    HistoryAnswers(sum, Standard(sum), h, s, user);
  }
}
