/** The main theorem: every run of the store, crashes included, is a run of a plain map. */
module StoreTheorem {
  import opened Bytes
  import opened MemTables
  import opened Recovery
  import opened Layers
  import opened Store
  import opened StoreProofs

  // ---------------------------------------------------------------- one step

  lemma StepKeeps(fm: Formats, s: System, event: Label, s': System, t: Plain, w: Witness)
    returns (t': Plain, w': Witness)
    requires LogLaws(fm) && Inv(fm, s, t, w) && Step(fm, s, event, s')
    ensures Inv(fm, s', t', w') && PlainStep(t, event, t')
  {
    t', w' := t, w;
    match event
    case Internal =>
      w' := InternalKeeps(fm, s, s', t, w);
    case Begin(ops) =>
      t' := Plain(t.m, Some(ops), t.written + KeysOf(ops));
      BeginKeeps(fm, s, s', ops, t, t', w);
    case Ack =>
      t' := Plain(Apply(t.m, s.process.ops), None, t.written);
      AckKeeps(fm, s, s', t, t', w);
    case Crash =>
      t' := Plain(Target(fm, s.process, t.m), None, t.written);
      CrashKeeps(fm, s, t, t', w);
  }

  // ---------------------------------------------------------------- what reads return

  /** The memtable over the mounted tables answers as the recoverable view does. */
  lemma LayersAnswer(fm: Formats, memory: Memory, tables: map<nat, bytes>, w: Witness, keys: set<bytes>, user: bytes)
    requires TableLaws(fm) && TablesHold(fm, tables, w.content, keys) && Sought(keys, user)
    requires Chained(w.batches) && memory.mem == MemOf(w.batches) && memory.tables == Mounted(tables)
    ensures DbGet(fm, memory, user) == Visible(View(w, user))
  {
    MemHolds(w.batches, KeysOf(OpsOf(w.batches)), user);
    MemGetIsLookup(memory.mem, user);
    GetFromMounted(fm, tables, w.content, keys, user);
  }

  /** In an open database `Get` returns what the map has. */
  lemma GetAnswers(fm: Formats, s: System, t: Plain, w: Witness, user: bytes)
    requires TableLaws(fm) && Inv(fm, s, t, w) && s.process.Ready? && Sought(t.written, user)
    ensures DbGet(fm, s.process.memory, user) == MapGet(t.m, user)
  {
    LayersAnswer(fm, s.process.memory, s.disk.tables, w, t.written, user);
    assert Visible(View(w, user)) == MapGet(t.m, user);
  }

  /** What a recovery that starts from this disk would answer. */
  ghost function Recoverable(fm: Formats, d: Disk, user: bytes): Option<bytes> {
    DbGet(fm, Memory(0, Replayed(fm, d.logs), Mounted(d.tables), 0, 0), user)
  }

  ghost function Replayed(fm: Formats, logs: map<nat, bytes>): seq<MemEntry> {
    if logs == map[] then [] else
    var n := Greatest(logs.Keys);
    var r := Recovered(fm.records(logs[n]), [], 0);
    if r.None? then [] else r.value.0
  }

  lemma ReplayedIs(fm: Formats, logs: map<nat, bytes>, batches: seq<Logged>)
    requires LogsHold(fm, logs, batches) && Chained(batches)
    ensures Replayed(fm, logs) == MemOf(batches)
  {
    if logs != map[] {
      var n := Greatest(logs.Keys);
      RecoverAll(batches);
    }
  }

  /** At every moment the disk alone says the map, with a write in flight counted from its last byte on. */
  lemma DiskAnswers(fm: Formats, s: System, t: Plain, w: Witness, user: bytes)
    requires TableLaws(fm) && Inv(fm, s, t, w) && Sought(t.written, user)
    ensures Recoverable(fm, s.disk, user) == MapGet(Target(fm, s.process, t.m), user)
  {
    ReplayedIs(fm, s.disk.logs, w.batches);
    LayersAnswer(fm, Memory(0, Replayed(fm, s.disk.logs), Mounted(s.disk.tables), 0, 0), s.disk.tables,
      w, t.written, user);
    assert Visible(View(w, user)) == MapGet(Target(fm, s.process, t.m), user);
  }

  // ---------------------------------------------------------------- runs

  ghost predicate IsRun(fm: Formats, run: seq<System>, events: seq<Label>) {
    && |run| == |events| + 1 && run[0] == System(EMPTY_DISK, Down)
    && forall i :: 0 <= i < |events| ==> Step(fm, run[i], events[i], run[i + 1])
  }

  ghost predicate IsPlainRun(ts: seq<Plain>, events: seq<Label>) {
    && |ts| == |events| + 1 && ts[0] == Plain(map[], None, {})
    && forall i :: 0 <= i < |events| ==> PlainStep(ts[i], events[i], ts[i + 1])
  }

  ghost predicate Matched(fm: Formats, run: seq<System>, ts: seq<Plain>, ws: seq<Witness>) {
    |run| == |ts| == |ws| && forall i :: 0 <= i < |run| ==> Inv(fm, run[i], ts[i], ws[i])
  }

  /** Every run keeps the invariant beside a run of the plain map with the same events. */
  lemma {:induction false} Refines(fm: Formats, run: seq<System>, events: seq<Label>)
    returns (ts: seq<Plain>, ws: seq<Witness>)
    requires LogLaws(fm) && IsRun(fm, run, events)
    ensures IsPlainRun(ts, events) && Matched(fm, run, ts, ws)
    decreases |events|
  {
    if events == [] {
      InitHolds(fm);
      ts, ws := [Plain(map[], None, {})], [Witness(map[], [])];
    } else {
      var n := |events| - 1;
      RunPrefix(fm, run, events, n);
      ts, ws := Refines(fm, run[..n + 1], events[..n]);
      assert Inv(fm, run[n], ts[n], ws[n]);
      var t, w := StepKeeps(fm, run[n], events[n], run[n + 1], ts[n], ws[n]);
      PlainLonger(ts, events, n, t);
      MatchedLonger(fm, run, ts, ws, n + 1, t, w);
      ts, ws := ts + [t], ws + [w];
    }
  }

  lemma RunPrefix(fm: Formats, run: seq<System>, events: seq<Label>, n: nat)
    requires IsRun(fm, run, events) && n < |events|
    ensures IsRun(fm, run[..n + 1], events[..n])
  {
  }

  lemma PlainLonger(ts: seq<Plain>, events: seq<Label>, n: nat, t: Plain)
    requires n + 1 == |events| && IsPlainRun(ts, events[..n]) && PlainStep(ts[n], events[n], t)
    ensures IsPlainRun(ts + [t], events)
  {
  }

  lemma MatchedLonger(fm: Formats, run: seq<System>, ts: seq<Plain>, ws: seq<Witness>, n: nat, t: Plain, w: Witness)
    requires n + 1 == |run| && Matched(fm, run[..n], ts, ws) && Inv(fm, run[n], t, w)
    ensures Matched(fm, run, ts + [t], ws + [w])
  {
    forall i | 0 <= i < n ensures Inv(fm, run[i], ts[i], ws[i]) {
      assert run[i] == run[..n][i];
    }
  }

  // ---------------------------------------------------------------- every disk step, over whole runs

  /** Every key that a write was requested for. */
  function WrittenBy(events: seq<Label>): set<bytes> {
    if events == [] then {}
    else
      WrittenBy(events[..|events| - 1]) + (if events[|events| - 1].Begin? then KeysOf(events[|events| - 1].ops) else {})
  }

  lemma {:induction false} WrittenIs(ts: seq<Plain>, events: seq<Label>, i: nat)
    requires IsPlainRun(ts, events) && i <= |events|
    ensures ts[i].written <= WrittenBy(events)
    decreases |events|
  {
    if events != [] {
      var n := |events| - 1;
      assert IsPlainRun(ts[..n + 1], events[..n]);
      if i <= n {
        WrittenIs(ts[..n + 1], events[..n], i);
      } else {
        WrittenIs(ts[..n + 1], events[..n], n);
        assert PlainStep(ts[n], events[n], ts[n + 1]);
      }
    }
  }

  /** What the run shows at `i`, for a key apart from every key written. */
  lemma RunAnswers(fm: Formats, run: seq<System>, events: seq<Label>, ts: seq<Plain>, ws: seq<Witness>, i: nat,
                   user: bytes)
    requires TableLaws(fm) && IsPlainRun(ts, events) && Matched(fm, run, ts, ws) && |run| == |events| + 1
    requires i < |run| && Sought(WrittenBy(events), user)
    ensures Recoverable(fm, run[i].disk, user) == MapGet(Target(fm, run[i].process, ts[i].m), user)
    ensures run[i].process.Ready? ==> DbGet(fm, run[i].process.memory, user) == MapGet(ts[i].m, user)
  {
    WrittenIs(ts, events, i);
    assert Inv(fm, run[i], ts[i], ws[i]);
    DiskAnswers(fm, run[i], ts[i], ws[i], user);
    if run[i].process.Ready? {
      GetAnswers(fm, run[i], ts[i], ws[i], user);
    }
  }

  /** Reads answer from the map throughout the run. */
  lemma RefinesMap(fm: Formats, run: seq<System>, events: seq<Label>) returns (ts: seq<Plain>)
    requires LogLaws(fm) && TableLaws(fm) && IsRun(fm, run, events)
    ensures IsPlainRun(ts, events)
    ensures forall i, user :: 0 <= i < |run| && run[i].process.Ready? && Sought(WrittenBy(events), user) ==>
      DbGet(fm, run[i].process.memory, user) == MapGet(ts[i].m, user)
    ensures forall i, user :: 0 <= i < |run| && Sought(WrittenBy(events), user) ==>
      Recoverable(fm, run[i].disk, user) == MapGet(Target(fm, run[i].process, ts[i].m), user)
  {
    var ws: seq<Witness>;
    ts, ws := Refines(fm, run, events);
    forall i, user | 0 <= i < |run| && Sought(WrittenBy(events), user)
      ensures run[i].process.Ready? ==> DbGet(fm, run[i].process.memory, user) == MapGet(ts[i].m, user)
      ensures Recoverable(fm, run[i].disk, user) == MapGet(Target(fm, run[i].process, ts[i].m), user)
    {
      RunAnswers(fm, run, events, ts, ws, i, user);
    }
  }

  /** No single step of start-up or flush changes what recovery would answer. */
  lemma DiskStepKeepsView(fm: Formats, run: seq<System>, events: seq<Label>, i: nat, user: bytes)
    requires LogLaws(fm) && TableLaws(fm) && IsRun(fm, run, events) && Sought(WrittenBy(events), user)
    requires i < |events| && events[i].Internal? && !run[i].process.Writing?
    ensures Recoverable(fm, run[i + 1].disk, user) == Recoverable(fm, run[i].disk, user)
  {
    var ts, ws := Refines(fm, run, events);
    RunAnswers(fm, run, events, ts, ws, i, user);
    RunAnswers(fm, run, events, ts, ws, i + 1, user);
    assert PlainStep(ts[i], events[i], ts[i + 1]);
    assert Step(fm, run[i], events[i], run[i + 1]);
  }

  /** Nor does any byte of a log append but the record's last, which brings the whole batch at once. */
  lemma AppendStepView(fm: Formats, run: seq<System>, events: seq<Label>, i: nat, user: bytes)
    requires LogLaws(fm) && TableLaws(fm) && IsRun(fm, run, events) && Sought(WrittenBy(events), user)
    requires i < |events| && events[i].Internal? && run[i].process.Writing?
    ensures Recoverable(fm, run[i + 1].disk, user)
         == if Complete(fm, run[i + 1].process) && !LastWrite(run[i].process.ops, user).NotFound?
            then Visible(LastWrite(run[i].process.ops, user)) else Recoverable(fm, run[i].disk, user)
  {
    var ts, ws := Refines(fm, run, events);
    RunAnswers(fm, run, events, ts, ws, i, user);
    RunAnswers(fm, run, events, ts, ws, i + 1, user);
    assert PlainStep(ts[i], events[i], ts[i + 1]);
    AppendOnly(fm, run[i], run[i + 1], events[i]);
    ApplyLast(ts[i].m, run[i].process.ops, user);
  }

  lemma AppendOnly(fm: Formats, s: System, s': System, event: Label)
    requires Step(fm, s, event, s') && event.Internal? && s.process.Writing?
    ensures s'.process.Writing? && s'.process.ops == s.process.ops && !Complete(fm, s.process)
  {
    var done :| AppendStep(fm, s, s', done);
  }

  /** There is never more than one log, and its batches' sequence ranges are back to back. */
  lemma LogChained(fm: Formats, run: seq<System>, events: seq<Label>, i: nat) returns (batches: seq<Logged>)
    requires LogLaws(fm) && IsRun(fm, run, events) && i < |run|
    ensures Chained(batches)
    ensures forall n :: n in run[i].disk.logs ==>
      run[i].disk.logs.Keys == {n} && fm.records(run[i].disk.logs[n]) == Encoded(batches)
  {
    var ts, ws := Refines(fm, run, events);
    assert Inv(fm, run[i], ts[i], ws[i]);
    batches := ws[i].batches;
  }

  /** A flush takes a number above every file's, and keeps it above every other's until the table is in place. */
  lemma NewTableAbove(fm: Formats, run: seq<System>, events: seq<Label>, i: nat)
    requires LogLaws(fm) && IsRun(fm, run, events) && i < |run|
    ensures run[i].process.Ready? ==> AllBelow(run[i].disk, run[i].process.memory.nextFile)
    ensures run[i].process.Flushing? && run[i].process.stage.Filling? ==>
      forall f :: f in Numbers(run[i].disk) ==>
        f < run[i].process.tableNumber || (f == run[i].process.tableNumber && f !in run[i].disk.tables)
  {
    var ts, ws := Refines(fm, run, events);
    assert Inv(fm, run[i], ts[i], ws[i]);
  }

  // ---------------------------------------------------------------- recovery always succeeds

  /** Internal steps only. */
  ghost predicate IsPath(fm: Formats, path: seq<System>) {
    forall i :: 0 <= i < |path| - 1 ==> InternalStep(fm, path[i], path[i + 1])
  }

  lemma PathFrom(fm: Formats, s: System, path: seq<System>) returns (longer: seq<System>)
    requires IsPath(fm, path) && path != [] && InternalStep(fm, s, path[0])
    ensures longer != [] && longer[0] == s && IsPath(fm, longer) && longer[|longer| - 1] == path[|path| - 1]
  {
    longer := [s] + path;
  }

  lemma PathOfTwo(fm: Formats, s: System, s': System) returns (path: seq<System>)
    requires InternalStep(fm, s, s')
    ensures path == [s, s'] && IsPath(fm, path)
  {
    path := [s, s'];
  }

  lemma NextNumber(d: Disk) returns (n: nat)
    ensures IsNext(d, n)
  {
    if Numbers(d) == {} {
      n := 1;
    } else {
      n := Greatest(Numbers(d)) + 1;
    }
  }

  lemma TablesOpen(fm: Formats, d: Disk, w: Witness, keys: set<bytes>)
    requires TableLaws(fm) && DiskHolds(fm, d, w, keys)
    ensures forall n :: n in d.tables ==> fm.opens(d.tables[n])
  {
    forall n | n in d.tables ensures fm.opens(d.tables[n]) {
      assert Built(fm, d.tables[n], w.content[n], keys);
    }
  }

  lemma MountsNew(fm: Formats, s: System, s': System, t: Plain, w: Witness)
    requires TableLaws(fm) && Inv(fm, s, t, w) && s.process.Cleaning? && s.disk.tmps == map[] && s.disk.logs == map[]
    requires var n := s.process.nextFile;
      s' == System(s.disk.(logs := map[n := []]), Ready(Memory(n, [], Mounted(s.disk.tables), 0, n + 1)))
    ensures CreateStep(fm, s, s')
  {
    TablesOpen(fm, s.disk, w, t.written);
  }

  lemma LogReads(fm: Formats, d: Disk, w: Witness, keys: set<bytes>, n: nat)
    requires DiskHolds(fm, d, w, keys) && n in d.logs
    ensures n > 0 && d.logs.Keys == {n} && fm.records(d.logs[n]) == Encoded(w.batches) && Chained(w.batches)
  {
    assert n in Numbers(d);
  }

  lemma Replays(records: seq<bytes>, batches: seq<Logged>)
    requires records == Encoded(batches) && Chained(batches)
    ensures Recovered(records, [], 0) == Some((MemOf(batches), MaxEnd(batches)))
  {
    RecoverAll(batches);
  }

  lemma MountsLog(fm: Formats, s: System, s': System, n: nat, t: Plain, w: Witness)
    requires TableLaws(fm) && Inv(fm, s, t, w) && s.process.Cleaning? && s.disk.tmps == map[] && n in s.disk.logs
    requires s' == System(s.disk.(logs := map[n := fm.truncated(s.disk.logs[n])]),
      Ready(Memory(n, MemOf(w.batches), Mounted(s.disk.tables), MaxEnd(w.batches), s.process.nextFile)))
    ensures RecoverStep(fm, s, s', n)
  {
    TablesOpen(fm, s.disk, w, t.written);
    LogReads(fm, s.disk, w, t.written, n);
    Replays(fm.records(s.disk.logs[n]), w.batches);
  }

  /** With no temporary files left, the tables open and the log replays without an error. */
  lemma Mounts(fm: Formats, s: System, t: Plain, w: Witness) returns (s': System)
    requires TableLaws(fm) && Inv(fm, s, t, w) && s.process.Cleaning? && s.disk.tmps == map[]
    ensures InternalStep(fm, s, s') && s'.process.Ready?
  {
    var d, next := s.disk, s.process.nextFile;
    if d.logs == map[] {
      s' := System(d.(logs := map[next := []]), Ready(Memory(next, [], Mounted(d.tables), 0, next + 1)));
      MountsNew(fm, s, s', t, w);
    } else {
      var n := Greatest(d.logs.Keys);
      s' := System(d.(logs := map[n := fm.truncated(d.logs[n])]),
          Ready(Memory(n, MemOf(w.batches), Mounted(d.tables), MaxEnd(w.batches), next)));
      MountsLog(fm, s, s', n, t, w);
    }
  }

  lemma CleansOne(fm: Formats, s: System, t: Plain, w: Witness) returns (s': System)
    requires Inv(fm, s, t, w) && s.process.Cleaning? && s.disk.tmps != map[]
    ensures InternalStep(fm, s, s') && Inv(fm, s', t, w) && s'.process.Cleaning? && |s'.disk.tmps| < |s.disk.tmps|
  {
    var n := Greatest(s.disk.tmps.Keys);
    s' := s.(disk := s.disk.(tmps := s.disk.tmps - {n}));
    CleanKeeps(fm, s, s', n, t, w);
    assert s'.disk.tmps.Keys == s.disk.tmps.Keys - {n};
    assert CleanStep(s, s', n);
  }

  lemma {:induction false} CleansUp(fm: Formats, s: System, t: Plain, w: Witness) returns (path: seq<System>)
    requires TableLaws(fm) && Inv(fm, s, t, w) && s.process.Cleaning?
    ensures path != [] && path[0] == s && IsPath(fm, path) && path[|path| - 1].process.Ready?
    decreases |s.disk.tmps|
  {
    if s.disk.tmps == map[] {
      var s' := Mounts(fm, s, t, w);
      path := PathOfTwo(fm, s, s');
    } else {
      var s' := CleansOne(fm, s, t, w);
      path := CleansUp(fm, s', t, w);
      path := PathFrom(fm, s, path);
    }
  }

  /** However often and wherever it crashed, the database can be opened again. */
  lemma Reopens(fm: Formats, run: seq<System>, events: seq<Label>) returns (path: seq<System>)
    requires LogLaws(fm) && TableLaws(fm) && IsRun(fm, run, events) && run[|events|].process.Down?
    ensures path != [] && path[0] == run[|events|] && IsPath(fm, path) && path[|path| - 1].process.Ready?
  {
    var ts, ws := Refines(fm, run, events);
    var s, t, w := run[|events|], ts[|events|], ws[|events|];
    assert Inv(fm, s, t, w);
    var n := NextNumber(s.disk);
    var s' := System(s.disk, Cleaning(n));
    assert ScanStep(s, s');
    ScanKeeps(fm, s, s', t, w);
    path := CleansUp(fm, s', t, w);
    path := PathFrom(fm, s, path);
  }
}
