/** Runs of a client that writes one key at a time, as `Put` and `Delete` do, and flushes. */
module ClientRuns {
  import opened Bytes
  import opened DbFormat
  import opened WriteBatches
  import opened MemTables
  import opened SkipLists
  import opened Recovery
  import opened Layers
  import opened Store
  import opened StoreTheorem
  import opened DbPaths
  import Seqs

  // ---------------------------------------------------------------- what the events say

  /** Every write is of one key. */
  predicate Client(events: seq<Label>) {
    forall i :: 0 <= i < |events| && events[i].Begin? ==> |events[i].ops| == 1
  }

  /** Whatever plain run has these events, it ends with this write pending and with `x` at `user`. */
  ghost predicate Says(events: seq<Label>, pending: Option<seq<Op>>, user: bytes, x: Option<bytes>) {
    forall ts: seq<Plain> :: IsPlainRun(ts, events) ==>
      ts[|events|].pending == pending && MapGet(ts[|events|].m, user) == x
  }

  lemma PlainShorter(ts: seq<Plain>, events: seq<Label>, e: Label)
    requires IsPlainRun(ts, events + [e])
    ensures IsPlainRun(ts[..|events| + 1], events) && PlainStep(ts[|events|], e, ts[|events| + 1])
  {
    var n := |events|;
    assert (events + [e])[n] == e;
    forall i | 0 <= i < n ensures PlainStep(ts[i], events[i], ts[i + 1]) {
      assert PlainStep(ts[i], (events + [e])[i], ts[i + 1]);
    }
    assert PlainStep(ts[n], (events + [e])[n], ts[n + 1]);
  }

  lemma SaysNothing(user: bytes)
    ensures Says([], None, user, None)
  {
  }

  lemma SaysInternal(events: seq<Label>, pending: Option<seq<Op>>, user: bytes, x: Option<bytes>)
    requires Says(events, pending, user, x)
    ensures Says(events + [Internal], pending, user, x)
  {
    forall ts: seq<Plain> | IsPlainRun(ts, events + [Internal])
      ensures ts[|events| + 1].pending == pending && MapGet(ts[|events| + 1].m, user) == x
    {
      PlainShorter(ts, events, Internal);
    }
  }

  lemma SaysBegin(events: seq<Label>, ops: seq<Op>, user: bytes, x: Option<bytes>)
    requires Says(events, None, user, x)
    ensures Says(events + [Begin(ops)], Some(ops), user, x)
  {
    forall ts: seq<Plain> | IsPlainRun(ts, events + [Begin(ops)])
      ensures ts[|events| + 1].pending == Some(ops) && MapGet(ts[|events| + 1].m, user) == x
    {
      PlainShorter(ts, events, Begin(ops));
    }
  }

  /** What the plain map has at `user` after `op`. */
  function Outcome(op: Op, user: bytes, x: Option<bytes>): Option<bytes> {
    if op.key == user then Visible(Told(op)) else x
  }

  lemma SaysAck(events: seq<Label>, op: Op, user: bytes, x: Option<bytes>)
    requires Says(events, Some([op]), user, x)
    ensures Says(events + [Ack], None, user, Outcome(op, user, x))
  {
    forall ts: seq<Plain> | IsPlainRun(ts, events + [Ack])
      ensures ts[|events| + 1].pending == None && MapGet(ts[|events| + 1].m, user) == Outcome(op, user, x)
    {
      PlainShorter(ts, events, Ack);
      ApplyLast(ts[|events|].m, [op], user);
    }
  }

  /** Single writes to these keys, after which the plain map has `x` at `user`. */
  ghost predicate Wrote(events: seq<Label>, keys: set<bytes>, pending: Option<seq<Op>>, user: bytes, x: Option<bytes>) {
    Client(events) && WrittenBy(events) <= keys && Says(events, pending, user, x)
  }

  lemma WrittenSnoc(events: seq<Label>, e: Label)
    ensures WrittenBy(events + [e]) == WrittenBy(events) + if e.Begin? then KeysOf(e.ops) else {}
  {
    assert (events + [e])[..|events|] == events;
  }

  lemma ClientMore(events: seq<Label>, e: Label)
    requires Client(events) && (e.Begin? ==> |e.ops| == 1)
    ensures Client(events + [e])
  {
  }

  lemma {:induction false} WroteSilent(events: seq<Label>, keys: set<bytes>, pending: Option<seq<Op>>, user: bytes,
                                       x: Option<bytes>, n: nat)
    requires Wrote(events, keys, pending, user, x)
    ensures Wrote(events + Silent(n), keys, pending, user, x)
    decreases n
  {
    if n == 0 {
      Seqs.Nil(events);
    } else {
      WroteSilent(events, keys, pending, user, x, n - 1);
      SilentMore(n - 1);
      Seqs.Assoc(events, Silent(n - 1), [Internal]);
      WroteInternal(events + Silent(n - 1), keys, pending, user, x);
    }
  }

  lemma WroteInternal(events: seq<Label>, keys: set<bytes>, pending: Option<seq<Op>>, user: bytes, x: Option<bytes>)
    requires Wrote(events, keys, pending, user, x)
    ensures Wrote(events + [Internal], keys, pending, user, x)
  {
    SaysInternal(events, pending, user, x);
    WrittenSnoc(events, Internal);
    ClientMore(events, Internal);
  }

  lemma WroteBegin(events: seq<Label>, keys: set<bytes>, op: Op, user: bytes, x: Option<bytes>)
    requires Wrote(events, keys, None, user, x) && op.key in keys
    ensures Wrote(events + [Begin([op])], keys, Some([op]), user, x)
  {
    SaysBegin(events, [op], user, x);
    WrittenSnoc(events, Begin([op]));
    ClientMore(events, Begin([op]));
  }

  lemma WroteAck(events: seq<Label>, keys: set<bytes>, op: Op, user: bytes, x: Option<bytes>)
    requires Wrote(events, keys, Some([op]), user, x)
    ensures Wrote(events + [Ack], keys, None, user, Outcome(op, user, x))
  {
    SaysAck(events, op, user, x);
    WrittenSnoc(events, Ack);
    ClientMore(events, Ack);
  }

  /** The events of one write. */
  function WriteEvents(op: Op): seq<Label> {
    [Begin([op]), Internal, Ack]
  }

  lemma WroteOne(events: seq<Label>, keys: set<bytes>, op: Op, user: bytes, x: Option<bytes>)
    requires Wrote(events, keys, None, user, x) && op.key in keys
    ensures Wrote(events + WriteEvents(op), keys, None, user, Outcome(op, user, x))
  {
    WroteBegin(events, keys, op, user, x);
    WroteInternal(events + [Begin([op])], keys, Some([op]), user, x);
    WroteAck(events + [Begin([op])] + [Internal], keys, op, user, x);
    assert events + [Begin([op])] + [Internal] + [Ack] == events + WriteEvents(op);
  }

  // ---------------------------------------------------------------- the run behind them

  /** The run ends in this open database. */
  ghost predicate At(fm: Formats, run: seq<System>, events: seq<Label>, d: Disk, memory: Memory) {
    IsRun(fm, run, events) && run[|events|] == System(d, Ready(memory)) && memory.logNumber in d.logs
  }

  lemma Further(fm: Formats, run: seq<System>, events: seq<Label>, s: System, path: seq<System>, more: seq<Label>,
                s': System)
    returns (run': seq<System>)
    requires IsRun(fm, run, events) && run[|events|] == s && Path(fm, path, more)
    requires path[0] == s && path[|more|] == s'
    ensures IsRun(fm, run', events + more) && run'[|events| + |more|] == s'
  {
    run' := run + path[1..];
    RunThenPath(fm, run, events, path, more);
    if more != [] {
      assert run'[|events| + |more|] == path[1..][|more| - 1];
    }
  }

  /** The directory and memory of a new database. */
  const NEW_DISK: Disk := Disk(map[1 := []], map[], map[])

  const NEW: Memory := Memory(1, [], [], 0, 2)

  lemma NoFiles()
    ensures Listing(EMPTY_DISK, []) && Mounted(EMPTY_DISK.tables) == []
  {
  }

  lemma NewIsPath(fm: Formats) returns (path: seq<System>, n: nat)
    ensures Path(fm, path, Silent(n)) && path[0] == System(EMPTY_DISK, Down) && path[n] == System(NEW_DISK, Ready(NEW))
  {
    NoFiles();
    path := InitIsPath(fm, EMPTY_DISK, [], System(NEW_DISK, Ready(NEW)));
    n := |path| - 1;
  }

  lemma PathIsRun(fm: Formats, path: seq<System>, events: seq<Label>)
    requires Path(fm, path, events) && path[0] == System(EMPTY_DISK, Down)
    ensures IsRun(fm, path, events)
  {
  }

  lemma WroteNothing(keys: set<bytes>, user: bytes, n: nat)
    ensures Wrote(Silent(n), keys, None, user, None)
  {
    SaysNothing(user);
    WroteSilent([], keys, None, user, None, n);
    Seqs.Nil(Silent(n));
  }

  lemma OpenNew(fm: Formats, keys: set<bytes>, user: bytes) returns (run: seq<System>, events: seq<Label>)
    ensures At(fm, run, events, NEW_DISK, NEW) && Wrote(events, keys, None, user, None)
  {
    var n;
    run, n := NewIsPath(fm);
    events := Silent(n);
    PathIsRun(fm, run, events);
    WroteNothing(keys, user, n);
  }

  lemma WriteTakes(fm: Formats, d: Disk, memory: Memory, op: Op, after: Memory) returns (path: seq<System>, d': Disk)
    requires LogLaws(fm) && memory.logNumber in d.logs && OpFits(op) && memory.lastSeq < MAX_SEQUENCE
    requires after == Remembered(memory, [op])
    ensures Path(fm, path, WriteEvents(op)) && path[0] == System(d, Ready(memory))
      && path[3] == System(d', Ready(after))
    ensures after.logNumber in d'.logs
  {
    var added := fm.added(d.logs[memory.logNumber], Record(memory, [op]));
    assert |added| > 0;
    path, d' := WritePath(d, memory, [op], added), LogGrown(d, memory, added);
    WriteIsPath(fm, d, memory, [op], added);
  }

  /** One `Put` or `Delete`. */
  lemma WriteNow(fm: Formats, run: seq<System>, events: seq<Label>, d: Disk, memory: Memory, op: Op, after: Memory)
    returns (run': seq<System>, d': Disk)
    requires LogLaws(fm) && At(fm, run, events, d, memory) && OpFits(op) && memory.lastSeq < MAX_SEQUENCE
    requires after == Remembered(memory, [op])
    ensures At(fm, run', events + WriteEvents(op), d', after)
  {
    var path;
    path, d' := WriteTakes(fm, d, memory, op, after);
    run' := Further(fm, run, events, System(d, Ready(memory)), path, WriteEvents(op), System(d', Ready(after)));
  }

  lemma FlushNow(fm: Formats, run: seq<System>, events: seq<Label>, d: Disk, memory: Memory, file: bytes)
    returns (run': seq<System>, d': Disk)
    requires At(fm, run, events, d, memory)
    requires memory.mem != [] && fm.fits(memory.mem) && file == fm.table(memory.mem)
    ensures At(fm, run', events + FLUSH_EVENTS, d', Flushed(memory, file))
  {
    var path := FlushPath(d, memory, file);
    FlushIsPath(fm, d, memory, file);
    d' := FlushDisks(d, memory, file)[4];
    run' := Further(fm, run, events, System(d, Ready(memory)), path, FLUSH_EVENTS,
      System(d', Ready(Flushed(memory, file))));
  }

  lemma WroteFlush(events: seq<Label>, keys: set<bytes>, user: bytes, x: Option<bytes>)
    requires Wrote(events, keys, None, user, x)
    ensures Wrote(events + FLUSH_EVENTS, keys, None, user, x)
  {
    WroteSilent(events, keys, None, user, x, 5);
    assert Silent(5) == FLUSH_EVENTS;
  }

  // ---------------------------------------------------------------- memtables of one and two entries

  lemma OneCall(n: nat, op: Op)
    requires n <= MAX_SEQUENCE
    ensures Calls(n, [op]) == [Call(n, op)]
  {
    CallsSnoc(n, [], op, n);
    assert [] + [op] == [op];
  }

  lemma AddsOne(es: seq<MemEntry>, n: nat, op: Op)
    requires n <= MAX_SEQUENCE
    ensures AddCalls(es, Calls(n, [op])) == MemTables.AddEntry(es, EntryOf(n, op))
  {
    OneCall(n, op);
    AddCallsSnoc(es, [], Call(n, op));
    assert [] + [Call(n, op)] == [Call(n, op)];
    EntryOfOp(es, n, op);
  }

  lemma FirstEntry(e: MemEntry)
    ensures MemTables.AddEntry([], e) == [e]
  {
    FindIs(EntryBefore, [], e, 0);
  }

  lemma SecondEntry(e: MemEntry, first: MemEntry)
    requires EntryBefore(first, e)
    ensures MemTables.AddEntry([e], first) == [first, e]
  {
    BeforeTrichotomy(first.ikey, e.ikey);
    FindIs(EntryBefore, [e], first, 0);
  }

  /** A write into an empty memtable. */
  lemma RemembersOne(memory: Memory, op: Op, n: nat)
    requires memory.mem == [] && n == memory.lastSeq + 1 <= MAX_SEQUENCE
    ensures Remembered(memory, [op]) == Holding(memory, [EntryOf(n, op)], n)
  {
    AddsOne([], n, op);
    FirstEntry(EntryOf(n, op));
    RememberedIs(memory, [op], n, [EntryOf(n, op)], n);
  }

  /** A second write, to a smaller key. */
  lemma RemembersTwo(memory: Memory, e: MemEntry, op: Op, n: nat)
    requires memory.mem == [e] && n == memory.lastSeq + 1 <= MAX_SEQUENCE && EntryBefore(EntryOf(n, op), e)
    ensures Remembered(memory, [op]) == Holding(memory, [EntryOf(n, op), e], n)
  {
    AddsOne([e], n, op);
    SecondEntry(e, EntryOf(n, op));
    RememberedIs(memory, [op], n, [EntryOf(n, op), e], n);
  }

  // ---------------------------------------------------------------- write and flush

  /** What a flush leaves, of a database that has just stored `es`. */
  ghost predicate Stored(before: Memory, after: Memory, file: bytes, lastSeq: nat) {
    after.mem == [] && after.lastSeq == lastSeq && after.tables == [file] + before.tables
  }

  lemma FlushedIs(before: Memory, memory: Memory, es: seq<MemEntry>, n: nat, file: bytes)
    requires memory == Holding(before, es, n)
    ensures Stored(before, Flushed(memory, file), file, n)
  {
  }

  /** Write one key and flush it away to a table. */
  lemma StoreAway(fm: Formats, run: seq<System>, events: seq<Label>, d: Disk, memory: Memory, op: Op, n: nat,
                  file: bytes)
    returns (run': seq<System>, d': Disk, memory': Memory)
    requires LogLaws(fm) && At(fm, run, events, d, memory) && memory.mem == []
    requires OpFits(op) && n == memory.lastSeq + 1 <= MAX_SEQUENCE
    requires fm.fits([EntryOf(n, op)]) && file == fm.table([EntryOf(n, op)])
    ensures At(fm, run', events + WriteEvents(op) + FLUSH_EVENTS, d', memory') && Stored(memory, memory', file, n)
  {
    var es := [EntryOf(n, op)];
    RemembersOne(memory, op, n);
    run', d' := WriteNow(fm, run, events, d, memory, op, Holding(memory, es, n));
    run', d' := FlushNow(fm, run', events + WriteEvents(op), d', Holding(memory, es, n), file);
    memory' := Flushed(Holding(memory, es, n), file);
    FlushedIs(memory, Holding(memory, es, n), es, n, file);
  }

  lemma WriteTwo(fm: Formats, run: seq<System>, events: seq<Label>, d: Disk, memory: Memory, op: Op, blocker: Op,
                 n: nat, m: nat)
    returns (run': seq<System>, d': Disk)
    requires LogLaws(fm) && At(fm, run, events, d, memory) && memory.mem == []
    requires OpFits(op) && OpFits(blocker) && n == memory.lastSeq + 1 && m == n + 1 <= MAX_SEQUENCE
    requires EntryBefore(EntryOf(m, blocker), EntryOf(n, op))
    ensures At(fm, run', events + WriteEvents(op) + WriteEvents(blocker), d',
               Holding(memory, [EntryOf(m, blocker), EntryOf(n, op)], m))
  {
    var one := Holding(memory, [EntryOf(n, op)], n);
    RemembersOne(memory, op, n);
    run', d' := WriteNow(fm, run, events, d, memory, op, one);
    RemembersTwo(one, EntryOf(n, op), blocker, m);
    run', d' := WriteNow(fm, run', events + WriteEvents(op), d', one, blocker,
      Holding(memory, [EntryOf(m, blocker), EntryOf(n, op)], m));
  }

  /** Write two keys, the greater one first, and flush both away. */
  lemma StoreBoth(fm: Formats, run: seq<System>, events: seq<Label>, d: Disk, memory: Memory, op: Op, blocker: Op,
                  n: nat, m: nat, file: bytes)
    returns (run': seq<System>, d': Disk, memory': Memory)
    requires LogLaws(fm) && At(fm, run, events, d, memory) && memory.mem == []
    requires OpFits(op) && OpFits(blocker) && n == memory.lastSeq + 1 && m == n + 1 <= MAX_SEQUENCE
    requires EntryBefore(EntryOf(m, blocker), EntryOf(n, op))
    requires var es := [EntryOf(m, blocker), EntryOf(n, op)]; fm.fits(es) && file == fm.table(es)
    ensures At(fm, run', events + WriteEvents(op) + WriteEvents(blocker) + FLUSH_EVENTS, d', memory')
      && Stored(memory, memory', file, m)
  {
    var es := [EntryOf(m, blocker), EntryOf(n, op)];
    run', d' := WriteTwo(fm, run, events, d, memory, op, blocker, n, m);
    run', d' := FlushNow(fm, run', events + WriteEvents(op) + WriteEvents(blocker), d', Holding(memory, es, m), file);
    memory' := Flushed(Holding(memory, es, m), file);
    FlushedIs(memory, Holding(memory, es, m), es, m, file);
  }
}
