/** Replaying batches and logs into a memtable object (src/db/db_impl.cc). */
module DbReplay {
  import opened Bytes
  import opened Checksums
  import opened DbFormat
  import opened WriteBatches
  import opened MemTables
  import opened Store
  import LogFormat
  import LogProofs
  import LogReaders
  import Coding
  import Seqs

  lemma AddCallsStep(es: seq<MemEntry>, calls: seq<Call>, i: nat)
    requires i < |calls|
    ensures AddCalls(es, calls[..i + 1]) == AddOp(AddCalls(es, calls[..i]), calls[i].sequence, calls[i].op)
  {
    assert calls[..i + 1][..i] == calls[..i];
  }

  lemma AddCallsNone(es: seq<MemEntry>, calls: seq<Call>)
    ensures AddCalls(es, calls[..0]) == es
  {
  }

  /** The list gained only new nodes. */
  twostate predicate Grown(mem: MemTable)
    reads mem.table
  {
    forall x :: x in mem.table.list ==> x in old(mem.table.list) || fresh(x)
  }

  /** `MemTableInserter`: one handler call. */
  method Insert(mem: MemTable, c: Call, ghost es: seq<MemEntry>)
    requires EntriesOf(mem) == Some(es)
    modifies mem.table, mem.table.rng, (set x | x in mem.table.list)
    ensures Grown(mem) && EntriesOf(mem) == Some(AddOp(es, c.sequence, c.op))
  {
    match c.op {
      case Put(k, v) => mem.Add(c.sequence, TYPE_VALUE, k, v);
      case Delete(k) => mem.Add(c.sequence, TYPE_DELETION, k, []);
    }
  }

  /** The handler calls of one replay, in order. */
  method InsertAll(mem: MemTable, calls: seq<Call>, ghost es: seq<MemEntry>)
    requires EntriesOf(mem) == Some(es)
    modifies mem.table, mem.table.rng, (set x | x in mem.table.list)
    ensures Grown(mem) && EntriesOf(mem) == Some(AddCalls(es, calls))
  {
    AddCallsNone(es, calls);
    var i := 0;
    while i < |calls|
      invariant 0 <= i <= |calls| && Grown(mem) && EntriesOf(mem) == Some(AddCalls(es, calls[..i]))
    {
      AddCallsStep(es, calls, i);
      Insert(mem, calls[i], AddCalls(es, calls[..i]));
      i := i + 1;
    }
    Seqs.TakeAll(calls);
  }

  /** What becomes of one log record: too short for a batch, corrupt, or replayed. */
  datatype Turn = Short | Corrupt | Replayed

  function TurnOf(record: bytes): Turn {
    if |record| < HEADER then Short else if ReplayBatch(record).1 != WriteBatches.Ok then Corrupt else Replayed
  }

  method Later(record: bytes, lastSeq: nat) returns (later: nat)
    requires |record| >= HEADER
    ensures later == LaterOf(lastSeq, record)
  {
    later := lastSeq;
    if Count(record) > 0 {
      var end := (Sequence(record) + Count(record) - 1) % Coding.U64;
      if end > later {
        later := end;
      }
    }
  }

  /** One turn of the recovery loop. The operations of a corrupt batch that come before the fault enter the memtable. */
  method ReplayRecord(mem: MemTable, batch: WriteBatch, record: bytes, lastSeq: nat, ghost es: seq<MemEntry>)
    returns (turn: Turn, lastSeq': nat, ghost es': seq<MemEntry>)
    requires EntriesOf(mem) == Some(es) && batch.Valid()
    modifies batch, mem.table, mem.table.rng, (set x | x in mem.table.list)
    ensures Grown(mem) && batch.Valid() && EntriesOf(mem) == Some(es') && turn == TurnOf(record)
    ensures es' == if turn.Short? then es else AddCalls(es, ReplayBatch(record).0)
    ensures lastSeq' == if turn.Replayed? then LaterOf(lastSeq, record) else lastSeq
  {
    var s := batch.SetContents(record);
    if s != WriteBatches.Ok {
      return Short, lastSeq, es;
    }
    var calls, status := batch.Iterate();
    InsertAll(mem, calls, es);
    es' := AddCalls(es, calls);
    if status != WriteBatches.Ok {
      return Corrupt, lastSeq, es';
    }
    lastSeq' := Later(record, lastSeq);
    turn := Replayed;
  }

  lemma RecoveredNone(records: seq<bytes>, es: seq<MemEntry>, lastSeq: nat)
    requires records == [] || |records[0]| < HEADER
    ensures Recovered(records, es, lastSeq) == Some((es, lastSeq))
  {
  }

  lemma RecoveredMore(record: bytes, rest: seq<bytes>, es: seq<MemEntry>, lastSeq: nat)
    requires |record| >= HEADER
    ensures Recovered([record] + rest, es, lastSeq)
         == if ReplayBatch(record).1 != WriteBatches.Ok then None
            else Recovered(rest, AddCalls(es, ReplayBatch(record).0), LaterOf(lastSeq, record))
  {
    assert ([record] + rest)[1..] == rest;
  }

  /** Where replaying stops: behind the first record too short for a batch, or at the log's valid end. */
  function StopsAt(records: seq<bytes>, ends: seq<nat>, validEnd: nat): nat {
    if records == [] || ends == [] then validEnd
    else if |records[0]| < HEADER then ends[0]
    else StopsAt(records[1..], ends[1..], validEnd)
  }

  lemma {:induction false} StopsWithin(records: seq<bytes>, ends: seq<nat>, validEnd: nat, bound: nat)
    requires validEnd <= bound && forall i :: 0 <= i < |ends| ==> ends[i] <= bound
    ensures StopsAt(records, ends, validEnd) <= bound
    decreases |records|
  {
    if records != [] && ends != [] && |records[0]| >= HEADER {
      StopsWithin(records[1..], ends[1..], validEnd, bound);
    }
  }

  /** What recovery keeps of a log. */
  function ReplayedEnd(sum: Sum, file: bytes): (end: nat)
    ensures end <= |file|
  {
    LogFormat.EndsMatch(sum, file, 0, None, 0);
    LogProofs.ScanEnd(sum, file, 0, None, 0);
    StopsWithin(LogFormat.Records(sum, file), LogFormat.Ends(sum, file, 0, None),
      LogFormat.ValidEnd(sum, file), |file|);
    StopsAt(LogFormat.Records(sum, file), LogFormat.Ends(sum, file, 0, None), LogFormat.ValidEnd(sum, file))
  }

  predicate AllBatches(records: seq<bytes>) {
    forall i :: 0 <= i < |records| ==> |records[i]| >= HEADER
  }

  lemma {:induction false} StopsAtEnd(records: seq<bytes>, ends: seq<nat>, validEnd: nat)
    requires AllBatches(records)
    ensures StopsAt(records, ends, validEnd) == validEnd
    decreases |records|
  {
    if records != [] && ends != [] {
      StopsAtEnd(records[1..], ends[1..], validEnd);
    }
  }

  /** Of a log of batches recovery keeps everything up to the last good fragment. */
  lemma KeepsBatches(sum: Sum, file: bytes)
    requires AllBatches(LogFormat.Records(sum, file))
    ensures ReplayedEnd(sum, file) == LogFormat.ValidEnd(sum, file)
  {
    StopsAtEnd(LogFormat.Records(sum, file), LogFormat.Ends(sum, file, 0, None), LogFormat.ValidEnd(sum, file));
  }

  lemma {:induction false} StopsAtShort(records: seq<bytes>, ends: seq<nat>, validEnd: nat, i: nat)
    requires |ends| == |records| && i < |records| && |records[i]| < 12 && forall j :: 0 <= j < i ==> |records[j]| >= 12
    ensures StopsAt(records, ends, validEnd) == ends[i]
    decreases i
  {
    if i > 0 {
      StopsAtShort(records[1..], ends[1..], validEnd, i - 1);
    }
  }

  /** Of a log with a record shorter than a batch header it keeps everything up to the end of the first such. */
  lemma KeepsToShort(sum: Sum, file: bytes, i: nat)
    requires var records := LogFormat.Records(sum, file);
      i < |records| && |records[i]| < 12 && forall j :: 0 <= j < i ==> |records[j]| >= 12
    ensures |LogFormat.Ends(sum, file, 0, None)| == |LogFormat.Records(sum, file)|
    ensures ReplayedEnd(sum, file) == LogFormat.Ends(sum, file, 0, None)[i]
  {
    LogFormat.EndsMatch(sum, file, 0, None, 0);
    StopsAtShort(LogFormat.Records(sum, file), LogFormat.Ends(sum, file, 0, None), LogFormat.ValidEnd(sum, file), i);
  }

  /** A corrupt batch comes before any record too short for one. */
  ghost predicate Corrupts(records: seq<bytes>) {
    exists i :: 0 <= i < |records| && CorruptsAt(records, i)
  }

  ghost predicate CorruptsAt(records: seq<bytes>, i: nat)
    requires i < |records|
  {
    && |records[i]| >= 12 && ReplayBatch(records[i]).1 == Corruption && forall j :: 0 <= j < i ==> |records[j]| >= 12
  }

  lemma CorruptsLater(records: seq<bytes>)
    requires records != [] && |records[0]| >= 12 && ReplayBatch(records[0]).1 != Corruption
    ensures Corrupts(records) <==> Corrupts(records[1..])
  {
    forall i: nat | 0 < i < |records| ensures CorruptsAt(records, i) <==> CorruptsAt(records[1..], i - 1) {
      assert CorruptsAt(records, i) ==> forall j :: 0 <= j < i - 1 ==> |records[1..][j]| == |records[j + 1]|;
      assert forall j :: 0 < j < i ==> |records[j]| == |records[1..][j - 1]|;
    }
    if i: nat :| i < |records[1..]| && CorruptsAt(records[1..], i) {
      assert CorruptsAt(records, i + 1);
    }
  }

  /** Recovery fails exactly on those logs. */
  lemma {:induction false} FailsOnCorrupt(records: seq<bytes>, es: seq<MemEntry>, lastSeq: nat)
    ensures Recovered(records, es, lastSeq).None? <==> Corrupts(records)
    decreases |records|
  {
    if records != [] && |records[0]| >= 12 {
      if ReplayBatch(records[0]).1 == Corruption {
        assert CorruptsAt(records, 0);
      } else {
        FailsOnCorrupt(records[1..], AddCalls(es, ReplayBatch(records[0]).0), LaterOf(lastSeq, records[0]));
        CorruptsLater(records);
      }
    }
  }

  /** The records before the first one too short for a batch: what recovery replays. */
  function Replayable(records: seq<bytes>): seq<bytes> {
    if records == [] || |records[0]| < 12 then [] else [records[0]] + Replayable(records[1..])
  }

  lemma RecoveredHead(record: bytes, rest: seq<bytes>, all: seq<bytes>, es: seq<MemEntry>, lastSeq: nat)
    requires |record| >= HEADER && all == [record] + rest
    ensures Recovered(all, es, lastSeq)
         == if ReplayBatch(record).1 != WriteBatches.Ok then None
            else Recovered(rest, AddCalls(es, ReplayBatch(record).0), LaterOf(lastSeq, record))
  {
    RecoveredMore(record, rest, es, lastSeq);
  }

  /** After the replay of one log, that of `more` goes on where it ended. */
  lemma {:induction false} RecoveredOn(records: seq<bytes>, more: seq<bytes>, es: seq<MemEntry>, lastSeq: nat,
                                       es': seq<MemEntry>, lastSeq': nat)
    requires Recovered(records, es, lastSeq) == Some((es', lastSeq'))
    ensures Recovered(Replayable(records) + more, es, lastSeq) == Recovered(more, es', lastSeq')
    decreases |records|
  {
    if records == [] || |records[0]| < 12 {
      Seqs.Nil(more);
    } else {
      var head, rest := records[0], records[1..];
      RecoveredOn(rest, more, AddCalls(es, ReplayBatch(head).0), LaterOf(lastSeq, head), es', lastSeq');
      Seqs.Assoc([head], Replayable(rest), more);
      RecoveredHead(head, Replayable(rest) + more, Replayable(records) + more, es, lastSeq);
    }
  }

  /** The memtable does not depend on the number that recovery starts from. */
  lemma {:induction false} MemtableAlone(records: seq<bytes>, es: seq<MemEntry>, lastSeq: nat, other: nat)
    ensures Recovered(records, es, lastSeq).Some? == Recovered(records, es, other).Some?
    ensures Recovered(records, es, lastSeq).Some? ==>
      Recovered(records, es, lastSeq).value.0 == Recovered(records, es, other).value.0
    decreases |records|
  {
    if records != [] && |records[0]| >= 12 {
      var calls := ReplayBatch(records[0]).0;
      MemtableAlone(records[1..], AddCalls(es, calls), LaterOf(lastSeq, records[0]), LaterOf(other, records[0]));
    }
  }

  lemma {:induction false} AllReplayable(records: seq<bytes>)
    requires AllBatches(records)
    ensures Replayable(records) == records
    decreases |records|
  {
    if records != [] {
      AllReplayable(records[1..]);
    }
  }

  lemma {:induction false} ReplayableAll(records: seq<bytes>)
    ensures AllBatches(Replayable(records))
    decreases |records|
  {
    if records != [] && |records[0]| >= 12 {
      ReplayableAll(records[1..]);
    }
  }

  /** What one more log adds to the memtable of `before`. */
  lemma OneMoreLog(before: seq<bytes>, records: seq<bytes>, es: seq<MemEntry>, l: nat, es': seq<MemEntry>, lastSeq: nat)
    returns (l': nat)
    requires AllBatches(before) && Recovered(before, [], 0) == Some((es, l))
    requires Recovered(records, es, 0) == Some((es', lastSeq))
    ensures Recovered(before + Replayable(records), [], 0) == Some((es', l'))
  {
    MemtableAlone(records, es, 0, l);
    l' := Recovered(records, es, l).value.1;
    AllReplayable(before);
    RecoveredOn(before, Replayable(records), [], 0, es, l);
    RecoveredOn(records, [], es, l, es', l');
    Seqs.Nil(Replayable(records));
  }

  /** The greatest number depends on the log alone, not on what the memtable held. */
  lemma {:induction false} NumbersAlone(records: seq<bytes>, es: seq<MemEntry>, other: seq<MemEntry>, lastSeq: nat)
    ensures Recovered(records, es, lastSeq).Some? == Recovered(records, other, lastSeq).Some?
    ensures Recovered(records, es, lastSeq).Some? ==>
      Recovered(records, es, lastSeq).value.1 == Recovered(records, other, lastSeq).value.1
    decreases |records|
  {
    if records != [] && |records[0]| >= 12 {
      var calls := ReplayBatch(records[0]).0;
      NumbersAlone(records[1..], AddCalls(es, calls), AddCalls(other, calls), LaterOf(lastSeq, records[0]));
    }
  }

  /** Recovery that has read part of a log: from what is left it comes to `goal`, and stops at `stop`. */
  ghost predicate OnCourse(goal: Option<(seq<MemEntry>, nat)>, stop: nat, rest: LogFormat.Outcome, ends: seq<nat>,
                           es: seq<MemEntry>, lastSeq: nat) {
    goal == Recovered(rest.records, es, lastSeq) && stop == StopsAt(rest.records, ends, rest.validEnd)
  }

  /** How recovery ends. */
  ghost predicate Ended(goal: Option<(seq<MemEntry>, nat)>, stop: nat, ok: bool, es: seq<MemEntry>, lastSeq: nat,
                        validEnd: nat) {
    goal == (if ok then Some((es, lastSeq)) else None) && (ok ==> validEnd == stop)
  }

  lemma CourseOver(goal: Option<(seq<MemEntry>, nat)>, stop: nat, rest: LogFormat.Outcome, ends: seq<nat>,
                   es: seq<MemEntry>, lastSeq: nat)
    requires OnCourse(goal, stop, rest, ends, es, lastSeq) && rest.records == []
    ensures Ended(goal, stop, true, es, lastSeq, rest.validEnd)
  {
    RecoveredNone([], es, lastSeq);
  }

  lemma StopsMore(record: bytes, rest: seq<bytes>, end: nat, ends: seq<nat>, validEnd: nat)
    ensures StopsAt([record] + rest, [end] + ends, validEnd)
         == if |record| < HEADER then end else StopsAt(rest, ends, validEnd)
  {
    assert ([record] + rest)[1..] == rest && ([end] + ends)[1..] == ends;
  }

  /** Where a record, read up to `end`, has to lead. */
  ghost predicate Due(goal: Option<(seq<MemEntry>, nat)>, stop: nat, record: bytes, rest: LogFormat.Outcome, end: nat,
                      ends: seq<nat>, es: seq<MemEntry>, lastSeq: nat) {
    && (TurnOf(record).Short? ==> Ended(goal, stop, true, es, lastSeq, end))
    && (TurnOf(record).Corrupt? ==> goal == None)
    && (TurnOf(record).Replayed? ==>
          OnCourse(goal, stop, rest, ends, AddCalls(es, ReplayBatch(record).0), LaterOf(lastSeq, record)))
  }

  lemma CourseMore(goal: Option<(seq<MemEntry>, nat)>, stop: nat, record: bytes, rest: LogFormat.Outcome, end: nat,
                   ends: seq<nat>, es: seq<MemEntry>, lastSeq: nat)
    requires OnCourse(goal, stop, LogFormat.Emit(Some(record), rest), [end] + ends, es, lastSeq)
    ensures Due(goal, stop, record, rest, end, ends, es, lastSeq)
  {
    StopsMore(record, rest.records, end, ends, rest.validEnd);
    if |record| < HEADER {
      RecoveredNone([record] + rest.records, es, lastSeq);
    } else {
      RecoveredMore(record, rest.records, es, lastSeq);
    }
  }

  /** `Recover`'s loop over a log file, into a memtable that may hold the replay of earlier logs. */
  method ReplayLog(sum: Sum, file: bytes, mem: MemTable, ghost es: seq<MemEntry>)
    returns (ok: bool, maxSeq: nat, validEnd: nat, ghost es': seq<MemEntry>)
    requires EntriesOf(mem) == Some(es)
    modifies mem.table, mem.table.rng, (set x | x in mem.table.list)
    ensures Grown(mem) && EntriesOf(mem) == Some(es')
    ensures Ended(Recovered(LogFormat.Records(sum, file), es, 0), ReplayedEnd(sum, file), ok, es', maxSeq, validEnd)
  {
    var reader := new LogReaders.LogReader(sum, file);
    var batch := new WriteBatch();
    ghost var goal, stop := Recovered(reader.Rest().records, es, 0), ReplayedEnd(sum, file);
    ok, maxSeq, es' := true, 0, es;
    var more := true;
    while more
      invariant reader.Valid() && fresh(reader) && batch.Valid() && fresh(batch) && reader.file == file
      invariant Grown(mem) && EntriesOf(mem) == Some(es')
      invariant if more then OnCourse(goal, stop, reader.Rest(), reader.RestEnds(), es', maxSeq) && ok
                else Ended(goal, stop, ok, es', maxSeq, reader.validEnd)
      decreases more, |file| + LogFormat.BLOCK - reader.Position()
    {
      more, ok, maxSeq, es' := ReplayNext(reader, batch, mem, maxSeq, goal, stop, es');
    }
    validEnd := reader.validEnd;
  }

  method ReplayNext(reader: LogReaders.LogReader, batch: WriteBatch, mem: MemTable, lastSeq: nat,
                    ghost goal: Option<(seq<MemEntry>, nat)>, ghost stop: nat, ghost es: seq<MemEntry>)
    returns (more: bool, ok: bool, lastSeq': nat, ghost es': seq<MemEntry>)
    requires reader.Valid() && batch.Valid() && EntriesOf(mem) == Some(es)
    requires OnCourse(goal, stop, reader.Rest(), reader.RestEnds(), es, lastSeq)
    modifies reader, batch, mem.table, mem.table.rng, (set x | x in mem.table.list)
    ensures Grown(mem) && reader.Valid() && batch.Valid() && EntriesOf(mem) == Some(es')
    ensures more ==> ok && old(reader.Position()) < reader.Position()
    ensures if more then OnCourse(goal, stop, reader.Rest(), reader.RestEnds(), es', lastSeq')
            else Ended(goal, stop, ok, es', lastSeq', reader.validEnd)
  {
    var record := ReadNext(reader, goal, stop, es, lastSeq);
    if record.None? {
      return false, true, lastSeq, es;
    }
    var turn;
    turn, lastSeq', es' := ReplayRecord(mem, batch, record.value, lastSeq, es);
    more, ok := turn.Replayed?, !turn.Corrupt?;
  }

  /** The next record, if there is one. */
  method ReadNext(reader: LogReaders.LogReader, ghost goal: Option<(seq<MemEntry>, nat)>, ghost stop: nat,
                  ghost es: seq<MemEntry>, ghost lastSeq: nat)
    returns (record: Option<bytes>)
    requires reader.Valid() && OnCourse(goal, stop, reader.Rest(), reader.RestEnds(), es, lastSeq)
    modifies reader
    ensures reader.Valid() && (record.Some? ==> old(reader.Position()) < reader.Position())
    ensures if record.None? then Ended(goal, stop, true, es, lastSeq, reader.validEnd)
            else Due(goal, stop, record.value, reader.Rest(), reader.validEnd, reader.RestEnds(), es, lastSeq)
  {
    ghost var whole, ends := reader.Rest(), reader.RestEnds();
    record := reader.ReadRecord();
    if record.None? {
      CourseOver(goal, stop, whole, ends, es, lastSeq);
    } else {
      CourseMore(goal, stop, record.value, reader.Rest(), reader.validEnd, reader.RestEnds(), es, lastSeq);
    }
  }
}
