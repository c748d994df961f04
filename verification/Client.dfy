/** A client of the database: two writes, a crash or a close, and a read. */
module Clients {
  import opened Bytes
  import opened Checksums
  import opened DbFormat
  import opened WriteBatches
  import opened SkipLists
  import opened Recovery
  import opened Layers
  import opened Store
  import opened StoreTheorem
  import opened StandardFormats
  import opened DbPaths
  import opened DbSteps
  import opened Histories
  import opened Databases
  import ClientRuns
  import TableLookup
  import TableSizes
  import Seqs

  // ---------------------------------------------------------------- the first states

  const NEW: Open := System(ClientRuns.NEW_DISK, Ready(ClientRuns.NEW))

  lemma NewState(sum: Sum)
    ensures Listing(EMPTY_DISK, []) && InitDone(sum, EMPTY_DISK, []).state == Some(NEW)
  {
    assert Mounted(EMPTY_DISK.tables) == [];
  }

  /** Key and value of up to 128 megabytes. */
  predicate Short(op: Op) {
    op.Put? && |op.key| <= 0x800_0000 && |op.value| <= 0x800_0000
  }

  // ---------------------------------------------------------------- the keys written

  lemma {:induction false} WrittenJoined(a: seq<Label>, b: seq<Label>)
    ensures WrittenBy(a + b) == WrittenBy(a) + WrittenBy(b)
    decreases |b|
  {
    if b == [] {
      Seqs.Nil(a);
    } else {
      var n := |b| - 1;
      assert (a + b)[..|a| + n] == a + b[..n] && (a + b)[|a| + n] == b[n];
      WrittenJoined(a, b[..n]);
    }
  }

  lemma {:induction false} SilentWrites(n: nat)
    ensures WrittenBy(Silent(n)) == {}
    decreases n
  {
    if n > 0 {
      SilentMore(n - 1);
      SilentWrites(n - 1);
      ClientRuns.WrittenSnoc(Silent(n - 1), Internal);
    }
  }

  lemma WriteWrites(op: Op, full: bool)
    ensures WrittenBy(WriteAndFlush(op, full)) == {op.key}
  {
    ClientRuns.WrittenSnoc([], Begin([op]));
    ClientRuns.WrittenSnoc([Begin([op])], Internal);
    ClientRuns.WrittenSnoc([Begin([op]), Internal], Ack);
    assert [] + [Begin([op])] == [Begin([op])] && [Begin([op])] + [Internal] == [Begin([op]), Internal];
    assert [Begin([op]), Internal] + [Ack] == [Begin([op]), Internal, Ack];
    assert [op][0].key in Store.KeysOf([op]);
    assert Store.KeysOf([op]) == {op.key};
    SilentWrites(5);
    assert Silent(5) == FLUSH_EVENTS;
    WrittenJoined([Begin([op]), Internal, Ack], if full then FLUSH_EVENTS else []);
  }

  lemma ReopenWrites(n: nat)
    ensures WrittenBy([Crash] + Silent(n)) == {}
  {
    SilentWrites(n);
    ClientRuns.WrittenSnoc([], Crash);
    assert [] + [Crash] == [Crash];
    WrittenJoined([Crash], Silent(n));
  }

  lemma ReopenKeeps(events: seq<Label>, more: seq<Label>, n: nat, keys: set<bytes>)
    requires WrittenBy(events) == keys && more == events + ([Crash] + Silent(n))
    ensures WrittenBy(more) == keys
  {
    ReopenWrites(n);
    WrittenJoined(events, [Crash] + Silent(n));
  }

  // ---------------------------------------------------------------- the client

  lemma Beginning(sum: Sum) returns (start: History)
    ensures LeadsTo(Standard(sum), start, System(EMPTY_DISK, Down)) && Histories.Now(start).m == map[]
    ensures start.events == [] && Listing(EMPTY_DISK, []) && InitDone(sum, EMPTY_DISK, []).state == Some(NEW)
  {
    start := START;
    StartHolds(Standard(sum));
    NewState(sum);
  }

  lemma OpenWrites(events: seq<Label>, opening: seq<Label>, n: nat)
    requires events == [] && opening == events + Silent(n)
    ensures WrittenBy(opening) == {}
  {
    SilentWrites(n);
    Seqs.Nil(Silent(n));
  }

  /** A new database. */
  method Create(sum: Sum) returns (db: DB)
    ensures fresh(db) && AllNew(db.impl)
    ensures db.impl.sum == sum && db.Contents() == Some(map[]) && WrittenBy(db.h.events) == {}
    ensures db.Sequence() == 0 && db.Usage() == NODE_SIZE
  {
    ghost var start := Beginning(sum);
    ghost var n;
    db, n := DB.Open(sum, EMPTY_DISK, [], start);
    OpenWrites(start.events, db.h.events, n);
    Begins(db);
  }

  lemma Begins(db: DB)
    requires db.impl.State() == Some(NEW)
    ensures db.Sequence() == 0 && db.Usage() == NODE_SIZE
  {
  }

  lemma WrittenMore(events: seq<Label>, more: seq<Label>, op: Op, full: bool, keys: set<bytes>)
    requires WrittenBy(events) == keys && more == events + WriteAndFlush(op, full)
    ensures WrittenBy(more) == keys + {op.key}
  {
    WriteWrites(op, full);
    WrittenJoined(events, WriteAndFlush(op, full));
  }

  /** One more key. */
  method PutMore(db: DB, key: bytes, value: bytes, ghost m: map<bytes, bytes>, ghost keys: set<bytes>)
    requires db.Contents() == Some(m) && WrittenBy(db.h.events) == keys && Short(Op.Put(key, value))
    requires db.Sequence() < MAX_SEQUENCE && db.Usage() + OpSize(Op.Put(key, value)) <= TableSizes.LIGHT
    modifies db`h, db.impl, db.impl.log, db.impl.mem.table, db.impl.mem.table.rng, (set x | x in db.impl.mem.table.list)
    ensures db.impl == old(db.impl) && db.impl.Kept()
    ensures db.Contents() == Some(m[key := value]) && WrittenBy(db.h.events) == keys + {key}
    ensures db.Sequence() == old(db.Sequence()) + 1 && db.Usage() <= old(db.Usage()) + OpSize(Op.Put(key, value))
  {
    ghost var events := db.h.events;
    db.RoomAccepts(Op.Put(key, value));
    var ok, flushed := db.Put(key, value);
    WrittenMore(events, db.h.events, Op.Put(key, value), flushed, keys);
  }

  /** Close or crash, and open. */
  method OpenAgain(db: DB, ghost m: map<bytes, bytes>, ghost keys: set<bytes>) returns (again: DB)
    requires db.Contents() == Some(m) && WrittenBy(db.h.events) == keys
    ensures again.Contents() == Some(m) && WrittenBy(again.h.events) == keys
  {
    ghost var events := db.h.events;
    var files := ListFiles(db.impl.disk);
    ghost var n;
    again, n := Reopen(db, files);
    ReopenKeeps(events, again.h.events, n, keys);
  }

  /** And read. */
  method ReadBack(db: DB, key: bytes, ghost m: map<bytes, bytes>, ghost keys: set<bytes>) returns (got: Option<bytes>)
    requires db.Contents() == Some(m) && WrittenBy(db.h.events) == keys && Sought(keys, key)
    ensures got == MapGet(m, key)
  {
    var again := OpenAgain(db, m, keys);
    got := again.Get(key);
  }

  lemma PairSought(key: bytes, other: bytes)
    requires TableLookup.Apart(other, key)
    ensures Sought({} + {key} + {other}, key)
  {
    assert TableLookup.Apart(key, key);
  }

  lemma MapOfTwo(key: bytes, value: bytes, other: bytes, more: bytes)
    requires key != other
    ensures MapGet(map[key := value][other := more], key) == Some(value)
  {
  }

  /** In a new database: two keys. */
  method PutBoth(db: DB, key: bytes, value: bytes, other: bytes, more: bytes)
    requires db.Contents() == Some(map[]) && WrittenBy(db.h.events) == {}
    requires db.Sequence() == 0 && db.Usage() == NODE_SIZE
    requires Short(Op.Put(key, value)) && Short(Op.Put(other, more))
    modifies db`h, db.impl, db.impl.log, db.impl.mem.table, db.impl.mem.table.rng, (set x | x in db.impl.mem.table.list)
    ensures db.Contents() == Some(map[key := value][other := more]) && WrittenBy(db.h.events) == {} + {key} + {other}
  {
    PutMore(db, key, value, map[], {});
    PutMore(db, other, more, map[key := value], {} + {key});
  }

  /** In a new directory: write two keys, each with a flush if it is large, close or crash, open, and read the first.
      It is there. */
  method WriteReopenRead(sum: Sum, key: bytes, value: bytes, other: bytes, more: bytes) returns (got: Option<bytes>)
    requires Short(Op.Put(key, value)) && Short(Op.Put(other, more)) && key != other && TableLookup.Apart(other, key)
    ensures got == Some(value)
  {
    var db := Create(sum);
    PutBoth(db, key, value, other, more);
    PairSought(key, other);
    MapOfTwo(key, value, other, more);
    got := ReadBack(db, key, map[key := value][other := more], {} + {key} + {other});
  }
}
