/** The database as its users see it (include/mini-leveldb/db.h): a map that survives being closed and opened. */
module Databases {
  import opened Bytes
  import opened Checksums
  import opened DbFormat
  import opened WriteBatches
  import opened MemTables
  import opened Recovery
  import opened Layers
  import opened Store
  import opened StoreTheorem
  import opened StandardFormats
  import opened DbPaths
  import opened DbSteps
  import opened DbImpl
  import opened Histories
  import TableSizes

  method WriteTo(impl: DBImpl, op: Op, ghost r: Done) returns (ok: bool)
    requires impl.State().Some? && r == WriteDone(impl.sum, impl.State().value, BatchOf(op))
    modifies impl, impl.log, impl.mem.table, impl.mem.table.rng, (set x | x in impl.mem.table.list)
    ensures impl.Kept() && ok == r.ok && impl.State() == Some(r.state)
  {
    match op {
      case Put(key, value) => ok := impl.Put(key, value);
      case Delete(key) => ok := impl.Delete(key);
    }
  }

  /** The object and all it writes to are new. */
  twostate predicate AllNew(new impl: DBImpl)
    reads impl, impl.mem.table
  {
    && fresh(impl) && fresh(impl.log) && fresh(impl.mem.table) && fresh(impl.mem.table.rng)
    && fresh(set x | x in impl.mem.table.list)
  }

  method Boot(sum: Sum, disk: Disk, files: seq<FileInfo>, ghost s: Open) returns (impl: DBImpl)
    requires Listing(disk, files) && InitDone(sum, disk, files).state == Some(s)
    ensures AllNew(impl) && impl.sum == sum && impl.State() == Some(s)
  {
    impl := new DBImpl(sum, disk);
    var ok := impl.Init(files);
  }

  method ReadFrom(impl: DBImpl, user: bytes, ghost s: Open) returns (value: Option<bytes>)
    requires impl.State() == Some(s)
    ensures value == DbGet(Standard(impl.sum), s.process.memory, user)
  {
    value := impl.Get(user);
  }

  class DB {
    var impl: DBImpl
    ghost var h: History

    /** The plain map that the database stands for: its history leads to the state that the object is in. */
    ghost function Contents(): Option<map<bytes, bytes>>
      reads this, impl, impl.log, impl.mem, impl.mem.table, impl.mem.table.rng, impl.mem.table.list
    {
      Shown(impl.sum, h, impl.State())
    }

    /** The last sequence number given out. */
    ghost function Sequence(): nat
      reads this, impl, impl.log, impl.mem, impl.mem.table, impl.mem.table.rng, impl.mem.table.list
    {
      if impl.State().Some? then impl.State().value.process.memory.lastSeq else 0
    }

    /** What the memtable uses of memory. */
    ghost function Usage(): nat
      reads this, impl, impl.log, impl.mem, impl.mem.table, impl.mem.table.rng, impl.mem.table.list
    {
      if impl.State().Some? then MemUsage(impl.State().value.process.memory.mem) else 0
    }

    constructor Of(impl: DBImpl, ghost h: History, ghost s: Open)
      requires impl.State() == Some(s)
      ensures this.impl == impl && this.h == h && impl.State() == Some(s)
    {
      this.impl, this.h := impl, h;
    }

    static method Start(sum: Sum, disk: Disk, files: seq<FileInfo>, ghost h: History, ghost s: Open) returns (db: DB)
      requires Listing(disk, files) && InitDone(sum, disk, files).state == Some(s)
      ensures fresh(db) && AllNew(db.impl) && db.h == h && db.impl.sum == sum && db.impl.State() == Some(s)
    {
      var impl := Boot(sum, disk, files, s);
      db := new DB.Of(impl, h, s);
    }

    /** Open the database in a directory to which some history has led, with crashes or none. */
    static method Open(sum: Sum, disk: Disk, files: seq<FileInfo>, ghost before: History) returns (db: DB, ghost n: nat)
      requires LeadsTo(Standard(sum), before, System(disk, Down)) && Listing(disk, files)
      ensures fresh(db) && AllNew(db.impl) && db.impl.sum == sum && Continues(before, db.h, Silent(n))
      ensures db.Contents() == Some(Histories.Now(before).m) && db.impl.State() == InitDone(sum, disk, files).state
    {
      ghost var after, s;
      after, s, n := ShownInit(sum, before, disk, files, Histories.Now(before).m);
      db := Start(sum, disk, files, after, s);
      db.ContentsAre(s, Some(Histories.Now(before).m));
    }

    ghost method SetHistory(after: History, s: Open)
      requires impl.State() == Some(s)
      modifies `h
      ensures h == after && impl.State() == Some(s)
    {
      h := after;
    }

    lemma ContentsAre(s: Open, m: Option<map<bytes, bytes>>)
      requires impl.State() == Some(s) && Shown(impl.sum, h, Some(s)) == m
      ensures Contents() == m
    {
    }

    /** The write itself, and the history that comes with it. */
    method Record(op: Op, ghost after: History, ghost r: Done) returns (ok: bool)
      requires impl.State().Some? && r == WriteDone(impl.sum, impl.State().value, BatchOf(op))
      modifies `h, impl, impl.log, impl.mem.table, impl.mem.table.rng, (set x | x in impl.mem.table.list)
      ensures impl == old(impl) && h == after && impl.Kept()
      ensures ok == r.ok && impl.State() == Some(r.state)
    {
      SetHistory(after, impl.State().value);
      ok := WriteTo(impl, op, r);
    }

    /** Whether `op` is within the format's sizes and numbers, and so is the table if it fills the memtable. */
    ghost predicate Accepts(op: Op)
      reads this, impl, impl.log, impl.mem, impl.mem.table, impl.mem.table.rng, impl.mem.table.list
    {
      Contents().Some? && WriteFits(impl.sum, impl.State().value, op)
    }

    /** With memtable and write within a gigabyte, it is. */
    lemma RoomAccepts(op: Op)
      requires Contents().Some? && OpFits(op) && Sequence() < MAX_SEQUENCE && Usage() + OpSize(op) <= TableSizes.LIGHT
      ensures Accepts(op)
    {
      RoomFits(impl.sum, impl.State().value, op);
    }

    method Write(op: Op, ghost s: Open, ghost m: Option<map<bytes, bytes>>, ghost fits: bool)
      returns (ok: bool, ghost flushed: bool)
      requires impl.State() == Some(s) && Contents() == m && fits == (m.Some? && WriteFits(impl.sum, s, op))
      modifies `h, impl, impl.log, impl.mem.table, impl.mem.table.rng, (set x | x in impl.mem.table.list)
      ensures impl == old(impl) && impl.Kept() && impl.State().Some? && flushed == Fills(s, op)
      ensures ok ==> Usage() < 4_194_304
      ensures fits ==> ok && Contents() == Some(ApplyOp(m.value, op))
      ensures fits ==> Continues(old(h), h, WriteAndFlush(op, flushed))
      ensures fits ==> Sequence() == s.process.memory.lastSeq + 1
      ensures fits ==> Usage() <= MemUsage(s.process.memory.mem) + OpSize(op)
    {
      flushed := Fills(s, op);
      ghost var after, r := ShownWrite(impl.sum, h, s, m, op, fits);
      ok := Record(op, after, r);
      ContentsAre(r.state, Shown(impl.sum, after, Some(r.state)));
    }

    /** The map gains the key, or its value changes; `flushed` tells whether the memtable was full with it. */
    method Put(key: bytes, value: bytes) returns (ok: bool, ghost flushed: bool)
      requires impl.State().Some?
      modifies `h, impl, impl.log, impl.mem.table, impl.mem.table.rng, (set x | x in impl.mem.table.list)
      ensures impl == old(impl) && impl.Kept() && impl.State().Some? && (ok ==> Usage() < 4_194_304)
      ensures old(Accepts(Op.Put(key, value))) ==>
        && ok && Contents() == Some(old(Contents()).value[key := value])
        && Continues(old(h), h, WriteAndFlush(Op.Put(key, value), flushed))
        && Sequence() == old(Sequence()) + 1 && Usage() <= old(Usage()) + OpSize(Op.Put(key, value))
    {
      ok, flushed := Write(Op.Put(key, value), impl.State().value, Contents(), Accepts(Op.Put(key, value)));
    }

    /** The map loses the key. */
    method Delete(key: bytes) returns (ok: bool, ghost flushed: bool)
      requires impl.State().Some?
      modifies `h, impl, impl.log, impl.mem.table, impl.mem.table.rng, (set x | x in impl.mem.table.list)
      ensures impl == old(impl) && impl.Kept() && impl.State().Some? && (ok ==> Usage() < 4_194_304)
      ensures old(Accepts(Op.Delete(key))) ==>
        && ok && Contents() == Some(old(Contents()).value - {key})
        && Continues(old(h), h, WriteAndFlush(Op.Delete(key), flushed))
        && Sequence() == old(Sequence()) + 1 && Usage() <= old(Usage()) + OpSize(Op.Delete(key))
    {
      ok, flushed := Write(Op.Delete(key), impl.State().value, Contents(), Accepts(Op.Delete(key)));
    }

    /** What the map has at the key, if the key is apart from every key ever written. */
    method Get(user: bytes) returns (value: Option<bytes>)
      requires Contents().Some?
      ensures Sought(WrittenBy(h.events), user) ==> value == MapGet(old(Contents().value), user)
    {
      ghost var s, m := impl.State().value, Contents().value;
      value := ReadFrom(impl, user, s);
      if Sought(WrittenBy(h.events), user) {
        ShownAnswers(impl.sum, h, s, m, user);
      }
    }
  }

  /** Close the database, or crash between two operations, and open it again: the map is the same. */
  method Reopen(db: DB, files: seq<FileInfo>) returns (next: DB, ghost n: nat)
    requires db.Contents().Some? && Listing(db.impl.disk, files)
    ensures fresh(next) && AllNew(next.impl) && next.impl.sum == db.impl.sum
    ensures Continues(db.h, next.h, [Crash] + Silent(n)) && next.Contents() == old(db.Contents())
  {
    ghost var h := ShownCrash(db.impl.sum, db.h, db.impl.State().value, db.Contents().value);
    next, n := DB.Open(db.impl.sum, db.impl.disk, files, h);
    ContinuesMore(db.h, h, next.h, [Crash], Silent(n));
  }
}
