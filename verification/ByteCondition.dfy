/** Reads need the condition on keys, and exactly it: runs of single writes in which a key that is not apart from
    another is lost, or comes back stale, and the theorem that this is the only way a read goes wrong. */
module ByteCondition {
  import opened Bytes
  import opened Checksums
  import opened DbFormat
  import opened WriteBatches
  import opened MemTables
  import opened Recovery
  import opened Layers
  import opened Store
  import opened StoreTheorem
  import opened StandardFormats
  import opened ClientRuns
  import opened TableFormat
  import DbPaths
  import BlockProofs
  import TableLookup
  import TableSizes

  // ---------------------------------------------------------------- one version in the way of another key

  /** Bytewise, version `m` of `stored` stands at or behind `user`, although its user key is a proper prefix. */
  predicate Shadowed(stored: bytes, user: bytes, m: nat) {
    stored < user && !Less(InternalKey(stored, m, TYPE_VALUE), user)
  }

  /** Every version shadows an extension by a zero byte and more. */
  lemma ShadowedByZero(stored: bytes, rest: bytes, m: nat)
    requires m <= MAX_SEQUENCE
    ensures Shadowed(stored, stored + [0] + rest, m)
  {
    var ikey, user := InternalKey(stored, m, TYPE_VALUE), stored + [0] + rest;
    TableLookup.KindFirst(stored, m, TYPE_VALUE);
    assert ikey[..|stored|] == stored == user[..|stored|];
    LessAt(user, ikey, |stored|);
    LessTrichotomy(user, ikey);
  }

  /** And the extension by a single one. */
  lemma ShadowedByOne(stored: bytes, m: nat)
    requires m <= MAX_SEQUENCE
    ensures Shadowed(stored, stored + [1], m)
  {
    var ikey, user := InternalKey(stored, m, TYPE_VALUE), stored + [1];
    TableLookup.KindFirst(stored, m, TYPE_VALUE);
    assert ikey[..|user|] == user;
    LessAt(user, ikey, |user|);
    LessTrichotomy(user, ikey);
  }

  /** A table of the two: the shadowing version first, then the key that is looked up. */
  function Shadow(stored: bytes, v: bytes, m: nat, op: Op, n: nat): seq<MemEntry> {
    [EntryOf(m, Op.Put(stored, v)), EntryOf(n, op)]
  }

  lemma ShadowOrder(stored: bytes, v: bytes, m: nat, op: Op, n: nat)
    requires Shadowed(stored, op.key, m) && m <= MAX_SEQUENCE && n <= MAX_SEQUENCE
    ensures var es := Shadow(stored, v, m, op, n);
      UserKey(es[0].ikey) == stored != op.key && UserKey(es[1].ikey) == op.key && EntryBefore(es[0], es[1])
  {
    EntryOfOp([], m, Op.Put(stored, v));
    EntryOfOp([], n, op);
    LessAt(stored, op.key, |stored|);
  }

  lemma ShadowNotLess(stored: bytes, v: bytes, m: nat, op: Op, n: nat)
    requires Shadowed(stored, op.key, m) && m <= MAX_SEQUENCE && n <= MAX_SEQUENCE
    ensures BlockProofs.NoneLessFrom(Shadow(stored, v, m, op, n), op.key, 0)
  {
    ShadowOrder(stored, v, m, op, n);
    LessTrichotomy(op.key, op.key);
    TableLookup.NotLessTagged(Shadow(stored, v, m, op, n)[1].ikey, op.key);
  }

  lemma Missed(sum: Sum, es: seq<MemEntry>, user: bytes)
    requires TableFits(sum, BlocksOf(es)) && es != []
    requires BlockProofs.NoneLessFrom(es, user, 0) && UserKey(es[0].ikey) != user
    ensures TableGet(sum, BuildTable(sum, es), user) == NotFound
  {
    TableLookup.StopsAtFirst(sum, es, user);
  }

  /** In it the key is not found. */
  lemma ShadowMissed(sum: Sum, stored: bytes, v: bytes, m: nat, op: Op, n: nat)
    requires Shadowed(stored, op.key, m) && m <= MAX_SEQUENCE && n <= MAX_SEQUENCE
    requires TableFits(sum, BlocksOf(Shadow(stored, v, m, op, n)))
    ensures TableGet(sum, BuildTable(sum, Shadow(stored, v, m, op, n)), op.key) == NotFound
  {
    var es := Shadow(stored, v, m, op, n);
    ShadowOrder(stored, v, m, op, n);
    ShadowNotLess(stored, v, m, op, n);
    Missed(sum, es, op.key);
  }

  // ---------------------------------------------------------------- reads in a run

  /** With an empty memtable the tables alone answer. */
  lemma GetEmpty(fm: Formats, memory: Memory, user: bytes)
    requires memory.mem == []
    ensures DbGet(fm, memory, user) == Visible(GetFrom(fm, memory.tables, user))
  {
  }

  /** What is known of `user` when a run of single writes has just flushed: `x` in the plain map, `found` in the
      tables. */
  ghost predicate Scene(fm: Formats, run: seq<System>, events: seq<Label>, d: Disk, memory: Memory, keys: set<bytes>,
                        user: bytes, x: Option<bytes>, found: LookupState) {
    && At(fm, run, events, d, memory) && Wrote(events, keys, None, user, x)
    && memory.mem == [] && GetFrom(fm, memory.tables, user) == found
  }

  lemma FoundThrough(fm: Formats, before: Memory, after: Memory, file: bytes, lastSeq: nat, user: bytes)
    requires Stored(before, after, file, lastSeq)
    ensures GetFrom(fm, after.tables, user) == Resolve(fm.tableGet(file, user), GetFrom(fm, before.tables, user))
  {
    GetFromCons(fm, file, before.tables, user);
  }

  lemma WroteAway(events: seq<Label>, keys: set<bytes>, op: Op, user: bytes, x: Option<bytes>)
    requires Wrote(events, keys, None, user, x) && op.key in keys
    ensures Wrote(events + WriteEvents(op) + DbPaths.FLUSH_EVENTS, keys, None, user, Outcome(op, user, x))
  {
    WroteOne(events, keys, op, user, x);
    WroteFlush(events + WriteEvents(op), keys, user, Outcome(op, user, x));
  }

  lemma WroteBoth(events: seq<Label>, keys: set<bytes>, op: Op, blocker: Op, user: bytes, x: Option<bytes>)
    requires Wrote(events, keys, None, user, x) && op.key == user && user in keys && blocker.key in keys
      && blocker.key != user
    ensures Wrote(events + WriteEvents(op) + WriteEvents(blocker) + DbPaths.FLUSH_EVENTS, keys, None, user,
                  Visible(Told(op)))
  {
    WroteOne(events, keys, op, user, x);
    WroteOne(events + WriteEvents(op), keys, blocker, user, Visible(Told(op)));
    WroteFlush(events + WriteEvents(op) + WriteEvents(blocker), keys, user, Visible(Told(op)));
  }

  /** Write one key and flush. */
  lemma SceneMore(fm: Formats, run: seq<System>, events: seq<Label>, d: Disk, memory: Memory, keys: set<bytes>,
                  user: bytes, x: Option<bytes>, found: LookupState, op: Op, n: nat, file: bytes)
    returns (run': seq<System>, events': seq<Label>, d': Disk, memory': Memory)
    requires LogLaws(fm) && Scene(fm, run, events, d, memory, keys, user, x, found)
    requires OpFits(op) && op.key in keys && n == memory.lastSeq + 1 <= MAX_SEQUENCE
    requires fm.fits([EntryOf(n, op)]) && file == fm.table([EntryOf(n, op)])
    ensures memory'.lastSeq == n
      && Scene(fm, run', events', d', memory', keys, user, Outcome(op, user, x),
               Resolve(fm.tableGet(file, user), found))
  {
    run', d', memory' := StoreAway(fm, run, events, d, memory, op, n, file);
    events' := events + WriteEvents(op) + DbPaths.FLUSH_EVENTS;
    WroteAway(events, keys, op, user, x);
    FoundThrough(fm, memory, memory', file, n, user);
  }

  /** Write `user`, then a key whose version shadows it, and flush: the tables answer as before. */
  lemma SceneShadowed(fm: Formats, run: seq<System>, events: seq<Label>, d: Disk, memory: Memory, keys: set<bytes>,
                      user: bytes, x: Option<bytes>, found: LookupState, op: Op, blocker: Op, n: nat, m: nat,
                      file: bytes)
    returns (run': seq<System>, events': seq<Label>, d': Disk, memory': Memory)
    requires LogLaws(fm) && Scene(fm, run, events, d, memory, keys, user, x, found)
    requires OpFits(op) && OpFits(blocker) && n == memory.lastSeq + 1 && m == n + 1 <= MAX_SEQUENCE
    requires op.key == user && user in keys && blocker.key in keys && blocker.key != user
    requires EntryBefore(EntryOf(m, blocker), EntryOf(n, op))
    requires var es := [EntryOf(m, blocker), EntryOf(n, op)]; fm.fits(es) && file == fm.table(es)
    requires fm.tableGet(file, user) == NotFound
    ensures Scene(fm, run', events', d', memory', keys, user, Visible(Told(op)), found)
  {
    run', d', memory' := StoreBoth(fm, run, events, d, memory, op, blocker, n, m, file);
    events' := events + WriteEvents(op) + WriteEvents(blocker) + DbPaths.FLUSH_EVENTS;
    WroteBoth(events, keys, op, blocker, user, x);
    FoundThrough(fm, memory, memory', file, m, user);
  }

  lemma SceneNew(fm: Formats, keys: set<bytes>, user: bytes) returns (run: seq<System>, events: seq<Label>)
    ensures Scene(fm, run, events, NEW_DISK, NEW, keys, user, None, NotFound)
  {
    run, events := OpenNew(fm, keys, user);
  }

  lemma StandardIs(sum: Sum, fm: Formats, es: seq<MemEntry>, file: bytes, user: bytes)
    requires fm == Standard(sum) && file == BuildTable(sum, es) && TableFits(sum, BlocksOf(es))
    ensures fm.table(es) == file && fm.fits(es) && fm.tableGet(file, user) == TableGet(sum, file, user)
  {
  }

  lemma StandardLaws(sum: Sum, fm: Formats)
    requires fm == Standard(sum)
    ensures LogLaws(fm)
  {
    LogObeys(sum);
  }

  lemma SceneMissed(sum: Sum, fm: Formats, run: seq<System>, events: seq<Label>, d: Disk, memory: Memory,
                    keys: set<bytes>, x: Option<bytes>, found: LookupState, op: Op, stored: bytes, v: bytes, n: nat,
                    m: nat)
    returns (run': seq<System>, events': seq<Label>, d': Disk, memory': Memory)
    requires fm == Standard(sum) && Scene(fm, run, events, d, memory, keys, op.key, x, found)
    requires OpFits(op) && OpFits(Op.Put(stored, v)) && n == memory.lastSeq + 1 && m == n + 1 <= MAX_SEQUENCE
    requires op.key in keys && stored in keys && Shadowed(stored, op.key, m)
    requires TableFits(sum, BlocksOf(Shadow(stored, v, m, op, n)))
    ensures Scene(fm, run', events', d', memory', keys, op.key, Visible(Told(op)), found)
  {
    var es := Shadow(stored, v, m, op, n);
    var file := BuildTable(sum, es);
    ShadowOrder(stored, v, m, op, n);
    ShadowMissed(sum, stored, v, m, op, n);
    StandardIs(sum, fm, es, file, op.key);
    StandardLaws(sum, fm);
    run', events', d', memory' :=
      SceneShadowed(fm, run, events, d, memory, keys, op.key, x, found, op, Op.Put(stored, v), n, m, file);
  }

  // ---------------------------------------------------------------- a write lost, a value brought back

  /** In a new database: `Put(user, w)`, then `Put(stored, v)`, then a flush. The plain map has `w` at `user`, but
      `Get` finds nothing. */
  lemma WriteLost(sum: Sum, fm: Formats, stored: bytes, v: bytes, user: bytes, w: bytes)
    returns (run: seq<System>, events: seq<Label>)
    requires fm == Standard(sum) && Shadowed(stored, user, 2) && OpFits(Op.Put(stored, v)) && OpFits(Op.Put(user, w))
    requires TableFits(sum, BlocksOf(Shadow(stored, v, 2, Op.Put(user, w), 1)))
    ensures IsRun(fm, run, events) && Client(events) && WrittenBy(events) <= {stored, user}
    ensures run[|events|].process.Ready? && DbGet(fm, run[|events|].process.memory, user) == None
    ensures Says(events, None, user, Some(w))
  {
    run, events := SceneNew(fm, {stored, user}, user);
    var d, memory;
    run, events, d, memory := SceneMissed(sum, fm, run, events, NEW_DISK, NEW, {stored, user}, None, NotFound,
      Op.Put(user, w), stored, v, 1, 2);
    GetEmpty(fm, memory, user);
  }

  lemma AloneFound(sum: Sum, n: nat, op: Op, user: bytes)
    requires n <= MAX_SEQUENCE && TableFits(sum, BlocksOf([EntryOf(n, op)]))
    ensures op.key == user ==> TableGet(sum, BuildTable(sum, [EntryOf(n, op)]), user) == Told(op)
    ensures op.key != user ==> TableGet(sum, BuildTable(sum, [EntryOf(n, op)]), user) == NotFound
  {
    EntryOfOp([], n, op);
    assert TableLookup.Apart(user, user);
    TableIsLayer(sum, [EntryOf(n, op)], {op.key}, user);
    AloneLookup(EntryOf(n, op), user);
  }

  lemma AloneLookup(e: MemEntry, user: bytes)
    ensures Lookup([e], user) == if UserKey(e.ikey) == user then Answer(e) else NotFound
  {
  }

  /** `Put(user, old)` and a flush, then `op` on `user`, `Put(stored, v)`, and a flush. Whatever `op` wrote, or
      deleted, `Get` returns `old`. */
  lemma StaleRead(sum: Sum, fm: Formats, stored: bytes, v: bytes, user: bytes, prior: bytes, op: Op)
    returns (run: seq<System>, events: seq<Label>)
    requires fm == Standard(sum) && Shadowed(stored, user, 3) && op.key == user
    requires OpFits(Op.Put(stored, v)) && OpFits(Op.Put(user, prior)) && OpFits(op)
    requires TableFits(sum, BlocksOf([EntryOf(1, Op.Put(user, prior))]))
    requires TableFits(sum, BlocksOf(Shadow(stored, v, 3, op, 2)))
    ensures IsRun(fm, run, events) && Client(events) && WrittenBy(events) <= {stored, user}
    ensures run[|events|].process.Ready? && DbGet(fm, run[|events|].process.memory, user) == Some(prior)
    ensures Says(events, None, user, Visible(Told(op)))
  {
    var keys, put := {stored, user}, Op.Put(user, prior);
    run, events := SceneNew(fm, keys, user);
    var file := BuildTable(sum, [EntryOf(1, put)]);
    AloneFound(sum, 1, put, user);
    StandardIs(sum, fm, [EntryOf(1, put)], file, user);
    StandardLaws(sum, fm);
    var d, memory;
    run, events, d, memory := SceneMore(fm, run, events, NEW_DISK, NEW, keys, user, None, NotFound, put, 1, file);
    run, events, d, memory :=
      SceneMissed(sum, fm, run, events, d, memory, keys, Some(prior), Found(prior), op, stored, v, 2, 3);
    GetEmpty(fm, memory, user);
  }

  // ---------------------------------------------------------------- exactly which keys are read rightly

  /** Beside some plain run with the same events, every read of `user` is right. */
  ghost predicate ReadsRight(fm: Formats, run: seq<System>, events: seq<Label>, user: bytes) {
    exists ts: seq<Plain> :: IsPlainRun(ts, events) && Shows(fm, run, ts, user)
  }

  ghost predicate Shows(fm: Formats, run: seq<System>, ts: seq<Plain>, user: bytes) {
    forall i :: 0 <= i < |run| && i < |ts| && run[i].process.Ready? ==>
      DbGet(fm, run[i].process.memory, user) == MapGet(ts[i].m, user)
  }

  /** Every run that writes only these keys, with crashes and batches of any size, reads `user` rightly. */
  ghost predicate AllRight(fm: Formats, keys: set<bytes>, user: bytes) {
    forall run, events :: IsRun(fm, run, events) && WrittenBy(events) <= keys ==> ReadsRight(fm, run, events, user)
  }

  /** Every such run of single writes does. */
  ghost predicate ClientsRight(fm: Formats, keys: set<bytes>, user: bytes) {
    forall run, events :: IsRun(fm, run, events) && WrittenBy(events) <= keys && Client(events) ==>
      ReadsRight(fm, run, events, user)
  }

  /** These keys can be written with the value `v`, and up to two such writes, the other without a value, fit a
      table. */
  ghost predicate Storable(sum: Sum, keys: set<bytes>, v: bytes) {
    && (forall k :: k in keys ==> OpFits(Op.Put(k, v)) && OpFits(Op.Put(k, [])))
    && (forall k, n: nat :: k in keys ==> TableFits(sum, BlocksOf([EntryOf(n, Op.Put(k, v))])))
    && (forall k, n: nat, user, m: nat :: k in keys && user in keys ==>
          TableFits(sum, BlocksOf(Shadow(k, v, m, Op.Put(user, []), n))))
  }

  /** Keys and values of up to 256 megabytes can. */
  lemma ShortKeysStorable(sum: Sum, keys: set<bytes>, v: bytes)
    requires |v| <= 0x1000_0000 && forall k :: k in keys ==> |k| <= 0x1000_0000
    ensures Storable(sum, keys, v)
  {
    forall k, n: nat | k in keys ensures TableFits(sum, BlocksOf([EntryOf(n, Op.Put(k, v))])) {
      ShortFits(sum, k, v, n);
    }
    forall k, n: nat, user, m: nat | k in keys && user in keys
      ensures TableFits(sum, BlocksOf(Shadow(k, v, m, Op.Put(user, []), n)))
    {
      ShortPairFits(sum, k, v, m, user, n);
    }
  }

  lemma EntryLength(k: bytes, v: bytes, n: nat)
    ensures var e := EntryOf(n, Op.Put(k, v)); |e.ikey| == |k| + 8 && e.value == v
  {
  }

  lemma ShortFits(sum: Sum, k: bytes, v: bytes, n: nat)
    requires |k| <= 0x1000_0000 && |v| <= 0x1000_0000
    ensures TableFits(sum, BlocksOf([EntryOf(n, Op.Put(k, v))]))
  {
    var e := EntryOf(n, Op.Put(k, v));
    EntryLength(k, v, n);
    TableSizes.WeightSnoc([], e);
    assert [] + [e] == [e];
    TableSizes.LightFits(sum, [e]);
  }

  lemma ShortPairFits(sum: Sum, k: bytes, v: bytes, m: nat, user: bytes, n: nat)
    requires |v| <= 0x1000_0000 && |k| <= 0x1000_0000 && |user| <= 0x1000_0000
    ensures TableFits(sum, BlocksOf(Shadow(k, v, m, Op.Put(user, []), n)))
  {
    var a, b := EntryOf(m, Op.Put(k, v)), EntryOf(n, Op.Put(user, []));
    EntryLength(k, v, m);
    EntryLength(user, [], n);
    TableSizes.WeightSnoc([], a);
    TableSizes.WeightSnoc([a], b);
    assert [] + [a] == [a] && [a] + [b] == [a, b];
    TableSizes.LightFits(sum, [a, b]);
  }

  lemma RightRun(sum: Sum, fm: Formats, run: seq<System>, events: seq<Label>, keys: set<bytes>, user: bytes)
    requires fm == Standard(sum) && IsRun(fm, run, events) && WrittenBy(events) <= keys && Sought(keys, user)
    ensures ReadsRight(fm, run, events, user)
  {
    var ts := StoreRefinesMap(sum, fm, run, events);
    assert Sought(WrittenBy(events), user);
    assert Shows(fm, run, ts, user);
  }

  lemma SoughtRight(sum: Sum, fm: Formats, keys: set<bytes>, user: bytes)
    requires fm == Standard(sum) && Sought(keys, user)
    ensures AllRight(fm, keys, user)
  {
    forall run, events | IsRun(fm, run, events) && WrittenBy(events) <= keys ensures ReadsRight(fm, run, events, user) {
      RightRun(sum, fm, run, events, keys, user);
    }
  }

  /** One more write of `stored`, away in a table of its own. */
  lemma RaiseOne(sum: Sum, fm: Formats, run: seq<System>, events: seq<Label>, d: Disk, memory: Memory,
                 keys: set<bytes>, v: bytes, stored: bytes, user: bytes, n: nat)
    returns (run': seq<System>, events': seq<Label>, d': Disk, memory': Memory)
    requires fm == Standard(sum) && Storable(sum, keys, v) && stored in keys && stored != user
    requires Scene(fm, run, events, d, memory, keys, user, None, NotFound) && n == memory.lastSeq + 1 <= MAX_SEQUENCE
    ensures Scene(fm, run', events', d', memory', keys, user, None, NotFound) && memory'.lastSeq == n
  {
    var op := Op.Put(stored, v);
    var file := BuildTable(sum, [EntryOf(n, op)]);
    AloneFound(sum, n, op, user);
    StandardIs(sum, fm, [EntryOf(n, op)], file, user);
    StandardLaws(sum, fm);
    run', events', d', memory' := SceneMore(fm, run, events, d, memory, keys, user, None, NotFound, op, n, file);
  }

  /** Such writes take the sequence number anywhere, and `user` is never found. */
  lemma {:induction false} Raise(sum: Sum, fm: Formats, keys: set<bytes>, v: bytes, stored: bytes, user: bytes, n: nat)
    returns (run: seq<System>, events: seq<Label>, d: Disk, memory: Memory)
    requires fm == Standard(sum) && Storable(sum, keys, v) && stored in keys && stored != user && n <= MAX_SEQUENCE
    ensures Scene(fm, run, events, d, memory, keys, user, None, NotFound) && memory.lastSeq == n
    decreases n
  {
    if n == 0 {
      run, events := SceneNew(fm, keys, user);
      d, memory := NEW_DISK, NEW;
    } else {
      run, events, d, memory := Raise(sum, fm, keys, v, stored, user, n - 1);
      run, events, d, memory := RaiseOne(sum, fm, run, events, d, memory, keys, v, stored, user, n);
    }
  }

  lemma WrongScene(fm: Formats, run: seq<System>, events: seq<Label>, d: Disk, memory: Memory, keys: set<bytes>,
                   user: bytes, x: Option<bytes>, found: LookupState)
    requires Scene(fm, run, events, d, memory, keys, user, x, found) && x != Visible(found)
    ensures IsRun(fm, run, events) && WrittenBy(events) <= keys && Client(events) && !ReadsRight(fm, run, events, user)
  {
    GetEmpty(fm, memory, user);
    forall ts: seq<Plain> | IsPlainRun(ts, events) ensures !Shows(fm, run, ts, user) {
      assert MapGet(ts[|events|].m, user) == x;
      assert run[|events|].process == Ready(memory);
    }
  }

  lemma WrongAt(sum: Sum, fm: Formats, keys: set<bytes>, v: bytes, stored: bytes, user: bytes, k: nat, n: nat, m: nat)
    returns (run: seq<System>, events: seq<Label>)
    requires fm == Standard(sum) && Storable(sum, keys, v) && stored in keys && user in keys
    requires Shadowed(stored, user, m) && stored != user && n == k + 1 && m == n + 1 <= MAX_SEQUENCE
    ensures IsRun(fm, run, events) && WrittenBy(events) <= keys && Client(events) && !ReadsRight(fm, run, events, user)
  {
    var d, memory;
    run, events, d, memory := Raise(sum, fm, keys, v, stored, user, k);
    run, events, d, memory :=
      SceneMissed(sum, fm, run, events, d, memory, keys, None, NotFound, Op.Put(user, []), stored, v, n, m);
    WrongScene(fm, run, events, d, memory, keys, user, Some([]), NotFound);
  }

  /** A key that is not apart from `stored` is lost behind its version of the greatest number. */
  lemma WrongRun(sum: Sum, fm: Formats, keys: set<bytes>, v: bytes, stored: bytes, user: bytes)
    returns (run: seq<System>, events: seq<Label>)
    requires fm == Standard(sum) && Storable(sum, keys, v) && stored in keys && user in keys
      && !TableLookup.Apart(stored, user)
    ensures IsRun(fm, run, events) && WrittenBy(events) <= keys && Client(events) && !ReadsRight(fm, run, events, user)
  {
    var k, n := MAX_SEQUENCE - 2, MAX_SEQUENCE - 1;
    run, events := WrongAt(sum, fm, keys, v, stored, user, k, n, MAX_SEQUENCE);
  }

  /** Reads of `user` are right in every run that writes only `keys`, or in every run of single such writes, if and
      only if `user` is not among them or is apart from each. `v` is any value that can be written; with one as large
      as a memtable may grow, the runs that go wrong flush just when the store itself would. */
  lemma RunsExact(sum: Sum, fm: Formats, keys: set<bytes>, v: bytes, user: bytes)
    requires fm == Standard(sum) && Storable(sum, keys, v)
    ensures AllRight(fm, keys, user) <==> Sought(keys, user)
    ensures ClientsRight(fm, keys, user) <==> Sought(keys, user)
  {
    if Sought(keys, user) {
      SoughtRight(sum, fm, keys, user);
    } else {
      var stored :| stored in keys && !TableLookup.Apart(stored, user);
      var run, events := WrongRun(sum, fm, keys, v, stored, user);
    }
  }
}
