/** The store's layers: the log's operations over the tables, newest first. */
module Layers {
  import opened Bytes
  import opened DbFormat
  import opened MemTables
  import opened SkipLists
  import opened Recovery
  import opened Store
  import TableLookup
  import Seqs

  // ---------------------------------------------------------------- file numbers in descending order

  lemma {:induction false} DescendingIn(s: set<nat>, i: nat)
    requires i in Descending(s)
    ensures i in s
    decreases |s|
  {
    var n := Greatest(s);
    if i != n {
      DescendingIn(s - {n}, i);
    }
  }

  /** A number above all others comes first. */
  lemma DescendingAbove(s: set<nat>, n: nat)
    requires forall i :: i in s ==> i < n
    ensures Descending(s + {n}) == [n] + Descending(s)
  {
    assert Greatest(s + {n}) == n;
    assert s + {n} - {n} == s;
  }

  lemma {:induction false} PickOther<T>(m: map<nat, T>, n: nat, x: T, numbers: seq<nat>)
    requires n !in numbers
    ensures Pick(m[n := x], numbers) == Pick(m, numbers)
    decreases |numbers|
  {
    if numbers != [] {
      PickOther(m, n, x, numbers[1..]);
    }
  }

  lemma PickFirst<T>(m: map<nat, T>, n: nat, numbers: seq<nat>)
    requires n in m
    ensures Pick(m, [n] + numbers) == [m[n]] + Pick(m, numbers)
  {
    assert ([n] + numbers)[1..] == numbers;
  }

  /** A new file numbered above all others is mounted in front of them. */
  lemma MountedAbove<T>(m: map<nat, T>, n: nat, x: T)
    requires forall i :: i in m ==> i < n
    ensures Mounted(m[n := x]) == [x] + Mounted(m)
  {
    assert m[n := x].Keys == m.Keys + {n};
    DescendingAbove(m.Keys, n);
    if n in Descending(m.Keys) {
      DescendingIn(m.Keys, n);
    }
    PickFirst(m[n := x], n, Descending(m.Keys));
    PickOther(m, n, x, Descending(m.Keys));
  }

  // ---------------------------------------------------------------- table files and their contents

  /** What the first of the layers that knows `user` says. */
  function Below(layers: seq<seq<MemEntry>>, user: bytes): LookupState {
    if layers == [] then NotFound else Resolve(Lookup(layers[0], user), Below(layers[1..], user))
  }

  /** `file` is the table built of `es`, a memtable's contents. */
  ghost predicate Built(fm: Formats, file: bytes, es: seq<MemEntry>, keys: set<bytes>) {
    && file == fm.table(es) && fm.fits(es)
    && InOrder(EntryBefore, es) && KeysIn(es, keys)
  }

  /** The key sought is not in use, or every key in use is apart from it. */
  predicate Sought(keys: set<bytes>, user: bytes) {
    user in keys ==> forall k :: k in keys ==> TableLookup.Apart(k, user)
  }

  /** Keys all of whose bytes are at least 2 are apart from everything. */
  lemma PlainKeySought(keys: set<bytes>, user: bytes)
    requires forall i :: 0 <= i < |user| ==> user[i] >= 2
    ensures Sought(keys, user)
  {
    forall k | k in keys ensures TableLookup.Apart(k, user) {
      TableLookup.ApartByByte(k, user);
    }
  }

  // ---------------------------------------------------------------- what the files must obey

  /** A log reads as what was appended, whole or not at all, and truncation keeps every record. */
  ghost predicate LogLaws(fm: Formats) {
    && fm.clean([]) && fm.records([]) == []
    && (forall f :: fm.clean(fm.truncated(f)) && fm.records(fm.truncated(f)) == fm.records(f))
    && (forall f, r :: |fm.added(f, r)| > 0)
    && (forall f, r, c: nat | fm.clean(f) && c <= |fm.added(f, r)| ::
          if c < |fm.added(f, r)| then fm.records(f + fm.added(f, r)[..c]) == fm.records(f)
          else fm.clean(f + fm.added(f, r)) && fm.records(f + fm.added(f, r)) == fm.records(f) + [r])
  }

  /** An append read after `c` of its bytes. */
  lemma AppendLaw(fm: Formats, f: bytes, r: bytes, c: nat)
    requires LogLaws(fm) && fm.clean(f) && c <= |fm.added(f, r)|
    ensures c < |fm.added(f, r)| ==> fm.records(f + fm.added(f, r)[..c]) == fm.records(f)
    ensures c == |fm.added(f, r)| ==>
      fm.clean(f + fm.added(f, r)[..c]) && fm.records(f + fm.added(f, r)[..c]) == fm.records(f) + [r]
  {
    Seqs.TakeAll(fm.added(f, r));
    assert |fm.added(f, r)[..c]| == c;
  }

  /** A table opens, and is looked up like the entries it was built of. */
  ghost predicate TableLaws(fm: Formats) {
    && (forall es: seq<MemEntry> | fm.fits(es) :: fm.opens(fm.table(es)))
    && (forall es: seq<MemEntry>, keys, user |
          fm.fits(es) && InOrder(EntryBefore, es) && KeysIn(es, keys) && Sought(keys, user) ::
          fm.tableGet(fm.table(es), user) == Lookup(es, user))
  }

  ghost predicate TablesHold(fm: Formats, tables: map<nat, bytes>, content: map<nat, seq<MemEntry>>, keys: set<bytes>) {
    && content.Keys == tables.Keys
    && forall n :: n in tables ==> Built(fm, tables[n], content[n], keys)
  }

  lemma {:induction false} GetFromIn(fm: Formats, tables: map<nat, bytes>, content: map<nat, seq<MemEntry>>,
                                     keys: set<bytes>,
                                     numbers: seq<nat>, user: bytes)
    requires TableLaws(fm) && TablesHold(fm, tables, content, keys) && Sought(keys, user)
    ensures GetFrom(fm, Pick(tables, numbers), user) == Below(Pick(content, numbers), user)
    decreases |numbers|
  {
    if numbers != [] {
      var n, rest := numbers[0], numbers[1..];
      GetFromIn(fm, tables, content, keys, rest, user);
      if n in tables {
        GetFromCons(fm, tables[n], Pick(tables, rest), user);
        BelowCons(content[n], Pick(content, rest), user);
      } else {
        Seqs.Nil(Pick(tables, rest));
        Seqs.Nil(Pick(content, rest));
      }
    }
  }

  lemma GetFromCons(fm: Formats, file: bytes, rest: seq<bytes>, user: bytes)
    ensures GetFrom(fm, [file] + rest, user) == Resolve(fm.tableGet(file, user), GetFrom(fm, rest, user))
  {
    assert ([file] + rest)[1..] == rest;
  }

  lemma BelowCons(es: seq<MemEntry>, rest: seq<seq<MemEntry>>, user: bytes)
    ensures Below([es] + rest, user) == Resolve(Lookup(es, user), Below(rest, user))
  {
    assert ([es] + rest)[1..] == rest;
  }

  /** The descent through the mounted tables is the lookup in the layers they were built of. */
  lemma GetFromMounted(fm: Formats, tables: map<nat, bytes>, content: map<nat, seq<MemEntry>>, keys: set<bytes>,
                       user: bytes)
    requires TableLaws(fm) && TablesHold(fm, tables, content, keys) && Sought(keys, user)
    ensures GetFrom(fm, Mounted(tables), user) == Below(Mounted(content), user)
  {
    GetFromIn(fm, tables, content, keys, Descending(tables.Keys), user);
  }

  // ---------------------------------------------------------------- the recoverable view

  /** What the disk says: the log's operations over the tables by descending number. */
  datatype Witness = Witness(content: map<nat, seq<MemEntry>>, batches: seq<Logged>)

  ghost function View(w: Witness, user: bytes): LookupState {
    Resolve(LastWrite(OpsOf(w.batches), user), Below(Mounted(w.content), user))
  }

  /** A table of the log's memtable, above all others, changes nothing while the log is there. */
  lemma ViewFlushed(w: Witness, n: nat, user: bytes)
    requires Chained(w.batches) && forall i :: i in w.content ==> i < n
    ensures View(w.(content := w.content[n := MemOf(w.batches)]), user) == View(w, user)
  {
    var es := MemOf(w.batches);
    MountedAbove(w.content, n, es);
    BelowCons(es, Mounted(w.content), user);
    MemHolds(w.batches, KeysOf(OpsOf(w.batches)), user);
  }

  /** And nothing once the log is gone. */
  lemma ViewRotated(w: Witness, n: nat, user: bytes)
    requires Chained(w.batches) && forall i :: i in w.content ==> i < n
    ensures View(Witness(w.content[n := MemOf(w.batches)], []), user) == View(w, user)
  {
    var es := MemOf(w.batches);
    MountedAbove(w.content, n, es);
    BelowCons(es, Mounted(w.content), user);
    MemHolds(w.batches, KeysOf(OpsOf(w.batches)), user);
  }

  ghost predicate Agrees(w: Witness, m: map<bytes, bytes>) {
    forall user :: Visible(View(w, user)) == MapGet(m, user)
  }

  /** One more batch in the log is its operations applied to the map. */
  lemma ViewLogged(w: Witness, b: Logged, m: map<bytes, bytes>)
    requires Agrees(w, m)
    ensures Agrees(w.(batches := w.batches + [b]), Apply(m, b.ops))
  {
    Snoc(w.batches, b);
    forall user ensures Visible(View(w.(batches := w.batches + [b]), user)) == MapGet(Apply(m, b.ops), user) {
      LastWriteSplit(OpsOf(w.batches), b.ops, user);
      ApplyLast(m, b.ops, user);
      assert Visible(View(w, user)) == MapGet(m, user);
    }
  }
}
