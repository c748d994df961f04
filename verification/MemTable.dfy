/** The in-memory table: tagged entries in comparator order (src/db/memtable.cc). */
module MemTables {
  import opened Bytes
  import opened Coding
  import opened DbFormat
  import opened SkipLists
  import Arenas
  import Seqs

  /** Entries as the memtable makes them: every key carries a tag whose low byte is a value type. */
  predicate Proper(e: Entry) {
    |e.ikey| >= 8 && TagOf(e.ikey) % 256 <= TYPE_VALUE
  }

  /** A deletion of the empty key. */
  function Blank(): (e: Entry)
    ensures Proper(e)
  {
    TagKinds(0, TYPE_DELETION, []);
    Entry(InternalKey([], 0, TYPE_DELETION), [])
  }

  type MemEntry = e: Entry | Proper(e) witness Blank()

  /** The key of the list's head, never compared. */
  method HeadKey() returns (blank: MemEntry) {
    blank := Blank();
  }

  predicate EntryBefore(a: MemEntry, b: MemEntry) {
    Before(a.ikey, b.ikey)
  }

  lemma EntryOrder()
    ensures WeakOrder(EntryBefore)
  {
    forall a: MemEntry, b: MemEntry | EntryBefore(a, b) ensures !EntryBefore(b, a) {
      BeforeTrichotomy(a.ikey, b.ikey);
    }
    forall a: MemEntry, b: MemEntry, c: MemEntry | !EntryBefore(b, a) && !EntryBefore(c, b) ensures !EntryBefore(c, a) {
      NotAfterTransitive(a.ikey, b.ikey, c.ikey);
    }
  }

  /** What `Add` stores. */
  function MakeEntry(sequence: nat, kind: byte, key: bytes, value: bytes): (e: MemEntry)
    requires kind <= TYPE_VALUE
  {
    TagKinds(sequence, kind, key);
    Entry(InternalKey(key, sequence, kind), value)
  }

  lemma TagKinds(sequence: nat, kind: byte, key: bytes)
    ensures TagOf(InternalKey(key, sequence, kind)) % 256 == kind
  {
    var tag := Tag(sequence, kind);
    TagKind(sequence, kind);
    KeyParts(key, InternalKey(key, sequence, kind), tag, Fixed(tag, 8));
  }

  function AddEntry(es: seq<MemEntry>, e: MemEntry): seq<MemEntry> {
    Inserted(EntryBefore, es, e)
  }

  /** The key that sorts before every version of `user`. */
  function LookupKey(user: bytes): MemEntry {
    MakeEntry(MAX_SEQUENCE, TYPE_VALUE, user, [])
  }

  /** `Get`: seek the lookup key and judge where it lands. */
  function MemGet(es: seq<MemEntry>, user: bytes): LookupState {
    var i := Find(EntryBefore, es, LookupKey(user));
    if i == |es| then NotFound
    else if UserKey(es[i].ikey) != user then NotFound
    else Answer(es[i])
  }

  lemma OrderIsSorted(es: seq<MemEntry>)
    ensures InOrder(EntryBefore, es) <==> Sorted(es)
  {
  }

  lemma AddKeepsOrder(es: seq<MemEntry>, e: MemEntry)
    requires InOrder(EntryBefore, es)
    ensures InOrder(EntryBefore, AddEntry(es, e))
  {
    EntryOrder();
    InsertedInOrder(EntryBefore, es, e);
  }

  // ---------------------------------------------------------------- a lookup finds the newest version

  /** No tag exceeds the lookup key's. */
  lemma TagBound(e: MemEntry)
    ensures TagOf(e.ikey) <= MAX_SEQUENCE * 256 + TYPE_VALUE
  {
    Powers();
    FixedOnto(e.ikey[|e.ikey| - 8..]);
  }

  /** An entry sorts before the lookup key just when its user key is smaller. */
  lemma BeforeLookup(e: MemEntry, user: bytes)
    ensures EntryBefore(e, LookupKey(user)) <==> Less(UserKey(e.ikey), user)
  {
    TagBound(e);
    InternalKeyRoundTrip(user, MAX_SEQUENCE, TYPE_VALUE);
    LessTrichotomy(user, user);
  }

  /** In order, the lookup tells what the newest version of the key says. */
  lemma MemGetIsLookup(es: seq<MemEntry>, user: bytes)
    requires InOrder(EntryBefore, es)
    ensures MemGet(es, user) == Lookup(es, user)
  {
    var i := Find(EntryBefore, es, LookupKey(user));
    LookupLands(es, user, i);
    if i < |es| && UserKey(es[i].ikey) == user {
      LookupFirst(es, user, i);
    } else {
      forall j | 0 <= j < |es| ensures UserKey(es[j].ikey) != user {
        if i < j {
          LaterDiffers(es, user, i, j);
        }
      }
      LookupAbsent(es, user);
    }
  }

  /** The lookup key's place: smaller user keys before it, none smaller there. */
  lemma LookupLands(es: seq<MemEntry>, user: bytes, i: nat)
    requires i == Find(EntryBefore, es, LookupKey(user))
    ensures forall j :: 0 <= j < i ==> UserKey(es[j].ikey) != user
    ensures i < |es| ==> !Less(UserKey(es[i].ikey), user)
  {
    LessTrichotomy(user, user);
    forall j | 0 <= j < i ensures UserKey(es[j].ikey) != user {
      BeforeLookup(es[j], user);
    }
    if i < |es| {
      BeforeLookup(es[i], user);
    }
  }

  lemma LaterDiffers(es: seq<MemEntry>, user: bytes, i: nat, j: nat)
    requires InOrder(EntryBefore, es) && i < j < |es|
    requires !Less(UserKey(es[i].ikey), user) && UserKey(es[i].ikey) != user
    ensures UserKey(es[j].ikey) != user
  {
    LessTrichotomy(UserKey(es[i].ikey), user);
    assert !EntryBefore(es[j], es[i]);
  }

  /** Adding an entry no older than the key's other versions makes it the one found; other keys are untouched. */
  lemma LookupAdded(es: seq<MemEntry>, e: MemEntry, user: bytes)
    requires InOrder(EntryBefore, es)
    requires UserKey(e.ikey) == user ==>
      forall j :: 0 <= j < |es| && UserKey(es[j].ikey) == user ==> TagOf(es[j].ikey) <= TagOf(e.ikey)
    ensures Lookup(AddEntry(es, e), user) == if UserKey(e.ikey) == user then Answer(e) else Lookup(es, user)
  {
    var n := Find(EntryBefore, es, e);
    if UserKey(e.ikey) == user {
      NoneBefore(es, e, n);
      AddedAt(es, e, n);
      LookupFirst(AddEntry(es, e), user, n);
    } else {
      OthersKept(es, e, n, user);
    }
  }

  lemma OthersKept(es: seq<MemEntry>, e: MemEntry, n: nat, user: bytes)
    requires n == Find(EntryBefore, es, e) && UserKey(e.ikey) != user
    ensures Lookup(AddEntry(es, e), user) == Lookup(es, user)
  {
    LookupSpliced(es[..n], e, es[n..], user);
    Seqs.Rejoin(es, n);
  }

  /** Before the new entry no version of its own key stands. */
  lemma NoneBefore(es: seq<MemEntry>, e: MemEntry, n: nat)
    requires n == Find(EntryBefore, es, e)
    requires forall j :: 0 <= j < |es| && UserKey(es[j].ikey) == UserKey(e.ikey) ==> TagOf(es[j].ikey) <= TagOf(e.ikey)
    ensures forall j :: 0 <= j < n ==> UserKey(es[j].ikey) != UserKey(e.ikey)
  {
    forall j | 0 <= j < n ensures UserKey(es[j].ikey) != UserKey(e.ikey) {
      assert EntryBefore(es[j], e);
    }
  }

  lemma {:induction false} LookupSpliced(a: seq<MemEntry>, e: MemEntry, b: seq<MemEntry>, user: bytes)
    requires UserKey(e.ikey) != user
    ensures Lookup(a + [e] + b, user) == Lookup(a + b, user)
    decreases |a|
  {
    if a == [] {
      Seqs.Nil(b);
      assert (a + [e] + b)[1..] == b;
    } else {
      LookupSpliced(a[1..], e, b, user);
      assert (a + [e] + b)[1..] == a[1..] + [e] + b;
      assert (a + b)[1..] == a[1..] + b;
    }
  }

  /** Adding an entry older than one of its key's versions changes no answer. */
  lemma LookupAddedOlder(es: seq<MemEntry>, e: MemEntry, user: bytes, j: nat)
    requires InOrder(EntryBefore, es) && UserKey(e.ikey) == user
    requires FirstAt(es, user, j) && TagOf(es[j].ikey) > TagOf(e.ikey)
    ensures FirstAt(AddEntry(es, e), user, j) && AddEntry(es, e)[j] == es[j]
  {
    var n := Find(EntryBefore, es, e);
    if n <= j {
      StaysAfter(es, e, n, j);
    }
  }

  lemma StaysAfter(es: seq<MemEntry>, e: MemEntry, n: nat, j: nat)
    requires InOrder(EntryBefore, es) && n <= j < |es| && !EntryBefore(es[n], e)
    ensures !EntryBefore(es[j], e)
  {
    if n < j {
      NotAfterTransitive(e.ikey, es[n].ikey, es[j].ikey);
    }
  }

  // ---------------------------------------------------------------- any sequence of additions

  function AddAll(adds: seq<MemEntry>): seq<MemEntry> {
    if adds == [] then [] else AddEntry(AddAll(adds[..|adds| - 1]), adds[|adds| - 1])
  }

  /** Where in `adds` the version of `user` with the greatest tag stands, the latest added on ties. */
  function Newest(adds: seq<MemEntry>, user: bytes): (k: Option<nat>)
    ensures k.Some? ==> k.value < |adds| && UserKey(adds[k.value].ikey) == user
    ensures k.Some? ==> forall j :: 0 <= j < |adds| && UserKey(adds[j].ikey) == user ==>
      || TagOf(adds[j].ikey) < TagOf(adds[k.value].ikey)
      || (TagOf(adds[j].ikey) == TagOf(adds[k.value].ikey) && j <= k.value)
    ensures k.None? ==> forall j :: 0 <= j < |adds| ==> UserKey(adds[j].ikey) != user
  {
    if adds == [] then None
    else
      var n := |adds| - 1;
      var before := Newest(adds[..n], user);
      assert forall j :: 0 <= j < n ==> adds[..n][j] == adds[j];
      if UserKey(adds[n].ikey) == user && (before.None? || TagOf(adds[n].ikey) >= TagOf(adds[before.value].ikey))
      then Some(n) else before
  }

  /** The table stands in order, and its first entry for `user` is the newest one added. */
  ghost predicate FindsNewest(adds: seq<MemEntry>, es: seq<MemEntry>, user: bytes) {
    && InOrder(EntryBefore, es)
    && (Newest(adds, user).None? ==> forall j :: 0 <= j < |es| ==> UserKey(es[j].ikey) != user)
    && (Newest(adds, user).Some? ==> exists i: nat :: FirstAt(es, user, i) && es[i] == adds[Newest(adds, user).value])
  }

  lemma FindsAdded(head: seq<MemEntry>, e: MemEntry, adds: seq<MemEntry>, es: seq<MemEntry>, user: bytes)
    requires adds == head + [e] && FindsNewest(head, es, user)
    ensures FindsNewest(adds, AddEntry(es, e), user)
  {
    assert adds[..|adds| - 1] == head;
    AddKeepsOrder(es, e);
    var before := Newest(head, user);
    if before.None? {
      FindsFirst(e, es, user, Find(EntryBefore, es, e));
    } else {
      var i: nat :| FirstAt(es, user, i) && es[i] == head[before.value];
      FindsAddedOver(head, e, adds, es, user, i);
    }
  }

  /** The first version of a key. */
  lemma FindsFirst(e: MemEntry, es: seq<MemEntry>, user: bytes, n: nat)
    requires n == Find(EntryBefore, es, e) && forall j :: 0 <= j < |es| ==> UserKey(es[j].ikey) != user
    ensures var out := AddEntry(es, e);
      if UserKey(e.ikey) == user then FirstAt(out, user, n) && out[n] == e
      else forall j :: 0 <= j < |out| ==> UserKey(out[j].ikey) != user
  {
    AddedAt(es, e, n);
  }

  lemma FindsAddedOver(head: seq<MemEntry>, e: MemEntry, adds: seq<MemEntry>, es: seq<MemEntry>, user: bytes, i: nat)
    requires adds == head + [e] && InOrder(EntryBefore, es) && Newest(head, user).Some?
    requires FirstAt(es, user, i) && es[i] == head[Newest(head, user).value]
    ensures exists k: nat :: FirstAt(AddEntry(es, e), user, k) && AddEntry(es, e)[k] == adds[Newest(adds, user).value]
  {
    assert adds[..|adds| - 1] == head;
    var n := Find(EntryBefore, es, e);
    if UserKey(e.ikey) != user {
      OtherFirst(es, e, user, i);
    } else if TagOf(e.ikey) >= TagOf(es[i].ikey) {
      NewerFirst(es, e, user, i, n);
    } else {
      LookupAddedOlder(es, e, user, i);
    }
  }

  lemma AddedAt(es: seq<MemEntry>, e: MemEntry, n: nat)
    requires n == Find(EntryBefore, es, e)
    ensures var out := AddEntry(es, e);
      && |out| == |es| + 1 && out[n] == e
      && (forall j :: 0 <= j < n ==> out[j] == es[j]) && (forall j :: n < j < |out| ==> out[j] == es[j - 1])
  {
  }

  /** Another key's first entry only moves up. */
  lemma OtherFirst(es: seq<MemEntry>, e: MemEntry, user: bytes, i: nat)
    requires FirstAt(es, user, i) && UserKey(e.ikey) != user
    ensures exists k: nat :: FirstAt(AddEntry(es, e), user, k) && AddEntry(es, e)[k] == es[i]
  {
    var n := Find(EntryBefore, es, e);
    AddedAt(es, e, n);
    OtherMoved(es, e, user, i, n, AddEntry(es, e), if i < n then i else i + 1);
  }

  lemma OtherMoved(es: seq<MemEntry>, e: MemEntry, user: bytes, i: nat, n: nat, out: seq<MemEntry>, k: nat)
    requires FirstAt(es, user, i) && UserKey(e.ikey) != user && n <= |es| && |out| == |es| + 1 && out[n] == e
    requires (forall j :: 0 <= j < n ==> out[j] == es[j]) && (forall j :: n < j < |out| ==> out[j] == es[j - 1])
    requires k == if i < n then i else i + 1
    ensures FirstAt(out, user, k) && out[k] == es[i]
  {
  }

  /** A version no older than the first one comes before it. */
  lemma NewerFirst(es: seq<MemEntry>, e: MemEntry, user: bytes, i: nat, n: nat)
    requires InOrder(EntryBefore, es) && FirstAt(es, user, i) && UserKey(e.ikey) == user
    requires TagOf(e.ikey) >= TagOf(es[i].ikey) && n == Find(EntryBefore, es, e)
    ensures FirstAt(AddEntry(es, e), user, n) && AddEntry(es, e)[n] == e
  {
    FirstIsGreatest(es, user, i);
    NoneBefore(es, e, n);
    AddedAt(es, e, n);
  }

  lemma FirstIsGreatest(es: seq<MemEntry>, user: bytes, i: nat)
    requires InOrder(EntryBefore, es) && FirstAt(es, user, i)
    ensures forall j :: 0 <= j < |es| && UserKey(es[j].ikey) == user ==> TagOf(es[j].ikey) <= TagOf(es[i].ikey)
  {
    forall j | 0 <= j < |es| && UserKey(es[j].ikey) == user ensures TagOf(es[j].ikey) <= TagOf(es[i].ikey) {
      if i < j {
        assert !EntryBefore(es[j], es[i]);
      }
    }
  }

  lemma {:induction false} AddsFindNewest(adds: seq<MemEntry>, user: bytes)
    ensures FindsNewest(adds, AddAll(adds), user)
    decreases |adds|
  {
    if adds != [] {
      var head := adds[..|adds| - 1];
      AddsFindNewest(head, user);
      Seqs.SnocLast(adds);
      FindsAdded(head, adds[|adds| - 1], adds, AddAll(head), user);
    }
  }

  /** After any additions in any order, `Get` tells what the version of greatest tag says, the latest added on ties. */
  lemma GetIsNewest(adds: seq<MemEntry>, user: bytes)
    ensures MemGet(AddAll(adds), user)
         == if Newest(adds, user).None? then NotFound else Answer(adds[Newest(adds, user).value])
  {
    AddsFindNewest(adds, user);
    var es := AddAll(adds);
    MemGetIsLookup(es, user);
    if Newest(adds, user).None? {
      LookupAbsent(es, user);
    } else {
      var i: nat :| FirstAt(es, user, i) && es[i] == adds[Newest(adds, user).value];
      LookupFirst(es, user, i);
    }
  }

  // ---------------------------------------------------------------- memory

  /** Key and value in one piece. */
  function RecordSize(e: Entry): nat {
    |e.ikey| + |e.value|
  }

  /** What an entry takes of the arena: its record and its node. */
  function EntrySize(e: Entry): nat {
    RecordSize(e) + NODE_SIZE
  }

  function EntrySizes(es: seq<Entry>): nat {
    if es == [] then 0 else EntrySizes(es[..|es| - 1]) + EntrySize(es[|es| - 1])
  }

  /** `ApproximateMemoryUsage` of a memtable of these entries: they, and the list's head. */
  function MemUsage(es: seq<Entry>): nat {
    NODE_SIZE + EntrySizes(es)
  }

  lemma {:induction false} SizesSplit(a: seq<Entry>, b: seq<Entry>)
    ensures EntrySizes(a + b) == EntrySizes(a) + EntrySizes(b)
    decreases |b|
  {
    if b == [] {
      Seqs.Nil(a);
    } else {
      Seqs.TakeRight(a, b, |a + b| - 1);
      SizesSplit(a, b[..|b| - 1]);
    }
  }

  lemma SizeOfOne(e: Entry)
    ensures EntrySizes([e]) == EntrySize(e)
  {
    assert [e][..0] == [];
  }

  /** An addition uses its entry's size, wherever it enters the order. */
  lemma UsageAdded(es: seq<MemEntry>, e: MemEntry)
    ensures MemUsage(AddEntry(es, e)) == MemUsage(es) + EntrySize(e)
  {
    var n := Find(EntryBefore, es, e);
    SizesSplit(es[..n] + [e], es[n..]);
    SizesSplit(es[..n], [e]);
    SizeOfOne(e);
    SizesSplit(es[..n], es[n..]);
    Seqs.Rejoin(es, n);
  }

  /** The arena has served aligned requests alone, and what `es` takes. */
  predicate Uses(arena: Arenas.State, es: seq<Entry>) {
    Arenas.NoCurrent(arena) && Arenas.Total(arena.blocks) == MemUsage(es)
  }

  lemma UsesNone(arena: Arenas.State)
    requires Arenas.Grown(Arenas.EMPTY, arena, NODE_SIZE)
    ensures Uses(arena, [])
  {
    Arenas.AlignedGrows(Arenas.EMPTY, arena, NODE_SIZE);
  }

  lemma UsesMore(before: Arenas.State, between: Arenas.State, after: Arenas.State, es: seq<MemEntry>, e: MemEntry)
    requires Uses(before, es) && Arenas.Grown(before, between, RecordSize(e))
    requires Arenas.Grown(between, after, NODE_SIZE)
    ensures Uses(after, AddEntry(es, e))
  {
    Arenas.AlignedGrows(before, between, RecordSize(e));
    Arenas.AlignedGrows(between, after, NODE_SIZE);
    UsageAdded(es, e);
  }

  // ---------------------------------------------------------------- the object

  method EmptyList(blank: MemEntry) returns (list: SkipList<MemEntry>)
    ensures fresh(list) && fresh(list.rng) && fresh(list.list)
    ensures list.Valid() && list.less == EntryBefore && Uses(list.arena, list.Contents()) && list.Contents() == []
  {
    EntryOrder();
    list := new SkipList(EntryBefore, blank);
    UsesNone(list.arena);
  }

  class MemTable {
    const table: SkipList<MemEntry>

    ghost predicate Valid()
      reads this, table, table.rng, table.list
    {
      table.Valid() && table.less == EntryBefore && Uses(table.arena, table.Contents())
    }

    /** The entries, in the order a flush writes them. */
    ghost function Entries(): (es: seq<MemEntry>)
      requires Valid()
      reads this, table, table.rng, table.list
      ensures InOrder(EntryBefore, es)
    {
      table.Contents()
    }

    constructor ()
      ensures Valid() && fresh(table) && fresh(table.rng) && fresh(table.list) && Entries() == []
    {
      var blank := HeadKey();
      var list := EmptyList(blank);
      table := list;
    }

    method Add(sequence: nat, kind: byte, key: bytes, value: bytes)
      requires Valid() && kind <= TYPE_VALUE
      modifies table, table.rng, table.list
      ensures Valid() && (forall x :: x in table.list ==> x in old(table.list) || fresh(x))
      ensures Entries() == AddEntry(old(Entries()), MakeEntry(sequence, kind, key, value))
    {
      Keep(MakeEntry(sequence, kind, key, value));
    }

    /** Key, tag and value go to the arena, then the entry to the list. */
    method Keep(e: MemEntry)
      requires Valid()
      modifies table, table.rng, table.list
      ensures Valid() && (forall x :: x in table.list ==> x in old(table.list) || fresh(x))
      ensures Entries() == AddEntry(old(Entries()), e)
    {
      ghost var es, before := Entries(), table.arena;
      table.AllocateKey(RecordSize(e));
      ghost var between := table.arena;
      table.Insert(e);
      UsesMore(before, between, table.arena, es, e);
    }

    /** The arena's total: what the entries take, whatever heights the list has drawn. */
    function ApproximateMemoryUsage(): (n: nat)
      requires Valid()
      reads this, table, table.rng, table.list
      ensures n == MemUsage(Entries())
    {
      Arenas.Total(table.arena.blocks)
    }

    method Get(user: bytes) returns (state: LookupState)
      requires Valid()
      ensures state == MemGet(Entries(), user) == Lookup(Entries(), user)
    {
      MemGetIsLookup(Entries(), user);
      var it := new Iterator(table);
      it.Seek(LookupKey(user));
      if it.node == null {
        return NotFound;
      }
      var e := it.Key();
      if UserKey(e.ikey) != user {
        return NotFound;
      }
      state := if TagOf(e.ikey) % 256 == TYPE_VALUE then Found(e.value) else Deleted;
    }
  }

  /** A memtable's contents as one value. */
  ghost function EntriesOf(mem: MemTable): Option<seq<MemEntry>>
    reads mem, mem.table, mem.table.rng, mem.table.list
  {
    if mem.Valid() then Some(mem.Entries()) else None
  }
}
