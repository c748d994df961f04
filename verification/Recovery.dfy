/** What a log's batches, replayed into a memtable, say about each key. */
module Recovery {
  import opened Bytes
  import opened Coding
  import opened DbFormat
  import opened WriteBatches
  import opened MemTables
  import opened SkipLists
  import opened Store
  import Seqs

  // ---------------------------------------------------------------- the last write to a key

  /** What the last of `ops` on `user` says. */
  function LastWrite(ops: seq<Op>, user: bytes): LookupState
    decreases |ops|
  {
    if ops == [] then NotFound
    else if ops[|ops| - 1].key == user then Told(ops[|ops| - 1])
    else LastWrite(ops[..|ops| - 1], user)
  }

  function Told(op: Op): LookupState {
    match op
    case Put(_, v) => Found(v)
    case Delete(_) => Deleted
  }

  /** An upper layer over a lower one. */
  function Resolve(upper: LookupState, lower: LookupState): LookupState {
    if upper.NotFound? then lower else upper
  }

  lemma {:induction false} LastWriteSplit(a: seq<Op>, b: seq<Op>, user: bytes)
    ensures LastWrite(a + b, user) == Resolve(LastWrite(b, user), LastWrite(a, user))
    decreases |b|
  {
    if b == [] {
      Seqs.Nil(a);
    } else {
      Seqs.TakeRight(a, b, |a + b| - 1);
      LastWriteSplit(a, b[..|b| - 1], user);
    }
  }

  function MapGet(m: map<bytes, bytes>, user: bytes): Option<bytes> {
    if user in m then Some(m[user]) else None
  }

  function Visible(state: LookupState): Option<bytes> {
    if state.Found? then Some(state.value) else None
  }

  /** On a plain map, too, the last write decides. */
  lemma {:induction false} ApplyLast(m: map<bytes, bytes>, ops: seq<Op>, user: bytes)
    ensures MapGet(Apply(m, ops), user)
         == if LastWrite(ops, user).NotFound? then MapGet(m, user) else Visible(LastWrite(ops, user))
    decreases |ops|
  {
    if ops != [] {
      ApplyLast(m, ops[..|ops| - 1], user);
    }
  }

  // ---------------------------------------------------------------- a batch replayed into a memtable

  /** Every tag is that of a sequence number below `bound`. */
  predicate TagsBelow(es: seq<MemEntry>, bound: nat) {
    forall j :: 0 <= j < |es| ==> TagOf(es[j].ikey) < bound * 256
  }

  predicate KeysIn(es: seq<MemEntry>, keys: set<bytes>) {
    forall j :: 0 <= j < |es| ==> UserKey(es[j].ikey) in keys
  }

  /** A memtable in order, of versions below `bound` of keys in `keys`, in which `user` looks up as `answer`. */
  ghost predicate Holds(es: seq<MemEntry>, bound: nat, keys: set<bytes>) {
    InOrder(EntryBefore, es) && TagsBelow(es, bound) && KeysIn(es, keys)
  }

  function EntryOf(sequence: nat, op: Op): MemEntry {
    match op
    case Put(k, v) => MakeEntry(sequence, TYPE_VALUE, k, v)
    case Delete(k) => MakeEntry(sequence, TYPE_DELETION, k, [])
  }

  lemma EntryOfOp(es: seq<MemEntry>, sequence: nat, op: Op)
    requires sequence <= MAX_SEQUENCE
    ensures var e := EntryOf(sequence, op);
      && AddOp(es, sequence, op) == MemTables.AddEntry(es, e)
      && UserKey(e.ikey) == op.key && Answer(e) == Told(op)
      && sequence * 256 <= TagOf(e.ikey) < (sequence + 1) * 256
  {
    InternalKeyRoundTrip(op.key, sequence, if op.Put? then TYPE_VALUE else TYPE_DELETION);
  }

  lemma AddBound(es: seq<MemEntry>, e: MemEntry, bound: nat, bound': nat, keys: set<bytes>)
    requires Holds(es, bound, keys) && bound <= bound' && TagOf(e.ikey) < bound' * 256 && UserKey(e.ikey) in keys
    ensures Holds(MemTables.AddEntry(es, e), bound', keys)
  {
    AddKeepsOrder(es, e);
    var n := Find(EntryBefore, es, e);
    var out := MemTables.AddEntry(es, e);
    forall j | 0 <= j < |out| ensures TagOf(out[j].ikey) < bound' * 256 && UserKey(out[j].ikey) in keys {
      assert out[j] == if j < n then es[j] else if j == n then e else es[j - 1];
    }
  }

  /** One replayed operation. */
  lemma AddOpHolds(es: seq<MemEntry>, sequence: nat, next: nat, op: Op, keys: set<bytes>, user: bytes)
    requires Holds(es, sequence, keys) && next == sequence + 1 && sequence <= MAX_SEQUENCE && op.key in keys
    ensures Holds(AddOp(es, sequence, op), next, keys)
    ensures Lookup(AddOp(es, sequence, op), user) == if op.key == user then Told(op) else Lookup(es, user)
  {
    var e := EntryOf(sequence, op);
    EntryOfOp(es, sequence, op);
    AddBound(es, e, sequence, next, keys);
    LookupAdded(es, e, user);
  }

  lemma {:induction false} CallsSnoc(start: nat, ops: seq<Op>, op: Op, last: nat)
    requires start < U64 && start + |ops| < U64 && last == start + |ops|
    ensures Calls(start, ops + [op]) == Calls(start, ops) + [Call(last, op)]
    decreases |ops|
  {
    var all := ops + [op];
    if ops == [] {
      assert all[1..] == [];
      Seqs.Nil([Call(start, op)]);
    } else {
      Seqs.DropLeft(ops, [op], 1);
      var next: nat := Next(start);
      CallsSnoc(next, ops[1..], op, last);
      Seqs.Assoc([Call(start, ops[0])], Calls(next, ops[1..]), [Call(last, op)]);
    }
  }

  lemma AddCallsSnoc(es: seq<MemEntry>, calls: seq<Call>, c: Call)
    ensures AddCalls(es, calls + [c]) == AddOp(AddCalls(es, calls), c.sequence, c.op)
  {
    assert (calls + [c])[..|calls|] == calls;
  }

  lemma CallsNone(es: seq<MemEntry>, start: nat)
    ensures AddCalls(es, Calls(start, [])) == es
  {
  }

  /** A batch above everything in the memtable: afterwards its last write to a key decides, and other keys are as
      before. */
  lemma {:induction false} AddBatch(es: seq<MemEntry>, start: nat, ops: seq<Op>, end: nat, keys: set<bytes>,
                                    user: bytes)
    requires Holds(es, start, keys) && end == start + |ops| && end <= MAX_SEQUENCE + 1 && KeysOf(ops) <= keys
    ensures Holds(AddCalls(es, Calls(start, ops)), end, keys)
    ensures Lookup(AddCalls(es, Calls(start, ops)), user) == Resolve(LastWrite(ops, user), Lookup(es, user))
    decreases |ops|
  {
    if ops == [] {
      CallsNone(es, start);
    } else {
      var head, op, mid: nat := ops[..|ops| - 1], ops[|ops| - 1], end - 1;
      KeysSplit(ops);
      AddBatch(es, start, head, mid, keys, user);
      Seqs.SnocLast(ops);
      CallsSnoc(start, head, op, mid);
      AddCallsSnoc(es, Calls(start, head), Call(mid, op));
      AddOpHolds(AddCalls(es, Calls(start, head)), mid, end, op, keys, user);
    }
  }

  lemma KeysSplit(ops: seq<Op>)
    requires ops != []
    ensures KeysOf(ops[..|ops| - 1]) <= KeysOf(ops) && ops[|ops| - 1].key in KeysOf(ops)
  {
    forall key | key in KeysOf(ops[..|ops| - 1]) ensures key in KeysOf(ops) {
      var i :| 0 <= i < |ops| - 1 && ops[..|ops| - 1][i].key == key;
      assert ops[i].key == key;
    }
  }

  // ---------------------------------------------------------------- a log's batches

  datatype Logged = Logged(start: nat, ops: seq<Op>)

  function RecordOf(b: Logged): bytes {
    Batch(b.start, b.ops)
  }

  function Encoded(bs: seq<Logged>): seq<bytes> {
    seq(|bs|, i requires 0 <= i < |bs| => RecordOf(bs[i]))
  }

  function OpsOf(bs: seq<Logged>): seq<Op> {
    if bs == [] then [] else OpsOf(bs[..|bs| - 1]) + bs[|bs| - 1].ops
  }

  function MemOf(bs: seq<Logged>): seq<MemEntry> {
    if bs == [] then [] else AddCalls(MemOf(bs[..|bs| - 1]), Calls(bs[|bs| - 1].start, bs[|bs| - 1].ops))
  }

  /** The greatest sequence number in use, or 0. */
  function MaxEnd(bs: seq<Logged>): nat {
    if bs == [] then 0
    else if bs[|bs| - 1].ops == [] then MaxEnd(bs[..|bs| - 1])
    else bs[|bs| - 1].start + |bs[|bs| - 1].ops| - 1
  }

  /** `b` may follow `bs`: it fits the format, and a non-empty one starts right after the last sequence number,
      or anywhere from 1 on when there is none yet. */
  predicate Follows(bs: seq<Logged>, b: Logged) {
    && OpsFit(b.ops) && 1 <= b.start && b.start + |b.ops| <= MAX_SEQUENCE + 1
    && (b.ops != [] && MaxEnd(bs) > 0 ==> b.start == MaxEnd(bs) + 1)
  }

  /** Back-to-back sequence ranges. */
  predicate Chained(bs: seq<Logged>) {
    bs == [] || (Chained(bs[..|bs| - 1]) && Follows(bs[..|bs| - 1], bs[|bs| - 1]))
  }

  lemma Snoc(bs: seq<Logged>, b: Logged)
    ensures Encoded(bs + [b]) == Encoded(bs) + [RecordOf(b)]
    ensures OpsOf(bs + [b]) == OpsOf(bs) + b.ops
    ensures MemOf(bs + [b]) == AddCalls(MemOf(bs), Calls(b.start, b.ops))
    ensures MaxEnd(bs + [b]) == if b.ops == [] then MaxEnd(bs) else b.start + |b.ops| - 1
    ensures Chained(bs + [b]) <==> Chained(bs) && Follows(bs, b)
  {
    assert (bs + [b])[..|bs|] == bs;
  }

  lemma MaxEndBound(bs: seq<Logged>)
    requires Chained(bs)
    ensures MaxEnd(bs) <= MAX_SEQUENCE
  {
    if bs != [] {
      MaxEndBound(bs[..|bs| - 1]);
    }
  }

  /** In a chained log the rebuilt memtable holds, for each key, its last write. */
  lemma {:induction false} MemHolds(bs: seq<Logged>, keys: set<bytes>, user: bytes)
    requires Chained(bs) && KeysOf(OpsOf(bs)) <= keys
    ensures Holds(MemOf(bs), MaxEnd(bs) + 1, keys)
    ensures Lookup(MemOf(bs), user) == LastWrite(OpsOf(bs), user)
    decreases |bs|
  {
    if bs != [] {
      var head, b := bs[..|bs| - 1], bs[|bs| - 1];
      KeysOfSplit(OpsOf(head), b.ops);
      MemHolds(head, keys, user);
      LastWriteSplit(OpsOf(head), b.ops, user);
      MemHoldsMore(head, b, keys, user);
    }
  }

  lemma KeysOfSplit(a: seq<Op>, b: seq<Op>)
    ensures KeysOf(a + b) == KeysOf(a) + KeysOf(b)
  {
    forall i | 0 <= i < |a + b| ensures (a + b)[i].key in KeysOf(a) + KeysOf(b) {
      assert i < |a| ==> (a + b)[i] == a[i];
      assert i >= |a| ==> (a + b)[i] == b[i - |a|];
    }
    forall i | 0 <= i < |a| ensures a[i].key in KeysOf(a + b) {
      assert (a + b)[i] == a[i];
    }
    forall i | 0 <= i < |b| ensures b[i].key in KeysOf(a + b) {
      assert (a + b)[|a| + i] == b[i];
    }
  }

  lemma MemHoldsMore(head: seq<Logged>, b: Logged, keys: set<bytes>, user: bytes)
    requires Holds(MemOf(head), MaxEnd(head) + 1, keys) && Follows(head, b) && KeysOf(b.ops) <= keys
    ensures var es := AddCalls(MemOf(head), Calls(b.start, b.ops));
      && Holds(es, if b.ops == [] then MaxEnd(head) + 1 else b.start + |b.ops|, keys)
      && Lookup(es, user) == Resolve(LastWrite(b.ops, user), Lookup(MemOf(head), user))
  {
    if b.ops == [] {
      CallsNone(MemOf(head), b.start);
    } else {
      Raise(MemOf(head), MaxEnd(head) + 1, b.start, keys);
      AddBatch(MemOf(head), b.start, b.ops, b.start + |b.ops|, keys, user);
    }
  }

  lemma Raise(es: seq<MemEntry>, bound: nat, bound': nat, keys: set<bytes>)
    requires Holds(es, bound, keys) && bound <= bound'
    ensures Holds(es, bound', keys)
  {
  }

  // ---------------------------------------------------------------- recovery rebuilds the memtable

  lemma RecoverRecord(record: bytes, rest: seq<bytes>, calls: seq<Call>, es: seq<MemEntry>, lastSeq: nat, lastSeq': nat)
    requires |record| >= HEADER && ReplayBatch(record) == (calls, WriteBatches.Ok)
      && LaterOf(lastSeq, record) == lastSeq'
    ensures Recovered([record] + rest, es, lastSeq) == Recovered(rest, AddCalls(es, calls), lastSeq')
  {
    assert ([record] + rest)[1..] == rest;
  }

  /** The last sequence number after one more batch. */
  function EndAfter(lastSeq: nat, b: Logged): nat {
    if b.ops != [] && b.start + |b.ops| - 1 > lastSeq then b.start + |b.ops| - 1 else lastSeq
  }

  lemma LaterOfBatch(lastSeq: nat, record: bytes, start: nat, n: nat)
    requires |record| >= HEADER && Sequence(record) == start && Count(record) == n
    requires start >= 1 && start + n <= MAX_SEQUENCE + 1
    ensures LaterOf(lastSeq, record) == if n > 0 && start + n - 1 > lastSeq then start + n - 1 else lastSeq
  {
  }

  lemma BatchLength(b: Logged)
    ensures |RecordOf(b)| >= HEADER
  {
  }

  lemma RecoverOne(b: Logged, rest: seq<bytes>, es: seq<MemEntry>, lastSeq: nat)
    requires OpsFit(b.ops) && 1 <= b.start && b.start + |b.ops| <= MAX_SEQUENCE + 1
    ensures Recovered([RecordOf(b)] + rest, es, lastSeq)
         == Recovered(rest, AddCalls(es, Calls(b.start, b.ops)), EndAfter(lastSeq, b))
  {
    BatchLength(b);
    IterateRoundTrip(b.start, b.ops);
    LaterOfBatch(lastSeq, RecordOf(b), b.start, |b.ops|);
    RecoverRecord(RecordOf(b), rest, Calls(b.start, b.ops), es, lastSeq, EndAfter(lastSeq, b));
  }

  /** Recovery that stands after `bs[..n]`, with the records of the rest to come, ends as after all of `bs`. */
  ghost predicate Rebuilds(bs: seq<Logged>, n: nat)
    requires n <= |bs|
  {
    Recovered(Encoded(bs)[n..], MemOf(bs[..n]), MaxEnd(bs[..n])) == Some((MemOf(bs), MaxEnd(bs)))
  }

  lemma RebuildsLast(bs: seq<Logged>, n: nat)
    requires n == |bs|
    ensures Rebuilds(bs, n)
  {
    Seqs.TakeAll(bs);
  }

  lemma RebuildsMore(bs: seq<Logged>, n: nat, m: nat)
    requires m == n + 1 <= |bs| && Follows(bs[..n], bs[n]) && Rebuilds(bs, m)
    ensures Rebuilds(bs, n)
  {
    RebuildParts(bs, n, m);
    RebuildOne(bs[..n], bs[n], bs[..m], Encoded(bs)[m..], Encoded(bs)[n..]);
  }

  lemma RebuildParts(bs: seq<Logged>, n: nat, m: nat)
    requires m == n + 1 <= |bs|
    ensures bs[..m] == bs[..n] + [bs[n]] && Encoded(bs)[n..] == [RecordOf(bs[n])] + Encoded(bs)[m..]
  {
  }

  /** One more record takes recovery from after `head` to after `longer`. */
  lemma RebuildOne(head: seq<Logged>, b: Logged, longer: seq<Logged>, rest: seq<bytes>, all: seq<bytes>)
    requires Follows(head, b) && longer == head + [b] && all == [RecordOf(b)] + rest
    ensures Recovered(all, MemOf(head), MaxEnd(head)) == Recovered(rest, MemOf(longer), MaxEnd(longer))
  {
    Snoc(head, b);
    RecoverOne(b, rest, MemOf(head), MaxEnd(head));
  }

  lemma {:induction false} RecoverFrom(bs: seq<Logged>, n: nat)
    requires Chained(bs) && n <= |bs|
    ensures Rebuilds(bs, n)
    decreases |bs| - n
  {
    if n == |bs| {
      RebuildsLast(bs, n);
    } else {
      ChainedAt(bs, n);
      RecoverFrom(bs, n + 1);
      RebuildsMore(bs, n, n + 1);
    }
  }

  lemma {:induction false} ChainedAt(bs: seq<Logged>, n: nat)
    requires Chained(bs) && n < |bs|
    ensures Chained(bs[..n]) && Follows(bs[..n], bs[n])
    decreases |bs|
  {
    var head := bs[..|bs| - 1];
    if n < |head| {
      ChainedAt(head, n);
      assert head[..n] == bs[..n];
    }
  }

  /** `Recover` over a chained log rebuilds its memtable and its greatest sequence number, without an error. */
  lemma RecoverAll(bs: seq<Logged>)
    requires Chained(bs)
    ensures Recovered(Encoded(bs), [], 0) == Some((MemOf(bs), MaxEnd(bs)))
  {
    RecoverFrom(bs, 0);
    assert bs[..0] == [];
    Seqs.DropNone(Encoded(bs));
  }
}
