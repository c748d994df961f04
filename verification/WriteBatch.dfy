/** Write batches: an operation list as one byte string (src/db/write_batch.cc). */
module WriteBatches {
  import opened Bytes
  import opened Coding
  import opened DbFormat
  import Seqs

  datatype Op = Put(key: bytes, value: bytes) | Delete(key: bytes)

  /** One call on the replay handler. */
  datatype Call = Call(sequence: nat, op: Op)

  datatype Status = Ok | Corruption

  const HEADER: nat := 12
  const I32: nat := 0x8000_0000

  function EncodeOp(op: Op): bytes {
    match op
    case Put(k, v) => [TYPE_VALUE] + Prefixed(k) + Prefixed(v)
    case Delete(k) => [TYPE_DELETION] + Prefixed(k)
  }

  function EncodeOps(ops: seq<Op>): bytes {
    if ops == [] then [] else EncodeOp(ops[0]) + EncodeOps(ops[1..])
  }

  /** The encoding of `ops` starting at sequence number `start`. */
  function Batch(start: nat, ops: seq<Op>): bytes {
    Fixed(start, 8) + Fixed(|ops|, 4) + EncodeOps(ops)
  }

  /** Sizes that a 32-bit length can carry. */
  predicate OpFits(op: Op) {
    |op.key| < U32 && (op.Put? ==> |op.value| < U32)
  }

  predicate OpsFit(ops: seq<Op>) {
    |ops| < I32 && forall i :: 0 <= i < |ops| ==> OpFits(ops[i])
  }

  /** `seq++` in 64 bits. */
  function Next(sequence: nat): nat {
    (sequence + 1) % U64
  }

  /** Consecutive sequence numbers, one per operation. */
  function Calls(start: nat, ops: seq<Op>): seq<Call>
    decreases |ops|
  {
    if ops == [] then [] else [Call(start, ops[0])] + Calls(Next(start), ops[1..])
  }

  /** The `i`-th operation gets the `i`-th number from `start`. */
  lemma {:induction false} CallsAt(start: nat, ops: seq<Op>, i: nat)
    requires i < |ops| && start + i < U64
    ensures |Calls(start, ops)| == |ops| && Calls(start, ops)[i] == Call(start + i, ops[i])
    decreases |ops|
  {
    var next: nat := Next(start);
    CallsLength(next, ops[1..]);
    if i > 0 {
      CallsAt(next, ops[1..], i - 1);
    }
  }

  lemma {:induction false} CallsLength(start: nat, ops: seq<Op>)
    ensures |Calls(start, ops)| == |ops|
    decreases |ops|
  {
    if ops != [] {
      CallsLength(Next(start), ops[1..]);
    }
  }

  // ---------------------------------------------------------------- decoding

  function ParseOp(input: bytes): (r: Option<(Op, bytes)>)
    requires input != []
    ensures r.Some? ==> |r.value.1| < |input|
  {
    if input[0] == TYPE_VALUE then
      var key := GetPrefixed(input[1..]);
      if key.None? then None else
      var value := GetPrefixed(key.value.1);
      if value.None? then None else Some((Put(key.value.0, value.value.0), value.value.1))
    else if input[0] == TYPE_DELETION then
      var key := GetPrefixed(input[1..]);
      if key.None? then None else Some((Delete(key.value.0), key.value.1))
    else None
  }

  /** A replay that has already made `calls`. */
  function After(calls: seq<Call>, r: (seq<Call>, Status)): (seq<Call>, Status) {
    (calls + r.0, r.1)
  }

  /** The calls made and the status returned, `remaining` being the quota left. */
  function Replay(input: bytes, next: nat, remaining: nat): (seq<Call>, Status)
    decreases |input|
  {
    if input == [] then ([], if remaining == 0 then Ok else Corruption)
    else if remaining == 0 then ([], Corruption)
    else
      var parsed := ParseOp(input);
      if parsed.None? then ([], Corruption)
      else After([Call(next, parsed.value.0)], Replay(parsed.value.1, Next(next), Pred(remaining)))
  }

  function Sequence(rep: bytes): nat
    requires |rep| >= HEADER
  {
    FromFixed(rep[..8])
  }

  /** The header's count as a C `int`. */
  function Count(rep: bytes): int
    requires |rep| >= HEADER
  {
    var n := FromFixed(rep[8..12]);
    if n < I32 then n else n - U32
  }

  /** `static_cast<uint64_t>(Count())` sign-extends. */
  function Quota(rep: bytes): nat
    requires |rep| >= HEADER
    ensures Quota(rep) < U64 && (Count(rep) >= 0 ==> Quota(rep) == Count(rep))
  {
    FixedOnto(rep[8..12]);
    Powers();
    if Count(rep) >= 0 then Count(rep) else Count(rep) + U64
  }

  /** The count is the header's 32 bits as a signed number, and the quota is the count's 64 bits as an unsigned one. */
  lemma CountIsSigned(rep: bytes)
    requires |rep| >= 12
    ensures -0x8000_0000 <= Count(rep) < 0x8000_0000
    ensures FromFixed(rep[8..12]) == Count(rep) % 0x1_0000_0000 && Quota(rep) == Count(rep) % 0x1_0000_0000_0000_0000
  {
    FixedOnto(rep[8..12]);
    Powers();
  }

  function ReplayBatch(rep: bytes): (seq<Call>, Status)
    requires |rep| >= HEADER
  {
    Replay(rep[HEADER..], Sequence(rep), Quota(rep))
  }

  lemma ParseOpRoundTrip(op: Op, rest: bytes)
    requires OpFits(op)
    ensures EncodeOp(op) + rest != [] && ParseOp(EncodeOp(op) + rest) == Some((op, rest))
  {
    match op {
      case Put(k, v) => ParsePut(k, v, rest);
      case Delete(k) => ParseDelete(k, rest);
    }
  }

  lemma ParsePut(k: bytes, v: bytes, rest: bytes)
    requires OpFits(Put(k, v))
    ensures EncodeOp(Put(k, v)) + rest != [] && ParseOp(EncodeOp(Put(k, v)) + rest) == Some((Put(k, v), rest))
  {
    Seqs.Uncons2(TYPE_VALUE, Prefixed(k), Prefixed(v), rest);
    PrefixedRoundTrip(k, Prefixed(v) + rest);
    PrefixedRoundTrip(v, rest);
  }

  lemma ParseDelete(k: bytes, rest: bytes)
    requires OpFits(Delete(k))
    ensures EncodeOp(Delete(k)) + rest != [] && ParseOp(EncodeOp(Delete(k)) + rest) == Some((Delete(k), rest))
  {
    Seqs.Uncons(TYPE_DELETION, Prefixed(k), rest);
    PrefixedRoundTrip(k, rest);
  }

  /** What is left of a cut `[x] + a + b`, after its first byte. */
  lemma CutTail(x: byte, a: bytes, b: bytes, c: nat)
    requires 0 < c < 1 + |a| + |b|
    ensures ([x] + a + b)[..c][0] == x
    ensures ([x] + a + b)[..c][1..] == if c - 1 < |a| then a[..c - 1] else a + b[..c - 1 - |a|]
  {
  }

  lemma ParseOpCut(op: Op, c: nat)
    requires OpFits(op) && 0 < c < |EncodeOp(op)|
    ensures ParseOp(EncodeOp(op)[..c]) == None
  {
    match op {
      case Put(k, v) => ParsePutCut(k, v, Prefixed(k), Prefixed(v), c);
      case Delete(k) =>
        CutTail(TYPE_DELETION, Prefixed(k), [], c);
        Seqs.Nil([TYPE_DELETION] + Prefixed(k));
        PrefixedCut(k, c - 1);
    }
  }

  lemma ParsePutCut(k: bytes, v: bytes, pk: bytes, pv: bytes, c: nat)
    requires |k| < U32 && |v| < U32 && pk == Prefixed(k) && pv == Prefixed(v)
    requires 0 < c < 1 + |pk| + |pv|
    ensures ParseOp(([TYPE_VALUE] + pk + pv)[..c]) == None
  {
    CutTail(TYPE_VALUE, pk, pv, c);
    if c - 1 < |pk| {
      PrefixedCut(k, c - 1);
    } else {
      var d := c - 1 - |pk|;
      PrefixedRoundTrip(k, pv[..d]);
      PrefixedCut(v, d);
    }
  }

  function Advance(start: nat, n: nat): nat {
    (start + n) % U64
  }

  lemma ReplayStep(input: bytes, op: Op, rest: bytes, next: nat, remaining: nat, following: nat, left: nat)
    requires input != [] && remaining > 0 && ParseOp(input) == Some((op, rest))
    requires following == Next(next) && left == Pred(remaining)
    ensures Replay(input, next, remaining) == After([Call(next, op)], Replay(rest, following, left))
  {
  }

  lemma ReplayMore(calls: seq<Call>, input: bytes, op: Op, rest: bytes, next: nat, remaining: nat, following: nat,
                   left: nat)
    requires input != [] && remaining > 0 && ParseOp(input) == Some((op, rest))
    requires following == Next(next) && left == Pred(remaining)
    ensures After(calls, Replay(input, next, remaining))
      == After(calls + [Call(next, op)], Replay(rest, following, left))
  {
    ReplayStep(input, op, rest, next, remaining, following, left);
    Seqs.Assoc(calls, [Call(next, op)], Replay(rest, following, left).0);
  }

  lemma EncodeOpsCons(ops: seq<Op>, rest: bytes)
    requires ops != []
    ensures EncodeOps(ops) + rest == EncodeOp(ops[0]) + (EncodeOps(ops[1..]) + rest)
  {
    Seqs.Assoc(EncodeOp(ops[0]), EncodeOps(ops[1..]), rest);
  }

  lemma CallsCons(start: nat, next: nat, ops: seq<Op>, tail: seq<Op>, r: (seq<Call>, Status))
    requires ops != [] && tail == ops[1..] && next == Next(start)
    ensures After([Call(start, ops[0])], After(Calls(next, tail), r)) == After(Calls(start, ops), r)
  {
    Seqs.Assoc([Call(start, ops[0])], Calls(next, tail), r.0);
  }

  lemma AdvanceStep(start: nat, next: nat, n: nat, m: nat)
    requires n == m + 1 && start < U64 && next == Next(start)
    ensures Advance(next, m) == Advance(start, n)
  {
  }

  lemma OpsFitTail(ops: seq<Op>)
    requires ops != [] && OpsFit(ops)
    ensures OpFits(ops[0]) && OpsFit(ops[1..])
  {
  }

  lemma AdvanceNone(start: nat)
    requires start < U64
    ensures Advance(start, 0) == start
  {
  }

  lemma AfterNone(r: (seq<Call>, Status))
    ensures After([], r) == r
  {
    Seqs.Nil(r.0);
  }

  /** Replaying the encoding of `ops` makes its calls and goes on with `rest`. */
  ghost predicate Replays(ops: seq<Op>, rest: bytes, start: nat, remaining: nat, left: nat) {
    Replay(EncodeOps(ops) + rest, start, remaining)
    == After(Calls(start, ops), Replay(rest, Advance(start, |ops|), left))
  }

  lemma ReplayNone(ops: seq<Op>, rest: bytes, start: nat, remaining: nat, left: nat)
    requires ops == [] && start < U64 && remaining == left
    ensures Replays(ops, rest, start, remaining, left)
  {
    Seqs.Nil(rest);
    AdvanceNone(start);
    AfterNone(Replay(rest, start, remaining));
  }

  lemma ReplayCons(ops: seq<Op>, tail: seq<Op>, rest: bytes, start: nat, next: nat, remaining: nat, more: nat,
                   left: nat)
    requires ops != [] && OpsFit(ops) && start < U64 && remaining == |ops| + left
    requires tail == ops[1..] && next == Next(start) && more == Pred(remaining)
    requires Replays(tail, rest, next, more, left)
    ensures Replays(ops, rest, start, remaining, left)
  {
    OpsFitTail(ops);
    AdvanceStep(start, next, |ops|, |tail|);
    ReplayFirst(ops, tail, rest, start, next, remaining, more);
    CallsCons(start, next, ops, tail, Replay(rest, Advance(next, |tail|), left));
  }

  lemma {:induction false} ReplayOps(ops: seq<Op>, rest: bytes, start: nat, remaining: nat, left: nat)
    requires OpsFit(ops) && start < U64 && remaining == |ops| + left
    ensures Replays(ops, rest, start, remaining, left)
    decreases |ops|
  {
    if ops == [] {
      ReplayNone(ops, rest, start, remaining, left);
    } else {
      var tail := ops[1..];
      var next: nat, more: nat := Next(start), Pred(remaining);
      OpsFitTail(ops);
      ReplayOps(tail, rest, next, more, left);
      ReplayCons(ops, tail, rest, start, next, remaining, more, left);
    }
  }

  lemma ReplayFirst(ops: seq<Op>, tail: seq<Op>, rest: bytes, start: nat, next: nat, remaining: nat, more: nat)
    requires ops != [] && OpFits(ops[0]) && remaining > 0
    requires tail == ops[1..] && next == Next(start) && more == Pred(remaining)
    ensures Replay(EncodeOps(ops) + rest, start, remaining)
         == After([Call(start, ops[0])], Replay(EncodeOps(tail) + rest, next, more))
  {
    var after := EncodeOps(tail) + rest;
    EncodeOpsCons(ops, rest);
    ParseOpRoundTrip(ops[0], after);
    ReplayStep(EncodeOp(ops[0]) + after, ops[0], after, start, remaining, next, more);
  }

  lemma HeaderParts(a: bytes, b: bytes, tail: bytes)
    requires |a| == 8 && |b| == 4
    ensures var rep := a + b + tail; rep[..8] == a && rep[8..12] == b && rep[HEADER..] == tail
  {
  }

  /** `rep` starts with the header of a batch of `n` operations from `start` on, followed by `tail`. */
  ghost predicate Headed(rep: bytes, start: nat, n: nat, tail: bytes) {
    && |rep| >= HEADER && Sequence(rep) == start && Count(rep) == n && Quota(rep) == n && rep[HEADER..] == tail
  }

  lemma BatchHeader(start: nat, n: nat, tail: bytes)
    requires n < I32 && start < U64
    ensures Headed(Fixed(start, 8) + Fixed(n, 4) + tail, start, n, tail)
  {
    HeaderParts(Fixed(start, 8), Fixed(n, 4), tail);
    Fixed64RoundTrip(start);
    Fixed32RoundTrip(n);
  }

  lemma ReplayHeaded(rep: bytes, start: nat, n: nat, ops: seq<Op>, rest: bytes)
    requires OpsFit(ops) && start < U64 && |ops| <= n && Headed(rep, start, n, EncodeOps(ops) + rest)
    ensures ReplayBatch(rep) == After(Calls(start, ops), Replay(rest, Advance(start, |ops|), n - |ops|))
  {
    ReplayOps(ops, rest, start, n, n - |ops|);
  }

  /** `Iterate` over an encoding replays exactly its operations, with consecutive sequence numbers. */
  lemma IterateRoundTrip(start: nat, ops: seq<Op>)
    requires OpsFit(ops) && start < U64
    ensures ReplayBatch(Batch(start, ops)) == (Calls(start, ops), Ok)
    ensures Sequence(Batch(start, ops)) == start && Count(Batch(start, ops)) == |ops|
  {
    BatchHeader(start, |ops|, EncodeOps(ops));
    Seqs.Nil(EncodeOps(ops));
    ReplayHeaded(Batch(start, ops), start, |ops|, ops, []);
    Seqs.Nil(Calls(start, ops));
  }

  /** Anything after the last operation is reported. */
  lemma IterateExtended(start: nat, ops: seq<Op>, extra: bytes)
    requires OpsFit(ops) && start < U64 && extra != []
    ensures ReplayBatch(Batch(start, ops) + extra) == (Calls(start, ops), Corruption)
  {
    Seqs.Assoc(Fixed(start, 8) + Fixed(|ops|, 4), EncodeOps(ops), extra);
    BatchHeader(start, |ops|, EncodeOps(ops) + extra);
    ReplayHeaded(Batch(start, ops) + extra, start, |ops|, ops, extra);
    Seqs.Nil(Calls(start, ops));
  }

  /** A tag that is neither a deletion's nor a value's ends the replay with an error, whatever follows it. */
  lemma IterateUnknown(start: nat, ops: seq<Op>, n: nat, tag: byte, rest: bytes)
    requires OpsFit(ops) && start < U64 && |ops| < n < I32 && tag >= 2
    ensures ReplayBatch(Fixed(start, 8) + Fixed(n, 4) + EncodeOps(ops) + [tag] + rest)
         == (Calls(start, ops), Corruption)
  {
    var head, tail := Fixed(start, 8) + Fixed(n, 4), [tag] + rest;
    Seqs.Assoc(head + EncodeOps(ops), [tag], rest);
    Seqs.Assoc(head, EncodeOps(ops), tail);
    BatchHeader(start, n, EncodeOps(ops) + tail);
    ReplayHeaded(head + (EncodeOps(ops) + tail), start, n, ops, tail);
    Seqs.Nil(Calls(start, ops));
  }

  /** The calls replayed carry consecutive numbers from `next` on, and there are as many as announced if all went
      well. */
  ghost predicate Numbered(r: (seq<Call>, Status), next: nat, remaining: nat) {
    && |r.0| <= remaining && (r.1 == Ok ==> |r.0| == remaining)
    && forall i :: 0 <= i < |r.0| ==> r.0[i].sequence == Advance(next, i)
  }

  lemma AdvanceAll(next: nat, following: nat, n: nat)
    requires following == Next(next)
    ensures forall i: nat :: i < n ==> Advance(following, i) == Advance(next, i + 1)
  {
  }

  lemma {:induction false} ReplayCounts(input: bytes, next: nat, remaining: nat)
    requires next < U64
    ensures Numbered(Replay(input, next, remaining), next, remaining)
    decreases |input|
  {
    if input != [] && remaining > 0 && ParseOp(input).Some? {
      var op, rest := ParseOp(input).value.0, ParseOp(input).value.1;
      var following: nat, left: nat := Next(next), Pred(remaining);
      ReplayStep(input, op, rest, next, remaining, following, left);
      ReplayCounts(rest, following, left);
      NumberedMore(Replay(rest, following, left), op, next, following, remaining, left);
    }
  }

  lemma NumberedMore(r: (seq<Call>, Status), op: Op, next: nat, following: nat, remaining: nat, left: nat)
    requires next < U64 && following == Next(next) && remaining == left + 1 && Numbered(r, following, left)
    ensures Numbered(After([Call(next, op)], r), next, remaining)
  {
    AdvanceAll(next, following, |r.0|);
    AdvanceNone(next);
  }

  lemma SequenceFits(rep: bytes)
    requires |rep| >= HEADER
    ensures Sequence(rep) < U64
  {
    FixedOnto(rep[..8]);
    Powers();
  }

  lemma NumberedMeans(r: (seq<Call>, Status), next: nat, remaining: nat)
    requires Numbered(r, next, remaining)
    ensures forall i :: 0 <= i < |r.0| ==> r.0[i].sequence == (next + i) % U64
  {
  }

  /** The same of any bytes: only what the header announces is called, and no less without an error. */
  lemma IterateCounts(rep: bytes)
    requires |rep| >= HEADER
    ensures var r := ReplayBatch(rep);
      && |r.0| <= Quota(rep) && (r.1 == Ok ==> |r.0| == Quota(rep))
      && forall i :: 0 <= i < |r.0| ==> r.0[i].sequence == (Sequence(rep) + i) % U64
  {
    SequenceFits(rep);
    ReplayCounts(rep[HEADER..], Sequence(rep), Quota(rep));
    NumberedMeans(ReplayBatch(rep), Sequence(rep), Quota(rep));
  }

  /** The bytes of an operation with short strings. */
  lemma ShortOps(key: bytes, value: bytes)
    requires |key| < 128 && |value| < 128
    ensures EncodeOp(Put(key, value)) == [1, |key|] + key + [|value|] + value
    ensures EncodeOp(Delete(key)) == [0, |key|] + key
  {
  }

  lemma {:induction false} EncodeOpsSplit(a: seq<Op>, b: seq<Op>)
    ensures EncodeOps(a + b) == EncodeOps(a) + EncodeOps(b)
    decreases |a|
  {
    if a == [] {
      Seqs.Nil(b);
      Seqs.Nil(EncodeOps(b));
    } else {
      Seqs.DropLeft(a, b, 1);
      EncodeOpsSplit(a[1..], b);
      Seqs.Assoc(EncodeOp(a[0]), EncodeOps(a[1..]), EncodeOps(b));
    }
  }

  /** A cut of an encoded list falls inside, or right before, one of its operations. */
  lemma {:induction false} LocateCut(ops: seq<Op>, c: nat) returns (m: nat, d: nat)
    requires c < |EncodeOps(ops)|
    ensures m < |ops| && d < |EncodeOp(ops[m])|
    ensures EncodeOps(ops)[..c] == EncodeOps(ops[..m]) + EncodeOp(ops[m])[..d]
    decreases |ops|
  {
    var head, tail := EncodeOp(ops[0]), EncodeOps(ops[1..]);
    if c < |head| {
      m, d := 0, c;
      Seqs.TakeLeft(head, tail, c);
      Seqs.Nil(head[..c]);
    } else {
      m, d := LocateCut(ops[1..], c - |head|);
      Seqs.TakeRight(head, tail, c);
      LocateCons(ops, m, EncodeOp(ops[1..][m])[..d]);
      m := m + 1;
    }
  }

  lemma LocateCons(ops: seq<Op>, m: nat, part: bytes)
    requires m + 1 < |ops|
    ensures EncodeOp(ops[0]) + (EncodeOps(ops[1..][..m]) + part) == EncodeOps(ops[..m + 1]) + part
  {
    Seqs.Assoc(EncodeOp(ops[0]), EncodeOps(ops[1..][..m]), part);
    assert ops[..m + 1][1..] == ops[1..][..m];
  }

  lemma ReplayCut(rep: bytes, start: nat, n: nat, ops: seq<Op>, op: Op, d: nat)
    requires OpsFit(ops) && OpFits(op) && start < U64 && |ops| < n && d < |EncodeOp(op)|
    requires Headed(rep, start, n, EncodeOps(ops) + EncodeOp(op)[..d])
    ensures ReplayBatch(rep) == (Calls(start, ops), Corruption)
  {
    var rest := EncodeOp(op)[..d];
    ReplayHeaded(rep, start, n, ops, rest);
    if d > 0 {
      ParseOpCut(op, d);
    }
    Seqs.Nil(Calls(start, ops));
  }

  lemma OpsFitTake(ops: seq<Op>, m: nat)
    requires OpsFit(ops) && m < |ops|
    ensures OpsFit(ops[..m]) && OpFits(ops[m])
  {
  }

  /** A batch cut anywhere after its header replays whole operations only, and is reported. */
  lemma IterateCut(start: nat, ops: seq<Op>, c: nat) returns (m: nat)
    requires OpsFit(ops) && start < U64 && HEADER <= c < |Batch(start, ops)|
    ensures m < |ops| && ReplayBatch(Batch(start, ops)[..c]) == (Calls(start, ops[..m]), Corruption)
  {
    var n, header, body, c' := |ops|, Fixed(start, 8) + Fixed(|ops|, 4), EncodeOps(ops), c - HEADER;
    var d: nat;
    m, d := LocateCut(ops, c');
    Seqs.TakeRight(header, body, c);
    BatchHeader(start, n, body[..c']);
    OpsFitTake(ops, m);
    ReplayCut(Batch(start, ops)[..c], start, n, ops[..m], ops[m], d);
  }

  // ---------------------------------------------------------------- building

  /** What `Put` and `Delete` do to the representation. */
  function AppendOp(rep: bytes, op: Op): bytes
    requires |rep| >= HEADER
  {
    rep[..8] + Fixed((Count(rep) + 1) % U32, 4) + rep[HEADER..] + EncodeOp(op)
  }

  lemma PatchHeader(rep: bytes, count: bytes, op: bytes)
    requires |rep| >= HEADER
    ensures (rep + op)[..8] + count + (rep + op)[HEADER..] == rep[..8] + count + rep[HEADER..] + op
  {
    Seqs.TakeLeft(rep, op, 8);
    Seqs.DropLeft(rep, op, HEADER);
    Seqs.Assoc(rep[..8] + count, rep[HEADER..], op);
  }

  lemma AppendOpParts(rep: bytes, n: nat, first: bytes, body: bytes, op: Op)
    requires |rep| >= HEADER && (Count(rep) + 1) % U32 == n && rep[..8] == first && rep[HEADER..] == body
    ensures AppendOp(rep, op) == first + Fixed(n, 4) + body + EncodeOp(op)
  {
  }

  lemma BatchParts(start: nat, ops: seq<Op>, n: nat, header: bytes, body: bytes, last: bytes)
    requires n == |ops| && header == Fixed(start, 8) + Fixed(n, 4) && EncodeOps(ops) == body + last
    ensures Batch(start, ops) == header + body + last
  {
    Seqs.Assoc(header, body, last);
  }

  lemma EncodeOpsLast(ops: seq<Op>, op: Op)
    ensures EncodeOps(ops + [op]) == EncodeOps(ops) + EncodeOp(op)
  {
    EncodeOpsSplit(ops, [op]);
    EncodeOpsOne(op);
  }

  /** Appending to an encoding encodes the longer list. */
  lemma AppendOpBatch(start: nat, ops: seq<Op>, op: Op)
    requires OpsFit(ops) && |ops| + 1 < I32 && start < U64
    ensures AppendOp(Batch(start, ops), op) == Batch(start, ops + [op])
  {
    var n, n', body := |ops|, |ops| + 1, EncodeOps(ops);
    BatchHeader(start, n, body);
    HeaderParts(Fixed(start, 8), Fixed(n, 4), body);
    AppendOpParts(Batch(start, ops), n', Fixed(start, 8), body, op);
    EncodeOpsLast(ops, op);
    BatchParts(start, ops + [op], n', Fixed(start, 8) + Fixed(n', 4), body, EncodeOp(op));
  }

  lemma EncodeOpsOne(op: Op)
    ensures EncodeOps([op]) == EncodeOp(op)
  {
    Seqs.Nil(EncodeOp(op));
  }

  class WriteBatch {
    var rep: bytes

    ghost predicate Valid()
      reads this
    {
      |rep| >= HEADER
    }

    constructor ()
      ensures Valid() && rep == Batch(0, [])
    {
      rep := Fixed(0, 8) + Fixed(0, 4);
    }

    method Put(key: bytes, value: bytes)
      requires Valid()
      modifies this
      ensures Valid() && rep == AppendOp(old(rep), Op.Put(key, value))
    {
      var n := Count(rep);
      rep := rep + [TYPE_VALUE];
      rep := rep + Prefixed(key);
      rep := rep + Prefixed(value);
      Seqs.Assoc3(old(rep), [TYPE_VALUE], Prefixed(key), Prefixed(value));
      PatchHeader(old(rep), Fixed((n + 1) % U32, 4), EncodeOp(Op.Put(key, value)));
      rep := rep[..8] + Fixed((n + 1) % U32, 4) + rep[HEADER..];
    }

    method Delete(key: bytes)
      requires Valid()
      modifies this
      ensures Valid() && rep == AppendOp(old(rep), Op.Delete(key))
    {
      var n := Count(rep);
      rep := rep + [TYPE_DELETION];
      rep := rep + Prefixed(key);
      Seqs.Assoc(old(rep), [TYPE_DELETION], Prefixed(key));
      PatchHeader(old(rep), Fixed((n + 1) % U32, 4), EncodeOp(Op.Delete(key)));
      rep := rep[..8] + Fixed((n + 1) % U32, 4) + rep[HEADER..];
    }

    method SetSequence(start: nat)
      requires Valid()
      modifies this
      ensures Valid() && rep == Fixed(start, 8) + old(rep)[8..]
    {
      rep := Fixed(start, 8) + rep[8..];
    }

    method SetContents(contents: bytes) returns (s: Status)
      requires Valid()
      modifies this
      ensures Valid()
      ensures |contents| < HEADER ==> s == Corruption && rep == old(rep)
      ensures |contents| >= HEADER ==> s == Ok && rep == contents
    {
      if |contents| < HEADER {
        return Corruption;
      }
      rep := contents;
      s := Ok;
    }

    /** The handler calls are collected in order. */
    method Iterate() returns (calls: seq<Call>, s: Status)
      requires Valid()
      ensures (calls, s) == ReplayBatch(rep)
    {
      calls := [];
      var input := rep[HEADER..];
      var next: nat := Sequence(rep);
      var remaining: nat := Quota(rep);
      Seqs.Nil(Replay(input, next, remaining).0);
      while input != []
        invariant ReplayBatch(rep) == After(calls, Replay(input, next, remaining))
        decreases |input|
      {
        if remaining == 0 {
          Seqs.Nil(calls);
          return calls, Corruption;
        }
        match ParseOp(input) {
          case None =>
            Seqs.Nil(calls);
            return calls, Corruption;
          case Some((op, rest)) =>
            var following: nat, left: nat := Next(next), Pred(remaining);
            ReplayMore(calls, input, op, rest, next, remaining, following, left);
            calls := calls + [Call(next, op)];
            input, next, remaining := rest, following, left;
        }
      }
      Seqs.Nil(calls);
      s := if remaining != 0 then Corruption else Ok;
    }
  }
}
