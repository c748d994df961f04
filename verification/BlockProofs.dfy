/** What a builder-made block reads as. */
module BlockProofs {
  import opened Bytes
  import opened Coding
  import opened DbFormat
  import opened BlockFormat
  import Seqs

  // ---------------------------------------------------------------- layout

  /** Where entry `i` starts. */
  function Start(es: seq<Entry>, i: nat): nat
    requires i <= |es|
  {
    |Build(es[..i]).buffer|
  }

  lemma BuildStep(es: seq<Entry>, i: nat)
    requires i < |es|
    ensures Build(es[..i + 1]) == AddEntry(Build(es[..i]), es[i])
  {
    assert es[..i + 1][..i] == es[..i];
  }

  lemma StartStep(es: seq<Entry>, i: nat)
    requires i < |es|
    ensures Start(es, i + 1) == Start(es, i) + |Encoded(Build(es[..i]), es[i])|
  {
    BuildStep(es, i);
  }

  lemma {:induction false} BufferPrefix(es: seq<Entry>, i: nat)
    requires i <= |es|
    ensures Build(es[..i]).buffer <= Build(es).buffer
    decreases |es| - i
  {
    if i == |es| {
      Seqs.TakeAll(es);
    } else {
      BufferPrefix(es, i + 1);
      BuildStep(es, i);
    }
  }

  /** Entry `i`'s bytes stand at `Start(es, i)`. */
  lemma Laid(es: seq<Entry>, i: nat)
    requires i < |es|
    ensures Seqs.At(Build(es).buffer, Start(es, i), Encoded(Build(es[..i]), es[i]))
  {
    var b := Build(es[..i]);
    BuildStep(es, i);
    BufferPrefix(es, i + 1);
    PrefixAt(b.buffer, Encoded(b, es[i]), Build(es).buffer);
  }

  lemma PrefixAt(a: bytes, x: bytes, f: bytes)
    requires a + x <= f
    ensures Seqs.At(f, |a|, x)
  {
    assert f[|a|..|a| + |x|] == (a + x)[|a|..];
  }

  lemma StartGrows(es: seq<Entry>, i: nat)
    requires i < |es|
    ensures Start(es, i) < Start(es, i + 1)
  {
    StartStep(es, i);
  }

  lemma {:induction false} StartMonotone(es: seq<Entry>, i: nat, j: nat)
    requires i < j <= |es|
    ensures Start(es, i) < Start(es, j)
    decreases j - i
  {
    StartGrows(es, j - 1);
    if i < j - 1 {
      StartMonotone(es, i, j - 1);
    }
  }

  lemma StartLast(es: seq<Entry>)
    ensures Start(es, |es|) == |Build(es).buffer| && Start(es, 0) == 0
  {
    Seqs.TakeAll(es);
  }

  /** Number of restart points for `n` entries. */
  function RestartCount(n: nat): nat {
    (n + RESTART_INTERVAL - 1) / RESTART_INTERVAL
  }

  lemma CountStep(n: nat)
    ensures n % RESTART_INTERVAL == 0 ==>
      RestartCount(n + 1) == RestartCount(n) + 1 && RestartCount(n) * RESTART_INTERVAL == n
    ensures n % RESTART_INTERVAL != 0 ==> RestartCount(n + 1) == RestartCount(n)
    ensures (n + 1) % RESTART_INTERVAL
         == if n % RESTART_INTERVAL + 1 >= RESTART_INTERVAL then 0 else n % RESTART_INTERVAL + 1
  {
  }

  /** Every sixteenth entry starts a restart interval, and the last key is remembered. */
  lemma {:induction false} Restarts(es: seq<Entry>)
    ensures var b := Build(es);
      && b.counter == |es| % RESTART_INTERVAL && |b.restarts| == RestartCount(|es|)
      && (es != [] ==> b.lastKey == es[|es| - 1].ikey)
    decreases |es|
  {
    if es != [] {
      Restarts(es[..|es| - 1]);
      CountStep(|es| - 1);
    }
  }

  lemma FirstBounds(j: nat, n: nat)
    ensures j < RestartCount(n) ==> First(j) < n
    ensures First(j) % RESTART_INTERVAL == 0
    ensures n % RESTART_INTERVAL == 0 ==> First(RestartCount(n)) == n
  {
  }

  lemma {:induction false} RestartAt(es: seq<Entry>, j: nat)
    requires j < RestartCount(|es|)
    ensures First(j) < |es| && |Build(es).restarts| == RestartCount(|es|)
    ensures Build(es).restarts[j] == Low32(Start(es, First(j)))
    decreases |es|
  {
    var n := |es| - 1;
    var head := es[..n];
    Restarts(es);
    Restarts(head);
    CountStep(n);
    FirstBounds(j, |es|);
    FirstBounds(j, n);
    if j < RestartCount(n) {
      RestartAt(head, j);
      Seqs.TakeTake(es, n, First(j));
    }
  }

  // ---------------------------------------------------------------- decoding one entry

  lemma LengthsOf(a: nat, b: nat, c: nat, rest: bytes)
    requires a < U32 && b < U32 && c < U32
    ensures Lengths(Varint(a) + (Varint(b) + (Varint(c) + rest))) == Some((a, b, c, rest))
  {
    GetVarint32Of(a, Varint(b) + (Varint(c) + rest));
    GetVarint32Of(b, Varint(c) + rest);
    GetVarint32Of(c, rest);
  }

  lemma Regroup(a: bytes, b: bytes, c: bytes, d: bytes, e: bytes, f: bytes)
    ensures (a + b + c + d + e) + f == a + (b + (c + (d + (e + f))))
  {
  }

  lemma EntryBytesFit(shared: nat, key: bytes, value: bytes, unshared: nat)
    requires shared <= |key| && |key| < U32 && |value| < U32 && unshared == |key| - shared
    ensures EntryBytes(shared, key, value)
         == Varint(shared) + Varint(unshared) + Varint(|value|) + key[shared..] + value
  {
    Low32Is(shared);
    Low32Is(unshared);
    Low32Is(|value|);
  }

  lemma DropAt(data: bytes, at: nat, entry: bytes) returns (tail: bytes)
    requires Seqs.At(data, at, entry)
    ensures data[at..] == entry + tail && |data| == at + |entry| + |tail|
  {
    tail := data[at + |entry|..];
    assert data[at..] == data[at..at + |entry|] + tail;
  }

  lemma EntryInput(data: bytes, at: nat, shared: nat, key: bytes, value: bytes) returns (tail: bytes)
    requires shared <= |key| && |key| < U32 && |value| < U32
    requires Seqs.At(data, at, EntryBytes(shared, key, value))
    ensures Lengths(data[at..]) == Some((shared, |key| - shared, |value|, key[shared..] + (value + tail)))
    ensures |data| == at + |EntryBytes(shared, key, value)| + |tail|
  {
    var unshared := |key| - shared;
    tail := DropAt(data, at, EntryBytes(shared, key, value));
    EntryBytesFit(shared, key, value, unshared);
    Regroup(Varint(shared), Varint(unshared), Varint(|value|), key[shared..], value, tail);
    LengthsOf(shared, unshared, |value|, key[shared..] + (value + tail));
  }

  lemma SplitRest(a: bytes, b: bytes, c: bytes)
    ensures var rest := a + (b + c); rest[..|a|] == a && rest[|a|..|a| + |b|] == b
  {
  }

  /** An entry laid down with `shared` reads back given any previous key that agrees on the shared part. */
  lemma DecodeLaid(data: bytes, at: nat, shared: nat, key: bytes, value: bytes, previous: bytes, next: nat)
    requires shared <= |key| && |key| < U32 && |value| < U32
    requires Seqs.At(data, at, EntryBytes(shared, key, value))
    requires shared <= |previous| && previous[..shared] == key[..shared]
    requires next == at + |EntryBytes(shared, key, value)|
    ensures DecodeEntry(data, at, previous) == Some(Decoded(key, value, next))
  {
    var tail := EntryInput(data, at, shared, key, value);
    SplitRest(key[shared..], value, tail);
    Seqs.Rejoin(key, shared);
  }

  /** A key is no longer than the bytes written up to its entry's end. */
  lemma {:induction false} KeyBound(es: seq<Entry>, i: nat)
    requires i < |es|
    ensures |es[i].ikey| - Shared(Build(es[..i]), es[i].ikey) + |es[i].value| <= |Encoded(Build(es[..i]), es[i])|
    ensures |es[i].ikey| <= Start(es, i + 1)
    decreases i
  {
    StartStep(es, i);
    Restarts(es[..i]);
    if i > 0 {
      KeyBound(es, i - 1);
    }
  }

  lemma StartBound(es: seq<Entry>, i: nat)
    requires i <= |es|
    ensures Start(es, i) <= |Build(es).buffer| <= |BlockOf(es)|
  {
    BufferPrefix(es, i);
  }

  lemma EntryFits(es: seq<Entry>, i: nat)
    requires Fits(es) && i < |es|
    ensures |es[i].ikey| < U32 && |es[i].value| < U32
  {
    KeyBound(es, i);
    StartStep(es, i);
    StartBound(es, i + 1);
  }

  /** The key before entry `i` agrees on what entry `i` shares. */
  lemma SharedAgrees(es: seq<Entry>, i: nat, previous: bytes)
    requires i < |es| && (i % RESTART_INTERVAL == 0 || previous == es[i - 1].ikey)
    ensures var shared := Shared(Build(es[..i]), es[i].ikey);
      shared <= |previous| && previous[..shared] == es[i].ikey[..shared]
  {
    Restarts(es[..i]);
  }

  /** In a block that fits, reading entry `i` at its offset restores it, given the key before it. */
  lemma DecodeBuilt(es: seq<Entry>, i: nat, previous: bytes)
    requires Fits(es) && i < |es|
    requires i % RESTART_INTERVAL == 0 || previous == es[i - 1].ikey
    ensures DecodeEntry(Build(es).buffer, Start(es, i), previous)
         == Some(Decoded(es[i].ikey, es[i].value, Start(es, i + 1)))
  {
    Laid(es, i);
    EntryFits(es, i);
    StartStep(es, i);
    SharedAgrees(es, i, previous);
    DecodeLaid(Build(es).buffer, Start(es, i), Shared(Build(es[..i]), es[i].ikey), es[i].ikey, es[i].value, previous,
               Start(es, i + 1));
  }

  // ---------------------------------------------------------------- the bytes of a block

  /** `n` is the longest common prefix of two keys. */
  predicate Longest(key: bytes, previous: bytes, n: nat) {
    && n <= |key| && n <= |previous| && key[..n] == previous[..n]
    && (n == |key| || n == |previous| || key[n] != previous[n])
  }

  /** What entry `i` may leave out of its key. */
  predicate Shares(es: seq<Entry>, i: nat, n: nat)
    requires i < |es|
  {
    n <= |es[i].ikey| && if i % 16 == 0 then n == 0 else Longest(es[i].ikey, es[i - 1].ikey, n)
  }

  lemma SharedIs(es: seq<Entry>, i: nat) returns (n: nat)
    requires i < |es|
    ensures n == Shared(Build(es[..i]), es[i].ikey) && Shares(es, i, n)
  {
    Restarts(es[..i]);
    n := Shared(Build(es[..i]), es[i].ikey);
  }

  /** The entry's three lengths, the rest of its key and its value. */
  function EntryParts(n: nat, key: bytes, value: bytes): bytes
    requires n <= |key|
  {
    Varint(n) + Varint(|key| - n) + Varint(|value|) + key[n..] + value
  }

  /** The lengths that a decoder finds at `at`. */
  ghost predicate Announces(data: bytes, at: nat, a: nat, b: nat, c: nat) {
    at <= |data| && exists rest :: Lengths(data[at..]) == Some((a, b, c, rest))
  }

  lemma EntryReads(data: bytes, at: nat, n: nat, key: bytes, value: bytes, unshared: nat)
    requires n <= |key| && |key| < U32 && |value| < U32 && Seqs.At(data, at, EntryBytes(n, key, value))
    requires unshared == |key| - n
    ensures Seqs.At(data, at, EntryParts(n, key, value)) && Announces(data, at, n, unshared, |value|)
  {
    EntryBytesFit(n, key, value, unshared);
    var tail := EntryInput(data, at, n, key, value);
  }

  /** Each entry leaves out of its key exactly what it shares with the key before it, but for every sixteenth, which is
      written whole. The decoder finds that length in front. */
  lemma SharesLongest(es: seq<Entry>, i: nat) returns (n: nat)
    requires Fits(es) && i < |es|
    ensures Shares(es, i, n) && StandsAs(Build(es).buffer, Start(es, i), n, es[i])
  {
    n := SharedIs(es, i);
    EntryStands(es, i, n, es[i], Build(es).buffer, Start(es, i));
  }

  /** The entry stands at `at`, and that is what the decoder finds there. */
  ghost predicate StandsAs(data: bytes, at: nat, n: nat, e: Entry) {
    && n <= |e.ikey| && Seqs.At(data, at, EntryParts(n, e.ikey, e.value))
    && Announces(data, at, n, |e.ikey| - n, |e.value|)
  }

  lemma EntryStands(es: seq<Entry>, i: nat, n: nat, e: Entry, data: bytes, at: nat)
    requires Fits(es) && i < |es| && n == Shared(Build(es[..i]), es[i].ikey)
    requires es[i] == e && data == Build(es).buffer && at == Start(es, i)
    ensures StandsAs(data, at, n, e)
  {
    var b := Build(es[..i]);
    Laid(es, i);
    EntryFits(es, i);
    EncodedStands(b, e, n, data, at);
  }

  lemma EncodedStands(b: Building, e: Entry, n: nat, data: bytes, at: nat)
    requires n == Shared(b, e.ikey) && Seqs.At(data, at, Encoded(b, e)) && |e.ikey| < U32 && |e.value| < U32
    ensures StandsAs(data, at, n, e)
  {
    EntryReads(data, at, n, e.ikey, e.value, |e.ikey| - n);
  }

  lemma {:induction false} FixedAllLaid(f: bytes, at: nat, ns: seq<nat>, j: nat, p: nat)
    requires Seqs.At(f, at, FixedAll(ns)) && j < |ns| && p == at + 4 * j
    ensures Seqs.At(f, p, Fixed(ns[j], 4))
    decreases |ns|
  {
    var n := |ns| - 1;
    var head, last := FixedAll(ns[..n]), Fixed(ns[n], 4);
    FixedAllEnds(f, at, head, last, at + |head|);
    if j < n {
      FixedAllLaid(f, at, ns[..n], j, p);
    }
  }

  lemma FixedAllEnds(f: bytes, at: nat, head: bytes, last: bytes, p: nat)
    requires Seqs.At(f, at, head + last) && p == at + |head|
    ensures Seqs.At(f, at, head) && Seqs.At(f, p, last)
  {
    Seqs.AtSplit(f, at, head, last);
  }

  lemma TailParts(es: seq<Entry>, count: nat)
    requires Fits(es) && count == |Build(es).restarts|
    ensures Seqs.At(BlockOf(es), |Build(es).buffer|, FixedAll(Build(es).restarts))
    ensures |BlockOf(es)| == |Build(es).buffer| + 4 * count + 4 && BlockOf(es)[|BlockOf(es)| - 4..] == Fixed(count, 4)
  {
    var b := Build(es);
    RestartsFit(es);
    Low32Is(count);
    FinishedParts(b.buffer, FixedAll(b.restarts), Fixed(count, 4));
  }

  /** Behind the entries: the offset of every sixteenth, and how many there are, in four bytes each. */
  lemma TailLaid(es: seq<Entry>, j: nat, count: nat, end: nat)
    requires Fits(es) && count == (|es| + 15) / 16 && end == Start(es, |es|)
    ensures |BlockOf(es)| == end + 4 * count + 4 && BlockOf(es)[|BlockOf(es)| - 4..] == Fixed(count, 4)
    ensures j < count ==> 16 * j < |es| && Seqs.At(BlockOf(es), end + 4 * j, Fixed(Start(es, 16 * j), 4))
  {
    Restarts(es);
    StartLast(es);
    TailParts(es, count);
    if j < count {
      RestartLaid(es, j, 16 * j, end + 4 * j);
    }
  }

  lemma RestartLaid(es: seq<Entry>, j: nat, i: nat, p: nat)
    requires Fits(es) && j < RestartCount(|es|) && i == First(j) && p == |Build(es).buffer| + 4 * j
    ensures i < |es| && Seqs.At(BlockOf(es), p, Fixed(Start(es, i), 4))
  {
    var ns := Build(es).restarts;
    RestartAt(es, j);
    TailParts(es, |ns|);
    FixedAllLaid(BlockOf(es), |Build(es).buffer|, ns, j, p);
    RestartsFit(es);
    StartBound(es, i);
    Low32Is(Start(es, i));
  }

  // ---------------------------------------------------------------- opening a finished block

  lemma {:induction false} ReadFixedAll(contents: bytes, at: nat, ns: seq<nat>)
    requires Seqs.At(contents, at, FixedAll(ns)) && forall i :: 0 <= i < |ns| ==> ns[i] < U32
    ensures ReadFixed(contents, at, |ns|) == ns
    decreases |ns|
  {
    if ns != [] {
      var n := |ns| - 1;
      Seqs.AtSplit(contents, at, FixedAll(ns[..n]), Fixed(ns[n], 4));
      ReadFixedAll(contents, at, ns[..n]);
      Fixed32RoundTrip(ns[n]);
    }
  }

  lemma RestartsFit(es: seq<Entry>)
    requires Fits(es)
    ensures forall j :: 0 <= j < |Build(es).restarts| ==> Build(es).restarts[j] < U32
    ensures |Build(es).restarts| < U32
  {
    forall j | 0 <= j < |Build(es).restarts| ensures Build(es).restarts[j] < U32 {
      Restarts(es);
      RestartAt(es, j);
    }
  }

  lemma OpenParts(contents: bytes, data: bytes, restarts: seq<nat>, count: nat)
    requires |contents| == |data| + 4 * count + 4 && FromFixed(contents[|contents| - 4..]) == count
    requires contents[..|data|] == data && ReadFixed(contents, |data|, count) == restarts
    ensures OpenBlock(contents) == Block(data, restarts)
  {
    assert |contents| - 4 - 4 * count == |data|;
  }

  /** A finished block opens to the entries' bytes and the restart offsets. */
  lemma OpenBuilt(es: seq<Entry>)
    requires Fits(es)
    ensures OpenBlock(BlockOf(es)) == Block(Build(es).buffer, Build(es).restarts)
  {
    var b := Build(es);
    var count := |b.restarts|;
    RestartsFit(es);
    Low32Is(count);
    Fixed32RoundTrip(count);
    FinishedParts(b.buffer, FixedAll(b.restarts), Fixed(count, 4));
    ReadFixedAll(BlockOf(es), |b.buffer|, b.restarts);
    OpenParts(BlockOf(es), b.buffer, b.restarts, count);
  }

  lemma FinishedParts(a: bytes, b: bytes, c: bytes)
    ensures var f := a + b + c;
      f[|a| + |b|..] == c && f[..|a|] == a && Seqs.At(f, |a|, b)
  {
  }

  lemma ReadFixedSnoc(contents: bytes, at: nat, n: nat, ns: seq<nat>, last: bytes)
    requires at + 4 * n + 4 <= |contents| && ns == ReadFixed(contents, at, n)
    requires last == contents[at + 4 * n..at + 4 * n + 4]
    ensures ReadFixed(contents, at, n + 1) == ns + [FromFixed(last)]
  {
  }

  lemma FixedAllSnoc(ns: seq<nat>, last: bytes)
    requires |last| == 4
    ensures FixedAll(ns + [FromFixed(last)]) == FixedAll(ns) + last
  {
    FixedOnto(last);
    Seqs.TakeSnoc(ns + [FromFixed(last)], |ns|);
    assert (ns + [FromFixed(last)])[..|ns|] == ns;
  }

  lemma {:induction false} ReadFixedOnto(contents: bytes, at: nat, count: nat)
    requires at + 4 * count <= |contents|
    ensures FixedAll(ReadFixed(contents, at, count)) == contents[at..at + 4 * count]
    decreases count
  {
    if count > 0 {
      var n: nat := count - 1;
      var last := contents[at + 4 * n..at + 4 * n + 4];
      var ns := ReadFixed(contents, at, n);
      ReadFixedOnto(contents, at, n);
      ReadFixedSnoc(contents, at, n, ns, last);
      FixedAllSnoc(ns, last);
      SliceMore(contents, at, at + 4 * n, at + 4 * n + 4);
    }
  }

  lemma SliceMore(s: bytes, i: nat, j: nat, k: nat)
    requires i <= j <= k <= |s|
    ensures s[i..k] == s[i..j] + s[j..k]
  {
  }

  lemma CountOnto(tail: bytes)
    requires |tail| == 4
    ensures tail == Fixed(FromFixed(tail), 4) && FromFixed(tail) < U32
  {
    FixedOnto(tail);
    Powers();
  }

  /** Bytes that announce more restart points than they can hold open empty; any others are entries, offsets and their
      number, as a builder would finish them. */
  lemma OpensOnlyFinished(contents: bytes)
    ensures var b := OpenBlock(contents);
      if |contents| < 4 || |contents| < 4 + 4 * FromFixed(contents[|contents| - 4..]) then b == Block([], [])
      else contents == b.data + FixedAll(b.restarts) + Fixed(|b.restarts|, 4)
  {
    if |contents| >= 4 {
      var tail := contents[|contents| - 4..];
      var count := FromFixed(tail);
      CountOnto(tail);
      if |contents| >= 4 + 4 * count {
        var at := |contents| - 4 - 4 * count;
        ReadFixedOnto(contents, at, count);
        FinishedFrom(contents, at, at + 4 * count);
      }
    }
  }

  lemma FinishedFrom(contents: bytes, i: nat, j: nat)
    requires i <= j <= |contents|
    ensures contents == contents[..i] + contents[i..j] + contents[j..]
  {
  }

  // ---------------------------------------------------------------- iterating

  /** The iterator stands on entry `i`, or past the end. */
  ghost predicate On(es: seq<Entry>, it: Iter, i: nat) {
    if i < |es| then it == Iter(Start(es, i + 1), es[i].ikey, es[i].value, true) else i == |es| && !it.valid
  }

  ghost predicate Opened(es: seq<Entry>, b: Block) {
    Fits(es) && b == Block(Build(es).buffer, Build(es).restarts)
  }

  lemma NextOn(es: seq<Entry>, b: Block, it: Iter, i: nat)
    requires Opened(es, b) && i < |es| && On(es, it, i)
    ensures On(es, Next(b, it), i + 1)
  {
    if i + 1 < |es| {
      DecodeBuilt(es, i + 1, it.key);
    } else {
      StartLast(es);
    }
  }

  lemma DecodeOn(es: seq<Entry>, b: Block, it: Iter, i: nat)
    requires Opened(es, b) && i < |es| && i % RESTART_INTERVAL == 0
    ensures On(es, DecodeAt(b, it, Start(es, i)), i)
  {
    DecodeBuilt(es, i, it.key);
  }

  lemma DecodeRestart(es: seq<Entry>, b: Block, it: Iter, j: nat)
    requires Opened(es, b) && j < |b.restarts|
    ensures First(j) < |es| && On(es, DecodeAt(b, it, b.restarts[j]), First(j))
  {
    Restarts(es);
    RestartAt(es, j);
    StartBound(es, First(j));
    Low32Is(Start(es, First(j)));
    FirstBounds(j, |es|);
    DecodeOn(es, b, it, First(j));
  }

  lemma OpenedRestarts(es: seq<Entry>, b: Block)
    requires Opened(es, b)
    ensures b.restarts == [] <==> es == []
  {
    Restarts(es);
  }

  /** Every entry from the iterator on. */
  function Remaining(b: Block, it: Iter): seq<Entry>
    decreases if it.valid then |b.data| + 1 - it.current else 0, it.valid
  {
    if it.valid && it.current <= |b.data| then [Entry(it.key, it.value)] + Remaining(b, Next(b, it)) else []
  }

  lemma RemainingStep(es: seq<Entry>, b: Block, it: Iter, i: nat)
    requires Opened(es, b) && i < |es| && On(es, it, i)
    ensures Remaining(b, it) == [es[i]] + Remaining(b, Next(b, it))
  {
    StartBound(es, i + 1);
  }

  lemma RemainingEnd(es: seq<Entry>, b: Block, it: Iter, i: nat)
    requires i == |es| && On(es, it, i)
    ensures Remaining(b, it) == es[i..]
  {
  }

  lemma {:induction false} RemainingOn(es: seq<Entry>, b: Block, it: Iter, i: nat)
    requires Opened(es, b) && i <= |es| && On(es, it, i)
    ensures Remaining(b, it) == es[i..]
    decreases |es| - i
  {
    if i < |es| {
      var next := Next(b, it);
      NextOn(es, b, it, i);
      RemainingOn(es, b, next, i + 1);
      RemainingStep(es, b, it, i);
      Seqs.DropCons(es, i);
    } else {
      RemainingEnd(es, b, it, i);
    }
  }

  /** `Finish`, then `SeekToFirst` and `Next` to the end, reproduces every list that fits, sorted or not. */
  lemma BlockRoundTrip(es: seq<Entry>, it: Iter)
    requires Fits(es)
    ensures var b := OpenBlock(BlockOf(es)); Remaining(b, SeekToFirst(b, it)) == es
  {
    OpenBuilt(es);
    var b := OpenBlock(BlockOf(es));
    OpenedRestarts(es, b);
    if es != [] {
      DecodeRestart(es, b, it, 0);
      RemainingOn(es, b, SeekToFirst(b, it), 0);
    }
  }

  // ---------------------------------------------------------------- seeking

  /** No key is less than `target` from entry `f` on; before it some may be and some not. */
  ghost predicate NoneLessFrom(es: seq<Entry>, target: bytes, f: nat) {
    f <= |es| && forall j :: f <= j < |es| ==> !Less(es[j].ikey, target)
  }

  lemma {:induction false} FindRestartBelow(es: seq<Entry>, b: Block, it: Iter, target: bytes, f: nat, left: nat,
                                            right: nat)
    requires Opened(es, b) && NoneLessFrom(es, target, f) && left <= right < |b.restarts|
    requires left == 0 || First(left) < f
    ensures var r := FindRestart(b, it, target, left, right); r.0 == 0 || First(r.0) < f
    decreases right - left
  {
    if left < right {
      var mid := Mid(left, right);
      var at := DecodeAt(b, it, b.restarts[mid]);
      DecodeRestart(es, b, it, mid);
      if Less(at.key, target) {
        assert First(mid) < f;
        FindRestartBelow(es, b, at, target, f, mid, right);
      } else {
        FindRestartBelow(es, b, at, target, f, left, Pred(mid));
      }
    }
  }

  /** The key at restart point `j` is less than the target. */
  ghost predicate StartsBelow(es: seq<Entry>, target: bytes, j: nat) {
    First(j) < |es| && Less(es[First(j)].ikey, target)
  }

  /** The edge lies between `left` and `right`. */
  ghost predicate Edge(es: seq<Entry>, target: bytes, count: nat, left: nat, right: nat) {
    && (left == 0 || StartsBelow(es, target, left))
    && (right + 1 == count || !StartsBelow(es, target, right + 1))
  }

  lemma EdgeBefore(es: seq<Entry>, target: bytes, count: nat, left: nat, right: nat, mid: nat)
    requires Edge(es, target, count, left, right) && mid > 0 && !StartsBelow(es, target, mid)
    ensures Edge(es, target, count, left, Pred(mid))
  {
  }

  lemma EdgeBehind(es: seq<Entry>, target: bytes, count: nat, left: nat, right: nat, mid: nat)
    requires Edge(es, target, count, left, right) && StartsBelow(es, target, mid)
    ensures Edge(es, target, count, mid, right)
  {
  }

  lemma AtRestart(es: seq<Entry>, b: Block, it: Iter, target: bytes, j: nat, at: Iter)
    requires Opened(es, b) && j < |b.restarts| && at == DecodeAt(b, it, b.restarts[j])
    ensures Less(at.key, target) <==> StartsBelow(es, target, j)
  {
    DecodeRestart(es, b, it, j);
  }

  lemma {:induction false} FindRestartEdge(es: seq<Entry>, b: Block, it: Iter, target: bytes, left: nat, right: nat,
                                           count: nat)
    requires Opened(es, b) && left <= right < |b.restarts| == count && Edge(es, target, count, left, right)
    ensures var j := FindRestart(b, it, target, left, right).0; Edge(es, target, count, j, j)
    decreases right - left
  {
    if left < right {
      var mid := Mid(left, right);
      var at := DecodeAt(b, it, b.restarts[mid]);
      AtRestart(es, b, it, target, mid, at);
      if Less(at.key, target) {
        EdgeBehind(es, target, count, left, right, mid);
        FindRestartEdge(es, b, at, target, mid, right, count);
      } else {
        EdgeBefore(es, target, count, left, right, mid);
        FindRestartEdge(es, b, at, target, left, Pred(mid), count);
      }
    }
  }

  lemma EdgeMeans(es: seq<Entry>, target: bytes, count: nat, j: nat)
    requires Edge(es, target, count, j, j) && j < count == RestartCount(|es|)
    ensures j == 0 || (16 * j < |es| && Less(es[16 * j].ikey, target))
    ensures 16 * j + 16 < |es| ==> !Less(es[16 * j + 16].ikey, target)
  {
  }

  lemma EdgeFound(es: seq<Entry>, b: Block, it: Iter, target: bytes, left: nat, right: nat, count: nat) returns (j: nat)
    requires Opened(es, b) && left <= right && right + 1 == count && |b.restarts| == count && left == 0
    ensures j == FindRestart(b, it, target, left, right).0 && j < count && Edge(es, target, count, j, j)
  {
    j := FindRestart(b, it, target, left, right).0;
    FindRestartEdge(es, b, it, target, left, right, count);
  }

  lemma RestartsIn(es: seq<Entry>, b: Block, last: nat) returns (count: nat)
    requires Opened(es, b) && 16 * last < |es| <= 16 * last + 16
    ensures |b.restarts| == count == RestartCount(|es|) && count == last + 1
  {
    count := last + 1;
    Restarts(es);
  }

  /** The binary search ends at an edge, whatever the order of the keys: the key at the restart point it chooses is less
      than the target, unless that is the first point, and the key at the next one is not. So with the keys in order the
      scan passes no more than one interval. */
  lemma RestartIsEdge(es: seq<Entry>, b: Block, it: Iter, target: bytes, last: nat) returns (j: nat)
    requires Opened(es, b) && 16 * last < |es| <= 16 * last + 16
    ensures |b.restarts| == last + 1 && j == FindRestart(b, it, target, 0, last).0
    ensures j == 0 || (16 * j < |es| && Less(es[16 * j].ikey, target))
    ensures 16 * j + 16 < |es| ==> !Less(es[16 * j + 16].ikey, target)
  {
    var count := RestartsIn(es, b, last);
    j := EdgeFound(es, b, it, target, 0, last, count);
    EdgeMeans(es, target, count, j);
  }

  lemma ScanStays(es: seq<Entry>, b: Block, it: Iter, target: bytes, i: nat)
    requires i <= |es| && On(es, it, i) && (i < |es| ==> !Less(es[i].ikey, target))
    ensures ScanTo(b, it, target) == it
  {
  }

  lemma ScanSteps(es: seq<Entry>, b: Block, it: Iter, target: bytes, i: nat)
    requires Opened(es, b) && i < |es| && On(es, it, i) && Less(es[i].ikey, target)
    ensures ScanTo(b, it, target) == ScanTo(b, Next(b, it), target)
  {
    StartBound(es, i + 1);
  }

  /** The scan ran over keys less than `target` from `j` on and stopped at `i`. */
  ghost predicate Ran(es: seq<Entry>, target: bytes, j: nat, i: nat) {
    && j <= i <= |es| && (i < |es| ==> !Less(es[i].ikey, target))
    && forall k :: j <= k < i ==> Less(es[k].ikey, target)
  }

  lemma RanMore(es: seq<Entry>, target: bytes, j: nat, i: nat)
    requires j < |es| && Less(es[j].ikey, target) && Ran(es, target, j + 1, i)
    ensures Ran(es, target, j, i)
  {
  }

  lemma {:induction false} ScanLands(es: seq<Entry>, b: Block, it: Iter, target: bytes, f: nat, j: nat) returns (i: nat)
    requires Opened(es, b) && NoneLessFrom(es, target, f) && j <= f && On(es, it, j)
    ensures i <= f && Ran(es, target, j, i) && On(es, ScanTo(b, it, target), i)
    decreases f - j
  {
    if j < |es| && Less(es[j].ikey, target) {
      var next := j + 1;
      NextOn(es, b, it, j);
      ScanSteps(es, b, it, target, j);
      i := ScanLands(es, b, Next(b, it), target, f, next);
      RanMore(es, target, j, i);
    } else {
      i := j;
      ScanStays(es, b, it, target, j);
    }
  }

  lemma SeekFrom(es: seq<Entry>, b: Block, it: Iter, target: bytes, f: nat, left: nat) returns (i: nat)
    requires Opened(es, b) && NoneLessFrom(es, target, f) && left < |b.restarts| && (left == 0 || First(left) < f)
    ensures i <= f && Ran(es, target, First(left), i) && On(es, ScanTo(b, DecodeAt(b, it, b.restarts[left]), target), i)
  {
    DecodeRestart(es, b, it, left);
    i := ScanLands(es, b, DecodeAt(b, it, b.restarts[left]), target, f, First(left));
  }

  /** Whatever the order of the keys, `Seek` lands on an entry not less than the target, no later than `f`. */
  lemma SeekLands(es: seq<Entry>, b: Block, it: Iter, target: bytes, f: nat) returns (i: nat)
    requires Opened(es, b) && NoneLessFrom(es, target, f)
    ensures i <= f && On(es, Seek(b, it, target), i) && (i < |es| ==> !Less(es[i].ikey, target))
    ensures |es| <= RESTART_INTERVAL ==> forall k :: 0 <= k < i ==> Less(es[k].ikey, target)
  {
    OpenedRestarts(es, b);
    if es == [] {
      return 0;
    }
    var last := Pred(|b.restarts|);
    FindRestartBelow(es, b, it, target, f, 0, last);
    var r := FindRestart(b, it, target, 0, last);
    i := SeekFrom(es, b, r.1, target, f, r.0);
    Restarts(es);
  }

  /** Along the entries, "key less than `target`" is true before `i` and false from `i` on. */
  ghost predicate Parted(es: seq<Entry>, target: bytes, i: nat) {
    NoneLessFrom(es, target, i) && forall j :: 0 <= j < i ==> Less(es[j].ikey, target)
  }

  /** Then `Seek` lands on the first entry not less than the target, or runs off the end if there is none. */
  lemma SeekParted(es: seq<Entry>, b: Block, it: Iter, target: bytes, i: nat)
    requires Opened(es, b) && Parted(es, target, i)
    ensures On(es, Seek(b, it, target), i)
  {
    var landed := SeekLands(es, b, it, target, i);
  }
}
