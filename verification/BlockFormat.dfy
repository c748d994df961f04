/** Data blocks: prefix-compressed entries, restart points, and the iterator's view of them
    (src/table/block_builder.cc, src/table/block.cc). */
module BlockFormat {
  import opened Bytes
  import opened Coding
  import opened DbFormat

  const RESTART_INTERVAL: nat := 16

  /** The entry at which restart interval `j` begins. */
  function First(j: nat): nat {
    j * RESTART_INTERVAL
  }

  // ---------------------------------------------------------------- building

  /** The builder's fields. */
  datatype Building = Building(buffer: bytes, restarts: seq<nat>, lastKey: bytes, counter: nat)

  const EMPTY: Building := Building([], [], [], 0)

  /** `static_cast<uint32_t>`. */
  function Low32(n: nat): nat {
    n % U32
  }

  lemma Low32Is(n: nat)
    requires n < U32
    ensures Low32(n) == n
  {
  }

  /** How much of the previous key an entry reuses. */
  function Shared(b: Building, key: bytes): (n: nat)
    ensures n <= |key| && n <= |b.lastKey| && key[..n] == b.lastKey[..n]
  {
    if b.counter > 0 then SharedPrefix(key, b.lastKey) else 0
  }

  /** The three lengths, the key's own part and the value. */
  function EntryBytes(shared: nat, key: bytes, value: bytes): (e: bytes)
    requires shared <= |key|
    ensures |e| > 0
  {
    Varint(Low32(shared)) + Varint(Low32(|key| - shared)) + Varint(Low32(|value|)) + key[shared..] + value
  }

  function Encoded(b: Building, e: Entry): (r: bytes)
    ensures |r| > 0
  {
    EntryBytes(Shared(b, e.ikey), e.ikey, e.value)
  }

  function AddEntry(b: Building, e: Entry): Building {
    Building(
      b.buffer + Encoded(b, e),
      if b.counter == 0 then b.restarts + [Low32(|b.buffer|)] else b.restarts,
      e.ikey,
      if b.counter + 1 >= RESTART_INTERVAL then 0 else b.counter + 1)
  }

  function Build(es: seq<Entry>): Building {
    if es == [] then EMPTY else AddEntry(Build(es[..|es| - 1]), es[|es| - 1])
  }

  function FixedAll(ns: seq<nat>): (b: bytes)
    ensures |b| == 4 * |ns|
  {
    if ns == [] then [] else FixedAll(ns[..|ns| - 1]) + Fixed(ns[|ns| - 1], 4)
  }

  /** The finished block: entries, restart offsets, and their number. */
  function Finished(b: Building): bytes {
    b.buffer + FixedAll(b.restarts) + Fixed(Low32(|b.restarts|), 4)
  }

  function SizeEstimate(b: Building): nat {
    |b.buffer| + 4 + |b.restarts| * 4
  }

  function BlockOf(es: seq<Entry>): bytes {
    Finished(Build(es))
  }

  /** The block's size and offsets fit the 32-bit fields of the format. */
  predicate Fits(es: seq<Entry>) {
    |BlockOf(es)| < U32
  }

  lemma EstimateIsExact(b: Building)
    ensures SizeEstimate(b) == |Finished(b)|
  {
  }

  // ---------------------------------------------------------------- reading

  datatype Block = Block(data: bytes, restarts: seq<nat>)

  /** `count` offsets from `at` on. */
  function ReadFixed(contents: bytes, at: nat, count: nat): (ns: seq<nat>)
    requires at + 4 * count <= |contents|
    ensures |ns| == count
  {
    if count == 0 then []
    else ReadFixed(contents, at, count - 1) + [FromFixed(contents[at + 4 * (count - 1)..at + 4 * count])]
  }

  /** The `Block` constructor; a block too small for what it announces opens empty. */
  function OpenBlock(contents: bytes): Block {
    if |contents| < 4 then Block([], [])
    else
      var count := FromFixed(contents[|contents| - 4..]);
      if |contents| < 4 + 4 * count then Block([], [])
      else
        var at := |contents| - 4 - 4 * count;
        Block(contents[..at], ReadFixed(contents, at, count))
  }

  /** `key_.resize(n)`. */
  function Resize(key: bytes, n: nat): (r: bytes)
    ensures |r| == n
  {
    if n <= |key| then key[..n] else key + seq(n - |key|, i => 0)
  }

  /** One decoded entry and the offset after it. */
  datatype Decoded = Decoded(key: bytes, value: bytes, next: nat)

  /** The three lengths at the front of `input`, and what follows them. */
  function Lengths(input: bytes): (r: Option<(nat, nat, nat, bytes)>)
    ensures r.Some? ==> |r.value.3| < |input|
  {
    var a := GetVarint32(input);
    if a.None? then None else
    var b := GetVarint32(a.value.1);
    if b.None? then None else
    var c := GetVarint32(b.value.1);
    if c.None? then None else Some((a.value.0, b.value.0, c.value.0, c.value.1))
  }

  /** The entry at offset `current`, read with `key` as the previous key. */
  function DecodeEntry(data: bytes, current: nat, key: bytes): (r: Option<Decoded>)
    ensures r.Some? ==> current < r.value.next <= |data|
  {
    if current >= |data| then None else
    var l := Lengths(data[current..]);
    if l.None? then None else
    var (shared, unshared, valueLen, rest) := l.value;
    if unshared + valueLen > |rest| then None
    else Some(Decoded(Resize(key, shared) + rest[..unshared], rest[unshared..unshared + valueLen],
                      |data| - |rest| + unshared + valueLen))
  }

  /** The iterator's fields. */
  datatype Iter = Iter(current: nat, key: bytes, value: bytes, valid: bool)

  const START: Iter := Iter(0, [], [], false)

  function Decode(b: Block, it: Iter): Iter {
    var d := DecodeEntry(b.data, it.current, it.key);
    if d.None? then it.(valid := false) else Iter(d.value.next, d.value.key, d.value.value, true)
  }

  function DecodeAt(b: Block, it: Iter, offset: nat): Iter {
    Decode(b, it.(current := offset))
  }

  function SeekToFirst(b: Block, it: Iter): Iter {
    if b.restarts == [] then it.(valid := false) else DecodeAt(b, it, b.restarts[0])
  }

  function Next(b: Block, it: Iter): Iter {
    if it.valid then Decode(b, it) else it
  }

  /** The upper midpoint, so that `left = mid` makes progress. */
  function Mid(left: nat, right: nat): (mid: nat)
    requires left < right
    ensures left < mid <= right
  {
    (left + right + 1) / 2
  }

  /** The restart point from which to scan: the last one whose key is less than `target`, or the first. */
  function FindRestart(b: Block, it: Iter, target: bytes, left: nat, right: nat): (r: (nat, Iter))
    requires left <= right < |b.restarts|
    ensures left <= r.0 <= right
    decreases right - left
  {
    if left == right then (left, it) else
    var mid := Mid(left, right);
    var at := DecodeAt(b, it, b.restarts[mid]);
    if Less(at.key, target) then FindRestart(b, at, target, mid, right) else FindRestart(b, at, target, left, Pred(mid))
  }

  /** Step on until the key is not less than `target`. */
  function ScanTo(b: Block, it: Iter, target: bytes): Iter
    decreases if it.valid then |b.data| + 1 - it.current else 0, it.valid
  {
    if it.valid && it.current <= |b.data| && Less(it.key, target) then ScanTo(b, Next(b, it), target) else it
  }

  function Seek(b: Block, it: Iter, target: bytes): Iter {
    if b.restarts == [] then it.(valid := false) else
    var (left, at) := FindRestart(b, it, target, 0, Pred(|b.restarts|));
    ScanTo(b, DecodeAt(b, at, b.restarts[left]), target)
  }
}
