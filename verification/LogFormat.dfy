/** The write-ahead log: 32 KB blocks of physical records (src/db/log_format.h, log_writer.cc, log_reader.cc). */
module LogFormat {
  import opened Bytes
  import opened Checksums
  import opened Coding

  const BLOCK: nat := 0x8000
  const HEADER: nat := 7

  const FULL: byte := 1
  const FIRST: byte := 2
  const MIDDLE: byte := 3
  const LAST: byte := 4

  // ---------------------------------------------------------------- positions

  /** Where the block that holds offset `p` ends. */
  function BlockEnd(p: nat): (e: nat)
    ensures p < e <= p + BLOCK && e % BLOCK == 0
  {
    (p / BLOCK + 1) * BLOCK
  }

  function Offset(p: nat): (o: nat)
    ensures o < BLOCK && BlockEnd(p) - p == BLOCK - o
  {
    p % BLOCK
  }

  // ---------------------------------------------------------------- writing

  function Physical(sum: Sum, kind: byte, payload: bytes): (b: bytes)
    ensures |b| == HEADER + |payload|
  {
    Fixed(sum(kind, payload), 4) + Fixed(|payload|, 2) + [kind] + payload
  }

  function Kind(begin: bool, end: bool): byte {
    if begin && end then FULL else if begin then FIRST else if end then LAST else MIDDLE
  }

  function Zeros(n: nat): (z: bytes)
    ensures |z| == n
  {
    seq(n, i => 0)
  }

  /** Zero bytes that fill a block tail too small for a header. */
  function Padding(o: nat): (n: nat)
    requires o <= BLOCK
    ensures n < HEADER
  {
    if BLOCK - o < HEADER then BLOCK - o else 0
  }

  /** The block offset at which the next header goes. */
  function Start(o: nat): (s: nat)
    requires o <= BLOCK
    ensures s + HEADER <= BLOCK
  {
    if BLOCK - o < HEADER then 0 else o
  }

  /** How much of `left` bytes the next fragment takes. */
  function Share(o: nat, left: nat): (n: nat)
    requires o <= BLOCK
    ensures n <= left && Start(o) + HEADER + n <= BLOCK
    ensures n < left ==> Start(o) + HEADER + n == BLOCK
  {
    var room := BLOCK - Start(o) - HEADER;
    if left < room then left else room
  }

  /** The block offset after that fragment. */
  function AfterShare(o: nat, left: nat): (o': nat)
    requires o <= BLOCK
    ensures o' <= BLOCK
  {
    Start(o) + HEADER + Share(o, left)
  }

  /** The padding and fragment that start the rest `data` of a record at block offset `o`. */
  function Piece(sum: Sum, o: nat, data: bytes, begin: bool): (b: bytes)
    requires o <= BLOCK
    ensures |b| == Padding(o) + HEADER + Share(o, |data|)
  {
    var n := Share(o, |data|);
    Zeros(Padding(o)) + Physical(sum, Kind(begin, n == |data|), data[..n])
  }

  /** The bytes `AddRecord` appends for the rest `data` of a record at block offset `o`. */
  function Append(sum: Sum, o: nat, data: bytes, begin: bool): (b: bytes)
    requires o <= BLOCK
    decreases |data|, BLOCK - o
  {
    var n := Share(o, |data|);
    if n == |data| then Piece(sum, o, data, begin)
    else Piece(sum, o, data, begin) + Append(sum, AfterShare(o, |data|), data[n..], false)
  }

  // ---------------------------------------------------------------- reading

  /** What the reader makes of offset `p`: no more data, go to the next block, drop this block, or a fragment. */
  datatype Seen = Stop | Skip | Bad | Ok(kind: byte, payload: bytes, end: nat)

  /** The block of `p` is the file's last and is not full. */
  predicate Partial(f: bytes, p: nat) {
    |f| < BlockEnd(p)
  }

  function Limit(f: bytes, p: nat): nat {
    if Partial(f, p) then |f| else BlockEnd(p)
  }

  function LengthAt(f: bytes, p: nat): nat
    requires p + HEADER <= |f|
  {
    FromFixed(f[p + 4..p + 6])
  }

  function See(sum: Sum, f: bytes, p: nat): (s: Seen)
    ensures s.Ok? ==> p + HEADER <= s.end <= |f| && s.end <= BlockEnd(p)
  {
    if p + HEADER > Limit(f, p) then (if Partial(f, p) then Stop else Skip)
    else
      var end := p + HEADER + LengthAt(f, p);
      if end > Limit(f, p) then (if Partial(f, p) then Stop else Bad)
      else if f[p + 6] == 0 || f[p + 6] > LAST then Bad
      else if sum(f[p + 6], f[p + HEADER..end]) != FromFixed(f[p..p + 4]) then Bad
      else Ok(f[p + 6], f[p + HEADER..end], end)
  }

  /** The unfinished record after one more fragment. */
  function Held(frag: Option<bytes>, kind: byte, payload: bytes): Option<bytes> {
    if kind == FIRST then Some(payload)
    else if kind == MIDDLE && frag.Some? then Some(frag.value + payload)
    else None
  }

  /** The record that one more fragment finishes, if any. */
  function Finished(frag: Option<bytes>, kind: byte, payload: bytes): Option<bytes> {
    if kind == FULL then Some(payload)
    else if kind == LAST && frag.Some? then Some(frag.value + payload)
    else None
  }

  /** The records still to come, and the end of the last good fragment. */
  datatype Outcome = Outcome(records: seq<bytes>, validEnd: nat)

  function Emit(record: Option<bytes>, rest: Outcome): Outcome {
    if record.None? then rest else Outcome([record.value] + rest.records, rest.validEnd)
  }

  /** What reading on from `p` yields while `frag` is held and `validEnd` ends the last good fragment. */
  function Scan(sum: Sum, f: bytes, p: nat, frag: Option<bytes>, validEnd: nat): Outcome
    requires p <= |f| + BLOCK
    decreases |f| + BLOCK - p
  {
    var s := See(sum, f, p);
    if s.Stop? then Outcome([], validEnd)
    else if s.Skip? then Scan(sum, f, BlockEnd(p), frag, validEnd)
    else if s.Bad? then Scan(sum, f, BlockEnd(p), None, validEnd)
    else Emit(Finished(frag, s.kind, s.payload), Scan(sum, f, s.end, Held(frag, s.kind, s.payload), s.end))
  }

  /** Where each of those records ends. */
  function Ends(sum: Sum, f: bytes, p: nat, frag: Option<bytes>): seq<nat>
    requires p <= |f| + BLOCK
    decreases |f| + BLOCK - p
  {
    var s := See(sum, f, p);
    if s.Stop? then []
    else if s.Skip? then Ends(sum, f, BlockEnd(p), frag)
    else if s.Bad? then Ends(sum, f, BlockEnd(p), None)
    else EndMore(Finished(frag, s.kind, s.payload), s.end, Ends(sum, f, s.end, Held(frag, s.kind, s.payload)))
  }

  function EndMore(record: Option<bytes>, end: nat, ends: seq<nat>): seq<nat> {
    if record.None? then ends else [end] + ends
  }

  /** One for each record, inside the file. */
  lemma {:induction false} EndsMatch(sum: Sum, f: bytes, p: nat, frag: Option<bytes>, validEnd: nat)
    requires p <= |f| + BLOCK
    ensures |Ends(sum, f, p, frag)| == |Scan(sum, f, p, frag, validEnd).records|
    ensures forall i :: 0 <= i < |Ends(sum, f, p, frag)| ==> Ends(sum, f, p, frag)[i] <= |f|
    decreases |f| + BLOCK - p
  {
    var s := See(sum, f, p);
    if s.Skip? {
      EndsMatch(sum, f, BlockEnd(p), frag, validEnd);
    } else if s.Bad? {
      EndsMatch(sum, f, BlockEnd(p), None, validEnd);
    } else if s.Ok? {
      EndsMatch(sum, f, s.end, Held(frag, s.kind, s.payload), s.end);
    }
  }

  function Records(sum: Sum, f: bytes): seq<bytes> {
    Scan(sum, f, 0, None, 0).records
  }

  function ValidEnd(sum: Sum, f: bytes): nat {
    Scan(sum, f, 0, None, 0).validEnd
  }
}
