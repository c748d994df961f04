/** What a log reads as after appends, cuts and truncation, for any bytes already in the file. */
module LogProofs {
  import opened Bytes
  import opened Checksums
  import opened Coding
  import opened LogFormat
  import Seqs

  // ---------------------------------------------------------------- the end of the last good fragment

  /** Either nothing more is read, or the last good fragment ends at least a header further on. */
  lemma {:induction false} ScanEnd(sum: Sum, f: bytes, p: nat, frag: Option<bytes>, validEnd: nat)
    requires p <= |f| + BLOCK
    ensures var r := Scan(sum, f, p, frag, validEnd);
      (r == Outcome([], validEnd)) || p + HEADER <= r.validEnd <= |f|
    decreases |f| + BLOCK - p
  {
    var s := See(sum, f, p);
    if s.Skip? {
      ScanEnd(sum, f, BlockEnd(p), frag, validEnd);
    } else if s.Bad? {
      ScanEnd(sum, f, BlockEnd(p), None, validEnd);
    } else if s.Ok? {
      ScanEnd(sum, f, s.end, Held(frag, s.kind, s.payload), s.end);
    }
  }

  /** `f` and `g` agree before `v`. */
  predicate Agree(f: bytes, g: bytes, v: nat) {
    v <= |f| && v <= |g| && f[..v] == g[..v]
  }

  lemma AgreeSlice(f: bytes, g: bytes, v: nat, i: nat, j: nat)
    requires Agree(f, g, v) && i <= j <= v
    ensures f[i..j] == g[i..j]
  {
    assert f[i..j] == f[..v][i..j];
    assert g[i..j] == g[..v][i..j];
  }

  /** A fragment that lies in the common part is seen alike. */
  lemma SeeAgreeOk(sum: Sum, f: bytes, g: bytes, v: nat, p: nat)
    requires Agree(f, g, v) && See(sum, f, p).Ok? && See(sum, f, p).end <= v
    ensures See(sum, g, p) == See(sum, f, p)
  {
    var end := See(sum, f, p).end;
    AgreeSlice(f, g, v, p, p + 4);
    AgreeSlice(f, g, v, p + 4, p + 6);
    AgreeSlice(f, g, v, p + 6, p + 7);
    AgreeSlice(f, g, v, p + HEADER, end);
    assert f[p + 6] == f[p + 6..p + 7][0] && g[p + 6] == g[p + 6..p + 7][0];
  }

  /** A block that lies in the common part, but for its end of file, is left alike. */
  lemma SeeAgreeBlock(sum: Sum, f: bytes, g: bytes, v: nat, p: nat)
    requires Agree(f, g, v) && BlockEnd(p) <= v
    ensures See(sum, g, p) == See(sum, f, p) && !See(sum, f, p).Stop?
  {
    if p + HEADER <= BlockEnd(p) {
      AgreeSlice(f, g, v, p, p + 4);
      AgreeSlice(f, g, v, p + 4, p + 6);
      AgreeSlice(f, g, v, p + 6, p + 7);
      assert f[p + 6] == f[p + 6..p + 7][0] && g[p + 6] == g[p + 6..p + 7][0];
      var end := p + HEADER + LengthAt(f, p);
      if end <= BlockEnd(p) {
        AgreeSlice(f, g, v, p + HEADER, end);
      }
    }
  }

  function Prepend(records: seq<bytes>, rest: Outcome): Outcome {
    Outcome(records + rest.records, rest.validEnd)
  }

  lemma EmitPrepend(record: Option<bytes>, inner: Outcome, rest: Outcome)
    ensures Emit(record, Prepend(inner.records, rest)) == Prepend(Emit(record, inner).records, rest)
  {
    if record.Some? {
      Seqs.Assoc([record.value], inner.records, rest.records);
    }
  }

  /** Reading another file that agrees with `f` up to the end of `f`'s last good fragment gives `f`'s records, then
      goes on there. */
  lemma {:induction false} Resume(sum: Sum, f: bytes, g: bytes, p: nat, frag: Option<bytes>, validEnd: nat)
    returns (held: Option<bytes>)
    requires p <= |f| + BLOCK && p <= |g| + BLOCK
    requires var v := Scan(sum, f, p, frag, validEnd).validEnd;
      Agree(f, g, v) && validEnd <= p && (p == validEnd || validEnd < v)
    ensures var r := Scan(sum, f, p, frag, validEnd);
      Scan(sum, g, p, frag, validEnd) == Prepend(r.records, Scan(sum, g, r.validEnd, held, r.validEnd))
    decreases |f| + BLOCK - p
  {
    var r := Scan(sum, f, p, frag, validEnd);
    var v := r.validEnd;
    ScanEnd(sum, f, p, frag, validEnd);
    if v == validEnd {
      held := frag;
      ScanNothing(sum, g, p, frag);
    } else {
      var s := See(sum, f, p);
      if s.Ok? {
        var next := Held(frag, s.kind, s.payload);
        var inner := Scan(sum, f, s.end, next, s.end);
        ScanEnd(sum, f, s.end, next, s.end);
        SeeAgreeOk(sum, f, g, v, p);
        held := Resume(sum, f, g, s.end, next, s.end);
        EmitPrepend(Finished(frag, s.kind, s.payload), inner, Scan(sum, g, v, held, v));
      } else {
        var e, next := BlockEnd(p), if s.Bad? then None else frag;
        ScanEnd(sum, f, e, next, validEnd);
        SeeAgreeBlock(sum, f, g, v, p);
        held := Resume(sum, f, g, e, next, validEnd);
      }
    }
  }

  lemma ScanNothing(sum: Sum, g: bytes, p: nat, frag: Option<bytes>)
    requires p <= |g| + BLOCK
    ensures Prepend([], Scan(sum, g, p, frag, p)) == Scan(sum, g, p, frag, p)
  {
    Seqs.Nil(Scan(sum, g, p, frag, p).records);
  }

  // ---------------------------------------------------------------- reading what was appended

  lemma PhysicalParts(a: bytes, b: bytes, kind: byte, payload: bytes)
    requires |a| == 4 && |b| == 2
    ensures var ph := a + b + [kind] + payload;
      ph[0..4] == a && ph[4..6] == b && ph[6] == kind && ph[HEADER..|ph|] == payload
  {
  }

  /** The reader sees the fragment that was written. */
  lemma SeePhysical(sum: Sum, f: bytes, q: nat, kind: byte, payload: bytes, end: nat)
    requires Seqs.At(f, q, Physical(sum, kind, payload)) && end == q + HEADER + |payload|
    requires 0 < kind <= LAST && Offset(q) + HEADER + |payload| <= BLOCK
    ensures See(sum, f, q) == Ok(kind, payload, end)
  {
    var ph := Physical(sum, kind, payload);
    PhysicalParts(Fixed(sum(kind, payload), 4), Fixed(|payload|, 2), kind, payload);
    Seqs.AtSlice(f, q, ph, 0, 4);
    Seqs.AtSlice(f, q, ph, 4, 6);
    Seqs.AtSlice(f, q, ph, HEADER, |ph|);
    Seqs.AtIndex(f, q, ph, 6);
    Fixed32RoundTrip(sum(kind, payload));
    Fixed16RoundTrip(|payload|);
  }

  lemma SeesOnlyFragments(sum: Sum, f: bytes, p: nat)
    requires See(sum, f, p).Ok?
    ensures var (kind, payload) := (See(sum, f, p).kind, See(sum, f, p).payload);
      && 1 <= kind <= 4 && p % 32768 + 7 + |payload| <= 32768
      && Seqs.At(f, p, Fixed(sum(kind, payload), 4) + Fixed(|payload|, 2) + [kind] + payload)
  {
    var s := See(sum, f, p);
    FixedOnto(f[p..p + 4]);
    FixedOnto(f[p + 4..p + 6]);
    HeaderJoined(f, p, f[p..p + 4], f[p + 4..p + 6], s.kind, s.payload);
  }

  lemma HeaderJoined(f: bytes, p: nat, a: bytes, b: bytes, kind: byte, payload: bytes)
    requires p + HEADER + |payload| <= |f| && a == f[p..p + 4] && b == f[p + 4..p + 6] && kind == f[p + 6]
    requires payload == f[p + HEADER..p + HEADER + |payload|]
    ensures Seqs.At(f, p, a + b + [kind] + payload)
  {
  }

  /** A fragment is seen exactly where it stands: checksum, length, type and payload, inside one block. */
  lemma SeesExactly(sum: Sum, f: bytes, p: nat, kind: byte, payload: bytes, end: nat)
    ensures See(sum, f, p) == Ok(kind, payload, end)
       <==> && 1 <= kind <= 4 && p % 32768 + 7 + |payload| <= 32768 && end == p + 7 + |payload|
            && Seqs.At(f, p, Fixed(sum(kind, payload), 4) + Fixed(|payload|, 2) + [kind] + payload)
  {
    if See(sum, f, p) == Ok(kind, payload, end) {
      SeesOnlyFragments(sum, f, p);
    } else if 1 <= kind <= 4 && p % 32768 + 7 + |payload| <= 32768 && end == p + 7 + |payload|
      && Seqs.At(f, p, Physical(sum, kind, payload)) {
      SeePhysical(sum, f, p, kind, payload, end);
    }
  }

  /** What else the reader makes of a place: the end of the log, when the file ends before the block does and before
      what is announced; the rest of a block too short for a header; or a bad block. */
  lemma SeesElse(sum: Sum, f: bytes, p: nat)
    ensures var end := (p / 32768 + 1) * 32768;
      && (See(sum, f, p).Stop? <==> |f| < end && (p + 7 > |f| || p + 7 + FromFixed(f[p + 4..p + 6]) > |f|))
      && (See(sum, f, p).Skip? <==> end <= |f| && p + 7 > end)
  {
  }

  /** A fragment cut short at the end of the file ends the reading. */
  lemma SeePhysicalCut(sum: Sum, f: bytes, q: nat, kind: byte, payload: bytes, d: nat)
    requires d < HEADER + |payload| && q + d == |f| && Seqs.At(f, q, Physical(sum, kind, payload)[..d])
    requires Offset(q) + HEADER + |payload| <= BLOCK
    ensures See(sum, f, q) == Stop
  {
    if d >= HEADER {
      var ph := Physical(sum, kind, payload);
      PhysicalParts(Fixed(sum(kind, payload), 4), Fixed(|payload|, 2), kind, payload);
      Seqs.AtSlice(f, q, ph[..d], 4, 6);
      Seqs.SliceOfTake(ph, 4, 6, d);
      Fixed16RoundTrip(|payload|);
    }
  }

  /** `p` and the block offset `o` of a writer standing there. */
  predicate Matches(p: nat, o: nat) {
    o <= BLOCK && o % BLOCK == Offset(p)
  }

  /** The reader steps over padding, unless the file ends inside it. */
  lemma SeePadding(sum: Sum, f: bytes, p: nat, o: nat)
    requires Matches(p, o)
    ensures Offset(p + Padding(o)) == Start(o)
    ensures Padding(o) > 0 ==> BlockEnd(p) == p + Padding(o)
    ensures Padding(o) > 0 && |f| >= p + Padding(o) ==> See(sum, f, p) == Skip
    ensures Padding(o) > 0 && |f| < p + Padding(o) ==> See(sum, f, p) == Stop
  {
  }

  /** Scanning past padding to the next header. */
  lemma ScanPadding(sum: Sum, f: bytes, p: nat, o: nat, q: nat, frag: Option<bytes>, validEnd: nat)
    requires Matches(p, o) && q == p + Padding(o) && q <= |f|
    ensures Scan(sum, f, p, frag, validEnd) == Scan(sum, f, q, frag, validEnd)
  {
    SeePadding(sum, f, p, o);
    if Padding(o) == 0 {
      assert p == q;
    } else {
      assert BlockEnd(p) == q;
    }
  }

  lemma PaddingLands(p: nat, o: nat, q: nat)
    requires Matches(p, o) && q == p + Padding(o)
    ensures Offset(q) == Start(o)
  {
  }

  /** Within a block, to its end at most. */
  lemma OffsetMore(q: nat, n: nat)
    requires Offset(q) + n <= BLOCK
    ensures Matches(q + n, Offset(q) + n)
  {
  }

  /** The block offset after a fragment matches the position after it. */
  lemma AfterMatches(p: nat, o: nat, left: nat)
    requires Matches(p, o)
    ensures Matches(p + Padding(o) + HEADER + Share(o, left), AfterShare(o, left))
  {
    var q, n := p + Padding(o), HEADER + Share(o, left);
    PaddingLands(p, o, q);
    OffsetMore(q, n);
  }

  lemma ScanOk(sum: Sum, f: bytes, q: nat, kind: byte, payload: bytes, end: nat, frag: Option<bytes>, validEnd: nat)
    requires q <= |f| && See(sum, f, q) == Ok(kind, payload, end)
    ensures Scan(sum, f, q, frag, validEnd)
         == Emit(Finished(frag, kind, payload), Scan(sum, f, end, Held(frag, kind, payload), end))
  {
  }

  lemma ScanPiece(sum: Sum, f: bytes, p: nat, o: nat, data: bytes, begin: bool, frag: Option<bytes>, validEnd: nat,
                  kind: byte, payload: bytes, end: nat)
    requires Matches(p, o) && Seqs.At(f, p, Piece(sum, o, data, begin))
    requires kind == Kind(begin, Share(o, |data|) == |data|) && payload == data[..Share(o, |data|)]
    requires end == p + |Piece(sum, o, data, begin)|
    ensures Scan(sum, f, p, frag, validEnd)
         == Emit(Finished(frag, kind, payload), Scan(sum, f, end, Held(frag, kind, payload), end))
  {
    var q := p + Padding(o);
    Seqs.AtSplit(f, p, Zeros(Padding(o)), Physical(sum, kind, payload));
    SeePadding(sum, f, p, o);
    ScanPadding(sum, f, p, o, q, frag, validEnd);
    SeePhysical(sum, f, q, kind, payload, end);
    ScanOk(sum, f, q, kind, payload, end, frag, validEnd);
  }

  /** Reading at `p` yields `record`, then whatever follows `end`. */
  ghost predicate Yields(sum: Sum, f: bytes, p: nat, frag: Option<bytes>, validEnd: nat, record: bytes, end: nat)
    requires p <= |f| + BLOCK && end <= |f| + BLOCK
  {
    Scan(sum, f, p, frag, validEnd) == Emit(Some(record), Scan(sum, f, end, None, end))
  }

  lemma ScanAppendLast(sum: Sum, f: bytes, p: nat, o: nat, data: bytes, begin: bool, acc: bytes,
                       frag: Option<bytes>, validEnd: nat, end: nat)
    requires Matches(p, o) && Share(o, |data|) == |data| && Seqs.At(f, p, Append(sum, o, data, begin))
    requires if begin then acc == [] else frag == Some(acc)
    requires end == p + |Append(sum, o, data, begin)|
    ensures Yields(sum, f, p, frag, validEnd, acc + data, end)
  {
    Seqs.Nil(data);
    Seqs.TakeAll(data);
    ScanPiece(sum, f, p, o, data, begin, frag, validEnd, Kind(begin, true), data, end);
  }

  /** A record found where it was appended is read whole, whatever was held before it. */
  lemma {:induction false} ScanAppend(sum: Sum, f: bytes, p: nat, o: nat, data: bytes, begin: bool, acc: bytes,
                                      frag: Option<bytes>, validEnd: nat, end: nat)
    requires Matches(p, o) && Seqs.At(f, p, Append(sum, o, data, begin))
    requires if begin then acc == [] else frag == Some(acc)
    requires end == p + |Append(sum, o, data, begin)|
    ensures Yields(sum, f, p, frag, validEnd, acc + data, end)
    decreases |data|, BLOCK - o
  {
    var n := Share(o, |data|);
    if n == |data| {
      ScanAppendLast(sum, f, p, o, data, begin, acc, frag, validEnd, end);
    } else {
      var o', rest, acc' := AfterShare(o, |data|), data[n..], acc + data[..n];
      var mid := p + |Piece(sum, o, data, begin)|;
      AppendParts(sum, f, p, o, data, begin, end, o', rest, mid);
      ScanAppendMore(sum, f, p, o, data, begin, acc, frag, validEnd, acc', mid);
      AccSplit(acc, data, n);
      ScanAppend(sum, f, mid, o', rest, false, acc', Some(acc'), mid, end);
    }
  }

  lemma AppendParts(sum: Sum, f: bytes, p: nat, o: nat, data: bytes, begin: bool, end: nat, o': nat, rest: bytes,
                    mid: nat)
    requires Matches(p, o) && Share(o, |data|) < |data| && Seqs.At(f, p, Append(sum, o, data, begin))
    requires end == p + |Append(sum, o, data, begin)| && mid == p + |Piece(sum, o, data, begin)|
    requires o' == AfterShare(o, |data|) && rest == data[Share(o, |data|)..]
    ensures Seqs.At(f, p, Piece(sum, o, data, begin))
    ensures Matches(mid, o') && Seqs.At(f, mid, Append(sum, o', rest, false))
      && end == mid + |Append(sum, o', rest, false)|
  {
    Seqs.AtSplit(f, p, Piece(sum, o, data, begin), Append(sum, o', rest, false));
    AfterMatches(p, o, |data|);
  }

  lemma ScanAppendMore(sum: Sum, f: bytes, p: nat, o: nat, data: bytes, begin: bool, acc: bytes, frag: Option<bytes>,
                       validEnd: nat, acc': bytes, mid: nat)
    requires Matches(p, o) && Share(o, |data|) < |data| && Seqs.At(f, p, Piece(sum, o, data, begin))
    requires if begin then acc == [] else frag == Some(acc)
    requires mid == p + |Piece(sum, o, data, begin)| && acc' == acc + data[..Share(o, |data|)]
    ensures Scan(sum, f, p, frag, validEnd) == Scan(sum, f, mid, Some(acc'), mid)
  {
    var part := data[..Share(o, |data|)];
    ScanPiece(sum, f, p, o, data, begin, frag, validEnd, Kind(begin, false), part, mid);
    Seqs.Nil(part);
  }

  lemma AccSplit(acc: bytes, data: bytes, n: nat)
    requires n <= |data|
    ensures (acc + data[..n]) + data[n..] == acc + data
  {
    Seqs.Rejoin(data, n);
    Seqs.Assoc(acc, data[..n], data[n..]);
  }

  // ---------------------------------------------------------------- the bytes of a long record

  /** The type of fragment `k` of `n`. */
  function KindOf(k: nat, n: nat): byte {
    if n == 1 then 1 else if k == 0 then 2 else if k == n - 1 then 4 else 3
  }

  /** How many fragments a record takes that starts a block. */
  function Fragments(n: nat): nat {
    if n == 0 then 1 else (n + 32760) / 32761
  }

  /** Bytes `from` to `to` of a record, as far as it goes. */
  function Part(data: bytes, from: nat, to: nat): bytes
    requires from <= to && from <= |data|
  {
    if to <= |data| then data[from..to] else data[from..]
  }

  /** A writer at a block's start or at the end of the one before. */
  predicate AtBlock(o: nat) {
    o == 0 || o == 32768
  }

  lemma BlockPiece(sum: Sum, o: nat, data: bytes, begin: bool)
    requires AtBlock(o)
    ensures var part, last := Part(data, 0, 32761), |data| <= 32761;
      Piece(sum, o, data, begin) == Physical(sum, Kind(begin, last), part)
    ensures Share(o, |data|) == |Part(data, 0, 32761)| && (|data| > 32761 ==> AfterShare(o, |data|) == 32768)
  {
    assert Zeros(0) == [];
    var n := Share(o, |data|);
    assert data[..n] == Part(data, 0, 32761);
    Seqs.Nil(Physical(sum, Kind(begin, n == |data|), data[..n]));
  }

  /** Fragment `k` of the bytes appended for `data`. */
  ghost predicate FragmentAt(sum: Sum, o: nat, data: bytes, begin: bool, k: nat, kind: byte)
    requires o <= BLOCK && 32761 * k <= |data|
  {
    Seqs.At(Append(sum, o, data, begin), 32768 * k, Physical(sum, kind, Part(data, 32761 * k, 32761 * k + 32761)))
  }

  lemma FirstLaid(sum: Sum, o: nat, data: bytes, begin: bool)
    requires AtBlock(o)
    ensures FragmentAt(sum, o, data, begin, 0, Kind(begin, |data| <= 32761))
    ensures |data| > 32761 ==>
      Append(sum, o, data, begin)
      == Physical(sum, Kind(begin, false), data[..32761]) + Append(sum, 32768, data[32761..], false)
  {
    BlockPiece(sum, o, data, begin);
    if |data| > 32761 {
      assert Part(data, 0, 32761) == data[..32761];
      Seqs.AtStart(Physical(sum, Kind(begin, false), data[..32761]), Append(sum, 32768, data[32761..], false));
    } else {
      Seqs.AtStart(Physical(sum, Kind(begin, true), Part(data, 0, 32761)), []);
      Seqs.Nil(Physical(sum, Kind(begin, true), Part(data, 0, 32761)));
    }
  }

  lemma NextLaid(whole: bytes, first: bytes, tail: bytes, part: bytes, p: nat, q: nat)
    requires whole == first + tail && Seqs.At(tail, p, part) && q == |first| + p
    ensures Seqs.At(whole, q, part)
  {
    assert whole[q..q + |part|] == tail[p..p + |part|];
  }

  lemma PartBehind(data: bytes, from: nat, to: nat)
    requires 32761 <= from <= to && from <= |data|
    ensures Part(data[32761..], from - 32761, to - 32761) == Part(data, from, to)
  {
  }

  lemma FewerFragments(n: nat)
    requires n > 32761
    ensures Fragments(n) == Fragments(n - 32761) + 1
  {
  }

  lemma BehindLaid(sum: Sum, o: nat, data: bytes, begin: bool, rest: bytes, first: bytes, j: nat, k: nat, kind: byte)
    requires AtBlock(o) && |data| > 32761 && rest == data[32761..] && k == j + 1 && 32761 * k <= |data|
    requires |first| == 32768 && Append(sum, o, data, begin) == first + Append(sum, 32768, rest, false)
    requires FragmentAt(sum, 32768, rest, false, j, kind)
    ensures FragmentAt(sum, o, data, begin, k, kind)
  {
    var from := 32761 * k;
    var part := Part(data, from, from + 32761);
    PartBehind(data, from, from + 32761);
    assert part == Part(rest, 32761 * j, 32761 * j + 32761);
    PieceBehind(Append(sum, o, data, begin), first, Append(sum, 32768, rest, false), Physical(sum, kind, part), j, k);
  }

  lemma PieceBehind(whole: bytes, first: bytes, tail: bytes, part: bytes, j: nat, k: nat)
    requires whole == first + tail && |first| == 32768 && k == j + 1 && Seqs.At(tail, 32768 * j, part)
    ensures Seqs.At(whole, 32768 * k, part)
  {
    NextLaid(whole, first, tail, part, 32768 * j, 32768 * k);
  }

  lemma {:induction false} FragmentsLaid(sum: Sum, o: nat, data: bytes, begin: bool, k: nat)
    requires AtBlock(o) && k < Fragments(|data|)
    ensures 32761 * k <= |data|
      && FragmentAt(sum, o, data, begin, k, Kind(begin && k == 0, k == Fragments(|data|) - 1))
    decreases k
  {
    FirstLaid(sum, o, data, begin);
    if k > 0 {
      var rest, j := data[32761..], k - 1;
      FewerFragments(|data|);
      FragmentsLaid(sum, 32768, rest, false, j);
      BehindLaid(sum, o, data, begin, rest, Physical(sum, Kind(begin, false), data[..32761]), j, k,
                 Kind(false, j == Fragments(|rest|) - 1));
    }
  }

  /** With less than a header's room left in the block, zeros fill it, and the record starts the next one. */
  lemma ZerosFill(sum: Sum, o: nat, data: bytes, k: nat)
    requires 32768 - 7 < o <= 32768
    ensures |Append(sum, o, data, true)| >= 32768 - o
    ensures k < 32768 - o ==> Append(sum, o, data, true)[k] == 0
    ensures Append(sum, o, data, true)[32768 - o..] == Append(sum, 0, data, true)
  {
    var n, n0 := Share(o, |data|), Share(0, |data|);
    assert n == n0 && AfterShare(o, |data|) == AfterShare(0, |data|);
    var ph := Physical(sum, Kind(true, n == |data|), data[..n]);
    var tail := if n == |data| then [] else Append(sum, AfterShare(o, |data|), data[n..], false);
    Seqs.Nil(ph);
    assert Zeros(0) == [];
    Seqs.Nil(Zeros(Padding(o)) + ph);
    Seqs.Assoc(Zeros(Padding(o)), ph, tail);
    Seqs.DropRight(Zeros(Padding(o)), ph + tail, Padding(o));
    Seqs.DropNone(ph + tail);
  }

  /** A record written at a block's start: fragment `k` fills block `k` up to the last one, with 32761 bytes of the
      record each, the types telling the first and the last. */
  lemma RecordLaid(sum: Sum, data: bytes, k: nat)
    requires k < Fragments(|data|)
    ensures 32761 * k <= |data| && FragmentAt(sum, 0, data, true, k, KindOf(k, Fragments(|data|)))
  {
    FragmentsLaid(sum, 0, data, true, k);
  }

  // ---------------------------------------------------------------- reading an append that was cut short

  lemma ScanStop(sum: Sum, f: bytes, p: nat, frag: Option<bytes>, validEnd: nat)
    requires p <= |f| + BLOCK && See(sum, f, p) == Stop
    ensures Scan(sum, f, p, frag, validEnd).records == []
  {
  }

  lemma SeeHeaderCut(sum: Sum, f: bytes, q: nat, o: nat, data: bytes, begin: bool, d: nat)
    requires o <= BLOCK && Offset(q) == Start(o)
    requires d < HEADER + Share(o, |data|) && q + d == |f|
    requires Seqs.At(f, q, Physical(sum, Kind(begin, Share(o, |data|) == |data|), data[..Share(o, |data|)])[..d])
    ensures See(sum, f, q) == Stop
  {
    var n := Share(o, |data|);
    SeePhysicalCut(sum, f, q, Kind(begin, n == |data|), data[..n], d);
  }

  lemma ScanPieceCut(sum: Sum, f: bytes, p: nat, o: nat, data: bytes, begin: bool, c: nat, frag: Option<bytes>,
                     validEnd: nat)
    requires Matches(p, o) && c < |Piece(sum, o, data, begin)| && p + c == |f|
    requires Seqs.At(f, p, Piece(sum, o, data, begin)[..c])
    ensures Scan(sum, f, p, frag, validEnd).records == []
  {
    SeePadding(sum, f, p, o);
    if c < Padding(o) {
      ScanStop(sum, f, p, frag, validEnd);
    } else {
      ScanHeaderCut(sum, f, p, o, data, begin, c, p + Padding(o), c - Padding(o), frag, validEnd);
    }
  }

  lemma ScanHeaderCut(sum: Sum, f: bytes, p: nat, o: nat, data: bytes, begin: bool, c: nat, q: nat, d: nat,
                      frag: Option<bytes>, validEnd: nat)
    requires Matches(p, o) && c < |Piece(sum, o, data, begin)| && p + c == |f|
    requires Seqs.At(f, p, Piece(sum, o, data, begin)[..c]) && q == p + Padding(o) && c == Padding(o) + d
    ensures Scan(sum, f, p, frag, validEnd).records == []
  {
    var n := Share(o, |data|);
    SeePadding(sum, f, p, o);
    Seqs.AtCut(f, p, Zeros(Padding(o)), Physical(sum, Kind(begin, n == |data|), data[..n]), c);
    ScanPadding(sum, f, p, o, q, frag, validEnd);
    SeeHeaderCut(sum, f, q, o, data, begin, d);
    ScanStop(sum, f, q, frag, validEnd);
  }

  /** A record whose append was cut anywhere before its last byte is not read, not even in part. */
  lemma {:induction false} ScanCut(sum: Sum, f: bytes, p: nat, o: nat, data: bytes, begin: bool, c: nat,
                                   frag: Option<bytes>, validEnd: nat)
    requires Matches(p, o) && c < |Append(sum, o, data, begin)| && p + c == |f|
    requires Seqs.At(f, p, Append(sum, o, data, begin)[..c])
    ensures Scan(sum, f, p, frag, validEnd).records == []
    decreases |data|, BLOCK - o
  {
    var n, piece := Share(o, |data|), Piece(sum, o, data, begin);
    if n == |data| {
      ScanPieceCut(sum, f, p, o, data, begin, c, frag, validEnd);
    } else {
      var o', rest := AfterShare(o, |data|), data[n..];
      if c < |piece| {
        Seqs.TakeLeft(piece, Append(sum, o', rest, false), c);
        ScanPieceCut(sum, f, p, o, data, begin, c, frag, validEnd);
      } else {
        var mid, c', part := p + |piece|, c - |piece|, data[..n];
        CutParts(sum, f, p, o, data, begin, c, o', rest, mid, c');
        ScanPiece(sum, f, p, o, data, begin, frag, validEnd, Kind(begin, false), part, mid);
        ScanCut(sum, f, mid, o', rest, false, c', Held(frag, Kind(begin, false), part), mid);
      }
    }
  }

  /** A cut behind the first fragment. */
  lemma CutParts(sum: Sum, f: bytes, p: nat, o: nat, data: bytes, begin: bool, c: nat, o': nat, rest: bytes, mid: nat,
                 c': nat)
    requires Matches(p, o) && Share(o, |data|) < |data| && c < |Append(sum, o, data, begin)| && p + c == |f|
    requires Seqs.At(f, p, Append(sum, o, data, begin)[..c])
    requires o' == AfterShare(o, |data|) && rest == data[Share(o, |data|)..]
    requires mid == p + |Piece(sum, o, data, begin)| && c == mid - p + c'
    ensures Seqs.At(f, p, Piece(sum, o, data, begin)) && Matches(mid, o')
    ensures c' < |Append(sum, o', rest, false)| && mid + c' == |f|
      && Seqs.At(f, mid, Append(sum, o', rest, false)[..c'])
  {
    Seqs.AtCut(f, p, Piece(sum, o, data, begin), Append(sum, o', rest, false), c);
    AfterMatches(p, o, |data|);
  }

  // ---------------------------------------------------------------- whole logs

  /** Where the record at `p` ends. */
  function EndOf(sum: Sum, p: nat, record: bytes): nat {
    p + |Append(sum, Offset(p), record, true)|
  }

  /** The bytes a writer standing at offset `p` of the file appends for `rs`. */
  function AppendAll(sum: Sum, p: nat, rs: seq<bytes>): bytes
    decreases |rs|
  {
    if rs == [] then []
    else Append(sum, Offset(p), rs[0], true) + AppendAll(sum, EndOf(sum, p, rs[0]), rs[1..])
  }

  /** How many of `rs` are complete in the first `c` of those bytes. */
  function Complete(sum: Sum, p: nat, rs: seq<bytes>, c: nat): (n: nat)
    ensures n <= |rs|
    decreases |rs|
  {
    if rs == [] then 0 else
    var n := |Append(sum, Offset(p), rs[0], true)|;
    if c < n then 0 else 1 + Complete(sum, EndOf(sum, p, rs[0]), rs[1..], c - n)
  }

  /** Reading from `p` on yields exactly `rs`. */
  ghost predicate Reads(sum: Sum, f: bytes, p: nat, frag: Option<bytes>, validEnd: nat, rs: seq<bytes>)
    requires p <= |f| + BLOCK
  {
    Scan(sum, f, p, frag, validEnd).records == rs
  }

  lemma ReadsNone(sum: Sum, f: bytes, p: nat, frag: Option<bytes>, validEnd: nat)
    requires p == |f|
    ensures Reads(sum, f, p, frag, validEnd, [])
  {
    ScanStop(sum, f, p, frag, validEnd);
  }

  lemma CompleteNone(sum: Sum, p: nat, rs: seq<bytes>, c: nat)
    requires rs == [] || c < |Append(sum, Offset(p), rs[0], true)|
    ensures rs[..Complete(sum, p, rs, c)] == []
  {
  }

  lemma CompleteNext(sum: Sum, p: nat, rs: seq<bytes>, c: nat, end: nat, c': nat)
    requires rs != [] && end == p + |Append(sum, Offset(p), rs[0], true)| && c == end - p + c'
    ensures Complete(sum, p, rs, c) == 1 + Complete(sum, end, rs[1..], c')
  {
  }

  lemma CompleteMore(sum: Sum, p: nat, rs: seq<bytes>, c: nat, end: nat, c': nat)
    requires rs != [] && end == p + |Append(sum, Offset(p), rs[0], true)| && c == end - p + c'
    ensures rs[..Complete(sum, p, rs, c)] == [rs[0]] + rs[1..][..Complete(sum, end, rs[1..], c')]
  {
    var n := Complete(sum, end, rs[1..], c');
    CompleteNext(sum, p, rs, c, end, c');
    assert [rs[0]] + rs[1..][..n] == rs[..n + 1];
  }

  lemma ReadsMore(sum: Sum, f: bytes, p: nat, frag: Option<bytes>, validEnd: nat, record: bytes, end: nat,
                  rest: seq<bytes>)
    requires p <= end <= |f| && Seqs.At(f, p, Append(sum, Offset(p), record, true))
    requires end == p + |Append(sum, Offset(p), record, true)| && Reads(sum, f, end, None, end, rest)
    ensures Reads(sum, f, p, frag, validEnd, [record] + rest)
  {
    ScanAppend(sum, f, p, Offset(p), record, true, [], frag, validEnd, end);
    Seqs.Nil(record);
  }

  /** Reading, from `p`, a file that ends in a cut of `AppendAll` yields the complete records. */
  lemma {:induction false} ScanAll(sum: Sum, f: bytes, p: nat, rs: seq<bytes>, c: nat, frag: Option<bytes>,
                                   validEnd: nat)
    requires c <= |AppendAll(sum, p, rs)| && p + c == |f| && Seqs.At(f, p, AppendAll(sum, p, rs)[..c])
    ensures Reads(sum, f, p, frag, validEnd, rs[..Complete(sum, p, rs, c)])
    decreases |rs|
  {
    if rs == [] {
      CompleteNone(sum, p, rs, c);
      ReadsNone(sum, f, p, frag, validEnd);
    } else {
      var a := Append(sum, Offset(p), rs[0], true);
      var end := p + |a|;
      if c < |a| {
        CompleteNone(sum, p, rs, c);
        FirstCut(sum, f, p, rs, c, frag, validEnd);
      } else {
        var c' := c - |a|;
        AllParts(sum, f, p, rs, c, end, c');
        ScanAll(sum, f, end, rs[1..], c', None, end);
        CompleteMore(sum, p, rs, c, end, c');
        ReadsMore(sum, f, p, frag, validEnd, rs[0], end, rs[1..][..Complete(sum, end, rs[1..], c')]);
      }
    }
  }

  /** The cut lies in the first record. */
  lemma FirstCut(sum: Sum, f: bytes, p: nat, rs: seq<bytes>, c: nat, frag: Option<bytes>, validEnd: nat)
    requires rs != [] && c < |Append(sum, Offset(p), rs[0], true)|
    requires p + c == |f| && Seqs.At(f, p, AppendAll(sum, p, rs)[..c])
    ensures Reads(sum, f, p, frag, validEnd, [])
  {
    var a := Append(sum, Offset(p), rs[0], true);
    Seqs.TakeLeft(a, AppendAll(sum, p + |a|, rs[1..]), c);
    OffsetMatches(p);
    ScanCut(sum, f, p, Offset(p), rs[0], true, c, frag, validEnd);
  }

  /** The cut lies behind it. */
  lemma AllParts(sum: Sum, f: bytes, p: nat, rs: seq<bytes>, c: nat, end: nat, c': nat)
    requires rs != [] && end == p + |Append(sum, Offset(p), rs[0], true)| && c == end - p + c'
    requires c <= |AppendAll(sum, p, rs)| && p + c == |f| && Seqs.At(f, p, AppendAll(sum, p, rs)[..c])
    ensures Seqs.At(f, p, Append(sum, Offset(p), rs[0], true)) && end + c' == |f|
    ensures c' <= |AppendAll(sum, end, rs[1..])| && Seqs.At(f, end, AppendAll(sum, end, rs[1..])[..c'])
  {
    Seqs.AtCut(f, p, Append(sum, Offset(p), rs[0], true), AppendAll(sum, end, rs[1..]), c);
  }

  /** What recovery keeps of a log file. */
  function Truncated(sum: Sum, f: bytes): bytes {
    ScanEnd(sum, f, 0, None, 0);
    f[..ValidEnd(sum, f)]
  }

  /** For any bytes in the file: truncate at the last good fragment, resume writing there, and stop
      anywhere in the middle. The file then reads as its old records followed by the complete new ones. */
  lemma WriteReadCut(sum: Sum, f: bytes, rs: seq<bytes>, c: nat)
    requires c <= |AppendAll(sum, |Truncated(sum, f)|, rs)|
    ensures var kept := Truncated(sum, f);
      Records(sum, kept + AppendAll(sum, |kept|, rs)[..c]) == Records(sum, f) + rs[..Complete(sum, |kept|, rs, c)]
  {
    ScanEnd(sum, f, 0, None, 0);
    var kept := Truncated(sum, f);
    var v := |kept|;
    var added := AppendAll(sum, v, rs)[..c];
    var g := kept + added;
    Seqs.TakeLeft(kept, added, v);
    Seqs.TakeAll(kept);
    var held := Resume(sum, f, g, 0, None, 0);
    assert g[v..v + |added|] == added;
    ScanAll(sum, g, v, rs, c, held, v);
  }

  /** With nothing missing, every record is complete. */
  lemma {:induction false} AllComplete(sum: Sum, p: nat, rs: seq<bytes>, n: nat)
    requires n == |AppendAll(sum, p, rs)|
    ensures Complete(sum, p, rs, n) == |rs|
    decreases |rs|
  {
    if rs != [] {
      var end := p + |Append(sum, Offset(p), rs[0], true)|;
      var n' := |AppendAll(sum, end, rs[1..])|;
      AllComplete(sum, end, rs[1..], n');
      CompleteNext(sum, p, rs, n, end, n');
    }
  }

  /** The round trip: what was in the file, then everything written. */
  lemma WriteRead(sum: Sum, f: bytes, rs: seq<bytes>)
    ensures var kept := Truncated(sum, f);
      Records(sum, kept + AppendAll(sum, |kept|, rs)) == Records(sum, f) + rs
  {
    var kept := Truncated(sum, f);
    var added := AppendAll(sum, |kept|, rs);
    WriteReadCut(sum, f, rs, |added|);
    AllComplete(sum, |kept|, rs, |added|);
    Seqs.TakeAll(added);
    Seqs.TakeAll(rs);
  }

  // ---------------------------------------------------------------- one log file through its life

  /** The file ends with a good fragment, so a writer may go on at its end. */
  predicate Clean(sum: Sum, f: bytes) {
    ValidEnd(sum, f) == |f|
  }

  lemma ScanAtEnd(sum: Sum, f: bytes, frag: Option<bytes>, validEnd: nat)
    ensures Scan(sum, f, |f|, frag, validEnd) == Outcome([], validEnd)
  {
  }

  /** Truncation at the last good fragment keeps every record and leaves a clean file. */
  lemma TruncateClean(sum: Sum, f: bytes)
    ensures Clean(sum, Truncated(sum, f)) && Records(sum, Truncated(sum, f)) == Records(sum, f)
  {
    ScanEnd(sum, f, 0, None, 0);
    var g := Truncated(sum, f);
    var held := Resume(sum, f, g, 0, None, 0);
    ScanAtEnd(sum, g, held, |g|);
    Seqs.Nil(Records(sum, f));
  }

  lemma EmptyClean(sum: Sum)
    ensures Clean(sum, []) && Records(sum, []) == []
  {
    ScanAtEnd(sum, [], None, 0);
  }

  /** What one `AddRecord` appends to `f`. */
  function Added(sum: Sum, f: bytes, record: bytes): bytes {
    Append(sum, Offset(|f|), record, true)
  }

  /** What stands behind a clean file is read after its records. */
  lemma ResumeClean(sum: Sum, f: bytes, a: bytes, g: bytes) returns (held: Option<bytes>)
    requires Clean(sum, f) && g == f + a
    ensures Scan(sum, g, 0, None, 0) == Prepend(Records(sum, f), Scan(sum, g, |f|, held, |f|))
  {
    Seqs.AtEnd(f, a);
    Seqs.TakeAll(f);
    held := Resume(sum, f, g, 0, None, 0);
  }

  lemma OffsetMatches(p: nat)
    ensures Matches(p, Offset(p))
  {
  }

  /** A completed append adds its record, and the file stays clean. */
  lemma AppendClean(sum: Sum, f: bytes, record: bytes)
    requires Clean(sum, f)
    ensures var g := f + Added(sum, f, record); Clean(sum, g) && Records(sum, g) == Records(sum, f) + [record]
  {
    var a := Added(sum, f, record);
    var g := f + a;
    var v := |f|;
    var held := ResumeClean(sum, f, a, g);
    Seqs.AtEnd(f, a);
    OffsetMatches(v);
    ScanAppend(sum, g, v, Offset(v), record, true, [], held, v, |g|);
    ScanAtEnd(sum, g, None, |g|);
    Seqs.Nil(record);
  }

  /** An append cut before its last byte adds nothing. */
  lemma AppendTorn(sum: Sum, f: bytes, record: bytes, c: nat)
    requires Clean(sum, f) && c < |Added(sum, f, record)|
    ensures Records(sum, f + Added(sum, f, record)[..c]) == Records(sum, f)
  {
    var a := Added(sum, f, record)[..c];
    var g := f + a;
    var v := |f|;
    var held := ResumeClean(sum, f, a, g);
    Seqs.AtEnd(f, a);
    OffsetMatches(v);
    ScanCut(sum, g, v, Offset(v), record, true, c, held, v);
    Seqs.Nil(Records(sum, f));
  }
}
