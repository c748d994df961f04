/** What survives when bytes of one block of a log are damaged. */
module LogDamage {
  import opened Bytes
  import opened Checksums
  import opened LogFormat
  import opened LogProofs
  import Seqs

  // ---------------------------------------------------------------- where the fragments stand

  /** `q` is the header of one of the fragments of the record `data`, whose bytes start at `p`. */
  ghost predicate HeaderIn(sum: Sum, p: nat, o: nat, data: bytes, begin: bool, q: nat)
    requires o <= BLOCK
    decreases |data|, BLOCK - o
  {
    || p + Padding(o) == q
    || (Share(o, |data|) < |data|
        && HeaderIn(sum, p + |Piece(sum, o, data, begin)|, AfterShare(o, |data|), data[Share(o, |data|)..], false, q))
  }

  /** `q` is the header of some fragment of the log `rs` written from `p` on. */
  ghost predicate HeaderAt(sum: Sum, p: nat, rs: seq<bytes>, q: nat)
    decreases |rs|
  {
    && rs != []
    && if q < EndOf(sum, p, rs[0]) then HeaderIn(sum, p, Offset(p), rs[0], true, q)
       else HeaderAt(sum, EndOf(sum, p, rs[0]), rs[1..], q)
  }

  /** The record at `p` has no fragment between `q` and `e`: it ends before, or its first header comes after. */
  predicate Outside(sum: Sum, p: nat, record: bytes, q: nat, e: nat) {
    EndOf(sum, p, record) <= q || p + Padding(Offset(p)) >= e
  }

  /** The records without a fragment between `q` and `e`. */
  function Survivors(sum: Sum, p: nat, rs: seq<bytes>, q: nat, e: nat): seq<bytes>
    decreases |rs|
  {
    if rs == [] then []
    else (if Outside(sum, p, rs[0], q, e) then [rs[0]] else []) + Survivors(sum, EndOf(sum, p, rs[0]), rs[1..], q, e)
  }

  // ---------------------------------------------------------------- damage

  /** Past the end of the file nothing is read. */
  lemma NothingPast(sum: Sum, g: bytes, e: nat, frag: Option<bytes>, validEnd: nat)
    requires |g| <= e <= |g| + BLOCK
    ensures Scan(sum, g, e, frag, validEnd).records == []
  {
    ScanStop(sum, g, e, frag, validEnd);
  }

  /** The damaged fragment: the reader goes on after its block, with nothing held. */
  lemma AtDamage(sum: Sum, g: bytes, q: nat, e: nat, frag: Option<bytes>, validEnd: nat)
    requires e == BlockEnd(q) && Offset(q) + HEADER <= BLOCK && q + HEADER <= |g| && !See(sum, g, q).Ok?
    ensures Scan(sum, g, q, frag, validEnd).records == Scan(sum, g, e, None, validEnd).records
  {
    if See(sum, g, q).Stop? {
      ScanStop(sum, g, q, frag, validEnd);
      NothingPast(sum, g, e, None, validEnd);
    }
  }

  lemma PieceRoom(sum: Sum, f: bytes, p: nat, o: nat, data: bytes, begin: bool, q: nat)
    requires Matches(p, o) && Seqs.At(f, p, Append(sum, o, data, begin)) && q == p + Padding(o)
    ensures q + HEADER <= |f| && Offset(q) + HEADER <= BLOCK
  {
    PaddingLands(p, o, q);
  }

  /** A record of which `q` is a damaged header is not returned; reading resumes after the block. */
  lemma {:induction false} Spanning(sum: Sum, f: bytes, g: bytes, q: nat, e: nat, p: nat, o: nat, data: bytes,
                                    begin: bool,
                                    frag: Option<bytes>, validEnd: nat) returns (v: nat)
    requires Seqs.Damaged(f, g, q, e) && e == BlockEnd(q) <= |f| + BLOCK && !See(sum, g, q).Ok?
    requires Matches(p, o) && Seqs.At(f, p, Append(sum, o, data, begin)) && HeaderIn(sum, p, o, data, begin, q)
    ensures Scan(sum, g, p, frag, validEnd).records == Scan(sum, g, e, None, v).records
    decreases |data|, BLOCK - o
  {
    if p + Padding(o) == q {
      FirstDamaged(sum, f, g, q, e, p, o, data, begin, frag, validEnd);
      v := validEnd;
    } else {
      var o', rest, mid := AfterShare(o, |data|), data[Share(o, |data|)..], p + |Piece(sum, o, data, begin)|;
      var held := BeforeDamage(sum, f, g, q, e, p, o, data, begin, frag, validEnd, o', rest, mid);
      v := Spanning(sum, f, g, q, e, mid, o', rest, false, held, mid);
    }
  }

  /** The damaged fragment is the next one. */
  lemma FirstDamaged(sum: Sum, f: bytes, g: bytes, q: nat, e: nat, p: nat, o: nat, data: bytes, begin: bool,
                     frag: Option<bytes>, validEnd: nat)
    requires Seqs.Damaged(f, g, q, e) && e == BlockEnd(q) <= |f| + BLOCK && !See(sum, g, q).Ok?
    requires Matches(p, o) && Seqs.At(f, p, Append(sum, o, data, begin)) && q == p + Padding(o)
    ensures p <= |g| && Scan(sum, g, p, frag, validEnd).records == Scan(sum, g, e, None, validEnd).records
  {
    PieceRoom(sum, f, p, o, data, begin, q);
    ScanPadding(sum, g, p, o, q, frag, validEnd);
    AtDamage(sum, g, q, e, frag, validEnd);
  }

  /** A fragment before the damaged one is read as it was. */
  lemma BeforeDamage(sum: Sum, f: bytes, g: bytes, q: nat, e: nat, p: nat, o: nat, data: bytes, begin: bool,
                     frag: Option<bytes>, validEnd: nat, o': nat, rest: bytes, mid: nat)
    returns (held: Option<bytes>)
    requires Seqs.Damaged(f, g, q, e) && Matches(p, o) && Seqs.At(f, p, Append(sum, o, data, begin))
    requires HeaderIn(sum, p, o, data, begin, q) && p + Padding(o) != q
    requires o' == AfterShare(o, |data|) && rest == data[Share(o, |data|)..] && mid == p + |Piece(sum, o, data, begin)|
    ensures Matches(mid, o') && Seqs.At(f, mid, Append(sum, o', rest, false)) && HeaderIn(sum, mid, o', rest, false, q)
    ensures mid <= |g| && Scan(sum, g, p, frag, validEnd) == Scan(sum, g, mid, held, mid)
  {
    AppendParts(sum, f, p, o, data, begin, p + |Append(sum, o, data, begin)|, o', rest, mid);
    HeaderFrom(sum, mid, o', rest, false, q);
    Seqs.AtOutside(f, g, q, e, p, Piece(sum, o, data, begin));
    held := SkipPiece(sum, g, p, o, data, begin, frag, validEnd, mid);
  }

  /** A record's headers come at or after its first. */
  lemma {:induction false} HeaderFrom(sum: Sum, p: nat, o: nat, data: bytes, begin: bool, q: nat)
    requires o <= BLOCK && HeaderIn(sum, p, o, data, begin, q)
    ensures p + Padding(o) <= q
    decreases |data|, BLOCK - o
  {
    if p + Padding(o) != q {
      HeaderFrom(sum, p + |Piece(sum, o, data, begin)|, AfterShare(o, |data|), data[Share(o, |data|)..], false, q);
    }
  }

  /** A fragment that is not its record's last yields nothing yet. */
  lemma SkipPiece(sum: Sum, g: bytes, p: nat, o: nat, data: bytes, begin: bool, frag: Option<bytes>, validEnd: nat,
                  mid: nat)
    returns (held: Option<bytes>)
    requires Matches(p, o) && Share(o, |data|) < |data| && Seqs.At(g, p, Piece(sum, o, data, begin))
    requires mid == p + |Piece(sum, o, data, begin)|
    ensures Scan(sum, g, p, frag, validEnd) == Scan(sum, g, mid, held, mid)
    ensures !begin && frag.None? ==> held.None?
  {
    var kind, part := Kind(begin, false), data[..Share(o, |data|)];
    ScanPiece(sum, g, p, o, data, begin, frag, validEnd, kind, part, mid);
    held := Held(frag, kind, part);
  }

  // ---------------------------------------------------------------- orphans

  /** Fragments without a start are dropped. */
  lemma {:induction false} OrphanRun(sum: Sum, g: bytes, p: nat, o: nat, data: bytes, validEnd: nat, end: nat)
    requires Matches(p, o) && Seqs.At(g, p, Append(sum, o, data, false)) && end == p + |Append(sum, o, data, false)|
    ensures Scan(sum, g, p, None, validEnd) == Scan(sum, g, end, None, end)
    decreases |data|, BLOCK - o
  {
    if Share(o, |data|) == |data| {
      Seqs.TakeAll(data);
      ScanPiece(sum, g, p, o, data, false, None, validEnd, LAST, data, end);
    } else {
      var o', rest := AfterShare(o, |data|), data[Share(o, |data|)..];
      var mid := p + |Piece(sum, o, data, false)|;
      AppendParts(sum, g, p, o, data, false, end, o', rest, mid);
      var held := SkipPiece(sum, g, p, o, data, false, None, validEnd, mid);
      OrphanRun(sum, g, mid, o', rest, mid, end);
    }
  }

  /** A fragment that is not its record's last reaches the end of its block. */
  lemma PieceFills(sum: Sum, p: nat, o: nat, data: bytes, begin: bool)
    requires Matches(p, o) && Share(o, |data|) < |data|
    ensures p + |Piece(sum, o, data, begin)| == BlockEnd(p + Padding(o))
  {
    SeePadding(sum, [], p, o);
  }

  /** Of a record that reaches beyond the damaged block, what stands behind the block is dropped as well. */
  lemma {:induction false} Orphans(sum: Sum, f: bytes, g: bytes, q: nat, e: nat, p: nat, o: nat, data: bytes,
                                   begin: bool,
                                   h: nat, validEnd: nat, end: nat)
    requires Seqs.Damaged(f, g, q, e) && Matches(p, o) && Seqs.At(f, p, Append(sum, o, data, begin))
    requires HeaderIn(sum, p, o, data, begin, h) && BlockEnd(h) == e < end && end == p + |Append(sum, o, data, begin)|
    ensures Scan(sum, g, e, None, validEnd) == Scan(sum, g, end, None, end)
    decreases |data|, BLOCK - o
  {
    var o', rest := AfterShare(o, |data|), data[Share(o, |data|)..];
    var mid := p + |Piece(sum, o, data, begin)|;
    if p + Padding(o) == h {
      FirstCrosses(sum, p, o, data, begin, h, e, end);
      AppendParts(sum, f, p, o, data, begin, end, o', rest, e);
      Seqs.AtOutside(f, g, q, e, e, Append(sum, o', rest, false));
      OrphanRun(sum, g, e, o', rest, validEnd, end);
    } else {
      AppendParts(sum, f, p, o, data, begin, end, o', rest, mid);
      Orphans(sum, f, g, q, e, mid, o', rest, false, h, validEnd, end);
    }
  }

  lemma FirstCrosses(sum: Sum, p: nat, o: nat, data: bytes, begin: bool, h: nat, e: nat, end: nat)
    requires Matches(p, o) && p + Padding(o) == h && BlockEnd(h) == e < end && end == p + |Append(sum, o, data, begin)|
    ensures Share(o, |data|) < |data| && e == p + |Piece(sum, o, data, begin)|
  {
    SeePadding(sum, [], p, o);
    if Share(o, |data|) < |data| {
      PieceFills(sum, p, o, data, begin);
    }
  }

  // ---------------------------------------------------------------- behind the damaged block

  /** The rest of the log, from the record at `p` on. */
  predicate Laid(sum: Sum, f: bytes, p: nat, rs: seq<bytes>) {
    p + |AppendAll(sum, p, rs)| == |f| && Seqs.At(f, p, AppendAll(sum, p, rs))
  }

  lemma LaidNext(sum: Sum, f: bytes, p: nat, rs: seq<bytes>, end: nat)
    requires Laid(sum, f, p, rs) && rs != [] && end == EndOf(sum, p, rs[0])
    ensures Seqs.At(f, p, Append(sum, Offset(p), rs[0], true)) && Laid(sum, f, end, rs[1..]) && end <= |f|
  {
    Seqs.AtSplit(f, p, Append(sum, Offset(p), rs[0], true), AppendAll(sum, end, rs[1..]));
  }

  /** A log read from where its records stand intact. */
  lemma ReadsLaid(sum: Sum, g: bytes, p: nat, rs: seq<bytes>, validEnd: nat)
    requires Laid(sum, g, p, rs)
    ensures Scan(sum, g, p, None, validEnd).records == rs
  {
    var n := |AppendAll(sum, p, rs)|;
    Seqs.TakeAll(AppendAll(sum, p, rs));
    ScanAll(sum, g, p, rs, n, None, validEnd);
    AllComplete(sum, p, rs, n);
    Seqs.TakeAll(rs);
  }

  /** All records behind the block survive. */
  lemma {:induction false} AllSurvive(sum: Sum, p: nat, rs: seq<bytes>, q: nat, e: nat)
    requires p + Padding(Offset(p)) >= e
    ensures Survivors(sum, p, rs, q, e) == rs
    decreases |rs|
  {
    if rs != [] {
      AllSurvive(sum, EndOf(sum, p, rs[0]), rs[1..], q, e);
    }
  }

  /** A record whose start falls into block-end padding is, but for the padding, one that starts in the next block. */
  lemma PaddedStart(sum: Sum, p: nat, o: nat, e: nat, data: bytes)
    requires o == Offset(p) && Padding(o) > 0 && e == BlockEnd(p)
    ensures p + Padding(o) == e && Offset(e) == 0
      && Append(sum, o, data, true) == Zeros(Padding(o)) + Append(sum, 0, data, true)
  {
    var n, n0 := Share(o, |data|), Share(0, |data|);
    assert Padding(0) == 0 && n == n0 && AfterShare(o, |data|) == AfterShare(0, |data|);
    var ph := Physical(sum, Kind(true, n == |data|), data[..n]);
    Seqs.Nil(ph);
    assert Zeros(0) == [];
    assert Piece(sum, 0, data, true) == ph;
    if n < |data| {
      Seqs.Assoc(Zeros(Padding(o)), ph, Append(sum, AfterShare(o, |data|), data[n..], false));
    }
  }

  lemma LaidPadded(sum: Sum, f: bytes, p: nat, e: nat, rs: seq<bytes>)
    requires Laid(sum, f, p, rs) && rs != [] && Padding(Offset(p)) > 0 && e == BlockEnd(p)
    ensures Laid(sum, f, e, rs) && p + Padding(Offset(p)) == e
  {
    var o := Offset(p);
    var end := EndOf(sum, p, rs[0]);
    PaddedStart(sum, p, o, e, rs[0]);
    var a, tail := Append(sum, 0, rs[0], true), AppendAll(sum, end, rs[1..]);
    Seqs.Assoc(Zeros(Padding(o)), a, tail);
    AppendAllFirst(sum, e, rs, a, end);
    Seqs.AtSplit(f, p, Zeros(Padding(o)), a + tail);
  }

  lemma AppendAllFirst(sum: Sum, p: nat, rs: seq<bytes>, a: bytes, end: nat)
    requires rs != [] && a == Append(sum, Offset(p), rs[0], true) && end == EndOf(sum, p, rs[0])
    ensures AppendAll(sum, p, rs) == a + AppendAll(sum, end, rs[1..])
  {
  }

  lemma LaidOutside(sum: Sum, f: bytes, g: bytes, q: nat, e: nat, p: nat, rs: seq<bytes>)
    requires Seqs.Damaged(f, g, q, e) && Laid(sum, f, p, rs) && p >= e
    ensures Laid(sum, g, p, rs)
  {
    Seqs.AtOutside(f, g, q, e, p, AppendAll(sum, p, rs));
  }

  /** From the end of the block on, exactly the records that start there are read. */
  lemma {:induction false} Behind(sum: Sum, f: bytes, g: bytes, q: nat, e: nat, p: nat, rs: seq<bytes>, validEnd: nat)
    requires Seqs.Damaged(f, g, q, e) && Laid(sum, f, p, rs) && BlockEnd(p) == e == BlockEnd(q) <= |f| + BLOCK
    requires rs != [] ==> q < EndOf(sum, p, rs[0])
    ensures Scan(sum, g, e, None, validEnd).records == Survivors(sum, p, rs, q, e)
    decreases |rs|, 1
  {
    if rs == [] {
      NothingPast(sum, g, e, None, validEnd);
    } else if Padding(Offset(p)) > 0 {
      LaidPadded(sum, f, p, e, rs);
      LaidOutside(sum, f, g, q, e, e, rs);
      ReadsLaid(sum, g, e, rs, validEnd);
      AllSurvive(sum, p, rs, q, e);
    } else {
      BehindFirst(sum, f, g, q, e, p, rs, validEnd);
    }
  }

  /** A record with a fragment in the damaged part is dropped. */
  lemma Dropped(sum: Sum, p: nat, rs: seq<bytes>, q: nat, e: nat, end: nat)
    requires rs != [] && end == EndOf(sum, p, rs[0]) && q < end && p + Padding(Offset(p)) < e
    ensures Survivors(sum, p, rs, q, e) == Survivors(sum, end, rs[1..], q, e)
  {
    Seqs.Nil(Survivors(sum, end, rs[1..], q, e));
  }

  lemma BehindFirst(sum: Sum, f: bytes, g: bytes, q: nat, e: nat, p: nat, rs: seq<bytes>, validEnd: nat)
    requires Seqs.Damaged(f, g, q, e) && Laid(sum, f, p, rs) && BlockEnd(p) == e == BlockEnd(q) <= |f| + BLOCK
    requires rs != [] && q < EndOf(sum, p, rs[0]) && Padding(Offset(p)) == 0
    ensures Scan(sum, g, e, None, validEnd).records == Survivors(sum, p, rs, q, e)
    decreases |rs|, 0
  {
    var end := EndOf(sum, p, rs[0]);
    DropFirst(sum, f, g, q, e, p, rs, validEnd, end);
    BehindNext(sum, f, g, q, e, end, rs[1..], validEnd);
  }

  lemma DropFirst(sum: Sum, f: bytes, g: bytes, q: nat, e: nat, p: nat, rs: seq<bytes>, validEnd: nat, end: nat)
    requires Seqs.Damaged(f, g, q, e) && Laid(sum, f, p, rs) && BlockEnd(p) == e <= |f| + BLOCK
    requires rs != [] && end == EndOf(sum, p, rs[0]) && q < end && Padding(Offset(p)) == 0
    ensures Survivors(sum, p, rs, q, e) == Survivors(sum, end, rs[1..], q, e)
    ensures end <= |f| && Laid(sum, f, end, rs[1..])
    ensures end > e ==> Scan(sum, g, e, None, validEnd) == Scan(sum, g, end, None, end)
  {
    LaidNext(sum, f, p, rs, end);
    Dropped(sum, p, rs, q, e, end);
    if end > e {
      OffsetMatches(p);
      Orphans(sum, f, g, q, e, p, Offset(p), rs[0], true, p, validEnd, end);
    }
  }

  lemma ReadsBehind(sum: Sum, f: bytes, g: bytes, q: nat, e: nat, p: nat, rs: seq<bytes>, validEnd: nat)
    requires Seqs.Damaged(f, g, q, e) && Laid(sum, f, p, rs) && p >= e
    ensures Scan(sum, g, p, None, validEnd).records == rs == Survivors(sum, p, rs, q, e)
  {
    LaidOutside(sum, f, g, q, e, p, rs);
    AllSurvive(sum, p, rs, q, e);
    ReadsLaid(sum, g, p, rs, validEnd);
  }

  lemma SameBlock(q: nat, p: nat, e: nat)
    requires BlockEnd(q) == e && q <= p < e
    ensures BlockEnd(p) == e
  {
  }

  /** Behind a dropped record that ends at `end`. */
  lemma BehindNext(sum: Sum, f: bytes, g: bytes, q: nat, e: nat, end: nat, rs: seq<bytes>, validEnd: nat)
    requires Seqs.Damaged(f, g, q, e) && Laid(sum, f, end, rs) && BlockEnd(q) == e <= |f| + BLOCK && q < end <= |f|
    requires end > e ==> Scan(sum, g, e, None, validEnd) == Scan(sum, g, end, None, end)
    ensures Scan(sum, g, e, None, validEnd).records == Survivors(sum, end, rs, q, e)
    decreases |rs|, 2
  {
    if end < e {
      SameBlock(q, end, e);
      Behind(sum, f, g, q, e, end, rs, validEnd);
    } else {
      ReadsBehind(sum, f, g, q, e, end, rs, if end > e then end else validEnd);
    }
  }

  // ---------------------------------------------------------------- the whole log

  lemma {:induction false} ReadDamaged(sum: Sum, f: bytes, g: bytes, q: nat, e: nat, p: nat, rs: seq<bytes>,
                                       frag: Option<bytes>, validEnd: nat)
    requires Seqs.Damaged(f, g, q, e) && e == BlockEnd(q) <= |f| + BLOCK && !See(sum, g, q).Ok?
    requires Laid(sum, f, p, rs) && HeaderAt(sum, p, rs, q)
    ensures Scan(sum, g, p, frag, validEnd).records == Survivors(sum, p, rs, q, e)
    decreases |rs|
  {
    var end := EndOf(sum, p, rs[0]);
    LaidNext(sum, f, p, rs, end);
    if end <= q {
      RecordBefore(sum, f, g, q, e, p, rs[0], frag, validEnd, end);
      ReadDamaged(sum, f, g, q, e, end, rs[1..], None, end);
    } else {
      OffsetMatches(p);
      var v := Spanning(sum, f, g, q, e, p, Offset(p), rs[0], true, frag, validEnd);
      AfterSpanning(sum, f, g, q, e, p, rs, v);
    }
  }

  /** A record before the damage is read as it was. */
  lemma RecordBefore(sum: Sum, f: bytes, g: bytes, q: nat, e: nat, p: nat, record: bytes, frag: Option<bytes>,
                     validEnd: nat, end: nat)
    requires Seqs.Damaged(f, g, q, e) && Seqs.At(f, p, Append(sum, Offset(p), record, true))
    requires end == EndOf(sum, p, record) <= q && end <= |f|
    ensures Scan(sum, g, p, frag, validEnd).records == [record] + Scan(sum, g, end, None, end).records
  {
    Seqs.AtOutside(f, g, q, e, p, Append(sum, Offset(p), record, true));
    OffsetMatches(p);
    ScanAppend(sum, g, p, Offset(p), record, true, [], frag, validEnd, end);
    Seqs.Nil(record);
  }

  lemma AfterSpanning(sum: Sum, f: bytes, g: bytes, q: nat, e: nat, p: nat, rs: seq<bytes>, v: nat)
    requires Seqs.Damaged(f, g, q, e) && e == BlockEnd(q) <= |f| + BLOCK && rs != []
    requires Laid(sum, f, p, rs) && HeaderIn(sum, p, Offset(p), rs[0], true, q) && q < EndOf(sum, p, rs[0])
    ensures Scan(sum, g, e, None, v).records == Survivors(sum, p, rs, q, e)
  {
    var end := EndOf(sum, p, rs[0]);
    LaidNext(sum, f, p, rs, end);
    HeaderFrom(sum, p, Offset(p), rs[0], true, q);
    Dropped(sum, p, rs, q, e, end);
    OffsetMatches(p);
    if end > e {
      Orphans(sum, f, g, q, e, p, Offset(p), rs[0], true, q, v, end);
    }
    BehindNext(sum, f, g, q, e, end, rs[1..], v);
  }

  lemma {:induction false} HeaderWithin(sum: Sum, p: nat, rs: seq<bytes>, q: nat)
    requires HeaderAt(sum, p, rs, q)
    ensures p <= q < p + |AppendAll(sum, p, rs)|
    decreases |rs|
  {
    var end := EndOf(sum, p, rs[0]);
    if end <= q {
      HeaderWithin(sum, end, rs[1..], q);
    } else {
      HeaderFrom(sum, p, Offset(p), rs[0], true, q);
    }
  }

  /** Damage behind `f0` leaves it as it is. */
  lemma PrefixKept(f0: bytes, added: bytes, g: bytes, q: nat, e: nat)
    requires Seqs.Damaged(f0 + added, g, q, e) && |f0| <= q
    ensures |f0| <= |g| && g[..|f0|] == f0
  {
  }

  /** A log resumed with the records `rs` behind any clean prefix, and changed only between the header `q` of one of
      their fragments and the end of its block, so that this fragment is no longer good, reads as the prefix's records
      followed by exactly those of `rs` with no fragment between the two. */
  lemma DamageDrops(sum: Sum, f0: bytes, rs: seq<bytes>, g: bytes, q: nat)
    requires Clean(sum, f0) && Seqs.Damaged(f0 + AppendAll(sum, |f0|, rs), g, q, BlockEnd(q))
    requires HeaderAt(sum, |f0|, rs, q) && !See(sum, g, q).Ok?
    ensures Records(sum, g) == Records(sum, f0) + Survivors(sum, |f0|, rs, q, BlockEnd(q))
  {
    var v, added := |f0|, AppendAll(sum, |f0|, rs);
    var f := f0 + added;
    HeaderWithin(sum, v, rs, q);
    PrefixKept(f0, added, g, q, BlockEnd(q));
    Seqs.TakeAll(f0);
    var held := Resume(sum, f0, g, 0, None, 0);
    Seqs.AtEnd(f0, added);
    ReadDamaged(sum, f, g, q, BlockEnd(q), v, rs, held, v);
  }

  /** In particular a log written from an empty file. */
  lemma FreshDamageDrops(sum: Sum, rs: seq<bytes>, g: bytes, q: nat)
    requires Seqs.Damaged(AppendAll(sum, 0, rs), g, q, BlockEnd(q)) && HeaderAt(sum, 0, rs, q) && !See(sum, g, q).Ok?
    ensures Records(sum, g) == Survivors(sum, 0, rs, q, BlockEnd(q))
  {
    EmptyClean(sum);
    Seqs.Nil(AppendAll(sum, 0, rs));
    DamageDrops(sum, [], rs, g, q);
    Seqs.Nil(Survivors(sum, 0, rs, q, BlockEnd(q)));
  }
}
