/** Damage in one block of any log file: which of the records it used to read as are still read. */
module LogResync {
  import opened Bytes
  import opened Checksums
  import opened LogFormat
  import opened LogProofs
  import opened LogDamage
  import Seqs

  // ---------------------------------------------------------------- records with their places

  /** A record, the header of its first fragment, and the end of its last. */
  datatype Placed = Placed(start: nat, end: nat, record: bytes)

  /** An unfinished record and the header of its first fragment. */
  datatype Open = Open(start: nat, frag: bytes)

  function FragOf(held: Option<Open>): Option<bytes> {
    if held.Some? then Some(held.value.frag) else None
  }

  function HeldAt(held: Option<Open>, p: nat, kind: byte, payload: bytes): Option<Open> {
    if kind == FIRST then Some(Open(p, payload))
    else if kind == MIDDLE && held.Some? then Some(Open(held.value.start, held.value.frag + payload))
    else None
  }

  /** The record that a fragment at `p` finishes, with its place. */
  function PlacedAt(held: Option<Open>, p: nat, kind: byte, payload: bytes, end: nat): seq<Placed> {
    if kind == FULL then [Placed(p, end, payload)]
    else if kind == LAST && held.Some? then [Placed(held.value.start, end, held.value.frag + payload)]
    else []
  }

  /** What reading on from `p` yields, with places. */
  function Places(sum: Sum, f: bytes, p: nat, held: Option<Open>): seq<Placed>
    requires p <= |f| + BLOCK
    decreases |f| + BLOCK - p
  {
    var s := See(sum, f, p);
    if s.Stop? then []
    else if s.Skip? then Places(sum, f, BlockEnd(p), held)
    else if s.Bad? then Places(sum, f, BlockEnd(p), None)
    else PlacedAt(held, p, s.kind, s.payload, s.end) + Places(sum, f, s.end, HeldAt(held, p, s.kind, s.payload))
  }

  function RecordsOf(ps: seq<Placed>): seq<bytes> {
    if ps == [] then [] else [ps[0].record] + RecordsOf(ps[1..])
  }

  lemma {:induction false} RecordsSplit(a: seq<Placed>, b: seq<Placed>)
    ensures RecordsOf(a + b) == RecordsOf(a) + RecordsOf(b)
    decreases |a|
  {
    if a == [] {
      Seqs.Nil(b);
      Seqs.Nil(RecordsOf(b));
    } else {
      Seqs.DropLeft(a, b, 1);
      RecordsSplit(a[1..], b);
      Seqs.Assoc([a[0].record], RecordsOf(a[1..]), RecordsOf(b));
    }
  }

  lemma PlacedIs(held: Option<Open>, p: nat, kind: byte, payload: bytes, end: nat, rest: Outcome)
    ensures Emit(Finished(FragOf(held), kind, payload), rest).records
         == RecordsOf(PlacedAt(held, p, kind, payload, end)) + rest.records
    ensures Held(FragOf(held), kind, payload) == FragOf(HeldAt(held, p, kind, payload))
  {
    Seqs.Nil(rest.records);
  }

  /** The places are those of exactly the records read. */
  lemma {:induction false} PlacesAreScan(sum: Sum, f: bytes, p: nat, held: Option<Open>, validEnd: nat)
    requires p <= |f| + BLOCK
    ensures Scan(sum, f, p, FragOf(held), validEnd).records == RecordsOf(Places(sum, f, p, held))
    decreases |f| + BLOCK - p
  {
    var s := See(sum, f, p);
    if s.Skip? {
      PlacesAreScan(sum, f, BlockEnd(p), held, validEnd);
    } else if s.Bad? {
      PlacesAreScan(sum, f, BlockEnd(p), None, validEnd);
    } else if s.Ok? {
      var next := HeldAt(held, p, s.kind, s.payload);
      PlacesAreScan(sum, f, s.end, next, s.end);
      PlacedIs(held, p, s.kind, s.payload, s.end, Scan(sum, f, s.end, FragOf(next), s.end));
      RecordsSplit(PlacedAt(held, p, s.kind, s.payload, s.end), Places(sum, f, s.end, next));
    }
  }

  // ---------------------------------------------------------------- what survives

  /** Every fragment of the record lies before `q` or from `e` on. */
  predicate Clears(x: Placed, q: nat, e: nat) {
    x.end <= q || x.start >= e
  }

  function Survive(ps: seq<Placed>, q: nat, e: nat): seq<Placed> {
    if ps == [] then []
    else (if Clears(ps[0], q, e) then [ps[0]] else []) + Survive(ps[1..], q, e)
  }

  lemma SurviveOne(x: Placed, rest: seq<Placed>, q: nat, e: nat)
    ensures Survive([x] + rest, q, e) == (if Clears(x, q, e) then [x] else []) + Survive(rest, q, e)
  {
    assert ([x] + rest)[1..] == rest;
  }

  /** At most one record is finished at a time. */
  lemma SurvivePlaced(held: Option<Open>, p: nat, kind: byte, payload: bytes, end: nat, rest: seq<Placed>, q: nat,
                      e: nat)
    ensures var one := PlacedAt(held, p, kind, payload, end);
      Survive(one + rest, q, e)
      == (if one != [] && Clears(one[0], q, e) then one else []) + Survive(rest, q, e)
  {
    var one := PlacedAt(held, p, kind, payload, end);
    if one == [] {
      Seqs.Nil(rest);
      Seqs.Nil(Survive(rest, q, e));
    } else {
      SurviveOne(one[0], rest, q, e);
    }
  }

  predicate From(held: Option<Open>, e: nat) {
    held.Some? ==> held.value.start >= e
  }

  /** Reading from `e` on with nothing held finds only records that start there. */
  lemma {:induction false} AllClear(sum: Sum, f: bytes, p: nat, held: Option<Open>, q: nat, e: nat)
    requires e <= p <= |f| + BLOCK && From(held, e)
    ensures Survive(Places(sum, f, p, held), q, e) == Places(sum, f, p, held)
    decreases |f| + BLOCK - p
  {
    var s := See(sum, f, p);
    if s.Skip? {
      AllClear(sum, f, BlockEnd(p), held, q, e);
    } else if s.Bad? {
      AllClear(sum, f, BlockEnd(p), None, q, e);
    } else if s.Ok? {
      var next := HeldAt(held, p, s.kind, s.payload);
      AllClear(sum, f, s.end, next, q, e);
      SurvivePlaced(held, p, s.kind, s.payload, s.end, Places(sum, f, s.end, next), q, e);
    }
  }

  /** A record held over from before `e` is the only difference to reading from there with nothing held. */
  lemma {:induction false} HeldOver(sum: Sum, f: bytes, p: nat, held: Open, q: nat, e: nat)
    requires q < e <= p <= |f| + BLOCK && held.start < e
    ensures Survive(Places(sum, f, p, Some(held)), q, e) == Places(sum, f, p, None)
    decreases |f| + BLOCK - p
  {
    var s := See(sum, f, p);
    if s.Skip? {
      HeldOver(sum, f, BlockEnd(p), held, q, e);
    } else if s.Bad? {
      AllClear(sum, f, BlockEnd(p), None, q, e);
    } else if s.Ok? {
      var next, plain := HeldAt(Some(held), p, s.kind, s.payload), HeldAt(None, p, s.kind, s.payload);
      SurvivePlaced(Some(held), p, s.kind, s.payload, s.end, Places(sum, f, s.end, next), q, e);
      if s.kind == MIDDLE {
        HeldOver(sum, f, s.end, next.value, q, e);
        Seqs.Nil(Places(sum, f, s.end, None));
      } else {
        AllClear(sum, f, s.end, plain, q, e);
      }
    }
  }

  lemma DropHeld(sum: Sum, f: bytes, held: Option<Open>, q: nat, e: nat)
    requires q < e <= |f| + BLOCK && (held.Some? ==> held.value.start < e)
    ensures Survive(Places(sum, f, e, held), q, e) == Places(sum, f, e, None)
  {
    if held.Some? {
      HeldOver(sum, f, e, held.value, q, e);
    } else {
      AllClear(sum, f, e, None, q, e);
    }
  }

  /** A record finished inside the block does not clear it. */
  lemma NotClear(held: Option<Open>, p: nat, kind: byte, payload: bytes, end: nat, rest: seq<Placed>, q: nat, e: nat)
    requires p < e && q < end && (held.Some? ==> held.value.start < e)
    ensures Survive(PlacedAt(held, p, kind, payload, end) + rest, q, e) == Survive(rest, q, e)
  {
    SurvivePlaced(held, p, kind, payload, end, rest, q, e);
    Seqs.Nil(Survive(rest, q, e));
  }

  /** Of what is read from `p`, inside the block, on, what clears the block is what is read from its end on with
      nothing held. */
  ghost predicate Settles(sum: Sum, f: bytes, p: nat, held: Option<Open>, q: nat, e: nat)
    requires p <= |f| + BLOCK && e <= |f| + BLOCK
  {
    Survive(Places(sum, f, p, held), q, e) == Places(sum, f, e, None)
  }

  predicate OpenBefore(held: Option<Open>, e: nat) {
    held.Some? ==> held.value.start < e
  }

  lemma PastEnd(sum: Sum, f: bytes, p: nat, e: nat)
    requires See(sum, f, p).Stop? && BlockEnd(p) == e <= |f| + BLOCK
    ensures Places(sum, f, e, None) == []
  {
  }

  /** Where no fragment is read, the block is left, or the file ends. */
  lemma InsideNone(sum: Sum, f: bytes, p: nat, held: Option<Open>, q: nat, e: nat)
    requires q <= p < e && BlockEnd(p) == e <= |f| + BLOCK && OpenBefore(held, e) && !See(sum, f, p).Ok?
    ensures Settles(sum, f, p, held, q, e)
  {
    var s := See(sum, f, p);
    if s.Stop? {
      PastEnd(sum, f, p, e);
    } else if s.Skip? {
      DropHeld(sum, f, held, q, e);
    } else {
      DropHeld(sum, f, None, q, e);
    }
  }

  /** A fragment inside the block brings nothing that clears it. */
  lemma InsideOk(sum: Sum, f: bytes, p: nat, held: Option<Open>, q: nat, e: nat, s: Seen, next: Option<Open>)
    requires q <= p < e <= |f| + BLOCK && OpenBefore(held, e) && s == See(sum, f, p) && s.Ok?
    requires next == HeldAt(held, p, s.kind, s.payload) && Settles(sum, f, s.end, next, q, e)
    ensures Settles(sum, f, p, held, q, e)
  {
    NotClear(held, p, s.kind, s.payload, s.end, Places(sum, f, s.end, next), q, e);
  }

  /** What a fragment inside the block leaves: a place in the block or its end, and what is held from before that. */
  lemma InsideNext(sum: Sum, f: bytes, p: nat, held: Option<Open>, e: nat, s: Seen)
    requires p < e && BlockEnd(p) == e && OpenBefore(held, e) && s == See(sum, f, p) && s.Ok?
    ensures p < s.end <= |f| && s.end <= e && OpenBefore(HeldAt(held, p, s.kind, s.payload), e)
    ensures s.end < e ==> BlockEnd(s.end) == e
  {
    if s.end < e {
      SameBlock(p, s.end, e);
    }
  }

  lemma {:induction false} FromInside(sum: Sum, f: bytes, p: nat, held: Option<Open>, q: nat, e: nat)
    requires q <= p <= e && q < e <= |f| + BLOCK && (p < e ==> BlockEnd(p) == e) && OpenBefore(held, e)
    ensures Settles(sum, f, p, held, q, e)
    decreases |f| + BLOCK - p
  {
    var s := See(sum, f, p);
    if p == e {
      DropHeld(sum, f, held, q, e);
    } else if s.Ok? {
      var next := HeldAt(held, p, s.kind, s.payload);
      InsideNext(sum, f, p, held, e, s);
      FromInside(sum, f, s.end, next, q, e);
      InsideOk(sum, f, p, held, q, e, s, next);
    } else {
      InsideNone(sum, f, p, held, q, e);
    }
  }

  // ---------------------------------------------------------------- the damaged file

  /** Behind the damage both files are seen alike. */
  lemma SeeBehind(sum: Sum, f: bytes, g: bytes, q: nat, e: nat, p: nat)
    requires Seqs.Damaged(f, g, q, e) && e <= p
    ensures See(sum, g, p) == See(sum, f, p)
  {
    if p + HEADER <= |f| {
      SliceBehind(f, g, q, e, p, p + 4);
      SliceBehind(f, g, q, e, p + 4, p + 6);
      var end := p + HEADER + LengthAt(f, p);
      if end <= |f| {
        SliceBehind(f, g, q, e, p + HEADER, end);
      }
    }
  }

  lemma SliceBehind(f: bytes, g: bytes, q: nat, e: nat, i: nat, j: nat)
    requires Seqs.Damaged(f, g, q, e) && e <= i <= j <= |f|
    ensures g[i..j] == f[i..j]
  {
  }

  lemma {:induction false} PlacesBehind(sum: Sum, f: bytes, g: bytes, q: nat, e: nat, p: nat, held: Option<Open>)
    requires Seqs.Damaged(f, g, q, e) && e <= p <= |f| + BLOCK
    ensures Places(sum, g, p, held) == Places(sum, f, p, held)
    decreases |f| + BLOCK - p
  {
    SeeBehind(sum, f, g, q, e, p);
    var s := See(sum, f, p);
    if s.Skip? {
      PlacesBehind(sum, f, g, q, e, BlockEnd(p), held);
    } else if s.Bad? {
      PlacesBehind(sum, f, g, q, e, BlockEnd(p), None);
    } else if s.Ok? {
      PlacesBehind(sum, f, g, q, e, s.end, HeldAt(held, p, s.kind, s.payload));
    }
  }

  /** Reading from `p` comes to stand at `q`. */
  ghost predicate Comes(sum: Sum, f: bytes, p: nat, q: nat)
    requires p <= |f| + BLOCK
    decreases |f| + BLOCK - p
  {
    || p == q
    || (var s := See(sum, f, p);
        !s.Stop? && Comes(sum, f, if s.Ok? then s.end else BlockEnd(p), q))
  }

  lemma {:induction false} ComesAhead(sum: Sum, f: bytes, p: nat, q: nat)
    requires p <= |f| + BLOCK && Comes(sum, f, p, q)
    ensures p <= q
    decreases |f| + BLOCK - p
  {
    if p != q {
      var s := See(sum, f, p);
      ComesAhead(sum, f, if s.Ok? then s.end else BlockEnd(p), q);
    }
  }

  lemma SeeAhead(sum: Sum, f: bytes, g: bytes, q: nat, e: nat, p: nat)
    requires Seqs.Damaged(f, g, q, e) && q <= |f| && p < q && !See(sum, f, p).Stop?
    requires var s := See(sum, f, p); (if s.Ok? then s.end else BlockEnd(p)) <= q
    ensures See(sum, g, p) == See(sum, f, p)
  {
    assert Agree(f, g, q);
    if See(sum, f, p).Ok? {
      SeeAgreeOk(sum, f, g, q, p);
    } else {
      SeeAgreeBlock(sum, f, g, q, p);
    }
  }

  /** At the damage. */
  lemma AtQ(sum: Sum, f: bytes, g: bytes, q: nat, e: nat, held: Option<Open>)
    requires Seqs.Damaged(f, g, q, e) && e == BlockEnd(q) && See(sum, f, q).Ok? && !See(sum, g, q).Ok?
    requires held.Some? ==> held.value.start < e
    ensures e <= |f| + BLOCK && Places(sum, g, q, held) == Survive(Places(sum, f, q, held), q, e)
  {
    FromInside(sum, f, q, held, q, e);
    PlacesBehind(sum, f, g, q, e, e, None);
    if See(sum, g, q).Stop? {
      PastEnd(sum, g, q, e);
    }
  }

  lemma {:induction false} ReadOn(sum: Sum, f: bytes, g: bytes, q: nat, e: nat, p: nat, held: Option<Open>)
    requires Seqs.Damaged(f, g, q, e) && e == BlockEnd(q) && See(sum, f, q).Ok? && !See(sum, g, q).Ok?
    requires p <= |f| + BLOCK && Comes(sum, f, p, q) && (held.Some? ==> held.value.start < e)
    ensures Places(sum, g, p, held) == Survive(Places(sum, f, p, held), q, e)
    decreases |f| + BLOCK - p
  {
    ComesAhead(sum, f, p, q);
    if p == q {
      AtQ(sum, f, g, q, e, held);
    } else {
      var s := See(sum, f, p);
      ComesAhead(sum, f, if s.Ok? then s.end else BlockEnd(p), q);
      SeeAhead(sum, f, g, q, e, p);
      if s.Ok? {
        var next := HeldAt(held, p, s.kind, s.payload);
        ReadOn(sum, f, g, q, e, s.end, next);
        SurvivePlaced(held, p, s.kind, s.payload, s.end, Places(sum, f, s.end, next), q, e);
      } else {
        ReadOn(sum, f, g, q, e, BlockEnd(p), if s.Bad? then None else held);
      }
    }
  }

  /** For a file of any bytes: if it is changed only between the header `q` of a fragment that reading it comes to and
      the end of that block, so that this fragment is no longer good, then exactly those of its records that have no
      fragment between the two are still read, in order. */
  lemma AnyDamageDrops(sum: Sum, f: bytes, g: bytes, q: nat)
    requires Seqs.Damaged(f, g, q, BlockEnd(q)) && Comes(sum, f, 0, q) && See(sum, f, q).Ok? && !See(sum, g, q).Ok?
    ensures Records(sum, f) == RecordsOf(Places(sum, f, 0, None))
    ensures Records(sum, g) == RecordsOf(Survive(Places(sum, f, 0, None), q, BlockEnd(q)))
  {
    PlacesAreScan(sum, f, 0, None, 0);
    PlacesAreScan(sum, g, 0, None, 0);
    ReadOn(sum, f, g, q, BlockEnd(q), 0, None);
  }
}
