/** The reading end of the log (src/db/log_reader.cc). */
module LogReaders {
  import opened Bytes
  import opened Checksums
  import opened Coding
  import opened LogFormat
  import opened LogProofs
  import Seqs

  datatype ReadResult = ReadOk(kind: byte, frag: bytes) | ReadBad | ReadEof

  /** The position a reader at `p` comes to once it has stepped over block tails. */
  function Settled(sum: Sum, f: bytes, p: nat): (q: nat)
    requires p <= |f| + BLOCK
    ensures p <= q <= |f| + BLOCK && !See(sum, f, q).Skip?
    decreases |f| + BLOCK - p
  {
    if See(sum, f, p).Skip? then Settled(sum, f, BlockEnd(p)) else p
  }

  lemma {:induction false} ScanSettled(sum: Sum, f: bytes, p: nat, frag: Option<bytes>, validEnd: nat)
    requires p <= |f| + BLOCK
    ensures Scan(sum, f, p, frag, validEnd) == Scan(sum, f, Settled(sum, f, p), frag, validEnd)
    ensures Ends(sum, f, p, frag) == Ends(sum, f, Settled(sum, f, p), frag)
    decreases |f| + BLOCK - p
  {
    if See(sum, f, p).Skip? {
      ScanSettled(sum, f, BlockEnd(p), frag, validEnd);
    }
  }

  class LogReader {
    const sum: Sum
    const file: bytes
    /** The block last read. */
    var buffer: bytes
    var base: nat
    var pos: nat
    var limit: nat
    var eof: bool
    var validEnd: nat
    var res: bytes

    ghost predicate Valid()
      reads this
    {
      && base % BLOCK == 0 && base + limit <= |file| && pos <= BLOCK
      && buffer == file[base..base + limit]
      && (if eof then limit == |file| - base < BLOCK else limit == BLOCK)
      && validEnd <= |file|
    }

    ghost function Position(): (p: nat)
      requires Valid()
      reads this
      ensures p <= |file| + BLOCK
    {
      base + pos
    }

    constructor (sum: Sum, file: bytes)
      ensures Valid() && this.sum == sum && this.file == file && Position() == 0 && validEnd == 0
    {
      this.sum := sum;
      this.file := file;
      base, pos, validEnd, res := 0, 0, 0, [];
      limit := if |file| < BLOCK then |file| else BLOCK;
      eof := |file| < BLOCK;
      buffer := file[0..if |file| < BLOCK then |file| else BLOCK];
    }

    /** Read the next block; false when the file holds no more. */
    method Refill() returns (more: bool)
      requires Valid()
      modifies this
      ensures Valid() && validEnd == old(validEnd) && res == old(res)
      ensures old(eof) ==> !more && base == old(base) && pos == old(pos)
      ensures !old(eof) ==> base == old(base) + BLOCK && pos == 0 && (more <==> base < |file|)
    {
      if eof {
        return false;
      }
      base := base + limit;
      limit := if |file| - base < BLOCK then |file| - base else BLOCK;
      buffer := file[base..base + limit];
      pos := 0;
      if limit < BLOCK {
        eof := true;
      }
      more := limit > 0;
    }

    method ReadPhysicalRecord() returns (r: ReadResult)
      requires Valid()
      modifies this
      ensures Valid() && res == old(res) && Tells(r, Settled(sum, file, old(Position())), old(validEnd))
    {
      var more := NextHeader();
      if !more {
        return ReadEof;
      }
      r := ReadFragment();
    }

    /** The reader's state after it reported `r` at the settled position `q`. */
    ghost predicate Tells(r: ReadResult, q: nat, oldEnd: nat)
      requires Valid() && q <= |file| + BLOCK
      reads this
    {
      var s := See(sum, file, q);
      if s.Ok? then r == ReadOk(s.kind, s.payload) && Position() == s.end && validEnd == s.end
      else if s.Bad? then r == ReadBad && BlockEnd(q) == base + BLOCK && validEnd == oldEnd
      else s.Stop? && r == ReadEof && validEnd == oldEnd
    }

    /** Step over block tails to where a header may stand; false at the end of the file. */
    method NextHeader() returns (more: bool)
      requires Valid()
      modifies this
      ensures Valid() && res == old(res) && validEnd == old(validEnd)
      ensures var q := Settled(sum, file, old(Position()));
        if more then q == Position() && pos + HEADER <= limit else See(sum, file, q) == Stop
    {
      ghost var q := Settled(sum, file, Position());
      more := true;
      while more && pos + HEADER > limit
        invariant Valid() && res == old(res) && validEnd == old(validEnd)
        invariant if more then Settled(sum, file, Position()) == q else See(sum, file, q) == Stop
        decreases |file| - base + (if eof then 0 else 1), more
      {
        if eof {
          NoneLeft(q);
          more := false;
        } else {
          more := NextBlock();
        }
      }
      if more {
        HeaderFits(q);
      }
    }

    lemma NoneLeft(q: nat)
      requires Valid() && eof && pos + HEADER > limit && q == Settled(sum, file, Position())
      ensures See(sum, file, q) == Stop
    {
    }

    lemma HeaderFits(q: nat)
      requires Valid() && pos + HEADER <= limit && q == Settled(sum, file, Position())
      ensures q == Position()
    {
    }

    /** Leave a block with less than a header left in it. */
    method NextBlock() returns (more: bool)
      requires Valid() && pos + HEADER > limit && !eof
      modifies this
      ensures Valid() && res == old(res) && validEnd == old(validEnd)
      ensures Settled(sum, file, Position()) == Settled(sum, file, old(Position()))
      ensures base == old(base) + BLOCK && (!more ==> See(sum, file, Settled(sum, file, old(Position()))) == Stop)
    {
      ghost var p := Position();
      more := Refill();
      SkipBlock(p, Position());
    }

    /** The fragment whose header stands at the current position. */
    method ReadFragment() returns (r: ReadResult)
      requires Valid() && pos + HEADER <= limit
      modifies `pos, `validEnd
      ensures Valid() && Tells(r, old(Position()), old(validEnd))
    {
      InBuffer(4, 6);
      var len := FromFixed(buffer[pos + 4..pos + 6]);
      if pos + HEADER + len > limit {
        TooLong(len);
        return if eof then ReadEof else ReadBad;
      }
      r := CheckFragment(len);
    }

    /** A fragment that runs out of the block: the file ends in it, or it is bad. */
    lemma TooLong(len: nat)
      requires Valid() && pos + HEADER <= limit && len == LengthAt(file, Position()) && pos + HEADER + len > limit
      ensures Tells(if eof then ReadEof else ReadBad, Position(), validEnd)
    {
      InBlock();
    }

    method CheckFragment(len: nat) returns (r: ReadResult)
      requires Valid() && pos + HEADER + len <= limit && len == LengthAt(file, Position())
      modifies `pos, `validEnd
      ensures Valid() && Tells(r, old(Position()), old(validEnd))
    {
      ghost var p := Position();
      InBlock();
      var kind, frag, crc := buffer[pos + 6], buffer[pos + HEADER..pos + HEADER + len], buffer[pos..pos + 4];
      FragmentSeen(len, p, kind, frag, crc, p + HEADER + len);
      if kind == 0 || kind > LAST || sum(kind, frag) != FromFixed(crc) {
        return ReadBad;
      }
      pos := pos + HEADER + len;
      validEnd := base + pos;
      r := ReadOk(kind, frag);
    }

    /** What stands at the current position, read from the buffer. */
    lemma FragmentSeen(len: nat, p: nat, kind: byte, frag: bytes, crc: bytes, end: nat)
      requires Valid() && pos + HEADER + len <= limit && p == Position() && len == LengthAt(file, p)
        && end == p + HEADER + len
      requires kind == buffer[pos + 6] && frag == buffer[pos + HEADER..pos + HEADER + len]
        && crc == buffer[pos..pos + 4]
      ensures See(sum, file, p)
           == if kind == 0 || kind > LAST || sum(kind, frag) != FromFixed(crc) then Bad else Ok(kind, frag, end)
    {
      InBlock();
      InBuffer(6, 7);
      InBuffer(HEADER, HEADER + len);
      InBuffer(0, 4);
      SeeFragment(sum, file, p, len, kind, frag, crc, end);
    }

    /** The block in the buffer is the one that holds the current position. */
    lemma InBlock()
      requires Valid() && pos + HEADER <= limit
      ensures BlockEnd(Position()) == base + BLOCK && Limit(file, Position()) == base + limit
    {
    }

    /** Leaving a full block with less than a header left in it. */
    lemma SkipBlock(p: nat, p': nat)
      requires p <= |file| + BLOCK && p' <= |file| + BLOCK && p' % BLOCK == 0 && p' <= |file|
      requires p == p' || (BlockEnd(p) == p' && p + HEADER > p')
      ensures Settled(sum, file, p) == Settled(sum, file, p')
      ensures p' == |file| ==> See(sum, file, p') == Stop
    {
    }

    lemma InBuffer(i: nat, j: nat)
      requires Valid() && i <= j && pos + j <= limit
      ensures buffer[pos + i..pos + j] == file[Position() + i..Position() + j]
      ensures j == i + 1 ==> buffer[pos + i] == file[Position() + i]
    {
      Seqs.AtSlice(file, base, buffer, pos + i, pos + j);
      if j == i + 1 {
        Seqs.AtIndex(file, base, buffer, pos + i);
      }
    }

    /** Add a fragment to the unfinished record, or drop it when it has no start. */
    method Absorb(kind: byte, frag: bytes, inFrag: bool) returns (still: bool, record: Option<bytes>)
      requires Valid() && 0 < kind <= LAST
      modifies `res
      ensures Valid()
      ensures record == Finished(if inFrag then Some(old(res)) else None, kind, frag)
      ensures record.None? ==>
        (if still then Some(res) else None) == Held(if inFrag then Some(old(res)) else None, kind, frag)
    {
      still := inFrag;
      if kind == FULL {
        return false, Some(frag);
      }
      if kind == FIRST {
        res := frag;
        return true, None;
      }
      if !inFrag {
        return false, None;
      }
      res := res + frag;
      record := if kind == LAST then Some(res) else None;
    }

    /** What `whole`, with its records' `ends`, comes to, given what this turn of the loop found. */
    ghost predicate Found(whole: Outcome, ends: seq<nat>, record: Option<bytes>, still: bool, done: bool)
      requires Valid()
      reads this
    {
      if record.Some? then
        done && whole == Emit(record, Rest()) && ends == [Position()] + RestEnds() && validEnd == Position()
      else if done then whole == Outcome([], validEnd) && ends == []
      else Awaited(whole, ends, if still then Some(res) else None)
    }

    /** What `whole` comes to while `held` is held. */
    ghost predicate Awaited(whole: Outcome, ends: seq<nat>, held: Option<bytes>)
      requires Valid()
      reads this
    {
      whole == Scan(sum, file, Position(), held, validEnd) && ends == Ends(sum, file, Position(), held)
    }

    method DropBlock(ghost whole: Outcome, ghost ends: seq<nat>, ghost q: nat)
      requires Valid() && q <= |file| + BLOCK && See(sum, file, q).Bad? && BlockEnd(q) == base + BLOCK
      requires whole == Scan(sum, file, BlockEnd(q), None, validEnd) && ends == Ends(sum, file, BlockEnd(q), None)
      modifies `res, `pos
      ensures Valid() && Found(whole, ends, None, false, false) && Position() == BlockEnd(q)
    {
      res := [];
      pos := BLOCK;
    }

    method KeepFragment(kind: byte, frag: bytes, inFrag: bool, ghost whole: Outcome, ghost ends: seq<nat>)
      returns (record: Option<bytes>, still: bool)
      requires Valid() && 0 < kind <= LAST && validEnd == Position()
      requires var held := if inFrag then Some(res) else None;
        && whole == Emit(Finished(held, kind, frag), Scan(sum, file, Position(), Held(held, kind, frag), validEnd))
        && ends == EndMore(Finished(held, kind, frag), Position(), Ends(sum, file, Position(), Held(held, kind, frag)))
      modifies `res
      ensures Valid() && Found(whole, ends, record, still, record.Some?)
    {
      HeldDone(if inFrag then Some(res) else None, kind, frag);
      still, record := Absorb(kind, frag, inFrag);
    }

    /** One turn of the loop: a record, the end of the file, or more to read with `still` telling whether one is held.
        */
    method ReadStep(inFrag: bool, ghost whole: Outcome, ghost ends: seq<nat>)
      returns (record: Option<bytes>, still: bool, done: bool)
      requires Valid() && Awaited(whole, ends, if inFrag then Some(res) else None)
      modifies this
      ensures Valid() && Found(whole, ends, record, still, done)
      ensures !done || record.Some? ==> old(Position()) < Position()
    {
      ghost var q := Settled(sum, file, Position());
      ScanSettled(sum, file, Position(), if inFrag then Some(res) else None, validEnd);
      ScanStep(sum, file, q, if inFrag then Some(res) else None, validEnd);
      var r := ReadPhysicalRecord();
      if r.ReadEof? {
        return None, false, true;
      }
      if r.ReadBad? {
        DropBlock(whole, ends, q);
        return None, false, false;
      }
      record, still := KeepFragment(r.kind, r.frag, inFrag, whole, ends);
      done := record.Some?;
    }

    /** The next record, as `Scan` has it; the rest of the file is left to read, from where the record ended. */
    method ReadRecord() returns (record: Option<bytes>)
      requires Valid()
      modifies this
      ensures Valid() && (record.Some? ==> old(Position()) < Position())
      ensures old(Rest()) == if record.None? then Outcome([], validEnd) else Emit(record, Rest())
      ensures old(RestEnds()) == if record.None? then [] else [validEnd] + RestEnds()
    {
      ghost var whole, ends, p := Rest(), RestEnds(), Position();
      res := [];
      var inFrag, done := false, false;
      record := None;
      while !done
        invariant Valid() && Found(whole, ends, record, inFrag, done)
        invariant (!done ==> p <= Position()) && (record.Some? ==> done && p < Position())
        decreases !done, |file| + BLOCK - Position()
      {
        record, inFrag, done := ReadStep(inFrag, whole, ends);
      }
    }

    /** What is still to come. */
    ghost function Rest(): Outcome
      requires Valid()
      reads this
    {
      Scan(sum, file, Position(), None, validEnd)
    }

    /** Where each of these records ends. */
    ghost function RestEnds(): seq<nat>
      requires Valid()
      reads this
    {
      Ends(sum, file, Position(), None)
    }
  }

  lemma SeeFragment(sum: Sum, f: bytes, p: nat, len: nat, kind: byte, frag: bytes, crc: bytes, end: nat)
    requires p + HEADER + len <= Limit(f, p) && len == LengthAt(f, p) && end == p + HEADER + len
    requires kind == f[p + 6] && frag == f[p + HEADER..p + HEADER + len] && crc == f[p..p + 4]
    ensures See(sum, f, p)
         == if kind == 0 || kind > LAST || sum(kind, frag) != FromFixed(crc) then Bad else Ok(kind, frag, end)
  {
  }

  lemma ScanStep(sum: Sum, f: bytes, q: nat, held: Option<bytes>, validEnd: nat)
    requires q <= |f| + BLOCK
    ensures var s := See(sum, f, q); var scan := Scan(sum, f, q, held, validEnd);
      && (s.Stop? ==> scan == Outcome([], validEnd))
      && (s.Bad? ==> scan == Scan(sum, f, BlockEnd(q), None, validEnd))
      && (s.Ok? ==>
            scan == Emit(Finished(held, s.kind, s.payload), Scan(sum, f, s.end, Held(held, s.kind, s.payload), s.end)))
    ensures var s := See(sum, f, q); var ends := Ends(sum, f, q, held);
      && (s.Stop? ==> ends == [])
      && (s.Bad? ==> ends == Ends(sum, f, BlockEnd(q), None))
      && (s.Ok? ==>
            ends == EndMore(Finished(held, s.kind, s.payload), s.end,
                            Ends(sum, f, s.end, Held(held, s.kind, s.payload))))
  {
  }

  /** A finished record leaves nothing held. */
  lemma HeldDone(frag: Option<bytes>, kind: byte, payload: bytes)
    ensures Finished(frag, kind, payload).Some? ==> Held(frag, kind, payload) == None
  {
  }

  /** `records` were returned already and `last` just now. */
  lemma ToldMore(records: seq<bytes>, last: bytes, rest: Outcome)
    ensures Prepend(records, Emit(Some(last), rest)) == Prepend(records + [last], rest)
  {
    Seqs.Assoc(records, [last], rest.records);
  }

  /** One more record, of a log that reads as `whole`. */
  method ReadMore(reader: LogReader, records: seq<bytes>, ghost whole: Outcome) returns (more: bool, longer: seq<bytes>)
    requires reader.Valid() && whole == Prepend(records, reader.Rest())
    modifies reader
    ensures reader.Valid()
    ensures more ==> old(reader.Position()) < reader.Position() && whole == Prepend(longer, reader.Rest())
    ensures !more ==> whole == Outcome(longer, reader.validEnd)
  {
    var record := reader.ReadRecord();
    if record.None? {
      Seqs.Nil(records);
      return false, records;
    }
    ToldMore(records, record.value, reader.Rest());
    more, longer := true, records + [record.value];
  }

  /** Reading until nothing is left returns exactly the log's records, and its valid end. */
  method ReadAll(sum: Sum, file: bytes) returns (records: seq<bytes>, validEnd: nat)
    ensures Outcome(records, validEnd) == Scan(sum, file, 0, None, 0)
  {
    var reader := new LogReader(sum, file);
    ghost var whole := reader.Rest();
    records := [];
    Seqs.Nil(whole.records);
    var more := true;
    while more
      invariant reader.Valid() && fresh(reader) && reader.file == file
      invariant whole == if more then Prepend(records, reader.Rest()) else Outcome(records, reader.validEnd)
      decreases more, |file| + BLOCK - reader.Position()
    {
      more, records := ReadMore(reader, records, whole);
    }
    validEnd := reader.validEnd;
  }
}
