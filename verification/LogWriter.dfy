/** The appending end of the log (src/db/log_writer.cc). */
module LogWriters {
  import opened Bytes
  import opened Checksums
  import opened Coding
  import opened LogFormat
  import opened LogProofs
  import Seqs

  class LogWriter {
    const sum: Sum
    /** The contents of the file written to. */
    var file: bytes
    var blockOffset: nat

    ghost predicate Valid()
      reads this
    {
      Matches(|file|, blockOffset)
    }

    /** Resume writing at the end of a file. */
    constructor (sum: Sum, file: bytes)
      ensures Valid() && this.sum == sum && this.file == file
    {
      this.sum := sum;
      this.file := file;
      blockOffset := |file| % BLOCK;
    }

    method AddRecord(data: bytes)
      requires Valid()
      modifies this
      ensures Valid() && file == old(file) + Added(sum, old(file), data)
    {
      AppendAtFull(sum, blockOffset, data, true);
      ghost var whole := file + Append(sum, blockOffset, data, true);
      var left := data;
      var begin := true;
      var more := true;
      while more
        invariant Valid()
        invariant if more then whole == file + Append(sum, blockOffset, left, begin) else whole == file
        decreases more, |left|, BLOCK - blockOffset
      {
        ghost var before, o := file, blockOffset;
        var n := AddFragment(left, begin);
        AppendStep(sum, before, o, left, begin, file);
        left := left[n..];
        begin := false;
        more := |left| > 0;
      }
    }

    /** One turn of the loop: fill the block's tail if it is too small, then write the next fragment. */
    method AddFragment(left: bytes, begin: bool) returns (n: nat)
      requires Valid()
      modifies this
      ensures Valid() && n == Share(old(blockOffset), |left|)
      ensures file == old(file) + Piece(sum, old(blockOffset), left, begin)
      ensures blockOffset == AfterShare(old(blockOffset), |left|)
    {
      AfterMatches(|file|, blockOffset, |left|);
      var leftover := BLOCK - blockOffset;
      if leftover < HEADER {
        file := file + Zeros(leftover);
        blockOffset := 0;
      } else {
        Seqs.Nil(file);
      }
      var avail := BLOCK - blockOffset - HEADER;
      n := if |left| < avail then |left| else avail;
      var end := n == |left|;
      var kind := if begin && end then FULL else if begin then FIRST else if end then LAST else MIDDLE;
      EmitPhysicalRecord(kind, left[..n]);
      Seqs.Assoc(old(file), Zeros(Padding(old(blockOffset))), Physical(sum, kind, left[..n]));
    }

    method EmitPhysicalRecord(kind: byte, payload: bytes)
      requires blockOffset + HEADER + |payload| <= BLOCK
      modifies this
      ensures file == old(file) + Physical(sum, kind, payload)
      ensures blockOffset == old(blockOffset) + HEADER + |payload|
    {
      file := file + (Fixed(sum(kind, payload), 4) + Fixed(|payload|, 2) + [kind]);
      if |payload| > 0 {
        file := file + payload;
      }
      blockOffset := blockOffset + HEADER + |payload|;
    }
  }

  lemma FullIsStart(left: nat)
    ensures Padding(BLOCK) == Padding(0) && Share(BLOCK, left) == Share(0, left)
      && AfterShare(BLOCK, left) == AfterShare(0, left)
  {
  }

  /** A writer at the very end of a block writes what one at the start of the next does. */
  lemma AppendAtFull(sum: Sum, o: nat, data: bytes, begin: bool)
    requires o <= BLOCK
    ensures Append(sum, o, data, begin) == Append(sum, o % BLOCK, data, begin)
  {
    if o == BLOCK {
      FullIsStart(|data|);
      assert Piece(sum, BLOCK, data, begin) == Piece(sum, 0, data, begin);
    } else {
      assert o % BLOCK == o;
    }
  }

  lemma AppendStep(sum: Sum, before: bytes, o: nat, left: bytes, begin: bool, after: bytes)
    requires o <= BLOCK && after == before + Piece(sum, o, left, begin)
    ensures var n := Share(o, |left|);
      before + Append(sum, o, left, begin)
      == if n == |left| then after else after + Append(sum, AfterShare(o, |left|), left[n..], false)
  {
  }
}
