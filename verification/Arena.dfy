/** The bump allocator behind the memtable, over a model of addresses (src/util/arena.cc). */
module Arenas {
  import Seqs

  const BLOCK_SIZE: nat := 4096
  const ALIGN: nat := 8

  /** Addresses from `start` on. */
  datatype Range = Range(start: nat, size: nat)

  predicate Disjoint(a: Range, b: Range) {
    a.start + a.size <= b.start || b.start + b.size <= a.start
  }

  predicate Inside(a: Range, b: Range) {
    b.start <= a.start && a.start + a.size <= b.start + b.size
  }

  function Total(rs: seq<Range>): nat {
    if rs == [] then 0 else Total(rs[..|rs| - 1]) + rs[|rs| - 1].size
  }

  /** The arena's fields, and the ranges it has handed out. */
  datatype State = State(curr: nat, avail: nat, blocks: seq<Range>, given: seq<Range>)

  const EMPTY: State := State(0, 0, [], [])

  // ---------------------------------------------------------------- what the calls do

  function Give(s: State, r: Range): State {
    s.(given := s.given + [r])
  }

  /** Bytes skipped so that the next address is aligned. */
  function Slop(curr: nat): (n: nat)
    ensures n < ALIGN && (curr + n) % ALIGN == 0
  {
    if curr % ALIGN == 0 then 0 else ALIGN - curr % ALIGN
  }

  /** The block that a call asks of the system when the current one has too little room; `at` is where it is put. */
  function NewBlock(s: State, bytes: nat, aligned: bool, at: nat): Range {
    if aligned then Range(at, bytes + Slop(s.curr))
    else if bytes > BLOCK_SIZE / 4 then Range(at, bytes)
    else Range(at, BLOCK_SIZE)
  }

  /** Whether the current block has room. */
  predicate Fits(s: State, bytes: nat, aligned: bool) {
    bytes + (if aligned then Slop(s.curr) else 0) <= s.avail
  }

  /** One call, plain or aligned. Only a small plain request makes the new block the current one. */
  function Allocated(s: State, bytes: nat, aligned: bool, at: nat): State {
    var skip := if aligned then Slop(s.curr) else 0;
    if Fits(s, bytes, aligned) then
      Give(s.(curr := s.curr + skip + bytes, avail := s.avail - skip - bytes), Range(s.curr + skip, bytes))
    else
      var block := NewBlock(s, bytes, aligned, at);
      if !aligned && bytes <= BLOCK_SIZE / 4 then
        Give(State(at + bytes, BLOCK_SIZE - bytes, s.blocks + [block], s.given), Range(at, bytes))
      else Give(s.(blocks := s.blocks + [block]), Range(at, bytes))
  }

  // ---------------------------------------------------------------- what holds throughout

  predicate PairwiseDisjoint(rs: seq<Range>) {
    forall i, j :: 0 <= i < j < |rs| ==> Disjoint(rs[i], rs[j])
  }

  predicate Owned(r: Range, blocks: seq<Range>) {
    exists b :: b in blocks && Inside(r, b)
  }

  predicate AllOwned(rs: seq<Range>, blocks: seq<Range>) {
    forall r :: r in rs ==> Owned(r, blocks)
  }

  predicate Clear(r: Range, rs: seq<Range>) {
    forall x :: x in rs ==> Disjoint(r, x)
  }

  /** Blocks and handed-out ranges are pairwise disjoint, each range lies in one block, and so does the free rest. */
  predicate Sound(s: State) {
    && PairwiseDisjoint(s.blocks) && PairwiseDisjoint(s.given) && AllOwned(s.given, s.blocks)
    && (s.avail > 0 ==> Owned(Range(s.curr, s.avail), s.blocks) && Clear(Range(s.curr, s.avail), s.given))
  }

  /** The system's promise: a new block overlaps none that the arena owns. */
  predicate Granted(s: State, bytes: nat, aligned: bool, at: nat) {
    Fits(s, bytes, aligned) || Clear(NewBlock(s, bytes, aligned, at), s.blocks)
  }

  lemma DisjointMore(rs: seq<Range>, r: Range)
    requires PairwiseDisjoint(rs) && Clear(r, rs)
    ensures PairwiseDisjoint(rs + [r])
  {
    forall i, j | 0 <= i < j < |rs + [r]| ensures Disjoint((rs + [r])[i], (rs + [r])[j]) {
      assert rs[i] in rs;
    }
  }

  lemma OwnedMore(rs: seq<Range>, r: Range, blocks: seq<Range>, more: seq<Range>)
    requires AllOwned(rs, blocks) && Owned(r, blocks + more)
    ensures AllOwned(rs + [r], blocks + more)
  {
    forall x | x in rs + [r] ensures Owned(x, blocks + more) {
      if x in rs {
        var b :| b in blocks && Inside(x, b);
        assert b in blocks + more;
      }
    }
  }

  /** What lies in a block disjoint from all others is disjoint from what lies in those. */
  lemma ClearOfGiven(r: Range, block: Range, blocks: seq<Range>, given: seq<Range>)
    requires Inside(r, block) && Clear(block, blocks) && AllOwned(given, blocks)
    ensures Clear(r, given)
  {
    forall x | x in given ensures Disjoint(r, x) {
      var b :| b in blocks && Inside(x, b);
      assert Disjoint(block, b);
    }
  }

  /** A part of a free range is free, too. */
  lemma PartFree(free: Range, part: Range, blocks: seq<Range>, given: seq<Range>)
    requires Inside(part, free) && Owned(free, blocks) && Clear(free, given)
    ensures Owned(part, blocks) && Clear(part, given)
  {
    var b :| b in blocks && Inside(free, b);
    assert Inside(part, b);
    forall x | x in given ensures Disjoint(part, x) {
      assert Disjoint(free, x);
    }
  }

  lemma ClearMore(r: Range, rs: seq<Range>, x: Range)
    requires Clear(r, rs) && Disjoint(r, x)
    ensures Clear(r, rs + [x])
  {
  }

  /** Handing out `r` from the free rest, of which `t`'s is another part. */
  lemma TakenSound(s: State, t: State, free: Range, r: Range, rest: Range)
    requires Sound(s) && s.avail > 0 && free == Range(s.curr, s.avail) && rest == Range(t.curr, t.avail)
    requires Inside(r, free) && Inside(rest, free) && Disjoint(rest, r)
    requires t.blocks == s.blocks && t.given == s.given + [r]
    ensures Sound(t)
  {
    PartFree(free, r, s.blocks, s.given);
    PartFree(free, rest, s.blocks, s.given);
    DisjointMore(s.given, r);
    Seqs.Nil(s.blocks);
    OwnedMore(s.given, r, s.blocks, []);
    ClearMore(rest, s.given, r);
  }

  lemma FitsSound(s: State, bytes: nat, aligned: bool, at: nat)
    requires Sound(s) && bytes > 0 && Fits(s, bytes, aligned)
    ensures Sound(Allocated(s, bytes, aligned, at))
  {
    var t := Allocated(s, bytes, aligned, at);
    var skip := if aligned then Slop(s.curr) else 0;
    TakenSound(s, t, Range(s.curr, s.avail), Range(s.curr + skip, bytes), Range(t.curr, t.avail));
  }

  lemma GrowsSound(s: State, bytes: nat, aligned: bool, at: nat)
    requires Sound(s) && bytes > 0 && !Fits(s, bytes, aligned) && Granted(s, bytes, aligned, at)
    ensures Sound(Allocated(s, bytes, aligned, at))
  {
    var block, r := NewBlock(s, bytes, aligned, at), Range(at, bytes);
    DisjointMore(s.blocks, block);
    ClearOfGiven(r, block, s.blocks, s.given);
    DisjointMore(s.given, r);
    assert block in s.blocks + [block] && Inside(r, block);
    OwnedMore(s.given, r, s.blocks, [block]);
    if !aligned && bytes <= BLOCK_SIZE / 4 {
      SmallSound(s, bytes, block, r);
    } else if s.avail > 0 {
      KeepsFree(s, block, r);
    }
  }

  /** The rest of a new current block is free. */
  lemma SmallSound(s: State, bytes: nat, block: Range, r: Range)
    requires Sound(s) && bytes <= BLOCK_SIZE / 4 && block.size == BLOCK_SIZE && r == Range(block.start, bytes)
      && Clear(block, s.blocks)
    ensures var rest := Range(block.start + bytes, BLOCK_SIZE - bytes);
      Owned(rest, s.blocks + [block]) && Clear(rest, s.given + [r])
  {
    var rest := Range(block.start + bytes, BLOCK_SIZE - bytes);
    assert block in s.blocks + [block] && Inside(rest, block);
    ClearOfGiven(rest, block, s.blocks, s.given);
  }

  /** The rest of the old current block stays free. */
  lemma KeepsFree(s: State, block: Range, r: Range)
    requires Sound(s) && s.avail > 0 && Clear(block, s.blocks) && Inside(r, block)
    ensures var free := Range(s.curr, s.avail);
      Owned(free, s.blocks + [block]) && Clear(free, s.given + [r])
  {
    var free := Range(s.curr, s.avail);
    var b :| b in s.blocks && Inside(free, b);
    assert b in s.blocks + [block];
    assert Disjoint(block, b);
  }

  /** Every call keeps this. */
  lemma AllocateSound(s: State, bytes: nat, aligned: bool, at: nat)
    requires Sound(s) && bytes > 0 && Granted(s, bytes, aligned, at)
    ensures Sound(Allocated(s, bytes, aligned, at))
  {
    if Fits(s, bytes, aligned) {
      FitsSound(s, bytes, aligned, at);
    } else {
      GrowsSound(s, bytes, aligned, at);
    }
  }

  /** An aligned result is aligned, provided blocks start aligned, and skips less than eight bytes. */
  lemma AlignedResult(s: State, bytes: nat, at: nat)
    requires Fits(s, bytes, true) || at % 8 == 0
    ensures var given := Allocated(s, bytes, true, at).given; given[|given| - 1].start % 8 == 0
    ensures Fits(s, bytes, true) ==>
      var given := Allocated(s, bytes, true, at).given; s.curr <= given[|given| - 1].start < s.curr + 8
  {
  }

  // ---------------------------------------------------------------- any interleaving of calls

  datatype Request = Request(bytes: nat, aligned: bool, at: nat)

  function After(requests: seq<Request>): State {
    if requests == [] then EMPTY
    else
      var r := requests[|requests| - 1];
      Allocated(After(requests[..|requests| - 1]), r.bytes, r.aligned, r.at)
  }

  /** Nonempty requests, and new blocks as the system promises them. */
  predicate Proper(requests: seq<Request>) {
    forall i :: 0 <= i < |requests| ==>
      requests[i].bytes > 0 && Granted(After(requests[..i]), requests[i].bytes, requests[i].aligned, requests[i].at)
  }

  lemma ProperHead(requests: seq<Request>, n: nat)
    requires Proper(requests) && n <= |requests|
    ensures Proper(requests[..n])
  {
    forall i | 0 <= i < n ensures requests[..n][..i] == requests[..i] {
    }
  }

  /** One range per request, of its size. */
  predicate Answered(requests: seq<Request>, given: seq<Range>) {
    |given| == |requests| && forall i :: 0 <= i < |requests| ==> given[i].size == requests[i].bytes
  }

  lemma AnsweredMore(requests: seq<Request>, n: nat, given: seq<Range>, r: Range)
    requires n + 1 == |requests| && Answered(requests[..n], given) && r.size == requests[n].bytes
    ensures Answered(requests, given + [r])
  {
  }

  lemma OneGiven(s: State, bytes: nat, aligned: bool, at: nat) returns (r: Range)
    ensures Allocated(s, bytes, aligned, at).given == s.given + [r] && r.size == bytes
  {
    r := Range(if Fits(s, bytes, aligned) then s.curr + (if aligned then Slop(s.curr) else 0) else at, bytes);
  }

  /** Whatever the calls, the ranges handed out are disjoint, one per call and of its size, each inside one owned
      block. */
  lemma {:induction false} CallsSound(requests: seq<Request>)
    requires Proper(requests)
    ensures Sound(After(requests)) && Answered(requests, After(requests).given)
    decreases |requests|
  {
    if requests != [] {
      var n := |requests| - 1;
      var r := requests[n];
      ProperHead(requests, n);
      CallsSound(requests[..n]);
      AllocateSound(After(requests[..n]), r.bytes, r.aligned, r.at);
      var given := OneGiven(After(requests[..n]), r.bytes, r.aligned, r.at);
      AnsweredMore(requests, n, After(requests[..n]).given, given);
    }
  }

  // ---------------------------------------------------------------- plain calls alone

  function Requested(requests: seq<Request>): nat {
    if requests == [] then 0 else Requested(requests[..|requests| - 1]) + requests[|requests| - 1].bytes
  }

  predicate AllPlain(requests: seq<Request>) {
    forall i :: 0 <= i < |requests| ==> !requests[i].aligned
  }

  lemma TotalMore(rs: seq<Range>, r: Range)
    ensures Total(rs + [r]) == Total(rs) + r.size
  {
    assert (rs + [r])[..|rs|] == rs;
  }

  /** What one plain call does to the usage: nothing, or a block of its own, or a new current block, which is asked for
      with less than 1024 bytes left in the old one. */
  lemma PlainStep(s: State, bytes: nat, at: nat)
    ensures var t := Allocated(s, bytes, false, at);
      if bytes <= s.avail then Total(t.blocks) == Total(s.blocks) && t.avail == s.avail - bytes
      else if bytes > 1024 then Total(t.blocks) == Total(s.blocks) + bytes && t.avail == s.avail
      else Total(t.blocks) == Total(s.blocks) + 4096 && t.avail == 4096 - bytes && s.avail < 1024
  {
    TotalMore(s.blocks, NewBlock(s, bytes, false, at));
  }

  /** So of plain calls at least three bytes in four are used, but for what the current block has left. */
  lemma {:induction false} PlainUsage(requests: seq<Request>)
    requires AllPlain(requests)
    ensures var s := After(requests);
      s.avail <= 4096 && 3 * Total(s.blocks) <= 4 * Requested(requests) + 4 * s.avail
    decreases |requests|
  {
    if requests != [] {
      var n := |requests| - 1;
      var r := requests[n];
      PlainUsage(requests[..n]);
      PlainStep(After(requests[..n]), r.bytes, r.at);
    }
  }

  /** Small plain calls of up to 4096 bytes in all share one block. */
  lemma {:induction false} OneBlock(requests: seq<Request>)
    requires requests != [] && AllPlain(requests) && Requested(requests) <= 4096
    requires forall i :: 0 <= i < |requests| ==> 0 < requests[i].bytes <= 1024
    ensures var s := After(requests); Total(s.blocks) == 4096 && s.avail == 4096 - Requested(requests)
    decreases |requests|
  {
    var n := |requests| - 1;
    var r := requests[n];
    PlainStep(After(requests[..n]), r.bytes, r.at);
    if n > 0 {
      OneBlock(requests[..n]);
    }
  }

  // ---------------------------------------------------------------- aligned calls alone

  /** One aligned call, with a new block wherever the system puts it. */
  ghost predicate Grown(s: State, s': State, bytes: nat) {
    exists at: nat :: at % ALIGN == 0 && Granted(s, bytes, true, at) && s' == Allocated(s, bytes, true, at)
  }

  /** There is no current block: no small plain request has come. */
  predicate NoCurrent(s: State) {
    s.curr == 0 && s.avail == 0
  }

  /** Without a current block each aligned request gets a block of its own, of exactly its size. */
  lemma AlignedGrows(s: State, s': State, bytes: nat)
    requires NoCurrent(s) && bytes > 0 && Grown(s, s', bytes)
    ensures NoCurrent(s') && Total(s'.blocks) == Total(s.blocks) + bytes
    ensures Sound(s) ==> Sound(s')
  {
    var at: nat :| at % ALIGN == 0 && Granted(s, bytes, true, at) && s' == Allocated(s, bytes, true, at);
    assert s'.blocks[..|s.blocks|] == s.blocks;
    if Sound(s) {
      AllocateSound(s, bytes, true, at);
    }
  }

  /** So an arena that serves aligned requests alone uses what was requested, to the byte. */
  lemma {:induction false} AlignedUsage(requests: seq<Request>)
    requires Proper(requests) && forall r :: r in requests ==> r.aligned && r.at % ALIGN == 0
    ensures NoCurrent(After(requests)) && Total(After(requests).blocks) == Requested(requests)
    decreases |requests|
  {
    if requests != [] {
      var n := |requests| - 1;
      ProperHead(requests, n);
      AlignedUsage(requests[..n]);
      AlignedGrows(After(requests[..n]), After(requests), requests[n].bytes);
    }
  }

  /** An aligned place for a new block that overlaps none of `blocks`; the system may choose any. */
  method SystemBlock(blocks: seq<Range>, ghost size: nat) returns (at: nat)
    ensures at % ALIGN == 0 && Clear(Range(at, size), blocks)
  {
    at := 0;
    for i := 0 to |blocks|
      invariant at % ALIGN == 0 && forall x :: x in blocks[..i] ==> x.start + x.size <= at
    {
      var end := blocks[i].start + blocks[i].size;
      Seqs.TakeSnoc(blocks, i);
      if at < end {
        at := end + Slop(end);
      }
    }
    Seqs.TakeAll(blocks);
  }

  // ---------------------------------------------------------------- the object

  class Arena {
    var curr: nat
    var avail: nat
    var blocksBytes: nat
    var blocks: seq<Range>
    ghost var given: seq<Range>

    /** `MemoryUsage` is the sum of the block sizes. */
    ghost predicate Valid()
      reads this
    {
      Sound(Now()) && blocksBytes == Total(blocks)
    }

    ghost function Now(): State
      reads this
    {
      State(curr, avail, blocks, given)
    }

    constructor ()
      ensures Valid() && Now() == EMPTY
    {
      curr, avail, blocksBytes, blocks, given := 0, 0, 0, [], [];
    }

    method MemoryUsage() returns (n: nat)
      requires Valid()
      ensures n == Total(blocks)
    {
      n := blocksBytes;
    }

    method Allocate(bytes: nat, at: nat) returns (result: nat)
      requires Valid() && bytes > 0 && Granted(Now(), bytes, false, at)
      modifies this
      ensures Now() == Allocated(old(Now()), bytes, false, at) && Valid()
      ensures given == old(given) + [Range(result, bytes)]
    {
      AllocateSound(Now(), bytes, false, at);
      if bytes <= avail {
        result := Take(0, bytes);
      } else if bytes > BLOCK_SIZE / 4 {
        result := TakeWhole(bytes, bytes, at);
      } else {
        result := TakeFromNew(bytes, at);
      }
    }

    method AllocateAligned(bytes: nat, at: nat) returns (result: nat)
      requires Valid() && bytes > 0 && Granted(Now(), bytes, true, at)
      modifies this
      ensures Now() == Allocated(old(Now()), bytes, true, at) && Valid()
      ensures given == old(given) + [Range(result, bytes)] && (at % ALIGN == 0 ==> result % ALIGN == 0)
    {
      AllocateSound(Now(), bytes, true, at);
      var slop := Slop(curr);
      if bytes + slop <= avail {
        result := Take(slop, bytes);
      } else {
        result := TakeWhole(bytes + slop, bytes, at);
      }
    }

    /** From the current block. */
    method Take(slop: nat, bytes: nat) returns (result: nat)
      requires slop + bytes <= avail
      modifies `curr, `avail, `given
      ensures result == old(curr) + slop && curr == result + bytes && avail == old(avail) - slop - bytes
      ensures given == old(given) + [Range(result, bytes)]
    {
      result := curr + slop;
      curr := curr + slop + bytes;
      avail := avail - slop - bytes;
      given := given + [Range(result, bytes)];
    }

    /** From a new current block. */
    method TakeFromNew(bytes: nat, at: nat) returns (result: nat)
      requires blocksBytes == Total(blocks) && bytes <= BLOCK_SIZE
      modifies this
      ensures result == at && curr == at + bytes && avail == BLOCK_SIZE - bytes
        && given == old(given) + [Range(at, bytes)]
      ensures blocks == old(blocks) + [Range(at, BLOCK_SIZE)] && blocksBytes == Total(blocks)
    {
      AllocateNewBlock(BLOCK_SIZE, at);
      curr, avail := at, BLOCK_SIZE;
      result := Take(0, bytes);
    }

    /** From a block of its own. */
    method TakeWhole(size: nat, bytes: nat, at: nat) returns (result: nat)
      requires blocksBytes == Total(blocks)
      modifies `blocks, `blocksBytes, `given
      ensures result == at && given == old(given) + [Range(at, bytes)]
      ensures blocks == old(blocks) + [Range(at, size)] && blocksBytes == Total(blocks)
    {
      AllocateNewBlock(size, at);
      given := given + [Range(at, bytes)];
      result := at;
    }

    method AllocateNewBlock(size: nat, at: nat)
      requires blocksBytes == Total(blocks)
      modifies `blocks, `blocksBytes
      ensures blocks == old(blocks) + [Range(at, size)] && blocksBytes == Total(blocks)
    {
      assert (blocks + [Range(at, size)])[..|blocks|] == blocks;
      blocks := blocks + [Range(at, size)];
      blocksBytes := blocksBytes + size;
    }
  }
}
