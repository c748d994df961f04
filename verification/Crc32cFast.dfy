/** The table-driven computation, proved equal to the bit-serial `Crc32c.Extend`. */
module Crc32cFast {
  import opened Bytes
  import opened Crc32c

  ghost predicate EightBits(step: bv32 -> bv32) {
    forall c {:trigger Iterate(BitStep, c, 8)} :: step(c) == Iterate(BitStep, c, 8)
  }

  method ShiftBits(ghost f: bv32 -> bv32, start: bv32, n: nat) returns (c: bv32)
    requires f == BitStep
    ensures c == Iterate(f, start, n)
  {
    c := start;
    var k := 0;
    while k < n
      invariant 0 <= k <= n
      invariant c == Iterate(f, start, k)
    {
      IterateLast(f, start, k);
      c := if c & 1 == 1 then (c >> 1) ^ POLY else c >> 1;
      k := k + 1;
    }
  }

  method BaseEntry(ghost step: bv32 -> bv32, start: bv32) returns (c: bv32)
    requires EightBits(step)
    ensures c == Iterate(step, start, 1)
  {
    c := ShiftBits(BitStep, start, 8);
  }

  method FillBase(ghost step: bv32 -> bv32, t: array2<bv32>)
    requires EightBits(step)
    requires t.Length0 == 4 && t.Length1 == 256
    modifies t
    ensures Filled(step, t, 1, 256)
  {
    var i := 0;
    while i < 256
      invariant 0 <= i <= 256
      invariant Filled(step, t, 1, i)
    {
      var c := BaseEntry(step, (i as bv8) as bv32);
      t[0, i] := c;
      i := i + 1;
    }
  }

  lemma TableStepIs(step: bv32 -> bv32, c: bv32, entry: bv32, r: bv32)
    requires Shifts(step) && entry == Iterate(step, c & 0xff, 1) && r == (c >> 8) ^ entry
    ensures r == step(c)
  {
    LookupStep(step, c, c & 0xff, c >> 8);
    XorSwap(entry, c >> 8);
  }

  method StepByTable(ghost step: bv32 -> bv32, t: array2<bv32>, c: bv32) returns (r: bv32)
    requires Shifts(step)
    requires t.Length0 == 4 && t.Length1 == 256 && Filled(step, t, 1, 256)
    ensures r == step(c)
  {
    var entry := t[0, LowByte(c) as int];
    ReadTable(step, t, 1, 0, c);
    r := (c >> 8) ^ entry;
    TableStepIs(step, c, entry, r);
  }

  method FillDerived(ghost step: bv32 -> bv32, t: array2<bv32>)
    requires Shifts(step)
    requires t.Length0 == 4 && t.Length1 == 256 && Filled(step, t, 1, 256)
    modifies t
    ensures Filled(step, t, 4, 256)
  {
    var i := 0;
    while i < 256
      invariant 0 <= i <= 256
      invariant Filled(step, t, 1, 256) && Filled(step, t, 4, i)
    {
      FillColumn(step, t, i);
      i := i + 1;
    }
  }

  /** The entries of one index, each a byte step from the one before. */
  method FillColumn(ghost step: bv32 -> bv32, t: array2<bv32>, i: nat)
    requires Shifts(step) && i < 256
    requires t.Length0 == 4 && t.Length1 == 256 && Filled(step, t, 1, 256) && Filled(step, t, 4, i)
    modifies t
    ensures Filled(step, t, 1, 256) && Filled(step, t, 4, i + 1)
  {
    var c := t[0, i];
    var level: nat := 1;
    while level < 4
      invariant 1 <= level <= 4
      invariant Filled(step, t, 1, 256) && Filled(step, t, 4, i) && Filled(step, t, level, i + 1)
      invariant c == Iterate(step, Widen(i), level)
    {
      c := StepByTable(step, t, c);
      IterateLast(step, Widen(i), level);
      t[level, i] := c;
      level := level + 1;
    }
  }

  lemma ByteStepIsEightBits()
    ensures EightBits(ByteStep)
  {
    forall c {:trigger Iterate(BitStep, c, 8)} ensures ByteStep(c) == Iterate(BitStep, c, 8) {
    }
  }

  method BuildTables() returns (t: array2<bv32>)
    ensures fresh(t) && t.Length0 == 4 && t.Length1 == 256 && Filled(ByteStep, t, 4, 256)
  {
    t := new bv32[4, 256];
    ByteStepIsEightBits();
    ByteStepShifts();
    FillBase(ByteStep, t);
    FillDerived(ByteStep, t);
  }

  // ---------------------------------------------------------------- one word

  lemma FeedTwo(step: bv32 -> bv32, c: bv32, b0: bv32, b1: bv32, data: bytes)
    requires |data| >= 2 && b0 == Widen(data[0]) && b1 == Widen(data[1])
    ensures Feed(step, c, data) == Feed(step, step(Xor(step(Xor(c, b0)), b1)), data[2..])
  {
    assert data[1..][1..] == data[2..];
    assert Feed(step, c, data) == Feed(step, step(Xor(c, b0)), data[1..]);
  }

  lemma FeedFour(step: bv32 -> bv32, c: bv32, b0: bv32, b1: bv32, b2: bv32, b3: bv32, data: bytes)
    requires |data| >= 4
    requires b0 == Widen(data[0]) && b1 == Widen(data[1]) && b2 == Widen(data[2]) && b3 == Widen(data[3])
    ensures Feed(step, c, data) == Feed(step, FeedEach(step, c, b0, b1, b2, b3), data[4..])
  {
    FeedTwo(step, c, b0, b1, data);
    FeedTwo(step, step(Xor(step(Xor(c, b0)), b1)), b2, b3, data[2..]);
    assert data[2..][2..] == data[4..];
  }

  function FeedEach(step: bv32 -> bv32, c: bv32, b0: bv32, b1: bv32, b2: bv32, b3: bv32): bv32 {
    step(Xor(step(Xor(step(Xor(step(Xor(c, b0)), b1)), b2)), b3))
  }

  lemma ByteShifts(x: bv32)
    ensures Splits(x, x & 0xff, x >> 8)
    ensures Splits(x >> 8, (x >> 8) & 0xff, x >> 16)
    ensures Splits(x >> 16, (x >> 16) & 0xff, x >> 24)
    ensures (x >> 24) & 0xff == x >> 24
  {
  }

  lemma FourLookups(step: bv32 -> bv32, x: bv32, e3: bv32, e2: bv32, e1: bv32, e0: bv32)
    requires Shifts(step)
    requires e3 == Iterate(step, x & 0xff, 4) && e2 == Iterate(step, (x >> 8) & 0xff, 3)
    requires e1 == Iterate(step, (x >> 16) & 0xff, 2) && e0 == Iterate(step, (x >> 24) & 0xff, 1)
    ensures Xor(Xor(Xor(e3, e2), e1), e0) == step(step(step(step(x))))
  {
    ByteShifts(x);
    FourSteps(step, x, x & 0xff, (x >> 8) & 0xff, (x >> 16) & 0xff, x >> 8, x >> 16, x >> 24);
    FourIs(step, x & 0xff);
    FourIs(step, (x >> 8) & 0xff);
  }

  lemma FourIs(step: bv32 -> bv32, c: bv32)
    ensures Iterate(step, c, 3) == step(step(step(c)))
    ensures Iterate(step, c, 4) == step(step(step(step(c))))
  {
    IterateLast(step, c, 2);
    IterateLast(step, c, 3);
  }

  /** `e` is what table `level` holds for the low byte of `x`. */
  ghost predicate Looked(step: bv32 -> bv32, e: bv32, x: bv32, level: nat) {
    e == Iterate(step, x & 0xff, level + 1)
  }

  method Look(ghost step: bv32 -> bv32, t: array2<bv32>, level: nat, x: bv32) returns (e: bv32)
    requires level < 4 && t.Length0 == 4 && t.Length1 == 256 && Filled(step, t, 4, 256)
    ensures Looked(step, e, x, level)
  {
    ReadTable(step, t, 4, level, x);
    e := t[level, LowByte(x) as int];
  }

  /** One round of the main loop. */
  method LookupWord(ghost step: bv32 -> bv32, t: array2<bv32>, x: bv32) returns (r: bv32)
    requires Shifts(step)
    requires t.Length0 == 4 && t.Length1 == 256 && Filled(step, t, 4, 256)
    ensures r == step(step(step(step(x))))
  {
    var e3 := Look(step, t, 3, x);
    var e2 := Look(step, t, 2, x >> 8);
    var e1 := Look(step, t, 1, x >> 16);
    var e0 := Look(step, t, 0, x >> 24);
    FourLookups(step, x, e3, e2, e1, e0);
    r := Xor(Xor(Xor(e3, e2), e1), e0);
  }

  lemma LowXor(c: bv32, b: byte)
    ensures Xor(c, Widen(b)) >> 8 == c >> 8
  {
  }

  lemma TailStepIs(step: bv32 -> bv32, c: bv32, b: byte, x: bv32, entry: bv32, r: bv32)
    requires Shifts(step) && x == Xor(c, Widen(b)) && Looked(step, entry, x, 0) && r == Xor(entry, c >> 8)
    ensures r == step(x)
  {
    LowXor(c, b);
    LookupStep(step, x, x & 0xff, c >> 8);
  }

  // ---------------------------------------------------------------- the whole computation

  method FeedByTable(ghost step: bv32 -> bv32, t: array2<bv32>, start: bv32, data: bytes) returns (c: bv32)
    requires Shifts(step)
    requires t.Length0 == 4 && t.Length1 == 256 && Filled(step, t, 4, 256)
    ensures c == Feed(step, start, data)
  {
    c := start;
    var p := 0;
    while |data| - p >= 4
      invariant 0 <= p <= |data|
      invariant Feed(step, c, data[p..]) == Feed(step, start, data)
    {
      var word := ReadWord(data, p);
      WordFed(step, c, word, data, p);
      c := LookupWord(step, t, Xor(c, word));
      p := p + 4;
    }
    while p < |data|
      invariant 0 <= p <= |data|
      invariant Feed(step, c, data[p..]) == Feed(step, start, data)
    {
      assert data[p..][1..] == data[p + 1..];
      var x := Xor(c, Widen(data[p]));
      var entry := Look(step, t, 0, x);
      var next := Xor(entry, c >> 8);
      TailStepIs(step, c, data[p], x, entry, next);
      c := next;
      p := p + 1;
    }
  }

  /** The four bytes at `p` as a little-endian host loads them. */
  function ReadWord(data: bytes, p: nat): bv32
    requires p + 4 <= |data|
  {
    Word(Widen(data[p]), Widen(data[p + 1]), Widen(data[p + 2]), Widen(data[p + 3]))
  }

  lemma WordFed(step: bv32 -> bv32, c: bv32, word: bv32, data: bytes, p: nat)
    requires Shifts(step) && p + 4 <= |data| && word == ReadWord(data, p)
    ensures Feed(step, c, data[p..]) == Feed(step, step(step(step(step(Xor(c, word))))), data[p + 4..])
  {
    var b0, b1, b2, b3 := Widen(data[p]), Widen(data[p + 1]), Widen(data[p + 2]), Widen(data[p + 3]);
    FeedFour(step, c, b0, b1, b2, b3, data[p..]);
    assert data[p..][4..] == data[p + 4..];
    WidenSmall(data[p]);
    WidenSmall(data[p + 1]);
    WidenSmall(data[p + 2]);
    WidenSmall(data[p + 3]);
    FeedWord(step, c, b0, b1, b2, b3);
  }

  lemma WidenSmall(b: byte)
    ensures Widen(b) & 0xff == Widen(b)
  {
  }

  /** Slicing-by-4 computes CRC-32C, whatever the seed and the bytes. */
  method ExtendSliced(crc: bv32, data: bytes) returns (r: bv32)
    ensures r == Extend(crc, data)
  {
    var t := BuildTables();
    ByteStepShifts();
    var c := FeedByTable(ByteStep, t, !crc, data);
    r := !c;
  }
}
