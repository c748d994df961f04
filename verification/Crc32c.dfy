/** CRC-32C: the slicing-by-4 form against the bit-serial definition (section 12.1 of RFC 3720). */
module Crc32c {
  import opened Bytes

  const POLY: bv32 := 0x82f63b78
  const MASK_DELTA: bv32 := 0xa282ead8

  // ---------------------------------------------------------------- bit-serial reference

  /** One shift of the reflected register. */
  function BitStep(c: bv32): bv32 {
    if c & 1 == 1 then (c >> 1) ^ POLY else c >> 1
  }

  function Iterate(f: bv32 -> bv32, c: bv32, n: nat): bv32
    decreases n
  {
    if n == 0 then c else Iterate(f, f(c), n - 1)
  }

  lemma {:induction false} IterateLast(f: bv32 -> bv32, c: bv32, n: nat)
    ensures Iterate(f, c, n + 1) == f(Iterate(f, c, n))
    decreases n
  {
    if n != 0 {
      IterateLast(f, f(c), n - 1);
    }
  }

  /** The register moves past one byte. */
  function ByteStep(c: bv32): bv32 {
    Iterate(BitStep, c, 8)
  }

  function Widen(b: byte): bv32 {
    (b as bv8) as bv32
  }

  /** The register after `data`, where `step` moves it past one byte. */
  function Feed(step: bv32 -> bv32, c: bv32, data: bytes): bv32
    decreases |data|
  {
    if data == [] then c else Feed(step, step(Xor(c, Widen(data[0]))), data[1..])
  }

  function ExtendBy(step: bv32 -> bv32, crc: bv32, data: bytes): bv32 {
    !Feed(step, !crc, data)
  }

  /** CRC-32C of `data` continuing from `crc`. */
  function Extend(crc: bv32, data: bytes): bv32 {
    ExtendBy(ByteStep, crc, data)
  }

  function Value(data: bytes): bv32 {
    Extend(0, data)
  }

  function Mask(crc: bv32): bv32 {
    ((crc >> 15) | (crc << 17)) + MASK_DELTA
  }

  function Unmask(masked: bv32): bv32 {
    var rot := masked - MASK_DELTA;
    (rot >> 17) | (rot << 15)
  }

  /** A rotation by 15 bits, and a constant. */
  lemma MaskIs(crc: bv32)
    ensures Mask(crc) == crc.RotateRight(15) + 0xa282_ead8
  {
  }

  lemma MaskRoundTrip(crc: bv32)
    ensures Unmask(Mask(crc)) == crc && Mask(Unmask(crc)) == crc
  {
  }

  // ---------------------------------------------------------------- splitting

  lemma {:induction false} FeedAppend(step: bv32 -> bv32, c: bv32, a: bytes, b: bytes)
    ensures Feed(step, Feed(step, c, a), b) == Feed(step, c, a + b)
    decreases |a|
  {
    if a == [] {
      assert a + b == b;
    } else {
      FeedAppend(step, step(Xor(c, Widen(a[0]))), a[1..], b);
      assert (a + b)[1..] == a[1..] + b;
    }
  }

  lemma NotIs(x: bv32, y: bv32)
    requires x == !y
    ensures !x == y
  {
  }

  lemma ExtendByIs(step: bv32 -> bv32, crc: bv32, start: bv32, data: bytes)
    requires !crc == start
    ensures ExtendBy(step, crc, data) == !Feed(step, start, data)
  {
  }

  lemma ExtendBySplit(step: bv32 -> bv32, crc: bv32, start: bv32, mid: bv32, after: bv32, a: bytes, b: bytes)
    requires start == !crc && after == Feed(step, start, a) && mid == ExtendBy(step, crc, a)
    ensures ExtendBy(step, mid, b) == ExtendBy(step, crc, a + b)
  {
    assert !mid == after by {
      ExtendByIs(step, crc, start, a);
      NotIs(mid, after);
    }
    ExtendByIs(step, mid, after, b);
    ExtendByIs(step, crc, start, a + b);
    FeedAppend(step, start, a, b);
  }

  /** Checksumming in pieces is checksumming the whole. */
  lemma ExtendSplit(crc: bv32, a: bytes, b: bytes)
    ensures Extend(Extend(crc, a), b) == Extend(crc, a + b)
  {
    ExtendBySplit(ByteStep, crc, !crc, ExtendBy(ByteStep, crc, a), Feed(ByteStep, !crc, a), a, b);
  }

  // ---------------------------------------------------------------- linearity over GF(2)

  function Xor(a: bv32, b: bv32): bv32 {
    a ^ b
  }

  ghost predicate Linear(f: bv32 -> bv32) {
    forall a, b {:trigger f(Xor(a, b))} :: f(Xor(a, b)) == Xor(f(a), f(b))
  }

  lemma XorSwap(a: bv32, b: bv32)
    ensures a ^ b == b ^ a
  {
  }

  lemma LowBit(a: bv32, b: bv32)
    ensures (a ^ b) & 1 == 1 <==> (a & 1 == 1) != (b & 1 == 1)
  {
  }

  /** A shifted sum of two registers, for the four cases of low bits. */
  lemma HalfXor(a: bv32, b: bv32)
    ensures (a ^ b) >> 1 == (a >> 1) ^ (b >> 1)
    ensures (a ^ b) >> 1 == ((a >> 1) ^ POLY) ^ ((b >> 1) ^ POLY)
    ensures ((a ^ b) >> 1) ^ POLY == ((a >> 1) ^ POLY) ^ (b >> 1)
  {
  }

  lemma BothOdd(a: bv32, b: bv32)
    requires a & 1 == 1 && b & 1 == 1 && (a ^ b) & 1 != 1
    ensures BitStep(a ^ b) == BitStep(a) ^ BitStep(b)
  {
    HalfXor(a, b);
  }

  lemma OneOdd(a: bv32, b: bv32)
    requires a & 1 == 1 && b & 1 != 1 && (a ^ b) & 1 == 1
    ensures BitStep(a ^ b) == BitStep(a) ^ BitStep(b)
  {
    HalfXor(a, b);
  }

  lemma NoneOdd(a: bv32, b: bv32)
    requires a & 1 != 1 && b & 1 != 1 && (a ^ b) & 1 != 1
    ensures BitStep(a ^ b) == BitStep(a) ^ BitStep(b)
  {
    HalfXor(a, b);
  }

  lemma BitStepLinear(a: bv32, b: bv32)
    ensures BitStep(Xor(a, b)) == Xor(BitStep(a), BitStep(b))
  {
    LowBit(a, b);
    if a & 1 == 1 && b & 1 == 1 {
      BothOdd(a, b);
    } else if a & 1 == 1 {
      OneOdd(a, b);
    } else if b & 1 == 1 {
      XorSwap(a, b);
      OneOdd(b, a);
      XorSwap(BitStep(a), BitStep(b));
    } else {
      NoneOdd(a, b);
    }
  }

  lemma {:induction false} IterateLinear(f: bv32 -> bv32, a: bv32, b: bv32, n: nat)
    requires Linear(f)
    ensures Iterate(f, Xor(a, b), n) == Xor(Iterate(f, a, n), Iterate(f, b, n))
    decreases n
  {
    if n != 0 {
      IterateLinear(f, f(a), f(b), n - 1);
    }
  }

  lemma LinearIterate(f: bv32 -> bv32, g: bv32 -> bv32, n: nat)
    requires Linear(f) && forall c :: g(c) == Iterate(f, c, n)
    ensures Linear(g)
  {
    forall a, b ensures g(Xor(a, b)) == Xor(g(a), g(b)) {
      IterateLinear(f, a, b, n);
    }
  }

  lemma ByteStepLinear()
    ensures Linear(ByteStep)
  {
    assert Linear(BitStep) by {
      forall a, b ensures BitStep(Xor(a, b)) == Xor(BitStep(a), BitStep(b)) {
        BitStepLinear(a, b);
      }
    }
    LinearIterate(BitStep, ByteStep, 8);
  }

  /** While only zero bits leave the register, stepping is shifting. */
  lemma ByteStepHigh(c: bv32)
    requires c & 0xff == 0
    ensures ByteStep(c) == c >> 8
  {
  }

  // ---------------------------------------------------------------- slicing by four

  function Down(c: bv32): bv32 {
    c >> 8
  }

  /** A register step that is linear and shifts a register whose low byte is zero. */
  ghost predicate Shifts(step: bv32 -> bv32) {
    && Linear(step)
    && forall c {:trigger Down(c)} :: c & 0xff == 0 ==> step(c) == Down(c)
  }

  lemma ByteStepShifts()
    ensures Shifts(ByteStep)
  {
    ByteStepLinear();
    forall c {:trigger Down(c)} | c & 0xff == 0 ensures ByteStep(c) == Down(c) {
      ByteStepHigh(c);
    }
  }

  lemma ByteParts(c: bv32)
    ensures c == Xor(c & 0xff, c & 0xffffff00)
    ensures (c & 0xffffff00) & 0xff == 0
    ensures (c & 0xffffff00) >> 8 == c >> 8
  {
  }

  /** `low` is the low byte of `c` and `rest` is what remains above it. */
  predicate Splits(c: bv32, low: bv32, rest: bv32) {
    low == c & 0xff && rest == c >> 8
  }

  /** Table lookup on the low byte, then shifting, is one register step. */
  lemma LookupStep(step: bv32 -> bv32, c: bv32, low: bv32, rest: bv32)
    requires Shifts(step) && Splits(c, low, rest)
    ensures step(c) == Xor(step(low), rest)
  {
    ByteParts(c);
    assert step(c & 0xffffff00) == Down(c & 0xffffff00);
    assert step(Xor(c & 0xff, c & 0xffffff00)) == Xor(step(c & 0xff), step(c & 0xffffff00));
  }

  lemma XorAssoc(a: bv32, b: bv32, c: bv32)
    ensures Xor(a, Xor(b, c)) == Xor(Xor(a, b), c)
  {
  }

  lemma ShiftBack(w: bv32)
    requires w & 0xff000000 == 0
    ensures (w << 8) & 0xff == 0 && Down(w << 8) == w
  {
  }

  lemma StepUp(step: bv32 -> bv32, w: bv32)
    requires Shifts(step) && w & 0xff000000 == 0
    ensures step(w << 8) == w
  {
    ShiftBack(w);
    assert step(w << 8) == Down(w << 8);
  }

  /** Feeding `b`, stepping and feeding `w` is feeding both, `w` one byte higher, and stepping. */
  lemma FeedEarlier(step: bv32 -> bv32, c: bv32, b: bv32, w: bv32, up: bv32)
    requires Linear(step) && step(up) == w
    ensures step(Xor(c, Xor(b, up))) == Xor(step(Xor(c, b)), w)
  {
    XorAssoc(c, b, up);
  }

  function Word(b0: bv32, b1: bv32, b2: bv32, b3: bv32): bv32 {
    b0 | (b1 << 8) | (b2 << 16) | (b3 << 24)
  }

  lemma WordAsXor(b0: bv32, b1: bv32, b2: bv32, b3: bv32, w1: bv32, w2: bv32)
    requires b0 & 0xff == b0 && b1 & 0xff == b1 && b2 & 0xff == b2 && b3 & 0xff == b3
    requires w2 == Xor(b2, b3 << 8) && w1 == Xor(b1, w2 << 8)
    ensures Word(b0, b1, b2, b3) == Xor(b0, w1 << 8)
    ensures w1 & 0xff000000 == 0 && w2 & 0xff000000 == 0 && b3 & 0xff000000 == 0
  {
  }

  /** Four bytes fed one after another are one word fed before four steps. */
  lemma FeedWord(step: bv32 -> bv32, c: bv32, b0: bv32, b1: bv32, b2: bv32, b3: bv32)
    requires Shifts(step)
    requires b0 & 0xff == b0 && b1 & 0xff == b1 && b2 & 0xff == b2 && b3 & 0xff == b3
    ensures step(Xor(step(Xor(step(Xor(step(Xor(c, b0)), b1)), b2)), b3))
         == step(step(step(step(Xor(c, Word(b0, b1, b2, b3))))))
  {
    var w2 := Xor(b2, b3 << 8);
    var w1 := Xor(b1, w2 << 8);
    WordAsXor(b0, b1, b2, b3, w1, w2);
    StepUp(step, w1);
    StepUp(step, w2);
    StepUp(step, b3);
    FeedThree(step, c, b0, b1, b2, w1, w2, b3, w1 << 8, w2 << 8, b3 << 8);
  }

  lemma FeedThree(step: bv32 -> bv32, c: bv32, b0: bv32, b1: bv32, b2: bv32, w1: bv32, w2: bv32, w3: bv32,
                  up1: bv32, up2: bv32, up3: bv32)
    requires Linear(step) && step(up1) == w1 && step(up2) == w2 && step(up3) == w3
    requires w1 == Xor(b1, up2) && w2 == Xor(b2, up3)
    ensures step(Xor(step(Xor(step(Xor(step(Xor(c, b0)), b1)), b2)), w3))
         == step(step(step(step(Xor(c, Xor(b0, up1))))))
  {
    var c1 := step(Xor(c, b0));
    var c2 := step(Xor(c1, b1));
    FeedEarlier(step, c, b0, w1, up1);
    FeedEarlier(step, c1, b1, w2, up2);
    FeedEarlier(step, c2, b2, w3, up3);
  }

  lemma FourStepsAbstract(step: bv32 -> bv32, x0: bv32, x1: bv32, x2: bv32, y0: bv32, y1: bv32, y2: bv32, y3: bv32)
    requires Linear(step)
    requires step(y0) == Xor(step(x0), y1)
    requires step(y1) == Xor(step(x1), y2)
    requires step(y2) == Xor(step(x2), y3)
    ensures step(step(step(step(y0))))
         == Xor(Xor(Xor(step(step(step(step(x0)))), step(step(step(x1)))), step(step(x2))), step(y3))
  {
    var s0 := step(x0);
    XorAssoc(step(s0), step(x1), y2);
    var a2 := Xor(step(s0), step(x1));
    assert step(step(y0)) == Xor(a2, y2);
    XorAssoc(step(a2), step(x2), y3);
    assert step(step(step(y0))) == Xor(Xor(step(a2), step(x2)), y3);
  }

  /** Four steps are four lookups, one per byte of the word. */
  lemma FourSteps(step: bv32 -> bv32, y0: bv32, x0: bv32, x1: bv32, x2: bv32, y1: bv32, y2: bv32, y3: bv32)
    requires Shifts(step)
    requires Splits(y0, x0, y1) && Splits(y1, x1, y2) && Splits(y2, x2, y3)
    ensures step(step(step(step(y0))))
         == Xor(Xor(Xor(step(step(step(step(x0)))), step(step(step(x1)))), step(step(x2))), step(y3))
  {
    LookupStep(step, y0, x0, y1);
    LookupStep(step, y1, x1, y2);
    LookupStep(step, y2, x2, y3);
    FourStepsAbstract(step, x0, x1, x2, y0, y1, y2, y3);
  }

  // ---------------------------------------------------------------- the tables

  function LowByte(x: bv32): bv8 {
    (x & 0xff) as bv8
  }

  lemma LowByteIs(x: bv32)
    ensures LowByte(x) as bv32 == x & 0xff
    ensures ((LowByte(x) as int) as bv8) == LowByte(x)
  {
  }

  /** What table `level` holds for byte `i`: the register that byte leaves `level + 1` steps later. */
  function Entry(step: bv32 -> bv32, level: nat, i: byte): bv32 {
    Iterate(step, Widen(i), level + 1)
  }

  /** The first `n` entries of the first `levels` tables are right. */
  ghost predicate Filled(step: bv32 -> bv32, t: array2<bv32>, levels: nat, n: nat)
    reads t
    requires levels <= t.Length0 && n <= t.Length1 <= 256
  {
    forall l: nat, i: nat :: l < levels && i < n ==> t[l, i] == Entry(step, l, i)
  }

  /** Reading table `level` at the low byte of `x` performs `level + 1` register steps on it. */
  lemma ReadTable(step: bv32 -> bv32, t: array2<bv32>, levels: nat, level: nat, x: bv32)
    requires level < levels <= t.Length0 && t.Length1 == 256 && Filled(step, t, levels, 256)
    ensures t[level, LowByte(x) as int] == Iterate(step, x & 0xff, level + 1)
  {
    LowByteIs(x);
  }
}
