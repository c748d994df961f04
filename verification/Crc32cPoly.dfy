/** CRC-32C as a remainder of polynomials over the field of two elements (section 12.1 of RFC 3720), and that the shift
    register computes it. */
module Crc32cPolynomials {
  import opened Bytes
  import C = Crc32c
  import Seqs

  // ---------------------------------------------------------------- the definition

  /** A polynomial: its coefficients, from the highest power down. */
  type Poly = seq<bool>

  /** The number whose bits are the generator's coefficients, 32nd power first. */
  const GENERATOR: nat := 0x1_1edc_6f41

  predicate One(bit: nat) {
    bit == 1
  }

  /** The low `n` bits of `v`, highest first. */
  function HighFirst(v: nat, n: nat): (p: Poly)
    ensures |p| == n
    decreases n, v
  {
    if n == 0 then [] else HighFirst(v / 2, n - 1) + [One(v % 2)]
  }

  function Generator(): (p: Poly)
    ensures |p| == 33
  {
    HighFirst(GENERATOR, 33)
  }

  /** `a` with `b` added to its highest powers; addition is exclusive or. */
  function AddHigh(a: Poly, b: Poly): (s: Poly)
    requires |b| <= |a|
    ensures |s| == |a|
  {
    seq(|a|, i requires 0 <= i < |a| => if i < |b| then a[i] != b[i] else a[i])
  }

  function Repeat(x: bool, n: nat): (p: Poly)
    ensures |p| == n && forall i :: 0 <= i < n ==> p[i] == x
  {
    seq(n, i => x)
  }

  /** What one step of the division leaves. */
  function Divided(a: Poly, divisor: Poly): Poly
    requires 0 < |divisor| <= |a|
  {
    (if a[0] then AddHigh(a, divisor) else a)[1..]
  }

  /** Long division: while the dividend is as long as the divisor, the divisor is taken away from its highest powers if
      the highest is there, and the highest goes. */
  function Remainder(a: Poly, divisor: Poly): Poly
    requires divisor != []
    decreases |a|
  {
    if |a| < |divisor| then a else Remainder(Divided(a, divisor), divisor)
  }

  function Complement(a: Poly): (p: Poly)
    ensures |p| == |a|
  {
    seq(|a|, i requires 0 <= i < |a| => !a[i])
  }

  predicate Odd(w: bv32) {
    w & 1 == 1
  }

  function Half(w: bv32): bv32 {
    w >> 1
  }

  /** The low `n` bits of a word, lowest first: the order in which they go over the wire. */
  function LowFirst(w: bv32, n: nat): (p: Poly)
    ensures |p| == n
    decreases n, w
  {
    if n == 0 then [] else [Odd(w)] + LowFirst(Half(w), n - 1)
  }

  /** The bits of a message. */
  function Wire(data: bytes): (p: Poly)
    decreases |data|
  {
    if data == [] then [] else LowFirst(C.Widen(data[0]), 8) + Wire(data[1..])
  }

  /** The message times the 32nd power, with its first 32 bits complemented. */
  function Dividend(data: bytes): Poly {
    AddHigh(Wire(data) + Repeat(false, 32), Repeat(true, 32))
  }

  // ---------------------------------------------------------------- division divides

  /** The sum of polynomials of one length. */
  function Add(a: Poly, b: Poly): (s: Poly)
    requires |a| == |b|
    ensures |s| == |a|
  {
    AddHigh(a, b)
  }

  /** The product with `d`, one coefficient of `q` at a time. */
  function Times(q: Poly, d: Poly): (p: Poly)
    requires d != []
    ensures |p| == |q| + |d| - 1
    decreases |q|
  {
    if q == [] then Repeat(false, |d| - 1)
    else Add((if q[0] then d else Repeat(false, |d|)) + Repeat(false, |q| - 1), [false] + Times(q[1..], d))
  }

  function Quotient(a: Poly, d: Poly): (q: Poly)
    requires d != []
    ensures |a| >= |d| - 1 ==> |q| + |d| - 1 == |a|
    decreases |a|
  {
    if |a| < |d| then [] else [a[0]] + Quotient(Divided(a, d), d)
  }

  lemma {:induction false} RemainderLength(a: Poly, d: Poly)
    requires d != [] && |a| >= |d| - 1
    ensures |Remainder(a, d)| == |d| - 1
    decreases |a|
  {
    if |a| >= |d| {
      RemainderLength(Divided(a, d), d);
    }
  }

  /** A polynomial is the divisor times the quotient, and the remainder, which is shorter than the divisor. */
  lemma {:induction false} DivisionTheorem(a: Poly, d: Poly)
    requires d != [] && d[0] && |a| >= |d| - 1
    ensures |Remainder(a, d)| == |d| - 1
    ensures a == Add(Times(Quotient(a, d), d), Repeat(false, |a| - (|d| - 1)) + Remainder(a, d))
    decreases |a|
  {
    RemainderLength(a, d);
    var q, r := Quotient(a, d), Remainder(a, d);
    if |a| < |d| {
      assert Add(Repeat(false, |a|), a) == a;
      assert Repeat(false, 0) + a == a;
    } else {
      var rest := Divided(a, d);
      DivisionTheorem(rest, d);
      assert q[1..] == Quotient(rest, d);
      DivisionStep(a, d, rest, Times(q[1..], d), r);
    }
  }

  lemma DivisionStep(a: Poly, d: Poly, rest: Poly, times: Poly, r: Poly)
    requires 0 < |d| <= |a| && d[0] && rest == Divided(a, d) && |r| == |d| - 1 && |times| == |rest|
    requires rest == Add(times, Repeat(false, |rest| - |r|) + r)
    ensures a == Add(Add((if a[0] then d else Repeat(false, |d|)) + Repeat(false, |a| - |d|), [false] + times),
                     Repeat(false, |a| - |r|) + r)
  {
    var first := (if a[0] then d else Repeat(false, |d|)) + Repeat(false, |a| - |d|);
    var sum := Add(Add(first, [false] + times), Repeat(false, |a| - |r|) + r);
    forall i | 0 <= i < |a| ensures a[i] == sum[i] {
      if i > 0 {
        assert rest[i - 1] == (if a[0] && i < |d| then a[i] != d[i] else a[i]);
        assert rest[i - 1] == (times[i - 1] != (Repeat(false, |rest| - |r|) + r)[i - 1]);
      }
    }
  }

  // ---------------------------------------------------------------- bits of words

  function Shifted(w: bv32, n: nat): bv32 {
    C.Iterate(Half, w, n)
  }

  lemma {:induction false} BitAt(w: bv32, n: nat, i: nat)
    requires i < n
    ensures LowFirst(w, n)[i] == Odd(Shifted(w, i))
    decreases n
  {
    if i > 0 {
      BitAt(Half(w), n - 1, i - 1);
    }
  }

  lemma {:induction false} IterateSplit(f: bv32 -> bv32, w: bv32, m: nat, n: nat)
    ensures C.Iterate(f, w, m + n) == C.Iterate(f, C.Iterate(f, w, m), n)
    decreases m
  {
    if m > 0 {
      IterateSplit(f, f(w), m - 1, n);
    }
  }

  lemma {:induction false} IterateStays(f: bv32 -> bv32, w: bv32, n: nat)
    requires f(w) == w
    ensures C.Iterate(f, w, n) == w
    decreases n
  {
    if n > 0 {
      IterateStays(f, w, n - 1);
    }
  }

  lemma ByteShift(w: bv32)
    ensures Shifted(w, 8) == w >> 8
  {
  }

  /** A word has 32 bits. */
  lemma WordEnds(w: bv32)
    ensures Shifted(w, 32) == 0
  {
    IterateSplit(Half, w, 8, 24);
    IterateSplit(Half, w >> 8, 8, 16);
    IterateSplit(Half, (w >> 8) >> 8, 8, 8);
    ByteShift(w);
    ByteShift(w >> 8);
    ByteShift((w >> 8) >> 8);
    ByteShift(((w >> 8) >> 8) >> 8);
  }

  lemma BytesEnds(b: byte, i: nat)
    requires 8 <= i
    ensures Shifted(C.Widen(b), i) == 0
  {
    var w, m: nat := C.Widen(b), i - 8;
    ByteShift(w);
    IterateSplit(Half, w, 8, m);
    IterateStays(Half, 0, m);
  }

  lemma OddXor(a: bv32, b: bv32)
    ensures Odd(C.Xor(a, b)) == (Odd(a) != Odd(b))
  {
  }

  lemma HalfLinear()
    ensures C.Linear(Half)
  {
  }

  lemma XorBits(a: bv32, b: bv32, n: nat, i: nat)
    requires i < n
    ensures LowFirst(C.Xor(a, b), n)[i] == (LowFirst(a, n)[i] != LowFirst(b, n)[i])
  {
    HalfLinear();
    XorShifted(Half, a, b, i, Shifted(a, i), Shifted(b, i));
    BitAt(a, n, i);
    BitAt(b, n, i);
    BitAt(C.Xor(a, b), n, i);
    OddXor(Shifted(a, i), Shifted(b, i));
  }

  lemma XorShifted(f: bv32 -> bv32, a: bv32, b: bv32, i: nat, x: bv32, y: bv32)
    requires C.Linear(f) && x == C.Iterate(f, a, i) && y == C.Iterate(f, b, i)
    ensures C.Iterate(f, C.Xor(a, b), i) == C.Xor(x, y)
  {
    C.IterateLinear(f, a, b, i);
  }

  lemma {:induction false} NotBits(w: bv32, n: nat, i: nat)
    requires i < n <= 32
    ensures LowFirst(!w, n)[i] == !LowFirst(w, n)[i]
  {
    var ones: bv32 := 0xffff_ffff;
    assert !w == C.Xor(w, ones);
    XorBits(w, ones, n, i);
    OnesBits(n, i);
  }

  lemma OnesBits(n: nat, i: nat)
    requires i < n <= 32
    ensures LowFirst(0xffff_ffff, n)[i]
  {
    OnesAll();
    BitAt(0xffff_ffff, n, i);
    BitAt(0xffff_ffff, 32, i);
  }

  lemma OnesAll()
    ensures Register(0xffff_ffff) == Repeat(true, 32)
  {
    ByteShift(0xffff_ffff);
    ByteShift(0xff_ffff);
    ByteShift(0xffff);
    LowBytes(0xffff_ffff, 0xff_ffff, 0xffff, 0xff);
    LowByte(0xffff_ffff, 0xff);
    LowByte(0xff_ffff, 0xff);
    LowByte(0xffff, 0xff);
    OnesByte();
    FourOnes(LowFirst(0xff, 8));
  }

  lemma OnesByte()
    ensures LowFirst(0xff, 8) == Repeat(true, 8)
  {
    ByteLow(0xff, 0x7f, 0x3f, 0x1f, 0xf, 0x7, 0x3, 0x1);
  }

  lemma FourOnes(p: Poly)
    requires p == Repeat(true, 8)
    ensures p + (p + (p + p)) == Repeat(true, 32)
  {
  }

  // ---------------------------------------------------------------- the register divides

  /** The register's bits, the coefficient of the highest power first. */
  function Register(w: bv32): (p: Poly)
    ensures |p| == 32
  {
    LowFirst(w, 32)
  }

  /** What is left to divide while the register holds `w` and the bits `m` are still to come. */
  function Loaded(w: bv32, m: Poly): Poly
    requires |m| >= 32
  {
    AddHigh(m, Register(w))
  }

  /** A byte that comes in may be added to the register at once. */
  lemma LoadByte(w: bv32, b: byte, m: Poly)
    requires |m| >= 32
    ensures Loaded(w, LowFirst(C.Widen(b), 8) + m) == Loaded(C.Xor(w, C.Widen(b)), Repeat(false, 8) + m)
  {
    var x, y := Loaded(w, LowFirst(C.Widen(b), 8) + m), Loaded(C.Xor(w, C.Widen(b)), Repeat(false, 8) + m);
    forall i | 0 <= i < |x| ensures x[i] == y[i] {
      LoadByteAt(w, b, m, i);
    }
  }

  lemma LoadByteAt(w: bv32, b: byte, m: Poly, i: nat)
    requires |m| >= 32 && i < |m| + 8
    ensures Loaded(w, LowFirst(C.Widen(b), 8) + m)[i] == Loaded(C.Xor(w, C.Widen(b)), Repeat(false, 8) + m)[i]
  {
    if i < 32 {
      XorBits(w, C.Widen(b), 32, i);
      ByteBits(b, i);
    }
  }

  /** Of a byte as a word only the low eight bits are there. */
  lemma ByteBits(b: byte, i: nat)
    requires i < 32
    ensures Register(C.Widen(b))[i] == if i < 8 then LowFirst(C.Widen(b), 8)[i] else false
  {
    BitAt(C.Widen(b), 32, i);
    if i < 8 {
      BitAt(C.Widen(b), 8, i);
    } else {
      BytesEnds(b, i);
    }
  }

  lemma {:induction false} LowSplit(w: bv32, m: nat, n: nat, v: bv32)
    requires v == Shifted(w, m)
    ensures LowFirst(w, m + n) == LowFirst(w, m) + LowFirst(v, n)
    decreases m
  {
    if m == 0 {
      Seqs.Nil(LowFirst(v, n));
    } else {
      LowSplit(Half(w), m - 1, n, v);
      Seqs.Assoc([Odd(w)], LowFirst(Half(w), m - 1), LowFirst(v, n));
    }
  }

  lemma {:induction false} HighSplit(high: nat, low: nat, m: nat, n: nat, v: nat)
    requires low < Power(n) && v == high * Power(n) + low
    ensures HighFirst(v, m + n) == HighFirst(high, m) + HighFirst(low, n)
    decreases n
  {
    if n == 0 {
      Seqs.Nil(HighFirst(high, m));
    } else {
      var p := Power(n - 1);
      assert v == 2 * (high * p) + low;
      HighSplit(high, low / 2, m, n - 1, high * p + low / 2);
      Seqs.Assoc(HighFirst(high, m), HighFirst(low / 2, n - 1), [One(low % 2)]);
    }
  }

  /** 2 to the `n`. */
  function Power(n: nat): (p: nat)
    ensures p > 0
  {
    if n == 0 then 1 else 2 * Power(n - 1)
  }

  /** The bits of a byte, given its shifts. */
  lemma ByteLow(w: bv32, w1: bv32, w2: bv32, w3: bv32, w4: bv32, w5: bv32, w6: bv32, w7: bv32)
    requires w1 == Half(w) && w2 == Half(w1) && w3 == Half(w2) && w4 == Half(w3)
    requires w5 == Half(w4) && w6 == Half(w5) && w7 == Half(w6)
    ensures LowFirst(w, 8) == [Odd(w), Odd(w1), Odd(w2), Odd(w3), Odd(w4), Odd(w5), Odd(w6), Odd(w7)]
  {
    LowFour(w, w1, w2, w3);
    LowFour(w4, w5, w6, w7);
    LowSplit(w, 4, 4, w4);
    Eight(Odd(w), Odd(w1), Odd(w2), Odd(w3), Odd(w4), Odd(w5), Odd(w6), Odd(w7));
  }

  lemma LowFour(w: bv32, w1: bv32, w2: bv32, w3: bv32)
    requires w1 == Half(w) && w2 == Half(w1) && w3 == Half(w2)
    ensures LowFirst(w, 4) == [Odd(w), Odd(w1), Odd(w2), Odd(w3)] && Shifted(w, 4) == Half(w3)
  {
    LowPeel(w, 4, w1);
    LowPeel(w1, 3, w2);
    LowPeel(w2, 2, w3);
    LowPeel(w3, 1, Half(w3));
  }

  lemma LowPeel(w: bv32, n: nat, v: bv32)
    requires n > 0 && v == Half(w)
    ensures LowFirst(w, n) == [Odd(w)] + LowFirst(v, n - 1) && Shifted(w, n) == Shifted(v, n - 1)
  {
  }

  lemma HighPeel(v: nat, n: nat, u: nat)
    requires n > 0 && u == v / 2
    ensures HighFirst(v, n) == HighFirst(u, n - 1) + [One(v % 2)]
  {
  }

  lemma HighFour(v: nat, v1: nat, v2: nat, v3: nat, v4: nat, n: nat)
    requires v1 == v / 2 && v2 == v1 / 2 && v3 == v2 / 2 && v4 == v3 / 2
    ensures HighFirst(v, n + 4) == HighFirst(v4, n) + [One(v3 % 2), One(v2 % 2), One(v1 % 2), One(v % 2)]
  {
    HighPeel(v, n + 4, v1);
    HighPeel(v1, n + 3, v2);
    HighPeel(v2, n + 2, v3);
    HighPeel(v3, n + 1, v4);
  }

  lemma ByteHigh(v: nat, v1: nat, v2: nat, v3: nat, v4: nat, v5: nat, v6: nat, v7: nat)
    requires v1 == v / 2 && v2 == v1 / 2 && v3 == v2 / 2 && v4 == v3 / 2
    requires v5 == v4 / 2 && v6 == v5 / 2 && v7 == v6 / 2
    ensures HighFirst(v, 8) == [One(v7 % 2), One(v6 % 2), One(v5 % 2), One(v4 % 2),
                                One(v3 % 2), One(v2 % 2), One(v1 % 2), One(v % 2)]
  {
    HighFour(v, v1, v2, v3, v4, 4);
    HighTop(v4, v5, v6, v7);
    Eight(One(v7 % 2), One(v6 % 2), One(v5 % 2), One(v4 % 2), One(v3 % 2), One(v2 % 2), One(v1 % 2), One(v % 2));
  }

  lemma HighTop(v: nat, v1: nat, v2: nat, v3: nat)
    requires v1 == v / 2 && v2 == v1 / 2 && v3 == v2 / 2
    ensures HighFirst(v, 4) == [One(v3 % 2), One(v2 % 2), One(v1 % 2), One(v % 2)]
  {
    HighFour(v, v1, v2, v3, v3 / 2, 0);
    Seqs.Nil([One(v3 % 2), One(v2 % 2), One(v1 % 2), One(v % 2)]);
  }

  lemma Eight(a: bool, b: bool, c: bool, d: bool, e: bool, f: bool, g: bool, h: bool)
    ensures [a, b, c, d] + [e, f, g, h] == [a, b, c, d, e, f, g, h]
  {
  }

  lemma MirrorFirst()
    ensures LowFirst(0x78, 8) == HighFirst(0x1e, 8)
  {
    ByteLow(0x78, 0x3c, 0x1e, 0xf, 0x7, 0x3, 0x1, 0x0);
    ByteHigh(0x1e, 0xf, 0x7, 0x3, 0x1, 0x0, 0x0, 0x0);
  }

  lemma MirrorSecond()
    ensures LowFirst(0x3b, 8) == HighFirst(0xdc, 8)
  {
    ByteLow(0x3b, 0x1d, 0xe, 0x7, 0x3, 0x1, 0x0, 0x0);
    ByteHigh(0xdc, 0x6e, 0x37, 0x1b, 0xd, 0x6, 0x3, 0x1);
  }

  lemma MirrorThird()
    ensures LowFirst(0xf6, 8) == HighFirst(0x6f, 8)
  {
    ByteLow(0xf6, 0x7b, 0x3d, 0x1e, 0xf, 0x7, 0x3, 0x1);
    ByteHigh(0x6f, 0x37, 0x1b, 0xd, 0x6, 0x3, 0x1, 0x0);
  }

  lemma MirrorFourth()
    ensures LowFirst(0x82, 8) == HighFirst(0x41, 8)
  {
    ByteLow(0x82, 0x41, 0x20, 0x10, 0x8, 0x4, 0x2, 0x1);
    ByteHigh(0x41, 0x20, 0x10, 0x8, 0x4, 0x2, 0x1, 0x0);
  }

  lemma LowBytes(w: bv32, w1: bv32, w2: bv32, w3: bv32)
    requires w1 == Shifted(w, 8) && w2 == Shifted(w1, 8) && w3 == Shifted(w2, 8)
    ensures Register(w) == LowFirst(w, 8) + (LowFirst(w1, 8) + (LowFirst(w2, 8) + LowFirst(w3, 8)))
  {
    LowSplit(w, 8, 24, w1);
    LowSplit(w1, 8, 16, w2);
    LowSplit(w2, 8, 8, w3);
  }

  lemma LowByte(w: bv32, x: bv32)
    requires w & 0xff == x & 0xff
    ensures LowFirst(w, 8) == LowFirst(x, 8)
  {
    ByteLow(w, w >> 1, w >> 2, w >> 3, w >> 4, w >> 5, w >> 6, w >> 7);
    ByteLow(x, x >> 1, x >> 2, x >> 3, x >> 4, x >> 5, x >> 6, x >> 7);
  }

  lemma HighByte(high: nat, low: nat, m: nat, v: nat)
    requires low < 256 && v == high * 256 + low
    ensures HighFirst(v, m + 8) == HighFirst(high, m) + HighFirst(low, 8)
  {
    assert Power(4) == 16 && Power(8) == 16 * Power(4);
    HighSplit(high, low, m, 8, v);
  }

  lemma GeneratorBytes()
    ensures Generator()
         == HighFirst(1, 1) + HighFirst(0x1e, 8) + HighFirst(0xdc, 8) + HighFirst(0x6f, 8) + HighFirst(0x41, 8)
  {
    HighByte(1, 0x1e, 1, 0x11e);
    HighByte(0x11e, 0xdc, 9, 0x1_1edc);
    HighByte(0x1_1edc, 0x6f, 17, 0x11e_dc6f);
    HighByte(0x11e_dc6f, 0x41, 25, GENERATOR);
  }

  lemma Joined(top: Poly, a: Poly, b: Poly, c: Poly, d: Poly)
    requires top == [true]
    ensures top + a + b + c + d == [true] + (a + (b + (c + d)))
  {
  }

  /** The register's constant is the generator without its highest power, which the shift takes away. */
  lemma PolyIsGenerator()
    ensures Generator() == [true] + Register(C.POLY)
  {
    ByteShift(C.POLY);
    ByteShift(0x82_f63b);
    ByteShift(0x82f6);
    LowBytes(C.POLY, 0x82_f63b, 0x82f6, 0x82);
    LowByte(C.POLY, 0x78);
    LowByte(0x82_f63b, 0x3b);
    LowByte(0x82f6, 0xf6);
    GeneratorBytes();
    HighPeel(1, 1, 0);
    MirrorFirst();
    MirrorSecond();
    MirrorThird();
    MirrorFourth();
    Joined(HighFirst(1, 1), LowFirst(0x78, 8), LowFirst(0x3b, 8), LowFirst(0xf6, 8), LowFirst(0x82, 8));
  }

  lemma HalfBits(w: bv32, i: nat)
    requires i < 32
    ensures Register(Half(w))[i] == if i < 31 then Register(w)[i + 1] else false
  {
    BitAt(Half(w), 32, i);
    if i < 31 {
      BitAt(w, 32, i + 1);
    } else {
      WordEnds(w);
    }
  }

  lemma StepIs(w: bv32, half: bv32)
    requires half == Half(w)
    ensures C.BitStep(w) == if Odd(w) then C.Xor(half, C.POLY) else half
  {
  }

  lemma FirstBit(w: bv32)
    ensures Register(w)[0] == Odd(w)
  {
    BitAt(w, 32, 0);
  }

  lemma PolyBit(i: nat)
    requires i < 32
    ensures Register(C.POLY)[i] == Generator()[i + 1]
  {
    PolyIsGenerator();
  }

  lemma StepBits(w: bv32, i: nat)
    requires i < 32
    ensures Register(C.BitStep(w))[i]
         == ((if i < 31 then Register(w)[i + 1] else false) != (Register(w)[0] && Generator()[i + 1]))
  {
    var half := Half(w);
    StepIs(w, half);
    FirstBit(w);
    HalfBits(w, i);
    if Odd(w) {
      PolyBit(i);
      XorBits(half, C.POLY, 32, i);
    }
  }

  /** With a zero bit to come, one step of the register is one step of the division. */
  lemma StepDivides(w: bv32, m: Poly)
    requires |m| >= 32
    ensures Divided(Loaded(w, Repeat(false, 1) + m), Generator()) == Loaded(C.BitStep(w), m)
  {
    var x, y := Divided(Loaded(w, Repeat(false, 1) + m), Generator()), Loaded(C.BitStep(w), m);
    forall i | 0 <= i < |y| ensures x[i] == y[i] {
      if i < 32 {
        StepBits(w, i);
      }
    }
  }

  /** `w` and the bits `m` leave the remainder `r`. */
  predicate Leaves(w: bv32, m: Poly, r: Poly)
    requires |m| >= 32
  {
    Remainder(Loaded(w, m), Generator()) == r
  }

  lemma OneStep(w: bv32, m: Poly, r: Poly)
    requires |m| >= 32 && Leaves(C.BitStep(w), m, r)
    ensures Leaves(w, Repeat(false, 1) + m, r)
  {
    StepDivides(w, m);
  }

  lemma RepeatMore(n: nat, m: Poly)
    ensures Repeat(false, n + 1) + m == Repeat(false, 1) + (Repeat(false, n) + m)
  {
  }

  lemma {:induction false} ManySteps(w: bv32, n: nat, m: Poly, r: Poly)
    requires |m| >= 32 && Leaves(C.Iterate(C.BitStep, w, n), m, r)
    ensures Leaves(w, Repeat(false, n) + m, r)
    decreases n
  {
    if n == 0 {
      Seqs.Nil(m);
      assert Repeat(false, 0) == [];
    } else {
      var n' := n - 1;
      ManySteps(C.BitStep(w), n', m, r);
      OneMore(w, n', m, r);
    }
  }

  lemma OneMore(w: bv32, n: nat, m: Poly, r: Poly)
    requires |m| >= 32 && Leaves(C.BitStep(w), Repeat(false, n) + m, r)
    ensures Leaves(w, Repeat(false, n + 1) + m, r)
  {
    OneStep(w, Repeat(false, n) + m, r);
    RepeatMore(n, m);
  }

  lemma OneByte(w: bv32, b: byte, m: Poly, r: Poly)
    requires |m| >= 32 && Leaves(C.ByteStep(C.Xor(w, C.Widen(b))), m, r)
    ensures Leaves(w, LowFirst(C.Widen(b), 8) + m, r)
  {
    ManySteps(C.Xor(w, C.Widen(b)), 8, m, r);
    LoadByte(w, b, m);
  }

  /** Feeding the message divides it. */
  lemma {:induction false} FeedDivides(w: bv32, data: bytes, m: Poly, r: Poly)
    requires |m| >= 32 && Leaves(C.Feed(C.ByteStep, w, data), m, r)
    ensures Leaves(w, Wire(data) + m, r)
    decreases |data|
  {
    if data == [] {
      Seqs.Nil(m);
    } else {
      var b, rest := data[0], data[1..];
      FeedDivides(C.ByteStep(C.Xor(w, C.Widen(b))), rest, m, r);
      OneByte(w, b, Wire(rest) + m, r);
      Seqs.Assoc(LowFirst(C.Widen(b), 8), Wire(rest), m);
    }
  }

  /** With only the 32 zeros to come, the register holds the remainder. */
  lemma NothingLeft(w: bv32)
    ensures Leaves(w, Repeat(false, 32), Register(w))
  {
    var x := Loaded(w, Repeat(false, 32));
    forall i | 0 <= i < 32 ensures x[i] == Register(w)[i] {
    }
  }

  lemma NotRegister(w: bv32)
    ensures Register(!w) == Complement(Register(w))
  {
    forall i: nat | i < 32 ensures Register(!w)[i] == Complement(Register(w))[i] {
      NotBits(w, 32, i);
    }
  }

  /** Extending `crc` divides the message with its first bits changed by what `crc` left. */
  lemma ExtendIsRemainder(crc: bv32, data: bytes)
    ensures Register(C.Extend(crc, data))
         == Complement(Remainder(AddHigh(Wire(data) + Repeat(false, 32), Complement(Register(crc))), Generator()))
  {
    var w := C.Feed(C.ByteStep, !crc, data);
    NothingLeft(w);
    FeedDivides(!crc, data, Repeat(false, 32), Register(w));
    NotRegister(crc);
    NotRegister(w);
  }

  lemma ZeroRegister()
    ensures Complement(Register(0)) == Repeat(true, 32)
  {
    OnesAll();
    NotRegister(0);
  }

  /** The checksum is the complement of the remainder that the generator leaves of the message. */
  lemma ValueIsRemainder(data: bytes)
    ensures Register(C.Value(data)) == Complement(Remainder(Dividend(data), Generator()))
  {
    ExtendIsRemainder(0, data);
    ZeroRegister();
  }
}
