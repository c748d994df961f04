/** Fixed-width little-endian and variable-length integer codecs (src/util/coding.h, src/util/coding.cc). */
module Coding {
  import opened Bytes

  const U16: nat := 0x1_0000
  const U32: nat := 0x1_0000_0000
  const U64: nat := 0x1_0000_0000_0000_0000

  // ---------------------------------------------------------------- fixed width

  /** 256 to the `n`. */
  function Pow256(n: nat): (p: nat)
    ensures p > 0
  {
    if n == 0 then 1 else 256 * Pow256(n - 1)
  }

  /** The low `n` bytes of `v`, least significant first. */
  function Fixed(v: nat, n: nat): (b: bytes)
    ensures |b| == n
    decreases n, v
  {
    if n == 0 then [] else [v % 256] + Fixed(v / 256, n - 1)
  }

  function FromFixed(b: bytes): nat {
    if b == [] then 0 else b[0] + 256 * FromFixed(b[1..])
  }

  lemma Powers()
    ensures Pow256(2) == U16 && Pow256(4) == U32 && Pow256(8) == U64
  {
    assert Pow256(3) == 256 * U16;
    assert Pow256(5) == 256 * U32;
    assert Pow256(6) == 256 * Pow256(5);
    assert Pow256(7) == 256 * Pow256(6);
  }

  lemma {:induction false} FixedRoundTrip(v: nat, n: nat)
    requires v < Pow256(n)
    ensures FromFixed(Fixed(v, n)) == v
    decreases n
  {
    if n != 0 {
      FixedRoundTrip(v / 256, n - 1);
      assert Fixed(v, n)[1..] == Fixed(v / 256, n - 1);
    }
  }

  /** Decoding then encoding restores the bytes, so fixed-width encodings are unique. */
  lemma {:induction false} FixedOnto(b: bytes)
    ensures Fixed(FromFixed(b), |b|) == b && FromFixed(b) < Pow256(|b|)
    decreases |b|
  {
    if b != [] {
      FixedOnto(b[1..]);
      assert FromFixed(b) % 256 == b[0] && FromFixed(b) / 256 == FromFixed(b[1..]);
    }
  }

  lemma Fixed32RoundTrip(v: nat)
    requires v < U32
    ensures FromFixed(Fixed(v, 4)) == v
  {
    Powers();
    FixedRoundTrip(v, 4);
  }

  lemma Fixed64RoundTrip(v: nat)
    requires v < U64
    ensures FromFixed(Fixed(v, 8)) == v
  {
    Powers();
    FixedRoundTrip(v, 8);
  }

  lemma Fixed16RoundTrip(v: nat)
    requires v < U16
    ensures FromFixed(Fixed(v, 2)) == v
  {
    Powers();
    FixedRoundTrip(v, 2);
  }

  /** The `k`th byte holds the `k`th digit to base 256. */
  lemma {:induction false} FixedDigit(v: nat, n: nat, k: nat)
    requires k < n
    ensures Fixed(v, n)[k] == (v / Pow256(k)) % 256
    decreases n
  {
    if n > 1 {
      FixedLast(v, n - 1);
      if k < n - 1 {
        FixedDigit(v, n - 1, k);
      }
    }
  }

  /** A wide number is its low part followed by its high part. */
  lemma {:induction false} FixedSplit(v: nat, n: nat, m: nat, low: nat, high: nat)
    requires v == high * Pow256(n) + low && low < Pow256(n)
    ensures Fixed(v, n + m) == Fixed(low, n) + Fixed(high, m)
    decreases n
  {
    if n != 0 {
      var p := Pow256(n - 1);
      HighPart(high, n, p);
      LowByte(v, low, high * p, p);
      FixedSplit(v / 256, n - 1, m, low / 256, high);
    }
  }

  lemma HighPart(high: nat, n: nat, p: nat)
    requires n > 0 && p == Pow256(n - 1)
    ensures high * Pow256(n) == 256 * (high * p)
  {
  }

  lemma LowByte(v: nat, low: nat, high: nat, p: nat)
    requires v == 256 * high + low && low < 256 * p
    ensures v % 256 == low % 256 && v / 256 == high + low / 256 && low / 256 < p
  {
  }

  /** `EncodeFixed32` of the low and of the high word write what `EncodeFixed64` writes. */
  lemma FixedHalves(v: nat)
    ensures Fixed(v % U32, 4) + Fixed(v / U32, 4) == Fixed(v, 8)
  {
    Powers();
    FixedSplit(v, 4, 4, v % U32, v / U32);
  }

  // the loops

  lemma DivStep(v: nat, p: nat)
    requires p > 0
    ensures (v / 256) / p == v / (256 * p)
  {
    var q, r := v / (256 * p), v % (256 * p);
    assert v == 256 * (p * q) + r;
    var s, t := r / 256, r % 256;
    assert s < p;
    assert v / 256 == p * q + s;
    assert (p * q + s) / p == q by {
      DivUnique(p * q + s, p, q, s);
    }
  }

  lemma DivUnique(x: nat, p: nat, q: nat, s: nat)
    requires 0 <= s < p && x == p * q + s
    ensures x / p == q
  {
    var d := x / p - q;
    assert x == p * (x / p) + x % p;
    assert p * d == s - x % p;
    Multiples(p, d);
  }

  lemma Multiples(p: nat, d: int)
    requires p > 0
    ensures d > 0 ==> p * d >= p
    ensures d < 0 ==> p * d + p <= 0
  {
  }

  lemma {:induction false} FixedLast(v: nat, n: nat)
    ensures Fixed(v, n + 1) == Fixed(v, n) + [(v / Pow256(n)) % 256]
    decreases n
  {
    if n != 0 {
      FixedLast(v / 256, n - 1);
      DivStep(v, Pow256(n - 1));
    }
  }

  lemma {:induction false} FromFixedLast(b: bytes, x: byte)
    ensures FromFixed(b + [x]) == FromFixed(b) + x * Pow256(|b|)
    decreases |b|
  {
    if b == [] {
      assert [] + [x] == [x];
    } else {
      FromFixedLast(b[1..], x);
      assert (b + [x])[1..] == b[1..] + [x];
      var p := Pow256(|b| - 1);
      assert 256 * (x * p) == x * (256 * p);
    }
  }

  /** `EncodeFixed32` (`n == 4`) and `EncodeFixed64` (`n == 8`): the shift `value >> (8 * i)` divides by 256 to the
      `i`. */
  method EncodeFixed(dst: array<byte>, at: nat, value: nat, n: nat)
    requires at + n <= dst.Length
    modifies dst
    ensures dst[..] == old(dst[..at]) + Fixed(value, n) + old(dst[at + n..])
  {
    var i := 0;
    while i < n
      invariant 0 <= i <= n
      invariant dst[..at] == old(dst[..at]) && dst[at + n..] == old(dst[at + n..])
      invariant dst[at..at + i] == Fixed(value, i)
    {
      FixedLast(value, i);
      dst[at + i] := (value / Pow256(i)) % 256;
      assert dst[at..at + i + 1] == dst[at..at + i] + [dst[at + i]];
      i := i + 1;
    }
  }

  /** `DecodeFixed32` and `DecodeFixed64`: each byte lands above all earlier ones, so `|=` adds. */
  method DecodeFixed(p: bytes) returns (result: nat)
    ensures result == FromFixed(p)
  {
    result := 0;
    var i := 0;
    while i < |p|
      invariant 0 <= i <= |p|
      invariant result == FromFixed(p[..i])
    {
      FromFixedLast(p[..i], p[i]);
      assert p[..i + 1] == p[..i] + [p[i]];
      result := result + p[i] * Pow256(i);
      i := i + 1;
    }
    assert p[..|p|] == p;
  }

  // ---------------------------------------------------------------- variable length

  /** Seven bits a byte, low bits first; every byte but the last has its top bit set. */
  function Varint(v: nat): (b: bytes)
    ensures |b| > 0
  {
    if v < 128 then [v] else [v % 128 + 128] + Varint(v / 128)
  }

  /** The value that starts at byte `i` of `b` and the end of its bytes, looking at no more than `k` of them. */
  function FromVarint(b: bytes, i: nat, k: nat): (r: Option<(nat, nat)>)
    requires i <= |b|
    ensures r.Some? ==> i < r.value.1 <= |b| && r.value.1 <= i + k
    decreases |b| - i
  {
    if k == 0 || i == |b| then None
    else if b[i] < 128 then Some((b[i], i + 1))
    else
      var rest := FromVarint(b, i + 1, k - 1);
      if rest.None? then None else Some((b[i] - 128 + 128 * rest.value.0, rest.value.1))
  }

  /** 128 to the `n`. */
  function Pow128(n: nat): (p: nat)
    ensures p > 0
  {
    if n == 0 then 1 else 128 * Pow128(n - 1)
  }

  /** Decoding an encoding gives the value back and stops exactly at its end. */
  lemma {:induction false} VarintRoundTrip(b: bytes, i: nat, v: nat, k: nat)
    requires i <= |b| && Varint(v) <= b[i..] && v < Pow128(k) && k > 0
    ensures FromVarint(b, i, k) == Some((v, i + |Varint(v)|))
    decreases k
  {
    assert b[i] == b[i..][0] == Varint(v)[0];
    if v >= 128 {
      assert b[i + 1..] == b[i..][1..] && Varint(v / 128) == Varint(v)[1..];
      VarintRoundTrip(b, i + 1, v / 128, k - 1);
    }
  }

  lemma {:induction false} VarintLength(v: nat, k: nat)
    requires v < Pow128(k) && k > 0
    ensures |Varint(v)| <= k
    decreases k
  {
    if v >= 128 {
      VarintLength(v / 128, k - 1);
    }
  }

  lemma Widths()
    ensures U32 <= Pow128(5) && U64 <= Pow128(10)
  {
    assert Pow128(1) == 128;
    assert Pow128(2) == 128 * Pow128(1);
    assert Pow128(3) == 128 * Pow128(2);
    assert Pow128(4) == 128 * Pow128(3);
    assert Pow128(5) == 128 * Pow128(4);
    assert Pow128(6) == 128 * Pow128(5);
    assert Pow128(7) == 128 * Pow128(6);
    assert Pow128(8) == 128 * Pow128(7);
    assert Pow128(9) == 128 * Pow128(8);
    assert Pow128(10) == 128 * Pow128(9);
  }

  /** A cut encoding never decodes: every byte before the last announces another. */
  lemma {:induction false} VarintCut(b: bytes, i: nat, v: nat, k: nat)
    requires i <= |b| && b[i..] < Varint(v)
    ensures FromVarint(b, i, k) == None
    decreases k
  {
    if i < |b| && k > 0 {
      assert b[i] == b[i..][0] == Varint(v)[0];
      assert b[i + 1..] == b[i..][1..];
      if v >= 128 {
        assert Varint(v / 128) == Varint(v)[1..];
        VarintCut(b, i + 1, v / 128, k - 1);
      }
    }
  }

  /** The `k`th byte holds the `k`th digit to base 128, and all but the last are marked. */
  lemma {:induction false} VarintDigit(v: nat, k: nat)
    requires k < |Varint(v)|
    ensures Varint(v)[k] == (v / Pow128(k)) % 128 + (if k < |Varint(v)| - 1 then 128 else 0)
    decreases k
  {
    if k > 0 {
      VarintDigit(v / 128, k - 1);
      DivTwice(v, 128, Pow128(k - 1));
    }
  }

  lemma DivTwice(v: nat, a: nat, b: nat)
    requires a > 0 && b > 0
    ensures a * b > 0 && (v / a) / b == v / (a * b)
  {
    var q, r := v / (a * b), v % (a * b);
    Multiples(a * b, 1);
    assert v == (a * b) * q + r;
    DivRest(v, a, b, q, r);
  }

  lemma DivRest(v: nat, a: nat, b: nat, q: nat, r: nat)
    requires a > 0 && b > 0 && v == (a * b) * q + r && r < a * b
    ensures (v / a) / b == q
  {
    var s, t := r / a, r % a;
    assert r == a * s + t;
    Below(a, b, s, r);
    assert v == a * (b * q + s) + t;
    DivUnique(v, a, b * q + s, t);
    DivUnique(b * q + s, b, q, s);
  }

  lemma Below(a: nat, b: nat, s: nat, r: nat)
    requires a > 0 && r < a * b && a * s <= r
    ensures s < b
  {
    assert a * s >= a * b <==> s >= b;
  }

  /** Five marked bytes, or ten, are no number. */
  lemma {:induction false} VarintTooLong(s: bytes, i: nat, k: nat)
    requires i + k <= |s| && forall j :: i <= j < i + k ==> s[j] >= 128
    ensures FromVarint(s, i, k) == None
    decreases k
  {
    if k > 0 {
      VarintTooLong(s, i + 1, k - 1);
    }
  }

  lemma GetVarintTooLong(s: bytes)
    ensures |s| >= 5 && (forall j :: 0 <= j < 5 ==> s[j] >= 128) ==> GetVarint32(s) == None
    ensures |s| >= 10 && (forall j :: 0 <= j < 10 ==> s[j] >= 128) ==> GetVarint64(s) == None
  {
    if |s| >= 5 && forall j :: 0 <= j < 5 ==> s[j] >= 128 {
      VarintTooLong(s, 0, 5);
    }
    if |s| >= 10 && forall j :: 0 <= j < 10 ==> s[j] >= 128 {
      VarintTooLong(s, 0, 10);
    }
  }

  /** No encoding is a proper prefix of another. */
  lemma {:induction false} VarintPrefixFree(v: nat, w: nat)
    requires Varint(v) <= Varint(w)
    ensures v == w
    decreases v
  {
    var a, b := Varint(v), Varint(w);
    assert a[0] == b[0];
    if v >= 128 {
      assert a[1..] <= b[1..];
      VarintPrefixFree(v / 128, w / 128);
    }
  }

  /** `GetVarint32` and `GetVarint64`: five or ten bytes at most, bits above the width are lost. */
  function GetVarint(s: bytes, k: nat, width: nat): (r: Option<(nat, bytes)>)
    requires width > 0
    ensures r.Some? ==> r.value.0 < width && |r.value.1| < |s|
  {
    var r := FromVarint(s, 0, k);
    if r.None? then None else Some((r.value.0 % width, s[r.value.1..]))
  }

  function GetVarint32(s: bytes): (r: Option<(nat, bytes)>) {
    GetVarint(s, 5, U32)
  }

  function GetVarint64(s: bytes): (r: Option<(nat, bytes)>) {
    GetVarint(s, 10, U64)
  }

  lemma GetVarint32Of(v: nat, rest: bytes)
    requires v < U32
    ensures GetVarint32(Varint(v) + rest) == Some((v, rest)) && |Varint(v)| <= 5
  {
    Widths();
    VarintRoundTrip(Varint(v) + rest, 0, v, 5);
    VarintLength(v, 5);
    assert (Varint(v) + rest)[|Varint(v)|..] == rest;
  }

  lemma GetVarint64Of(v: nat, rest: bytes)
    requires v < U64
    ensures GetVarint64(Varint(v) + rest) == Some((v, rest)) && |Varint(v)| <= 10
  {
    Widths();
    VarintRoundTrip(Varint(v) + rest, 0, v, 10);
    VarintLength(v, 10);
    assert (Varint(v) + rest)[|Varint(v)|..] == rest;
  }

  method EncodeVarint(value: nat) returns (dst: bytes)
    ensures dst == Varint(value)
  {
    dst := [];
    var v := value;
    while v >= 128
      invariant dst + Varint(v) == Varint(value)
    {
      dst := dst + [v % 128 + 128];
      v := v / 128;
    }
    dst := dst + [v];
  }

  /** Seven bits at position `i`: `low << (7 * i)`. */
  function Placed(low: nat, i: nat): nat {
    low * Pow128(i)
  }

  /** What a scan of `s` from byte `i` on returns when the bytes before it held `low`. */
  function Resumed(s: bytes, k: nat, i: nat, low: nat): Option<(nat, nat)>
    requires i <= k && i <= |s|
  {
    var rest := FromVarint(s, i, k - i);
    if rest.None? then None else Some((low + Placed(rest.value.0, i), rest.value.1))
  }

  /** `GetVarint32Ptr` (`k == 5`) and `GetVarint64Ptr` (`k == 10`): `shift` is `7 * i`. */
  method ReadVarint(s: bytes, k: nat, width: nat) returns (r: Option<(nat, bytes)>)
    requires width > 0
    ensures r == GetVarint(s, k, width)
  {
    var result: nat, i: nat := 0, 0;
    ghost var exact: nat := 0;
    while i < k && i < |s|
      invariant 0 <= i <= k && i <= |s|
      invariant exact % width == result
      invariant FromVarint(s, 0, k) == Resumed(s, k, i, exact)
    {
      var low: nat := if s[i] >= 128 then s[i] - 128 else s[i];
      var part := Placed(low, i);
      ModAdd(exact, result, part, width);
      ResumedStep(s, k, i, exact, low, part);
      result := (result + part) % width;
      exact := exact + part;
      if s[i] < 128 {
        return Some((result, s[i + 1..]));
      }
      i := i + 1;
    }
    r := None;
  }

  lemma ResumedStep(s: bytes, k: nat, i: nat, exact: nat, low: nat, part: nat)
    requires i < k && i < |s| && part == Placed(low, i)
    requires low == if s[i] >= 128 then s[i] - 128 else s[i]
    ensures Resumed(s, k, i, exact) ==
      if s[i] < 128 then Some((exact + part, i + 1)) else Resumed(s, k, i + 1, exact + part)
  {
    var rest := FromVarint(s, i + 1, k - i - 1);
    if s[i] >= 128 && rest.Some? {
      var v, p := rest.value.0, Pow128(i);
      assert (low + 128 * v) * p == low * p + v * (128 * p);
    }
  }

  lemma ModAdd(exact: nat, result: nat, x: nat, width: nat)
    requires width > 0 && exact % width == result
    ensures (exact + x) % width == (result + x) % width
  {
    var q := exact / width;
    assert exact + x == (result + x) + width * q;
    var y := result + x;
    assert y == width * (y / width) + y % width;
    assert exact + x == width * (y / width + q) + y % width;
    DivUnique(exact + x, width, y / width + q, y % width);
  }

  // ---------------------------------------------------------------- length-prefixed slices

  /** `PutLengthPrefixedSlice`; the length is written as a 32-bit number. */
  function Prefixed(s: bytes): bytes {
    Varint(|s| % U32) + s
  }

  /** `GetLengthPrefixedSlice`. */
  function GetPrefixed(s: bytes): (r: Option<(bytes, bytes)>)
    ensures r.Some? ==> |r.value.1| < |s|
  {
    var length := GetVarint32(s);
    if length.None? then None else
    var (n, rest) := length.value;
    if n <= |rest| then Some((rest[..n], rest[n..])) else None
  }

  lemma PrefixedRoundTrip(s: bytes, rest: bytes)
    requires |s| < U32
    ensures GetPrefixed(Prefixed(s) + rest) == Some((s, rest))
  {
    GetVarint32Of(|s|, s + rest);
    assert Prefixed(s) + rest == Varint(|s|) + (s + rest);
    assert (s + rest)[..|s|] == s && (s + rest)[|s|..] == rest;
  }

  /** A cut slice never decodes. */
  lemma PrefixedCut(s: bytes, c: nat)
    requires |s| < U32 && c < |Prefixed(s)|
    ensures GetPrefixed(Prefixed(s)[..c]) == None
  {
    var head := Varint(|s|);
    if c < |head| {
      assert Prefixed(s)[..c] == head[..c];
      VarintCut(head[..c], 0, |s|, 5);
    } else {
      var kept := s[..c - |head|];
      assert Prefixed(s)[..c] == head + kept;
      GetVarint32Of(|s|, kept);
    }
  }
}
