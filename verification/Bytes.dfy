/** Byte strings and their order, as `Slice` compares them (unsigned, then by length). */
module Bytes {

  type byte = b: int | 0 <= b < 256
  type bytes = seq<byte>

  datatype Option<+T> = None | Some(value: T)

  /** `n + 1`, by name: as an argument of a recursive function a sum is not recognised again, a call is. */
  function Succ(n: nat): nat {
    n + 1
  }

  /** `n - 1`, by name for the same reason. */
  function Pred(n: nat): nat
    requires n > 0
  {
    n - 1
  }

  /** The length of the longest common prefix. */
  function SharedPrefix(a: bytes, b: bytes): (n: nat)
    ensures n <= |a| && n <= |b|
    ensures a[..n] == b[..n]
    ensures n < |a| && n < |b| ==> a[n] != b[n]
  {
    if a == [] || b == [] || a[0] != b[0] then 0 else
    var n := SharedPrefix(a[1..], b[1..]);
    assert forall i :: 0 <= i < n ==> a[i + 1] == a[1..][..n][i] && b[i + 1] == b[1..][..n][i];
    1 + n
  }

  /** `a.compare(b) < 0`: the first difference decides, and a proper prefix comes first. */
  predicate Less(a: bytes, b: bytes) {
    var n := SharedPrefix(a, b);
    n < |b| && (n == |a| || a[n] < b[n])
  }

  /** Any position at which `b` overtakes `a` witnesses `Less`. */
  lemma LessAt(a: bytes, b: bytes, n: nat)
    requires n <= |a| && n < |b| && a[..n] == b[..n]
    requires n == |a| || a[n] < b[n]
    ensures Less(a, b)
  {
    var k := SharedPrefix(a, b);
    assert forall i :: 0 <= i < n ==> a[i] == a[..n][i] == b[..n][i] == b[i];
    assert forall i :: 0 <= i < k ==> a[i] == a[..k][i] == b[..k][i] == b[i];
  }

  lemma LessTransitive(a: bytes, b: bytes, c: bytes)
    requires Less(a, b) && Less(b, c)
    ensures Less(a, c)
  {
    var i, j := SharedPrefix(a, b), SharedPrefix(b, c);
    var n := if i < j then i else j;
    assert a[..n] == a[..i][..n] == b[..i][..n] == b[..n] == b[..j][..n] == c[..j][..n] == c[..n];
    if i < j {
      assert b[i] == b[..j][i] && c[i] == c[..j][i];
    } else if j < i {
      assert b[j] == b[..i][j] && a[j] == a[..i][j];
    }
    LessAt(a, c, n);
  }

  /** `Less` is irreflexive, asymmetric and total. */
  lemma LessTrichotomy(a: bytes, b: bytes)
    ensures !Less(a, a)
    ensures Less(a, b) ==> !Less(b, a)
    ensures a == b || Less(a, b) || Less(b, a)
  {
    var n := SharedPrefix(a, b);
    if n < |a| && n < |b| {
      if a[n] < b[n] {
        LessAt(a, b, n);
      } else {
        LessAt(b, a, n);
      }
    } else if n < |b| {
      LessAt(a, b, n);
    } else if n < |a| {
      LessAt(b, a, n);
    }
    if Less(a, b) && Less(b, a) {
      LessTransitive(a, b, a);
    }
  }
}
