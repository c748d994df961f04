/** Slicing and concatenation facts about sequences of any type. */
module Seqs {

  lemma TakeLeft<T>(a: seq<T>, b: seq<T>, c: nat)
    requires c <= |a|
    ensures (a + b)[..c] == a[..c]
  {
  }

  lemma TakeRight<T>(a: seq<T>, b: seq<T>, c: nat)
    requires |a| <= c <= |a| + |b|
    ensures (a + b)[..c] == a + b[..c - |a|]
  {
  }

  lemma DropLeft<T>(a: seq<T>, b: seq<T>, c: nat)
    requires c <= |a|
    ensures (a + b)[c..] == a[c..] + b
  {
  }

  lemma DropRight<T>(a: seq<T>, b: seq<T>, c: nat)
    requires |a| <= c <= |a| + |b|
    ensures (a + b)[c..] == b[c - |a|..]
  {
  }

  lemma Assoc<T>(a: seq<T>, b: seq<T>, c: seq<T>)
    ensures (a + b) + c == a + (b + c)
  {
  }

  lemma Assoc3<T>(a: seq<T>, b: seq<T>, c: seq<T>, d: seq<T>)
    ensures a + b + c + d == a + (b + c + d)
  {
  }

  lemma Rejoin<T>(a: seq<T>, c: nat)
    requires c <= |a|
    ensures a[..c] + a[c..] == a
  {
  }

  lemma Uncons<T>(x: T, a: seq<T>, b: seq<T>)
    ensures ([x] + a + b)[1..] == a + b && ([x] + a + b)[0] == x
  {
  }

  lemma Uncons2<T>(x: T, a: seq<T>, b: seq<T>, c: seq<T>)
    ensures ([x] + a + b + c)[1..] == a + (b + c) && ([x] + a + b + c)[0] == x
  {
  }

  lemma SnocLast<T>(a: seq<T>)
    requires a != []
    ensures a == a[..|a| - 1] + [a[|a| - 1]]
  {
  }

  lemma Nil<T>(a: seq<T>)
    ensures a + [] == a && [] + a == a
  {
  }

  lemma TakeSnoc<T>(a: seq<T>, n: nat)
    requires n < |a|
    ensures a[..n + 1] == a[..n] + [a[n]]
  {
  }

  lemma DropCons<T>(a: seq<T>, n: nat)
    requires n < |a|
    ensures a[n..] == [a[n]] + a[n + 1..]
  {
  }

  lemma DropNone<T>(a: seq<T>)
    ensures a[0..] == a
  {
  }

  lemma TakeAll<T>(a: seq<T>)
    ensures a[..|a|] == a
  {
  }

  lemma TakeTake<T>(a: seq<T>, i: nat, j: nat)
    requires j <= i <= |a|
    ensures a[..i][..j] == a[..j]
  {
  }

  lemma SliceOfTake<T>(a: seq<T>, i: nat, j: nat, k: nat)
    requires i <= j <= k <= |a|
    ensures a[..k][i..j] == a[i..j]
  {
  }

  /** `a` stands in `f` at offset `p`. */
  predicate At<T(==)>(f: seq<T>, p: nat, a: seq<T>) {
    p + |a| <= |f| && f[p..p + |a|] == a
  }

  lemma AtEnd<T>(f: seq<T>, a: seq<T>)
    ensures At(f + a, |f|, a) && (f + a)[..|f|] == f
  {
  }

  lemma AtStart<T>(a: seq<T>, b: seq<T>)
    ensures At(a + b, 0, a)
  {
  }

  lemma AtSplit<T>(f: seq<T>, p: nat, a: seq<T>, b: seq<T>)
    requires At(f, p, a + b)
    ensures At(f, p, a) && At(f, p + |a|, b)
  {
    var c := a + b;
    AtSlice(f, p, c, 0, |a|);
    AtSlice(f, p, c, |a|, |c|);
    assert c[0..|a|] == a;
    assert c[|a|..|c|] == b;
    assert p + |c| == p + |a| + |b|;
  }

  lemma AtSlice<T>(f: seq<T>, p: nat, a: seq<T>, i: nat, j: nat)
    requires At(f, p, a) && i <= j <= |a|
    ensures f[p + i..p + j] == a[i..j]
  {
    forall k | 0 <= k < j - i ensures f[p + i..p + j][k] == a[i..j][k] {
      AtIndex(f, p, a, i + k);
    }
  }

  lemma AtIndex<T>(f: seq<T>, p: nat, a: seq<T>, i: nat)
    requires At(f, p, a) && i < |a|
    ensures f[p + i] == a[i]
  {
    assert f[p + i] == f[p..p + |a|][i];
  }

  /** A cut of `a + b` that reaches into `b`. */
  lemma AtCut<T>(f: seq<T>, p: nat, a: seq<T>, b: seq<T>, c: nat)
    requires |a| <= c <= |a| + |b| && At(f, p, (a + b)[..c])
    ensures At(f, p, a) && At(f, p + |a|, b[..c - |a|])
  {
    TakeRight(a, b, c);
    AtSplit(f, p, a, b[..c - |a|]);
  }

  /** `g` is `f` with any changes from `q` up to `e`. */
  predicate Damaged<T(==)>(f: seq<T>, g: seq<T>, q: nat, e: nat) {
    && |g| == |f|
    && (forall i :: 0 <= i < q && i < |f| ==> g[i] == f[i])
    && (forall i :: e <= i < |f| ==> g[i] == f[i])
  }

  lemma AtOutside<T>(f: seq<T>, g: seq<T>, q: nat, e: nat, p: nat, a: seq<T>)
    requires Damaged(f, g, q, e) && At(f, p, a) && (p + |a| <= q || p >= e)
    ensures At(g, p, a)
  {
    forall i | 0 <= i < |a| ensures g[p..p + |a|][i] == a[i] {
      AtIndex(f, p, a, i);
    }
  }
}
