/** The skip list, over heap nodes relinked in place (src/db/skiplist.h). */
module SkipLists {
  import opened Bytes
  import Arenas

  const MAX_HEIGHT: nat := 12
  const BRANCHING: nat := 4

  // ---------------------------------------------------------------- random heights

  const MODULUS: nat := 0x7fff_ffff
  const MULTIPLIER: nat := 16807

  /** The next number drawn, as the generator of Park and Miller has it. */
  function Draw(seed: nat): nat {
    (seed * 16807) % 0x7fff_ffff
  }

  /** The `k`th number drawn from `seed` on. */
  function DrawAt(seed: nat, k: nat): nat {
    if k == 0 then seed else Draw(DrawAt(seed, k - 1))
  }

  /** A height of `h` and the generator's state behind it: of the draws all but the last are divisible by four, and so
      is the last at height 12. */
  predicate Drawn(seed: nat, h: nat, after: nat) {
    && 1 <= h <= 12 && (forall k :: 1 <= k < h ==> DrawAt(seed, k) % 4 == 0)
    && (h < 12 ==> DrawAt(seed, h) % 4 != 0) && after == DrawAt(seed, if h < 12 then h else 11)
  }

  class Random {
    var seed: nat

    ghost predicate Valid()
      reads this
    {
      0 < seed < MODULUS
    }

    /** The low 31 bits, but not the two numbers at which it would stay. */
    constructor (s: nat)
      ensures Valid() && seed == if s % 0x8000_0000 in {0, 0x7fff_ffff} then 1 else s % 0x8000_0000
    {
      var low := s % 0x8000_0000;
      seed := if low == 0 || low == MODULUS then 1 else low;
    }

    /** The shift-and-add step is multiplication modulo 2^31 - 1. It never draws 0 or 2^31 - 1, where it would stay. */
    method Next() returns (r: nat)
      requires Valid()
      modifies this
      ensures Valid() && r == seed == Draw(old(seed))
    {
      var product := seed * MULTIPLIER;
      FoldHigh(seed, product);
      NotMultiple(seed, product);
      var sum := (product / 0x8000_0000 + product % 0x8000_0000) % 0x1_0000_0000;
      seed := if sum > MODULUS then sum - MODULUS else sum;
      r := seed;
    }
  }

  /** `16807 * 1407677000 - 1` is a multiple of the modulus. */
  const INVERSE: nat := 1407677000

  /** The modulus does not divide a valid seed times the multiplier, since the multiplier has an inverse. */
  lemma NotMultiple(seed: nat, product: nat)
    requires 0 < seed < MODULUS && product == seed * MULTIPLIER
    ensures product % MODULUS != 0
  {
    if product % MODULUS == 0 {
      Undone(seed, product / MODULUS);
    }
  }

  lemma Undone(seed: nat, k: nat)
    requires seed * MULTIPLIER == k * MODULUS
    ensures exists m :: seed == MODULUS * m
  {
    assert seed == MODULUS * (k * INVERSE - (MULTIPLIER * INVERSE - 1) / MODULUS * seed);
  }

  lemma FoldHigh(seed: nat, product: nat)
    requires 0 < seed < MODULUS && product == seed * MULTIPLIER
    ensures var sum := product / 0x8000_0000 + product % 0x8000_0000;
      0 < sum <= 2 * MODULUS && sum % MODULUS == product % MODULUS
  {
    Folded(product, product / 0x8000_0000, product % 0x8000_0000);
  }

  lemma Folded(product: nat, high: nat, low: nat)
    requires product == high * 0x8000_0000 + low
    ensures (high + low) % MODULUS == product % MODULUS
  {
    assert product == high * MODULUS + (high + low);
  }

  // ---------------------------------------------------------------- the plain list

  /** The comparator orders weakly: it is asymmetric, and "not before" is transitive. */
  ghost predicate WeakOrder<K(!new)>(less: (K, K) -> bool) {
    && (forall a, b :: less(a, b) ==> !less(b, a))
    && (forall a, b, c :: !less(b, a) && !less(c, b) ==> !less(c, a))
  }

  ghost predicate InOrder<K>(less: (K, K) -> bool, ks: seq<K>) {
    forall i, j :: 0 <= i < j < |ks| ==> !less(ks[j], ks[i])
  }

  /** The linear scan: the first key not less than `key`. */
  function Find<K>(less: (K, K) -> bool, ks: seq<K>, key: K): (i: nat)
    ensures i <= |ks|
    ensures forall j :: 0 <= j < i ==> less(ks[j], key)
    ensures i < |ks| ==> !less(ks[i], key)
  {
    if ks == [] || !less(ks[0], key) then 0 else
    var n := Find(less, ks[1..], key);
    assert forall j :: 0 < j <= n ==> ks[j] == ks[1..][j - 1];
    n + 1
  }

  function Inserted<K>(less: (K, K) -> bool, ks: seq<K>, key: K): seq<K> {
    var i := Find(less, ks, key);
    ks[..i] + [key] + ks[i..]
  }

  lemma FindIs<K>(less: (K, K) -> bool, ks: seq<K>, key: K, i: nat)
    requires i <= |ks| && (forall j :: 0 <= j < i ==> less(ks[j], key)) && (i < |ks| ==> !less(ks[i], key))
    ensures Find(less, ks, key) == i
  {
  }

  /** Insertion keeps the list ordered. */
  lemma InsertedInOrder<K(!new)>(less: (K, K) -> bool, ks: seq<K>, key: K)
    requires WeakOrder(less) && InOrder(less, ks)
    ensures InOrder(less, Inserted(less, ks, key))
  {
    var n := Find(less, ks, key);
    var out := Inserted(less, ks, key);
    assert forall i :: 0 <= i < |out| ==> out[i] == if i < n then ks[i] else if i == n then key else ks[i - 1];
    forall j | n <= j < |ks| ensures !less(ks[j], key) {
      if j > n {
        assert !less(ks[j], ks[n]);
      }
    }
  }

  // ---------------------------------------------------------------- nodes and levels

  class Node<K> {
    const key: K
    ghost const height: nat
    var next: seq<Node?<K>>

    constructor (key: K, ghost height: nat)
      ensures this.key == key && this.height == height
      ensures |next| == MAX_HEIGHT && forall l :: 0 <= l < MAX_HEIGHT ==> next[l] == null
    {
      this.key := key;
      this.height := height;
      next := seq(MAX_HEIGHT, i => null);
    }
  }

  /** The first position from `p` on whose node reaches `level`, or the list's length. */
  ghost function NextIndex<K>(list: seq<Node<K>>, p: nat, level: nat): (q: nat)
    requires p <= |list|
    ensures p <= q <= |list|
    ensures q < |list| ==> list[q].height > level
    ensures forall j :: p <= j < q ==> list[j].height <= level
    decreases |list| - p
  {
    if p == |list| || list[p].height > level then p else NextIndex(list, Succ(p), level)
  }

  ghost function NextAt<K>(list: seq<Node<K>>, p: nat, level: nat): Node?<K>
    requires p <= |list|
  {
    var q := NextIndex(list, p, level);
    if q < |list| then list[q] else null
  }

  lemma NextIndexIs<K>(list: seq<Node<K>>, p: nat, level: nat, q: nat)
    requires p <= q <= |list| && (q < |list| ==> list[q].height > level)
    requires forall j :: p <= j < q ==> list[j].height <= level
    ensures NextIndex(list, p, level) == q
  {
  }

  /** Every level links exactly the nodes that reach it, in list order. */
  ghost predicate Linked<K>(list: seq<Node<K>>)
    reads list
  {
    && (forall p :: 0 <= p < |list| ==> |list[p].next| == MAX_HEIGHT)
    && (forall p, l :: 0 <= p < |list| && 0 <= l < list[p].height && l < MAX_HEIGHT ==>
          list[p].next[l] == NextAt(list, Succ(p), l))
  }

  ghost predicate Distinct<K>(list: seq<Node<K>>) {
    forall i, j :: 0 <= i < j < |list| ==> list[i] != list[j]
  }

  // ---------------------------------------------------------------- splicing a node in

  ghost function Spliced<K>(list: seq<Node<K>>, n: Node<K>, r: nat): seq<Node<K>>
    requires r <= |list|
  {
    list[..r] + [n] + list[r..]
  }

  lemma SplicedAt<K>(list: seq<Node<K>>, n: Node<K>, r: nat)
    requires r <= |list|
    ensures var s := Spliced(list, n, r);
      |s| == |list| + 1 && s[r] == n
      && (forall p :: 0 <= p < r ==> s[p] == list[p]) && (forall p :: r < p < |s| ==> s[p] == list[p - 1])
  {
  }

  /** From a position after the new node, the next node is the one it was. */
  lemma NextAfter<K>(list: seq<Node<K>>, n: Node<K>, r: nat, q: nat, level: nat)
    requires r <= q <= |list|
    ensures NextAt(Spliced(list, n, r), Succ(q), level) == NextAt(list, q, level)
  {
    SplicedAt(list, n, r);
    var z := NextIndex(list, q, level);
    NextIndexIs(Spliced(list, n, r), Succ(q), level, Succ(z));
  }

  /** From a position up to the new node, the next node is the one it was unless the new node is passed. */
  lemma NextBefore<K>(list: seq<Node<K>>, n: Node<K>, r: nat, q: nat, level: nat)
    requires q <= r <= |list|
    ensures NextAt(Spliced(list, n, r), q, level)
         == if NextIndex(list, q, level) >= r && n.height > level then n else NextAt(list, q, level)
  {
    SplicedAt(list, n, r);
    var s, z := Spliced(list, n, r), NextIndex(list, q, level);
    var z' := if z < r then z else if n.height > level then r else Succ(z);
    NextIndexIs(s, q, level, z');
  }

  /** The last node at `level` before `r` is unique. */
  lemma LastUnique<K>(list: seq<Node<K>>, p: nat, at: nat, level: nat, r: nat)
    requires p < r <= |list| && at < r && list[p].height > level && list[at].height > level
    requires NextIndex(list, Succ(at), level) >= r
    ensures NextIndex(list, Succ(p), level) >= r <==> p == at
  {
  }

  // ---------------------------------------------------------------- the structure

  ghost function Keys<K>(list: seq<Node<K>>): (ks: seq<K>)
    ensures |ks| == |list| && forall i :: 0 <= i < |list| ==> ks[i] == list[i].key
  {
    seq(|list|, i requires 0 <= i < |list| => list[i].key)
  }

  /** `sizeof(Node)` on a 64-bit host, for the memtable's key: two slices and twelve links. */
  const NODE_SIZE: nat := 2 * 16 + MAX_HEIGHT * 8

  method AlignedCall(s: Arenas.State, bytes: nat) returns (s': Arenas.State)
    ensures Arenas.Grown(s, s', bytes)
  {
    var at := Arenas.SystemBlock(s.blocks, bytes + Arenas.Slop(s.curr));
    s' := Arenas.Allocated(s, bytes, true, at);
  }

  class SkipList<K(!new)> {
    const less: (K, K) -> bool
    const head: Node<K>
    const rng: Random
    /** The fields of the arena that nodes come from. */
    var arena: Arenas.State
    var curHeight: nat
    /** The nodes in level-0 order, `head` first. */
    ghost var list: seq<Node<K>>

    ghost predicate Valid()
      reads this, rng, list
    {
      && list != [] && list[0] == head && head.height == MAX_HEIGHT
      && Distinct(list) && Linked(list)
      && 1 <= curHeight <= MAX_HEIGHT
      && (forall p :: 1 <= p < |list| ==> 1 <= list[p].height <= curHeight)
      && rng.Valid()
      && WeakOrder(less) && InOrder(less, Contents())
    }

    /** The keys, in order. */
    ghost function Contents(): seq<K>
      reads this
      requires list != []
    {
      Keys(list[1..])
    }

    constructor (less: (K, K) -> bool, blank: K)
      requires WeakOrder(less)
      ensures Valid() && fresh(list) && fresh(rng) && this.less == less && Contents() == []
      ensures Arenas.Grown(Arenas.EMPTY, arena, NODE_SIZE)
    {
      this.less := less;
      var first := AlignedCall(Arenas.EMPTY, NODE_SIZE);
      arena := first;
      var h := new Node(blank, MAX_HEIGHT);
      head := h;
      rng := new Random(0x9e3779b9);
      curHeight := 1;
      list := [h];
    }

    /** `r` is where the linear scan stops, counting `head` as position 0. */
    ghost function Stop(key: K): (r: nat)
      requires list != []
      reads this
      ensures 1 <= r <= |list|
    {
      Find(less, Contents(), key) + 1
    }

    lemma StopIs(key: K, p: nat)
      requires Valid() && p < |list| && (p > 0 ==> less(list[p].key, key))
      requires p + 1 < |list| ==> !less(list[p + 1].key, key)
      ensures Stop(key) == p + 1
    {
      var ks := Contents();
      forall j | 0 <= j < p ensures less(ks[j], key) {
        if j < p - 1 {
          assert !less(ks[p - 1], ks[j]);
        }
      }
      FindIs(less, ks, key, p);
    }

    /** Once a key is not less than the target, none after it is. */
    lemma StaysNotLess(key: K, i: nat, j: nat)
      requires Valid() && 1 <= i <= j < |list| && !less(list[i].key, key)
      ensures !less(list[j].key, key)
    {
      var ks := Contents();
      assert ks[i - 1] == list[i].key && ks[j - 1] == list[j].key;
    }

    // ---------------------------------------------------------------- searching

    /** `node`, at position `p` before `r`, is the last one at `level` from which a step does not pass `r`. */
    ghost predicate Mark(key: K, node: Node<K>, p: nat, level: nat, r: nat)
      reads this
    {
      && p < r && p < |list| && list[p] == node && node.height > level
      && var z := NextIndex(list, Succ(p), level);
         z >= r && (z < |list| ==> !less(list[z].key, key))
    }

    /** `prev` and `at` hold marks for the levels from `low` to the top. */
    ghost predicate Marks(key: K, prev: seq<Node<K>>, at: seq<nat>, low: nat, r: nat)
      reads this
    {
      && |prev| == |at| == MAX_HEIGHT && curHeight <= MAX_HEIGHT
      && forall l :: low <= l < curHeight ==> Mark(key, prev[l], at[l], l, r)
    }

    /** A step right, to a key still less than the target, stays before every mark's bound. */
    lemma MarksStepRight(key: K, prev: seq<Node<K>>, at: seq<nat>, low: nat, p: nat, q: nat)
      requires Valid() && Marks(key, prev, at, low, p + 1) && p < q < |list| && less(list[q].key, key)
      ensures Marks(key, prev, at, low, q + 1)
    {
      forall l | low <= l < curHeight ensures Mark(key, prev[l], at[l], l, q + 1) {
        var z := NextIndex(list, Succ(at[l]), l);
        if z <= q {
          StaysNotLess(key, z, q);
        }
      }
    }

    lemma MarksStepDown(key: K, prev: seq<Node<K>>, at: seq<nat>, level: nat, p: nat)
      requires Valid() && Marks(key, prev, at, level + 1, p + 1) && p < |list| && list[p].height > level
      requires level < curHeight
      requires var q := NextIndex(list, Succ(p), level); q < |list| ==> !less(list[q].key, key)
      ensures Marks(key, prev[level := list[p]], at[level := p], level, p + 1)
    {
    }

    lemma LevelZero(p: nat)
      requires Valid() && p < |list|
      ensures NextIndex(list, Succ(p), 0) == Succ(p)
    {
      NextIndexIs(list, Succ(p), 0, Succ(p));
    }

    /** On level 0, the node before the first key not less than `key`. */
    lemma Landed(key: K, p: nat)
      requires Valid() && p < |list| && (p > 0 ==> less(list[p].key, key))
      requires list[p].next[0] != null ==> !less(list[p].next[0].key, key)
      ensures Stop(key) == p + 1 && list[p].next[0] == (if p + 1 < |list| then list[p + 1] else null)
    {
      LevelZero(p);
      StopIs(key, p);
    }

    /** The multi-level search stops on the node the linear scan stops on; `prev` holds the last node before it at each
        level. */
    method FindGreaterOrEqual(key: K) returns (x: Node?<K>, prev: seq<Node<K>>, ghost at: seq<nat>)
      requires Valid()
      ensures x == if Stop(key) < |list| then list[Stop(key)] else null
      ensures Marks(key, prev, at, 0, Stop(key))
    {
      var level: nat := curHeight - 1;
      var node: Node<K> := head;
      ghost var p: nat := 0;
      prev, at := seq(MAX_HEIGHT, i => head), seq(MAX_HEIGHT, i => 0);
      while true
        invariant 0 <= level < curHeight
        invariant p < |list| && node == list[p] && node.height > level && (p > 0 ==> less(node.key, key))
        invariant Marks(key, prev, at, level + 1, p + 1)
        decreases level, |list| - p
      {
        ghost var q := NextIndex(list, Succ(p), level);
        var next := node.next[level];
        if next != null && less(next.key, key) {
          MarksStepRight(key, prev, at, level + 1, p, q);
          node := next;
          p := q;
        } else {
          MarksStepDown(key, prev, at, level, p);
          prev, at := prev[level := node], at[level := p];
          if level == 0 {
            Landed(key, p);
            return next, prev, at;
          }
          level := level - 1;
        }
      }
    }

    method Contains(key: K) returns (found: bool)
      requires Valid()
      ensures found <==> exists k :: k in Contents() && !less(k, key) && !less(key, k)
    {
      var x, _, _ := FindGreaterOrEqual(key);
      found := x != null && !less(x.key, key) && !less(key, x.key);
      FoundIff(key);
    }

    lemma FoundIff(key: K)
      requires Valid()
      ensures (exists k :: k in Contents() && !less(k, key) && !less(key, k))
         <==> (Stop(key) < |list| && !less(key, list[Stop(key)].key))
    {
      var ks := Contents();
      var i := Find(less, ks, key);
      if k :| k in ks && !less(k, key) && !less(key, k) {
        var j :| 0 <= j < |ks| && ks[j] == k;
        assert i <= j;
        if i < j {
          assert !less(ks[j], ks[i]);
        }
      }
      if i < |ks| && !less(key, ks[i]) {
        assert ks[i] in ks;
      }
    }

    // ---------------------------------------------------------------- inserting

    /** A height between one and twelve, one level more for each draw divisible by four. */
    method RandomHeight() returns (h: nat)
      requires rng.Valid()
      modifies rng
      ensures rng.Valid() && Drawn(old(rng.seed), h, rng.seed)
    {
      h := 1;
      var draw := rng.Next();
      while h < MAX_HEIGHT && draw % BRANCHING == 0
        invariant rng.Valid() && 1 <= h <= MAX_HEIGHT
        invariant forall k :: 1 <= k < h ==> DrawAt(old(rng.seed), k) % 4 == 0
        invariant rng.seed == DrawAt(old(rng.seed), if h < 12 then h else 11)
        invariant h < 12 ==> draw == rng.seed
        decreases MAX_HEIGHT - h
      {
        h := h + 1;
        if h < MAX_HEIGHT {
          draw := rng.Next();
        }
      }
    }

    /** `prev[l]` is the last node before position `r` at every level below `h`. */
    ghost predicate Places(prev: seq<Node<K>>, at: seq<nat>, h: nat, r: nat)
      reads this
    {
      && |prev| == |at| == MAX_HEIGHT && h <= MAX_HEIGHT && r <= |list|
      && forall l :: 0 <= l < h ==>
           at[l] < r && list[at[l]] == prev[l] && prev[l].height > l && NextIndex(list, Succ(at[l]), l) >= r
    }

    /** Every node's links after the new node was put after `prev`. */
    ghost predicate Relinked(n: Node<K>, prev: seq<Node<K>>, h: nat)
      requires |prev| == MAX_HEIGHT
      reads this, list
    {
      forall p :: 0 <= p < |list| ==>
        && |list[p].next| == MAX_HEIGHT
        && forall l :: 0 <= l < list[p].height && l < MAX_HEIGHT ==>
             list[p].next[l] == if l < h && prev[l] == list[p] then n else NextAt(list, Succ(p), l)
    }

    lemma LinkBefore(n: Node<K>, prev: seq<Node<K>>, at: seq<nat>, r: nat, p: nat, l: nat)
      requires Distinct(list) && Places(prev, at, n.height, r) && Relinked(n, prev, n.height)
      requires p < r && l < list[p].height && l < MAX_HEIGHT
      ensures list[p].next[l] == NextAt(Spliced(list, n, r), Succ(p), l)
    {
      NextBefore(list, n, r, Succ(p), l);
      if l < n.height {
        var a := at[l];
        LastUnique(list, p, a, l, r);
        assert list[a] == prev[l];
      }
    }

    lemma LinkPast(n: Node<K>, prev: seq<Node<K>>, at: seq<nat>, r: nat, p: nat, l: nat)
      requires Distinct(list) && Places(prev, at, n.height, r) && Relinked(n, prev, n.height)
      requires r <= p < |list| && l < list[p].height && l < MAX_HEIGHT
      ensures list[p].next[l] == NextAt(Spliced(list, n, r), Succ(Succ(p)), l)
    {
      NextAfter(list, n, r, Succ(p), l);
      assert l < n.height ==> at[l] < p && prev[l] == list[at[l]] != list[p];
    }

    lemma LinkNew(n: Node<K>, prev: seq<Node<K>>, at: seq<nat>, r: nat, l: nat)
      requires Places(prev, at, n.height, r) && l < n.height
      ensures NextAt(list, Succ(at[l]), l) == NextAt(Spliced(list, n, r), Succ(r), l)
    {
      NextAfter(list, n, r, r, l);
      AtOrAfter(Succ(at[l]), l, r);
    }

    lemma LinkAt(n: Node<K>, prev: seq<Node<K>>, at: seq<nat>, r: nat, p: nat, l: nat)
      requires Distinct(list) && Places(prev, at, n.height, r) && Relinked(n, prev, n.height)
      requires |n.next| == MAX_HEIGHT && forall l :: 0 <= l < n.height ==> n.next[l] == NextAt(list, Succ(at[l]), l)
      requires p <= |list| && l < Spliced(list, n, r)[p].height && l < MAX_HEIGHT
      ensures var s := Spliced(list, n, r); |s[p].next| == MAX_HEIGHT && s[p].next[l] == NextAt(s, Succ(p), l)
    {
      SplicedAt(list, n, r);
      if p < r {
        LinkBefore(n, prev, at, r, p, l);
      } else if p == r {
        LinkNew(n, prev, at, r, l);
      } else {
        var q: nat := p - 1;
        LinkPast(n, prev, at, r, q, l);
        assert Succ(q) == p;
      }
    }

    lemma LinkedAfter(n: Node<K>, prev: seq<Node<K>>, at: seq<nat>, r: nat)
      requires Distinct(list) && Places(prev, at, n.height, r) && Relinked(n, prev, n.height)
      requires |n.next| == MAX_HEIGHT && forall l :: 0 <= l < n.height ==> n.next[l] == NextAt(list, Succ(at[l]), l)
      ensures Linked(Spliced(list, n, r))
    {
      var s := Spliced(list, n, r);
      SplicedAt(list, n, r);
      assert forall p :: 0 <= p < |s| ==> |s[p].next| == MAX_HEIGHT;
      forall p, l | 0 <= p < |s| && 0 <= l < s[p].height && l < MAX_HEIGHT
        ensures s[p].next[l] == NextAt(s, Succ(p), l)
      {
        LinkAt(n, prev, at, r, p, l);
      }
    }

    lemma AtOrAfter(q: nat, level: nat, r: nat)
      requires q <= r <= |list| && NextIndex(list, q, level) >= r
      ensures NextAt(list, q, level) == NextAt(list, r, level)
    {
      NextIndexIs(list, r, level, NextIndex(list, q, level));
    }

    /** The two linking loops: the new node takes over its predecessors' links, then they link to it. */
    method Link(n: Node<K>, prev: seq<Node<K>>, h: nat, ghost at: seq<nat>, ghost r: nat)
      requires Linked(list) && Distinct(list) && n !in list && h <= MAX_HEIGHT && Places(prev, at, h, r)
      requires |n.next| == MAX_HEIGHT
      modifies n`next, (set x | x in list)`next
      ensures Relinked(n, prev, h)
      ensures |n.next| == MAX_HEIGHT && forall l :: 0 <= l < h ==> n.next[l] == NextAt(list, Succ(at[l]), l)
    {
      TakeOver(n, prev, h, at, r);
      PointBack(n, prev, h, at, r);
    }

    method TakeOver(n: Node<K>, prev: seq<Node<K>>, h: nat, ghost at: seq<nat>, ghost r: nat)
      requires Linked(list) && n !in list && h <= MAX_HEIGHT && Places(prev, at, h, r)
      requires |n.next| == MAX_HEIGHT
      modifies n`next
      ensures Linked(list)
      ensures |n.next| == MAX_HEIGHT && forall l :: 0 <= l < h ==> n.next[l] == NextAt(list, Succ(at[l]), l)
    {
      var i := 0;
      while i < h
        invariant 0 <= i <= h && Linked(list) && |n.next| == MAX_HEIGHT
        invariant forall l :: 0 <= l < i ==> n.next[l] == NextAt(list, Succ(at[l]), l)
      {
        n.next := n.next[i := prev[i].next[i]];
        i := i + 1;
      }
    }

    /** The links as they were, but for those of `prev` below `h`, which go to the new node. */
    ghost predicate Pointed(n: Node<K>, prev: seq<Node<K>>, h: nat, was: seq<seq<Node?<K>>>)
      requires |prev| == MAX_HEIGHT
      reads this, list
    {
      |was| == |list| && forall p :: 0 <= p < |list| ==>
        && |list[p].next| == MAX_HEIGHT == |was[p]|
        && forall l :: 0 <= l < MAX_HEIGHT ==>
             list[p].next[l] == if l < h && prev[l] == list[p] then n else was[p][l]
    }

    method PointBack(n: Node<K>, prev: seq<Node<K>>, h: nat, ghost at: seq<nat>, ghost r: nat)
      requires Linked(list) && n !in list && h <= MAX_HEIGHT && Places(prev, at, h, r)
      modifies (set x | x in list)`next
      ensures Relinked(n, prev, h)
    {
      ghost var nodes := list;
      ghost var was := seq(|nodes|, p requires 0 <= p < |nodes| reads nodes => nodes[p].next);
      PointAll(n, prev, h, at, r, was);
    }

    method PointAll(n: Node<K>, prev: seq<Node<K>>, h: nat, ghost at: seq<nat>, ghost r: nat,
                    ghost was: seq<seq<Node?<K>>>)
      requires h <= MAX_HEIGHT && Places(prev, at, h, r) && Pointed(n, prev, 0, was)
      modifies (set x | x in list)`next
      ensures Pointed(n, prev, h, was)
    {
      var i := 0;
      while i < h
        invariant 0 <= i <= h && Pointed(n, prev, i, was)
      {
        assert list[at[i]] == prev[i];
        PointOne(n, prev, i, prev[i], was);
        i := i + 1;
      }
    }

    method PointOne(n: Node<K>, prev: seq<Node<K>>, i: nat, a: Node<K>, ghost was: seq<seq<Node?<K>>>)
      requires i < |prev| == MAX_HEIGHT && a == prev[i] && a in list && Pointed(n, prev, i, was)
      modifies a`next
      ensures Pointed(n, prev, i + 1, was)
    {
      a.next := a.next[i := n];
    }

    /** Levels above the current height start at `head`. */
    method Raise(key: K, prev: seq<Node<K>>, ghost at: seq<nat>, h: nat)
      returns (prev': seq<Node<K>>, ghost at': seq<nat>)
      requires Valid() && Marks(key, prev, at, 0, Stop(key)) && 1 <= h <= MAX_HEIGHT
      modifies `curHeight
      ensures Valid() && curHeight >= h && Places(prev', at', h, Stop(key))
    {
      prev', at' := PlaceHead(prev, at, h, Stop(key));
      if h > curHeight {
        curHeight := h;
      }
    }

    method PlaceHead(prev: seq<Node<K>>, ghost at: seq<nat>, h: nat, ghost r: nat)
      returns (prev': seq<Node<K>>, ghost at': seq<nat>)
      requires Valid() && 0 < r && Places(prev, at, curHeight, r) && h <= MAX_HEIGHT
      ensures Places(prev', at', h, r)
    {
      prev', at' := prev, at;
      var i := curHeight;
      while i < h
        invariant curHeight <= i && (i <= h || i == curHeight) && Places(prev', at', i, r)
      {
        HeadPlaced(prev', at', i, r);
        prev', at' := prev'[i := head], at'[i := 0];
        i := i + 1;
      }
    }

    lemma HeadPlaced(prev: seq<Node<K>>, at: seq<nat>, level: nat, r: nat)
      requires Valid() && curHeight <= level < MAX_HEIGHT && Places(prev, at, level, r) && 0 < r
      ensures Places(prev[level := head], at[level := 0], level + 1, r)
    {
      EmptyLevel(level);
    }

    /** No node but `head` reaches a level at or above the current height. */
    lemma EmptyLevel(level: nat)
      requires Valid() && curHeight <= level
      ensures NextIndex(list, Succ(0), level) == |list|
    {
      NextIndexIs(list, Succ(0), level, |list|);
    }

    /** Insertion puts exactly one key into the list, before the first key not less than it, whatever height is drawn.
        */
    method Insert(key: K)
      requires Valid()
      modifies this, rng, list
      ensures Valid() && (forall x :: x in list ==> x in old(list) || fresh(x))
      ensures Contents() == Inserted(less, old(Contents()), key) && Arenas.Grown(old(arena), arena, NODE_SIZE)
    {
      var prev, h, at := Locate(key);
      var n := NewNode(key, h);
      InsertNode(n, prev, h, at);
    }

    /** The search, and the height of the new node. */
    method Locate(key: K) returns (prev: seq<Node<K>>, h: nat, ghost at: seq<nat>)
      requires Valid()
      modifies `curHeight, rng
      ensures Valid() && 1 <= h <= curHeight && Places(prev, at, h, Stop(key))
    {
      var found;
      found, prev, at := FindGreaterOrEqual(key);
      h := RandomHeight();
      prev, at := Raise(key, prev, at, h);
    }

    method NewNode(key: K, ghost height: nat) returns (n: Node<K>)
      modifies `arena
      ensures fresh(n) && n.key == key && n.height == height && |n.next| == MAX_HEIGHT
      ensures Arenas.Grown(old(arena), arena, NODE_SIZE)
    {
      Allocate(NODE_SIZE);
      n := new Node(key, height);
    }

    /** An aligned request to the arena. */
    method Allocate(bytes: nat)
      modifies `arena
      ensures Arenas.Grown(old(arena), arena, bytes)
    {
      arena := AlignedCall(arena, bytes);
    }

    /** Room for a key's own bytes. */
    method AllocateKey(bytes: nat)
      requires Valid()
      modifies `arena
      ensures Valid() && Contents() == old(Contents()) && Arenas.Grown(old(arena), arena, bytes)
    {
      Allocate(bytes);
    }

    method InsertNode(n: Node<K>, prev: seq<Node<K>>, h: nat, ghost at: seq<nat>)
      requires Valid() && n !in list && n.height == h && 1 <= h <= curHeight && |n.next| == MAX_HEIGHT
      requires Places(prev, at, h, Stop(n.key))
      modifies `list, n`next, (set x | x in list)`next
      ensures Valid() && (forall x :: x in list ==> x in old(list) || x == n)
      ensures Contents() == Inserted(less, old(Contents()), n.key)
    {
      ghost var r := Stop(n.key);
      SplicedShape(n, r);
      SplicedKeys(n, r);
      InsertedInOrder(less, Contents(), n.key);
      Link(n, prev, h, at, r);
      LinkedAfter(n, prev, at, r);
      list := Spliced(list, n, r);
    }

    lemma SplicedShape(n: Node<K>, r: nat)
      requires Valid() && n !in list && 1 <= n.height <= curHeight && 1 <= r <= |list|
      ensures var s := Spliced(list, n, r);
        && Distinct(s) && s[0] == head && (forall p :: 1 <= p < |s| ==> 1 <= s[p].height <= curHeight)
        && (forall x :: x in s ==> x in list || x == n)
    {
      SplicedAt(list, n, r);
    }

    lemma SplicedKeys(n: Node<K>, r: nat)
      requires list != [] && r == Stop(n.key)
      ensures Keys(Spliced(list, n, r)[1..]) == Inserted(less, Contents(), n.key)
    {
      SplicedAt(list, n, r);
    }

    /** Following a link at any level goes forward, to the next node high enough to be on it, which is then
        on every lower level too. So each level is an ordered sublist of the one below. */
    lemma LevelStep(p: nat, level: nat)
      requires Valid() && p < |list| && level < list[p].height && level < MAX_HEIGHT && list[p].next[level] != null
      ensures var q := NextIndex(list, Succ(p), level);
        && p < q < |list| && list[p].next[level] == list[q]
        && (forall j :: p < j < q ==> list[j].height <= level)
        && list[q].height > level
        && (p > 0 ==> !less(list[q].key, list[p].key))
    {
      var q := NextIndex(list, Succ(p), level);
      var ks := Contents();
      assert p > 0 && q < |list| ==> ks[p - 1] == list[p].key && ks[q - 1] == list[q].key;
    }
  }

  class Iterator<K(!new)> {
    const list: SkipList<K>
    var node: Node?<K>
    /** The node's place in the list's order. */
    ghost var at: nat

    ghost predicate Valid()
      reads this, list, list.rng, list.list
    {
      && list.Valid() && at <= |list.Contents()|
      && node == if at < |list.Contents()| then list.list[at + 1] else null
    }

    constructor (list: SkipList<K>)
      requires list.Valid()
      ensures Valid() && this.list == list && at == |list.Contents()|
    {
      this.list := list;
      node := null;
      at := |list.Contents()|;
    }

    function Key(): (key: K)
      requires Valid() && node != null
      reads this, list, list.rng, list.list
      ensures at < |list.Contents()| && key == list.Contents()[at]
    {
      node.key
    }

    method SeekToFirst()
      requires Valid()
      modifies this
      ensures Valid() && at == 0
    {
      list.LevelZero(0);
      node := list.head.next[0];
      at := 0;
    }

    /** The place in a list in order, as one value. */
    ghost function Place(): Option<nat>
      reads this, list, list.rng, list.list
    {
      if Valid() then Some(at) else None
    }

    /** The bottom link leads to the next place. */
    lemma Follows(p: nat)
      requires Valid() && node != null && p == at + 1
      ensures p <= |list.Contents()| && |node.next| > 0
      ensures node.next[0] == if p < |list.Contents()| then list.list[p + 1] else null
    {
      list.LevelZero(p);
    }

    method Next()
      requires Valid() && node != null
      modifies this
      ensures Place() == Some(old(at) + 1)
    {
      Follows(at + 1);
      node := node.next[0];
      at := at + 1;
    }

    method Seek(target: K)
      requires Valid()
      modifies this
      ensures Valid() && at == Find(list.less, list.Contents(), target)
    {
      var found, _, _ := list.FindGreaterOrEqual(target);
      node := found;
      at := Find(list.less, list.Contents(), target);
    }
  }
}
