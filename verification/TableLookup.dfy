/** Lookup in a built table against the newest version in the entry list. */
module TableLookup {
  import opened Bytes
  import opened Checksums
  import opened Coding
  import opened DbFormat
  import opened BlockFormat
  import opened BlockProofs
  import opened Format
  import opened TableFormat
  import opened TableProofs
  import Seqs

  // ---------------------------------------------------------------- positions across blocks

  /** How many entries stand before block `j`. */
  function Ahead(blocks: seq<seq<Entry>>, j: nat): nat
    requires j <= |blocks|
  {
    |Concat(blocks[..j])|
  }

  lemma AheadStep(blocks: seq<seq<Entry>>, j: nat)
    requires j < |blocks|
    ensures Concat(blocks[..j + 1]) == Concat(blocks[..j]) + blocks[j]
    ensures Ahead(blocks, j + 1) == Ahead(blocks, j) + |blocks[j]|
  {
    assert blocks[..j + 1][..j] == blocks[..j];
  }

  lemma {:induction false} ConcatPrefix(blocks: seq<seq<Entry>>, j: nat)
    requires j <= |blocks|
    ensures Concat(blocks[..j]) <= Concat(blocks)
    decreases |blocks| - j
  {
    if j == |blocks| {
      Seqs.TakeAll(blocks);
    } else {
      ConcatPrefix(blocks, j + 1);
      AheadStep(blocks, j);
    }
  }

  lemma {:induction false} AheadMonotone(blocks: seq<seq<Entry>>, i: nat, j: nat)
    requires i <= j <= |blocks|
    ensures Ahead(blocks, i) <= Ahead(blocks, j)
    decreases j - i
  {
    if i < j {
      AheadMonotone(blocks, i, j - 1);
      AheadStep(blocks, j - 1);
    }
  }

  lemma EntryIn(blocks: seq<seq<Entry>>, j: nat, k: nat, p: nat)
    requires j < |blocks| && k < |blocks[j]| && p == Ahead(blocks, j) + k
    ensures p < |Concat(blocks)| && Concat(blocks)[p] == blocks[j][k]
  {
    AheadStep(blocks, j);
    ConcatPrefix(blocks, j + 1);
    var part := Concat(blocks[..j + 1]);
    assert Concat(blocks)[p] == part[p];
  }

  /** The block that holds entry `i`, or the number of blocks when `i` is past the end. */
  lemma {:induction false} LocateBlock(blocks: seq<seq<Entry>>, i: nat, n: nat) returns (m: nat)
    requires n <= |blocks| && i <= Ahead(blocks, n)
    ensures m <= n && Ahead(blocks, m) <= i
    ensures if m < n then i < Ahead(blocks, m + 1) else i == Ahead(blocks, n)
    decreases n
  {
    if i == Ahead(blocks, n) {
      m := n;
    } else if i < Ahead(blocks, n - 1) {
      m := LocateBlock(blocks, i, n - 1);
    } else {
      m := n - 1;
    }
  }

  // ---------------------------------------------------------------- the two levels

  lemma IndexKey(sum: Sum, blocks: seq<seq<Entry>>, j: nat, k: nat, last: nat)
    requires NonEmpty(blocks) && j < |blocks| && k == |blocks[j]| - 1 && last == Ahead(blocks, j) + k
    ensures last < |Concat(blocks)| && IndexOf(sum, blocks)[j].ikey == Concat(blocks)[last].ikey
  {
    IndexAt(sum, blocks, j);
    EntryIn(blocks, j, k, last);
  }

  /** The last entry of block `j` comes before entry `i` just when `j` comes before `i`'s block `m`. */
  lemma LastBefore(blocks: seq<seq<Entry>>, i: nat, m: nat, j: nat, last: nat)
    requires m <= |blocks| && Ahead(blocks, m) <= i && (m < |blocks| ==> i < Ahead(blocks, m + 1))
    requires j < |blocks| && blocks[j] != [] && last == Ahead(blocks, j) + |blocks[j]| - 1
    ensures last < i <==> j < m
  {
    AheadStep(blocks, j);
    if j < m {
      AheadMonotone(blocks, j + 1, m);
    } else {
      AheadMonotone(blocks, m + 1, j + 1);
    }
  }

  lemma IndexNotLess(sum: Sum, blocks: seq<seq<Entry>>, es: seq<Entry>, user: bytes, f: nat, m: nat, j: nat)
    requires es == Concat(blocks) && NonEmpty(blocks) && NoneLessFrom(es, user, f) && m <= |blocks|
      && Ahead(blocks, m) <= f
    requires (m < |blocks| ==> f < Ahead(blocks, m + 1)) && m <= j < |blocks|
    ensures !Less(IndexOf(sum, blocks)[j].ikey, user)
  {
    var k: nat := |blocks[j]| - 1;
    var last := Ahead(blocks, j) + k;
    IndexKey(sum, blocks, j, k, last);
    LastBefore(blocks, f, m, j, last);
  }

  /** In the index nothing is less than `user` from the block of entry `f` on. */
  lemma IndexBound(sum: Sum, blocks: seq<seq<Entry>>, user: bytes, f: nat, m: nat)
    requires NonEmpty(blocks) && NoneLessFrom(Concat(blocks), user, f) && m <= |blocks| && Ahead(blocks, m) <= f
    requires m < |blocks| ==> f < Ahead(blocks, m + 1)
    ensures NoneLessFrom(IndexOf(sum, blocks), user, m)
  {
    forall j | m <= j < |blocks| ensures !Less(IndexOf(sum, blocks)[j].ikey, user) {
      IndexNotLess(sum, blocks, Concat(blocks), user, f, m, j);
    }
  }

  /** The bound within block `m`. */
  function LocalBound(blocks: seq<seq<Entry>>, f: nat, m: nat): (g: nat)
    requires m < |blocks| && Ahead(blocks, m) <= f
    ensures g <= |blocks[m]|
  {
    if f - Ahead(blocks, m) < |blocks[m]| then f - Ahead(blocks, m) else |blocks[m]|
  }

  lemma DataBound(blocks: seq<seq<Entry>>, user: bytes, f: nat, m: nat)
    requires NoneLessFrom(Concat(blocks), user, f) && m < |blocks| && Ahead(blocks, m) <= f
    ensures NoneLessFrom(blocks[m], user, LocalBound(blocks, f, m))
  {
    forall k | LocalBound(blocks, f, m) <= k < |blocks[m]| ensures !Less(blocks[m][k].ikey, user) {
      EntryIn(blocks, m, k, Ahead(blocks, m) + k);
    }
  }

  /** What the entry at position `i` of the list tells about `user`. */
  function Told(es: seq<Entry>, user: bytes, i: nat): LookupState
    requires Tagged(es) && i <= |es|
  {
    if i < |es| && UserKey(es[i].ikey) == user then Answer(es[i]) else NotFound
  }

  lemma SeekBuilt(es: seq<Entry>, user: bytes, f: nat) returns (i: nat)
    requires Fits(es) && NoneLessFrom(es, user, f)
    ensures i <= f && On(es, SeekBlock(BlockOf(es), user), i) && (i < |es| ==> !Less(es[i].ikey, user))
    ensures |es| <= RESTART_INTERVAL ==> forall k :: 0 <= k < i ==> Less(es[k].ikey, user)
  {
    OpenBuilt(es);
    i := SeekLands(es, OpenBlock(BlockOf(es)), START, user, f);
  }

  lemma GetPast(sum: Sum, file: bytes, index: seq<Entry>, user: bytes, m: nat)
    requires On(index, SeekBlock(BlockOf(index), user), m) && m == |index|
    ensures GetIn(sum, file, BlockOf(index), user) == NotFound
  {
  }

  lemma GetAt(sum: Sum, file: bytes, index: seq<Entry>, user: bytes, m: nat, contents: bytes)
    requires m < |index| && On(index, SeekBlock(BlockOf(index), user), m)
    requires var h := DecodeHandle(index[m].value); h.Some? && ReadBlock(sum, file, h.value.0) == Ok(contents)
    ensures GetIn(sum, file, BlockOf(index), user) == Judge(SeekBlock(contents, user), user)
  {
  }

  lemma TaggedBlock(blocks: seq<seq<Entry>>, m: nat)
    requires Tagged(Concat(blocks)) && m < |blocks|
    ensures Tagged(blocks[m])
  {
    forall k | 0 <= k < |blocks[m]| ensures |blocks[m][k].ikey| >= 8 {
      EntryIn(blocks, m, k, Ahead(blocks, m) + k);
    }
  }

  lemma JudgeOn(data: seq<Entry>, it: Iter, user: bytes, i: nat)
    requires Tagged(data) && i <= |data| && On(data, it, i)
    ensures Judge(it, user) == Told(data, user, i)
  {
  }

  /** A landing inside a data block, as a position in the whole list. */
  lemma ToldInBlock(blocks: seq<seq<Entry>>, user: bytes, m: nat, i': nat, i: nat)
    requires Tagged(Concat(blocks)) && m < |blocks| && i' < |blocks[m]| && i == Ahead(blocks, m) + i'
    ensures i < |Concat(blocks)| && Concat(blocks)[i] == blocks[m][i'] && Tagged(blocks[m])
    ensures Told(blocks[m], user, i') == Told(Concat(blocks), user, i)
  {
    TaggedBlock(blocks, m);
    EntryIn(blocks, m, i', i);
  }

  /** The seek inside data block `m`, whose last key is not less than `user`. */
  lemma LandInBlock(blocks: seq<seq<Entry>>, user: bytes, f: nat, m: nat) returns (i: nat)
    requires NoneLessFrom(Concat(blocks), user, f) && Tagged(Concat(blocks))
    requires m < |blocks| && blocks[m] != [] && Ahead(blocks, m) <= f && Fits(blocks[m])
    requires !Less(blocks[m][|blocks[m]| - 1].ikey, user)
    ensures i <= f && i < |Concat(blocks)| && !Less(Concat(blocks)[i].ikey, user)
    ensures Judge(SeekBlock(BlockOf(blocks[m]), user), user) == Told(Concat(blocks), user, i)
    ensures |blocks[m]| <= RESTART_INTERVAL ==>
      forall k :: Ahead(blocks, m) <= k < i ==> Less(Concat(blocks)[k].ikey, user)
  {
    var data := blocks[m];
    var g := LocalBound(blocks, f, m);
    DataBound(blocks, user, f, m);
    if g == |data| {
      g := |data| - 1;
    }
    var i' := SeekBuilt(data, user, g);
    i := Ahead(blocks, m) + i';
    ToldInBlock(blocks, user, m, i', i);
    JudgeOn(data, SeekBlock(BlockOf(data), user), user, i');
    if |data| <= RESTART_INTERVAL {
      forall k | Ahead(blocks, m) <= k < i ensures Less(Concat(blocks)[k].ikey, user) {
        EntryIn(blocks, m, k - Ahead(blocks, m), k);
      }
    }
  }

  /** Whatever the keys, a table lookup tells what some entry not less than `user` tells, and that entry
      comes no later than `f`; with the keys in one restart interval it is the first such entry. */
  lemma TableGetLands(sum: Sum, blocks: seq<seq<Entry>>, user: bytes, f: nat) returns (i: nat)
    requires TableFits(sum, blocks) && NonEmpty(blocks) && Tagged(Concat(blocks))
      && NoneLessFrom(Concat(blocks), user, f)
    ensures i <= f && (i < |Concat(blocks)| ==> !Less(Concat(blocks)[i].ikey, user))
    ensures TableGet(sum, TableFile(sum, blocks), user) == Told(Concat(blocks), user, i)
  {
    var index, file := IndexOf(sum, blocks), TableFile(sum, blocks);
    OpenBuiltTable(sum, blocks);
    Seqs.TakeAll(blocks);
    var m := LocateBlock(blocks, f, |blocks|);
    IndexBound(sum, blocks, user, f, m);
    var n := SeekBuilt(index, user, m);
    if n == |blocks| {
      GetPast(sum, file, index, user, n);
      i := f;
    } else {
      i := LandAtIndex(sum, blocks, user, f, m, n);
    }
  }

  lemma LandAtIndex(sum: Sum, blocks: seq<seq<Entry>>, user: bytes, f: nat, m: nat, n: nat) returns (i: nat)
    requires TableFits(sum, blocks) && NonEmpty(blocks) && Tagged(Concat(blocks))
      && NoneLessFrom(Concat(blocks), user, f)
    requires n < |blocks| && n <= m <= |blocks| && Ahead(blocks, m) <= f
    requires var index := IndexOf(sum, blocks);
      On(index, SeekBlock(BlockOf(index), user), n) && !Less(index[n].ikey, user)
    ensures i <= f && i < |Concat(blocks)| && !Less(Concat(blocks)[i].ikey, user)
    ensures GetIn(sum, TableFile(sum, blocks), BlockOf(IndexOf(sum, blocks)), user) == Told(Concat(blocks), user, i)
    ensures |blocks[n]| <= RESTART_INTERVAL ==>
      forall k :: Ahead(blocks, n) <= k < i ==> Less(Concat(blocks)[k].ikey, user)
  {
    AheadMonotone(blocks, n, m);
    IndexAt(sum, blocks, n);
    ReadDataBlock(sum, blocks, n);
    GetAt(sum, TableFile(sum, blocks), IndexOf(sum, blocks), user, n, BlockOf(blocks[n]));
    i := LandInBlock(blocks, user, f, n);
  }

  // ---------------------------------------------------------------- bytewise search in comparator order

  /** The tag's low byte, the first after the user key, is a value type. */
  predicate Typed(ikey: bytes) {
    |ikey| >= 8 && ikey[|ikey| - 8] <= TYPE_VALUE
  }

  /** The internal key of `stored` that comes last bytewise. */
  function Topmost(stored: bytes): bytes {
    InternalKey(stored, MAX_SEQUENCE, TYPE_VALUE)
  }

  /** When `stored` is a proper prefix of `user`, even its bytewise last version is less than `user`. */
  predicate Apart(stored: bytes, user: bytes) {
    stored < user ==> Less(Topmost(stored), user)
  }

  /** The tag bytes of the topmost version: the value type, then the greatest sequence number. */
  const TOP_TAG: bytes := [TYPE_VALUE, 255, 255, 255, 255, 255, 255, 255]

  lemma TopmostIs(stored: bytes)
    ensures Topmost(stored) == stored + TOP_TAG
  {
    FixedOnto(TOP_TAG);
    assert FromFixed(TOP_TAG[7..]) == 255;
    assert FromFixed(TOP_TAG[6..]) == 0xffff;
    assert FromFixed(TOP_TAG[5..]) == 0xff_ffff;
    assert FromFixed(TOP_TAG[4..]) == 0xffff_ffff;
    assert FromFixed(TOP_TAG[3..]) == 0xff_ffff_ffff;
    assert FromFixed(TOP_TAG[2..]) == 0xffff_ffff_ffff;
    assert FromFixed(TOP_TAG[1..]) == MAX_SEQUENCE;
    assert FromFixed(TOP_TAG) == Tag(MAX_SEQUENCE, TYPE_VALUE);
  }

  lemma BelowTopmost(ikey: bytes)
    requires Typed(ikey)
    ensures ikey == Topmost(UserKey(ikey)) || Less(ikey, Topmost(UserKey(ikey)))
  {
    var u := UserKey(ikey);
    var top := Topmost(u);
    TopmostIs(u);
    var n := SharedPrefix(ikey, top);
    assert forall i :: 0 <= i < |u| ==> ikey[i] == u[i] == top[i];
    if n < |ikey| {
      assert top[n] == TOP_TAG[n - |u|];
      LessAt(ikey, top, n);
    }
  }

  /** Then comparing the internal key with `user` is comparing the user keys. */
  lemma LessByUserKey(ikey: bytes, user: bytes)
    requires Typed(ikey) && Apart(UserKey(ikey), user)
    ensures Less(ikey, user) <==> Less(UserKey(ikey), user)
  {
    var u := UserKey(ikey);
    var n := SharedPrefix(u, user);
    assert ikey[..|u|] == u;
    if n < |user| && n == |u| {
      PrefixLess(ikey, u, user);
    } else if n < |user| && u[n] < user[n] {
      assert ikey[..n] == u[..n];
      LessAt(ikey, user, n);
    } else {
      assert user[..n] == ikey[..n] by { assert ikey[..n] == u[..n]; }
      LessAt(user, ikey, n);
      LessTrichotomy(ikey, user);
    }
  }

  lemma PrefixLess(ikey: bytes, u: bytes, user: bytes)
    requires Typed(ikey) && u == UserKey(ikey) && Apart(u, user) && |u| < |user| && user[..|u|] == u
    ensures Less(ikey, user)
  {
    assert u < user;
    BelowTopmost(ikey);
    if ikey != Topmost(u) {
      LessTransitive(ikey, Topmost(u), user);
    }
  }

  lemma {:induction false} LessCancel(p: bytes, a: bytes, b: bytes)
    ensures Less(p + a, p + b) <==> Less(a, b)
    decreases |p|
  {
    if p == [] {
      Seqs.Nil(a);
      Seqs.Nil(b);
    } else {
      Seqs.DropLeft(p, a, 1);
      Seqs.DropLeft(p, b, 1);
      LessCancel(p[1..], a, b);
      LessCons(p[0], p[1..] + a, p[1..] + b, p + a, p + b);
    }
  }

  lemma LessCons(x: byte, a: bytes, b: bytes, a': bytes, b': bytes)
    requires a' != [] && b' != [] && a'[0] == b'[0] == x && a'[1..] == a && b'[1..] == b
    ensures Less(a', b') <==> Less(a, b)
  {
  }

  /** In bytes: the byte of `user` after `stored` is at least 2, or it is 1 and what follows exceeds every sequence
      number. */
  lemma ApartMeans(stored: bytes, b: byte, rest: bytes)
    ensures Apart(stored, stored + [b] + rest) <==> b >= 2 || (b == 1 && Less(TOP_TAG[1..], rest))
  {
    var user := stored + [b] + rest;
    assert user == stored + ([b] + rest);
    assert stored < user;
    TopmostIs(stored);
    LessCancel(stored, TOP_TAG, [b] + rest);
    if b == 1 {
      LessCons(1, TOP_TAG[1..], rest, TOP_TAG, [b] + rest);
    } else if b == 0 {
      LessAt([b] + rest, TOP_TAG, 0);
      LessTrichotomy([b] + rest, TOP_TAG);
    } else {
      LessAt(TOP_TAG, [b] + rest, 0);
    }
  }

  /** A sufficient condition that looks at one byte. */
  lemma ApartByByte(stored: bytes, user: bytes)
    requires stored < user ==> user[|stored|] >= 2
    ensures Apart(stored, user)
  {
    if stored < user {
      var b, rest := user[|stored|], user[|stored| + 1..];
      assert user == stored + [b] + rest;
      ApartMeans(stored, b, rest);
    }
  }

  predicate AllTyped(es: seq<Entry>) {
    forall j :: 0 <= j < |es| ==> Typed(es[j].ikey)
  }

  predicate AllApart(es: seq<Entry>, user: bytes)
    requires Tagged(es)
  {
    forall j :: 0 <= j < |es| ==> Apart(UserKey(es[j].ikey), user)
  }

  /** The first entry whose user key is not less than `user`. */
  function FirstNotLess(es: seq<Entry>, user: bytes): (i: nat)
    requires Tagged(es)
    ensures i <= |es|
    ensures forall j :: 0 <= j < i ==> Less(UserKey(es[j].ikey), user)
    ensures i < |es| ==> !Less(UserKey(es[i].ikey), user)
    decreases |es|
  {
    if es == [] || !Less(UserKey(es[0].ikey), user) then 0 else
    var n := FirstNotLess(es[1..], user);
    assert forall j :: 0 < j <= n ==> es[j] == es[1..][j - 1];
    n + 1
  }

  lemma NotLessChain(a: bytes, b: bytes, user: bytes)
    requires !Less(b, a) && !Less(a, user)
    ensures !Less(b, user) && (b == user ==> a == user)
  {
    LessTrichotomy(a, user);
    if Less(b, user) && Less(user, a) {
      LessTransitive(b, user, a);
    }
  }

  lemma UserKeysAscend(es: seq<Entry>, user: bytes, i: nat, j: nat)
    requires Sorted(es) && i <= j < |es| && !Less(UserKey(es[i].ikey), user)
    ensures !Less(UserKey(es[j].ikey), user)
    ensures UserKey(es[j].ikey) == user ==> UserKey(es[i].ikey) == user
  {
    var a, b := UserKey(es[i].ikey), UserKey(es[j].ikey);
    LessTrichotomy(a, a);
    assert !Less(b, a);
    NotLessChain(a, b, user);
  }

  /** From the first user key not less than `user` on, no internal key is less either. */
  lemma SortedBound(es: seq<Entry>, user: bytes)
    requires Sorted(es)
    ensures NoneLessFrom(es, user, FirstNotLess(es, user))
  {
    var f := FirstNotLess(es, user);
    forall j | f <= j < |es| ensures !Less(es[j].ikey, user) {
      UserKeysAscend(es, user, f, j);
      NotLessTagged(es[j].ikey, user);
    }
  }

  lemma NotLessTagged(ikey: bytes, user: bytes)
    requires |ikey| >= 8 && !Less(UserKey(ikey), user)
    ensures !Less(ikey, user)
  {
    var u := UserKey(ikey);
    var n := SharedPrefix(user, u);
    LessTrichotomy(u, user);
    assert ikey[..n] == u[..n];
    LessAt(user, ikey, n);
    LessTrichotomy(ikey, user);
  }

  lemma ToldAtFirst(es: seq<Entry>, user: bytes)
    requires Sorted(es)
    ensures Told(es, user, FirstNotLess(es, user)) == Lookup(es, user)
  {
    var f := FirstNotLess(es, user);
    LessTrichotomy(user, user);
    if f < |es| && UserKey(es[f].ikey) == user {
      assert FirstAt(es, user, f);
      LookupFirst(es, user, f);
    } else {
      forall j | 0 <= j < |es| ensures UserKey(es[j].ikey) != user {
        if j >= f {
          UserKeysAscend(es, user, f, j);
        }
      }
      LookupAbsent(es, user);
    }
  }

  lemma ToldBefore(es: seq<Entry>, user: bytes, i: nat)
    requires Sorted(es) && i < FirstNotLess(es, user)
    ensures Told(es, user, i) == NotFound
  {
    LessTrichotomy(user, user);
  }

  /** No lookup is ever wrong about a key: it finds the newest version or, at worst, nothing. */
  lemma TableGetNeverWrong(sum: Sum, es: seq<Entry>, user: bytes)
    requires Sorted(es) && TableFits(sum, BlocksOf(es))
    ensures var r := TableGet(sum, BuildTable(sum, es), user); r == Lookup(es, user) || r == NotFound
  {
    var f := FirstNotLess(es, user);
    BlocksHold(es);
    SortedBound(es, user);
    var i := TableGetLands(sum, BlocksOf(es), user, f);
    if i == f {
      ToldAtFirst(es, user);
    } else {
      ToldBefore(es, user, i);
    }
  }

  /** In comparator order "internal key less than `user`" is true, then false, although that order is not bytewise. */
  lemma SortedParted(es: seq<Entry>, user: bytes)
    requires Sorted(es) && AllTyped(es) && AllApart(es, user)
    ensures Parted(es, user, FirstNotLess(es, user))
  {
    SortedBound(es, user);
    forall j | 0 <= j < FirstNotLess(es, user) ensures Less(es[j].ikey, user) {
      LessByUserKey(es[j].ikey, user);
    }
  }

  lemma PartedLands(es: seq<Entry>, user: bytes, f: nat, i: nat)
    requires Parted(es, user, f) && i <= f && (i < |es| ==> !Less(es[i].ikey, user))
    ensures i == f
  {
  }

  /** For every sorted entry list and every sought key set apart from the stored ones, building a table
      and looking the key up in it tells what the key's newest version says. */
  lemma TableGetCorrect(sum: Sum, es: seq<Entry>, user: bytes)
    requires Sorted(es) && AllTyped(es) && AllApart(es, user) && TableFits(sum, BlocksOf(es))
    ensures TableGet(sum, BuildTable(sum, es), user) == Lookup(es, user)
  {
    var f := FirstNotLess(es, user);
    BlocksHold(es);
    SortedParted(es, user);
    var i := TableGetLands(sum, BlocksOf(es), user, f);
    PartedLands(es, user, f, i);
    ToldAtFirst(es, user);
  }

  // ---------------------------------------------------------------- exactly when a small table is right

  /** `user` is stored, and some entry before it is not bytewise less than `user`. */
  ghost predicate Blocked(es: seq<Entry>, user: bytes)
    requires Tagged(es)
  {
    && Lookup(es, user) != NotFound
    && exists j :: 0 <= j < FirstNotLess(es, user) && !Less(es[j].ikey, user)
  }

  lemma LandsWhereFirst(es: seq<Entry>, user: bytes, i: nat)
    requires Sorted(es) && i < |es| && i <= FirstNotLess(es, user) && !Less(es[i].ikey, user)
    requires forall k :: 0 <= k < i ==> Less(es[k].ikey, user)
    ensures Told(es, user, i) == Lookup(es, user) <==> !Blocked(es, user)
  {
    var f := FirstNotLess(es, user);
    if i < f {
      LandsBefore(es, user, f, i);
    } else {
      LandsFirst(es, user, i);
    }
  }

  lemma LandsBefore(es: seq<Entry>, user: bytes, f: nat, i: nat)
    requires Sorted(es) && f == FirstNotLess(es, user) && i < f && i < |es| && !Less(es[i].ikey, user)
    ensures Told(es, user, i) == Lookup(es, user) <==> !Blocked(es, user)
  {
    ToldBefore(es, user, i);
    BlockedIs(es, user, f, i);
  }

  lemma LandsFirst(es: seq<Entry>, user: bytes, f: nat)
    requires Sorted(es) && f == FirstNotLess(es, user) && forall k :: 0 <= k < f ==> Less(es[k].ikey, user)
    ensures Told(es, user, f) == Lookup(es, user) && !Blocked(es, user)
  {
    ToldAtFirst(es, user);
  }

  lemma BlockedIs(es: seq<Entry>, user: bytes, f: nat, i: nat)
    requires Sorted(es) && f == FirstNotLess(es, user) && i < f && i < |es| && !Less(es[i].ikey, user)
    ensures Blocked(es, user) <==> Lookup(es, user) != NotFound
  {
  }

  lemma AheadOfOne(blocks: seq<seq<Entry>>, es: seq<Entry>)
    requires blocks == [es]
    ensures Concat(blocks) == es && Ahead(blocks, 0) == 0 && Ahead(blocks, 1) == |es|
  {
    assert blocks[..0] == [] && blocks[..1] == blocks;
    Seqs.Nil(es);
  }

  lemma SmallPast(sum: Sum, es: seq<Entry>, user: bytes, blocks: seq<seq<Entry>>, n: nat)
    requires Sorted(es) && TableFits(sum, blocks) && blocks == [es] && n == 1 && FirstNotLess(es, user) == |es|
    requires On(IndexOf(sum, blocks), SeekBlock(BlockOf(IndexOf(sum, blocks)), user), n)
    ensures TableGet(sum, TableFile(sum, blocks), user) == Lookup(es, user) == NotFound
  {
    OpenBuiltTable(sum, blocks);
    GetPast(sum, TableFile(sum, blocks), IndexOf(sum, blocks), user, n);
    ToldAtFirst(es, user);
  }

  lemma SmallAt(sum: Sum, es: seq<Entry>, user: bytes, blocks: seq<seq<Entry>>, m: nat)
    requires Sorted(es) && TableFits(sum, blocks) && NonEmpty(blocks) && blocks == [es] && |es| <= RESTART_INTERVAL
    requires m <= 1 && Ahead(blocks, m) <= FirstNotLess(es, user)
    requires var index := IndexOf(sum, blocks);
      On(index, SeekBlock(BlockOf(index), user), 0) && !Less(index[0].ikey, user)
    ensures TableGet(sum, TableFile(sum, blocks), user) == Lookup(es, user) <==> !Blocked(es, user)
  {
    SortedBound(es, user);
    var i := LandSmall(sum, es, user, blocks, FirstNotLess(es, user), m);
    LandsWhereFirst(es, user, i);
  }

  lemma LandSmall(sum: Sum, es: seq<Entry>, user: bytes, blocks: seq<seq<Entry>>, f: nat, m: nat) returns (i: nat)
    requires Tagged(es) && TableFits(sum, blocks) && NonEmpty(blocks) && blocks == [es] && |es| <= RESTART_INTERVAL
    requires NoneLessFrom(es, user, f) && m <= 1 && Ahead(blocks, m) <= f
    requires var index := IndexOf(sum, blocks);
      On(index, SeekBlock(BlockOf(index), user), 0) && !Less(index[0].ikey, user)
    ensures i <= f && i < |es| && !Less(es[i].ikey, user) && forall k :: 0 <= k < i ==> Less(es[k].ikey, user)
    ensures TableGet(sum, TableFile(sum, blocks), user) == Told(es, user, i)
  {
    AheadOfOne(blocks, es);
    OpenBuiltTable(sum, blocks);
    i := LandAtIndex(sum, blocks, user, f, m, 0);
  }

  lemma SmallBound(sum: Sum, es: seq<Entry>, user: bytes, blocks: seq<seq<Entry>>, f: nat, m: nat)
    requires NonEmpty(blocks) && blocks == [es] && NoneLessFrom(es, user, f) && m == if f < |es| then 0 else 1
    ensures NoneLessFrom(IndexOf(sum, blocks), user, m) && Ahead(blocks, m) <= f
  {
    AheadOfOne(blocks, es);
    IndexBound(sum, blocks, user, f, m);
  }

  lemma SmallIndex(sum: Sum, es: seq<Entry>, user: bytes, blocks: seq<seq<Entry>>) returns (n: nat, m: nat)
    requires Sorted(es) && TableFits(sum, blocks) && NonEmpty(blocks) && blocks == [es]
    ensures n <= m <= 1 && Ahead(blocks, m) <= FirstNotLess(es, user) && (n == 1 ==> FirstNotLess(es, user) == |es|)
    ensures var index := IndexOf(sum, blocks);
      On(index, SeekBlock(BlockOf(index), user), n) && (n == 0 ==> !Less(index[0].ikey, user))
  {
    var f := FirstNotLess(es, user);
    m := if f < |es| then 0 else 1;
    SortedBound(es, user);
    SmallBound(sum, es, user, blocks, f, m);
    n := SeekBuilt(IndexOf(sum, blocks), user, m);
  }

  lemma SmallExact(sum: Sum, es: seq<Entry>, user: bytes, blocks: seq<seq<Entry>>)
    requires Sorted(es) && blocks == [es] && NonEmpty(blocks) && |es| <= RESTART_INTERVAL && TableFits(sum, blocks)
    ensures TableGet(sum, TableFile(sum, blocks), user) == Lookup(es, user) <==> !Blocked(es, user)
  {
    var n, m := SmallIndex(sum, es, user, blocks);
    if n == 0 {
      SmallAt(sum, es, user, blocks, m);
    } else {
      SmallPast(sum, es, user, blocks, n);
    }
  }

  /** A table of one block and one restart interval answers rightly exactly when the key is not blocked. */
  lemma SmallTableExact(sum: Sum, es: seq<Entry>, user: bytes)
    requires Sorted(es) && BlocksOf(es) == [es] && |es| <= RESTART_INTERVAL && TableFits(sum, BlocksOf(es))
    ensures TableGet(sum, BuildTable(sum, es), user) == Lookup(es, user) <==> !Blocked(es, user)
  {
    BlocksHold(es);
    SmallExact(sum, es, user, BlocksOf(es));
  }

  // ---------------------------------------------------------------- exactly which keys a table may mix

  predicate UserKeysIn(es: seq<Entry>, keys: set<bytes>)
    requires Tagged(es)
  {
    forall j :: 0 <= j < |es| ==> UserKey(es[j].ikey) in keys
  }

  /** A table over these keys: sorted, typed, and within the format's sizes. */
  ghost predicate TableOver(sum: Sum, es: seq<Entry>, keys: set<bytes>) {
    Sorted(es) && AllTyped(es) && UserKeysIn(es, keys) && TableFits(sum, BlocksOf(es))
  }

  /** The topmost version of `stored` and, written right before it, one of `user`. */
  function Pair(stored: bytes, user: bytes): seq<Entry> {
    [Entry(Topmost(stored), []), Entry(InternalKey(user, MAX_SEQUENCE - 1, TYPE_VALUE), [])]
  }

  lemma PairKeys(stored: bytes, user: bytes)
    ensures var es := Pair(stored, user); UserKey(es[0].ikey) == stored && UserKey(es[1].ikey) == user
    ensures Answer(Pair(stored, user)[1]) == Found([])
  {
    InternalKeyRoundTrip(stored, MAX_SEQUENCE, TYPE_VALUE);
    InternalKeyRoundTrip(user, MAX_SEQUENCE - 1, TYPE_VALUE);
  }

  lemma PairTyped(stored: bytes, user: bytes)
    ensures AllTyped(Pair(stored, user))
  {
    PairKeys(stored, user);
    KindFirst(stored, MAX_SEQUENCE, TYPE_VALUE);
    KindFirst(user, MAX_SEQUENCE - 1, TYPE_VALUE);
  }

  /** Two entries whose user keys ascend are sorted. */
  lemma TwoSorted(a: Entry, b: Entry)
    requires |a.ikey| >= 8 && |b.ikey| >= 8 && Less(UserKey(a.ikey), UserKey(b.ikey))
    ensures Sorted([a, b]) && UserKey(a.ikey) != UserKey(b.ikey)
  {
    LessTrichotomy(UserKey(a.ikey), UserKey(b.ikey));
  }

  lemma PairSorted(stored: bytes, user: bytes)
    requires !Apart(stored, user)
    ensures Sorted(Pair(stored, user)) && AllTyped(Pair(stored, user)) && UserKeysIn(Pair(stored, user), {stored, user})
    ensures NoneLessFrom(Pair(stored, user), user, 0) && stored != user
  {
    var es := Pair(stored, user);
    PairKeys(stored, user);
    PairTyped(stored, user);
    LessAt(stored, user, |stored|);
    TwoSorted(es[0], es[1]);
    LessTrichotomy(user, user);
    NotLessTagged(es[1].ikey, user);
  }

  /** The first byte after the user key is the value type. */
  lemma KindFirst(u: bytes, sequence: nat, kind: byte)
    requires sequence <= MAX_SEQUENCE
    ensures InternalKey(u, sequence, kind)[|u|] == kind
  {
    assert Tag(sequence, kind) % 256 == kind;
  }

  lemma ToldOther(es: seq<Entry>, user: bytes, i: nat)
    requires Tagged(es) && i <= |es| && (i < |es| ==> UserKey(es[i].ikey) != user)
    ensures Told(es, user, i) == NotFound
  {
  }

  /** Up to `f`, other keys only. */
  predicate OthersTo(es: seq<Entry>, user: bytes, f: nat)
    requires Tagged(es)
  {
    forall k :: 0 <= k <= f && k < |es| ==> UserKey(es[k].ikey) != user
  }

  lemma StopsBy(sum: Sum, blocks: seq<seq<Entry>>, user: bytes, f: nat)
    requires TableFits(sum, blocks) && NonEmpty(blocks) && Tagged(Concat(blocks))
    requires NoneLessFrom(Concat(blocks), user, f) && OthersTo(Concat(blocks), user, f)
    ensures TableGet(sum, TableFile(sum, blocks), user) == NotFound
  {
    var i := TableGetLands(sum, blocks, user, f);
    ToldOther(Concat(blocks), user, i);
  }

  /** When no key is less than `user` and the first is another's, the lookup stops there and finds nothing. */
  lemma StopsAtFirst(sum: Sum, es: seq<Entry>, user: bytes)
    requires TableFits(sum, BlocksOf(es)) && Tagged(es)
    requires es != [] && NoneLessFrom(es, user, 0) && UserKey(es[0].ikey) != user
    ensures TableGet(sum, BuildTable(sum, es), user) == NotFound
  {
    BlocksHold(es);
    assert OthersTo(es, user, 0);
    StopsBy(sum, BlocksOf(es), user, 0);
  }

  lemma LookupSecond(es: seq<Entry>, user: bytes)
    requires |es| == 2 && Tagged(es) && UserKey(es[0].ikey) != user && UserKey(es[1].ikey) == user
    ensures Lookup(es, user) == Answer(es[1])
  {
    LookupFirst(es, user, 1);
  }

  /** With such a pair stored, the lookup of `user` stops at `stored` and finds nothing. */
  lemma PairMissed(sum: Sum, stored: bytes, user: bytes)
    requires !Apart(stored, user) && TableFits(sum, BlocksOf(Pair(stored, user)))
    ensures Sorted(Pair(stored, user))
    ensures TableGet(sum, BuildTable(sum, Pair(stored, user)), user) == NotFound
      && Lookup(Pair(stored, user), user) == Found([])
  {
    PairSorted(stored, user);
    PairKeys(stored, user);
    StopsAtFirst(sum, Pair(stored, user), user);
    LookupSecond(Pair(stored, user), user);
  }

  ghost predicate RightIn(sum: Sum, es: seq<Entry>, user: bytes)
    requires Tagged(es)
  {
    TableGet(sum, BuildTable(sum, es), user) == Lookup(es, user)
  }

  lemma WrongPair(sum: Sum, stored: bytes, user: bytes, keys: set<bytes>)
    requires !Apart(stored, user) && TableFits(sum, BlocksOf(Pair(stored, user))) && stored in keys && user in keys
    ensures TableOver(sum, Pair(stored, user), keys) && !RightIn(sum, Pair(stored, user), user)
  {
    PairMissed(sum, stored, user);
    PairSorted(stored, user);
  }

  lemma RightOver(sum: Sum, es: seq<Entry>, keys: set<bytes>, user: bytes)
    requires TableOver(sum, es, keys) && forall k :: k in keys ==> Apart(k, user)
    ensures RightIn(sum, es, user)
  {
    TableGetCorrect(sum, es, user);
  }

  /** Every table over `keys` answers the stored key `user` rightly if and only if `user` is apart from each of them. */
  lemma TablesExact(sum: Sum, keys: set<bytes>, user: bytes)
    requires user in keys && forall k :: k in keys ==> TableFits(sum, BlocksOf(Pair(k, user)))
    ensures (forall es :: TableOver(sum, es, keys) ==> RightIn(sum, es, user))
      <==> (forall k :: k in keys ==> Apart(k, user))
  {
    if k :| k in keys && !Apart(k, user) {
      WrongPair(sum, k, user, keys);
    } else {
      forall es | TableOver(sum, es, keys) ensures RightIn(sum, es, user) {
        RightOver(sum, es, keys, user);
      }
    }
  }
}
