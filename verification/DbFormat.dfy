/** Internal keys: a user key followed by an eight-byte tag (src/db/dbformat.h). */
module DbFormat {
  import opened Bytes
  import opened Coding
  import Seqs

  const TYPE_DELETION: byte := 0
  const TYPE_VALUE: byte := 1
  const MAX_SEQUENCE: nat := 0xff_ffff_ffff_ffff

  /** What one layer says about a user key; a tombstone is an answer and stops the descent. */
  datatype LookupState = NotFound | Found(value: bytes) | Deleted

  datatype Entry = Entry(ikey: bytes, value: bytes)

  datatype ParsedInternalKey = ParsedInternalKey(userKey: bytes, sequence: nat, kind: byte)

  /** `(seq << 8) | type` in 64 bits. */
  function Tag(sequence: nat, kind: byte): nat {
    (sequence * 256 + kind) % U64
  }

  function InternalKey(user: bytes, sequence: nat, kind: byte): bytes {
    user + Fixed(Tag(sequence, kind), 8)
  }

  function UserKey(ikey: bytes): bytes
    requires |ikey| >= 8
  {
    ikey[..|ikey| - 8]
  }

  function TagOf(ikey: bytes): nat
    requires |ikey| >= 8
  {
    FromFixed(ikey[|ikey| - 8..])
  }

  function ParseInternalKey(ikey: bytes): Option<ParsedInternalKey> {
    if |ikey| < 8 then None
    else Some(ParsedInternalKey(UserKey(ikey), TagOf(ikey) / 256, TagOf(ikey) % 256))
  }

  /** Parsing undoes building, for every sequence number the format can carry. */
  lemma TagKind(sequence: nat, kind: byte)
    ensures Tag(sequence, kind) % 256 == kind
    ensures sequence <= MAX_SEQUENCE ==> Tag(sequence, kind) == sequence * 256 + kind
  {
  }

  lemma KeyParts(user: bytes, ikey: bytes, tag: nat, trailer: bytes)
    requires tag < U64 && trailer == Fixed(tag, 8) && |trailer| == 8 && ikey == user + trailer
    ensures |ikey| >= 8 && UserKey(ikey) == user && TagOf(ikey) == tag
  {
    Seqs.TakeLeft(user, trailer, |user|);
    Seqs.TakeAll(user);
    Seqs.DropRight(user, trailer, |user|);
    Seqs.DropNone(trailer);
    Fixed64RoundTrip(tag);
  }

  lemma InternalKeyRoundTrip(user: bytes, sequence: nat, kind: byte)
    requires sequence <= MAX_SEQUENCE
    ensures ParseInternalKey(InternalKey(user, sequence, kind)) == Some(ParsedInternalKey(user, sequence, kind))
    ensures UserKey(InternalKey(user, sequence, kind)) == user
    ensures TagOf(InternalKey(user, sequence, kind)) == sequence * 256 + kind
  {
    var tag := Tag(sequence, kind);
    TagKind(sequence, kind);
    KeyParts(user, InternalKey(user, sequence, kind), tag, Fixed(tag, 8));
  }

  // ---------------------------------------------------------------- order

  /** `InternalKeyComparator`: user keys ascend, and versions of one user key go newest first. */
  predicate Before(a: bytes, b: bytes)
    requires |a| >= 8 && |b| >= 8
  {
    if UserKey(a) != UserKey(b) then Less(UserKey(a), UserKey(b)) else TagOf(a) > TagOf(b)
  }

  /** The comparator is a strict order, and only equal keys are incomparable. */
  lemma BeforeTrichotomy(a: bytes, b: bytes)
    requires |a| >= 8 && |b| >= 8
    ensures !Before(a, a)
    ensures Before(a, b) ==> !Before(b, a)
    ensures a == b || Before(a, b) || Before(b, a)
  {
    LessTrichotomy(UserKey(a), UserKey(b));
    if UserKey(a) == UserKey(b) && TagOf(a) == TagOf(b) {
      PartsOnly(a, b, |a| - 8, |b| - 8);
    }
  }

  /** User key and tag make the key. */
  lemma PartsOnly(a: bytes, b: bytes, i: nat, j: nat)
    requires i + 8 == |a| && j + 8 == |b| && a[..i] == b[..j] && FromFixed(a[i..]) == FromFixed(b[j..])
    ensures a == b
  {
    FixedOnto(a[i..]);
    FixedOnto(b[j..]);
    Seqs.Rejoin(a, i);
    Seqs.Rejoin(b, j);
  }

  lemma BeforeTransitive(a: bytes, b: bytes, c: bytes)
    requires |a| >= 8 && |b| >= 8 && |c| >= 8
    requires Before(a, b) && Before(b, c)
    ensures Before(a, c)
  {
    if UserKey(a) != UserKey(b) && UserKey(b) != UserKey(c) {
      LessTransitive(UserKey(a), UserKey(b), UserKey(c));
      LessTrichotomy(UserKey(a), UserKey(a));
    }
  }

  /** `!Before(y, x)`, read "x not after y", is transitive too. */
  lemma NotAfterTransitive(a: bytes, b: bytes, c: bytes)
    requires |a| >= 8 && |b| >= 8 && |c| >= 8
    requires !Before(b, a) && !Before(c, b)
    ensures !Before(c, a)
  {
    BeforeTrichotomy(a, b);
    BeforeTrichotomy(b, c);
    BeforeTrichotomy(a, c);
    if Before(a, b) && Before(b, c) {
      BeforeTransitive(a, b, c);
    }
  }

  /** Every key carries a tag. */
  predicate Tagged(es: seq<Entry>) {
    forall i :: 0 <= i < |es| ==> |es[i].ikey| >= 8
  }

  /** Comparator order, ties allowed: the order in which a table is fed. */
  ghost predicate Sorted(es: seq<Entry>) {
    && Tagged(es)
    && forall i, j :: 0 <= i < j < |es| ==> !Before(es[j].ikey, es[i].ikey)
  }

  // ---------------------------------------------------------------- lookup in one layer

  function Answer(e: Entry): LookupState
    requires |e.ikey| >= 8
  {
    if TagOf(e.ikey) % 256 == TYPE_VALUE then Found(e.value) else Deleted
  }

  /** An entry tells its value if its type is 1, and is a tombstone if it is any other. */
  lemma AnswerTells(user: bytes, sequence: nat, kind: byte, value: bytes)
    requires sequence <= MAX_SEQUENCE
    ensures Answer(Entry(InternalKey(user, sequence, kind), value)) == if kind == 1 then Found(value) else Deleted
  {
    InternalKeyRoundTrip(user, sequence, kind);
  }

  /** What the first entry for `user` says: in comparator order, its newest version. */
  function Lookup(es: seq<Entry>, user: bytes): LookupState
    requires Tagged(es)
  {
    if es == [] then NotFound
    else if UserKey(es[0].ikey) == user then Answer(es[0])
    else Lookup(es[1..], user)
  }

  /** `i` is where `user` first appears. */
  predicate FirstAt(es: seq<Entry>, user: bytes, i: nat)
    requires Tagged(es)
  {
    && i < |es| && UserKey(es[i].ikey) == user
    && forall j :: 0 <= j < i ==> UserKey(es[j].ikey) != user
  }

  lemma {:induction false} LookupFirst(es: seq<Entry>, user: bytes, i: nat)
    requires Tagged(es) && FirstAt(es, user, i)
    ensures Lookup(es, user) == Answer(es[i])
  {
    if i != 0 {
      assert FirstAt(es[1..], user, i - 1);
      LookupFirst(es[1..], user, i - 1);
    }
  }

  lemma {:induction false} LookupAbsent(es: seq<Entry>, user: bytes)
    requires Tagged(es)
    ensures Lookup(es, user) == NotFound <==> forall j :: 0 <= j < |es| ==> UserKey(es[j].ikey) != user
  {
    if es != [] {
      LookupAbsent(es[1..], user);
      assert forall j :: 0 < j < |es| ==> es[j] == es[1..][j - 1];
      assert forall j :: 0 <= j < |es| - 1 ==> es[1..][j] == es[j + 1];
    }
  }

  /** In a sorted layer the answer is the one of greatest tag. */
  lemma LookupIsNewest(es: seq<Entry>, user: bytes, i: nat, j: nat)
    requires Sorted(es) && FirstAt(es, user, i) && j < |es| && UserKey(es[j].ikey) == user
    ensures TagOf(es[j].ikey) <= TagOf(es[i].ikey) && Lookup(es, user) == Answer(es[i])
  {
    LookupFirst(es, user, i);
  }
}
