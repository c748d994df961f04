/** How large a table gets: every list of up to a gigabyte fits the format. */
module TableSizes {
  import opened Bytes
  import opened Checksums
  import opened Coding
  import opened DbFormat
  import opened BlockFormat
  import opened Format
  import opened TableFormat
  import opened TableProofs
  import Seqs

  const LIGHT: nat := 0x4000_0000

  /** Keys, values, and 19 bytes an entry: three lengths of up to 5 bytes and a restart offset. */
  function Weight(es: seq<Entry>): nat {
    if es == [] then 0
    else Weight(es[..|es| - 1]) + 19 + |es[|es| - 1].ikey| + |es[|es| - 1].value|
  }

  lemma WeightSnoc(es: seq<Entry>, e: Entry)
    ensures Weight(es + [e]) == Weight(es) + 19 + |e.ikey| + |e.value|
  {
    assert (es + [e])[..|es|] == es;
  }

  lemma {:induction false} WeightSplit(a: seq<Entry>, b: seq<Entry>)
    ensures Weight(a + b) == Weight(a) + Weight(b)
    decreases |b|
  {
    if b == [] {
      Seqs.Nil(a);
    } else {
      Seqs.TakeRight(a, b, |a + b| - 1);
      WeightSplit(a, b[..|b| - 1]);
    }
  }

  // ---------------------------------------------------------------- blocks

  lemma EntryWeight(shared: nat, key: bytes, value: bytes)
    requires shared <= |key|
    ensures |EntryBytes(shared, key, value)| <= 15 + |key| + |value|
  {
    Widths();
    VarintLength(Low32(shared), 5);
    VarintLength(Low32(|key| - shared), 5);
    VarintLength(Low32(|value|), 5);
  }

  lemma {:induction false} BuildWeight(es: seq<Entry>)
    ensures |Build(es).buffer| + 4 * |Build(es).restarts| <= Weight(es)
    decreases |es|
  {
    if es != [] {
      var head, e := es[..|es| - 1], es[|es| - 1];
      BuildWeight(head);
      EntryWeight(Shared(Build(head), e.ikey), e.ikey, e.value);
    }
  }

  lemma BlockWeight(es: seq<Entry>)
    ensures |BlockOf(es)| <= Weight(es) + 4
  {
    BuildWeight(es);
    EstimateIsExact(Build(es));
  }

  // ---------------------------------------------------------------- the file

  lemma LastWeight(data: seq<Entry>)
    requires data != []
    ensures Weight(data) >= 19 + |data[|data| - 1].ikey|
  {
  }

  lemma HandleLength(h: Handle)
    requires HandleFits(h)
    ensures |EncodeHandle(h)| <= 20
  {
    HandleRoundTrip(h, []);
  }

  /** Data blocks with their trailers take at most twice the entries' weight, and the index at most three times. */
  ghost predicate Bounded(sum: Sum, blocks: seq<seq<Entry>>, w: nat) {
    |Image(sum, blocks)| <= 2 * w && Weight(IndexOf(sum, blocks)) <= 3 * w
  }

  lemma BoundedMore(sum: Sum, head: seq<seq<Entry>>, data: seq<Entry>, w: nat, w': nat)
    requires Bounded(sum, head, w) && data != [] && w' == w + Weight(data) && w' <= LIGHT
    ensures Bounded(sum, head + [data], w')
  {
    var blocks := head + [data];
    assert blocks[..|head|] == head;
    BlockWeight(data);
    LastWeight(data);
    HandleLength(HandleAfter(sum, head, data));
    WeightSnoc(IndexOf(sum, head), IndexEntry(sum, head, data));
  }

  lemma {:induction false} AllBounded(sum: Sum, blocks: seq<seq<Entry>>)
    requires NonEmpty(blocks) && Weight(Concat(blocks)) <= LIGHT
    ensures Bounded(sum, blocks, Weight(Concat(blocks)))
    decreases |blocks|
  {
    if blocks != [] {
      var head, data := blocks[..|blocks| - 1], blocks[|blocks| - 1];
      WeightSplit(Concat(head), data);
      AllBounded(sum, head);
      Seqs.SnocLast(blocks);
      BoundedMore(sum, head, data, Weight(Concat(head)), Weight(Concat(blocks)));
    }
  }

  lemma {:induction false} BlockInWeight(blocks: seq<seq<Entry>>, j: nat)
    requires j < |blocks|
    ensures Weight(blocks[j]) <= Weight(Concat(blocks))
    decreases |blocks|
  {
    var head, data := blocks[..|blocks| - 1], blocks[|blocks| - 1];
    WeightSplit(Concat(head), data);
    if j < |head| {
      BlockInWeight(head, j);
    }
  }

  lemma FileLength(sum: Sum, blocks: seq<seq<Entry>>)
    ensures |TableFile(sum, blocks)| == |Image(sum, blocks)| + |BlockOf(IndexOf(sum, blocks))| + TRAILER + FOOTER
  {
  }

  lemma BlocksFit(sum: Sum, blocks: seq<seq<Entry>>)
    requires NonEmpty(blocks) && Weight(Concat(blocks)) <= LIGHT
    ensures TableFits(sum, blocks)
  {
    forall j | 0 <= j < |blocks| ensures Fits(blocks[j]) {
      BlockInWeight(blocks, j);
      BlockWeight(blocks[j]);
    }
    AllBounded(sum, blocks);
    BlockWeight(IndexOf(sum, blocks));
    FileLength(sum, blocks);
  }

  /** A list of up to a gigabyte fits. */
  lemma LightFits(sum: Sum, es: seq<Entry>)
    requires Weight(es) <= LIGHT
    ensures TableFits(sum, BlocksOf(es))
  {
    BlocksHold(es);
    BlocksFit(sum, BlocksOf(es));
  }
}
