/** The block builder and the block iterator as objects (src/table/block_builder.cc, src/table/block.cc). */
module Blocks {
  import opened Bytes
  import opened Coding
  import opened DbFormat
  import opened BlockFormat
  import Seqs

  class BlockBuilder {
    var buffer: bytes
    var lastKey: bytes
    var restarts: seq<nat>
    var counter: nat
    var finished: bool

    ghost function State(): Building
      reads this
    {
      Building(buffer, restarts, lastKey, counter)
    }

    constructor ()
      ensures State() == EMPTY && !finished
    {
      buffer, lastKey, restarts, counter, finished := [], [], [], 0, false;
    }

    method Reset()
      modifies this
      ensures State() == EMPTY && !finished
    {
      buffer, lastKey, restarts, counter, finished := [], [], [], 0, false;
    }

    method Add(key: bytes, value: bytes)
      modifies this
      ensures State() == AddEntry(old(State()), Entry(key, value)) && finished == old(finished)
    {
      if counter == 0 {
        restarts := restarts + [Low32(|buffer|)];
      }
      var shared := 0;
      if counter > 0 {
        shared := CommonPrefix(key, lastKey);
      }
      var unshared := |key| - shared;
      var entry := Varint(Low32(shared)) + Varint(Low32(unshared)) + Varint(Low32(|value|)) + key[shared..] + value;
      buffer := buffer + entry;
      lastKey := key;
      counter := counter + 1;
      if counter >= RESTART_INTERVAL {
        counter := 0;
      }
    }

    /** Append the restart offsets and their number, and return the whole block. */
    method Finish() returns (block: bytes)
      modifies this
      ensures block == BlockFormat.Finished(old(State())) && buffer == block && finished
    {
      ghost var entries := buffer;
      var i := 0;
      Seqs.Nil(buffer);
      while i < |restarts|
        invariant 0 <= i <= |restarts| && restarts == old(restarts)
        invariant buffer == entries + FixedAll(restarts[..i])
      {
        FixedAllStep(restarts, i);
        Seqs.Assoc(entries, FixedAll(restarts[..i]), Fixed(restarts[i], 4));
        buffer := buffer + Fixed(restarts[i], 4);
        i := i + 1;
      }
      Seqs.TakeAll(restarts);
      buffer := buffer + Fixed(Low32(|restarts|), 4);
      finished := true;
      block := buffer;
    }

    function CurrentSizeEstimate(): (n: nat)
      reads this
      ensures n == |BlockFormat.Finished(State())|
    {
      |buffer| + 4 + |restarts| * 4
    }
  }

  lemma FixedAllStep(ns: seq<nat>, i: nat)
    requires i < |ns|
    ensures FixedAll(ns[..i + 1]) == FixedAll(ns[..i]) + Fixed(ns[i], 4)
  {
    assert ns[..i + 1][..i] == ns[..i];
  }

  /** The loop that counts the bytes two keys share. */
  method CommonPrefix(a: bytes, b: bytes) returns (shared: nat)
    ensures shared == SharedPrefix(a, b)
  {
    shared := 0;
    ghost var n := SharedPrefix(a, b);
    var least := if |a| < |b| then |a| else |b|;
    while shared < least && a[shared] == b[shared]
      invariant 0 <= shared <= least && a[..shared] == b[..shared]
    {
      shared := shared + 1;
    }
    SharedUnique(a, b, shared);
  }

  lemma SharedUnique(a: bytes, b: bytes, k: nat)
    requires k <= |a| && k <= |b| && a[..k] == b[..k] && (k < |a| && k < |b| ==> a[k] != b[k])
    ensures SharedPrefix(a, b) == k
  {
    var n := SharedPrefix(a, b);
    assert forall i :: 0 <= i < n ==> a[i] == a[..n][i] == b[..n][i] == b[i];
    assert forall i :: 0 <= i < k ==> a[i] == a[..k][i] == b[..k][i] == b[i];
  }

  class BlockIterator {
    const block: Block
    var current: nat
    var restartIndex: nat
    var key: bytes
    var value: bytes
    var valid: bool

    ghost function State(): Iter
      reads this
    {
      Iter(current, key, value, valid)
    }

    constructor (block: Block)
      ensures this.block == block && State() == START
    {
      this.block := block;
      current, restartIndex, key, value, valid := 0, 0, [], [], false;
    }

    method DecodeEntry()
      modifies `current, `key, `value, `valid
      ensures State() == Decode(block, old(State()))
    {
      if current >= |block.data| {
        valid := false;
        return;
      }
      var l := Lengths(block.data[current..]);
      if l.None? {
        valid := false;
        return;
      }
      var (shared, unshared, valueLen, rest) := l.value;
      if unshared + valueLen > |rest| {
        valid := false;
        return;
      }
      key := Resize(key, shared) + rest[..unshared];
      value := rest[unshared..unshared + valueLen];
      current := |block.data| - |rest| + unshared + valueLen;
      valid := true;
    }

    method SeekToFirst()
      modifies this
      ensures State() == BlockFormat.SeekToFirst(block, old(State()))
    {
      if block.restarts == [] {
        valid := false;
        return;
      }
      restartIndex := 0;
      current := block.restarts[0];
      DecodeEntry();
    }

    method Next()
      modifies this
      ensures State() == BlockFormat.Next(block, old(State()))
    {
      if !valid {
        return;
      }
      DecodeEntry();
      while restartIndex + 1 < |block.restarts| && current >= block.restarts[restartIndex + 1]
        invariant State() == BlockFormat.Next(block, old(State()))
        decreases |block.restarts| - restartIndex
      {
        restartIndex := restartIndex + 1;
      }
    }

    method Seek(target: bytes)
      modifies this
      ensures State() == BlockFormat.Seek(block, old(State()), target)
    {
      if block.restarts == [] {
        valid := false;
        return;
      }
      var left := FindRestart(target);
      restartIndex := left;
      current := block.restarts[left];
      DecodeEntry();
      ScanTo(target);
    }

    /** The binary search over restart points. */
    method FindRestart(target: bytes) returns (left: nat)
      requires block.restarts != []
      modifies `current, `key, `value, `valid
      ensures left < |block.restarts|
      ensures BlockFormat.FindRestart(block, old(State()), target, 0, Pred(|block.restarts|)) == (left, State())
    {
      left := 0;
      var right := Pred(|block.restarts|);
      ghost var found := BlockFormat.FindRestart(block, State(), target, left, right);
      while left < right
        invariant left <= right < |block.restarts|
        invariant found == BlockFormat.FindRestart(block, State(), target, left, right)
      {
        var mid := Mid(left, right);
        current := block.restarts[mid];
        DecodeEntry();
        if Less(key, target) {
          left := mid;
        } else {
          right := Pred(mid);
        }
      }
    }

    /** The linear scan from a restart point. */
    method ScanTo(target: bytes)
      modifies this
      ensures State() == BlockFormat.ScanTo(block, old(State()), target)
    {
      ghost var found := BlockFormat.ScanTo(block, State(), target);
      while valid && current <= |block.data| && Less(key, target)
        invariant found == BlockFormat.ScanTo(block, State(), target)
        decreases if valid then |block.data| + 1 - current else 0, valid
      {
        Next();
      }
    }
  }
}
