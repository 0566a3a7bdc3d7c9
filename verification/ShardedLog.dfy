/** Items, their serialized bytes, and the shards a writer cuts them into. */
module ShardedLog {
  import opened Sequences

  newtype byte = x: int | 0 <= x < 256

  /** A serialized item, which is never empty, and its `length` entry. */
  datatype RawItem = RawItem(bytes: seq<byte>, length: int)
  type Item = i: RawItem | i.bytes != [] witness RawItem([0], 0)

  function Bytes(items: seq<Item>): seq<byte> {
    if items == [] then [] else Bytes(items[..|items| - 1]) + items[|items| - 1].bytes
  }

  function Size(items: seq<Item>): nat {
    |Bytes(items)|
  }

  lemma BytesSnoc(items: seq<Item>, item: Item)
    ensures Bytes(items + [item]) == Bytes(items) + item.bytes
  {
    assert (items + [item])[..|items|] == items;
  }

  lemma {:induction false} BytesConcat(a: seq<Item>, b: seq<Item>)
    ensures Bytes(a + b) == Bytes(a) + Bytes(b)
  {
    hide Bytes;
    EmptyBytes();
    if b == [] {
      assert a + b == a;
    } else {
      var n := |b| - 1;
      assert b == b[..n] + [b[n]] && a + b == (a + b[..n]) + [b[n]];
      BytesConcat(a, b[..n]);
      BytesSnoc(a + b[..n], b[n]);
      BytesSnoc(b[..n], b[n]);
      Assoc(Bytes(a), Bytes(b[..n]), b[n].bytes);
    }
  }

  /** The first k shards come before the rest. */
  lemma {:induction false} FlattenSplit(shards: seq<seq<Item>>, k: nat)
    requires k <= |shards|
    ensures exists rest :: Flatten(shards) == Flatten(shards[..k]) + rest
  {
    if k == |shards| {
      assert shards[..k] == shards;
      assert Flatten(shards) == Flatten(shards[..k]) + [];
    } else {
      var n := |shards| - 1;
      FlattenSplit(shards[..n], k);
      assert shards[..n][..k] == shards[..k];
      var rest :| Flatten(shards[..n]) == Flatten(shards[..k]) + rest;
      assert Flatten(shards) == Flatten(shards[..k]) + (rest + shards[n]);
    }
  }

  /** Which shard holds item i, and where in it. */
  lemma {:induction false} Locate(shards: seq<seq<Item>>, i: nat) returns (k: nat, j: nat)
    requires i < |Flatten(shards)|
    ensures k < |shards| && j < |shards[k]|
    ensures i == |Flatten(shards[..k])| + j
    ensures Flatten(shards)[i] == shards[k][j]
    ensures Flatten(shards)[..i] == Flatten(shards[..k]) + shards[k][..j]
  {
    var n := |shards| - 1;
    var before := Flatten(shards[..n]);
    if i >= |before| {
      k, j := n, i - |before|;
    } else {
      k, j := Locate(shards[..n], i);
      assert shards[..n][..k] == shards[..k];
      assert Flatten(shards)[..i] == before[..i];
    }
  }

  /** Each file holds the bytes of its shard. */
  ghost predicate FilesHold(shards: seq<seq<Item>>, files: seq<seq<byte>>) {
    |shards| == |files| && forall k | 0 <= k < |shards| :: files[k] == Bytes(shards[k])
  }

  /** Each shard offset is the number of bytes in the shards before. */
  ghost predicate OffsetsMark(shards: seq<seq<Item>>, shardOffset: seq<int>) {
    |shards| == |shardOffset| && forall k | 0 <= k < |shards| :: shardOffset[k] == Size(Flatten(shards[..k]))
  }

  /** Entry i of the index is the number of bytes of the first i items. */
  ghost predicate Indexes(items: seq<Item>, idxList: seq<int>) {
    |idxList| == |items| + 1 && forall i | 0 <= i <= |items| :: idxList[i] == Size(items[..i])
  }

  /** What the builder has on disk and in its lists, for items cut into shards; only the last
      shard may be empty. */
  ghost predicate Layout(shards: seq<seq<Item>>, files: seq<seq<byte>>, idxList: seq<int>, shardOffset: seq<int>) {
    && shards != []
    && FilesHold(shards, files) && OffsetsMark(shards, shardOffset) && Indexes(Flatten(shards), idxList)
    && forall k | 0 <= k < |shards| - 1 :: shards[k] != []
  }

  lemma ItemBytes(shard: seq<Item>, j: nat)
    requires j < |shard|
    ensures var from := Size(shard[..j]);
            && Size(shard[..j + 1]) == from + |shard[j].bytes| <= Size(shard)
            && Bytes(shard)[from..from + |shard[j].bytes|] == shard[j].bytes
  {
    hide Bytes;
    BytesSnoc(shard[..j], shard[j]);
    assert shard[..j + 1] == shard[..j] + [shard[j]];
    BytesConcat(shard[..j + 1], shard[j + 1..]);
    assert shard == shard[..j + 1] + shard[j + 1..];
  }

  /** Offsets do not decrease, and grow by the size of the shard between them. */
  lemma OffsetsOrdered(shards: seq<seq<Item>>, k: nat, m: nat)
    requires k < |shards| && m <= |shards|
    ensures m <= k ==> Size(Flatten(shards[..m])) <= Size(Flatten(shards[..k]))
    ensures k < m ==> Size(Flatten(shards[..k])) + Size(shards[k]) <= Size(Flatten(shards[..m]))
  {
    hide Bytes, Flatten;
    var head, shard := Flatten(shards[..k]), shards[k];
    if m <= k {
      FlattenSplit(shards[..k], m);
      assert shards[..k][..m] == shards[..m];
      var rest :| head == Flatten(shards[..m]) + rest;
      BytesConcat(Flatten(shards[..m]), rest);
    } else {
      FlattenSplit(shards[..m], k + 1);
      assert shards[..m][..k + 1] == shards[..k + 1] == shards[..k] + [shard];
      FlattenSnoc(shards[..k], shard);
      var rest :| Flatten(shards[..m]) == Flatten(shards[..k + 1]) + rest;
      BytesConcat(Flatten(shards[..k + 1]), rest);
      BytesConcat(head, shard);
    }
  }

  /** Where item i is: in the last shard whose offset does not exceed the item's, and nowhere
      near an empty one. */
  lemma Located(shards: seq<seq<Item>>, files: seq<seq<byte>>, idxList: seq<int>, shardOffset: seq<int>, i: nat)
    returns (k: nat)
    requires Layout(shards, files, idxList, shardOffset) && i < |Flatten(shards)|
    ensures k < |files| == |shardOffset| && files[k] != []
    ensures forall m | 0 <= m < |shardOffset| :: shardOffset[m] <= idxList[i] <==> m <= k
    ensures var from, to := idxList[i] - shardOffset[k], idxList[i + 1] - shardOffset[k];
            0 <= from < to <= |files[k]| && files[k][from..to] == Flatten(shards)[i].bytes
  {
    hide Bytes, Flatten;
    var j;
    k, j := Locate(shards, i);
    var all, head, shard := Flatten(shards), Flatten(shards[..k]), shards[k];
    BytesConcat(head, shard[..j]);
    assert all[..i + 1] == all[..i] + [all[i]];
    BytesSnoc(all[..i], all[i]);
    ItemBytes(shard, j);
    forall m | 0 <= m < |shardOffset|
      ensures shardOffset[m] <= idxList[i] <==> m <= k
    {
      OffsetsOrdered(shards, k, m);
    }
  }

  lemma IndexesSnoc(items: seq<Item>, idxList: seq<int>, item: Item)
    requires Indexes(items, idxList)
    ensures Indexes(items + [item], idxList + [idxList[|idxList| - 1] + |item.bytes|])
  {
    BytesSnoc(items, item);
    assert items[..|items|] == items;
    forall i | 0 <= i <= |items| + 1
      ensures (idxList + [idxList[|idxList| - 1] + |item.bytes|])[i] == Size((items + [item])[..i])
    {
      if i <= |items| {
        assert (items + [item])[..i] == items[..i];
      } else {
        assert (items + [item])[..i] == items + [item];
      }
    }
  }

  /** The last shard with more items. */
  function Extended(shards: seq<seq<Item>>, items: seq<Item>): seq<seq<Item>>
    requires shards != []
  {
    shards[..|shards| - 1] + [shards[|shards| - 1] + items]
  }

  /** Items are appended to the last shard. */
  lemma AppendItems(shards: seq<seq<Item>>, files: seq<seq<byte>>, shardOffset: seq<int>, items: seq<Item>)
    requires shards != [] && FilesHold(shards, files) && OffsetsMark(shards, shardOffset)
    ensures var n := |shards| - 1;
            && Flatten(Extended(shards, items)) == Flatten(shards) + items
            && FilesHold(Extended(shards, items), files[..n] + [files[n] + Bytes(items)])
            && OffsetsMark(Extended(shards, items), shardOffset)
  {
    hide Bytes, Flatten, FilesHold, OffsetsMark;
    AppendedItems(shards, items);
    AppendedBytes(shards, files, items);
    AppendedOffsets(shards, shardOffset, items);
  }

  lemma AppendedItems(shards: seq<seq<Item>>, items: seq<Item>)
    requires shards != []
    ensures Flatten(Extended(shards, items)) == Flatten(shards) + items
  {
    hide Flatten;
    var n := |shards| - 1;
    FlattenSnoc(shards[..n], shards[n] + items);
    FlattenSnoc(shards[..n], shards[n]);
    assert shards == shards[..n] + [shards[n]];
    Assoc(Flatten(shards[..n]), shards[n], items);
  }

  lemma AppendedBytes(shards: seq<seq<Item>>, files: seq<seq<byte>>, items: seq<Item>)
    requires shards != [] && FilesHold(shards, files)
    ensures var n := |shards| - 1;
            FilesHold(Extended(shards, items), files[..n] + [files[n] + Bytes(items)])
  {
    hide Bytes;
    BytesConcat(shards[|shards| - 1], items);
  }

  lemma AppendedOffsets(shards: seq<seq<Item>>, shardOffset: seq<int>, items: seq<Item>)
    requires shards != [] && OffsetsMark(shards, shardOffset)
    ensures OffsetsMark(Extended(shards, items), shardOffset)
  {
    hide Size, Flatten;
    assert forall k | 0 <= k < |shards| :: Extended(shards, items)[..k] == shards[..k];
  }

  /** A new empty shard is opened. */
  lemma OpenShard(shards: seq<seq<Item>>, files: seq<seq<byte>>, idxList: seq<int>, shardOffset: seq<int>)
    requires FilesHold(shards, files) && OffsetsMark(shards, shardOffset) && Indexes(Flatten(shards), idxList)
    ensures Flatten(shards + [[]]) == Flatten(shards)
    ensures FilesHold(shards + [[]], files + [[]])
    ensures OffsetsMark(shards + [[]], shardOffset + [idxList[|idxList| - 1]])
  {
    hide Bytes;
    var shards' := shards + [[]];
    FlattenSnoc(shards, []);
    EmptyBytes();
    assert Flatten(shards)[..|Flatten(shards)|] == Flatten(shards);
    assert forall k | 0 <= k < |shards| :: shards'[..k] == shards[..k];
    assert shards'[..|shards|] == shards;
  }

  lemma EmptyBytes()
    ensures Bytes([]) == []
  {
  }
}
