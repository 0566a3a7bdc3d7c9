/** The builder with its queue and writer thread, and the reader. */
module IndexedDataset {
  import opened Options
  import opened Sequences
  import opened ShardedLog

  /** The shard files, the last one open, and the lists of the index file. */
  datatype Disk = Disk(files: seq<seq<byte>>, lengthList: seq<int>, idxList: seq<int>, shardOffset: seq<int>)

  function Lengths(items: seq<Item>): seq<int> {
    if items == [] then [] else Lengths(items[..|items| - 1]) + [items[|items| - 1].length]
  }

  function MoreOffsets(idxList: seq<int>, items: seq<Item>): (r: seq<int>)
    requires idxList != []
    ensures r != []
  {
    if items == [] then idxList
    else
      var before := MoreOffsets(idxList, items[..|items| - 1]);
      before + [before[|before| - 1] + |items[|items| - 1].bytes|]
  }

  /** What the writer does with one batch: append it, then cut if the shard has grown enough. */
  function WriteBatch(d: Disk, items: seq<Item>, chunkSize: nat): (r: Disk)
    requires d.files != [] && d.idxList != [] && d.shardOffset != []
    ensures r.files != [] && r.idxList != [] && r.shardOffset != []
  {
    var n := |d.files| - 1;
    var idxList := MoreOffsets(d.idxList, items);
    var last := d.shardOffset[|d.shardOffset| - 1];
    var offset := idxList[|idxList| - 1] - last;
    var written := Disk(d.files[..n] + [d.files[n] + Bytes(items)], d.lengthList + Lengths(items), idxList, d.shardOffset);
    if offset >= chunkSize then
      written.(files := written.files + [[]], shardOffset := d.shardOffset + [last + offset])
    else written
  }

  const EMPTY := Disk([[]], [], [0], [0])

  function WriteAll(batches: seq<seq<Item>>, chunkSize: nat): (r: Disk)
    ensures r.files != [] && r.idxList != [] && r.shardOffset != []
  {
    if batches == [] then EMPTY
    else WriteBatch(WriteAll(batches[..|batches| - 1], chunkSize), batches[|batches| - 1], chunkSize)
  }

  // ---- the builder ----------------------------------------------------------------------

  /** A batch, or the marker that ends the writer thread. */
  datatype Message = Batch(items: seq<Item>) | Stop

  function Messages(batches: seq<seq<Item>>): seq<Message> {
    seq(|batches|, i requires 0 <= i < |batches| => Batch(batches[i]))
  }

  class IndexedDatasetBuilder {
    const chunkSize: nat
    var files: seq<seq<byte>>
    var nShard: nat
    var lengthList: seq<int>
    var idxList: seq<int>
    var shardOffset: seq<int>
    var running: bool
    var queue: seq<Message>
    ghost var batches: seq<seq<Item>>  // everything handed in so far
    ghost var done: nat                // how many batches the writer has finished

    ghost function OnDisk(): Disk
      reads this
    {
      Disk(files, lengthList, idxList, shardOffset)
    }

    ghost predicate Valid()
      reads this
    {
      && done <= |batches|
      && nShard == |files|
      && OnDisk() == WriteAll(batches[..done], chunkSize)
      && queue == Messages(batches[done..])
      && (!running ==> queue == [])
    }

    constructor (chunkSize: nat)
      ensures Valid() && batches == [] && this.chunkSize == chunkSize
    {
      this.chunkSize := chunkSize;
      files, nShard := [[]], 1;
      lengthList, idxList, shardOffset := [], [0], [0];
      running, queue := false, [];
      batches, done := [], 0;
    }

    method AddItems(items: seq<Item>)
      requires Valid()
      modifies this
      ensures Valid() && batches == old(batches) + [items]
    {
      hide WriteAll;
      running := true;
      queue := queue + [Batch(items)];
      batches := batches + [items];
      assert batches[..done] == old(batches)[..done];
      assert batches[done..] == old(batches)[done..] + [items];
    }

    /** The body of the writer thread's loop for one batch; it may run whenever one is queued. */
    method WriterTurn()
      requires Valid() && queue != []
      modifies this
      ensures Valid() && batches == old(batches) && running == old(running)
      ensures queue == old(queue)[1..] && done == old(done) + 1
    {
      hide WriteAll, WriteBatch;
      var items := queue[0].items;
      queue := queue[1..];
      WriteAllNext(batches, done, chunkSize);
      Write(items);
      done := done + 1;
    }

    method Write(items: seq<Item>)
      requires files != [] && idxList != [] && shardOffset != [] && nShard == |files|
      modifies this`files, this`nShard, this`lengthList, this`idxList, this`shardOffset
      ensures nShard == |files| && OnDisk() == WriteBatch(old(OnDisk()), items, chunkSize)
    {
      hide Bytes, Lengths, MoreOffsets;
      var binBuffer := Serialize(items);
      files := files[..|files| - 1] + [files[|files| - 1] + binBuffer];
      var offset := idxList[|idxList| - 1] - shardOffset[|shardOffset| - 1];
      if offset >= chunkSize {
        shardOffset := shardOffset + [shardOffset[|shardOffset| - 1] + offset];
        nShard := nShard + 1;
        files := files + [[]];
      }
    }

    /** The loop over the items of a batch. */
    method Serialize(items: seq<Item>) returns (binBuffer: seq<byte>)
      requires idxList != []
      modifies this`lengthList, this`idxList
      ensures idxList == MoreOffsets(old(idxList), items) && lengthList == old(lengthList) + Lengths(items)
      ensures binBuffer == Bytes(items)
    {
      binBuffer := [];
      for i := 0 to |items|
        invariant idxList != [] && idxList == MoreOffsets(old(idxList), items[..i])
        invariant lengthList == old(lengthList) + Lengths(items[..i])
        invariant binBuffer == Bytes(items[..i])
      {
        assert items[..i + 1][..i] == items[..i];
        var itemBuffer := items[i].bytes;
        binBuffer := binBuffer + itemBuffer;
        idxList := idxList + [idxList[|idxList| - 1] + |itemBuffer|];
        lengthList := lengthList + [items[i].length];
      }
      assert items[..|items|] == items;
    }

    /** Ends the writer thread once the queue is empty; the lists are then written out. */
    method Finalize() returns (index: Disk)
      requires Valid()
      modifies this
      ensures nShard == |files| && queue == []
      ensures index == OnDisk() == WriteAll(batches, chunkSize) && batches == old(batches)
    {
      hide WriteAll, Messages;
      if running {
        while queue != []
          invariant Valid() && batches == old(batches)
          decreases |queue|
        {
          WriterTurn();
        }
        queue := queue + [Stop];
        var message := queue[0];
        queue := queue[1..];
        assert message.Stop?;
      }
      NothingQueued(batches, done);
      assert batches[..|batches|] == batches;
      index := Disk(files, lengthList, idxList, shardOffset);
    }
  }

  lemma WriteAllNext(batches: seq<seq<Item>>, done: nat, chunkSize: nat)
    requires done <= |batches| && Messages(batches[done..]) != []
    ensures done < |batches| && Messages(batches[done..])[0] == Batch(batches[done])
    ensures Messages(batches[done..])[1..] == Messages(batches[done + 1..])
    ensures WriteAll(batches[..done + 1], chunkSize) == WriteBatch(WriteAll(batches[..done], chunkSize), batches[done], chunkSize)
  {
    hide WriteBatch;
    assert batches[..done + 1][..done] == batches[..done];
  }

  lemma NothingQueued(batches: seq<seq<Item>>, done: nat)
    requires done <= |batches|
    ensures Messages(batches[done..]) == [] ==> done == |batches|
  {
    assert |Messages(batches[done..])| == |batches| - done;
  }

  // ---- the reader -----------------------------------------------------------------------

  /** `bisect.bisect_right` between lo and hi. */
  function BisectRight(a: seq<int>, x: int, lo: nat, hi: nat): (r: nat)
    requires lo <= hi <= |a|
    ensures lo <= r <= hi
    ensures (forall i, j | 0 <= i < j < |a| :: a[i] <= a[j]) ==>
              (forall i | lo <= i < r :: a[i] <= x) && (forall i | r <= i < hi :: x < a[i])
    decreases hi - lo
  {
    if lo == hi then lo
    else
      var mid := (lo + hi) / 2;
      if x < a[mid] then BisectRight(a, x, lo, mid) else BisectRight(a, x, mid + 1, hi)
  }

  /** `None`: the file is empty and was not mapped, or the range is not inside it. */
  function ReadBuffer(file: seq<byte>, offset: int, size: int): Option<seq<byte>> {
    if file == [] || offset < 0 || size < 0 || offset + size > |file| then None
    else Some(file[offset..offset + size])
  }

  /** A read succeeds exactly within a file that is not empty. */
  lemma ReadsRange(a: seq<byte>, b: seq<byte>, c: seq<byte>, offset: int, size: int)
    ensures a + b + c != [] ==> ReadBuffer(a + b + c, |a|, |b|) == Some(b)
    ensures ReadBuffer(a, offset, size).Some? <==> a != [] && 0 <= offset <= offset + size <= |a|
  {
  }

  /** The bytes of an item, `None` for the errors of an index or a buffer out of range. */
  function GetItem(d: Disk, index: int): Option<seq<byte>>
    requires d.files != [] && d.idxList != [] && |d.shardOffset| == |d.files|
  {
    var count := |d.idxList| - 1;
    if index < 0 && count == 0 then None
    else
      var i := if index < 0 then index % count else index;
      if i + 1 >= |d.idxList| then None
      else
        var shards := BisectRight(d.shardOffset, d.idxList[i], 0, |d.shardOffset|);
        var k := if shards == 0 then |d.shardOffset| - 1 else shards - 1;
        ReadBuffer(d.files[k], d.idxList[i] - d.shardOffset[k], d.idxList[i + 1] - d.idxList[i])
  }

  // ---- the round trip -------------------------------------------------------------------

  lemma {:induction false} IndexesMore(items: seq<Item>, idxList: seq<int>, more: seq<Item>)
    requires Indexes(items, idxList) && idxList != []
    ensures Indexes(items + more, MoreOffsets(idxList, more))
  {
    hide Indexes;
    if more == [] {
      assert items + more == items;
    } else {
      var n := |more| - 1;
      IndexesMore(items, idxList, more[..n]);
      IndexesSnoc(items + more[..n], MoreOffsets(idxList, more[..n]), more[n]);
      assert items + more[..n] + [more[n]] == items + more;
    }
  }

  /** The shards hold these groups of batches: the last batch of a group is the one that brings
      its shard to the chunk size, and the last shard has not come there yet. */
  ghost predicate CutsAt(groups: seq<seq<seq<Item>>>, shards: seq<seq<Item>>, chunkSize: nat) {
    && shards != [] && |groups| == |shards|
    && (forall k | 0 <= k < |shards| :: shards[k] == Flatten(groups[k]))
    && (forall k | 0 <= k < |shards| - 1 ::
          && chunkSize <= Size(shards[k])
          && groups[k] != [] && Size(Flatten(groups[k][..|groups[k]| - 1])) < chunkSize)
    && Size(shards[|shards| - 1]) < chunkSize
  }

  /** The shards the writer has cut the batches into: a shard is closed by the batch that brings it
      to the chunk size, and by no other. */
  lemma WrittenLayout(batches: seq<seq<Item>>, chunkSize: nat)
    returns (shards: seq<seq<Item>>, groups: seq<seq<seq<Item>>>)
    requires 0 < chunkSize
    ensures var d := WriteAll(batches, chunkSize);
            Layout(shards, d.files, d.idxList, d.shardOffset)
    ensures Flatten(shards) == Flatten(batches)
    ensures Flatten(groups) == batches && |groups| == |shards|
    ensures forall k | 0 <= k < |shards| :: shards[k] == Flatten(groups[k])
    ensures forall k | 0 <= k < |shards| - 1 ::
              && chunkSize <= Size(shards[k])
              && groups[k] != [] && Size(Flatten(groups[k][..|groups[k]| - 1])) < chunkSize
    ensures Size(shards[|shards| - 1]) < chunkSize
  {
    hide Bytes, Flatten, WriteAll;
    shards, groups := WrittenGroups(batches, chunkSize);
  }

  lemma {:induction false} WrittenGroups(batches: seq<seq<Item>>, chunkSize: nat)
    returns (shards: seq<seq<Item>>, groups: seq<seq<seq<Item>>>)
    requires 0 < chunkSize
    ensures var d := WriteAll(batches, chunkSize);
            Layout(shards, d.files, d.idxList, d.shardOffset)
    ensures Flatten(shards) == Flatten(batches) && Flatten(groups) == batches
    ensures CutsAt(groups, shards, chunkSize)
  {
    hide Bytes, Flatten, WriteBatch, Layout, CutsAt;
    if batches == [] {
      shards, groups := [[]], [[]];
      FlattenSnoc<Item>([], []);
      FlattenSnoc<seq<Item>>([], []);
      EmptyLayout(chunkSize);
    } else {
      var n := |batches| - 1;
      var before, groups' := WrittenGroups(batches[..n], chunkSize);
      var d := WriteAll(batches[..n], chunkSize);
      shards := WriteLayout(before, d, batches[n], chunkSize);
      groups := CutNext(before, groups', batches[n], chunkSize);
      FlattenSnoc(batches[..n], batches[n]);
      assert batches == batches[..n] + [batches[n]];
    }
  }

  lemma EmptyLayout(chunkSize: nat)
    requires 0 < chunkSize
    ensures Layout([[]], EMPTY.files, EMPTY.idxList, EMPTY.shardOffset) && CutsAt([[]], [[]], chunkSize)
    ensures Flatten<Item>([]) == [] && Flatten<Item>([[]]) == [] && Flatten<seq<Item>>([[]]) == []
  {
    var one: seq<seq<Item>>, two: seq<seq<seq<Item>>> := [[]], [[]];
    assert one[..0] == [] && two[..0] == [];
    NoBytes();
  }

  lemma WriteLayout(before: seq<seq<Item>>, d: Disk, items: seq<Item>, chunkSize: nat) returns (shards: seq<seq<Item>>)
    requires 0 < chunkSize && Layout(before, d.files, d.idxList, d.shardOffset)
    ensures var d' := WriteBatch(d, items, chunkSize);
            Layout(shards, d'.files, d'.idxList, d'.shardOffset)
    ensures Flatten(shards) == Flatten(before) + items
    ensures before != [] && shards == Grown(before, items, chunkSize)
  {
    hide Bytes, Flatten, MoreOffsets;
    AppendItems(before, d.files, d.shardOffset, items);
    IndexesMore(Flatten(before), d.idxList, items);
    shards := Extended(before, items);
    var all, idxList := Flatten(shards), MoreOffsets(d.idxList, items);
    var last := shards[|shards| - 1];
    FlattenSnoc(shards[..|shards| - 1], last);
    assert shards == shards[..|shards| - 1] + [last];
    BytesConcat(Flatten(shards[..|shards| - 1]), last);
    assert all[..|all|] == all;
    var offset := idxList[|idxList| - 1] - d.shardOffset[|d.shardOffset| - 1];
    assert offset == Size(last);
    if offset >= chunkSize {
      assert last != [] by {
        NoBytes();
      }
      var n := |before| - 1;
      OpenShard(shards, d.files[..n] + [d.files[n] + Bytes(items)], idxList, d.shardOffset);
      shards := shards + [[]];
    }
  }

  /** The shards after one more batch. */
  ghost function Grown(before: seq<seq<Item>>, items: seq<Item>, chunkSize: nat): seq<seq<Item>>
    requires before != []
  {
    if Size(before[|before| - 1] + items) >= chunkSize then Extended(before, items) + [[]] else Extended(before, items)
  }

  lemma CutNext(before: seq<seq<Item>>, groups: seq<seq<seq<Item>>>, items: seq<Item>, chunkSize: nat)
    returns (groups': seq<seq<seq<Item>>>)
    requires 0 < chunkSize && before != [] && CutsAt(groups, before, chunkSize)
    ensures Flatten(groups') == Flatten(groups) + [items]
    ensures CutsAt(groups', Grown(before, items, chunkSize), chunkSize)
  {
    hide Bytes, Flatten;
    var n := |before| - 1;
    var last := groups[n] + [items];
    FlattenSnoc(groups[n], items);
    groups' := groups[..n] + [last];
    FlattenSnoc(groups[..n], last);
    FlattenSnoc(groups[..n], groups[n]);
    assert groups == groups[..n] + [groups[n]];
    Assoc(Flatten(groups[..n]), groups[n], [items]);
    assert last[..|last| - 1] == groups[n];
    if Size(before[n] + items) >= chunkSize {
      FlattenSnoc(groups', []);
      FlattenCons<Item>([]);
      groups' := groups' + [[]];
      NoBytes();
    }
  }

  lemma NoBytes()
    ensures Bytes([]) == []
  {
  }

  /** After any batches with any positive chunk size, item i reads back as the i-th item added;
      negative indexes wrap around, and an index past the end, or any index into nothing, fails. */
  lemma ReadsBack(batches: seq<seq<Item>>, chunkSize: nat, index: int)
    requires 0 < chunkSize
    ensures var d := WriteAll(batches, chunkSize);
            && |d.shardOffset| == |d.files|
            && var items := Flatten(batches);
               GetItem(d, index) ==
               if index >= |items| || items == [] then None
               else Some(items[if index < 0 then index % |items| else index].bytes)
  {
    hide Bytes, Flatten, WriteAll, GetItem, Layout;
    var d := WriteAll(batches, chunkSize);
    var shards, _ := WrittenLayout(batches, chunkSize);
    ReadsLayout(shards, d, index);
  }

  lemma ReadsLayout(shards: seq<seq<Item>>, d: Disk, index: int)
    requires Layout(shards, d.files, d.idxList, d.shardOffset)
    ensures |d.shardOffset| == |d.files| && d.files != [] && d.idxList != []
    ensures var items := Flatten(shards);
            GetItem(d, index) ==
            if index >= |items| || items == [] then None
            else Some(items[if index < 0 then index % |items| else index].bytes)
  {
    hide Bytes, Flatten, BisectRight;
    var items := Flatten(shards);
    if items != [] && index < |items| {
      var i := if index < 0 then index % |items| else index;
      var k := Located(shards, d.files, d.idxList, d.shardOffset, i);
      ShardFound(shards, d.shardOffset, d.idxList[i], k);
    }
  }

  /** Bisection finds the shard that Located describes. */
  lemma ShardFound(shards: seq<seq<Item>>, shardOffset: seq<int>, x: int, k: nat)
    requires OffsetsMark(shards, shardOffset) && k < |shardOffset|
    requires forall m | 0 <= m < |shardOffset| :: shardOffset[m] <= x <==> m <= k
    ensures BisectRight(shardOffset, x, 0, |shardOffset|) == k + 1
  {
    hide Bytes, Flatten, BisectRight;
    forall a, b | 0 <= a < b < |shardOffset|
      ensures shardOffset[a] <= shardOffset[b]
    {
      OffsetsOrdered(shards, b, a);
    }
    assert shardOffset[k] <= x;
    assert k + 1 < |shardOffset| ==> x < shardOffset[k + 1];
  }

  /** The `length` entries are the items', in the same order. */
  lemma {:induction false} LengthsKept(batches: seq<seq<Item>>, chunkSize: nat)
    ensures WriteAll(batches, chunkSize).lengthList == Lengths(Flatten(batches))
    ensures var lengthList, items := WriteAll(batches, chunkSize).lengthList, Flatten(batches);
            |lengthList| == |items| && forall i | 0 <= i < |items| :: lengthList[i] == items[i].length
  {
    LengthsAt(Flatten(batches));
    if batches != [] {
      var n := |batches| - 1;
      LengthsKept(batches[..n], chunkSize);
      LengthsConcat(Flatten(batches[..n]), batches[n]);
    }
  }

  lemma {:induction false} LengthsAt(items: seq<Item>)
    ensures |Lengths(items)| == |items|
    ensures forall i | 0 <= i < |items| :: Lengths(items)[i] == items[i].length
  {
    if items != [] {
      LengthsAt(items[..|items| - 1]);
    }
  }

  lemma {:induction false} LengthsConcat(a: seq<Item>, b: seq<Item>)
    ensures Lengths(a + b) == Lengths(a) + Lengths(b)
  {
    if b == [] {
      assert a + b == a;
    } else {
      var n := |b| - 1;
      assert (a + b)[..|a + b| - 1] == a + b[..n];
      LengthsConcat(a, b[..n]);
    }
  }
}
