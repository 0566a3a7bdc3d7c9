/** The streaming packer: rounds of encoding by workers that answer in any order. */
module PackingStream {
  import opened Options
  import opened Sequences
  import opened Sets
  import opened Packing
  import opened PackingNextFit

  /** The encoder: the number of tokens of a row, or nothing if it fails or yields nothing. */
  type Encoder = int -> Option<int>

  /** A worker's reply: the position in the round and the encoded sample, if there is one. */
  datatype Reply = Reply(i: nat, encoded: Option<Sample>)

  function Encoded(encode: Encoder, row: int): Option<Sample> {
    match encode(row)
    case Some(length) => Some(Sample(row, length))
    case None => None
  }

  /** The successfully encoded rows, in input order. */
  function EncodedRows(encode: Encoder, rows: seq<int>): seq<Sample> {
    if rows == [] then []
    else
      var last := Encoded(encode, rows[|rows| - 1]);
      EncodedRows(encode, rows[..|rows| - 1]) + (if last.Some? then [last.value] else [])
  }

  lemma {:induction false} EncodedRowsAppend(encode: Encoder, a: seq<int>, b: seq<int>)
    ensures EncodedRows(encode, a + b) == EncodedRows(encode, a) + EncodedRows(encode, b)
  {
    if b == [] {
      assert a + b == a;
    } else {
      var n := |b| - 1;
      assert (a + b)[..|a + b| - 1] == a + b[..n];
      EncodedRowsAppend(encode, a, b[..n]);
    }
  }

  /** A row yields its sample, or nothing when it cannot be encoded. */
  lemma EncodedOne(encode: Encoder, row: int)
    ensures EncodedRows(encode, []) == []
    ensures EncodedRows(encode, [row]) ==
            match encode(row) { case Some(length) => [Sample(row, length)] case None => [] }
  {
    assert EncodedRows(encode, [row][..0]) == [];
  }

  /** One reply per queued row, in whatever order the workers finish. */
  ghost predicate Answers(encode: Encoder, rows: seq<int>, replies: seq<Reply>) {
    && |replies| == |rows|
    && (forall k | 0 <= k < |replies| ::
          replies[k].i < |rows| && replies[k].encoded == Encoded(encode, rows[replies[k].i]))
    && Distinct(replies)
  }

  method RunWorkers(encode: Encoder, rows: seq<int>) returns (replies: seq<Reply>)
    ensures Answers(encode, rows, replies)
  {
    replies := [];
    var pending := UpTo(|rows|);
    while pending != {}
      invariant forall i | i in pending :: 0 <= i < |rows|
      invariant |replies| + |pending| == |rows|
      invariant forall k | 0 <= k < |replies| ::
                  && replies[k].i !in pending && replies[k].i < |rows|
                  && replies[k].encoded == Encoded(encode, rows[replies[k].i])
      invariant Distinct(replies)
    {
      var i :| i in pending;
      pending := pending - {i};
      replies := replies + [Reply(i, Encoded(encode, rows[i]))];
    }
  }

  /** Some position was replied to. */
  ghost predicate Replied(replies: seq<Reply>, i: int) {
    exists k | 0 <= k < |replies| :: replies[k].i == i
  }

  ghost predicate Distinct(replies: seq<Reply>) {
    forall j, k | 0 <= j < k < |replies| :: replies[j].i != replies[k].i
  }

  lemma {:induction false} PositionsCount(replies: seq<Reply>) returns (s: set<int>)
    requires Distinct(replies)
    ensures |s| == |replies|
    ensures forall i | i in s :: Replied(replies, i)
    ensures forall k | 0 <= k < |replies| :: replies[k].i in s
  {
    if replies == [] {
      s := {};
    } else {
      var n := |replies| - 1;
      var t := PositionsCount(replies[..n]);
      forall i | i in t
        ensures Replied(replies, i) && i != replies[n].i
      {
        var k :| 0 <= k < n && replies[..n][k].i == i;
        assert replies[k].i == i;
      }
      s := t + {replies[n].i};
      assert forall k | 0 <= k < n :: replies[..n][k] == replies[k];
    }
  }

  /** As many distinct positions as there are slots: every slot is answered. */
  lemma AllAnswered(replies: seq<Reply>, i: nat)
    requires Distinct(replies) && i < |replies|
    requires forall j | 0 <= j < |replies| :: replies[j].i < |replies|
    ensures Replied(replies, i)
  {
    var s := PositionsCount(replies);
    if i !in s {
      assert s <= UpTo(|replies|) - {i} by {
        forall j | j in s
          ensures j in UpTo(|replies|)
        {
          var k :| 0 <= k < |replies| && replies[k].i == j;
        }
      }
      Smaller(s, UpTo(|replies|) - {i});
    }
  }

  /** The results of a round in input order, failures dropped, behind what was carried over. */
  method FetchDataOutQueue(encode: Encoder, rows: seq<int>, carried: seq<Sample>, replies: seq<Reply>)
    returns (data: seq<Sample>)
    requires Answers(encode, rows, replies)
    ensures data == carried + EncodedRows(encode, rows)
  {
    var slots: seq<Option<Sample>> := seq(|rows|, _ => None);
    for k := 0 to |replies|
      invariant |slots| == |rows|
      invariant forall i | 0 <= i < |rows| :: slots[i] == None || slots[i] == Encoded(encode, rows[i])
      invariant forall j | 0 <= j < k :: slots[replies[j].i] == replies[j].encoded
    {
      if replies[k].encoded.None? {
        assert Encoded(encode, rows[replies[k].i]) == None;
        continue;
      }
      slots := slots[replies[k].i := replies[k].encoded];
    }
    forall i | 0 <= i < |rows|
      ensures slots[i] == Encoded(encode, rows[i])
    {
      AllAnswered(replies, i);
    }
    data := carried;
    for i := 0 to |rows|
      invariant data == carried + EncodedRows(encode, rows[..i])
    {
      assert rows[..i + 1][..i] == rows[..i];
      if slots[i].Some? {
        data := data + [slots[i].value];
      }
    }
    assert rows[..|rows|] == rows;
  }

  /** What has been put out and carried over is what packing everything so far gives. */
  ghost predicate PackedSoFar(packs: Bins, data: seq<Sample>, seen: seq<Sample>, volume: int) {
    && NextFit(seen, volume) == packs + NextFit(data, volume)
    && (data == [] ==> packs == [] && seen == [])
    && (data != [] ==> NextFit(data, volume) == [data])
  }

  /** A round keeps that, and the last one puts everything out. */
  lemma RoundPacksOn(packs: Bins, data: seq<Sample>, seen: seq<Sample>, gained: seq<Sample>, volume: int, finished: bool)
    requires PackedSoFar(packs, data, seen, volume)
    ensures var (bins, carry) := CalculateMatchedGroup(NextFit, data + gained, volume, finished);
            if finished then packs + bins == NextFit(seen + gained, volume)
            else PackedSoFar(packs + bins, carry, seen + gained, volume)
  {
    hide NextFit, CalculateMatchedGroup;
    var (bins, carry) := CalculateMatchedGroup(NextFit, data + gained, volume, finished);
    assert NextFit(seen + gained, volume) == packs + NextFit(data + gained, volume) by {
      if data == [] {
        assert seen + gained == data + gained && packs + NextFit(gained, volume) == NextFit(gained, volume);
      } else {
        SeenIsPacked(seen, data, packs, volume);
        NextFitResumes(seen, gained, volume);
        assert (packs + [data])[..|packs|] == packs;
      }
    }
    NothingPacked(volume);
    if data + gained == [] {
      NothingMatched(volume, finished);
      assert |data + gained| == |data| + |gained|;
      assert seen + gained == [] && packs + bins == [];
    } else {
      MatchedSplits(NextFit, data + gained, volume, finished);
      LastBinAlone(data + gained, volume);
      if !finished {
        assert (bins + [carry])[|bins|] == carry;
        Assoc(packs, bins, [carry]);
      }
    }
  }

  lemma NothingMatched(volume: int, finished: bool)
    ensures CalculateMatchedGroup(NextFit, [], volume, finished) == ([], [])
  {
  }

  lemma SeenIsPacked(seen: seq<Sample>, data: seq<Sample>, packs: Bins, volume: int)
    requires data != [] && NextFit(seen, volume) == packs + [data]
    ensures seen != []
  {
    hide Weight;
    NothingPacked(volume);
  }

  /** One full pass over a finite dataset: the packs hold every encodable row exactly once; with
      next fit they do not depend on the rounds. */
  method StreamPacks(pack: Packer, encode: Encoder, rows: seq<int>, interval: nat, volume: int) returns (packs: Bins)
    requires IsPacker(pack) && 0 < interval
    ensures multiset(Flatten(packs)) == multiset(EncodedRows(encode, rows))
    ensures 0 <= volume ==> forall bin | bin in packs :: Fits(bin, volume)
    ensures pack == NextFit ==> packs == NextFit(EncodedRows(encode, rows), volume)
  {
    hide IsPacker, Flatten, EncodedRows, Fits, NextFit, PackedSoFar, CalculateMatchedGroup;
    packs := [];
    NothingYet(encode, rows, volume);
    if rows == [] {
      return;
    }
    var data: seq<Sample> := [];
    var position := 0;
    var finished := false;
    while !finished
      invariant 0 <= position <= |rows|
      invariant multiset(Flatten(packs)) + multiset(data) == multiset(EncodedRows(encode, rows[..position]))
      invariant 0 <= volume ==> forall bin | bin in packs :: Fits(bin, volume)
      invariant finished ==> position == |rows| && data == []
      invariant pack == NextFit && !finished ==> PackedSoFar(packs, data, EncodedRows(encode, rows[..position]), volume)
      invariant pack == NextFit && finished ==> packs == NextFit(EncodedRows(encode, rows[..position]), volume)
      decreases !finished, |rows| - position
    {
      var numSamples := if |rows| - position < interval then |rows| - position else interval;
      finished := numSamples != interval;
      var round := rows[position..position + numSamples];
      var replies := RunWorkers(encode, round);
      ghost var carried := data;
      data := FetchDataOutQueue(encode, round, data, replies);
      ghost var before := packs;
      MatchedConserves(pack, data, volume, finished);
      if pack == NextFit {
        RoundPacksOn(packs, carried, EncodedRows(encode, rows[..position]), EncodedRows(encode, round), volume, finished);
      }
      var (bins, carry) := CalculateMatchedGroup(pack, data, volume, finished);
      packs := packs + bins;
      data := carry;
      FlattenConcat(before, bins);
      RoundBalance(Flatten(before), carried, EncodedRows(encode, round), Flatten(bins), carry);
      EncodedRowsAppend(encode, rows[..position], round);
      assert rows[..position] + round == rows[..position + numSamples];
      position := position + numSamples;
    }
    assert rows[..|rows|] == rows;
  }

  lemma RoundBalance(out: seq<Sample>, carried: seq<Sample>, gained: seq<Sample>, packed: seq<Sample>, carry: seq<Sample>)
    requires multiset(packed) + multiset(carry) == multiset(carried + gained)
    ensures multiset(out + packed) + multiset(carry) == (multiset(out) + multiset(carried)) + multiset(gained)
  {
    assert multiset(out + packed) == multiset(out) + multiset(packed);
    assert multiset(carried + gained) == multiset(carried) + multiset(gained);
    assert multiset(out) + multiset(packed) + multiset(carry) == multiset(out) + (multiset(packed) + multiset(carry));
  }

  lemma NothingYet(encode: Encoder, rows: seq<int>, volume: int)
    ensures PackedSoFar([], [], [], volume) && NextFit([], volume) == []
    ensures Flatten<Sample>([]) == [] && EncodedRows(encode, rows[..0]) == []
    ensures rows == [] ==> EncodedRows(encode, rows) == []
  {
  }
}
