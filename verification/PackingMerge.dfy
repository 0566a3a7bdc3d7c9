/** Merging the interleaved messages of all packing workers into one index. */
module PackingMerge {
  import opened Sequences
  import opened Sets
  import opened Packing

  /** The messages of one rank, in order. */
  function Only(queue: seq<Message>, rank: int): seq<Message> {
    if queue == [] then []
    else
      var m := queue[|queue| - 1];
      Only(queue[..|queue| - 1], rank) + (if m.rank == rank then [m] else [])
  }

  /** The queue interleaves the workers' messages, each worker's in its own order. */
  ghost predicate Interleaves(queue: seq<Message>, outs: seq<seq<Message>>) {
    && (forall i | 0 <= i < |queue| :: 0 <= queue[i].rank < |outs|)
    && (forall r | 0 <= r < |outs| :: Only(queue, r) == outs[r])
  }

  function Rows(bin: seq<Sample>): seq<int> {
    seq(|bin|, i requires 0 <= i < |bin| => bin[i].row)
  }

  function AllRows(bins: Bins): seq<seq<int>> {
    seq(|bins|, i requires 0 <= i < |bins| => Rows(bins[i]))
  }

  function Weights(bins: Bins): seq<int> {
    seq(|bins|, i requires 0 <= i < |bins| => Weight(bins[i]))
  }

  /** The bins of all workers, by rank. */
  function MergedBins(outs: seq<seq<Message>>): Bins {
    if outs == [] then [] else MergedBins(outs[..|outs| - 1]) + BinsOf(outs[|outs| - 1])
  }

  lemma {:induction false} OnlyTakesPrefix(queue: seq<Message>, k: nat, rank: int)
    requires k <= |queue|
    ensures Only(queue[..k], rank) <= Only(queue, rank)
    ensures k < |queue| && queue[k].rank == rank ==>
              |Only(queue[..k], rank)| < |Only(queue, rank)| && Only(queue, rank)[|Only(queue[..k], rank)|] == queue[k]
    decreases |queue| - k
  {
    if k == |queue| {
      assert queue[..k] == queue;
    } else {
      OnlyTakesPrefix(queue, k + 1, rank);
      assert queue[..k + 1][..k] == queue[..k];
    }
  }

  /** A rank whose end sign is among the first k messages has sent all of its messages by then. */
  lemma EndedMeansAll(queue: seq<Message>, outs: seq<seq<Message>>, k: nat, i: nat)
    requires Interleaves(queue, outs) && i < k <= |queue| && queue[i].Finished?
    requires WellEnded(outs[queue[i].rank], queue[i].rank)
    ensures Only(queue[..k], queue[i].rank) == outs[queue[i].rank]
  {
    var r := queue[i].rank;
    OnlyTakesPrefix(queue, i, r);
    OnlyTakesPrefix(queue, i + 1, r);
    OnlyTakesPrefix(queue[..k], i + 1, r);
    OnlyTakesPrefix(queue, k, r);
    assert queue[..k][..i + 1] == queue[..i + 1] && queue[..i + 1][..i] == queue[..i];
    var at := |Only(queue[..i], r)|;
    assert outs[r][at] == queue[i];
    assert at == |outs[r]| - 1;
  }

  /** Every rank's end sign is in the queue. */
  lemma EndIsQueued(queue: seq<Message>, outs: seq<seq<Message>>, r: nat) returns (i: nat)
    requires Interleaves(queue, outs) && r < |outs| && WellEnded(outs[r], r)
    ensures i < |queue| && queue[i] == Finished(r)
  {
    i := LastOf(queue, r);
  }

  lemma {:induction false} LastOf(queue: seq<Message>, r: int) returns (i: nat)
    requires Only(queue, r) != []
    ensures i < |queue| && queue[i] == Only(queue, r)[|Only(queue, r)| - 1]
  {
    var n := |queue| - 1;
    if queue[n].rank == r {
      i := n;
    } else {
      i := LastOf(queue[..n], r);
    }
  }

  // ---- the merge loop -------------------------------------------------------------------

  /** Per-rank lists after the messages seen so far. */
  ghost predicate Gathered(seen: seq<Message>, perRank: seq<seq<seq<int>>>, perLength: seq<seq<int>>) {
    && |perRank| == |perLength|
    && forall r | 0 <= r < |perRank| ::
         perRank[r] == AllRows(BinsOf(Only(seen, r))) && perLength[r] == Weights(BinsOf(Only(seen, r)))
  }

  lemma OnlySnoc(seen: seq<Message>, m: Message, r: int)
    ensures Only(seen + [m], r) == if r == m.rank then Only(seen, r) + [m] else Only(seen, r)
  {
    assert (seen + [m])[..|seen|] == seen;
  }

  lemma GatherOne(seen: seq<Message>, m: Message, perRank: seq<seq<seq<int>>>, perLength: seq<seq<int>>)
    requires Gathered(seen, perRank, perLength) && 0 <= m.rank < |perRank|
    ensures m.Finished? ==> Gathered(seen + [m], perRank, perLength)
    ensures m.Packed? ==> Gathered(seen + [m], perRank[m.rank := perRank[m.rank] + AllRows(m.bins)],
                                   perLength[m.rank := perLength[m.rank] + Weights(m.bins)])
  {
    hide Weight, Only;
    forall r
      ensures Only(seen + [m], r) == if r == m.rank then Only(seen, r) + [m] else Only(seen, r)
    {
      OnlySnoc(seen, m, r);
    }
    var mine := Only(seen, m.rank);
    assert (mine + [m])[..|mine|] == mine;
    assert BinsOf(mine + [m]) == if m.Packed? then BinsOf(mine) + m.bins else BinsOf(mine);
    if m.Packed? {
      assert AllRows(BinsOf(mine) + m.bins) == AllRows(BinsOf(mine)) + AllRows(m.bins);
      assert Weights(BinsOf(mine) + m.bins) == Weights(BinsOf(mine)) + Weights(m.bins);
    }
  }

  /** The workers whose end sign is among the first k messages. */
  ghost predicate Ended(queue: seq<Message>, k: nat, ended: set<int>, workers: nat) {
    && k <= |queue| && ended <= UpTo(workers)
    && forall r | 0 <= r < workers :: r in ended <==> Finished(r) in queue[..k]
  }

  lemma EndedNext(queue: seq<Message>, outs: seq<seq<Message>>, k: nat, ended: set<int>)
    requires Interleaves(queue, outs) && forall r | 0 <= r < |outs| :: WellEnded(outs[r], r)
    requires Ended(queue, k, ended, |outs|) && k < |queue|
    ensures queue[k].Finished? ==> queue[k].rank !in ended && Ended(queue, k + 1, ended + {queue[k].rank}, |outs|)
    ensures queue[k].Packed? ==> Ended(queue, k + 1, ended, |outs|)
  {
    hide Only, WellEnded;
    assert queue[..k + 1] == queue[..k] + [queue[k]];
    if queue[k].Finished? {
      EndsOnce(queue, outs, k);
    }
  }

  /** Once all have ended, each worker's messages have all been taken. */
  lemma AllTaken(queue: seq<Message>, outs: seq<seq<Message>>, k: nat, ended: set<int>)
    requires Interleaves(queue, outs) && forall r | 0 <= r < |outs| :: WellEnded(outs[r], r)
    requires Ended(queue, k, ended, |outs|) && |ended| >= |outs|
    ensures forall r | 0 <= r < |outs| :: Only(queue[..k], r) == outs[r]
  {
    hide Only, WellEnded;
    Smaller(ended, UpTo(|outs|));
    forall r | 0 <= r < |outs|
      ensures Only(queue[..k], r) == outs[r]
    {
      assert Finished(r) in queue[..k];
      var i :| 0 <= i < k && queue[..k][i] == Finished(r);
      EndedMeansAll(queue, outs, k, i);
    }
  }

  /** The master's loop: it takes messages until every worker has finished, then chains the
      workers' lists by rank. */
  method MergeMessages(queue: seq<Message>, ghost outs: seq<seq<Message>>, workers: nat)
    returns (packedIdx: seq<seq<int>>, packedLength: seq<int>)
    requires workers == |outs| && Interleaves(queue, outs)
    requires forall r | 0 <= r < |outs| :: WellEnded(outs[r], r)
    ensures packedIdx == AllRows(MergedBins(outs)) && packedLength == Weights(MergedBins(outs))
    ensures RowsAndWeights(MergedBins(outs), packedIdx, packedLength)
  {
    hide Only, BinsOf, AllRows, Weights, MergedBins, Weight, Flatten, Ended, WellEnded, Gathered, RowsAndWeights;
    var perRank := seq(workers, _ => []);
    var perLength := seq(workers, _ => []);
    NothingGathered(queue, perRank, perLength);
    var finished := 0;
    ghost var ended: set<int> := {};
    var k := 0;
    while finished < workers
      invariant 0 <= k <= |queue| && |perRank| == |perLength| == workers
      invariant Gathered(queue[..k], perRank, perLength)
      invariant finished == |ended| && Ended(queue, k, ended, workers)
      decreases |queue| - k
    {
      StillQueued(queue, outs, k, ended);
      EndedNext(queue, outs, k, ended);
      var m := queue[k];
      assert queue[..k + 1] == queue[..k] + [m];
      GatherOne(queue[..k], m, perRank, perLength);
      if m.Finished? {
        ended := ended + {m.rank};
        finished := finished + 1;
      } else {
        perRank := perRank[m.rank := perRank[m.rank] + AllRows(m.bins)];
        perLength := perLength[m.rank := perLength[m.rank] + Weights(m.bins)];
      }
      k := k + 1;
    }
    AllTaken(queue, outs, k, ended);
    AllGathered(queue[..k], outs, perRank, perLength);
    packedIdx := Flatten(perRank);
    packedLength := Flatten(perLength);
    AreRowsAndWeights(MergedBins(outs));
  }

  /** Each pack lists its bin's rows in order, next to the bin's weight. */
  ghost predicate RowsAndWeights(bins: Bins, packedIdx: seq<seq<int>>, packedLength: seq<int>) {
    && |packedIdx| == |packedLength| == |bins|
    && forall i | 0 <= i < |bins| ::
         && packedLength[i] == Weight(bins[i]) && |packedIdx[i]| == |bins[i]|
         && forall k | 0 <= k < |bins[i]| :: packedIdx[i][k] == bins[i][k].row
  }

  lemma AreRowsAndWeights(bins: Bins)
    ensures RowsAndWeights(bins, AllRows(bins), Weights(bins))
  {
    hide Weight;
  }

  lemma AllGathered(seen: seq<Message>, outs: seq<seq<Message>>, perRank: seq<seq<seq<int>>>, perLength: seq<seq<int>>)
    requires Gathered(seen, perRank, perLength) && |perRank| == |outs|
    requires forall r | 0 <= r < |outs| :: Only(seen, r) == outs[r]
    ensures Flatten(perRank) == AllRows(MergedBins(outs)) && Flatten(perLength) == Weights(MergedBins(outs))
  {
    hide Only, BinsOf, AllRows, Weights, MergedBins, Flatten;
    ChainsAreMerged(outs, perRank, perLength);
  }

  lemma NothingGathered(queue: seq<Message>, perRank: seq<seq<seq<int>>>, perLength: seq<seq<int>>)
    requires |perRank| == |perLength|
    requires forall r | 0 <= r < |perRank| :: perRank[r] == [] && perLength[r] == []
    ensures Gathered(queue[..0], perRank, perLength) && Ended(queue, 0, {}, |perRank|)
  {
    assert queue[..0] == [];
  }

  /** While a worker has not finished, its end sign is still to come. */
  lemma StillQueued(queue: seq<Message>, outs: seq<seq<Message>>, k: nat, ended: set<int>)
    requires Interleaves(queue, outs) && forall r | 0 <= r < |outs| :: WellEnded(outs[r], r)
    requires Ended(queue, k, ended, |outs|) && |ended| < |outs|
    ensures k < |queue| && 0 <= queue[k].rank < |outs|
  {
    hide Only, WellEnded;
    Smaller(ended, UpTo(|outs|));
    var r :| r in UpTo(|outs|) && r !in ended;
    var i := EndIsQueued(queue, outs, r);
    InPrefix(queue, k, i);
  }

  lemma InPrefix(queue: seq<Message>, k: nat, i: nat)
    requires k <= |queue|
    ensures i < k ==> queue[i] in queue[..k]
  {
    if i < k {
      assert queue[..k][i] == queue[i];
    }
  }

  /** No worker ends twice. */
  lemma EndsOnce(queue: seq<Message>, outs: seq<seq<Message>>, k: nat)
    requires Interleaves(queue, outs) && forall r | 0 <= r < |outs| :: WellEnded(outs[r], r)
    requires k < |queue| && queue[k].Finished?
    ensures queue[k] !in queue[..k]
  {
    var r := queue[k].rank;
    forall i | 0 <= i < k
      ensures queue[..k][i] != queue[k]
    {
      if queue[i] == queue[k] {
        EndedMeansAll(queue, outs, k, i);
        OnlyTakesPrefix(queue, k, r);
      }
    }
  }

  lemma {:induction false} ChainsAreMerged(outs: seq<seq<Message>>, perRank: seq<seq<seq<int>>>, perLength: seq<seq<int>>)
    requires |perRank| == |perLength| == |outs|
    requires forall r | 0 <= r < |outs| :: perRank[r] == AllRows(BinsOf(outs[r])) && perLength[r] == Weights(BinsOf(outs[r]))
    ensures Flatten(perRank) == AllRows(MergedBins(outs)) && Flatten(perLength) == Weights(MergedBins(outs))
  {
    hide Weight, BinsOf;
    if outs != [] {
      var n := |outs| - 1;
      ChainsAreMerged(outs[..n], perRank[..n], perLength[..n]);
      var a, b := MergedBins(outs[..n]), BinsOf(outs[n]);
      assert AllRows(a + b) == AllRows(a) + AllRows(b);
      assert Weights(a + b) == Weights(a) + Weights(b);
    }
  }
}
