/** The packed dataset as a whole: any number of workers, any interleaving of their messages. */
module PackingDataset {
  import opened Sequences
  import opened Packing
  import opened PackingMerge
  import opened PackingNextFit

  /** Where the lengths are cut into one contiguous chunk per worker. */
  ghost predicate CutsInto(cuts: seq<nat>, workers: nat, n: nat) {
    && |cuts| == workers + 1 && cuts[0] == 0 && cuts[workers] == n
    && forall i, j | 0 <= i <= j <= workers :: cuts[i] <= cuts[j]
  }

  /** The samples of one worker. */
  ghost function ChunkOf(lengths: seq<Length>, cuts: seq<nat>, workers: nat, r: nat): seq<Sample>
    requires CutsInto(cuts, workers, |lengths|) && r < workers
  {
    Samples(cuts[r], lengths[cuts[r]..cuts[r + 1]])
  }

  /** What each worker puts on the queue. */
  ghost function Outs(pack: Packer, lengths: seq<Length>, cuts: seq<nat>, workers: nat, volume: int, batch: nat): seq<seq<Message>>
    requires 0 < batch && CutsInto(cuts, workers, |lengths|)
  {
    seq(workers, r requires 0 <= r < workers =>
      WorkerMessages(pack, r, ChunkOf(lengths, cuts, workers, r), [], volume, batch))
  }

  lemma ChunkNext(lengths: seq<Length>, cuts: seq<nat>, workers: nat, r: nat)
    requires CutsInto(cuts, workers, |lengths|) && r < workers
    ensures Samples(0, lengths[..cuts[r + 1]]) == Samples(0, lengths[..cuts[r]]) + ChunkOf(lengths, cuts, workers, r)
  {
    hide Tokens;
  }

  lemma {:induction false} AllConserved(
    pack: Packer, lengths: seq<Length>, cuts: seq<nat>, workers: nat, r: nat, volume: int, batch: nat)
    requires 0 < batch && IsPacker(pack) && CutsInto(cuts, workers, |lengths|) && r <= workers
    ensures multiset(Flatten(MergedBins(Outs(pack, lengths, cuts, workers, volume, batch)[..r]))) ==
            multiset(Samples(0, lengths[..cuts[r]]))
  {
    hide IsPacker, WorkerMessages, Flatten, BinsOf, Samples, ChunkOf;
    if r == 0 {
      NoBins(lengths);
    } else {
      var outs := Outs(pack, lengths, cuts, workers, volume, batch);
      AllConserved(pack, lengths, cuts, workers, r - 1, volume, batch);
      WorkerConserves(pack, r - 1, ChunkOf(lengths, cuts, workers, r - 1), [], volume, batch);
      assert outs[..r][..r - 1] == outs[..r - 1] && outs[..r][r - 1] == outs[r - 1];
      FlattenConcat(MergedBins(outs[..r - 1]), BinsOf(outs[r - 1]));
      ChunkNext(lengths, cuts, workers, r - 1);
    }
  }

  /** The bins of next fit for each worker's own samples, worker after worker. */
  ghost function ChunkBins(lengths: seq<Length>, cuts: seq<nat>, workers: nat, volume: int): seq<Bins>
    requires CutsInto(cuts, workers, |lengths|)
  {
    seq(workers, r requires 0 <= r < workers => NextFit(Samples(cuts[r], lengths[cuts[r]..cuts[r + 1]]), volume))
  }

  lemma {:induction false} MergedIsNextFit(
    lengths: seq<Length>, cuts: seq<nat>, workers: nat, r: nat, volume: int, batch: nat)
    requires 0 < batch && CutsInto(cuts, workers, |lengths|) && r <= workers
    ensures MergedBins(Outs(NextFit, lengths, cuts, workers, volume, batch)[..r]) ==
            Flatten(ChunkBins(lengths, cuts, workers, volume)[..r])
  {
    hide WorkerMessages, NextFit, BinsOf, Samples, MergedBins, Flatten, Outs, ChunkBins, ChunkOf;
    var outs, bins := Outs(NextFit, lengths, cuts, workers, volume, batch), ChunkBins(lengths, cuts, workers, volume);
    OutsAndBinsAt(lengths, cuts, workers, volume, batch);
    if r == 0 {
      assert outs[..0] == [] && bins[..0] == [];
      NothingMerged();
    } else {
      MergedIsNextFit(lengths, cuts, workers, r - 1, volume, batch);
      WorkerPacks(r - 1, ChunkOf(lengths, cuts, workers, r - 1), [], volume, batch);
      assert [] + ChunkOf(lengths, cuts, workers, r - 1) == ChunkOf(lengths, cuts, workers, r - 1);
      MergedNext(outs, r - 1);
      FlattenNext(bins, r - 1);
    }
  }

  lemma OutsAndBinsAt(lengths: seq<Length>, cuts: seq<nat>, workers: nat, volume: int, batch: nat)
    requires 0 < batch && CutsInto(cuts, workers, |lengths|)
    ensures |Outs(NextFit, lengths, cuts, workers, volume, batch)| == |ChunkBins(lengths, cuts, workers, volume)| == workers
    ensures forall r | 0 <= r < workers ::
              && Outs(NextFit, lengths, cuts, workers, volume, batch)[r] ==
                 WorkerMessages(NextFit, r, ChunkOf(lengths, cuts, workers, r), [], volume, batch)
              && ChunkBins(lengths, cuts, workers, volume)[r] == NextFit(ChunkOf(lengths, cuts, workers, r), volume)
  {
    hide WorkerMessages, NextFit, Samples;
  }

  lemma FlattenNext<T>(parts: seq<seq<T>>, r: nat)
    requires r < |parts|
    ensures Flatten(parts[..r + 1]) == Flatten(parts[..r]) + parts[r]
  {
    assert parts[..r + 1][..r] == parts[..r];
  }

  lemma NothingMerged()
    ensures MergedBins([]) == [] && Flatten<seq<Sample>>([]) == []
  {
  }

  lemma MergedNext(outs: seq<seq<Message>>, r: nat)
    requires r < |outs|
    ensures MergedBins(outs[..r + 1]) == MergedBins(outs[..r]) + BinsOf(outs[r])
  {
    hide BinsOf;
    assert outs[..r + 1][..r] == outs[..r];
  }

  /** With next fit the packs, read one after the other, are the rows in order. */
  lemma {:induction false} NextFitKeepsOrder(lengths: seq<Length>, cuts: seq<nat>, workers: nat, r: nat, volume: int)
    requires CutsInto(cuts, workers, |lengths|) && r <= workers
    ensures Flatten(AllRows(Flatten(ChunkBins(lengths, cuts, workers, volume)[..r]))) == seq(cuts[r], i => i)
  {
    hide NextFit, AllRows, Flatten, Samples, ChunkBins, ChunkOf, Rows;
    var bins := ChunkBins(lengths, cuts, workers, volume);
    OutsAndBinsAt(lengths, cuts, workers, volume, 1);
    if r == 0 {
      NoBins(lengths);
      assert bins[..0] == [];
      FlattenCons<seq<Sample>>([]);
      NoRows();
    } else {
      NextFitKeepsOrder(lengths, cuts, workers, r - 1, volume);
      assert bins[..r] == bins[..r - 1] + [bins[r - 1]];
      NextChunkRows(bins[..r - 1], bins[r - 1]);
      NextFitConserves(ChunkOf(lengths, cuts, workers, r - 1), volume);
      ChunkRows(lengths, cuts, workers, r - 1);
      CountOn(cuts[r - 1], cuts[r]);
    }
  }

  lemma NoRows()
    ensures Flatten(AllRows([])) == []
  {
  }

  lemma NextChunkRows(before: seq<Bins>, bins: Bins)
    ensures Flatten(AllRows(Flatten(before + [bins]))) == Flatten(AllRows(Flatten(before))) + Rows(Flatten(bins))
  {
    hide Flatten, AllRows, Rows;
    FlattenSnoc(before, bins);
    FlattenConcat(Flatten(before), bins);
    RowsAppend(Flatten(Flatten(before)), Flatten(bins));
    ChainOfRows(Flatten(before));
    ChainOfRows(Flatten(before) + bins);
  }

  lemma CountOn(m: nat, n: nat)
    requires m <= n
    ensures seq(n, i => i) == seq(m, i => i) + seq(n - m, i => i + m)
  {
  }

  lemma ChunkRows(lengths: seq<Length>, cuts: seq<nat>, workers: nat, r: nat)
    requires CutsInto(cuts, workers, |lengths|) && r < workers
    ensures Rows(ChunkOf(lengths, cuts, workers, r)) == seq(cuts[r + 1] - cuts[r], i => i + cuts[r])
  {
  }

  lemma NoBins(lengths: seq<Length>)
    ensures Flatten([]) == [] == Samples(0, lengths[..0])
  {
  }

  lemma {:induction false} MergedFits(
    pack: Packer, lengths: seq<Length>, cuts: seq<nat>, workers: nat, r: nat, volume: int, batch: nat, bin: seq<Sample>)
    requires 0 < batch && IsPacker(pack) && CutsInto(cuts, workers, |lengths|) && r <= workers && 0 <= volume
    requires bin in MergedBins(Outs(pack, lengths, cuts, workers, volume, batch)[..r])
    ensures Fits(bin, volume)
  {
    hide IsPacker, WorkerMessages, BinsOf, Fits, ChunkOf;
    if 0 < r {
      var outs := Outs(pack, lengths, cuts, workers, volume, batch);
      assert outs[..r][..r - 1] == outs[..r - 1] && outs[..r][r - 1] == outs[r - 1];
      if bin in MergedBins(outs[..r - 1]) {
        MergedFits(pack, lengths, cuts, workers, r - 1, volume, batch, bin);
      } else {
        WorkerFits(pack, r - 1, ChunkOf(lengths, cuts, workers, r - 1), [], volume, batch, bin);
      }
    }
  }

  // ---- from samples to rows -------------------------------------------------------------

  lemma RowsAppend(a: seq<Sample>, b: seq<Sample>)
    ensures Rows(a + b) == Rows(a) + Rows(b)
  {
  }

  /** Taking one sample out takes its row out. */
  lemma RowsWithout(b: seq<Sample>, j: nat)
    requires j < |b|
    ensures multiset(b) == multiset(b[..j] + b[j + 1..]) + multiset{b[j]}
    ensures multiset(Rows(b)) == multiset(Rows(b[..j] + b[j + 1..])) + multiset{b[j].row}
  {
    assert b == b[..j] + ([b[j]] + b[j + 1..]);
    RowsAppend(b[..j], [b[j]] + b[j + 1..]);
    RowsAppend([b[j]], b[j + 1..]);
    RowsAppend(b[..j], b[j + 1..]);
    assert Rows([b[j]]) == [b[j].row];
  }

  /** Rearranged samples give rearranged rows. */
  lemma {:induction false} RowsPermute(a: seq<Sample>, b: seq<Sample>)
    requires multiset(a) == multiset(b)
    ensures multiset(Rows(a)) == multiset(Rows(b))
  {
    hide Rows;
    if a == [] {
      assert |b| == |multiset(b)| == 0;
    } else {
      var n := |a| - 1;
      assert a[n] in multiset(b);
      var j :| 0 <= j < |b| && b[j] == a[n];
      var c := b[..j] + b[j + 1..];
      RowsWithout(a, n);
      RowsWithout(b, j);
      assert a[..n] + a[n + 1..] == a[..n];
      assert multiset(a[..n]) == multiset(a) - multiset{a[n]};
      assert multiset(c) == multiset(b) - multiset{b[j]};
      RowsPermute(a[..n], c);
    }
  }

  lemma {:induction false} ChainOfRows(bins: Bins)
    ensures Flatten(AllRows(bins)) == Rows(Flatten(bins))
  {
    if bins != [] {
      var n := |bins| - 1;
      ChainOfRows(bins[..n]);
      assert AllRows(bins)[..n] == AllRows(bins[..n]);
      assert Rows(Flatten(bins[..n]) + bins[n]) == Rows(Flatten(bins[..n])) + Rows(bins[n]);
    }
  }

  lemma {:induction false} InFlatten(bins: Bins, i: nat, x: Sample)
    requires i < |bins| && x in bins[i]
    ensures x in Flatten(bins)
  {
    var n := |bins| - 1;
    if i < n {
      InFlatten(bins[..n], i, x);
    }
  }

  /** The number of tokens of the given rows. */
  function TokensOf(lengths: seq<Length>, rows: seq<int>): int {
    if rows == [] then 0
    else
      var row := rows[|rows| - 1];
      TokensOf(lengths, rows[..|rows| - 1]) + (if 0 <= row < |lengths| then Tokens(lengths[row]) else 0)
  }

  /** Each row counts its own tokens. */
  lemma {:induction false} TokensOfAdd(lengths: seq<Length>, row: int, a: seq<int>, b: seq<int>)
    ensures TokensOf(lengths, []) == 0
    ensures 0 <= row < |lengths| ==> TokensOf(lengths, [row]) == Tokens(lengths[row])
    ensures TokensOf(lengths, a + b) == TokensOf(lengths, a) + TokensOf(lengths, b)
  {
    hide Tokens;
    assert TokensOf(lengths, [row][..0]) == 0;
    if b == [] {
      assert a + b == a;
    } else {
      assert (a + b)[..|a + b| - 1] == a + b[..|b| - 1];
      TokensOfAdd(lengths, row, a, b[..|b| - 1]);
    }
  }

  /** A sample of the dataset, with its own length. */
  predicate Genuine(lengths: seq<Length>, x: Sample) {
    0 <= x.row < |lengths| && x.length == Tokens(lengths[x.row])
  }

  lemma {:induction false} WeightIsTokens(lengths: seq<Length>, bin: seq<Sample>)
    requires forall i | 0 <= i < |bin| :: Genuine(lengths, bin[i])
    ensures Weight(bin) == TokensOf(lengths, Rows(bin))
  {
    if bin != [] {
      var n := |bin| - 1;
      WeightIsTokens(lengths, bin[..n]);
      assert Rows(bin)[..n] == Rows(bin[..n]);
    }
  }

  lemma AllGenuine(lengths: seq<Length>, bins: Bins)
    requires multiset(Flatten(bins)) == multiset(Samples(0, lengths))
    ensures forall i, k | 0 <= i < |bins| && 0 <= k < |bins[i]| :: Genuine(lengths, bins[i][k])
  {
    forall i, k | 0 <= i < |bins| && 0 <= k < |bins[i]|
      ensures Genuine(lengths, bins[i][k])
    {
      var x := bins[i][k];
      InFlatten(bins, i, x);
      assert x in multiset(Flatten(bins));
      assert x in multiset(Samples(0, lengths));
    }
  }

  // ---- the dataset ----------------------------------------------------------------------

  /** Every row is in exactly one pack; each pack's length is its rows' tokens, and is within the
      packing length when every sample is. */
  ghost predicate Packs(lengths: seq<Length>, volume: int, packedIdx: seq<seq<int>>, packedLength: seq<int>) {
    && multiset(Flatten(packedIdx)) == multiset(seq(|lengths|, i => i))
    && |packedIdx| == |packedLength|
    && (forall i, k | 0 <= i < |packedIdx| && 0 <= k < |packedIdx[i]| :: 0 <= packedIdx[i][k] < |lengths|)
    && (forall i | 0 <= i < |packedIdx| :: packedLength[i] == TokensOf(lengths, packedIdx[i]))
    && (0 <= volume && (forall i | 0 <= i < |lengths| :: Tokens(lengths[i]) <= volume) ==>
          forall i | 0 <= i < |packedLength| :: packedLength[i] <= volume)
  }

  lemma BinsPack(lengths: seq<Length>, volume: int, bins: Bins)
    requires multiset(Flatten(bins)) == multiset(Samples(0, lengths))
    requires 0 <= volume ==> forall bin | bin in bins :: Fits(bin, volume)
    ensures Packs(lengths, volume, AllRows(bins), Weights(bins))
  {
    hide Flatten, TokensOf, Weight;
    ChainOfRows(bins);
    RowsPermute(Flatten(bins), Samples(0, lengths));
    assert Rows(Samples(0, lengths)) == seq(|lengths|, i => i);
    AllGenuine(lengths, bins);
    forall i | 0 <= i < |bins|
      ensures Weight(bins[i]) == TokensOf(lengths, Rows(bins[i]))
      ensures 0 <= volume && (forall k | 0 <= k < |lengths| :: Tokens(lengths[k]) <= volume) ==> Weight(bins[i]) <= volume
    {
      WeightIsTokens(lengths, bins[i]);
      assert bins[i] in bins;
      if |bins[i]| == 1 {
        WeightOfOne(bins[i][0]);
        assert bins[i] == [bins[i][0]];
      }
    }
  }

  lemma WeightOfOne(x: Sample)
    ensures Weight([x]) == x.length
  {
    assert Weight([x][..0]) == 0;
  }

  /** The outcome does not depend on the interleaving: it is what chaining the workers gives. */
  method BuildPackingDataset(pack: Packer, lengths: seq<Length>, cuts: seq<nat>, workers: nat, volume: int, batch: nat,
                             queue: seq<Message>)
    returns (packedIdx: seq<seq<int>>, packedLength: seq<int>)
    requires 0 < batch && IsPacker(pack) && CutsInto(cuts, workers, |lengths|)
    requires Interleaves(queue, Outs(pack, lengths, cuts, workers, volume, batch))
    ensures Packs(lengths, volume, packedIdx, packedLength)
    ensures packedIdx == AllRows(MergedBins(Outs(pack, lengths, cuts, workers, volume, batch)))
    ensures pack == NextFit ==> packedIdx == AllRows(Flatten(ChunkBins(lengths, cuts, workers, volume)))
  {
    hide IsPacker, Packs, WorkerMessages, MergedBins, Interleaves, Flatten, ChunkOf, NextFit;
    ghost var outs := Outs(pack, lengths, cuts, workers, volume, batch);
    forall r | 0 <= r < workers
      ensures WellEnded(outs[r], r)
    {
      WorkerEnds(pack, r, ChunkOf(lengths, cuts, workers, r), [], volume, batch);
    }
    packedIdx, packedLength := MergeMessages(queue, outs, workers);
    AllConserved(pack, lengths, cuts, workers, workers, volume, batch);
    assert outs[..workers] == outs && lengths[..cuts[workers]] == lengths;
    if pack == NextFit {
      MergedIsNextFit(lengths, cuts, workers, workers, volume, batch);
      ghost var bins := ChunkBins(lengths, cuts, workers, volume);
      assert bins[..workers] == bins;
    }
    forall bin | bin in MergedBins(outs) && 0 <= volume
      ensures Fits(bin, volume)
    {
      MergedFits(pack, lengths, cuts, workers, workers, volume, batch, bin);
    }
    BinsPack(lengths, volume, MergedBins(outs));
  }
}
