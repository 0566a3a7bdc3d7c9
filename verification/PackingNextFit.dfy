/** A packer that meets the contract, and for which packing in rounds is packing at once. */
module PackingNextFit {
  import opened Sequences
  import opened Packing

  /** Put each sample into the last bin if it fits there, else open a new one. */
  function NextFit(samples: seq<Sample>, volume: int): Bins {
    if samples == [] then []
    else
      var bins := NextFit(samples[..|samples| - 1], volume);
      var x := samples[|samples| - 1];
      var n := |bins| - 1;
      if bins != [] && Weight(bins[n]) + x.length <= volume then bins[..n] + [bins[n] + [x]] else bins + [[x]]
  }

  lemma IntoLastBin(bins: Bins, x: Sample)
    requires bins != []
    ensures Flatten(bins[..|bins| - 1] + [bins[|bins| - 1] + [x]]) == Flatten(bins) + [x]
  {
    hide Flatten;
    var n := |bins| - 1;
    FlattenSnoc(bins[..n], bins[n] + [x]);
    FlattenSnoc(bins[..n], bins[n]);
    assert bins == bins[..n] + [bins[n]];
    Assoc(Flatten(bins[..n]), bins[n], [x]);
  }

  lemma IntoNewBin(bins: Bins, x: Sample)
    ensures Flatten(bins + [[x]]) == Flatten(bins) + [x]
  {
    assert (bins + [[x]])[..|bins|] == bins;
  }

  lemma {:induction false} NextFitConserves(samples: seq<Sample>, volume: int)
    ensures Flatten(NextFit(samples, volume)) == samples
  {
    hide Weight, Flatten;
    if samples == [] {
      FlattenCons<Sample>([]);
    } else {
      var m := |samples| - 1;
      var bins, x := NextFit(samples[..m], volume), samples[m];
      NextFitConserves(samples[..m], volume);
      if bins != [] {
        IntoLastBin(bins, x);
      }
      IntoNewBin(bins, x);
    }
  }

  lemma {:induction false} NextFitFits(samples: seq<Sample>, volume: int, bin: seq<Sample>)
    requires bin in NextFit(samples, volume)
    ensures Fits(bin, volume)
  {
    var m := |samples| - 1;
    var bins, x := NextFit(samples[..m], volume), samples[m];
    if bin in bins {
      NextFitFits(samples[..m], volume, bin);
    } else if bin != [x] {
      var n := |bins| - 1;
      assert bin == bins[n] + [x];
      assert bin[..|bins[n]|] == bins[n];
    }
  }

  lemma NextFitIsPacker()
    ensures IsPacker(NextFit)
  {
    forall samples, volume: int {
      NextFitConserves(samples, volume);
    }
    forall samples, volume: int, bin | bin in NextFit(samples, volume) {
      NextFitFits(samples, volume, bin);
    }
  }

  // ---- packing in rounds ----------------------------------------------------------------

  /** The last bin packs to itself. */
  lemma {:induction false} LastBinAlone(samples: seq<Sample>, volume: int)
    requires samples != []
    ensures var bins := NextFit(samples, volume);
            bins != [] && bins[|bins| - 1] != [] && NextFit(bins[|bins| - 1], volume) == [bins[|bins| - 1]]
  {
    var m := |samples| - 1;
    var bins, x := NextFit(samples[..m], volume), samples[m];
    if m == 0 {
      assert [x][..0] == [];
    } else {
      LastBinAlone(samples[..m], volume);
      var last := bins[|bins| - 1];
      assert (last + [x])[..|last|] == last;
      assert [x][..0] == [];
    }
  }

  /** What comes later only ever joins the last bin. */
  lemma {:induction false} NextFitResumes(a: seq<Sample>, b: seq<Sample>, volume: int)
    requires a != []
    ensures var bins := NextFit(a, volume);
            bins != [] && NextFit(a + b, volume) == bins[..|bins| - 1] + NextFit(bins[|bins| - 1] + b, volume)
  {
    hide NextFit, Place;
    var bins := NextFit(a, volume);
    LastBinAlone(a, volume);
    var front, last := bins[..|bins| - 1], bins[|bins| - 1];
    if b == [] {
      assert a + b == a && last + b == last && bins == front + [last];
    } else {
      var m, x := |b| - 1, b[|b| - 1];
      NextFitResumes(a, b[..m], volume);
      Resumed(front, last + b[..m], x, volume);
      NextFitStep(a + b[..m], x, volume);
      Unsnoc(a, b);
      Unsnoc(last, b);
    }
  }

  lemma Unsnoc(a: seq<Sample>, b: seq<Sample>)
    requires b != []
    ensures a + b == (a + b[..|b| - 1]) + [b[|b| - 1]]
  {
  }

  /** Where one more sample goes. */
  function Place(bins: Bins, x: Sample, volume: int): Bins {
    var n := |bins| - 1;
    if bins != [] && Weight(bins[n]) + x.length <= volume then bins[..n] + [bins[n] + [x]] else bins + [[x]]
  }

  lemma NextFitStep(samples: seq<Sample>, x: Sample, volume: int)
    ensures NextFit(samples + [x], volume) == Place(NextFit(samples, volume), x, volume)
  {
    assert (samples + [x])[..|samples|] == samples;
  }

  /** The bins before the last are not looked at. */
  lemma Resumed(front: Bins, rest: seq<Sample>, x: Sample, volume: int)
    requires rest != []
    ensures Place(front + NextFit(rest, volume), x, volume) == front + NextFit(rest + [x], volume)
  {
    hide NextFit, Weight, Place;
    NextFitStep(rest, x, volume);
    LastBinAlone(rest, volume);
    PlacedBehind(front, NextFit(rest, volume), x, volume);
  }

  lemma PlacedBehind(front: Bins, bins: Bins, x: Sample, volume: int)
    requires bins != []
    ensures Place(front + bins, x, volume) == front + Place(bins, x, volume)
  {
    hide Weight;
    var n := |bins| - 1;
    assert (front + bins)[..|front| + n] == front + bins[..n];
    Assoc(front, bins[..n], [bins[n] + [x]]);
    Assoc(front, bins, [[x]]);
  }

  /** However a worker cuts its samples into rounds, its bins are those of packing all of them. */
  lemma {:induction false} WorkerPacks(
    rank: int, data: seq<Sample>, carry: seq<Sample>, volume: int, batch: nat)
    requires 0 < batch
    ensures BinsOf(WorkerMessages(NextFit, rank, data, carry, volume, batch)) == NextFit(carry + data, volume)
    decreases |data|, |carry|
  {
    hide BinsOf, NextFit, CalculateMatchedGroup, WorkerMessages;
    var taken := if |data| < batch then data else data[..batch];
    var left := data[|taken|..];
    WorkerNext(NextFit, rank, data, carry, volume, batch);
    assert |carry + taken| == |carry| + |taken|;
    if carry + taken == [] {
      EndOnly(rank);
      NothingPacked(volume);
      assert carry + data == [];
    } else {
      var done := |data| <= batch;
      var (bins, rest) := CalculateMatchedGroup(NextFit, carry + taken, volume, done);
      CarryShrinks(NextFit, carry + taken, volume, done);
      WorkerPacks(rank, left, rest, volume, batch);
      BinsOfCons(Packed(rank, bins, |taken|), WorkerMessages(NextFit, rank, left, rest, volume, batch));
      Regroup(carry, taken, left, data);
      RoundPacks(carry + taken, left, volume, done);
    }
  }

  lemma Regroup(carry: seq<Sample>, taken: seq<Sample>, left: seq<Sample>, data: seq<Sample>)
    requires |taken| <= |data| && taken == data[..|taken|] && left == data[|taken|..]
    ensures carry + data == (carry + taken) + left
  {
  }

  /** One round and packing the rest behind its carry. */
  lemma RoundPacks(now: seq<Sample>, left: seq<Sample>, volume: int, isFinished: bool)
    requires now != [] && (isFinished ==> left == [])
    ensures var (bins, carry) := CalculateMatchedGroup(NextFit, now, volume, isFinished);
            NextFit(now + left, volume) == bins + NextFit(carry + left, volume)
  {
    hide NextFit, CalculateMatchedGroup;
    var (bins, carry) := CalculateMatchedGroup(NextFit, now, volume, isFinished);
    MatchedSplits(NextFit, now, volume, isFinished);
    NothingPacked(volume);
    if isFinished {
      assert now + left == now && carry + left == [] && bins + [] == bins;
    } else {
      LastBinAlone(now, volume);
      NextFitResumes(now, left, volume);
      assert (bins + [carry])[..|bins|] == bins;
    }
  }

  lemma NothingPacked(volume: int)
    ensures NextFit([], volume) == []
  {
  }
}
