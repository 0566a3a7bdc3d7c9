/** Packing samples into bins: the matcher, one worker's loop, and the merge of all workers. */
module Packing {
  import opened Sequences

  /** A sample: its row in the dataset and its number of tokens. */
  datatype Sample = Sample(row: int, length: int)

  type Bins = seq<seq<Sample>>

  function Weight(bin: seq<Sample>): int {
    if bin == [] then 0 else Weight(bin[..|bin| - 1]) + bin[|bin| - 1].length
  }

  /** The external bin packer: a function of the samples and the volume. */
  type Packer = (seq<Sample>, int) -> Bins

  /** A bin no heavier than the volume, or a single sample that is. */
  ghost predicate Fits(bin: seq<Sample>, volume: int) {
    Weight(bin) <= volume || |bin| == 1
  }

  /** What is relied on: no sample is lost, duplicated or invented, and no bin is overfull
      without need. */
  ghost predicate IsPacker(pack: Packer) {
    forall samples, volume ::
      && multiset(Flatten(pack(samples, volume))) == multiset(samples)
      && (0 <= volume ==> forall bin | bin in pack(samples, volume) :: Fits(bin, volume))
  }

  /** Bins that are ready, and the samples carried over to the next round. */
  function CalculateMatchedGroup(pack: Packer, samples: seq<Sample>, volume: int, isFinished: bool): (Bins, seq<Sample>) {
    if samples == [] then ([], [])
    else
      var bins := pack(samples, volume);
      if bins != [] && !isFinished then (bins[..|bins| - 1], bins[|bins| - 1]) else (bins, [])
  }

  /** The bins are those of one call of the packer for this volume; unless it is the end, the
      last of them is carried over instead. */
  lemma MatchedSplits(pack: Packer, samples: seq<Sample>, volume: int, isFinished: bool)
    ensures var (bins, carry) := CalculateMatchedGroup(pack, samples, volume, isFinished);
            if samples == [] then bins == [] && carry == []
            else if isFinished then bins == pack(samples, volume) && carry == []
            else if pack(samples, volume) == [] then bins == [] && carry == []
            else bins + [carry] == pack(samples, volume)
  {
    var all := pack(samples, volume);
    if samples != [] && all != [] {
      assert all[..|all| - 1] + [all[|all| - 1]] == all;
    }
  }

  /** Nothing is lost between the bins and the carry. */
  lemma MatchedConserves(pack: Packer, samples: seq<Sample>, volume: int, isFinished: bool)
    requires IsPacker(pack)
    ensures var (bins, carry) := CalculateMatchedGroup(pack, samples, volume, isFinished);
            && multiset(Flatten(bins)) + multiset(carry) == multiset(samples)
            && (0 <= volume ==> forall bin | bin in bins :: Fits(bin, volume))
            && (isFinished ==> carry == [])
  {
    var all := pack(samples, volume);
    if samples != [] && all != [] && !isFinished {
      assert Flatten(all) == Flatten(all[..|all| - 1]) + all[|all| - 1];
      assert forall bin | bin in all[..|all| - 1] :: bin in all;
    }
  }

  /** What a worker puts on the shared queue: finished bins, or the sign that it is done. */
  datatype Message = Packed(rank: int, bins: Bins, dataLen: nat) | Finished(rank: int)

  /** The messages a worker with remaining data and carry still puts on the queue. */
  function WorkerMessages(pack: Packer, rank: int, data: seq<Sample>, carry: seq<Sample>, volume: int, batch: nat): seq<Message>
    requires 0 < batch
    decreases |data|, |carry|
  {
    var taken := if |data| < batch then data else data[..batch];
    if carry + taken == [] then [Finished(rank)]
    else
      var (bins, rest) := CalculateMatchedGroup(pack, carry + taken, volume, |data| <= batch);
      [Packed(rank, bins, |taken|)] + WorkerMessages(pack, rank, data[|taken|..], rest, volume, batch)
  }

  /** A lengths entry: one number, or one per part of the sample. */
  datatype Length = Whole(n: int) | Parts(parts: seq<int>)

  function Sum(parts: seq<int>): int {
    if parts == [] then 0 else Sum(parts[..|parts| - 1]) + parts[|parts| - 1]
  }

  function Tokens(length: Length): int {
    match length
    case Whole(n) => n
    case Parts(parts) => Sum(parts)
  }

  /** A list counts the sum of its parts. */
  lemma {:induction false} TokensAdd(n: int, a: seq<int>, b: seq<int>)
    ensures Tokens(Whole(n)) == n == Tokens(Parts([n])) && Tokens(Parts([])) == 0
    ensures Tokens(Parts(a + b)) == Tokens(Parts(a)) + Tokens(Parts(b))
  {
    assert Sum([n][..0]) == 0;
    if b == [] {
      assert a + b == a;
    } else {
      assert (a + b)[..|a + b| - 1] == a + b[..|b| - 1];
      TokensAdd(n, a, b[..|b| - 1]);
    }
  }

  function Samples(offset: int, lengths: seq<Length>): seq<Sample> {
    seq(|lengths|, i requires 0 <= i < |lengths| => Sample(i + offset, Tokens(lengths[i])))
  }

  /** `data[i:]` and `data[i:i + n]`, also beyond the end. */
  function From(data: seq<Sample>, i: nat): seq<Sample> {
    if i < |data| then data[i..] else []
  }

  function Slice(data: seq<Sample>, i: nat, n: nat): seq<Sample> {
    if i + n < |data| then data[i..i + n] else From(data, i)
  }

  lemma SliceTakes(data: seq<Sample>, i: nat, n: nat)
    requires 0 < n
    ensures var rest := From(data, i);
            && Slice(data, i, n) == (if |rest| < n then rest else rest[..n])
            && rest[|Slice(data, i, n)|..] == From(data, i + n)
            && (i + n >= |data| <==> |rest| <= n)
            && (rest != [] ==> |From(data, i + n)| < |rest|)
            && (rest == [] ==> From(data, i + n) == [])
  {
  }

  method CreatePackedIdx(pack: Packer, rank: int, offset: int, lengths: seq<Length>, volume: int, batch: nat)
    returns (out: seq<Message>)
    requires 0 < batch
    ensures out == WorkerMessages(pack, rank, Samples(offset, lengths), [], volume, batch)
  {
    hide WorkerMessages, CalculateMatchedGroup, From, Slice, Completes;
    var data := Samples(offset, lengths);
    var i := 0;
    var inputData := [];
    out := [];
    ghost var all := WorkerMessages(pack, rank, data, [], volume, batch);
    WholeFrom(data);
    CompletesFirst(all);
    while true
      invariant 0 <= i && Completes(out, WorkerMessages(pack, rank, From(data, i), inputData, volume, batch), all)
      decreases |From(data, i)|, |inputData|
    {
      var newData := Slice(data, i, batch);
      SliceTakes(data, i, batch);
      WorkerNext(pack, rank, From(data, i), inputData, volume, batch);
      inputData := inputData + newData;
      if inputData == [] {
        break;
      }
      var isFinished := i + batch >= |data|;
      var (sequences, carry) := CalculateMatchedGroup(pack, inputData, volume, isFinished);
      CarryShrinks(pack, inputData, volume, isFinished);
      CompletesNext(out, Packed(rank, sequences, |newData|),
                    WorkerMessages(pack, rank, From(data, i + batch), carry, volume, batch), all);
      out := out + [Packed(rank, sequences, |newData|)];
      i := i + batch;
      inputData := carry;
    }
    CompletesLast(out, Finished(rank), all);
    out := out + [Finished(rank)];
  }

  /** What has been put on the queue and what is still to come are all the messages. */
  ghost predicate Completes(out: seq<Message>, rest: seq<Message>, all: seq<Message>) {
    out + rest == all
  }

  lemma CompletesFirst(all: seq<Message>)
    ensures Completes([], all, all)
  {
  }

  lemma CompletesNext(out: seq<Message>, m: Message, rest: seq<Message>, all: seq<Message>)
    requires Completes(out, [m] + rest, all)
    ensures Completes(out + [m], rest, all)
  {
    Assoc(out, [m], rest);
  }

  lemma CompletesLast(out: seq<Message>, m: Message, all: seq<Message>)
    requires Completes(out, [m], all)
    ensures out + [m] == all
  {
  }

  lemma WholeFrom(data: seq<Sample>)
    ensures From(data, 0) == data
  {
  }

  /** At the end nothing is carried over. */
  lemma CarryShrinks(pack: Packer, samples: seq<Sample>, volume: int, isFinished: bool)
    ensures isFinished ==> CalculateMatchedGroup(pack, samples, volume, isFinished).1 == []
  {
  }

  /** One round of a worker. */
  lemma WorkerNext(pack: Packer, rank: int, data: seq<Sample>, carry: seq<Sample>, volume: int, batch: nat)
    requires 0 < batch
    ensures var taken := if |data| < batch then data else data[..batch];
            WorkerMessages(pack, rank, data, carry, volume, batch) ==
            if carry + taken == [] then [Finished(rank)]
            else
              var (bins, rest) := CalculateMatchedGroup(pack, carry + taken, volume, |data| <= batch);
              [Packed(rank, bins, |taken|)] + WorkerMessages(pack, rank, data[|taken|..], rest, volume, batch)
  {
    hide CalculateMatchedGroup;
  }

  /** All bins in a list of messages, in order. */
  function BinsOf(messages: seq<Message>): Bins {
    if messages == [] then []
    else
      var m := messages[|messages| - 1];
      BinsOf(messages[..|messages| - 1]) + (if m.Packed? then m.bins else [])
  }

  lemma BinsOfSnoc(messages: seq<Message>, m: Message)
    ensures BinsOf(messages + [m]) == BinsOf(messages) + (if m.Packed? then m.bins else [])
  {
    assert (messages + [m])[..|messages|] == messages;
  }

  lemma {:induction false} BinsOfCons(m: Message, messages: seq<Message>)
    ensures BinsOf([m] + messages) == (if m.Packed? then m.bins else []) + BinsOf(messages)
  {
    if messages == [] {
      BinsOfSnoc([], m);
      assert [] + [m] == [m] + messages;
    } else {
      hide BinsOf;
      var n := |messages| - 1;
      var last := messages[n];
      assert messages == messages[..n] + [last] && [m] + messages == ([m] + messages[..n]) + [last];
      BinsOfCons(m, messages[..n]);
      BinsOfSnoc([m] + messages[..n], last);
      BinsOfSnoc(messages[..n], last);
      Assoc(if m.Packed? then m.bins else [], BinsOf(messages[..n]), if last.Packed? then last.bins else []);
    }
  }

  /** A worker's messages: its own rank, one end sign, last. */
  ghost predicate WellEnded(messages: seq<Message>, rank: int) {
    && messages != [] && messages[|messages| - 1] == Finished(rank)
    && forall i | 0 <= i < |messages| - 1 :: messages[i].Packed? && messages[i].rank == rank
  }

  lemma {:induction false} WorkerEnds(
    pack: Packer, rank: int, data: seq<Sample>, carry: seq<Sample>, volume: int, batch: nat)
    requires 0 < batch
    ensures WellEnded(WorkerMessages(pack, rank, data, carry, volume, batch), rank)
    decreases |data|, |carry|
  {
    var taken := if |data| < batch then data else data[..batch];
    if carry + taken != [] {
      var (_, rest) := CalculateMatchedGroup(pack, carry + taken, volume, |data| <= batch);
      assert |carry + taken| == |carry| + |taken|;
      WorkerEnds(pack, rank, data[|taken|..], rest, volume, batch);
    }
  }

  /** The samples taken, as the messages tell. */
  function Told(messages: seq<Message>): nat {
    if messages == [] then 0 else (if messages[0].Packed? then messages[0].dataLen else 0) + Told(messages[1..])
  }

  /** Every round but the last takes a full batch, the last one takes what is left, and together
      they tell of all samples. */
  lemma {:induction false} WorkerBatches(
    pack: Packer, rank: int, data: seq<Sample>, carry: seq<Sample>, volume: int, batch: nat)
    requires 0 < batch && (data == [] ==> carry == [])
    ensures var messages := WorkerMessages(pack, rank, data, carry, volume, batch);
            && Told(messages) == |data|
            && forall i | 0 <= i < |messages| - 1 ::
                 && messages[i].Packed? && 0 < messages[i].dataLen <= batch
                 && (i < |messages| - 2 ==> messages[i].dataLen == batch)
    decreases |data|
  {
    hide CalculateMatchedGroup;
    var taken := if |data| < batch then data else data[..batch];
    WorkerNext(pack, rank, data, carry, volume, batch);
    if data == [] {
      assert carry + taken == [];
      assert [Finished(rank)][1..] == [];
    } else {
      assert |carry + taken| == |carry| + |taken|;
      var (bins, rest) := CalculateMatchedGroup(pack, carry + taken, volume, |data| <= batch);
      CarryShrinks(pack, carry + taken, volume, |data| <= batch);
      WorkerBatches(pack, rank, data[|taken|..], rest, volume, batch);
      var tail := WorkerMessages(pack, rank, data[|taken|..], rest, volume, batch);
      assert ([Packed(rank, bins, |taken|)] + tail)[1..] == tail;
      if |data| <= batch {
        WorkerNext(pack, rank, data[|taken|..], rest, volume, batch);
      }
    }
  }

  /** A worker reports every one of its samples exactly once. */
  lemma {:induction false} WorkerConserves(
    pack: Packer, rank: int, data: seq<Sample>, carry: seq<Sample>, volume: int, batch: nat)
    requires 0 < batch && IsPacker(pack)
    ensures multiset(Flatten(BinsOf(WorkerMessages(pack, rank, data, carry, volume, batch)))) ==
            multiset(carry) + multiset(data)
    decreases |data|, |carry|
  {
    hide Flatten, BinsOf, IsPacker, Fits;
    var taken := if |data| < batch then data else data[..batch];
    if carry + taken == [] {
      assert |carry + taken| == |carry| + |taken| == 0;
      EndOnly(rank);
    } else {
      var (bins, rest) := CalculateMatchedGroup(pack, carry + taken, volume, |data| <= batch);
      MatchedConserves(pack, carry + taken, volume, |data| <= batch);
      var left := data[|taken|..];
      assert |carry + taken| == |carry| + |taken|;
      WorkerConserves(pack, rank, left, rest, volume, batch);
      var tail := WorkerMessages(pack, rank, left, rest, volume, batch);
      BinsOfCons(Packed(rank, bins, |taken|), tail);
      FlattenConcat(bins, BinsOf(tail));
      assert data == taken + left;
      Rebalance(Flatten(bins), rest, carry, taken, left);
    }
  }

  /** What a round puts out and carries on, plus what is left, is what there was. */
  lemma Rebalance(out: seq<Sample>, rest: seq<Sample>, carry: seq<Sample>, taken: seq<Sample>, left: seq<Sample>)
    requires multiset(out) + multiset(rest) == multiset(carry + taken)
    ensures multiset(out) + (multiset(rest) + multiset(left)) == multiset(carry) + multiset(taken + left)
  {
    assert multiset(out) + (multiset(rest) + multiset(left)) == multiset(carry + taken) + multiset(left);
    assert multiset(carry + taken) == multiset(carry) + multiset(taken);
    assert multiset(taken + left) == multiset(taken) + multiset(left);
  }

  /** Every bin a worker reports fits. */
  lemma {:induction false} WorkerFits(
    pack: Packer, rank: int, data: seq<Sample>, carry: seq<Sample>, volume: int, batch: nat, bin: seq<Sample>)
    requires 0 < batch && IsPacker(pack) && 0 <= volume
    requires bin in BinsOf(WorkerMessages(pack, rank, data, carry, volume, batch))
    ensures Fits(bin, volume)
    decreases |data|, |carry|
  {
    hide Flatten, BinsOf, IsPacker, Fits;
    var taken := if |data| < batch then data else data[..batch];
    if carry + taken == [] {
      EndOnly(rank);
    } else {
      var (bins, rest) := CalculateMatchedGroup(pack, carry + taken, volume, |data| <= batch);
      MatchedConserves(pack, carry + taken, volume, |data| <= batch);
      var tail := WorkerMessages(pack, rank, data[|taken|..], rest, volume, batch);
      BinsOfCons(Packed(rank, bins, |taken|), tail);
      assert |carry + taken| == |carry| + |taken|;
      if bin !in bins {
        WorkerFits(pack, rank, data[|taken|..], rest, volume, batch, bin);
      }
    }
  }

  lemma EndOnly(rank: int)
    ensures BinsOf([Finished(rank)]) == [] && Flatten<Sample>([]) == []
  {
    assert [Finished(rank)][..0] == [];
  }
}
