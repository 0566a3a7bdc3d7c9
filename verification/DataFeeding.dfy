/** Feeding several ranks: the lock-step dispatcher and the sharded batch sampler. */
module DataFeeding {
  import opened Options
  import opened Sequences

  // ---- dispatcher -----------------------------------------------------------------------

  /** How many base batches the first rounds take. */
  function Taken(ranks: nat, rounds: nat): nat {
    rounds * ranks
  }

  lemma TakenNext(ranks: nat, rounds: nat)
    ensures Taken(ranks, rounds + 1) == Taken(ranks, rounds) + ranks
  {
  }

  /** What rank r has been handed after the given number of rounds, the first of them skipped. */
  function Handed<B>(batches: seq<B>, ranks: nat, skipped: nat, rounds: nat, r: nat): seq<B>
    requires r < ranks && Taken(ranks, skipped + rounds) <= |batches|
    decreases rounds
  {
    if rounds == 0 then []
    else
      TakenNext(ranks, skipped + rounds - 1);
      Handed(batches, ranks, skipped, rounds - 1, r) + [batches[Taken(ranks, skipped + rounds - 1) + r]]
  }

  /** Round j of rank r is base batch (skipped + j) * ranks + r. */
  lemma {:induction false} HandedAt<B>(batches: seq<B>, ranks: nat, skipped: nat, rounds: nat, r: nat, j: nat)
    requires r < ranks && (skipped + rounds) * ranks <= |batches| && j < rounds
    ensures |Handed(batches, ranks, skipped, rounds, r)| == rounds
    ensures 0 <= (skipped + j) * ranks + r < |batches|
    ensures Handed(batches, ranks, skipped, rounds, r)[j] == batches[(skipped + j) * ranks + r]
  {
    hide Taken;
    assert forall k: nat :: Taken(ranks, k) == k * ranks by {
      TakenIs(ranks);
    }
    TakenNext(ranks, skipped + rounds - 1);
    if j < rounds - 1 {
      HandedAt(batches, ranks, skipped, rounds - 1, r, j);
    } else if rounds > 1 {
      HandedAt(batches, ranks, skipped, rounds - 1, r, 0);
    }
  }

  lemma TakenIs(ranks: nat)
    ensures forall k: nat :: Taken(ranks, k) == k * ranks
  {
  }

  lemma Product(a: nat, b: nat, d: nat)
    ensures (a + 1) * d == a * d + d
    ensures a <= b ==> a * d <= b * d
  {
  }

  lemma Quotient(n: nat, d: nat, q: nat)
    requires 0 < d && q * d <= n < q * d + d
    ensures q == n / d
  {
    var p := n / d;
    assert n == p * d + n % d;
    Product(p, 0, d);
    Product(q, 0, d);
    Product(p + 1, q, d);
    Product(q + 1, p, d);
  }

  /** The scatter of one round: every rank gets its own entry, and leaves if that is empty. */
  method ScatterRound<B>(out: seq<seq<B>>, data: seq<Option<B>>) returns (next: seq<seq<B>>, left: seq<bool>)
    requires |out| == |data|
    ensures |next| == |left| == |data|
    ensures forall r | 0 <= r < |data| ::
              left[r] == data[r].None? && next[r] == if data[r].None? then out[r] else out[r] + [data[r].value]
  {
    next, left := out, seq(|data|, _ => false);
    for r := 0 to |data|
      invariant |next| == |left| == |data|
      invariant forall k | 0 <= k < |data| :: k < r ==>
                  left[k] == data[k].None? && next[k] == if data[k].None? then out[k] else out[k] + [data[k].value]
      invariant forall k | r <= k < |data| :: next[k] == out[k]
    {
      if data[r].None? {
        left := left[r := true];
      } else {
        next, left := next[r := next[r] + [data[r].value]], left[r := false];
      }
    }
  }

  /** One batch per rank, or the end sign for every rank when the base loader runs out midway. */
  method NextRound<B>(batches: seq<B>, position: nat, ranks: nat) returns (data: seq<Option<B>>)
    requires position <= |batches|
    ensures |data| == ranks
    ensures position + ranks <= |batches| ==> forall r | 0 <= r < ranks :: data[r] == Some(batches[position + r])
    ensures position + ranks > |batches| ==> forall r | 0 <= r < ranks :: data[r] == None
  {
    data := [];
    for r := 0 to ranks
      invariant |data| == r && position + r <= |batches|
      invariant forall k | 0 <= k < r :: data[k] == Some(batches[position + k])
    {
      if position + r == |batches| {
        return seq(ranks, _ => None);
      }
      data := data + [Some(batches[position + r])];
    }
  }

  /** Every rank has been handed its batches of the given number of rounds. */
  ghost predicate AllHanded<B>(out: seq<seq<B>>, batches: seq<B>, ranks: nat, skip: nat, rounds: nat) {
    && |out| == ranks && Taken(ranks, skip + rounds) <= |batches|
    && forall r: nat | r < ranks :: out[r] == Handed(batches, ranks, skip, rounds, r)
  }

  /** The rounds after the skipped ones, until all ranks leave in the same round. */
  method DispatchRounds<B>(batches: seq<B>, ranks: nat, skip: nat) returns (out: seq<seq<B>>, rounds: nat)
    requires 0 < ranks && Taken(ranks, skip) <= |batches|
    ensures |batches| < Taken(ranks, skip + rounds) + ranks
    ensures AllHanded(out, batches, ranks, skip, rounds)
  {
    hide AllHanded, Taken, Handed;
    var position := Taken(ranks, skip);
    out, rounds := seq(ranks, _ => []), 0;
    NothingHanded(out, batches, ranks, skip);
    while true
      invariant |out| == ranks && position == Taken(ranks, skip + rounds) <= |batches|
      invariant AllHanded(out, batches, ranks, skip, rounds)
      decreases |batches| - position
    {
      var data := NextRound(batches, position, ranks);
      var next, left := ScatterRound(out, data);
      RoundHanded(out, batches, ranks, skip, rounds, next);
      if left[0] {
        assert data[0].None?;
        return;
      }
      assert data[0].Some?;
      out, position, rounds := next, position + ranks, rounds + 1;
    }
  }

  /** A full round hands every rank its next batch. */
  lemma RoundHanded<B>(out: seq<seq<B>>, batches: seq<B>, ranks: nat, skip: nat, rounds: nat, next: seq<seq<B>>)
    requires AllHanded(out, batches, ranks, skip, rounds) && |next| == ranks
    ensures Taken(ranks, skip + rounds + 1) == Taken(ranks, skip + rounds) + ranks
    ensures var position := Taken(ranks, skip + rounds);
            position + ranks <= |batches| && (forall r | 0 <= r < ranks :: next[r] == out[r] + [batches[position + r]]) ==>
              AllHanded(next, batches, ranks, skip, rounds + 1)
  {
    hide Taken, Handed;
    TakenNext(ranks, skip + rounds);
    if Taken(ranks, skip + rounds) + ranks <= |batches| {
      forall r: nat | r < ranks
        ensures Handed(batches, ranks, skip, rounds + 1, r) == out[r] + [batches[Taken(ranks, skip + rounds) + r]]
      {
        HandedNext(batches, ranks, skip, rounds, r);
      }
    }
  }

  /** All ranks together. `None`: the batches to skip run out, which ends the loader with an error. */
  method DispatchAll<B>(batches: seq<B>, ranks: nat, skip: nat) returns (yielded: Option<seq<seq<B>>>)
    requires 0 < ranks
    ensures yielded.None? <==> skip * ranks > |batches|
    ensures yielded.Some? ==>
              && |yielded.value| == ranks
              && skip <= |batches| / ranks && (|batches| / ranks) * ranks <= |batches|
              && forall r: nat | r < ranks ::
                   yielded.value[r] == Handed(batches, ranks, skip, |batches| / ranks - skip, r)
  {
    hide Handed;
    if skip * ranks > |batches| {
      return None;
    }
    var out, rounds := DispatchRounds(batches, ranks, skip);
    Quotient(|batches|, ranks, skip + rounds);
    yielded := Some(out);
  }

  lemma NothingHanded<B>(out: seq<seq<B>>, batches: seq<B>, ranks: nat, skip: nat)
    requires Taken(ranks, skip) <= |batches|
    requires |out| == ranks && forall r | 0 <= r < ranks :: out[r] == []
    ensures AllHanded(out, batches, ranks, skip, 0)
  {
  }

  lemma HandedNext<B>(batches: seq<B>, ranks: nat, skip: nat, rounds: nat, r: nat)
    requires r < ranks && Taken(ranks, skip + rounds + 1) <= |batches|
    ensures Taken(ranks, skip + rounds + 1) == Taken(ranks, skip + rounds) + ranks
    ensures Handed(batches, ranks, skip, rounds + 1, r) ==
            Handed(batches, ranks, skip, rounds, r) + [batches[Taken(ranks, skip + rounds) + r]]
  {
    hide Taken;
    TakenNext(ranks, skip + rounds);
    assert skip + (rounds + 1) == skip + rounds + 1;
  }

  // ---- sampler --------------------------------------------------------------------------

  /** The indices of one rank: every ranks-th one, from its own number on. */
  function Stream(order: seq<int>, ranks: nat, r: nat): seq<int>
    requires 0 < ranks && r < ranks && |order| % ranks == 0
  {
    seq(|order| / ranks, j requires 0 <= j < |order| / ranks => (Within(|order|, ranks, r, j); order[r + j * ranks]))
  }

  lemma Within(n: nat, ranks: nat, r: nat, j: nat)
    requires 0 < ranks && r < ranks && n % ranks == 0 && j < n / ranks
    ensures 0 <= r + j * ranks < n
  {
    assert n == (n / ranks) * ranks;
    Product(j, 0, ranks);
    Product(j + 1, n / ranks, ranks);
  }

  /** Every position of the order belongs to some rank's stream. */
  lemma StreamsCover(order: seq<int>, ranks: nat, p: nat)
    requires 0 < ranks && |order| % ranks == 0 && p < |order|
    ensures p / ranks < |order| / ranks
    ensures Stream(order, ranks, p % ranks)[p / ranks] == order[p]
  {
    assert p == p % ranks + (p / ranks) * ranks;
    assert |order| == (|order| / ranks) * ranks;
    Product(|order| / ranks, p / ranks, ranks);
  }

  /** And to only one rank, at only one place. */
  lemma StreamsDisjoint(order: seq<int>, ranks: nat, r: nat, j: nat, p: nat)
    requires 0 < ranks && |order| % ranks == 0 && r < ranks && j < |order| / ranks && p < |order|
    requires forall a, b | 0 <= a < b < |order| :: order[a] != order[b]
    requires Stream(order, ranks, r)[j] == order[p]
    ensures r == p % ranks && j == p / ranks
  {
    Within(|order|, ranks, r, j);
    assert p == r + j * ranks;
    Quotient(p, ranks, j);
  }

  function Streams(order: seq<int>, ranks: nat): seq<seq<int>>
    requires 0 < ranks && |order| % ranks == 0
  {
    seq(ranks, r requires 0 <= r < ranks => Stream(order, ranks, r))
  }

  /** Giving each list one more element adds just these elements. */
  lemma {:induction false} OneMoreEach<T>(a: seq<seq<T>>, b: seq<seq<T>>, more: seq<T>)
    requires |a| == |b| == |more| && forall r | 0 <= r < |a| :: b[r] == a[r] + [more[r]]
    ensures multiset(Flatten(b)) == multiset(Flatten(a)) + multiset(more)
  {
    if a != [] {
      var n := |a| - 1;
      OneMoreEach(a[..n], b[..n], more[..n]);
      assert more == more[..n] + [more[n]];
      assert multiset(Flatten(b)) == multiset(Flatten(b[..n])) + multiset(a[n] + [more[n]]);
    }
  }

  lemma StreamsNext(order: seq<int>, ranks: nat)
    requires 0 < ranks && |order| % ranks == 0 && order != []
    ensures ranks <= |order| && (|order| - ranks) % ranks == 0
    ensures var n := |order| - ranks;
            multiset(Flatten(Streams(order, ranks))) == multiset(Flatten(Streams(order[..n], ranks))) + multiset(order[n..])
  {
    hide Flatten;
    var n := |order| - ranks;
    OneRoundLess(|order|, ranks);
    forall r | 0 <= r < ranks
      ensures Streams(order, ranks)[r] == Streams(order[..n], ranks)[r] + [order[n..][r]]
    {
      StreamNext(order, ranks, r);
    }
    OneMoreEach(Streams(order[..n], ranks), Streams(order, ranks), order[n..]);
  }

  lemma OneRoundLess(n: nat, ranks: nat)
    requires 0 < ranks && n % ranks == 0 && ranks <= n
    ensures (n - ranks) % ranks == 0 && 1 <= n / ranks && (n - ranks) / ranks == n / ranks - 1
    ensures (n / ranks - 1) * ranks == n - ranks
  {
    var q := n / ranks;
    assert n == q * ranks;
    assert q * ranks == (q - 1) * ranks + ranks;
    assert q >= 1;
    Quotient(n - ranks, ranks, q - 1);
    assert n - ranks == ((n - ranks) / ranks) * ranks + (n - ranks) % ranks;
  }

  lemma StreamNext(order: seq<int>, ranks: nat, r: nat)
    requires 0 < ranks && r < ranks && ranks <= |order|
    requires |order| % ranks == 0 && (|order| - ranks) % ranks == 0
    ensures Stream(order, ranks, r) == Stream(order[..|order| - ranks], ranks, r) + [order[|order| - ranks + r]]
  {
    OneRoundLess(|order|, ranks);
    var q, n := |order| / ranks, |order| - ranks;
    var whole, part := Stream(order, ranks, r), Stream(order[..n], ranks, r);
    forall j: nat | j < q
      ensures whole[j] == (part + [order[n + r]])[j]
    {
      Within(|order|, ranks, r, j);
      if j < q - 1 {
        Within(n, ranks, r, j);
      }
    }
  }

  /** Together the streams are the order, rearranged: of a permutation, every index once. */
  lemma {:induction false} StreamsPartition(order: seq<int>, ranks: nat)
    requires 0 < ranks && |order| % ranks == 0
    ensures multiset(Flatten(Streams(order, ranks))) == multiset(order)
  {
    if order == [] {
      AllEmpty(Streams(order, ranks));
    } else {
      hide Flatten;
      StreamsNext(order, ranks);
      var n := |order| - ranks;
      StreamsPartition(order[..n], ranks);
      assert order == order[..n] + order[n..];
    }
  }

  lemma {:induction false} AllEmpty<T>(parts: seq<seq<T>>)
    requires forall r | 0 <= r < |parts| :: parts[r] == []
    ensures Flatten(parts) == []
  {
    if parts != [] {
      AllEmpty(parts[..|parts| - 1]);
    }
  }

  /** How many samples each rank has: the rest of the division is not used. */
  function PerRank(totalSamples: nat, ranks: nat): nat
    requires 0 < ranks
  {
    totalSamples / ranks
  }

  /** `__len__` */
  function BatchCount(samples: nat, batchSize: nat, dropLast: bool): nat
    requires 0 < batchSize
  {
    if dropLast then samples / batchSize else (samples + batchSize - 1) / batchSize
  }

  /** The loop over the indices: full batches, and what is left of the last one. */
  method FillBatches(stream: seq<int>, batchSize: nat) returns (batches: seq<seq<int>>, batch: seq<int>)
    requires 0 < batchSize
    ensures |batch| < batchSize && |stream| == |batches| * batchSize + |batch|
    ensures Flatten(batches) + batch == stream
    ensures forall i | 0 <= i < |batches| :: |batches[i]| == batchSize
  {
    batches, batch := [], [];
    for k := 0 to |stream|
      invariant |batch| < batchSize && |batches| * batchSize + |batch| == k
      invariant Flatten(batches) + batch == stream[..k]
      invariant forall i | 0 <= i < |batches| :: |batches[i]| == batchSize
    {
      batch := batch + [stream[k]];
      assert stream[..k + 1] == stream[..k] + [stream[k]];
      if |batch| == batchSize {
        Product(|batches|, 0, batchSize);
        FlattenSnoc(batches, batch);
        batches := batches + [batch];
        batch := [];
      }
    }
    assert stream[..|stream|] == stream;
  }

  /** The batches of one rank: as many as announced, all full but perhaps the last, and together
      its stream, without the short tail when that is dropped. */
  method ShardBatches(stream: seq<int>, batchSize: nat, dropLast: bool) returns (batches: seq<seq<int>>)
    requires 0 < batchSize
    ensures |batches| == BatchCount(|stream|, batchSize, dropLast)
    ensures forall i | 0 <= i < |batches| :: 0 < |batches[i]| <= batchSize
    ensures forall i | 0 <= i < |batches| && (dropLast || i < |batches| - 1) :: |batches[i]| == batchSize
    ensures Flatten(batches) == if dropLast then stream[..(|stream| - |stream| % batchSize)] else stream
  {
    hide Flatten, BatchCount;
    var batch;
    batches, batch := FillBatches(stream, batchSize);
    FullBatches(|batches|, |batch|, batchSize);
    assert stream[..|stream| - |batch|] == Flatten(batches);
    if !dropLast && |batch| > 0 {
      FlattenSnoc(batches, batch);
      batches := batches + [batch];
    }
  }

  /** Counting the batches of a stream that gives some full ones and a rest. */
  lemma FullBatches(full: nat, rest: nat, batchSize: nat)
    requires rest < batchSize
    ensures var n := full * batchSize + rest;
            && n % batchSize == rest
            && BatchCount(n, batchSize, true) == full
            && BatchCount(n, batchSize, false) == full + (if rest > 0 then 1 else 0)
  {
    var n := full * batchSize + rest;
    Quotient(n, batchSize, full);
    assert n == (n / batchSize) * batchSize + n % batchSize;
    if rest > 0 {
      Product(full, 0, batchSize);
      Quotient(n + batchSize - 1, batchSize, full + 1);
    } else {
      Quotient(n + batchSize - 1, batchSize, full);
    }
  }

  /** One rank's batches for an epoch, for any permutation of the used indices. */
  method IterateShard(order: seq<int>, totalSamples: nat, ranks: nat, r: nat, batchSize: nat, dropLast: bool)
    returns (batches: seq<seq<int>>)
    requires 0 < ranks && r < ranks && 0 < batchSize
    requires |order| == (totalSamples / ranks) * ranks
    ensures |order| % ranks == 0 && |order| / ranks == PerRank(totalSamples, ranks) == totalSamples / ranks
    ensures |batches| == BatchCount(PerRank(totalSamples, ranks), batchSize, dropLast)
    ensures |batches| == if dropLast then totalSamples / ranks / batchSize
                         else (totalSamples / ranks + batchSize - 1) / batchSize
    ensures var stream := Stream(order, ranks, r);
            Flatten(batches) == if dropLast then stream[..(|stream| - |stream| % batchSize)] else stream
  {
    Quotient(|order|, ranks, PerRank(totalSamples, ranks));
    assert |order| == (|order| / ranks) * ranks + |order| % ranks;
    batches := ShardBatches(Stream(order, ranks, r), batchSize, dropLast);
  }
}
