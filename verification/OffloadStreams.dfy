/** Work enqueued on the compute stream and the two copy streams, and the order `wait_stream` gives it. */
module OffloadStreams {

  /** What `_get_unique_tensor_key` returns: an address and an element type. */
  datatype Key = Key(address: int, dtype: int)

  datatype Stream = Compute | D2H | H2D

  /** One entry of the log, in the order the host issues them. */
  datatype Op =
    | Wait(waiter: Stream, waitee: Stream)
    | Produce(group: int)                  // a layer writes an activation of the group
    | CopyOut(group: int, keys: set<Key>)  // device-to-host copies of a group
    | Release(group: int)                  // the last device reference of the group is dropped
    | CopyIn(group: int, keys: set<Key>)   // host-to-device copies of a group
    | Use(group: int)                      // the backward pass reads an activation of the group

  function StreamOf(op: Op): Stream {
    match op
    case Wait(waiter, _) => waiter
    case CopyOut(_, _) => D2H
    case CopyIn(_, _) => H2D
    case _ => Compute
  }

  /** Whatever is enqueued next on stream s starts after entry i has finished. */
  ghost predicate Ordered(log: seq<Op>, i: int, s: Stream)
    requires 0 <= i < |log|
  {
    var n := |log| - 1;
    if i == n then
      StreamOf(log[n]) == s
    else
      || Ordered(log[..n], i, s)
      || (log[n].Wait? && log[n].waiter == s && Ordered(log[..n], i, log[n].waitee))
  }

  /** Entry j directly follows entry i: same stream, or j waits for the stream of i. */
  ghost predicate Edge(log: seq<Op>, i: int, j: int) {
    && 0 <= i < j < |log|
    && (|| StreamOf(log[i]) == StreamOf(log[j])
        || (log[j].Wait? && log[j].waitee == StreamOf(log[i])))
  }

  /** The transitive closure of Edge. */
  ghost predicate HappensBefore(log: seq<Op>, i: int, j: int)
    decreases j
  {
    exists k | i <= k < j :: Edge(log, k, j) && (k == i || (0 <= k && HappensBefore(log, i, k)))
  }

  /** Entry k is on stream s and is, or follows, entry i. */
  ghost predicate Reaches(log: seq<Op>, i: int, s: Stream, k: int) {
    0 <= i <= k < |log| && StreamOf(log[k]) == s && (k == i || HappensBefore(log, i, k))
  }

  lemma {:induction false} OrderedIffReached(log: seq<Op>, n: int, i: int, s: Stream)
    requires 0 <= i < n <= |log|
    ensures Ordered(log[..n], i, s) <==> exists k | i <= k < n :: Reaches(log, i, s, k)
    decreases n
  {
    var last := n - 1;
    if i == last {
      assert Ordered(log[..n], i, s) == (StreamOf(log[i]) == s);
      assert Reaches(log, i, s, i) == (StreamOf(log[i]) == s);
    } else {
      assert log[..n][..last] == log[..last];
      OrderedIffReached(log, last, i, s);
      if log[last].Wait? {
        OrderedIffReached(log, last, i, log[last].waitee);
      }
      if Reaches(log, i, s, last) {
        var k :| i <= k < last && Edge(log, k, last) && (k == i || HappensBefore(log, i, k));
        assert Reaches(log, i, StreamOf(log[k]), k);
      }
      if log[last].Wait? && log[last].waiter == s && Ordered(log[..last], i, log[last].waitee) {
        var k :| i <= k < last && Reaches(log, i, log[last].waitee, k);
        assert Edge(log, k, last);
        assert Reaches(log, i, s, last);
      }
    }
  }

  /** The recursive reading of `wait_stream` is the transitive order it is meant to give. */
  lemma OrderedIsHappensBefore(log: seq<Op>, i: int, j: int)
    requires 0 <= i < j < |log|
    requires !log[j].Wait?
    ensures Ordered(log[..j], i, StreamOf(log[j])) <==> HappensBefore(log, i, j)
  {
    var s := StreamOf(log[j]);
    OrderedIffReached(log, j, i, s);
    if HappensBefore(log, i, j) {
      var k :| i <= k < j && Edge(log, k, j) && (k == i || HappensBefore(log, i, k));
      assert Reaches(log, i, s, k);
    }
    if Ordered(log[..j], i, s) {
      var k :| i <= k < j && Reaches(log, i, s, k);
      assert Edge(log, k, j);
    }
  }

  lemma {:induction false} OwnStreamOrdered(log: seq<Op>, i: int)
    requires 0 <= i < |log|
    ensures Ordered(log, i, StreamOf(log[i]))
  {
    if i < |log| - 1 {
      OwnStreamOrdered(log[..|log| - 1], i);
    }
  }

  /** The second entry may only start once the first has finished. */
  predicate Conflicts(first: Op, second: Op) {
    match (first, second)
    case (Produce(g), CopyOut(h, _)) => g == h
    case (CopyOut(g, keys), Release(h)) => g == h && keys != {}
    case (CopyOut(g, keys), CopyIn(h, _)) => g == h && keys != {}
    case (CopyIn(g, keys), Use(h)) => g == h && keys != {}
    case (Use(_), CopyIn(_, _)) => true  // reloaded buffers are recycled on the copy stream
    case _ => false
  }
}
