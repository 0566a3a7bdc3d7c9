/** The table that says at which layer's commit each group has left, or re-enters, the device. */
module OffloadWindow {

  /** Closed form of the entry the constructor's loop leaves at index i. */
  function Window(layers: nat, groups: nat, i: nat): int
    requires 0 < groups
  {
    var rest := layers % groups;
    (layers / groups) * (i + 1) - 1 + (if i + 1 < rest then i + 1 else rest)
  }

  method BuildWindowMap(layers: nat, groups: nat) returns (window: map<int, int>)
    ensures forall i :: i in window <==> 0 <= i < groups
    ensures forall i | 0 <= i < groups :: window[i] == Window(layers, groups, i)
  {
    window := map[];
    var constant := 0;
    for i := 0 to groups
      invariant forall j :: j in window <==> 0 <= j < i
      invariant 0 < groups ==> constant == if i < layers % groups then i else layers % groups
      invariant forall j | 0 <= j < i :: window[j] == Window(layers, groups, j)
    {
      window := window[i := (layers / groups) * (i + 1) - 1];
      if i < layers % groups {
        window := window[i := window[i] + i + 1];
        constant := i + 1;
      } else {
        window := window[i := window[i] + constant];
      }
    }
  }

  /** What the handler relies on: one commit per offloaded group, in order, none before the
      group itself, the last one at the last layer. */
  ghost predicate WindowOk(layers: int, groups: int, window: map<int, int>) {
    && 1 <= groups <= layers
    && (forall i :: i in window <==> 0 <= i < groups)
    && (forall i, j | 0 <= i < j < groups :: window[i] < window[j])
    && (forall i | 0 <= i < groups :: i <= window[i])
    && (groups < layers ==> forall i | 0 <= i < groups :: i < window[i])
    && (groups == layers ==> forall i | 0 <= i < groups :: window[i] == i)
    && window[groups - 1] == layers - 1
  }

  /** Consecutive entries differ by layers/groups or one more, so the load is balanced. */
  lemma WindowGap(layers: nat, groups: nat, i: nat)
    requires 1 <= groups <= layers
    ensures 1 <= layers / groups
    ensures var gap := Window(layers, groups, i + 1) - Window(layers, groups, i);
            layers / groups <= gap <= layers / groups + 1
    ensures layers / groups <= Window(layers, groups, 0) + 1 <= layers / groups + 1
  {
    var q := layers / groups;
    assert q * (i + 2) == q * (i + 1) + q;
  }

  /** Which entries get the rest of the division: the first ones, one each. */
  lemma WindowSteps(layers: nat, groups: nat, i: nat)
    requires 1 <= groups <= layers && i < groups
    ensures Window(layers, groups, 0) == layers / groups - 1 + (if 0 < layers % groups then 1 else 0)
    ensures i + 1 < groups ==>
              Window(layers, groups, i + 1) ==
              Window(layers, groups, i) + layers / groups + (if i + 1 < layers % groups then 1 else 0)
  {
    var q := layers / groups;
    assert q * (i + 2) == q * (i + 1) + q;
  }

  lemma {:induction false} WindowMonotone(layers: nat, groups: nat, i: nat, j: nat)
    requires 1 <= groups <= layers
    requires i < j
    ensures Window(layers, groups, i) + (j - i) <= Window(layers, groups, j)
    decreases j
  {
    WindowGap(layers, groups, j - 1);
    if i < j - 1 {
      WindowMonotone(layers, groups, i, j - 1);
    }
  }

  lemma WindowEnds(layers: nat, groups: nat)
    requires 1 <= groups <= layers
    ensures Window(layers, groups, groups - 1) == layers - 1
    ensures groups < layers ==> 1 <= Window(layers, groups, 0)
    ensures 0 <= Window(layers, groups, 0)
    ensures groups == layers ==> Window(layers, groups, 0) == 0
  {
    var q, r := layers / groups, layers % groups;
    assert layers == q * groups + r;
    if q == 1 && r == 0 {
      assert layers == groups;
    }
    if layers == groups {
      assert q >= 2 ==> q * groups >= 2 * groups;
      assert q <= 0 ==> q * groups <= 0;
    }
  }

  /** Every configuration with 1 <= groups <= layers gives a table the handler can rely on. */
  lemma WindowIsOk(layers: nat, groups: nat, window: map<int, int>)
    requires 1 <= groups <= layers
    requires forall i :: i in window <==> 0 <= i < groups
    requires forall i | 0 <= i < groups :: window[i] == Window(layers, groups, i)
    ensures WindowOk(layers, groups, window)
  {
    WindowEnds(layers, groups);
    forall i, j | 0 <= i < j < groups
      ensures window[i] + (j - i) <= window[j]
    {
      WindowMonotone(layers, groups, i, j);
    }
    forall i | 0 < i < groups
      ensures window[0] + i <= window[i]
      ensures window[i] + (groups - 1 - i) <= window[groups - 1]
    {
      WindowMonotone(layers, groups, 0, i);
      if i < groups - 1 {
        WindowMonotone(layers, groups, i, groups - 1);
      }
    }
  }

  /** How many entries lie below layer c: the groups whose commit is over once c layers are. */
  ghost function Passed(layers: int, groups: int, window: map<int, int>, c: int): (n: int)
    requires WindowOk(layers, groups, window)
    ensures 0 <= n <= groups
    ensures forall i | 0 <= i < groups :: i < n <==> window[i] < c
  {
    PassedFrom(layers, groups, window, c, 0)
  }

  ghost function PassedFrom(layers: int, groups: int, window: map<int, int>, c: int, i: int): (n: int)
    requires WindowOk(layers, groups, window)
    requires 0 <= i <= groups
    requires forall k | 0 <= k < i :: window[k] < c
    ensures i <= n <= groups
    ensures forall k | 0 <= k < groups :: k < n <==> window[k] < c
    decreases groups - i
  {
    if i < groups && window[i] < c then PassedFrom(layers, groups, window, c, i + 1) else i
  }
}
