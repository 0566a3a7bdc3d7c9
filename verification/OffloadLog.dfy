/** How each pattern of waits and copies the handler issues extends a safe log. */
module OffloadLog {
  import opened OffloadStreams
  import opened OffloadInvariant

  lemma Extend(log: seq<Op>, op: Op)
    ensures SafeLog(log) && SafeNext(log, op) ==> SafeLog(log + [op])
    ensures Ordered(log + [op], |log|, StreamOf(op))
    ensures forall i, s | 0 <= i < |log| && Ordered(log, i, s) :: Ordered(log + [op], i, s)
    ensures op.Wait? ==> forall i | 0 <= i < |log| && Ordered(log, i, op.waitee) :: Ordered(log + [op], i, op.waiter)
    ensures forall g :: CountOut(log + [op], g) == CountOut(log, g) + (if op.CopyOut? && op.group == g then 1 else 0)
    ensures forall g :: CountIn(log + [op], g) == CountIn(log, g) + (if op.CopyIn? && op.group == g then 1 else 0)
  {
    assert (log + [op])[..|log|] == log;
  }

  lemma OwnStreams(log: seq<Op>)
    ensures forall i | 0 <= i < |log| :: Ordered(log, i, StreamOf(log[i]))
  {
    forall i | 0 <= i < |log|
      ensures Ordered(log, i, StreamOf(log[i]))
    {
      OwnStreamOrdered(log, i);
    }
  }

  lemma ProduceStep(log: seq<Op>, g: int, out: int, back: int)
    requires SafeLog(log) && Awaited(log, out, back)
    ensures SafeLog(log + [Produce(g)]) && Awaited(log + [Produce(g)], out, back)
    ensures Hollow(log) ==> Hollow(log + [Produce(g)])
  {
    Extend(log, Produce(g));
  }

  /** A pop reads only what was reloaded before the compute stream last waited, or never reloaded. */
  lemma UseStep(log: seq<Op>, g: int, out: int, back: int)
    requires SafeLog(log) && Awaited(log, out, back)
    requires g != back || (0 < g && Hollow(log))
    ensures SafeLog(log + [Use(g)]) && Awaited(log + [Use(g)], out, back)
    ensures Hollow(log) ==> Hollow(log + [Use(g)])
  {
    Extend(log, Use(g));
  }

  /** The copy-out stream has waited for every activation written so far. */
  ghost predicate Written(log: seq<Op>) {
    forall i | 0 <= i < |log| && log[i].Produce? :: Ordered(log, i, D2H)
  }

  /** The copy stream waits for the computation, then copies a group out. */
  lemma CopyOutStep(log: seq<Op>, g: int, keys: set<Key>, back: int)
    requires SafeLog(log) && Awaited(log, -1, back)
    requires Written(log) && 0 <= g
    ensures SafeLog(log + [CopyOut(g, keys)]) && Awaited(log + [CopyOut(g, keys)], g, back)
    ensures Hollow(log) && (0 < g ==> keys == {}) ==> Hollow(log + [CopyOut(g, keys)])
  {
    Extend(log, CopyOut(g, keys));
  }

  lemma KickstartStep(log: seq<Op>, back: int)
    requires SafeLog(log) && Awaited(log, -1, back)
    ensures var log' := log + [Wait(D2H, Compute)];
            && SafeLog(log') && Awaited(log', -1, back) && Written(log')
    ensures Hollow(log) ==> Hollow(log + [Wait(D2H, Compute)])
  {
    OwnStreams(log);
    Extend(log, Wait(D2H, Compute));
  }

  /** Both streams wait for each other, then the sources of the copy are let go. */
  lemma ReleaseStep(log: seq<Op>, g: int, out: int, back: int)
    requires SafeLog(log) && Awaited(log, out, back)
    ensures var log' := log + [Wait(D2H, Compute)] + [Wait(Compute, D2H)] + [Release(g)];
            && SafeLog(log') && Awaited(log', -1, back) && Written(log')
    ensures Hollow(log) ==> Hollow(log + [Wait(D2H, Compute)] + [Wait(Compute, D2H)] + [Release(g)])
  {
    OwnStreams(log);
    var a := log + [Wait(D2H, Compute)];
    Extend(log, Wait(D2H, Compute));
    OwnStreams(a);
    Extend(a, Wait(Compute, D2H));
    Extend(a + [Wait(Compute, D2H)], Release(g));
  }

  /** Both streams wait for each other, then a group is copied back. */
  lemma ReloadStep(log: seq<Op>, g: int, keys: set<Key>, back: int)
    requires SafeLog(log) && Awaited(log, -1, back)
    requires 0 <= g
    ensures var log' := log + [Wait(H2D, Compute)] + [Wait(Compute, H2D)] + [CopyIn(g, keys)];
            SafeLog(log') && Awaited(log', -1, g)
    ensures Hollow(log) && (0 < g ==> keys == {}) ==>
              Hollow(log + [Wait(H2D, Compute)] + [Wait(Compute, H2D)] + [CopyIn(g, keys)])
  {
    OwnStreams(log);
    var a := log + [Wait(H2D, Compute)];
    Extend(log, Wait(H2D, Compute));
    OwnStreams(a);
    Extend(a, Wait(Compute, H2D));
    Extend(a + [Wait(Compute, H2D)], CopyIn(g, keys));
  }

  lemma DrainStep(log: seq<Op>, out: int, back: int)
    requires SafeLog(log) && Awaited(log, out, back)
    ensures SafeLog(log + [Wait(Compute, H2D)]) && Awaited(log + [Wait(Compute, H2D)], out, -1)
    ensures Hollow(log) ==> Hollow(log + [Wait(Compute, H2D)])
  {
    OwnStreams(log);
    Extend(log, Wait(Compute, H2D));
  }

  lemma CountedOut(log: seq<Op>, group: int, keys: set<Key>, groups: int, steps: int, back: int)
    requires Counted(log, groups, steps, group, back)
    ensures Counted(log + [CopyOut(group, keys)], groups, steps, group + 1, back)
  {
    Extend(log, CopyOut(group, keys));
  }

  lemma CountedIn(log: seq<Op>, group: int, keys: set<Key>, groups: int, steps: int, out: int)
    requires Counted(log, groups, steps, out, group + 1)
    ensures Counted(log + [CopyIn(group, keys)], groups, steps, out, group)
  {
    Extend(log, CopyIn(group, keys));
  }

  lemma CountedSame(log: seq<Op>, op: Op, groups: int, steps: int, out: int, back: int)
    requires !op.CopyOut? && !op.CopyIn?
    requires Counted(log, groups, steps, out, back)
    ensures Counted(log + [op], groups, steps, out, back)
  {
    Extend(log, op);
  }
}
