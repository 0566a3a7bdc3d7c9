/** When returning what was filed under a key is as good as returning what was pushed. */
module OffloadFiling {
  import opened OffloadModel
  import opened OffloadInvariant

  /** In the forward half exactly the keys of saved tensors are filed, each with the contents of one
      of them. */
  ghost predicate Sourced(m: Model) {
    && (forall tag | tag in m.saved && tag.group < m.filing.shared :: (tag.group, m.saved[tag].key) in m.filing.first)
    && (!m.backward ==> forall g, key | (g, key) in m.filing.first ::
          exists tag :: tag in m.saved && tag.group == g && m.saved[tag].key == key
                        && m.saved[tag].data == m.filing.first[(g, key)])
  }

  /** Nothing saved would come back changed. */
  ghost predicate Honest(m: Model) {
    forall tag | tag in m.saved :: Filed(m.saved, m.filing, tag) == m.saved[tag].data
  }

  lemma StepSourced(m: Model, layers: int, e: Event)
    requires Tags(m, layers) && Sourced(m) && 0 <= m.layer && 0 <= m.count && Legal(m, layers, e)
    ensures var m' := ModelStep(m, layers, e).0;
            Tags(m', layers) && Sourced(m') && 0 <= m'.layer && 0 <= m'.count && m'.filing.shared == m.filing.shared
  {
    hide Numel;
    if e.DoPush? && e.offloadable {
      PushSourced(m, layers, e.t);
    }
  }

  lemma PushSourced(m: Model, layers: int, t: Tensor)
    requires Tags(m, layers) && Sourced(m) && Legal(m, layers, DoPush(t, true))
    ensures Sourced(ModelStep(m, layers, DoPush(t, true)).0)
  {
    hide Numel;
    var m', tag := ModelStep(m, layers, DoPush(t, true)).0, Tag(m.layer, m.count);
    assert tag !in m.saved;
    forall g, key | (g, key) in m'.filing.first
      ensures exists a :: a in m'.saved && a.group == g && m'.saved[a].key == key && m'.saved[a].data == m'.filing.first[(g, key)]
    {
      if (g, key) in m.filing.first {
        var a :| a in m.saved && a.group == g && m.saved[a].key == key && m.saved[a].data == m.filing.first[(g, key)];
        assert a in m'.saved && m'.saved[a] == m.saved[a];
      } else {
        assert m'.saved[tag].key == key;
      }
    }
  }

  /** A push keeps all contents honest exactly when it respects its key. */
  lemma PushHonest(m: Model, layers: int, t: Tensor)
    requires Tags(m, layers) && Sourced(m) && Legal(m, layers, DoPush(t, true))
    ensures Honest(ModelStep(m, layers, DoPush(t, true)).0) <==> Honest(m) && KeyFree(m, DoPush(t, true))
  {
    hide Numel;
    var m', tag := ModelStep(m, layers, DoPush(t, true)).0, Tag(m.layer, m.count);
    assert tag !in m.saved;
    forall a | a in m.saved
      ensures a in m'.saved && m'.saved[a] == m.saved[a]
      ensures Filed(m'.saved, m'.filing, a) == Filed(m.saved, m.filing, a)
    {
    }
    if m.layer < m.filing.shared && (m.layer, t.key) in m.filing.first {
      var a :| a in m.saved && a.group == m.layer && m.saved[a].key == t.key
               && m.saved[a].data == m.filing.first[(m.layer, t.key)];
      assert Filed(m'.saved, m'.filing, tag) == m.saved[a].data;
      if Honest(m) {
        assert forall b | b in m.saved && b.group == m.layer && m.saved[b].key == t.key ::
            Filed(m.saved, m.filing, b) == m.saved[a].data;
      }
    }
    if Honest(m') {
      assert forall a | a in m.saved :: Filed(m'.saved, m'.filing, a) == m'.saved[a].data;
    }
  }

  /** Any event keeps honest contents and answers as the plain map does exactly when it respects
      keys; and dishonest contents show when they are popped. */
  lemma StepHonest(m: Model, layers: int, e: Event)
    requires Tags(m, layers) && Sourced(m) && Legal(m, layers, e)
    ensures var (m', answer) := ModelStep(m, layers, e);
            Honest(m) && KeyFree(m, e) <==> Honest(m') && FiledAnswer(m, layers, e) == answer
  {
    hide Numel, Sourced, Filed;
    if e.DoPush? && e.offloadable {
      PushHonest(m, layers, e.t);
    } else if e.DoPop? && e.h.Tagged? {
      PopHonest(m, layers, e.h);
    }
  }

  lemma PopHonest(m: Model, layers: int, h: Handle)
    requires h.Tagged? && Legal(m, layers, DoPop(h))
    ensures var (m', answer) := ModelStep(m, layers, DoPop(h));
            Honest(m) <==> Honest(m') && FiledAnswer(m, layers, DoPop(h)) == answer
  {
    var m' := ModelStep(m, layers, DoPop(h)).0;
    forall tag | tag in m'.saved
      ensures tag in m.saved && m'.saved[tag] == m.saved[tag]
      ensures Filed(m'.saved, m'.filing, tag) == Filed(m.saved, m.filing, tag)
    {
    }
    assert forall tag | tag in m.saved && tag != h.tag :: tag in m'.saved;
  }

  lemma {:induction false} RunSourced(m: Model, layers: int, events: seq<Event>)
    requires Tags(m, layers) && Sourced(m) && 0 <= m.layer && 0 <= m.count && LegalRun(m, layers, events)
    ensures var m' := ModelRun(m, layers, events).0;
            Tags(m', layers) && Sourced(m') && 0 <= m'.layer && 0 <= m'.count && m'.filing.shared == m.filing.shared
  {
    hide Tags, Sourced, Legal, ModelStep;
    if events != [] {
      var n := |events| - 1;
      RunSourced(m, layers, events[..n]);
      StepSourced(ModelRun(m, layers, events[..n]).0, layers, events[n]);
    }
  }

  /** What was filed answers a run as the plain map does, with nothing left to be found out, exactly
      when keys determine contents. */
  lemma {:induction false} RunHonest(m: Model, layers: int, events: seq<Event>)
    requires Tags(m, layers) && Sourced(m) && Honest(m) && 0 <= m.layer && 0 <= m.count && LegalRun(m, layers, events)
    ensures KeysDetermine(m, layers, events) <==>
            Honest(ModelRun(m, layers, events).0) && FiledAnswers(m, layers, events) == ModelRun(m, layers, events).1
  {
    hide Tags, Sourced, Legal, ModelStep, Honest, KeyFree, FiledAnswer;
    if events != [] {
      var n := |events| - 1;
      var (before, answers) := ModelRun(m, layers, events[..n]);
      RunHonest(m, layers, events[..n]);
      RunSourced(m, layers, events[..n]);
      StepHonest(before, layers, events[n]);
      SnocEqual(FiledAnswers(m, layers, events[..n]), answers,
                FiledAnswer(before, layers, events[n]), ModelStep(before, layers, events[n]).1);
    }
  }

  lemma SnocEqual(a: seq<Answer>, b: seq<Answer>, x: Answer, y: Answer)
    ensures a + [x] == b + [y] <==> a == b && x == y
  {
    if a + [x] == b + [y] {
      assert |a| == |b|;
      assert a == (a + [x])[..|a|] && b == (b + [y])[..|b|];
      assert (a + [x])[|a|] == x && (b + [y])[|b|] == y;
    }
  }

  /** Honest contents have the sizes of their shapes. */
  lemma HonestFits(m: Model, layers: int, window: map<int, int>, e: Event)
    requires Tags(m, layers) && Honest(m)
    ensures Feasible(m, window, e)
  {
  }

  lemma {:induction false} RunFeasible(m: Model, layers: int, window: map<int, int>, events: seq<Event>)
    requires Tags(m, layers) && Sourced(m) && Honest(m) && 0 <= m.layer && 0 <= m.count && LegalRun(m, layers, events)
    requires KeysDetermine(m, layers, events)
    ensures FeasibleRun(m, layers, window, events)
  {
    hide Tags, Sourced, Legal, ModelStep, Honest, KeyFree, Feasible;
    if events != [] {
      var n := |events| - 1;
      RunFeasible(m, layers, window, events[..n]);
      RunHonest(m, layers, events[..n]);
      RunSourced(m, layers, events[..n]);
      HonestFits(ModelRun(m, layers, events[..n]).0, layers, window, events[n]);
    }
  }

  lemma StartHonest(groups: int, layers: int)
    ensures var m := Start(groups, layers);
            Tags(m, layers) && Sourced(m) && Honest(m) && 0 <= m.layer && 0 <= m.count
  {
  }
}
