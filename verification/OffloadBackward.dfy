/** The backward half of a step keeps the invariant, and every pop returns what was pushed. */
module OffloadBackward {
  import opened OffloadWindow
  import opened OffloadStreams
  import opened OffloadModel
  import opened OffloadInvariant
  import opened OffloadLog
  import opened OffloadForward

  /** While a group is on the host, the tensors that were copied are labels, and the others are not
      filed by key. */
  lemma HostedSlots(slots: map<Tag, Slot>, m: Model, host: map<int, map<Key, seq<int>>>, group: int, groups: int, layers: int)
    requires Stored(slots, m.saved, m.filing, true, host) && group in host && Gone(slots, host, groups, layers)
    requires m.filing.shared == Shared(groups, layers) && 1 <= groups <= layers && 0 <= group < groups
    ensures forall tag | tag in slots && tag.group == group ::
              Stands(slots[tag], m.saved, m.filing, true, host, tag) && (slots[tag].Evicted? <==> group < m.filing.shared)
  {
    hide Filed;
    assert m.filing.shared <= group ==> host[group] == map[];
  }

  lemma RecoverFits(slots: map<Tag, Slot>, m: Model, host: map<int, map<Key, seq<int>>>, group: int, groups: int, layers: int)
    requires Stored(slots, m.saved, m.filing, true, host) && group in host && Gone(slots, host, groups, layers)
    requires m.filing.shared == Shared(groups, layers) && 1 <= groups <= layers && 0 <= group < groups
    requires Tags(m, layers)
    ensures AllRecoverable(slots, group, host[group]) <==> Fits(m, group)
  {
    hide Numel;
    HostedSlots(slots, m, host, group, groups, layers);
    hide Gone, Stored;
    if m.filing.shared <= group {
      assert AllRecoverable(slots, group, host[group]);
      assert forall tag | tag in m.saved && tag.group == group :: Filed(m.saved, m.filing, tag) == m.saved[tag].data;
    } else {
      hide Filed;
      assert forall tag | tag in m.saved && tag.group == group :: tag in slots by {
        assert Stored(slots, m.saved, m.filing, true, host);
      }
    }
  }

  /** Copying a group back restores what was filed for its tensors. */
  lemma RecoverStored(order: seq<Tag>, slots: map<Tag, Slot>, m: Model, host: map<int, map<Key, seq<int>>>, group: int)
    requires OrderOf(order, slots) && Stored(slots, m.saved, m.filing, true, host) && group in host
    requires AllRecoverable(slots, group, host[group])
    ensures var slots' := RecoverGroup(slots, group, host[group]);
            OrderOf(order, slots') && Stored(slots', m.saved, m.filing, true, host - {group})
  {
    hide Numel, Filed;
    var slots' := RecoverGroup(slots, group, host[group]);
    forall tag | tag in slots'
      ensures Stands(slots'[tag], m.saved, m.filing, true, host - {group}, tag)
    {
      assert Stands(slots[tag], m.saved, m.filing, true, host, tag);
    }
  }

  lemma RecoverGone(slots: map<Tag, Slot>, host: map<int, map<Key, seq<int>>>, group: int, groups: int, layers: int)
    requires group in host && AllRecoverable(slots, group, host[group])
    requires Gone(slots, host, groups, layers)
    ensures Gone(RecoverGroup(slots, group, host[group]), host - {group}, groups, layers)
  {
  }

  /** Inside a backward commit, with the groups from n on back on the device. */
  ghost predicate Returning(s: State, m: Model, n: int, back: int) {
    && Configured(s) && m.backward && 0 <= m.layer < s.layers && s.current == m.layer
    && s.count == m.count == 0 && 0 <= n <= s.groups
    && Tags(m, s.layers) && OrderOf(s.order, s.slots) && Stored(s.slots, m.saved, m.filing, true, s.hostCopies)
    && m.filing.shared == Shared(s.groups, s.layers)
    && HostBelow(s.hostCopies, s.groups, n) && Gone(s.slots, s.hostCopies, s.groups, s.layers)
    && Buffers(s.buffers, m.saved, s.groups, s.groups)
    && SafeLog(s.log) && Awaited(s.log, -1, back)
    && (s.groups == s.layers ==> Hollow(s.log))
    && Counted(s.log, s.groups, m.steps, s.groups, n)
  }

  lemma EmptyCopies(slots: map<Tag, Slot>, host: map<int, map<Key, seq<int>>>, groups: int, layers: int, group: int)
    requires Gone(slots, host, groups, layers) && group in host
    ensures groups == layers && 0 < group ==> host[group].Keys == {}
  {
  }

  lemma OnHost(host: map<int, map<Key, seq<int>>>, groups: int, group: int)
    requires HostBelow(host, groups, group + 1) && 0 <= group < groups
    ensures group in host
  {
  }

  lemma HostLess(host: map<int, map<Key, seq<int>>>, groups: int, group: int)
    requires HostBelow(host, groups, group + 1)
    ensures HostBelow(host - {group}, groups, group)
  {
  }

  lemma ConfiguredGroups(s: State)
    requires Configured(s)
    ensures 1 <= s.groups <= s.layers
  {
  }

  lemma BulkReloadSafe(s: State, m: Model, group: int, back: int)
    requires Returning(s, m, group + 1, back) && 0 <= group
    ensures var s1 := WaitFor(WaitFor(s, H2D, Compute), Compute, H2D);
            && (BulkReload(s1, group).Some? <==> Fits(m, group))
            && (BulkReload(s1, group).Some? ==>
                  var s' := BulkReload(s1, group).value;
                  && s' == s.(slots := s'.slots, hostCopies := s'.hostCopies, log := s'.log)
                  && Returning(s', m, group, group))
  {
    hide Ordered, SafeLog, SafeNext, CountOut, CountIn, Hollow, Awaited, Numel, Stored, RecoverGroup, AllRecoverable,
      Buffers, Tags, Fits, WindowOk, OrderOf, Gone, HostBelow, Counted;
    OnHost(s.hostCopies, s.groups, group);
    ConfiguredGroups(s);
    EmptyCopies(s.slots, s.hostCopies, s.groups, s.layers, group);
    var keys := s.hostCopies[group].Keys;
    RecoverFits(s.slots, m, s.hostCopies, group, s.groups, s.layers);
    if AllRecoverable(s.slots, group, s.hostCopies[group]) {
      RecoverStored(s.order, s.slots, m, s.hostCopies, group);
      RecoverGone(s.slots, s.hostCopies, group, s.groups, s.layers);
    }
    HostLess(s.hostCopies, s.groups, group);
    ReloadStep(s.log, group, keys, back);
    CountedSame(s.log, Wait(H2D, Compute), s.groups, m.steps, s.groups, group + 1);
    CountedSame(s.log + [Wait(H2D, Compute)], Wait(Compute, H2D), s.groups, m.steps, s.groups, group + 1);
    CountedIn(s.log + [Wait(H2D, Compute)] + [Wait(Compute, H2D)], group, keys, s.groups, m.steps, s.groups);
  }

  /** The commit ends by draining the copy stream if this is the first layer. */
  lemma DrainSafe(s: State, m: Model, n: int)
    requires Configured(s) && n == Passed(s.layers, s.groups, s.window, m.layer)
    requires Returning(s, m, n, n) && s.offloaded == (if n == 0 then 1 else n)
    ensures Inv(Drain(s), m)
  {
    hide Ordered, SafeLog, SafeNext, CountOut, CountIn, Hollow, Awaited, Numel, Stored, WindowOk, Counted, HostBelow,
      Gone, Buffers, OrderOf, Tags;
    DrainStep(s.log, -1, n);
    CountedSame(s.log, Wait(Compute, H2D), s.groups, m.steps, s.groups, n);
  }

  /** Whether or not a window ends here, the groups from the model's layer on are back after it. */
  lemma AdvanceReloadSafe(s: State, m: Model, n: int, n': int)
    requires Returning(s, m, n, n) && s.offloaded == (if n == 0 then 1 else n)
    requires s.offloaded - 1 in s.window && 0 <= n'
    requires if s.window[s.offloaded - 1] == m.layer then n == n' + 1 else n == n'
    ensures AdvanceReload(s).Some? <==> (s.window[s.offloaded - 1] == m.layer ==> Fits(m, n - 1))
    ensures AdvanceReload(s).Some? ==>
              var s' := AdvanceReload(s).value;
              && Returning(s', m, n', n') && s'.offloaded == (if n' == 0 then 1 else n')
              && s'.layers == s.layers && s'.groups == s.groups && s'.window == s.window
  {
    hide Fits, Tags, Ordered, SafeLog, SafeNext, CountOut, CountIn, Hollow, Awaited, Numel, Stored, BulkReload, WindowOk, Counted,
      HostBelow, Gone, Buffers, OrderOf;
    if s.window[s.offloaded - 1] == m.layer {
      BulkReloadSafe(s, m, n - 1, n);
    }
  }

  lemma OnlyLast(layers: int, groups: int, window: map<int, int>, c: int, g: int)
    requires WindowOk(layers, groups, window) && g in window && window[g] == c - 1
    ensures 0 <= g == Passed(layers, groups, window, c) - 1
  {
    var n := Passed(layers, groups, window, c);
    assert 0 <= g < groups && g < n;
    assert window[n - 1] < c;
  }

  /** At most one group is brought back by a commit: the last one whose window is over. */
  lemma FeasibleIs(s: State, m: Model)
    requires Configured(s) && 0 < m.layer <= s.layers
    ensures var n := Done(s, m);
            var last := if n == 0 then 0 else n - 1;
            && last in s.window
            && (Feasible(m, s.window, DoCommitBackward) <==> (s.window[last] == m.layer - 1 ==> Fits(m, last)))
            && (s.window[last] == m.layer - 1 ==> last == n - 1)
            && Done(s, m.(layer := m.layer - 1)) == (if s.window[last] == m.layer - 1 then n - 1 else n)
  {
    hide Fits, WindowOk;
    PassedNext(s.layers, s.groups, s.window, m.layer - 1);
    PassedNext(s.layers, s.groups, s.window, m.layer);
    forall g | g in s.window && s.window[g] == m.layer - 1
      ensures 0 <= g == Done(s, m) - 1
    {
      OnlyLast(s.layers, s.groups, s.window, m.layer, g);
    }
  }

  lemma SameFits(m: Model, layer: int, group: int)
    ensures Fits(m.(layer := layer), group) == Fits(m, group)
  {
  }

  lemma CommitBackwardSafe(s: State, m: Model)
    requires Inv(s, m) && Legal(m, s.layers, DoCommitBackward)
    ensures CommitBackward(s).Some? <==> Feasible(m, s.window, DoCommitBackward)
    ensures CommitBackward(s).Some? ==> Inv(CommitBackward(s).value, ModelStep(m, s.layers, DoCommitBackward).0)
  {
    hide Ordered, SafeLog, SafeNext, CountOut, CountIn, Hollow, Awaited, Numel, Stored, BulkReload, WindowOk, Counted,
      HostBelow, Gone, Buffers, OrderOf, Drain, AdvanceReload, Fits, Feasible;
    var m' := m.(layer := m.layer - 1);
    PassedNext(s.layers, s.groups, s.window, m'.layer);
    FeasibleIs(s, m);
    var n, n' := Done(s, m), Done(s, m');
    var s1 := s.(current := m'.layer);
    assert Returning(s1, m', n, n);
    SameFits(m, m'.layer, n - 1);
    AdvanceReloadSafe(s1, m', n, n');
    if AdvanceReload(s1).Some? {
      DrainSafe(AdvanceReload(s1).value, m', n');
    }
  }

  lemma FiledWithout(saved: map<Tag, Tensor>, filing: Filing, tag: Tag, other: Tag)
    requires other in saved && other != tag
    ensures Filed(saved - {tag}, filing, other) == Filed(saved, filing, other)
  {
  }

  lemma PopStored(s: State, m: Model, tag: Tag)
    requires OrderOf(s.order, s.slots) && Stored(s.slots, m.saved, m.filing, true, s.hostCopies)
    requires tag in m.saved
    ensures tag in s.slots && Stands(s.slots[tag], m.saved, m.filing, true, s.hostCopies, tag)
    ensures OrderOf(Without(s.order, tag), s.slots - {tag})
    ensures Stored(s.slots - {tag}, m.saved - {tag}, m.filing, true, s.hostCopies)
  {
    hide Filed, Without;
    forall other | other in s.slots - {tag}
      ensures Stands((s.slots - {tag})[other], m.saved - {tag}, m.filing, true, s.hostCopies, other)
    {
      FiledWithout(m.saved, m.filing, tag, other);
    }
  }

  lemma PopGone(s: State, m: Model, tag: Tag, done: int)
    requires Gone(s.slots, s.hostCopies, s.groups, s.layers) && Buffers(s.buffers, m.saved, s.groups, done)
    ensures Gone(s.slots - {tag}, s.hostCopies, s.groups, s.layers)
    ensures Buffers(s.buffers - {tag}, m.saved - {tag}, s.groups, done)
  {
  }

  lemma PopTags(m: Model, layers: int, tag: Tag)
    requires Tags(m, layers)
    ensures Tags(m.(saved := m.saved - {tag}), layers)
  {
    hide Numel;
  }

  lemma PopSafe(s: State, m: Model, h: Handle)
    requires Inv(s, m) && Legal(m, s.layers, DoPop(h))
    ensures Pop(s, h).Some?
    ensures var r := Pop(s, h).value;
            && Inv(r.0, ModelStep(m, s.layers, DoPop(h)).0)
            && Contents(r.1.shape, r.1.data) == FiledAnswer(m, s.layers, DoPop(h))
  {
    hide Ordered, SafeLog, SafeNext, CountOut, CountIn, Hollow, Awaited, Numel, Counted, OrderOf, Gone,
      Buffers, Without, WindowOk, Pristine, FiledFirst, Stored, HostBelow, Filed;
    if h.Tagged? {
      var n := Done(s, m);
      PassedBound(s.layers, s.groups, s.window, m.layer);
      UseStep(s.log, m.layer, -1, if 0 < m.layer then n else -1);
      CountedSame(s.log, Use(m.layer), s.groups, m.steps, s.groups, n);
      PopStored(s, m, h.tag);
      PopGone(s, m, h.tag, s.groups);
      PopTags(m, s.layers, h.tag);
      NotOnHost(s.hostCopies, s.groups, n, h.tag.group);
    }
  }

  lemma NoMember(order: seq<Tag>)
    ensures order == [] || exists tag :: tag in order
  {
    if order != [] {
      assert order[0] in order;
    }
  }

  lemma NothingFiled(order: seq<Tag>, slots: map<Tag, Slot>, filing: Filing)
    requires OrderOf(order, slots) && slots == map[] && filing.first == map[]
    ensures FiledFirst(order, map[], filing)
  {
    NoMember(order);
  }

  lemma EndStepSafe(s: State, m: Model)
    requires Inv(s, m) && Legal(m, s.layers, EndStep)
    ensures Inv(s, ModelStep(m, s.layers, EndStep).0)
  {
    hide Ordered, SafeLog, SafeNext, CountOut, CountIn, Hollow, Awaited, Numel, OrderOf;
    PassedNext(s.layers, s.groups, s.window, 0);
    assert s.slots == map[];
    NothingFiled(s.order, s.slots, m.filing.(first := map[]));
    assert Stored(s.slots, map[], m.filing.(first := map[]), false, s.hostCopies);
  }
}
