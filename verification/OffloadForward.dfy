/** The forward half of a step keeps the invariant. */
module OffloadForward {
  import opened Options
  import opened OffloadWindow
  import opened OffloadStreams
  import opened OffloadModel
  import opened OffloadInvariant
  import opened OffloadLog

  /** One layer further, at most one more window is over: the one that ends at this layer. */
  lemma PassedNext(layers: int, groups: int, window: map<int, int>, c: int)
    requires WindowOk(layers, groups, window)
    ensures var n := Passed(layers, groups, window, c);
            Passed(layers, groups, window, c + 1) == if n < groups && window[n] == c then n + 1 else n
    ensures var n := Passed(layers, groups, window, c);
            && (n < groups ==> n in window && (groups == layers ==> window[n] == n))
            && (0 < n ==> n - 1 in window && window[n - 1] < c)
    ensures 0 in window && 1 <= groups <= layers
    ensures c < layers ==> Passed(layers, groups, window, c) < groups
    ensures c >= layers ==> Passed(layers, groups, window, c) == groups
    ensures c <= 0 ==> Passed(layers, groups, window, c) == 0
  {
    var n := Passed(layers, groups, window, c);
    var n' := Passed(layers, groups, window, c + 1);
    assert n' < groups ==> (n' < n <==> window[n'] < c);
    assert n < groups ==> (n < n' <==> window[n] < c + 1);
    assert n + 1 < groups ==> window[n] < window[n + 1] && (n + 1 < n' <==> window[n + 1] < c + 1);
    assert groups - 1 < n <==> window[groups - 1] < c;
    assert 0 < n ==> window[0] < c;
  }

  /** The window of a group never ends before the group, and ends later when groups < layers. */
  lemma PassedBound(layers: int, groups: int, window: map<int, int>, c: int)
    requires WindowOk(layers, groups, window)
    requires 0 <= c
    ensures var n := Passed(layers, groups, window, c);
            n <= c && (groups < layers && 0 < c ==> n < c)
    ensures 1 <= groups <= layers
  {
    var n := Passed(layers, groups, window, c);
    if 0 < n {
      assert window[n - 1] < c;
    }
  }

  /** Tag is one of the group's device tensors and carries the key. */
  ghost predicate Carries(order: seq<Tag>, slots: map<Tag, Slot>, group: int, tag: Tag, key: Key) {
    tag in order && tag.group == group && tag in slots && slots[tag].Resident? && slots[tag].t.key == key
  }

  lemma {:induction false} CopyExists(order: seq<Tag>, slots: map<Tag, Slot>, group: int, tag: Tag)
    requires tag in order && tag in slots && slots[tag].Resident?
    requires Carries(order, slots, group, tag, slots[tag].t.key)
    ensures slots[tag].t.key in Copies(order, slots, group)
  {
    var n := |order| - 1;
    if order[n] != tag {
      CopyExists(order[..n], slots, group, tag);
    }
  }

  lemma {:induction false} CopySource(order: seq<Tag>, slots: map<Tag, Slot>, group: int, key: Key) returns (tag: Tag)
    requires key in Copies(order, slots, group)
    ensures Carries(order, slots, group, tag, key)
    ensures slots[tag].t.data == Copies(order, slots, group)[key]
  {
    var n := |order| - 1;
    if key in Copies(order[..n], slots, group) {
      tag := CopySource(order[..n], slots, group, key);
    } else {
      tag := order[n];
    }
  }

  /** Every tensor of the group has the contents filed for it among the copies. */
  ghost predicate Copied(slots: map<Tag, Slot>, saved: map<Tag, Tensor>, filing: Filing, group: int, copies: map<Key, seq<int>>)
    requires slots.Keys == saved.Keys
  {
    forall tag | tag in slots && tag.group == group ::
      slots[tag].Resident? && slots[tag].t.key in copies && copies[slots[tag].t.key] == Filed(saved, filing, tag)
  }

  /** Copies of a group depend on the slots of its tags only. */
  lemma {:induction false} CopiesSame(order: seq<Tag>, slots: map<Tag, Slot>, slots': map<Tag, Slot>, group: int)
    requires forall tag | tag in order && tag.group == group :: (tag in slots <==> tag in slots') && (tag in slots ==> slots[tag] == slots'[tag])
    ensures Copies(order, slots, group) == Copies(order, slots', group)
  {
    if order != [] {
      CopiesSame(order[..|order| - 1], slots, slots', group);
    }
  }

  /** A copy keeps one tensor per key, and every tensor of the group gets what is filed for it. */
  lemma CopiesFaithful(order: seq<Tag>, slots: map<Tag, Slot>, saved: map<Tag, Tensor>, filing: Filing, group: int)
    requires OrderOf(order, slots) && Pristine(slots, saved) && FiledFirst(order, saved, filing)
    requires AllResident(slots, group)
    requires group < filing.shared || forall tag | tag in slots :: tag.group != group
    ensures Copied(slots, saved, filing, group, Copies(order, slots, group))
    ensures (forall tag | tag in slots :: tag.group != group) ==> Copies(order, slots, group) == map[]
  {
    hide Copies;
    var copies := Copies(order, slots, group);
    CopiesSame(order, slots, AsPushed(saved), group);
    forall tag | tag in slots && tag.group == group
      ensures slots[tag].t.key in copies && copies[slots[tag].t.key] == Filed(saved, filing, tag)
    {
      CopyExists(order, slots, group, tag);
      assert saved[tag].key in Copies(order, AsPushed(saved), group);
    }
    forall key | key in copies
      ensures exists tag :: tag in slots && tag.group == group
    {
      var tag := CopySource(order, slots, group, key);
    }
  }

  /** Copying a group out changes where its contents are, not what they are. */
  lemma EvictStored(order: seq<Tag>, slots: map<Tag, Slot>, saved: map<Tag, Tensor>, filing: Filing,
                    host: map<int, map<Key, seq<int>>>, group: int, copies: map<Key, seq<int>>)
    requires OrderOf(order, slots) && Stored(slots, saved, filing, false, host) && Pristine(slots, saved)
    requires group !in host && Copied(slots, saved, filing, group, copies)
    ensures var slots' := EvictGroup(slots, group);
            && OrderOf(order, slots') && Stored(slots', saved, filing, false, host[group := copies])
            && Pristine(slots', saved)
  {
    hide Filed;
  }

  lemma EvictGone(slots: map<Tag, Slot>, host: map<int, map<Key, seq<int>>>, group: int,
                  copies: map<Key, seq<int>>, groups: int, layers: int)
    requires Gone(slots, host, groups, layers)
    requires groups == layers && 0 < group ==> copies == map[]
    ensures Gone(EvictGroup(slots, group), host[group := copies], groups, layers)
  {
  }

  lemma HostNext(host: map<int, map<Key, seq<int>>>, groups: int, group: int, copies: map<Key, seq<int>>)
    requires HostBelow(host, groups, group) && 0 <= group < groups
    ensures HostBelow(host[group := copies], groups, group + 1) && group !in host
  {
  }

  lemma NotEvicted(slots: map<Tag, Slot>, saved: map<Tag, Tensor>, filing: Filing, host: map<int, map<Key, seq<int>>>, group: int)
    requires Stored(slots, saved, filing, false, host) && group !in host
    ensures AllResident(slots, group)
  {
    hide Filed;
  }

  lemma NoneYet(s: State, m: Model, group: int)
    requires Configured(s) && Tags(m, s.layers) && Stored(s.slots, m.saved, m.filing, false, s.hostCopies)
    requires group < s.groups && 0 < group && (s.groups == s.layers ==> m.layer < group)
    requires Shared(s.groups, s.layers) <= group
    ensures forall tag | tag in s.slots :: tag.group != group
  {
  }

  /** One bulk copy out, for whatever was already on the host. */
  lemma BulkOffloadSafe(s: State, m: Model, group: int)
    requires Configured(s) && !m.backward && 0 <= group < s.groups
    requires Tags(m, s.layers) && OrderOf(s.order, s.slots)
    requires Stored(s.slots, m.saved, m.filing, false, s.hostCopies)
    requires Pristine(s.slots, m.saved) && FiledFirst(s.order, m.saved, m.filing)
    requires HostBelow(s.hostCopies, s.groups, group) && Gone(s.slots, s.hostCopies, s.groups, s.layers)
    requires 0 < group && s.groups == s.layers ==> m.layer < group
    requires m.filing.shared == Shared(s.groups, s.layers)
    requires SafeLog(s.log) && Awaited(s.log, -1, -1) && Written(s.log)
    requires s.groups == s.layers ==> Hollow(s.log)
    requires Counted(s.log, s.groups, m.steps, group, s.groups)
    ensures BulkOffload(s, group).Some?
    ensures var s' := BulkOffload(s, group).value;
            && s' == s.(slots := s'.slots, hostCopies := s'.hostCopies, log := s'.log)
            && OrderOf(s'.order, s'.slots)
            && Stored(s'.slots, m.saved, m.filing, false, s'.hostCopies) && Pristine(s'.slots, m.saved)
            && HostBelow(s'.hostCopies, s.groups, group + 1) && Gone(s'.slots, s'.hostCopies, s.groups, s.layers)
            && SafeLog(s'.log) && Awaited(s'.log, group, -1)
            && (s.groups == s.layers ==> Hollow(s'.log))
            && Counted(s'.log, s.groups, m.steps, group + 1, s.groups)
  {
    hide Copies, Ordered, SafeLog, SafeNext, CountOut, CountIn, Hollow, Awaited, FiledFirst, Written, Numel, WindowOk,
      EvictGroup, Gone, Pristine, OrderOf, Stored, Copied, Tags, Counted, HostBelow;
    var copies := Copies(s.order, s.slots, group);
    HostNext(s.hostCopies, s.groups, group, copies);
    NotEvicted(s.slots, m.saved, m.filing, s.hostCopies, group);
    if m.filing.shared <= group {
      NoneYet(s, m, group);
    }
    CopiesFaithful(s.order, s.slots, m.saved, m.filing, group);
    EvictStored(s.order, s.slots, m.saved, m.filing, s.hostCopies, group, copies);
    EvictGone(s.slots, s.hostCopies, group, copies, s.groups, s.layers);
    CopyOutStep(s.log, group, copies.Keys, -1);
    CountedOut(s.log, group, copies.Keys, s.groups, m.steps, s.groups);
  }

  /** Inside a forward commit, with the windows of the first n groups over. */
  ghost predicate Started(s: State, m: Model, n: int) {
    && Configured(s) && !m.backward && 0 <= m.layer < s.layers
    && s.current == m.layer && s.offloaded == n && 0 <= n <= s.groups
    && Tags(m, s.layers) && OrderOf(s.order, s.slots) && m.filing.shared == Shared(s.groups, s.layers)
    && Stored(s.slots, m.saved, m.filing, false, s.hostCopies)
    && Pristine(s.slots, m.saved) && FiledFirst(s.order, m.saved, m.filing)
    && HostBelow(s.hostCopies, s.groups, n + 1) && Gone(s.slots, s.hostCopies, s.groups, s.layers)
    && Buffers(s.buffers, m.saved, s.groups, n)
    && SafeLog(s.log) && Awaited(s.log, if n < s.groups then n else -1, -1)
    && (s.groups == s.layers ==> Hollow(s.log))
    && Counted(s.log, s.groups, m.steps, n + 1, s.groups)
  }

  lemma KickstartSafe(s: State, m: Model)
    requires Inv(s, m) && !m.backward
    ensures Kickstart(s).Some? && Started(Kickstart(s).value, m, Done(s, m))
    ensures var s' := Kickstart(s).value;
            s'.layers == s.layers && s'.groups == s.groups && s'.window == s.window
  {
    hide Copies, Ordered, SafeLog, SafeNext, CountOut, CountIn, Hollow, Awaited, FiledFirst, Written, Stored, Pristine,
      Tags, OrderOf, Gone, Buffers, BulkOffload;
    PassedNext(s.layers, s.groups, s.window, m.layer);
    if s.current == 0 {
      KickstartStep(s.log, -1);
      CountedSame(s.log, Wait(D2H, Compute), s.groups, m.steps, 0, s.groups);
      BulkOffloadSafe(WaitFor(s, D2H, Compute), m, 0);
    }
  }

  lemma ReleaseBuffers(buffers: map<Tag, Option<Tensor>>, saved: map<Tag, Tensor>, groups: int, done: int)
    requires Buffers(buffers, saved, groups, done)
    ensures Buffers(ReleaseGroup(buffers, done), saved, groups, done + 1)
  {
  }

  /** The window of group n is over: its sources are let go and the next group is copied. */
  lemma AdvanceOffloadSafe(s: State, m: Model, n: int)
    requires Started(s, m, n) && n in s.window && s.window[n] == m.layer && n < s.groups
    requires s.groups == s.layers ==> n == m.layer
    ensures AdvanceOffload(s).Some? && Started(AdvanceOffload(s).value, m, n + 1)
    ensures var s' := AdvanceOffload(s).value;
            s'.layers == s.layers && s'.groups == s.groups && s'.window == s.window
  {
    hide Copies, Ordered, SafeLog, SafeNext, CountOut, CountIn, Hollow, Awaited, FiledFirst, Written, Stored, Pristine,
      OrderOf, Gone, Buffers, BulkOffload, ReleaseGroup, Counted, Tags, Numel, HostBelow, WindowOk;
    var s1 := WaitFor(WaitFor(s, D2H, Compute), Compute, D2H);
    var s2 := s1.(buffers := ReleaseGroup(s1.buffers, n), log := s1.log + [Release(n)]);
    ReleaseStep(s.log, n, n, -1);
    CountedSame(s.log, Wait(D2H, Compute), s.groups, m.steps, n + 1, s.groups);
    CountedSame(s.log + [Wait(D2H, Compute)], Wait(Compute, D2H), s.groups, m.steps, n + 1, s.groups);
    CountedSame(s1.log, Release(n), s.groups, m.steps, n + 1, s.groups);
    ReleaseBuffers(s.buffers, m.saved, s.groups, n);
    if n < s.groups - 1 {
      BulkOffloadSafe(s2, m, n + 1);
    } else {
      AllOnHost(s2, m, n + 1);
    }
  }

  /** Once every group is on the host, one more makes no difference. */
  lemma AllOnHost(s: State, m: Model, n: int)
    requires s.groups <= n
    ensures HostBelow(s.hostCopies, s.groups, n) == HostBelow(s.hostCopies, s.groups, n + 1)
    ensures Counted(s.log, s.groups, m.steps, n, s.groups) == Counted(s.log, s.groups, m.steps, n + 1, s.groups)
    ensures Counted(s.log, s.groups, m.steps, n + 1, s.groups) == Counted(s.log, s.groups, m.steps, s.groups, s.groups)
    ensures Awaited(s.log, -1, -1) ==> Awaited(s.log, -1, n)
  {
    hide CountOut, CountIn, Ordered;
  }

  lemma TagsNext(m: Model, layers: int)
    requires Tags(m, layers) && !m.backward && m.layer < layers
    ensures Tags(m.(layer := m.layer + 1, count := 0, backward := m.layer + 1 == layers), layers)
  {
  }

  lemma NoNegative(m: Model, layers: int)
    requires Tags(m, layers)
    ensures forall tag | tag in m.saved :: 0 <= tag.group
  {
  }

  /** The commit ends by moving on to the next layer. */
  lemma StartedNext(s: State, m: Model)
    requires Configured(s) && Started(s, m, Passed(s.layers, s.groups, s.window, m.layer + 1))
    ensures Inv(s.(current := s.current + 1, count := 0),
                m.(layer := m.layer + 1, count := 0, backward := m.layer + 1 == s.layers))
  {
    hide Copies, Ordered, SafeLog, SafeNext, CountOut, CountIn, Hollow, Awaited, FiledFirst, Written, Stored, Pristine,
      OrderOf, Gone, Buffers, Counted, Tags, Numel, HostBelow, WindowOk;
    TagsNext(m, s.layers);
    PassedNext(s.layers, s.groups, s.window, m.layer + 1);
    if s.offloaded == s.groups {
      AllOnHost(s, m, s.groups);
    }
    if m.layer + 1 == s.layers {
      NoNegative(m, s.layers);
      Settle(s.slots, m.saved, m.filing, s.hostCopies, s.groups, s.layers);
    }
  }

  lemma CommitForwardSafe(s: State, m: Model)
    requires Inv(s, m) && Legal(m, s.layers, DoCommitForward)
    ensures CommitForward(s).Some?
    ensures Inv(CommitForward(s).value, ModelStep(m, s.layers, DoCommitForward).0)
  {
    hide Kickstart, Ordered, SafeLog, SafeNext, CountOut, CountIn, Hollow, Awaited, FiledFirst, Stored, Pristine,
      OrderOf, Gone, Buffers, Counted, Tags, Numel, HostBelow, WindowOk, BulkOffload, ReleaseGroup;
    KickstartSafe(s, m);
    var s1 := Kickstart(s).value;
    PassedNext(s.layers, s.groups, s.window, m.layer);
    if s1.window[s1.offloaded] == s1.current {
      AdvanceOffloadSafe(s1, m, s1.offloaded);
    }
    StartedNext(AdvanceOffload(s1).value, m);
  }

  lemma NotOnHost(host: map<int, map<Key, seq<int>>>, groups: int, top: int, group: int)
    requires HostBelow(host, groups, top) && top <= group
    ensures group !in host
  {
  }

  /** A pushed tensor is stored under a fresh tag, and nothing on the host changes its meaning. */
  lemma PushStored(s: State, m: Model, t: Tensor)
    requires Stored(s.slots, m.saved, m.filing, false, s.hostCopies) && Pristine(s.slots, m.saved)
    requires OrderOf(s.order, s.slots)
    requires Tags(m, s.layers) && !m.backward && s.current == m.layer && s.count == m.count
    requires m.layer < m.filing.shared ==> m.layer !in s.hostCopies
    requires 0 <= m.layer < s.layers && 0 <= m.count && |t.data| == Numel(t.shape)
    ensures var tag := Tag(s.current, s.count);
            && tag !in s.slots
            && Stored(s.slots[tag := Resident(t)], m.saved[tag := t], File(m.filing, m.layer, t), false, s.hostCopies)
            && Pristine(s.slots[tag := Resident(t)], m.saved[tag := t])
            && OrderOf(s.order + [tag], s.slots[tag := Resident(t)])
            && Tags(m.(saved := m.saved[tag := t], filing := File(m.filing, m.layer, t), count := m.count + 1), s.layers)
  {
    hide Numel;
  }

  /** Filing a pushed tensor's contents keeps the file what a copy would take. */
  lemma PushFiled(order: seq<Tag>, saved: map<Tag, Tensor>, filing: Filing, tag: Tag, t: Tensor)
    requires FiledFirst(order, saved, filing) && tag !in order
    ensures FiledFirst(order + [tag], saved[tag := t], File(filing, tag.group, t))
  {
    var saved', filing' := saved[tag := t], File(filing, tag.group, t);
    assert (order + [tag])[..|order|] == order;
    forall g, key | g < filing.shared
      ensures var copies := Copies(order + [tag], AsPushed(saved'), g);
              && (key in copies <==> (g, key) in filing'.first)
              && (key in copies ==> copies[key] == filing'.first[(g, key)])
    {
      CopiesSame(order, AsPushed(saved), AsPushed(saved'), g);
      var before := Copies(order, AsPushed(saved), g);
      assert key in before <==> (g, key) in filing.first;
      assert t.key in before <==> (g, t.key) in filing.first;
    }
  }

  /** At the end of the forward half whatever is still on the device is not filed by key. */
  lemma Settle(slots: map<Tag, Slot>, saved: map<Tag, Tensor>, filing: Filing, host: map<int, map<Key, seq<int>>>,
               groups: int, layers: int)
    requires Stored(slots, saved, filing, false, host) && Pristine(slots, saved) && Gone(slots, host, groups, layers)
    requires filing.shared == Shared(groups, layers) && 1 <= groups
    requires HostBelow(host, groups, groups) && forall tag | tag in saved :: 0 <= tag.group
    ensures Stored(slots, saved, filing, true, host)
  {
  }

  lemma NotInOrder(order: seq<Tag>, slots: map<Tag, Slot>, tag: Tag)
    requires OrderOf(order, slots) && tag !in slots
    ensures tag !in order
  {
  }

  lemma PushBuffers(s: State, m: Model, tag: Tag, t: Tensor, done: int)
    requires tag.group in s.hostCopies ==> Shared(s.groups, s.layers) <= tag.group
    requires done <= tag.group && tag.group == s.current
    requires Gone(s.slots, s.hostCopies, s.groups, s.layers) && Buffers(s.buffers, m.saved, s.groups, done)
    ensures Gone(s.slots[tag := Resident(t)], s.hostCopies, s.groups, s.layers)
    ensures Buffers(if s.current < s.groups then s.buffers[tag := Some(t)] else s.buffers,
                    m.saved[tag := t], s.groups, done)
  {
  }

  lemma PushSafe(s: State, m: Model, t: Tensor, offloadable: bool)
    requires Inv(s, m) && Legal(m, s.layers, DoPush(t, offloadable))
    ensures Push(s, t, offloadable).Some?
    ensures var r := Push(s, t, offloadable).value;
            var a := ModelStep(m, s.layers, DoPush(t, offloadable));
            Inv(r.0, a.0) && Got(r.1) == a.1 == FiledAnswer(m, s.layers, DoPush(t, offloadable))
  {
    hide Ordered, SafeLog, SafeNext, CountOut, CountIn, Hollow, Awaited, Stored, Pristine, FiledFirst, OrderOf, Gone, Buffers,
      Tags, Counted, Numel, HostBelow, WindowOk;
    if offloadable {
      ProduceStep(s.log, s.current, if 0 < m.layer then Done(s, m) else -1, -1);
      CountedSame(s.log, Produce(s.current), s.groups, m.steps, Top(m, Done(s, m)), s.groups);
      PassedBound(s.layers, s.groups, s.window, m.layer);
      if m.layer < m.filing.shared {
        NotOnHost(s.hostCopies, s.groups, Top(m, Done(s, m)), m.layer);
      }
      PushStored(s, m, t);
      NotInOrder(s.order, s.slots, Tag(s.current, s.count));
      PushFiled(s.order, m.saved, m.filing, Tag(s.current, s.count), t);
      PushBuffers(s, m, Tag(s.current, s.count), t, Done(s, m));
    }
  }
}
