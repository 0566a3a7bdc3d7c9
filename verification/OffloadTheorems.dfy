/** What the handler promises over whole runs: any number of steps, any pushes, any pop order. */
module OffloadTheorems {
  import opened Options
  import opened OffloadWindow
  import opened OffloadStreams
  import opened OffloadModel
  import opened OffloadInvariant
  import opened OffloadForward
  import opened OffloadBackward
  import opened OffloadFiling

  /** One event: the handler fails exactly when a size is wrong, and else answers what was filed. */
  lemma StepSafe(s: State, m: Model, e: Event)
    requires Inv(s, m) && Legal(m, s.layers, e)
    ensures Step(s, e).Some? <==> Feasible(m, s.window, e)
    ensures Step(s, e).Some? ==>
              && Inv(Step(s, e).value.0, ModelStep(m, s.layers, e).0)
              && Step(s, e).value.1 == FiledAnswer(m, s.layers, e)
  {
    hide Inv, Push, Pop, CommitForward, CommitBackward, Legal, Fits;
    match e
    case DoPush(t, offloadable) => PushSafe(s, m, t, offloadable);
    case DoCommitForward => CommitForwardSafe(s, m);
    case DoPop(h) => PopSafe(s, m, h);
    case DoCommitBackward => CommitBackwardSafe(s, m);
    case EndStep => EndStepSafe(s, m);
  }

  ghost predicate SameConfiguration(s: State, s': State) {
    s'.layers == s.layers && s'.groups == s.groups && s'.window == s.window
  }

  lemma ForwardKeepsConfiguration(s: State)
    requires CommitForward(s).Some?
    ensures SameConfiguration(s, CommitForward(s).value)
  {
    hide Copies, EvictGroup, AllResident, ReleaseGroup;
  }

  lemma BackwardKeepsConfiguration(s: State)
    requires CommitBackward(s).Some?
    ensures SameConfiguration(s, CommitBackward(s).value)
  {
    hide RecoverGroup, AllRecoverable;
  }

  lemma StepKeepsConfiguration(s: State, e: Event)
    requires Step(s, e).Some?
    ensures SameConfiguration(s, Step(s, e).value.0)
  {
    hide CommitForward, CommitBackward, Without;
    if e.DoCommitForward? {
      ForwardKeepsConfiguration(s);
    } else if e.DoCommitBackward? {
      BackwardKeepsConfiguration(s);
    }
  }

  lemma InitialInv(layers: nat, groups: nat, window: map<int, int>)
    requires WindowOk(layers, groups, window)
    ensures Inv(Initial(groups, layers, window), Start(groups, layers))
  {
    PassedNext(layers, groups, window, 0);
  }

  /** A client that keeps to the order of calls: its runs need not respect keys. */
  ghost predicate Served(layers: nat, groups: nat, window: map<int, int>, events: seq<Event>) {
    WindowOk(layers, groups, window) && LegalRun(Start(groups, layers), layers, events)
  }

  /** What any run does: the handler answers each pop with what was filed under the tensor's key in
      its layer, and fails exactly where that has not the size of a shape it has to take. */
  lemma {:induction false} RunRefinesFiling(layers: nat, groups: nat, window: map<int, int>, events: seq<Event>)
    requires Served(layers, groups, window, events)
    ensures var (r, m) := (Run(Initial(groups, layers, window), events), Start(groups, layers));
            && (r.Some? <==> FeasibleRun(m, layers, window, events))
            && (r.Some? ==>
                  && r.value.1 == FiledAnswers(m, layers, events)
                  && r.value.0.layers == layers && r.value.0.groups == groups && r.value.0.window == window
                  && Inv(r.value.0, ModelRun(m, layers, events).0))
  {
    hide Inv, Step, ModelStep, WindowOk, FiledAnswer, Feasible;
    var m := Start(groups, layers);
    if events == [] {
      InitialInv(layers, groups, window);
    } else {
      var n := |events| - 1;
      RunRefinesFiling(layers, groups, window, events[..n]);
      var before := Run(Initial(groups, layers, window), events[..n]);
      if before.Some? {
        StepSafe(before.value.0, ModelRun(m, layers, events[..n]).0, events[n]);
        if Step(before.value.0, events[n]).Some? {
          StepKeepsConfiguration(before.value.0, events[n]);
        }
      }
    }
  }

  /** The handler answers as a plain map does. */
  ghost predicate ActsAsMap(layers: nat, groups: nat, window: map<int, int>, events: seq<Event>)
    requires Served(layers, groups, window, events)
  {
    var r := Run(Initial(groups, layers, window), events);
    r.Some? && r.value.1 == ModelRun(Start(groups, layers), layers, events).1
  }

  /** If keys determine contents in the layers that leave the device, no run fails, and the handler
      answers every push and pop as a plain map would. */
  lemma RunRefinesMap(layers: nat, groups: nat, window: map<int, int>, events: seq<Event>)
    requires Served(layers, groups, window, events)
    requires KeysDetermine(Start(groups, layers), layers, events)
    ensures ActsAsMap(layers, groups, window, events) && FeasibleRun(Start(groups, layers), layers, window, events)
  {
    hide WindowOk, Run, LegalRun, KeysDetermine, FeasibleRun, FiledAnswers, ModelRun, Inv, Tags, Sourced, Honest;
    StartHonest(groups, layers);
    RunRefinesFiling(layers, groups, window, events);
    RunHonest(Start(groups, layers), layers, events);
    RunFeasible(Start(groups, layers), layers, window, events);
  }

  /** Over whole steps that is also the only way: a handler that acts as a map has been given keys
      that determine contents. */
  lemma ActsAsMapIffKeysDetermine(layers: nat, groups: nat, window: map<int, int>, events: seq<Event>)
    requires Served(layers, groups, window, events)
    requires events == [] || events[|events| - 1] == EndStep
    ensures ActsAsMap(layers, groups, window, events) <==> KeysDetermine(Start(groups, layers), layers, events)
  {
    hide WindowOk, Run, KeysDetermine, FeasibleRun, FiledAnswers, Inv, Tags, Sourced;
    var m := Start(groups, layers);
    StartHonest(groups, layers);
    RunRefinesFiling(layers, groups, window, events);
    RunHonest(m, layers, events);
    assert ModelRun(m, layers, events).0.saved == map[];
    if KeysDetermine(m, layers, events) {
      RunFeasible(m, layers, window, events);
    }
  }

  /** A served run on which no size is wrong; by RunRefinesMap any run that respects keys. */
  ghost predicate Succeeds(layers: nat, groups: nat, window: map<int, int>, events: seq<Event>) {
    Served(layers, groups, window, events) && FeasibleRun(Start(groups, layers), layers, window, events)
  }

  /** The state such a run leads to. */
  ghost function Reached(layers: nat, groups: nat, window: map<int, int>, events: seq<Event>): (s: State)
    requires Succeeds(layers, groups, window, events)
    ensures Inv(s, ModelRun(Start(groups, layers), layers, events).0)
    ensures s.layers == layers && s.groups == groups && s.window == window
  {
    RunRefinesFiling(layers, groups, window, events);
    Run(Initial(groups, layers, window), events).value.0
  }

  /** Between two steps every dictionary and counter is as it was at the start, and each group
      has been copied out once and copied in once per step. */
  lemma StepsLeaveNothing(layers: nat, groups: nat, window: map<int, int>, events: seq<Event>)
    requires Succeeds(layers, groups, window, events) && events != [] && events[|events| - 1] == EndStep
    ensures var s := Reached(layers, groups, window, events);
            var m := ModelRun(Start(groups, layers), layers, events).0;
            && s == Initial(groups, layers, window).(log := s.log)
            && forall g | 0 <= g < groups :: CountOut(s.log, g) == CountIn(s.log, g) == m.steps
  {
    hide WindowOk, Tags, Stored, Gone, SafeLog, Counted, Awaited, Hollow, Buffers, FiledFirst, Run;
    var n := |events| - 1;
    var m := ModelRun(Start(groups, layers), layers, events[..n]).0;
    assert m.backward && m.count == 0 by {
      var before := Reached(layers, groups, window, events[..n]);
      assert Counters(before, m) by {
        assert Inv(before, m);
      }
    }
    AtRest(Reached(layers, groups, window, events), ModelRun(Start(groups, layers), layers, events).0);
  }

  lemma AtRest(s: State, m: Model)
    requires Inv(s, m) && !m.backward && m.layer == 0 && m.saved == map[] && m.count == 0
    ensures s == Initial(s.groups, s.layers, s.window).(log := s.log)
    ensures forall g | 0 <= g < s.groups :: CountOut(s.log, g) == CountIn(s.log, g) == m.steps
  {
    hide SafeLog, Ordered, Awaited, Hollow;
    PassedNext(s.layers, s.groups, s.window, 0);
    NoMember(s.order);
    assert forall g :: g !in s.hostCopies;
    assert s.slots == map[] && s.buffers == map[] && s.hostCopies == map[];
  }

  /** The entry was added on the way from the first log to the second. */
  ghost predicate Logged(log: seq<Op>, log': seq<Op>, op: Op) {
    log <= log' && exists i :: |log| <= i < |log'| && log'[i] == op
  }

  lemma LoggedLast(log: seq<Op>, mid: seq<Op>, op: Op)
    requires log <= mid
    ensures Logged(log, mid + [op], op)
  {
    assert (mid + [op])[|mid|] == op;
  }

  lemma LoggedWithin(log: seq<Op>, from: seq<Op>, to: seq<Op>, log': seq<Op>)
    requires log <= from <= to <= log'
    ensures forall op | Logged(from, to, op) :: Logged(log, log', op)
  {
  }

  /** Device references dropped, and host copies that come and go. */
  ghost predicate Tells(s: State, s': State) {
    && s.log <= s'.log
    && (forall tag | tag in s.buffers && s.buffers[tag].Some? && (tag !in s'.buffers || s'.buffers[tag].None?) ::
          Logged(s.log, s'.log, Release(tag.group)))
    && (forall g | g in s'.hostCopies && g !in s.hostCopies :: Logged(s.log, s'.log, CopyOut(g, s'.hostCopies[g].Keys)))
    && (forall g | g in s.hostCopies && g !in s'.hostCopies :: Logged(s.log, s'.log, CopyIn(g, s.hostCopies[g].Keys)))
    && (forall g | g in s.hostCopies && g in s'.hostCopies && s.hostCopies[g] != s'.hostCopies[g] ::
          Logged(s.log, s'.log, CopyOut(g, s'.hostCopies[g].Keys)))
  }

  /** Nothing that matters is missing from the log: every push and pop of an offloadable tensor and,
      in a commit, every release of device references and every copy, with the keys it copies. */
  lemma LogTells(s: State, e: Event)
    requires Step(s, e).Some?
    ensures var s' := Step(s, e).value.0;
            && (e.DoPush? ==> s'.log == if e.offloadable then s.log + [Produce(s.current)] else s.log)
            && (e.DoPop? ==> s'.log == if e.h.Tagged? then s.log + [Use(e.h.tag.group)] else s.log)
            && (e.EndStep? ==> s'.log == s.log)
            && (e.DoCommitForward? || e.DoCommitBackward? ==> Tells(s, s'))
  {
    hide Tells, CommitForward, CommitBackward;
    match e
    case DoPush(_, _) =>
    case DoPop(_) =>
    case EndStep =>
    case DoCommitForward => ForwardTells(s);
    case DoCommitBackward => BackwardTells(s);
  }

  lemma OffloadTells(s: State, group: int)
    requires BulkOffload(s, group).Some?
    ensures Tells(s, BulkOffload(s, group).value)
    ensures BulkOffload(s, group).value.buffers == s.buffers
  {
    hide AllResident, EvictGroup, Copies, Logged;
    LoggedLast(s.log, s.log, CopyOut(group, Copies(s.order, s.slots, group).Keys));
  }

  lemma TellsTrans(s: State, mid: State, s': State)
    requires Tells(s, mid) && Tells(mid, s')
    requires s'.hostCopies.Keys >= mid.hostCopies.Keys >= s.hostCopies.Keys
    ensures Tells(s, s')
  {
    hide Logged;
    LoggedWithin(s.log, s.log, mid.log, s'.log);
    LoggedWithin(s.log, mid.log, s'.log, s'.log);
  }

  lemma WaitTells(s: State, waiter: Stream, waitee: Stream)
    ensures Tells(s, WaitFor(s, waiter, waitee))
  {
  }

  lemma ReleaseTells(s: State, group: int)
    ensures Tells(s, s.(buffers := ReleaseGroup(s.buffers, group), log := s.log + [Release(group)]))
  {
    hide Logged;
    LoggedLast(s.log, s.log, Release(group));
  }

  lemma CountersTell(s: State, s': State)
    requires s'.buffers == s.buffers && s'.hostCopies == s.hostCopies && s.log <= s'.log
    ensures Tells(s, s')
  {
  }

  lemma KickstartTells(s: State)
    requires Kickstart(s).Some?
    ensures Tells(s, Kickstart(s).value) && s.hostCopies.Keys <= Kickstart(s).value.hostCopies.Keys
  {
    hide Tells, AllResident, EvictGroup, Copies;
    if s.current == 0 {
      var waited := WaitFor(s, D2H, Compute);
      WaitTells(s, D2H, Compute);
      OffloadTells(waited, 0);
      TellsTrans(s, waited, Kickstart(s).value);
    } else {
      CountersTell(s, s);
    }
  }

  lemma AdvanceTells(s: State)
    requires AdvanceOffload(s).Some?
    ensures Tells(s, AdvanceOffload(s).value) && s.hostCopies.Keys <= AdvanceOffload(s).value.hostCopies.Keys
  {
    hide Tells, AllResident, EvictGroup, Copies, ReleaseGroup;
    var end := AdvanceOffload(s).value;
    if s.window[s.offloaded] == s.current {
      var s1 := WaitFor(WaitFor(s, D2H, Compute), Compute, D2H);
      var s2 := s1.(buffers := ReleaseGroup(s1.buffers, s1.offloaded), log := s1.log + [Release(s1.offloaded)]);
      CountersTell(s, s1);
      ReleaseTells(s1, s1.offloaded);
      TellsTrans(s, s1, s2);
      if s2.offloaded < s2.groups - 1 {
        var s3 := BulkOffload(s2, s2.offloaded + 1).value;
        OffloadTells(s2, s2.offloaded + 1);
        TellsTrans(s, s2, s3);
        CountersTell(s3, end);
        TellsTrans(s, s3, end);
      } else {
        CountersTell(s2, end);
        TellsTrans(s, s2, end);
      }
    } else {
      CountersTell(s, s);
    }
  }

  lemma ForwardTells(s: State)
    requires CommitForward(s).Some?
    ensures Tells(s, CommitForward(s).value)
  {
    hide Tells, Kickstart, AdvanceOffload;
    var s1 := Kickstart(s).value;
    var s2 := AdvanceOffload(s1).value;
    KickstartTells(s);
    AdvanceTells(s1);
    TellsTrans(s, s1, s2);
    CountersTell(s2, CommitForward(s).value);
    TellsTrans(s, s2, CommitForward(s).value);
  }

  lemma BackwardTells(s: State)
    requires CommitBackward(s).Some?
    ensures Tells(s, CommitBackward(s).value)
  {
    hide AllRecoverable, RecoverGroup, Logged;
    var s1 := s.(current := s.current - 1);
    var s2 := AdvanceReload(s1).value;
    if s1.window[s1.offloaded - 1] == s1.current {
      var g := s1.offloaded - 1;
      var waited := s.log + [Wait(H2D, Compute)] + [Wait(Compute, H2D)];
      LoggedLast(s.log, waited, CopyIn(g, s.hostCopies[g].Keys));
      assert s2.log == waited + [CopyIn(g, s.hostCopies[g].Keys)];
      LoggedWithin(s.log, s.log, s2.log, Drain(s2).log);
    }
  }

  /** In the log of every run, conflicting work is ordered by the waits alone. */
  lemma RunOrdered(layers: nat, groups: nat, window: map<int, int>, events: seq<Event>, i: int, j: int)
    requires Succeeds(layers, groups, window, events)
    requires 0 <= i < j < |Reached(layers, groups, window, events).log|
    requires var log := Reached(layers, groups, window, events).log;
             || (log[i].Produce? && log[j].CopyOut? && log[i].group == log[j].group)
             || (log[i].CopyOut? && (log[j].Release? || log[j].CopyIn?) && log[i].group == log[j].group && log[i].keys != {})
             || (log[i].CopyIn? && log[j].Use? && log[i].group == log[j].group && log[i].keys != {})
             || (log[i].Use? && log[j].CopyIn?)
    ensures HappensBefore(Reached(layers, groups, window, events).log, i, j)
  {
    var log := Reached(layers, groups, window, events).log;
    SafeLogOrdered(log, i, j);
    OrderedIsHappensBefore(log, i, j);
  }

  lemma {:induction false} SafeLogOrdered(log: seq<Op>, i: int, j: int)
    requires SafeLog(log) && 0 <= i < j < |log| && Conflicts(log[i], log[j])
    ensures Ordered(log[..j], i, StreamOf(log[j]))
    decreases |log|
  {
    var n := |log| - 1;
    if j == n {
      assert log[..n][i] == log[i];
    } else {
      SafeLogOrdered(log[..n], i, j);
      assert log[..n][..j] == log[..j];
    }
  }

  /** A copy out the computation has not waited for still has all its sources referenced. */
  ghost predicate SourcesHeld(s: State, m: Model) {
    forall i, tag | 0 <= i < |s.log| && s.log[i].CopyOut? && !Ordered(s.log, i, Compute)
                    && tag in m.saved && tag.group == s.log[i].group ::
      tag in s.buffers && s.buffers[tag] == Some(m.saved[tag])
  }

  lemma InvHoldsSources(s: State, m: Model)
    requires Inv(s, m)
    ensures SourcesHeld(s, m)
  {
    hide SafeLog, Counted, Hollow, Ordered, Stored, Pristine, FiledFirst, Gone, WindowOk, Numel;
    PassedNext(s.layers, s.groups, s.window, m.layer);
  }

  lemma RunHoldsSources(layers: nat, groups: nat, window: map<int, int>, events: seq<Event>)
    requires Succeeds(layers, groups, window, events)
    ensures SourcesHeld(Reached(layers, groups, window, events), ModelRun(Start(groups, layers), layers, events).0)
  {
    hide Inv, SourcesHeld, WindowOk, LegalRun, ModelRun;
    InvHoldsSources(Reached(layers, groups, window, events), ModelRun(Start(groups, layers), layers, events).0);
  }

  // ---- how much stays on the device -----------------------------------------------------

  /** The layer counts `enable_activation_offloading` passes on, if it goes ahead at all. */
  function OffloadCounts(fsdpLayers: nat): (r: Option<(nat, nat)>)
    ensures r.Some? <==> 3 <= fsdpLayers
  {
    if fsdpLayers < 3 then None else Some((fsdpLayers - 1, fsdpLayers))
  }

  /** The handler holds a device reference to a tensor of the group. */
  ghost predicate OnDevice(s: State, tag: Tag) {
    || (tag in s.slots && s.slots[tag].Resident?)
    || (tag in s.buffers && s.buffers[tag].Some?)
  }

  lemma WindowOfNext(layers: nat, i: nat)
    requires 3 <= layers && i < layers - 1
    ensures Window(layers, layers - 1, i) == i + 1
  {
    assert layers / (layers - 1) == 1 && layers % (layers - 1) == 1;
  }

  /** For a client that commits each of its layers once per half: the run succeeds if no size is
      wrong, at most two groups are on the device at any time, the model's current one and its
      predecessor, and after the forward half only the last layer's is. */
  lemma AtMostTwoGroups(fsdpLayers: nat, window: map<int, int>, events: seq<Event>, tag: Tag)
    requires 3 <= fsdpLayers
    requires var (groups, layers) := OffloadCounts(fsdpLayers).value;
             && (forall i :: i in window <==> 0 <= i < groups)
             && (forall i | 0 <= i < groups :: window[i] == Window(layers, groups, i))
             && LegalRun(Start(groups, layers), fsdpLayers, events)
             && FeasibleRun(Start(groups, layers), fsdpLayers, window, events)
    ensures var (groups, layers) := OffloadCounts(fsdpLayers).value;
            var (r, m) := (Run(Initial(groups, layers, window), events), ModelRun(Start(groups, layers), fsdpLayers, events).0);
            && r.Some?
            && (OnDevice(r.value.0, tag) ==> m.layer - 1 <= tag.group <= m.layer)
            && (m.backward && m.layer == fsdpLayers && OnDevice(r.value.0, tag) ==> tag.group == fsdpLayers - 1)
  {
    var (groups, layers) := OffloadCounts(fsdpLayers).value;
    WindowIsOk(layers, groups, window);
    hide Inv, LegalRun, ModelRun, Run;
    forall i | 0 <= i < groups
      ensures window[i] == i + 1
    {
      WindowOfNext(layers, i);
    }
    var s, m := Reached(layers, groups, window, events), ModelRun(Start(groups, layers), layers, events).0;
    RunRefinesFiling(layers, groups, window, events);
    ResidentExactly(s, m, tag);
    LayersBound(s, m, tag);
  }

  lemma LayersBound(s: State, m: Model, tag: Tag)
    requires Inv(s, m)
    ensures m.layer <= s.layers
    ensures tag in m.saved ==> 0 <= tag.group <= m.layer && tag.group < s.layers
  {
    hide SafeLog, Counted, Hollow, Ordered, Awaited, Pristine, FiledFirst, Stored, Gone, Buffers, HostBelow, WindowOk, Numel;
  }

  /** With fewer groups than layers, in every state the handler can be in, a tensor is on the device
      exactly if it is in use and its group is never offloaded or its window ends at this layer or
      later. */
  lemma ResidentExactly(s: State, m: Model, tag: Tag)
    requires Inv(s, m) && s.groups < s.layers
    ensures OnDevice(s, tag) <==>
            tag in m.saved && (s.groups <= tag.group || (tag.group in s.window && m.layer <= s.window[tag.group]))
  {
    hide SafeLog, Counted, Hollow, Ordered, Awaited, Pristine, FiledFirst, Filed, Numel;
    PassedNext(s.layers, s.groups, s.window, m.layer);
    assert tag in m.saved && tag.group < s.groups ==>
        tag.group in s.window && (tag.group < Done(s, m) <==> s.window[tag.group] < m.layer);
    assert tag in s.slots <==> tag in m.saved;
  }

  lemma TwoGroups(s: State, m: Model, tag: Tag)
    requires Inv(s, m) && OnDevice(s, tag)
    requires s.groups == s.layers - 1 && forall i | 0 <= i < s.groups :: s.window[i] == i + 1
    ensures s.current - 1 <= tag.group <= s.current
  {
    hide SafeLog, Counted, Hollow, Ordered, Awaited, Pristine, FiledFirst, Stored, Gone, Buffers, HostBelow, OnDevice, Numel;
    ResidentExactly(s, m, tag);
    LayersBound(s, m, tag);
  }

  /** After the forward half nothing of an offloaded group is left on the device. */
  lemma ForwardOffloadsAll(layers: nat, groups: nat, window: map<int, int>, events: seq<Event>, tag: Tag)
    requires Succeeds(layers, groups, window, events) && groups < layers
    requires var m := ModelRun(Start(groups, layers), layers, events).0;
             m.backward && m.layer == layers
    ensures OnDevice(Reached(layers, groups, window, events), tag) ==> groups <= tag.group
  {
    hide Inv, LegalRun, ModelRun, OnDevice;
    ResidentExactly(Reached(layers, groups, window, events), ModelRun(Start(groups, layers), layers, events).0, tag);
    PassedNext(layers, groups, window, layers);
  }

  /** The buffer dictionary holds an entry for every tensor in use of an offloaded group, and in it
      the tensor itself exactly until the group's window is over. */
  lemma RunBuffers(layers: nat, groups: nat, window: map<int, int>, events: seq<Event>, tag: Tag)
    requires Succeeds(layers, groups, window, events)
    ensures var (s, m) := (Reached(layers, groups, window, events), ModelRun(Start(groups, layers), layers, events).0);
            && (tag in s.buffers <==> tag in m.saved && tag.group < groups)
            && (tag in s.buffers ==>
                  && tag.group in window
                  && s.buffers[tag] == if !m.backward && m.layer <= window[tag.group] then Some(m.saved[tag]) else None)
  {
    BuffersAre(Reached(layers, groups, window, events), ModelRun(Start(groups, layers), layers, events).0, tag);
  }

  lemma BuffersAre(s: State, m: Model, tag: Tag)
    requires Inv(s, m)
    ensures tag in s.buffers <==> tag in m.saved && tag.group < s.groups
    ensures tag in s.buffers ==>
              && tag.group in s.window
              && s.buffers[tag] == if !m.backward && m.layer <= s.window[tag.group] then Some(m.saved[tag]) else None
  {
    hide SafeLog, Counted, Hollow, Ordered, Awaited, Pristine, FiledFirst, Stored, Gone, HostBelow, Numel;
    PassedNext(s.layers, s.groups, s.window, m.layer);
  }

  /** The same at every point of every run. */
  lemma RunResidency(layers: nat, groups: nat, window: map<int, int>, events: seq<Event>, tag: Tag)
    requires Succeeds(layers, groups, window, events) && groups < layers
    ensures var (s, m) := (Reached(layers, groups, window, events), ModelRun(Start(groups, layers), layers, events).0);
            (tag in s.slots && s.slots[tag].Resident?) || (tag in s.buffers && s.buffers[tag].Some?) <==>
            tag in m.saved && (groups <= tag.group || (tag.group in window && m.layer <= window[tag.group]))
  {
    hide Inv, WindowOk, LegalRun, ModelRun;
    ResidentExactly(Reached(layers, groups, window, events), ModelRun(Start(groups, layers), layers, events).0, tag);
  }

  // ---- the assumption on keys -----------------------------------------------------------

  /** Evicting a group and recovering it gives every tensor back. */
  ghost predicate Restores(order: seq<Tag>, slots: map<Tag, Slot>, group: int) {
    var copies := Copies(order, slots, group);
    var evicted := EvictGroup(slots, group);
    && AllRecoverable(evicted, group, copies)
    && forall tag | tag in slots && tag.group == group ::
         var slot := RecoverGroup(evicted, group, copies)[tag];
         && slot.Resident? && slots[tag].Resident?
         && slot.t.shape == slots[tag].t.shape && slot.t.data == slots[tag].t.data
  }

  /** Keys are addresses and types only, so the round trip works exactly when, within the group,
      tensors with the same key have the same contents. */
  lemma RestoresIffKeysDetermine(order: seq<Tag>, slots: map<Tag, Slot>, group: int)
    requires OrderOf(order, slots)
    requires forall tag | tag in slots :: slots[tag].Resident? && |slots[tag].t.data| == Numel(slots[tag].t.shape)
    ensures Restores(order, slots, group) <==>
            forall a, b | a in slots && b in slots && a.group == group == b.group && slots[a].t.key == slots[b].t.key ::
              slots[a].t.data == slots[b].t.data
  {
    hide Copies, Numel;
    var copies := Copies(order, slots, group);
    forall tag | tag in slots && tag.group == group
      ensures slots[tag].t.key in copies
    {
      CopyExists(order, slots, group, tag);
    }
    if forall a, b | a in slots && b in slots && a.group == group == b.group && slots[a].t.key == slots[b].t.key ::
        slots[a].t.data == slots[b].t.data {
      forall tag | tag in slots && tag.group == group
        ensures copies[slots[tag].t.key] == slots[tag].t.data
      {
        var first := CopySource(order, slots, group, slots[tag].t.key);
      }
      assert Restores(order, slots, group);
    }
    if Restores(order, slots, group) {
      forall a, b | a in slots && b in slots && a.group == group == b.group && slots[a].t.key == slots[b].t.key
        ensures slots[a].t.data == slots[b].t.data
      {
        var evicted := EvictGroup(slots, group);
        assert RecoverGroup(evicted, group, copies)[a].t.data == copies[slots[a].t.key];
        assert RecoverGroup(evicted, group, copies)[b].t.data == copies[slots[b].t.key];
      }
    }
  }
}
