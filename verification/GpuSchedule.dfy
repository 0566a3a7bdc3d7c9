/** Whole runs of the experiment scheduler, in terms of its lists and the experiments' fields. */
module GpuSchedule {
  import opened Options
  import opened Sets
  import opened GpuLease

  // ---- when an attempt starts an experiment ---------------------------------------------

  lemma {:induction false} HeldAre(exps: seq<Id>, table: map<Id, Experiment>, g: int)
    requires Known(exps, table)
    ensures g in Held(exps, table) <==> exists i :: 0 <= i < |exps| && g in table[exps[i]].gpus
  {
    if exps != [] {
      HeldAre(exps[..|exps| - 1], table, g);
    }
  }

  /** The devices of no running experiment. */
  ghost function FreeDevices(exps: seq<Id>, table: map<Id, Experiment>, devices: nat): (s: set<int>)
    requires Known(exps, table)
    ensures forall g :: g in s <==> 0 <= g < devices && forall i | 0 <= i < |exps| :: g !in table[exps[i]].gpus
  {
    set g | g in UpTo(devices) && forall i | 0 <= i < |exps| :: g !in table[exps[i]].gpus
  }

  lemma FreeAre(exps: seq<Id>, table: map<Id, Experiment>, loaded: map<Id, Experiment>, devices: nat)
    requires Known(exps, table) && Known(exps, loaded) && forall i | 0 <= i < |exps| :: loaded[exps[i]] == table[exps[i]]
    ensures FreeDevices(exps, table, devices) == UpTo(devices) - Held(exps, loaded)
  {
    hide Held;
    forall g
      ensures g in FreeDevices(exps, table, devices) <==> g in UpTo(devices) - Held(exps, loaded)
    {
      HeldAre(exps, loaded, g);
    }
  }

  /** An attempt evaluates if the experiment is marked for it, or has a result that was not evaluated;
      otherwise it runs the experiment, which nothing running may stand in the way of. It needs the
      devices of its kind to be free, and a command line. */
  lemma StartsExactly(exps: seq<Id>, table: map<Id, Experiment>, devices: nat, id: Id, file: Option<Saved>, build: Build)
    requires Known(exps, table) && id in table && id !in exps
    ensures var e := table[id];
            var pending := file.Some? && e.hasEvalDataset && !file.value.hasEvalResult;
            var evaluates := e.doEval || pending;
            var need := if evaluates then e.evalGpu else e.gpu;
            var free := |FreeDevices(exps, table, devices)|;
            var named := exists i :: 0 <= i < |exps| && table[exps[i]].name == e.name;
            var exporting := e.cmd == Export && exists i :: 0 <= i < |exps| && table[exps[i]].cmd == Export;
            var admitted := (file.Some? ==> pending) && (evaluates || (!named && !exporting));
            var attempt := Decide(exps, table, devices, id, file, build);
            && (attempt == Skipped <==> file.Some? && !pending)
            && (attempt == NoFreeGpu <==> admitted && free < need)
            && (attempt == ExportBusy <==> file.None? && !e.doEval && !named && exporting)
            && (attempt == Asserted <==> admitted && need <= free && build.BuildAsserts?)
            && (attempt == Refused <==>
                (admitted && need <= free && build.BuildRaises?) || (file.None? && !e.doEval && named))
            && (attempt in {Launched, LaunchedThenRaised} <==> admitted && need <= free && build.Built?)
            && (attempt == Launched <==>
                admitted && need <= free && build.Built? && 0 < need && forall i | 0 <= i < |exps| :: table[exps[i]].hasEnv)
  {
    hide Held, NameRuns, ExportRuns, AllHaveEnv, FreeDevices;
    var e, loaded := table[id], table[id := Loaded(table[id], file)];
    LoadedOthers(exps, table, id, file);
    FreeAre(exps, table, loaded, devices);
    GuardsSame(exps, table, loaded, e.name);
  }

  lemma GuardsSame(exps: seq<Id>, table: map<Id, Experiment>, loaded: map<Id, Experiment>, name: string)
    requires Known(exps, table) && Known(exps, loaded) && forall i | 0 <= i < |exps| :: loaded[exps[i]] == table[exps[i]]
    ensures NameRuns(exps, loaded, name) <==> exists i :: 0 <= i < |exps| && table[exps[i]].name == name
    ensures ExportRuns(exps, loaded) <==> exists i :: 0 <= i < |exps| && table[exps[i]].cmd == Export
    ensures AllHaveEnv(exps, loaded) <==> forall i | 0 <= i < |exps| :: table[exps[i]].hasEnv
  {
  }

  lemma LoadedOthers(exps: seq<Id>, table: map<Id, Experiment>, id: Id, file: Option<Saved>)
    requires Known(exps, table) && id in table && id !in exps
    ensures var loaded := table[id := Loaded(table[id], file)];
            Known(exps, loaded) && forall i | 0 <= i < |exps| :: loaded[exps[i]] == table[exps[i]]
  {
    assert forall i | 0 <= i < |exps| :: exps[i] in exps;
  }

  // ---- runs -----------------------------------------------------------------------------

  /** One turn of the inner loop, or one look at the processes. */
  datatype Move =
    | Try(file: Option<Saved>, build: Build)
    | Poll(over: set<Id>, succeeded: set<Id>, measured: set<Id>, overLater: set<Id>)

  /** What a move did. */
  datatype Outcome = Tried(id: Id, attempt: Attempt) | Idle | Looked(done: bool)

  datatype Snapshot = Snapshot(exps: seq<Id>, queue: seq<Id>, table: map<Id, Experiment>)

  /** Running experiments hold disjoint leases of the size their kind asks for, nothing is listed
      twice, and none runs beside a namesake or an export beside an export, except to evaluate. */
  ghost predicate Consistent(s: Snapshot, devices: nat) {
    && (forall i | 0 <= i < |s.exps| :: s.exps[i] in s.table && s.exps[i] !in s.queue)
    && (forall i | 0 <= i < |s.queue| :: s.queue[i] in s.table)
    && (forall i, j | 0 <= i < j < |s.exps| :: s.exps[i] != s.exps[j])
    && (forall i, j | 0 <= i < j < |s.queue| :: s.queue[i] != s.queue[j])
    && (forall i | 0 <= i < |s.exps| ::
          var e := s.table[s.exps[i]];
          |e.gpus| == (if e.doEval then e.evalGpu else e.gpu) && forall g | g in e.gpus :: 0 <= g < devices)
    && (forall i, j | 0 <= i < j < |s.exps| ::
          var (a, b) := (s.table[s.exps[i]], s.table[s.exps[j]]);
          && a.gpus !! b.gpus
          && (!b.doEval ==> a.name != b.name && !(a.cmd == Export && b.cmd == Export)))
  }

  /** The experiment left the queue for good or for now: it was started, or there was no use. */
  predicate TakenOff(o: Outcome, id: Id) {
    o.Tried? && o.id == id && o.attempt in {Launched, LaunchedThenRaised, Skipped, Refused}
  }

  /** It ran, ended well, left a metric, was no evaluation, and is to be evaluated. */
  ghost predicate PutBack(s: Snapshot, m: Move, id: Id)
    requires m.Poll?
  {
    && id in s.exps && id in s.table && id in m.over && id in m.succeeded && id in m.measured
    && !s.table[id].doEval && s.table[id].hasEvalDataset
  }

  /** A result that was not evaluated, of an experiment not yet marked for it, is taken over with its
      name, command, arguments, environment and requirement, and marks the experiment; nothing else
      but the lease changes otherwise. */
  ghost predicate TakesOver(e: Experiment, file: Option<Saved>, e': Experiment) {
    && e'.evalGpu == e.evalGpu && e'.hasEvalDataset == e.hasEvalDataset
    && if file.Some? && e.hasEvalDataset && !file.value.hasEvalResult && !e.doEval then
         && e'.doEval && e'.name == file.value.name && e'.cmd == file.value.cmd
         && e'.details == file.value.details && e'.gpu == file.value.gpu
       else
         && e'.doEval == e.doEval && e'.name == e.name && e'.cmd == e.cmd
         && e'.details == e.details && e'.gpu == e.gpu
  }

  /** Between two snapshots: an attempt that has to wait changes neither list, any other takes the
      head off the queue and adds it to the running ones if it was started; a look at the processes
      puts those to be evaluated in front, marked, and drops those that are over. */
  ghost predicate Follows(devices: nat, before: Snapshot, m: Move, o: Outcome, after: Snapshot) {
    match o
    case Tried(id, attempt) =>
      && m.Try? && before.queue != [] && id == before.queue[0] && id in before.table && before.table.Keys == after.table.Keys
      && (forall k | k in before.table && k != id :: after.table[k] == before.table[k])
      && TakesOver(before.table[id], m.file, after.table[id])
      && Known(before.exps, before.table) && attempt == Decide(before.exps, before.table, devices, id, m.file, m.build)
      && (if attempt in {NoFreeGpu, ExportBusy, Asserted} then
            after.exps == before.exps && after.queue == before.queue
          else
            && after.queue == before.queue[1..]
            && after.exps == before.exps + (if attempt in {Launched, LaunchedThenRaised} then [id] else []))
    case Idle => m.Try? && before.queue == [] && after == before
    case Looked(done) =>
      && m.Poll? && before.table.Keys == after.table.Keys
      && (exists back ::
            && after.queue == back + before.queue
            && (forall id :: id in back <==> PutBack(before, m, id))
            && forall id | id in before.table ::
                 after.table[id] == if id in back then before.table[id].(doEval := true) else before.table[id])
      && (done <==> exists i :: 0 <= i < |before.exps| && before.exps[i] in m.over)
      && (!done ==> after.exps == before.exps)
      && (done ==> forall id :: id in after.exps <==> id in before.exps && id !in m.overLater + m.over)
  }

  /** The experiment is running or queued, or has been taken off the queue before. */
  ghost predicate Accounted(s: Snapshot, outcomes: seq<Outcome>, id: Id) {
    id in s.exps || id in s.queue || Off(outcomes, id)
  }

  /** Taken off the queue by one of the outcomes. */
  ghost predicate Off(outcomes: seq<Outcome>, id: Id) {
    exists j :: 0 <= j < |outcomes| && TakenOff(outcomes[j], id)
  }

  /** Whatever runs was taken off the queue. */
  ghost predicate AllOff(exps: seq<Id>, outcomes: seq<Outcome>) {
    forall id | id in exps :: Off(outcomes, id)
  }

  lemma OneOrTheOther(a: Attempt)
    ensures a in {NoFreeGpu, ExportBusy, Asserted} || a in {Launched, LaunchedThenRaised, Skipped, Refused}
  {
    match a
    case Launched =>
    case LaunchedThenRaised =>
    case Skipped =>
    case Refused =>
    case _ =>
  }

  lemma AccountedLater(devices: nat, s: Snapshot, outcomes: seq<Outcome>, m: Move, o: Outcome, s': Snapshot, id: Id)
    requires Accounted(s, outcomes, id) && Follows(devices, s, m, o, s') && AllOff(s.exps, outcomes)
    ensures Accounted(s', outcomes + [o], id)
  {
    hide Decide;
    var more := outcomes + [o];
    assert more[|outcomes|] == o;
    if Off(outcomes, id) {
      var j :| 0 <= j < |outcomes| && TakenOff(outcomes[j], id);
      assert more[j] == outcomes[j];
    } else if o.Tried? {
      OneOrTheOther(o.attempt);
      assert o.attempt !in {NoFreeGpu, ExportBusy, Asserted} ==> s.queue == [o.id] + s.queue[1..] && TakenOff(o, o.id);
    }
  }

  lemma AllOffLater(devices: nat, s: Snapshot, outcomes: seq<Outcome>, m: Move, o: Outcome, s': Snapshot)
    requires AllOff(s.exps, outcomes) && Follows(devices, s, m, o, s')
    ensures AllOff(s'.exps, outcomes + [o])
  {
    hide Decide;
    var more := outcomes + [o];
    forall id | id in s'.exps
      ensures Off(more, id)
    {
      if id in s.exps {
        var j :| 0 <= j < |outcomes| && TakenOff(outcomes[j], id);
        assert TakenOff(more[j], id);
      } else {
        assert o.Tried? && s'.exps == s.exps + [o.id];
        assert more[|outcomes|] == o && TakenOff(o, id);
      }
    }
  }

  lemma ValidIsConsistent(s: Snapshot, devices: nat)
    requires Known(s.exps, s.table) && Known(s.queue, s.table) && Distinct(s.exps + s.queue)
    requires Leases(s.exps, s.table, devices) && Solo(s.exps, s.table)
    ensures Consistent(s, devices)
  {
    DistinctConcat(s.exps, s.queue);
    assert forall i | 0 <= i < |s.exps| :: s.exps[i] in s.exps;
  }

  lemma LookFollows(devices: nat, before: Snapshot, m: Move, done: bool, after: Snapshot, counts: map<Id, nat>, counts': map<Id, nat>)
    requires m.Poll? && Known(before.exps, before.table) && Distinct(before.exps)
    requires var back := Requeued(before.exps, before.table, m.succeeded * m.over, m.measured);
             after.queue == back + before.queue && Marked(before.table, counts, back, after.table, counts')
    requires done <==> exists i | 0 <= i < |before.exps| :: before.exps[i] in m.over
    requires after.exps == if done then Running(before.exps, m.overLater + m.over) else before.exps
    ensures Follows(devices, before, m, Looked(done), after)
  {
    hide Running, Requeued, Distinct;
    RunningAre(before.exps, m.overLater + m.over);
    RequeuedAre(before.exps, before.table, m.succeeded * m.over, m.measured);
    var back := Requeued(before.exps, before.table, m.succeeded * m.over, m.measured);
    assert forall id :: id in back <==> PutBack(before, m, id);
  }

  /** The first snapshots and outcomes are as they should be. */
  ghost predicate GoodRun(devices: nat, n: nat, moves: seq<Move>, trace: seq<Snapshot>, outcomes: seq<Outcome>,
                          requeues: seq<map<Id, nat>>) {
    && |outcomes| <= |moves| && |trace| == |requeues| == |outcomes| + 1
    && (forall k | 0 <= k < |trace| :: Consistent(trace[k], devices))
    && (forall k | 0 <= k < |outcomes| :: Follows(devices, trace[k], moves[k], outcomes[k], trace[k + 1]))
    && (forall k, id: Id | 0 <= k < |trace| && id < n :: Accounted(trace[k], outcomes[..k], id))
    && AllOff(trace[|outcomes|].exps, outcomes)
    && (forall k | 0 <= k < |trace| :: forall id | id in requeues[k] :: requeues[k][id] <= 1)
  }

  lemma GoodNext(devices: nat, n: nat, moves: seq<Move>, trace: seq<Snapshot>, outcomes: seq<Outcome>,
                 requeues: seq<map<Id, nat>>, o: Outcome, s: Snapshot, counts: map<Id, nat>)
    requires GoodRun(devices, n, moves, trace, outcomes, requeues) && |outcomes| < |moves|
    requires Follows(devices, trace[|outcomes|], moves[|outcomes|], o, s) && Consistent(s, devices)
    requires forall id | id in counts :: counts[id] <= 1
    ensures GoodRun(devices, n, moves, trace + [s], outcomes + [o], requeues + [counts])
  {
    hide Follows, Consistent, Accounted, AllOff;
    var k := |outcomes|;
    hide Decide;
    var more := outcomes + [o];
    assert outcomes[..k] == outcomes && more[..k + 1] == more;
    assert forall i | 0 <= i <= k :: more[..i] == outcomes[..i];
    forall id: Id | id < n
      ensures Accounted(s, more, id)
    {
      AccountedLater(devices, trace[k], outcomes, moves[k], o, s, id);
    }
    AllOffLater(devices, trace[k], outcomes, moves[k], o, s);
  }

  lemma GoodStart(devices: nat, experiments: seq<Experiment>, moves: seq<Move>, s: Snapshot, counts: map<Id, nat>)
    requires Prioritized(experiments, |experiments|, s.queue) && s.exps == [] && Consistent(s, devices)
    requires forall id | id in counts :: counts[id] <= 1
    ensures GoodRun(devices, |experiments|, moves, [s], [], [counts])
  {
    hide Consistent;
    AllQueued(experiments, s);
  }

  /** Whatever happens in whatever order, every state the scheduler reaches is consistent; no
      experiment is put back for evaluation more than once; and none is lost: each is running, or
      queued, or was taken off the queue by an attempt that did not have to wait. */
  method Begin(devices: nat, experiments: seq<Experiment>, moves: seq<Move>)
    returns (trace: seq<Snapshot>, outcomes: seq<Outcome>, ghost requeues: seq<map<Id, nat>>)
    ensures |outcomes| == |moves| && |trace| == |requeues| == |moves| + 1
    ensures trace[0].exps == [] && Prioritized(experiments, |experiments|, trace[0].queue)
    ensures forall id: Id | id < |experiments| :: id in trace[0].table && trace[0].table[id] == experiments[id]
    ensures forall k | 0 <= k < |trace| :: Consistent(trace[k], devices)
    ensures forall k | 0 <= k < |moves| :: Follows(devices, trace[k], moves[k], outcomes[k], trace[k + 1])
    ensures forall k, id: Id | 0 <= k < |trace| && id < |experiments| :: Accounted(trace[k], outcomes[..k], id)
    ensures forall k | 0 <= k < |trace| :: forall id | id in requeues[k] :: requeues[k][id] <= 1
  {
    var manager := new ExpManager(devices, experiments);
    trace, outcomes, requeues := Rounds(manager, |experiments|, moves, experiments);
    hide Consistent, Follows, Accounted, AllOff, Prioritized;
  }

  /** The moves, one by one. */
  method Rounds(manager: ExpManager, n: nat, moves: seq<Move>, ghost experiments: seq<Experiment>)
    returns (trace: seq<Snapshot>, outcomes: seq<Outcome>, ghost requeues: seq<map<Id, nat>>)
    requires manager.Valid() && manager.exps == [] && n == |experiments|
    requires Prioritized(experiments, n, manager.expQueue)
    modifies manager
    ensures |outcomes| == |moves| && GoodRun(manager.devices, n, moves, trace, outcomes, requeues)
    ensures trace[0] == old(Snapshot(manager.exps, manager.expQueue, manager.table))
  {
    hide Leases, Solo, Distinct, Known, Consistent, Follows, GoodRun;
    trace, outcomes, requeues := [Snapshot(manager.exps, manager.expQueue, manager.table)], [], [manager.requeues];
    ValidIsConsistent(trace[0], manager.devices);
    GoodStart(manager.devices, experiments, moves, trace[0], manager.requeues);
    for k := 0 to |moves|
      invariant manager.Valid() && |outcomes| == k && |trace| == k + 1
      invariant trace[0] == old(Snapshot(manager.exps, manager.expQueue, manager.table))
      invariant trace[k] == Snapshot(manager.exps, manager.expQueue, manager.table)
      invariant GoodRun(manager.devices, n, moves, trace, outcomes, requeues)
    {
      var outcome := Turn(manager, moves[k]);
      var after := Snapshot(manager.exps, manager.expQueue, manager.table);
      ValidIsConsistent(after, manager.devices);
      GoodNext(manager.devices, n, moves, trace, outcomes, requeues, outcome, after, manager.requeues);
      trace, outcomes, requeues := trace + [after], outcomes + [outcome], requeues + [manager.requeues];
    }
  }

  lemma AllQueued(experiments: seq<Experiment>, s: Snapshot)
    requires Prioritized(experiments, |experiments|, s.queue) && s.exps == []
    ensures forall id: Id | id < |experiments| :: Accounted(s, [], id)
    ensures AllOff(s.exps, [])
  {
  }

  lemma HeadKnown(s: Snapshot, id: Id)
    requires s.queue != [] && id == s.queue[0] && Known(s.queue, s.table)
    ensures id in s.table
  {
  }

  /** One move. */
  method Turn(manager: ExpManager, m: Move) returns (o: Outcome)
    requires manager.Valid()
    modifies manager
    ensures manager.Valid()
    ensures Follows(manager.devices, old(Snapshot(manager.exps, manager.expQueue, manager.table)), m, o,
                    Snapshot(manager.exps, manager.expQueue, manager.table))
  {
    hide Leases, Solo, Known, Requeued, Marked, Running, Decide, Distinct;
    ghost var before, counts := Snapshot(manager.exps, manager.expQueue, manager.table), manager.requeues;
    DistinctConcat(manager.exps, manager.expQueue);
    match m {
      case Try(file, build) =>
        if manager.expQueue == [] {
          return Idle;
        }
        var id := manager.expQueue[0];
        var attempt := manager.TryNext(file, build);
        HeadKnown(before, id);
        o := Tried(id, attempt);
      case Poll(over, succeeded, measured, overLater) =>
        var done := manager.PollOnce(over, succeeded * over, measured, overLater + over);
        o := Looked(done);
        LookFollows(manager.devices, before, m, done, Snapshot(manager.exps, manager.expQueue, manager.table), counts, manager.requeues);
    }
  }
}
