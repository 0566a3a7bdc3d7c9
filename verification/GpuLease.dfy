/** The experiment scheduler: which running experiment holds which GPUs. */
module GpuLease {
  import opened Options
  import opened Sets

  type Id = nat

  datatype Command = Sft | Rlhf | Export | Eval | Unsupported

  /** An experiment object; `details` are its arguments and environment, `gpus` and `hasEnv` what its
      last launch recorded. */
  datatype Experiment = Experiment(
    name: string,
    cmd: Command,
    details: string,
    gpu: nat,
    evalGpu: nat,
    hasEvalDataset: bool,
    doEval: bool,
    gpus: set<int>,
    hasEnv: bool)

  /** How many GPUs its next, or current, launch asks for. */
  function Need(e: Experiment): nat {
    if e.doEval then e.evalGpu else e.gpu
  }

  /** A result file found on disk, and whether it holds an evaluation. */
  datatype Saved = Saved(name: string, cmd: Command, details: string, gpu: nat, hasEvalResult: bool)

  /** How building a command line ends. */
  datatype Build = Built | BuildRaises | BuildAsserts

  /** How one attempt to run the head of the queue ends: started; started, but then an exception;
      already done; no GPU for now; another export is running; a failed assertion, or another
      exception, before the start. */
  datatype Attempt = Launched | LaunchedThenRaised | Skipped | NoFreeGpu | ExportBusy | Asserted | Refused {
    predicate Started() {
      Launched? || LaunchedThenRaised?
    }

    /** The assertions after which the experiment stays at the head of the queue. */
    predicate Stays() {
      NoFreeGpu? || ExportBusy? || Asserted?
    }
  }

  /** The outcome of the overlap assertion. */
  datatype Overlap = Fine | MissingEnv | Overlapping

  ghost predicate Distinct(ids: seq<Id>) {
    forall i, j | 0 <= i < j < |ids| :: ids[i] != ids[j]
  }

  ghost predicate Known(ids: seq<Id>, table: map<Id, Experiment>) {
    forall i | 0 <= i < |ids| :: ids[i] in table
  }

  /** The GPUs of running experiments: disjoint, existing, as many as asked for. */
  ghost predicate Leases(exps: seq<Id>, table: map<Id, Experiment>, devices: nat)
    requires Known(exps, table)
  {
    && (forall i, j | 0 <= i < j < |exps| :: table[exps[i]].gpus !! table[exps[j]].gpus)
    && (forall i | 0 <= i < |exps| ::
          var e := table[exps[i]];
          && |e.gpus| == Need(e) && (e.hasEnv <==> 0 < Need(e))
          && forall g | g in e.gpus :: 0 <= g < devices)
  }

  /** Experiments put back for evaluation by one look at the processes: the last one first. */
  ghost function Requeued(exps: seq<Id>, table: map<Id, Experiment>, succeeded: set<Id>, measured: set<Id>): seq<Id>
    requires Known(exps, table)
  {
    if exps == [] then []
    else
      var id := exps[|exps| - 1];
      var e := table[id];
      (if id in succeeded && !e.doEval && id in measured && e.hasEvalDataset then [id] else [])
      + Requeued(exps[..|exps| - 1], table, succeeded, measured)
  }

  /** The experiments whose process is still running. */
  function Running(exps: seq<Id>, over: set<Id>): seq<Id> {
    if exps == [] then []
    else
      var id := exps[|exps| - 1];
      Running(exps[..|exps| - 1], over) + (if id in over then [] else [id])
  }

  /** The experiment after a saved, not yet evaluated run of it has been loaded. */
  function Loaded(e: Experiment, file: Option<Saved>): Experiment {
    if file.Some? && e.hasEvalDataset && !file.value.hasEvalResult && !e.doEval
    then e.(name := file.value.name, cmd := file.value.cmd, details := file.value.details,
             gpu := file.value.gpu, doEval := true)
    else e
  }

  /** All GPUs of running experiments. */
  ghost function Held(exps: seq<Id>, table: map<Id, Experiment>): set<int>
    requires Known(exps, table)
  {
    if exps == [] then {} else Held(exps[..|exps| - 1], table) + table[exps[|exps| - 1]].gpus
  }

  ghost predicate AllHaveEnv(exps: seq<Id>, table: map<Id, Experiment>)
    requires Known(exps, table)
  {
    forall i | 0 <= i < |exps| :: table[exps[i]].hasEnv
  }

  predicate NameRuns(exps: seq<Id>, table: map<Id, Experiment>, name: string)
    requires Known(exps, table)
  {
    exists i | 0 <= i < |exps| :: table[exps[i]].name == name
  }

  predicate ExportRuns(exps: seq<Id>, table: map<Id, Experiment>)
    requires Known(exps, table)
  {
    exists i | 0 <= i < |exps| :: table[exps[i]].cmd == Export
  }

  /** Whatever was started other than for evaluation bears a name no earlier running experiment has,
      and is not an export beside one. */
  ghost predicate Solo(exps: seq<Id>, table: map<Id, Experiment>)
    requires Known(exps, table)
  {
    forall i, j | 0 <= i < j < |exps| && !table[exps[j]].doEval ::
      && table[exps[i]].name != table[exps[j]].name
      && !(table[exps[i]].cmd == Export && table[exps[j]].cmd == Export)
  }

  /** A result was found and there is nothing left to evaluate. */
  predicate Finished(e: Experiment, file: Option<Saved>) {
    file.Some? && !(e.hasEvalDataset && !file.value.hasEvalResult)
  }

  /** What `run` does with an experiment once its saved result, if any, has been loaded. */
  ghost function DecideLoaded(exps: seq<Id>, table: map<Id, Experiment>, devices: nat, id: Id, build: Build): Attempt
    requires Known(exps, table) && id in table
  {
    var e := table[id];
    if !e.doEval && NameRuns(exps, table, e.name) then Refused
    else if !e.doEval && e.cmd == Export && ExportRuns(exps, table) then ExportBusy
    else if 0 < Need(e) && |UpTo(devices) - Held(exps, table)| < Need(e) then NoFreeGpu
    else if build.BuildAsserts? then Asserted
    else if build.BuildRaises? then Refused
    else if 0 < Need(e) && AllHaveEnv(exps, table) then Launched
    else LaunchedThenRaised
  }

  ghost function Decide(exps: seq<Id>, table: map<Id, Experiment>, devices: nat, id: Id, file: Option<Saved>, build: Build): Attempt
    requires Known(exps, table) && id in table
  {
    if Finished(table[id], file) then Skipped
    else DecideLoaded(exps, table[id := Loaded(table[id], file)], devices, id, build)
  }

  lemma {:induction false} HeldContains(exps: seq<Id>, table: map<Id, Experiment>, i: nat)
    requires Known(exps, table) && i < |exps|
    ensures table[exps[i]].gpus <= Held(exps, table)
  {
    if i < |exps| - 1 {
      HeldContains(exps[..|exps| - 1], table, i);
    }
  }

  /** Goes before in the queue: fewer GPUs, or as many and listed earlier. */
  predicate Before(experiments: seq<Experiment>, a: Id, b: Id)
    requires a < |experiments| && b < |experiments|
  {
    experiments[a].gpu < experiments[b].gpu || (experiments[a].gpu == experiments[b].gpu && a < b)
  }

  /** The first n experiments, each once, in order of priority. */
  ghost predicate Prioritized(experiments: seq<Experiment>, n: nat, ids: seq<Id>)
    requires n <= |experiments|
  {
    && |ids| == n && (forall k | 0 <= k < n :: ids[k] < n) && (forall id | 0 <= id < n :: id in ids)
    && forall i, j | 0 <= i < j < n :: Before(experiments, ids[i], ids[j])
  }

  /** The stable sort by priority. */
  method SortByPriority(experiments: seq<Experiment>) returns (ids: seq<Id>)
    ensures Prioritized(experiments, |experiments|, ids)
    ensures |ids| == |experiments| && forall id: Id :: id in ids <==> id < |experiments|
    ensures forall i, j | 0 <= i < j < |ids| ::
              && ids[i] < |experiments| && ids[j] < |experiments|
              && (|| experiments[ids[i]].gpu < experiments[ids[j]].gpu
                  || (experiments[ids[i]].gpu == experiments[ids[j]].gpu && ids[i] < ids[j]))
  {
    ids := [];
    for n := 0 to |experiments|
      invariant Prioritized(experiments, n, ids)
    {
      var p := 0;
      while p < n && experiments[ids[p]].gpu <= experiments[n].gpu
        invariant p <= n && forall k | 0 <= k < p :: experiments[ids[k]].gpu <= experiments[n].gpu
      {
        p := p + 1;
      }
      Inserted(experiments, n, ids, p);
      ids := ids[..p] + [n] + ids[p..];
    }
  }

  lemma Inserted(experiments: seq<Experiment>, n: nat, ids: seq<Id>, p: nat)
    requires n < |experiments| && Prioritized(experiments, n, ids) && p <= n
    requires forall k | 0 <= k < p :: experiments[ids[k]].gpu <= experiments[n].gpu
    requires p < n ==> experiments[n].gpu < experiments[ids[p]].gpu
    ensures Prioritized(experiments, n + 1, ids[..p] + [n] + ids[p..])
  {
    hide Before;
    forall id | 0 <= id < n + 1
      ensures id in ids[..p] + [n] + ids[p..]
    {
      KeptMember(ids, p, n, id);
    }
    forall k | 0 <= k < n + 1
      ensures (ids[..p] + [n] + ids[p..])[k] == if k < p then ids[k] else if k == p then n else ids[k - 1]
    {
    }
    forall i, j | 0 <= i < j < n + 1
      ensures Before(experiments, (ids[..p] + [n] + ids[p..])[i], (ids[..p] + [n] + ids[p..])[j])
    {
      InsertedPair(experiments, n, ids, p, i, j);
    }
  }

  lemma KeptMember(ids: seq<Id>, p: nat, n: Id, id: Id)
    requires p <= |ids| && (id in ids || id == n)
    ensures id in ids[..p] + [n] + ids[p..]
  {
    assert ids[..p] + ids[p..] == ids;
  }

  lemma InsertedPair(experiments: seq<Experiment>, n: nat, ids: seq<Id>, p: nat, i: nat, j: nat)
    requires n < |experiments| && Prioritized(experiments, n, ids) && p <= n && i < j < n + 1
    requires forall k | 0 <= k < p :: experiments[ids[k]].gpu <= experiments[n].gpu
    requires p < n ==> experiments[n].gpu < experiments[ids[p]].gpu
    ensures var a := if i < p then ids[i] else if i == p then n else ids[i - 1];
            var b := if j < p then ids[j] else if j == p then n else ids[j - 1];
            Before(experiments, a, b)
  {
    hide Before;
    if i == p {
      NewBefore(experiments, n, ids, p, j - 1);
    } else if j == p {
      LateAfter(experiments, ids[i], n);
    }
  }

  lemma LateAfter(experiments: seq<Experiment>, early: Id, late: Id)
    requires early < late < |experiments| && experiments[early].gpu <= experiments[late].gpu
    ensures Before(experiments, early, late)
  {
  }

  lemma NewBefore(experiments: seq<Experiment>, n: nat, ids: seq<Id>, p: nat, k: nat)
    requires n < |experiments| && Prioritized(experiments, n, ids) && p <= k < n
    requires experiments[n].gpu < experiments[ids[p]].gpu
    ensures Before(experiments, n, ids[k])
  {
    if p < k {
      assert Before(experiments, ids[p], ids[k]);
    }
  }

  /** The first n running experiments pass the overlap assertion. */
  ghost predicate Clean(exps: seq<Id>, table: map<Id, Experiment>, n: nat)
    requires Known(exps, table) && n <= |exps|
  {
    && (forall i | 0 <= i < n :: table[exps[i]].hasEnv)
    && forall i, j | 0 <= i < j < n :: table[exps[i]].gpus !! table[exps[j]].gpus
  }

  class ExpManager {
    const devices: nat
    var exps: seq<Id>
    var expQueue: seq<Id>
    var table: map<Id, Experiment>
    ghost var requeues: map<Id, nat>

    ghost predicate Valid()
      reads this
    {
      && Known(exps, table) && Known(expQueue, table)
      && Distinct(exps + expQueue)
      && Leases(exps, table, devices) && Solo(exps, table)
      && requeues.Keys == table.Keys
      && forall id | id in table :: requeues[id] <= 1 && (requeues[id] == 1 ==> table[id].doEval)
    }

    /** The experiments of all configuration files, in order of priority. */
    constructor (devices: nat, experiments: seq<Experiment>)
      ensures Valid() && exps == [] && Prioritized(experiments, |experiments|, expQueue)
      ensures forall id: Id :: id in table <==> id < |experiments|
      ensures forall id: Id | id < |experiments| :: table[id] == experiments[id]
      ensures this.devices == devices
    {
      this.devices := devices;
      var queue := SortByPriority(experiments);
      var entries: map<Id, Experiment> := map[];
      ghost var counts: map<Id, nat> := map[];
      for i := 0 to |experiments|
        invariant forall id: Id :: id in entries <==> id < i
        invariant forall id: Id | id < i :: entries[id] == experiments[id]
        invariant entries.Keys == counts.Keys && forall id | id in counts :: counts[id] == 0
      {
        entries := entries[i := experiments[i]];
        counts := counts[i := 0];
      }
      QueueReady(experiments, queue, entries, devices);
      exps := [];
      expQueue, table, requeues := queue, entries, counts;
    }

    /** Some n devices no running experiment holds, exactly if there are as many. */
    method FindFreeGpu(n: nat) returns (r: Option<set<int>>)
      requires Known(exps, table)
      ensures r.None? <==> |UpTo(devices) - Held(exps, table)| < n
      ensures r.Some? ==> |r.value| == n && r.value <= UpTo(devices) - Held(exps, table)
    {
      var all: set<int> := {};
      for i := 0 to |exps|
        invariant all == Held(exps[..i], table)
      {
        assert exps[..i + 1][..i] == exps[..i];
        all := all + table[exps[i]].gpus;
      }
      assert exps[..|exps|] == exps;
      var free := UpTo(devices) - all;
      if |free| < n {
        return None;
      }
      var chosen: set<int> := {};
      while |chosen| < n
        invariant chosen <= free && |chosen| <= n
        decreases n - |chosen|
      {
        Proper(chosen, free);
        var g :| g in free && g !in chosen;
        chosen := chosen + {g};
      }
      r := Some(chosen);
    }

    /** The first experiment without the environment entry, or with a device seen before, decides. */
    method AssertGpuNotOverlap() returns (r: Overlap)
      requires Known(exps, table)
      ensures r == Fine ==> Clean(exps, table, |exps|)
      ensures r == Fine <==>
                && (forall i | 0 <= i < |exps| :: table[exps[i]].hasEnv)
                && forall i, j | 0 <= i < j < |exps| :: table[exps[i]].gpus !! table[exps[j]].gpus
      ensures r == MissingEnv ==> exists i | 0 <= i < |exps| :: Clean(exps, table, i) && !table[exps[i]].hasEnv
      ensures r == Overlapping ==>
                exists k, i | 0 <= k < i < |exps| ::
                  Clean(exps, table, i) && table[exps[i]].hasEnv && !(table[exps[k]].gpus !! table[exps[i]].gpus)
    {
      var all: set<int> := {};
      for i := 0 to |exps|
        invariant Clean(exps, table, i)
        invariant forall g :: g in all <==> exists k | 0 <= k < i :: g in table[exps[k]].gpus
      {
        if !table[exps[i]].hasEnv {
          return MissingEnv;
        }
        if all * table[exps[i]].gpus != {} {
          ghost var g := Element(all * table[exps[i]].gpus);
          ghost var k :| 0 <= k < i && g in table[exps[k]].gpus;
          assert g in table[exps[i]].gpus;
          assert !(table[exps[k]].gpus !! table[exps[i]].gpus);
          return Overlapping;
        }
        NoneShared(exps, table, i, all);
        all := all + table[exps[i]].gpus;
      }
      r := Fine;
    }

    /** Finds the GPUs, then builds the command, records the lease, starts the process and checks
        the leases. A missing environment raises only after the process has been started and
        registered. */
    method Launch(id: Id, need: nat, build: Build) returns (r: Attempt)
      requires Known(exps, table) && id in table && id !in exps && Leases(exps, table, devices)
      requires Need(table[id]) == need
      modifies this`exps, this`table
      ensures r == if 0 < need && |UpTo(devices) - Held(old(exps), old(table))| < need then NoFreeGpu
                   else if build.BuildAsserts? then Asserted
                   else if build.BuildRaises? then Refused
                   else if 0 < need && AllHaveEnv(old(exps), old(table)) then Launched
                   else LaunchedThenRaised
      ensures !r.Started() ==> exps == old(exps) && table == old(table)
      ensures r.Started() ==>
                && exps == old(exps) + [id] && id in table
                && table == old(table)[id := old(table)[id].(gpus := table[id].gpus, hasEnv := 0 < need)]
      ensures Known(exps, table) && Leases(exps, table, devices)
    {
      hide Held, Leases, AllHaveEnv, Need, Solo;
      var gpus: set<int> := {};
      if need > 0 {
        var free := FindFreeGpu(need);
        if free.None? {
          return NoFreeGpu;
        }
        gpus := free.value;
      }
      if build.BuildAsserts? {
        return Asserted;
      }
      if build.BuildRaises? {
        return Refused;
      }
      LeaseAdded(exps, table, devices, id, gpus, need);
      table := table[id := table[id].(gpus := gpus, hasEnv := need > 0)];
      exps := exps + [id];
      var check := AssertGpuNotOverlap();
      DisjointOverlap(exps, table, devices);
      r := if check == Fine then Launched else LaunchedThenRaised;
    }

    /** Takes over the saved result of an earlier, not yet evaluated run. */
    method LoadSaved(id: Id, file: Option<Saved>) returns (finished: bool)
      requires id in table
      modifies this`table
      ensures finished == Finished(old(table)[id], file)
      ensures table == old(table)[id := Loaded(old(table)[id], file)]
    {
      finished := false;
      var e := table[id];
      if file.Some? {
        if e.hasEvalDataset && !file.value.hasEvalResult {
          if !e.doEval {
            table := table[id := e.(name := file.value.name, cmd := file.value.cmd, details := file.value.details,
                                    gpu := file.value.gpu, doEval := true)];
          }
        } else {
          finished := true;
        }
      }
    }

    /** `run` on the head of the queue, with the result file found for it and how building its command
        line ends. */
    method Run(id: Id, file: Option<Saved>, build: Build) returns (r: Attempt)
      requires Known(exps, table) && id in table && id !in exps && Leases(exps, table, devices) && Solo(exps, table)
      modifies this`exps, this`table
      ensures Known(exps, table) && Leases(exps, table, devices) && Solo(exps, table)
      ensures r == Decide(old(exps), old(table), devices, id, file, build)
      ensures exps == if r.Started() then old(exps) + [id] else old(exps)
      ensures table.Keys == old(table).Keys
      ensures forall k | k in table && k != id :: table[k] == old(table)[k]
      ensures var e := Loaded(old(table)[id], file);
              table[id] == if r.Started() then e.(gpus := table[id].gpus, hasEnv := 0 < Need(e)) else e
    {
      hide Leases, Solo, Loaded, Finished, DecideLoaded;
      var finished := LoadSaved(id, file);
      OthersChanged(exps, old(table), table, id, devices);
      if finished {
        return Skipped;
      }
      r := Start(id, build);
    }

    /** The rest of `run`: to evaluate, or to run the experiment if nothing stands in the way. */
    method Start(id: Id, build: Build) returns (r: Attempt)
      requires Known(exps, table) && id in table && id !in exps && Leases(exps, table, devices) && Solo(exps, table)
      modifies this`exps, this`table
      ensures Known(exps, table) && Leases(exps, table, devices) && Solo(exps, table)
      ensures r == DecideLoaded(old(exps), old(table), devices, id, build)
      ensures exps == if r.Started() then old(exps) + [id] else old(exps)
      ensures id in table
      ensures table == if r.Started()
                       then old(table)[id := old(table)[id].(gpus := table[id].gpus, hasEnv := 0 < Need(old(table)[id]))]
                       else old(table)
    {
      hide Held, Leases, Solo, AllHaveEnv, NameRuns, ExportRuns, Need;
      var e := table[id];
      if !e.doEval {
        if NameRuns(exps, table, e.name) {
          return Refused;
        }
        if e.cmd == Export && ExportRuns(exps, table) {
          return ExportBusy;
        }
      }
      SoloAdded(exps, table, id);
      ghost var entries := table;
      r := Launch(id, Need(e), build);
      if r.Started() {
        SoloSame(exps, entries, table, id);
      }
    }

    /** One turn of the inner loop of `begin`: run the head of the queue and drop it, unless it
        must wait. */
    method TryNext(file: Option<Saved>, build: Build) returns (r: Attempt)
      requires Valid() && expQueue != []
      modifies this
      ensures Valid() && requeues == old(requeues)
      ensures r == Decide(old(exps), old(table), devices, old(expQueue)[0], file, build)
      ensures exps == if r.Started() then old(exps) + [old(expQueue)[0]] else old(exps)
      ensures expQueue == if r.Stays() then old(expQueue) else old(expQueue)[1..]
      ensures table.Keys == old(table).Keys
      ensures forall k | k in table && k != old(expQueue)[0] :: table[k] == old(table)[k]
      ensures var e := Loaded(old(table)[old(expQueue)[0]], file);
              var e' := table[old(expQueue)[0]];
              e' == if r.Started() then e.(gpus := e'.gpus, hasEnv := 0 < Need(e)) else e
    {
      hide Decide, Leases, Solo;
      var id := expQueue[0];
      assert (exps + expQueue)[|exps|] == id;
      assert forall i | 0 <= i < |exps| :: (exps + expQueue)[i] == exps[i];
      r := Run(id, file, build);
      ghost var before := old(exps) + old(expQueue);
      assert before == old(exps) + [id] + old(expQueue)[1..];
      if !r.Stays() {
        expQueue := expQueue[1..];
        assert exps + expQueue == before || exps + expQueue == before[..|old(exps)|] + before[|old(exps)| + 1..];
      }
    }

    /** One look of `_poll` at the processes: those over at first sight, those of them that
        succeeded and left a metric, and those over when the list is filtered afterwards. */
    method PollOnce(over: set<Id>, succeeded: set<Id>, measured: set<Id>, overLater: set<Id>) returns (done: bool)
      requires Valid() && over <= overLater && succeeded <= over
      modifies this
      ensures Valid()
      ensures done <==> exists i | 0 <= i < |old(exps)| :: old(exps)[i] in over
      ensures exps == if done then Running(old(exps), overLater) else old(exps)
      ensures expQueue == Requeued(old(exps), old(table), succeeded, measured) + old(expQueue)
      ensures Marked(old(table), old(requeues), Requeued(old(exps), old(table), succeeded, measured), table, requeues)
    {
      hide Leases, Solo, Distinct, Requeued, Marked, Running;
      ghost var table0, queue0, counts0 := table, expQueue, requeues;
      DistinctConcat(exps, expQueue);
      done := MarkFinished(over, succeeded, measured);
      AfterPoll(exps, queue0, table0, table, counts0, requeues, succeeded, measured, if done then overLater else {}, devices);
      MarkedCounts(table0, counts0, Requeued(exps, table0, succeeded, measured), table, requeues);
      MarkedKeeps(table0, counts0, Requeued(exps, table0, succeeded, measured), table, requeues);
      SoloLeft(exps, table0, table, if done then overLater else {});
      if done {
        exps := Running(exps, overLater);
      }
    }

    /** The pass over the processes that are over at first sight. */
    method MarkFinished(over: set<Id>, succeeded: set<Id>, measured: set<Id>) returns (done: bool)
      requires Known(exps, table) && Distinct(exps) && succeeded <= over && requeues.Keys == table.Keys
      modifies this`expQueue, this`table, this`requeues
      ensures done <==> exists i | 0 <= i < |exps| :: exps[i] in over
      ensures expQueue == Requeued(exps, old(table), succeeded, measured) + old(expQueue)
      ensures Marked(old(table), old(requeues), Requeued(exps, old(table), succeeded, measured), table, requeues)
    {
      hide Distinct, Requeued, Marked;
      ghost var table0 := table;
      done := false;
      NothingRequeued(table0, succeeded, measured);
      NothingMarked(table0, requeues);
      assert exps[..0] == [];
      for i := 0 to |exps|
        invariant Known(exps, table)
        invariant done <==> exists k | 0 <= k < i :: exps[k] in over
        invariant expQueue == Requeued(exps[..i], table0, succeeded, measured) + old(expQueue)
        invariant Marked(table0, old(requeues), Requeued(exps[..i], table0, succeeded, measured), table, requeues)
      {
        var id := exps[i];
        RequeuedNext(exps, i, table0, succeeded, measured);
        MarkedNext(table0, old(requeues), Requeued(exps[..i], table0, succeeded, measured), table, requeues, id);
        if id in over {
          done := true;
          if id in succeeded && !table[id].doEval && id in measured && table[id].hasEvalDataset {
            table := table[id := table[id].(doEval := true)];
            expQueue := [id] + expQueue;
            requeues := requeues[id := requeues[id] + 1];
          }
        }
      }
      assert exps[..|exps|] == exps;
    }
  }

  lemma SoloAdded(exps: seq<Id>, table: map<Id, Experiment>, id: Id)
    requires Known(exps, table) && Solo(exps, table) && id in table
    requires table[id].doEval || (!NameRuns(exps, table, table[id].name) && !(table[id].cmd == Export && ExportRuns(exps, table)))
    ensures Known(exps + [id], table) && Solo(exps + [id], table)
  {
  }

  /** A launch changes neither name nor command. */
  lemma SoloSame(exps: seq<Id>, table: map<Id, Experiment>, table': map<Id, Experiment>, id: Id)
    requires Known(exps, table) && Known(exps, table') && Solo(exps, table)
    requires id in table && id in table' && table' == table[id := table[id].(gpus := table'[id].gpus, hasEnv := table'[id].hasEnv)]
    ensures Solo(exps, table')
  {
  }

  lemma SoloLeft(exps: seq<Id>, table: map<Id, Experiment>, table': map<Id, Experiment>, gone: set<Id>)
    requires Known(exps, table) && Solo(exps, table) && Known(Running(exps, gone), table')
    requires forall id | id in table :: id in table' && table'[id].name == table[id].name && table'[id].cmd == table[id].cmd
                                        && (table[id].doEval ==> table'[id].doEval)
    ensures Solo(Running(exps, gone), table')
  {
    hide Running;
    var left := Running(exps, gone);
    forall i, j | 0 <= i < j < |left| && !table'[left[j]].doEval
      ensures table'[left[i]].name != table'[left[j]].name
      ensures !(table'[left[i]].cmd == Export && table'[left[j]].cmd == Export)
    {
      var a, b := RunningOrder(exps, gone, i, j);
      assert left[i] in left && left[j] in left;
      assert exps[a] == left[i] && exps[b] == left[j];
    }
  }

  /** Those that keep running keep their order. */
  lemma {:induction false} RunningOrder(exps: seq<Id>, gone: set<Id>, i: nat, j: nat) returns (a: nat, b: nat)
    requires i < j < |Running(exps, gone)|
    ensures a < b < |exps| && exps[a] == Running(exps, gone)[i] && exps[b] == Running(exps, gone)[j]
  {
    var n := |exps| - 1;
    var before := Running(exps[..n], gone);
    if j < |before| {
      a, b := RunningOrder(exps[..n], gone, i, j);
    } else {
      b := n;
      assert before[i] in before;
      RunningMember(exps[..n], gone, before[i]);
      a :| 0 <= a < n && exps[..n][a] == before[i];
    }
  }

  /** Those put back come last one first. */
  lemma {:induction false} RequeuedOrder(exps: seq<Id>, table: map<Id, Experiment>, succeeded: set<Id>, measured: set<Id>, i: nat, j: nat)
    returns (a: nat, b: nat)
    requires Known(exps, table) && i < j < |Requeued(exps, table, succeeded, measured)|
    ensures b < a < |exps|
    ensures exps[a] == Requeued(exps, table, succeeded, measured)[i] && exps[b] == Requeued(exps, table, succeeded, measured)[j]
  {
    var n := |exps| - 1;
    var id := exps[n];
    var before := Requeued(exps[..n], table, succeeded, measured);
    var front := if id in succeeded && !table[id].doEval && id in measured && table[id].hasEvalDataset then [id] else [];
    assert Requeued(exps, table, succeeded, measured) == front + before;
    if |front| <= i {
      a, b := RequeuedOrder(exps[..n], table, succeeded, measured, i - |front|, j - |front|);
    } else {
      a := n;
      var at := RequeuedAt(exps[..n], table, succeeded, measured, j - |front|);
      b := at;
    }
  }

  lemma {:induction false} RequeuedAt(exps: seq<Id>, table: map<Id, Experiment>, succeeded: set<Id>, measured: set<Id>, j: nat) returns (b: nat)
    requires Known(exps, table) && j < |Requeued(exps, table, succeeded, measured)|
    ensures b < |exps| && exps[b] == Requeued(exps, table, succeeded, measured)[j]
  {
    var n := |exps| - 1;
    var id := exps[n];
    var front := if id in succeeded && !table[id].doEval && id in measured && table[id].hasEvalDataset then [id] else [];
    if j < |front| {
      b := n;
    } else {
      b := RequeuedAt(exps[..n], table, succeeded, measured, j - |front|);
    }
  }

  lemma QueueReady(experiments: seq<Experiment>, queue: seq<Id>, entries: map<Id, Experiment>, devices: nat)
    requires Prioritized(experiments, |experiments|, queue)
    requires forall id: Id :: id in entries <==> id < |experiments|
    ensures Known(queue, entries) && Distinct([] + queue) && Known([], entries) && Leases([], entries, devices)
    ensures Solo([], entries)
  {
    assert [] + queue == queue;
    forall i, j | 0 <= i < j < |queue|
      ensures queue[i] != queue[j]
    {
      assert Before(experiments, queue[i], queue[j]);
    }
  }

  /** Devices nobody holds may be leased to one more experiment. */
  lemma LeaseAdded(exps: seq<Id>, table: map<Id, Experiment>, devices: nat, id: Id, gpus: set<int>, need: nat)
    requires Known(exps, table) && Leases(exps, table, devices) && id in table && id !in exps
    requires |gpus| == need == Need(table[id]) && gpus <= UpTo(devices) - Held(exps, table)
    ensures var table' := table[id := table[id].(gpus := gpus, hasEnv := need > 0)];
            && Known(exps + [id], table') && Leases(exps + [id], table', devices)
            && (AllHaveEnv(exps + [id], table') <==> 0 < need && AllHaveEnv(exps, table))
  {
    hide Held;
    var exps', table' := exps + [id], table[id := table[id].(gpus := gpus, hasEnv := need > 0)];
    forall i | 0 <= i < |exps|
      ensures table'[exps'[i]] == table[exps[i]] && table[exps[i]].gpus !! gpus
    {
      assert exps[i] in exps;
      HeldContains(exps, table, i);
    }
    assert exps'[|exps|] == id;
    if AllHaveEnv(exps', table') {
      assert forall i | 0 <= i < |exps| :: table'[exps'[i]].hasEnv;
    }
  }

  lemma NoneShared(exps: seq<Id>, table: map<Id, Experiment>, i: nat, all: set<int>)
    requires Known(exps, table) && i < |exps| && all * table[exps[i]].gpus == {}
    requires forall g :: g in all <==> exists k | 0 <= k < i :: g in table[exps[k]].gpus
    ensures forall k | 0 <= k < i :: table[exps[k]].gpus !! table[exps[i]].gpus
  {
    forall k | 0 <= k < i
      ensures table[exps[k]].gpus !! table[exps[i]].gpus
    {
      forall g | g in table[exps[k]].gpus
        ensures g !in table[exps[i]].gpus
      {
        assert g in all;
        assert g !in all * table[exps[i]].gpus;
      }
    }
  }

  /** What a disjoint lease leaves to go wrong. */
  lemma DisjointOverlap(exps: seq<Id>, table: map<Id, Experiment>, devices: nat)
    requires Known(exps, table) && Leases(exps, table, devices)
    ensures Clean(exps, table, |exps|) <==> AllHaveEnv(exps, table)
    ensures forall k, i | 0 <= k < i < |exps| :: table[exps[k]].gpus !! table[exps[i]].gpus
  {
  }

  lemma MarkedKeeps(before: map<Id, Experiment>, counts: map<Id, nat>, back: seq<Id>,
                    after: map<Id, Experiment>, counts': map<Id, nat>)
    requires Marked(before, counts, back, after, counts')
    ensures forall id | id in before :: id in after && after[id].name == before[id].name && after[id].cmd == before[id].cmd
                                        && (before[id].doEval ==> after[id].doEval)
  {
  }

  lemma NothingMarked(table: map<Id, Experiment>, counts: map<Id, nat>)
    requires table.Keys == counts.Keys
    ensures Marked(table, counts, [], table, counts)
  {
  }

  lemma MarkedNext(before: map<Id, Experiment>, counts: map<Id, nat>, back: seq<Id>,
                   after: map<Id, Experiment>, counts': map<Id, nat>, id: Id)
    requires Marked(before, counts, back, after, counts') && id in before && id !in back
    ensures before.Keys == after.Keys == counts'.Keys && after[id] == before[id]
    ensures Marked(before, counts, [id] + back, after[id := after[id].(doEval := true)], counts'[id := counts'[id] + 1])
    ensures [] + back == back
  {
  }

  /** No experiment goes back twice: going back marks it, and marked ones do not go back. */
  lemma MarkedCounts(before: map<Id, Experiment>, counts: map<Id, nat>, back: seq<Id>,
                     after: map<Id, Experiment>, counts': map<Id, nat>)
    requires Marked(before, counts, back, after, counts')
    requires forall id | id in before :: counts[id] <= 1 && (counts[id] == 1 ==> before[id].doEval)
    requires forall id | id in back :: id in before && !before[id].doEval
    ensures counts'.Keys == after.Keys == before.Keys
    ensures forall id | id in after :: counts'[id] <= 1 && (counts'[id] == 1 ==> after[id].doEval)
  {
  }

  /** Changing an experiment that is not running changes nothing for the running ones. */
  lemma OthersChanged(exps: seq<Id>, table: map<Id, Experiment>, table': map<Id, Experiment>, id: Id, devices: nat)
    requires Known(exps, table) && id !in exps
    requires table.Keys == table'.Keys && forall k | k in table && k != id :: table'[k] == table[k]
    ensures Known(exps, table')
    ensures Leases(exps, table, devices) ==> Leases(exps, table', devices)
    ensures Solo(exps, table) ==> Solo(exps, table')
  {
    assert forall i | 0 <= i < |exps| :: exps[i] in exps && table'[exps[i]] == table[exps[i]];
  }

  /** The listed experiments are marked for evaluation and counted once more; nothing else changes. */
  ghost predicate Marked(before: map<Id, Experiment>, counts: map<Id, nat>, back: seq<Id>,
                         after: map<Id, Experiment>, counts': map<Id, nat>) {
    && before.Keys == after.Keys == counts.Keys == counts'.Keys
    && forall id | id in before ::
         && after[id] == (if id in back then before[id].(doEval := true) else before[id])
         && counts'[id] == counts[id] + (if id in back then 1 else 0)
  }

  /** This experiment is put back for evaluation. */
  ghost predicate GoesBack(table: map<Id, Experiment>, succeeded: set<Id>, measured: set<Id>, id: Id) {
    id in table && id in succeeded && !table[id].doEval && id in measured && table[id].hasEvalDataset
  }

  lemma NothingRequeued(table: map<Id, Experiment>, succeeded: set<Id>, measured: set<Id>)
    ensures Requeued([], table, succeeded, measured) == []
  {
  }

  lemma {:induction false} RequeuedAre(exps: seq<Id>, table: map<Id, Experiment>, succeeded: set<Id>, measured: set<Id>)
    requires Known(exps, table) && Distinct(exps)
    ensures Distinct(Requeued(exps, table, succeeded, measured))
    ensures forall id :: id in Requeued(exps, table, succeeded, measured) <==>
                         id in exps && GoesBack(table, succeeded, measured, id)
    ensures forall id | id in exps ::
              id in table && (GoesBack(table, succeeded, measured, id) <==>
                              id in succeeded && id in measured && !table[id].doEval && table[id].hasEvalDataset)
  {
    if exps != [] {
      var n := |exps| - 1;
      RequeuedAre(exps[..n], table, succeeded, measured);
      assert exps == exps[..n] + [exps[n]];
      assert exps[n] !in exps[..n];
    }
  }

  lemma RequeuedNext(exps: seq<Id>, i: nat, table: map<Id, Experiment>, succeeded: set<Id>, measured: set<Id>)
    requires Known(exps, table) && Distinct(exps) && i < |exps|
    ensures var before := Requeued(exps[..i], table, succeeded, measured);
            && exps[i] !in before
            && Requeued(exps[..i + 1], table, succeeded, measured) ==
               (if GoesBack(table, succeeded, measured, exps[i]) then [exps[i]] else []) + before
  {
    RequeuedAre(exps[..i], table, succeeded, measured);
    assert exps[..i + 1][..i] == exps[..i];
    assert exps[i] !in exps[..i];
  }

  lemma {:induction false} RunningMember(exps: seq<Id>, over: set<Id>, id: Id)
    ensures id in Running(exps, over) <==> id in exps && id !in over
  {
    if exps != [] {
      var n := |exps| - 1;
      RunningMember(exps[..n], over, id);
      assert exps == exps[..n] + [exps[n]];
    }
  }

  lemma {:induction false} RunningDistinct(exps: seq<Id>, over: set<Id>)
    requires Distinct(exps)
    ensures Distinct(Running(exps, over))
    ensures over == {} ==> Running(exps, over) == exps
  {
    hide Distinct;
    if exps != [] {
      var n := |exps| - 1;
      assert exps == exps[..n] + [exps[n]];
      DistinctConcat(exps[..n], [exps[n]]);
      RunningDistinct(exps[..n], over);
      RunningMember(exps[..n], over, exps[n]);
      assert Running(exps[..n], over) + [] == Running(exps[..n], over);
      DistinctConcat(Running(exps[..n], over), [exps[n]]);
    } else {
      NoneDistinct();
    }
  }

  lemma NoneDistinct()
    ensures Distinct([])
  {
  }

  lemma RunningAre(exps: seq<Id>, over: set<Id>)
    requires Distinct(exps)
    ensures Distinct(Running(exps, over))
    ensures forall id :: id in Running(exps, over) <==> id in exps && id !in over
    ensures over == {} ==> Running(exps, over) == exps
  {
    hide Distinct, Running;
    RunningDistinct(exps, over);
    forall id
      ensures id in Running(exps, over) <==> id in exps && id !in over
    {
      RunningMember(exps, over, id);
    }
  }

  lemma DistinctConcat(a: seq<Id>, b: seq<Id>)
    ensures Distinct(a + b) <==> Distinct(a) && Distinct(b) && forall id | id in a :: id !in b
  {
    var c := a + b;
    assert forall i | 0 <= i < |a| :: c[i] == a[i];
    assert forall i | |a| <= i < |c| :: c[i] == b[i - |a|];
    if Distinct(c) {
      forall i, j | 0 <= i < |a| && 0 <= j < |b|
        ensures a[i] != b[j]
      {
        assert c[i] != c[|a| + j];
      }
      forall i, j | 0 <= i < j < |b|
        ensures b[i] != b[j]
      {
        assert c[|a| + i] != c[|a| + j];
      }
    }
    if Distinct(a) && Distinct(b) && forall id | id in a :: id !in b {
      forall i, j | 0 <= i < j < |c|
        ensures c[i] != c[j]
      {
        if i < |a| <= j {
          assert a[i] in a && b[j - |a|] in b;
        }
      }
    }
  }

  /** The leases of some of the running experiments, whose entries are as before. */
  lemma FewerLeases(exps: seq<Id>, some: seq<Id>, table: map<Id, Experiment>, table': map<Id, Experiment>, devices: nat)
    requires Known(exps, table) && Leases(exps, table, devices) && Distinct(some)
    requires forall id | id in some :: id in exps && id in table' && table'[id] == table[id]
    ensures Known(some, table') && Leases(some, table', devices)
  {
    forall i | 0 <= i < |some|
      ensures some[i] in table' && table'[some[i]] == table[some[i]]
      ensures exists a :: 0 <= a < |exps| && exps[a] == some[i]
    {
      assert some[i] in some;
    }
    forall i, j | 0 <= i < j < |some|
      ensures table'[some[i]].gpus !! table'[some[j]].gpus
    {
      var a :| 0 <= a < |exps| && exps[a] == some[i];
      var b :| 0 <= b < |exps| && exps[b] == some[j];
      assert a != b;
      assert table[exps[a]].gpus !! table[exps[b]].gpus;
    }
  }

  /** What a look at the processes leaves behind is again a consistent schedule. */
  lemma AfterPoll(exps: seq<Id>, queue: seq<Id>, table: map<Id, Experiment>, table': map<Id, Experiment>,
                  counts: map<Id, nat>, counts': map<Id, nat>,
                  succeeded: set<Id>, measured: set<Id>, gone: set<Id>, devices: nat)
    requires Known(exps, table) && Known(queue, table) && Distinct(exps + queue) && Leases(exps, table, devices)
    requires Marked(table, counts, Requeued(exps, table, succeeded, measured), table', counts')
    requires forall id | id in exps && id in succeeded :: id in gone
    ensures var left, back := Running(exps, gone), Requeued(exps, table, succeeded, measured);
            && Known(left, table') && Leases(left, table', devices)
            && Known(back + queue, table') && Distinct(left + (back + queue))
            && (gone == {} ==> left == exps)
            && forall id | id in back :: id in table && !table[id].doEval
  {
    hide Leases, Distinct, Requeued, Running;
    var left, back := Running(exps, gone), Requeued(exps, table, succeeded, measured);
    DistinctConcat(exps, queue);
    RequeuedAre(exps, table, succeeded, measured);
    RunningAre(exps, gone);
    FewerLeases(exps, left, table, table', devices);
    DistinctConcat(back, queue);
    DistinctConcat(left, back + queue);
    assert forall i | 0 <= i < |back| :: back[i] in back;
  }
}
