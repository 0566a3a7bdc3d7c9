/** The asynchronous activation-offload handler as functions on its whole state. `None` stands
    for a failed assertion, a missing dictionary key or a `view` of the wrong size. */
module OffloadModel {
  import opened Options
  import opened OffloadStreams

  /** The flat contents are read through the shape. */
  datatype Tensor = Tensor(key: Key, shape: seq<nat>, data: seq<int>)

  /** Number of elements of a shape. */
  function Numel(shape: seq<nat>): nat {
    if shape == [] then 1 else shape[0] * Numel(shape[1..])
  }

  /** It is the product of the dimensions. */
  lemma {:induction false} NumelIs(n: nat, a: seq<nat>, b: seq<nat>)
    ensures Numel([]) == 1 && Numel([n]) == n
    ensures Numel(a + b) == Numel(a) * Numel(b)
  {
    assert Numel([n]) == n * Numel([n][1..]);
    if a == [] {
      assert a + b == b;
    } else {
      assert (a + b)[1..] == a[1..] + b;
      NumelIs(n, a[1..], b);
      MulAssoc(a[0], Numel(a[1..]), Numel(b));
    }
  }

  lemma MulAssoc(x: nat, y: nat, z: nat)
    ensures x * (y * z) == (x * y) * z
  {
  }

  datatype Tag = Tag(group: int, index: int)

  /** An entry of `tensor_tag_to_state`: a device tensor or the (key, shape) pair left behind. */
  datatype Slot = Resident(t: Tensor) | Evicted(key: Key, shape: seq<nat>)

  /** What a push hands to autograd: a tag, or the tensor itself when it is not to be offloaded. */
  datatype Handle = Tagged(tag: Tag) | Direct(t: Tensor)

  /** A dictionary is a map and the insertion order its iteration follows (`order` for `slots`). */
  datatype State = State(
    groups: nat,
    layers: nat,
    window: map<int, int>,
    current: int,
    count: int,
    order: seq<Tag>,
    slots: map<Tag, Slot>,
    buffers: map<Tag, Option<Tensor>>,
    offloaded: int,
    hostCopies: map<int, map<Key, seq<int>>>,
    log: seq<Op>)

  function Initial(groups: nat, layers: nat, window: map<int, int>): State {
    State(groups, layers, window, 0, 0, [], map[], map[], 0, map[], [])
  }

  // ---- push and pop ---------------------------------------------------------------------

  function Push(s: State, t: Tensor, offloadable: bool): Option<(State, Handle)> {
    if !offloadable then
      Some((s, Direct(t)))
    else
      var tag := Tag(s.current, s.count);
      if tag in s.slots then
        None
      else
        Some((s.(
              count := s.count + 1,
              order := s.order + [tag],
              slots := s.slots[tag := Resident(t)],
              buffers := if s.current < s.groups then s.buffers[tag := Some(t)] else s.buffers,
              log := s.log + [Produce(s.current)]),
              Tagged(tag)))
  }

  function Without(order: seq<Tag>, tag: Tag): (r: seq<Tag>)
    ensures forall x :: x in r <==> x in order && x != tag
  {
    if order == [] then []
    else if order[0] == tag then Without(order[1..], tag)
    else [order[0]] + Without(order[1..], tag)
  }

  function Pop(s: State, h: Handle): Option<(State, Tensor)> {
    match h
    case Direct(t) => Some((s, t))
    case Tagged(tag) =>
      if tag !in s.slots || s.slots[tag].Evicted? then
        None
      else
        Some((s.(
              order := Without(s.order, tag),
              slots := s.slots - {tag},
              buffers := s.buffers - {tag},
              log := s.log + [Use(tag.group)]),
              s.slots[tag].t))
  }

  // ---- bulk copies ----------------------------------------------------------------------

  /** Every tag of the group still holds a device tensor. */
  ghost predicate AllResident(slots: map<Tag, Slot>, group: int) {
    forall tag | tag in slots && tag.group == group :: slots[tag].Resident?
  }

  /** One host copy per key: the contents of the first tensor of the group that carries it. */
  ghost function Copies(order: seq<Tag>, slots: map<Tag, Slot>, group: int): map<Key, seq<int>> {
    if order == [] then map[]
    else
      var m := Copies(order[..|order| - 1], slots, group);
      var tag := order[|order| - 1];
      if tag.group != group || tag !in slots || slots[tag].Evicted? || slots[tag].t.key in m then m
      else m[slots[tag].t.key := slots[tag].t.data]
  }

  function Evict(slot: Slot): Slot {
    if slot.Resident? then Evicted(slot.t.key, slot.t.shape) else slot
  }

  ghost function EvictGroup(slots: map<Tag, Slot>, group: int): map<Tag, Slot> {
    map tag | tag in slots :: if tag.group == group then Evict(slots[tag]) else slots[tag]
  }

  ghost function BulkOffload(s: State, group: int): Option<State> {
    if !AllResident(s.slots, group) then None
    else
      var copies := Copies(s.order, s.slots, group);
      Some(s.(
           slots := EvictGroup(s.slots, group),
           hostCopies := s.hostCopies[group := copies],
           log := s.log + [CopyOut(group, copies.Keys)]))
  }

  /** An evicted tensor can be rebuilt: its key was copied and the copy has the size of its shape. */
  predicate Recoverable(slot: Slot, copies: map<Key, seq<int>>) {
    slot.Evicted? ==> slot.key in copies && |copies[slot.key]| == Numel(slot.shape)
  }

  function Recover(slot: Slot, copies: map<Key, seq<int>>): Slot
    requires Recoverable(slot, copies)
  {
    if slot.Evicted? then Resident(Tensor(slot.key, slot.shape, copies[slot.key])) else slot
  }

  ghost predicate AllRecoverable(slots: map<Tag, Slot>, group: int, copies: map<Key, seq<int>>) {
    forall tag | tag in slots && tag.group == group :: Recoverable(slots[tag], copies)
  }

  ghost function RecoverGroup(slots: map<Tag, Slot>, group: int, copies: map<Key, seq<int>>): map<Tag, Slot>
    requires AllRecoverable(slots, group, copies)
  {
    map tag | tag in slots :: if tag.group == group then Recover(slots[tag], copies) else slots[tag]
  }

  ghost function BulkReload(s: State, group: int): Option<State> {
    if group >= s.groups || group !in s.hostCopies then None
    else
      var copies := s.hostCopies[group];
      if !AllRecoverable(s.slots, group, copies) then None
      else
        Some(s.(
             slots := RecoverGroup(s.slots, group, copies),
             hostCopies := s.hostCopies - {group},
             log := s.log + [CopyIn(group, copies.Keys)]))
  }

  // ---- commits --------------------------------------------------------------------------

  function WaitFor(s: State, waiter: Stream, waitee: Stream): State {
    s.(log := s.log + [Wait(waiter, waitee)])
  }

  function ReleaseGroup(buffers: map<Tag, Option<Tensor>>, group: int): map<Tag, Option<Tensor>> {
    map tag | tag in buffers :: if tag.group == group then None else buffers[tag]
  }

  /** For the first group the copy starts right after its computation. */
  ghost function Kickstart(s: State): Option<State> {
    if s.current == 0 then BulkOffload(WaitFor(s, D2H, Compute), 0) else Some(s)
  }

  /** At the end of a window: wait for the running copy, free its sources, start the next copy. */
  ghost function AdvanceOffload(s: State): Option<State> {
    if s.offloaded !in s.window then None
    else if s.window[s.offloaded] != s.current then Some(s)
    else
      var s1 := WaitFor(WaitFor(s, D2H, Compute), Compute, D2H);
      var s2 := s1.(
                  buffers := ReleaseGroup(s1.buffers, s1.offloaded),
                  log := s1.log + [Release(s1.offloaded)]);
      var s3 :- if s2.offloaded < s2.groups - 1 then BulkOffload(s2, s2.offloaded + 1) else Some(s2);
      Some(s3.(offloaded := s3.offloaded + 1))
  }

  ghost function CommitForward(s: State): Option<State> {
    var s1 :- Kickstart(s);
    var s2 :- AdvanceOffload(s1);
    Some(s2.(current := s2.current + 1, count := 0))
  }

  /** At the end of a window, walking back: start the reload of the last group still on the host. */
  ghost function AdvanceReload(s: State): Option<State> {
    if s.offloaded - 1 !in s.window then None
    else if s.window[s.offloaded - 1] != s.current then Some(s)
    else
      var s1 := WaitFor(WaitFor(s, H2D, Compute), Compute, H2D);
      var s2 :- BulkReload(s1, s1.offloaded - 1);
      Some(s2.(offloaded := s2.offloaded - (if s2.offloaded > 1 then 1 else 0)))
  }

  /** The last group waits for every reload. */
  function Drain(s: State): State {
    if s.current == 0 then WaitFor(s, Compute, H2D).(offloaded := 0) else s
  }

  ghost function CommitBackward(s: State): Option<State> {
    var s1 := s.(current := s.current - 1);
    if s1.current < 0 then None
    else
      var s2 :- AdvanceReload(s1);
      Some(Drain(s2))
  }

  // ---- runs -----------------------------------------------------------------------------

  datatype Event =
    | DoPush(t: Tensor, offloadable: bool)
    | DoCommitForward
    | DoPop(h: Handle)
    | DoCommitBackward
    | EndStep  // the optimizer step between two iterations: no call to the handler

  /** What the caller of one event sees. */
  datatype Answer = Got(h: Handle) | Contents(shape: seq<nat>, data: seq<int>) | Nothing

  ghost function Step(s: State, e: Event): Option<(State, Answer)> {
    match e
    case DoPush(t, offloadable) => var r :- Push(s, t, offloadable); Some((r.0, Got(r.1)))
    case DoPop(h) => var r :- Pop(s, h); Some((r.0, Contents(r.1.shape, r.1.data)))
    case DoCommitForward => var r :- CommitForward(s); Some((r, Nothing))
    case DoCommitBackward => var r :- CommitBackward(s); Some((r, Nothing))
    case EndStep => Some((s, Nothing))
  }

  ghost function Run(s: State, events: seq<Event>): Option<(State, seq<Answer>)> {
    if events == [] then Some((s, []))
    else
      var n := |events| - 1;
      var r :- Run(s, events[..n]);
      var last :- Step(r.0, events[n]);
      Some((last.0, r.1 + [last.1]))
  }

  // ---- the plain map it must behave like ------------------------------------------------

  /** Contents are filed by layer and key, for the layers below `shared`: what a key stands for is
      what was filed under it first. */
  datatype Filing = Filing(shared: int, first: map<(int, Key), seq<int>>)

  /** The same client served by a map that never moves anything off the device, and beside it what
      the handler has filed. */
  datatype Model = Model(backward: bool, layer: int, count: int, saved: map<Tag, Tensor>, filing: Filing, steps: nat)

  /** How many layers' tensors leave the device. When every layer is a group, each group but the
      first is copied out before anything has been pushed for it. */
  function Shared(groups: int, layers: int): int {
    if groups < layers then groups else 1
  }

  function Start(groups: int, layers: int): Model {
    Model(false, 0, 0, map[], Filing(Shared(groups, layers), map[]), 0)
  }

  /** The contents the handler returns for a saved tensor. */
  function Filed(saved: map<Tag, Tensor>, filing: Filing, tag: Tag): seq<int>
    requires tag in saved
  {
    var file := (tag.group, saved[tag].key);
    if tag.group < filing.shared && file in filing.first then filing.first[file] else saved[tag].data
  }

  function File(filing: Filing, layer: int, t: Tensor): Filing {
    if layer < filing.shared && (layer, t.key) !in filing.first
    then filing.(first := filing.first[(layer, t.key) := t.data])
    else filing
  }

  /** One training step: `layers` layers forward, each some pushes and a commit; then backward,
      each a commit and then the pops of that layer in any order. */
  ghost predicate Legal(m: Model, layers: int, e: Event) {
    match e
    case DoPush(t, offloadable) => !m.backward && m.layer < layers && |t.data| == Numel(t.shape)
    case DoCommitForward => !m.backward && m.layer < layers
    case DoPop(h) => m.backward && (h.Tagged? ==> h.tag in m.saved && h.tag.group == m.layer)
    case DoCommitBackward => m.backward && 0 < m.layer && forall tag | tag in m.saved :: tag.group < m.layer
    case EndStep => m.backward && m.layer == 0 && m.saved == map[]
  }

  /** The next state, and the answer of the plain map. */
  ghost function ModelStep(m: Model, layers: int, e: Event): (Model, Answer)
    requires Legal(m, layers, e)
  {
    match e
    case DoPush(t, offloadable) =>
      if offloadable then
        var tag := Tag(m.layer, m.count);
        (m.(saved := m.saved[tag := t], filing := File(m.filing, m.layer, t), count := m.count + 1), Got(Tagged(tag)))
      else (m, Got(Direct(t)))
    case DoCommitForward =>
      (m.(layer := m.layer + 1, count := 0, backward := m.layer + 1 == layers), Nothing)
    case DoPop(h) =>
      if h.Tagged? then
        (m.(saved := m.saved - {h.tag}), Contents(m.saved[h.tag].shape, m.saved[h.tag].data))
      else (m, Contents(h.t.shape, h.t.data))
    case DoCommitBackward => (m.(layer := m.layer - 1), Nothing)
    case EndStep =>
      (m.(backward := false, filing := m.filing.(first := map[]), steps := m.steps + 1), Nothing)
  }

  /** The answer of the map that returns what was filed. */
  ghost function FiledAnswer(m: Model, layers: int, e: Event): Answer
    requires Legal(m, layers, e)
  {
    if e.DoPop? && e.h.Tagged? then Contents(m.saved[e.h.tag].shape, Filed(m.saved, m.filing, e.h.tag))
    else ModelStep(m, layers, e).1
  }

  /** The group's tensors, with the contents filed for them, have the sizes of their shapes. */
  ghost predicate Fits(m: Model, group: int) {
    forall tag | tag in m.saved && tag.group == group ::
      |Filed(m.saved, m.filing, tag)| == Numel(m.saved[tag].shape)
  }

  /** A backward commit can give every tensor it brings back its shape. */
  ghost predicate Feasible(m: Model, window: map<int, int>, e: Event) {
    e.DoCommitBackward? ==> forall group | group in window && window[group] == m.layer - 1 :: Fits(m, group)
  }

  /** In a layer that leaves the device, the key of a pushed tensor determines its contents. */
  ghost predicate KeyFree(m: Model, e: Event) {
    e.DoPush? && e.offloadable && m.layer < m.filing.shared ==>
      forall tag | tag in m.saved && tag.group == m.layer && m.saved[tag].key == e.t.key ::
        m.saved[tag].data == e.t.data
  }

  // ---- runs of the plain map ------------------------------------------------------------

  /** Every event is legal when its turn comes. */
  ghost predicate LegalRun(m: Model, layers: int, events: seq<Event>)
    decreases |events|, 0
  {
    events != [] ==>
      var n := |events| - 1;
      && LegalRun(m, layers, events[..n])
      && Legal(ModelRun(m, layers, events[..n]).0, layers, events[n])
  }

  ghost function ModelRun(m: Model, layers: int, events: seq<Event>): (Model, seq<Answer>)
    requires LegalRun(m, layers, events)
    decreases |events|, 1
  {
    if events == [] then (m, [])
    else
      var n := |events| - 1;
      var r := ModelRun(m, layers, events[..n]);
      var last := ModelStep(r.0, layers, events[n]);
      (last.0, r.1 + [last.1])
  }

  ghost function FiledAnswers(m: Model, layers: int, events: seq<Event>): seq<Answer>
    requires LegalRun(m, layers, events)
  {
    if events == [] then []
    else
      var n := |events| - 1;
      FiledAnswers(m, layers, events[..n]) + [FiledAnswer(ModelRun(m, layers, events[..n]).0, layers, events[n])]
  }

  ghost predicate FeasibleRun(m: Model, layers: int, window: map<int, int>, events: seq<Event>)
    requires LegalRun(m, layers, events)
  {
    events != [] ==>
      var n := |events| - 1;
      && FeasibleRun(m, layers, window, events[..n])
      && Feasible(ModelRun(m, layers, events[..n]).0, window, events[n])
  }

  /** Within each step and layer that leaves the device, keys determine contents. */
  ghost predicate KeysDetermine(m: Model, layers: int, events: seq<Event>)
    requires LegalRun(m, layers, events)
  {
    events != [] ==>
      var n := |events| - 1;
      && KeysDetermine(m, layers, events[..n])
      && KeyFree(ModelRun(m, layers, events[..n]).0, events[n])
  }
}
