/** What every reachable state of the handler satisfies. Each part is about a few fields only. */
module OffloadInvariant {
  import opened Options
  import opened OffloadWindow
  import opened OffloadStreams
  import opened OffloadModel

  // ---- tensors --------------------------------------------------------------------------

  ghost predicate Configured(s: State) {
    WindowOk(s.layers, s.groups, s.window)
  }

  /** Groups whose window is over at the model's layer. */
  ghost function Done(s: State, m: Model): int
    requires Configured(s)
  {
    Passed(s.layers, s.groups, s.window, m.layer)
  }

  ghost predicate Counters(s: State, m: Model)
    requires Configured(s)
  {
    && 0 <= m.layer <= s.layers
    && (!m.backward ==> m.layer < s.layers)
    && s.current == m.layer
    && 0 <= s.count == m.count
    && (m.backward ==> m.count == 0)
    && s.offloaded == (if !m.backward then Done(s, m)
                       else if m.layer == 0 then 0
                       else if Done(s, m) == 0 then 1
                       else Done(s, m))
  }

  /** The tags in use were handed out by layers already reached. */
  ghost predicate Tags(m: Model, layers: int) {
    forall tag | tag in m.saved ::
      && 0 <= tag.group <= m.layer && tag.group < layers && 0 <= tag.index
      && (!m.backward && tag.group == m.layer ==> tag.index < m.count)
      && |m.saved[tag].data| == Numel(m.saved[tag].shape)
  }

  ghost predicate OrderOf(order: seq<Tag>, slots: map<Tag, Slot>) {
    forall tag :: tag in order <==> tag in slots
  }

  /** A slot stands for the tensor stored under its tag: same shape, and the contents filed for it
      once it has been copied out or the forward half is over. */
  ghost predicate Stands(slot: Slot, saved: map<Tag, Tensor>, filing: Filing, settled: bool,
                         host: map<int, map<Key, seq<int>>>, tag: Tag)
    requires tag in saved
  {
    match slot
    case Resident(u) => u.shape == saved[tag].shape && (settled ==> u.data == Filed(saved, filing, tag))
    case Evicted(key, shape) =>
      && shape == saved[tag].shape && tag.group in host && key in host[tag.group]
      && host[tag.group][key] == Filed(saved, filing, tag)
  }

  ghost predicate Stored(slots: map<Tag, Slot>, saved: map<Tag, Tensor>, filing: Filing, settled: bool,
                         host: map<int, map<Key, seq<int>>>) {
    && slots.Keys == saved.Keys
    && forall tag | tag in slots :: Stands(slots[tag], saved, filing, settled, host, tag)
  }

  /** Until it is copied out, a tensor is the very one that was pushed. */
  ghost predicate Pristine(slots: map<Tag, Slot>, saved: map<Tag, Tensor>) {
    && slots.Keys == saved.Keys
    && forall tag | tag in slots && slots[tag].Resident? :: slots[tag].t == saved[tag]
  }

  ghost function AsPushed(saved: map<Tag, Tensor>): map<Tag, Slot> {
    map tag | tag in saved :: Resident(saved[tag])
  }

  /** What is filed for a layer is what a copy of its tensors, as pushed, would take. */
  ghost predicate FiledFirst(order: seq<Tag>, saved: map<Tag, Tensor>, filing: Filing) {
    forall g, key | g < filing.shared ::
      var copies := Copies(order, AsPushed(saved), g);
      && (key in copies <==> (g, key) in filing.first)
      && (key in copies ==> copies[key] == filing.first[(g, key)])
  }

  /** The host holds copies of exactly the groups below `top`. */
  ghost predicate HostBelow(host: map<int, map<Key, seq<int>>>, groups: int, top: int) {
    forall g :: g in host <==> 0 <= g < groups && g < top
  }

  ghost function Top(m: Model, done: int): int {
    if m.backward then done else if m.layer == 0 then 0 else done + 1
  }

  /** A group with host copies has left the device; when every layer is a group of its own, only
      group 0 does. */
  ghost predicate Gone(slots: map<Tag, Slot>, host: map<int, map<Key, seq<int>>>, groups: int, layers: int) {
    && (forall tag | tag in slots && tag.group in host && tag.group < Shared(groups, layers) :: slots[tag].Evicted?)
    && (groups == layers ==> forall g | g in host && 0 < g :: host[g] == map[])
  }

  /** Device references are kept exactly until their group's window is over. */
  ghost predicate Buffers(buffers: map<Tag, Option<Tensor>>, saved: map<Tag, Tensor>, groups: int, done: int) {
    && (forall tag :: tag in buffers <==> tag in saved && tag.group < groups)
    && (forall tag | tag in buffers :: buffers[tag] == if tag.group < done then None else Some(saved[tag]))
  }

  // ---- the log --------------------------------------------------------------------------

  /** A new entry starts only after every earlier entry it conflicts with. */
  ghost predicate SafeNext(log: seq<Op>, op: Op) {
    forall i | 0 <= i < |log| && Conflicts(log[i], op) :: Ordered(log, i, StreamOf(op))
  }

  ghost predicate SafeLog(log: seq<Op>) {
    log != [] ==> SafeLog(log[..|log| - 1]) && SafeNext(log[..|log| - 1], log[|log| - 1])
  }

  /** The compute stream has waited for every copy out but those of group `out`, and every copy
      in but those of group `back`; a negative group stands for none. */
  ghost predicate Awaited(log: seq<Op>, out: int, back: int) {
    forall i | 0 <= i < |log| ::
      && (log[i].CopyOut? ==> Ordered(log, i, Compute) || 0 <= out == log[i].group)
      && (log[i].CopyIn? ==> Ordered(log, i, Compute) || 0 <= back == log[i].group)
  }

  /** Only group 0 is ever copied. */
  ghost predicate Hollow(log: seq<Op>) {
    forall i | 0 <= i < |log| && (log[i].CopyOut? || log[i].CopyIn?) && 0 < log[i].group :: log[i].keys == {}
  }

  ghost function CountOut(log: seq<Op>, group: int): nat {
    if log == [] then 0
    else
      var op := log[|log| - 1];
      CountOut(log[..|log| - 1], group) + (if op.CopyOut? && op.group == group then 1 else 0)
  }

  ghost function CountIn(log: seq<Op>, group: int): nat {
    if log == [] then 0
    else
      var op := log[|log| - 1];
      CountIn(log[..|log| - 1], group) + (if op.CopyIn? && op.group == group then 1 else 0)
  }

  /** Besides once in each finished step, groups below `out` were copied out and groups from
      `back` on were copied in. */
  ghost predicate Counted(log: seq<Op>, groups: int, steps: int, out: int, back: int) {
    forall g | 0 <= g < groups ::
      && CountOut(log, g) == steps + (if g < out then 1 else 0)
      && CountIn(log, g) == steps + (if back <= g then 1 else 0)
  }

  // ---- all together ---------------------------------------------------------------------

  ghost predicate Inv(s: State, m: Model) {
    && Configured(s)
    && Counters(s, m)
    && Tags(m, s.layers)
    && OrderOf(s.order, s.slots)
    && m.filing.shared == Shared(s.groups, s.layers)
    && Stored(s.slots, m.saved, m.filing, m.backward, s.hostCopies)
    && (!m.backward ==> Pristine(s.slots, m.saved) && FiledFirst(s.order, m.saved, m.filing))
    && var n := Done(s, m);
    && HostBelow(s.hostCopies, s.groups, Top(m, n))
    && Gone(s.slots, s.hostCopies, s.groups, s.layers)
    && Buffers(s.buffers, m.saved, s.groups, if m.backward then s.groups else n)
    && SafeLog(s.log)
    && Awaited(s.log,
               if !m.backward && 0 < m.layer then n else -1,
               if m.backward && 0 < m.layer then n else -1)
    && (s.groups == s.layers ==> Hollow(s.log))
    && Counted(s.log, s.groups, m.steps,
               if m.backward then s.groups else Top(m, n),
               if m.backward then n else s.groups)
  }
}
