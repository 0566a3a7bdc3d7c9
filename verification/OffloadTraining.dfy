/** A client of the handler: one training step over all layers, as autograd drives it. */
module OffloadTraining {
  import opened OffloadWindow
  import opened OffloadModel
  import opened OffloadInvariant
  import opened OffloadForward
  import opened OffloadBackward
  import opened OffloadFiling
  import opened OffloadTheorems
  import opened OffloadHandler

  /** A tensor saved for backward, and whether the filter lets it be offloaded. */
  datatype Activation = Activation(t: Tensor, offloadable: bool)

  /** The tensors of one layer: well sized, and, if the layer leaves the device, keys determine
      contents among those that do. */
  ghost predicate LayerOk(layer: seq<Activation>, leaves: bool) {
    && (forall k | 0 <= k < |layer| :: |layer[k].t.data| == Numel(layer[k].t.shape))
    && (leaves ==> forall a, b | 0 <= a < b < |layer| && layer[a].offloadable && layer[b].offloadable
                                 && layer[a].t.key == layer[b].t.key ::
          layer[a].t.data == layer[b].t.data)
  }

  /** All contents the handler stands ready to return are those that were saved. */
  ghost predicate Ready(m: Model) {
    Sourced(m) && Honest(m)
  }

  /** The handle of a saved tensor of layer l leads back to it. */
  ghost predicate LeadsTo(h: Handle, a: Activation, l: int, saved: map<Tag, Tensor>) {
    match h
    case Direct(t) => t == a.t
    case Tagged(tag) => tag.group == l && tag in saved && saved[tag] == a.t
  }

  ghost predicate Handles(handles: seq<Handle>, layer: seq<Activation>, n: int, l: int, saved: map<Tag, Tensor>) {
    && 0 <= n <= |handles| && n <= |layer|
    && (forall k | 0 <= k < n :: LeadsTo(handles[k], layer[k], l, saved))
    && (forall a, b | 0 <= a < b < n && handles[a].Tagged? && handles[b].Tagged? :: handles[a] != handles[b])
    && (forall k | 0 <= k < n :: handles[k].Tagged? <==> layer[k].offloadable)
  }

  /** The tags of layer l in use are those among the first n handles. */
  ghost predicate OnlyThese(handles: seq<Handle>, n: int, l: int, saved: map<Tag, Tensor>) {
    0 <= n <= |handles| && forall tag | tag in saved && tag.group == l :: exists k | 0 <= k < n :: handles[k] == Tagged(tag)
  }

  ghost predicate AtStart(m: Model) {
    !m.backward && m.layer == 0 && m.count == 0 && m.saved == map[] && m.filing.first == map[]
  }

  /** Everything about the other layers stays as it is. */
  ghost predicate SameElsewhere(saved: map<Tag, Tensor>, saved': map<Tag, Tensor>, l: int) {
    forall tag: Tag | tag.group != l :: (tag in saved <==> tag in saved') && (tag in saved ==> saved[tag] == saved'[tag])
  }

  lemma FreshTag(s: State, m: Model, h: Handle)
    requires Inv(s, m) && !m.backward
    requires h == Tagged(Tag(m.layer, m.count))
    ensures h.tag !in m.saved
  {
    hide SafeLog, Awaited, Hollow, Counted, Buffers, Gone, Stored, Pristine, FiledFirst;
  }

  lemma KeyStaysFree(handles: seq<Handle>, layer: seq<Activation>, n: nat, m: Model)
    requires LayerOk(layer, m.layer < m.filing.shared) && n < |layer| && layer[n].offloadable
    requires Handles(handles, layer, n, m.layer, m.saved) && OnlyThese(handles, n, m.layer, m.saved)
    ensures KeyFree(m, DoPush(layer[n].t, true))
  {
    hide Numel;
    forall tag | m.layer < m.filing.shared && tag in m.saved && tag.group == m.layer && m.saved[tag].key == layer[n].t.key
      ensures m.saved[tag].data == layer[n].t.data
    {
      var k :| 0 <= k < n && handles[k] == Tagged(tag);
      assert LeadsTo(handles[k], layer[k], m.layer, m.saved);
    }
  }

  lemma HandleAdded(handles: seq<Handle>, layer: seq<Activation>, l: int, saved: map<Tag, Tensor>, h: Handle, saved': map<Tag, Tensor>)
    requires |handles| < |layer| && Handles(handles, layer, |handles|, l, saved) && OnlyThese(handles, |handles|, l, saved)
    requires if layer[|handles|].offloadable
             then h.Tagged? && h.tag.group == l && h.tag !in saved && saved' == saved[h.tag := layer[|handles|].t]
             else h == Direct(layer[|handles|].t) && saved' == saved
    ensures Handles(handles + [h], layer, |handles| + 1, l, saved') && OnlyThese(handles + [h], |handles| + 1, l, saved')
    ensures SameElsewhere(saved, saved', l)
  {
    var n := |handles|;
    var all := handles + [h];
    assert forall k | 0 <= k < n :: all[k] == handles[k];
    assert forall k | 0 <= k < n && handles[k].Tagged? :: LeadsTo(handles[k], layer[k], l, saved);
    forall tag | tag in saved' && tag.group == l
      ensures exists k | 0 <= k < n + 1 :: all[k] == Tagged(tag)
    {
      if tag in saved {
        var k :| 0 <= k < n && handles[k] == Tagged(tag);
        assert all[k] == Tagged(tag);
      } else {
        assert all[n] == Tagged(tag);
      }
    }
  }

  /** The forward pass of one layer: every saved tensor is pushed, then the group is committed. */
  method ForwardLayer(handler: AsyncDoubleBufferGroupOffloadHandler, layer: seq<Activation>, ghost m: Model)
    returns (handles: seq<Handle>, ghost m': Model)
    requires handler.Valid() && Inv(handler.View(), m) && !m.backward
    requires m.count == 0 && Ready(m) && LayerOk(layer, m.layer < m.filing.shared)
    requires forall tag | tag in m.saved :: tag.group < m.layer
    modifies handler
    ensures handler.Valid() && Inv(handler.View(), m') && Ready(m')
    ensures m'.layer == m.layer + 1 && m'.count == 0 && m'.backward == (m'.layer == handler.numLayers) && m'.steps == m.steps
    ensures |handles| == |layer| && Handles(handles, layer, |layer|, m.layer, m'.saved)
    ensures OnlyThese(handles, |layer|, m.layer, m'.saved) && SameElsewhere(m.saved, m'.saved, m.layer)
  {
    hide Inv, Tags, Ready, File, Push, CommitForward, Handles, OnlyThese, SameElsewhere, KeyFree, Numel;
    handles, m' := [], m;
    NoHandles(layer, m);
    for k := 0 to |layer|
      invariant handler.Valid() && Inv(handler.View(), m') && Ready(m') && |handles| == k
      invariant m' == m.(saved := m'.saved, filing := m'.filing, count := m'.count)
      invariant m'.filing.shared == m.filing.shared
      invariant Handles(handles, layer, k, m.layer, m'.saved) && OnlyThese(handles, k, m.layer, m'.saved)
      invariant SameElsewhere(m.saved, m'.saved, m.layer)
    {
      var a := layer[k];
      if a.offloadable {
        KeyStaysFree(handles, layer, k, m');
      }
      OthersKeyFree(m', DoPush(a.t, a.offloadable));
      BoundsOf(handler.View(), m');
      ReadyNext(m', handler.numLayers, DoPush(a.t, a.offloadable));
      PushSafe(handler.View(), m', a.t, a.offloadable);
      ghost var step := ModelStep(m', handler.numLayers, DoPush(a.t, a.offloadable));
      if a.offloadable {
        FreshTag(handler.View(), m', step.1.h);
      }
      var h := handler.TensorPush(a.t, a.offloadable);
      HandleAdded(handles, layer, m.layer, m'.saved, h, step.0.saved);
      SameTrans(m.saved, m'.saved, step.0.saved, m.layer);
      handles, m' := handles + [h], step.0;
    }
    BoundsOf(handler.View(), m');
    OthersKeyFree(m', DoCommitForward);
    ReadyNext(m', handler.numLayers, DoCommitForward);
    CommitForwardSafe(handler.View(), m');
    m' := ModelStep(m', handler.numLayers, DoCommitForward).0;
    handler.OnGroupCommitForward();
  }

  lemma BoundsOf(s: State, m: Model)
    requires Inv(s, m)
    ensures 0 <= m.layer <= s.layers && (!m.backward ==> m.layer < s.layers) && 0 <= m.count
    ensures Tags(m, s.layers) && m.filing.shared == Shared(s.groups, s.layers)
  {
    hide SafeLog, Awaited, Hollow, Counted, Buffers, Gone, Stored, Pristine, FiledFirst, WindowOk;
  }

  /** An event that respects keys keeps everything ready and is answered with what was saved. */
  lemma ReadyNext(m: Model, layers: int, e: Event)
    requires Ready(m) && Tags(m, layers) && 0 <= m.layer && 0 <= m.count && Legal(m, layers, e) && KeyFree(m, e)
    ensures Ready(ModelStep(m, layers, e).0)
    ensures FiledAnswer(m, layers, e) == ModelStep(m, layers, e).1
    ensures ModelStep(m, layers, e).0.filing.shared == m.filing.shared
  {
    hide Tags, Sourced, Honest, KeyFree, Legal;
    StepSourced(m, layers, e);
    StepHonest(m, layers, e);
  }

  lemma NoHandles(layer: seq<Activation>, m: Model)
    requires forall tag | tag in m.saved :: tag.group < m.layer
    ensures Handles([], layer, 0, m.layer, m.saved) && OnlyThese([], 0, m.layer, m.saved)
    ensures SameElsewhere(m.saved, m.saved, m.layer)
  {
  }

  lemma SameTrans(a: map<Tag, Tensor>, b: map<Tag, Tensor>, c: map<Tag, Tensor>, l: int)
    requires SameElsewhere(a, b, l) && SameElsewhere(b, c, l)
    ensures SameElsewhere(a, c, l)
  {
  }

  /** The backward pass of one layer: the commit, then every saved tensor is asked for, last one first. */
  method BackwardLayer(handler: AsyncDoubleBufferGroupOffloadHandler, handles: seq<Handle>, ghost layer: seq<Activation>, ghost m: Model)
    returns (tensors: seq<Tensor>, ghost m': Model)
    requires handler.Valid() && Inv(handler.View(), m) && Ready(m) && m.backward && 0 < m.layer
    requires |handles| == |layer| && Handles(handles, layer, |layer|, m.layer - 1, m.saved)
    requires OnlyThese(handles, |layer|, m.layer - 1, m.saved)
    requires forall tag | tag in m.saved :: tag.group < m.layer
    modifies handler
    ensures handler.Valid() && Inv(handler.View(), m') && Ready(m')
    ensures m'.filing.shared == m.filing.shared
    ensures m'.layer == m.layer - 1 && m'.backward && m'.steps == m.steps
    ensures forall tag | tag in m'.saved :: tag.group < m'.layer
    ensures SameElsewhere(m.saved, m'.saved, m'.layer)
    ensures |tensors| == |layer|
    ensures forall k | 0 <= k < |layer| :: tensors[k].shape == layer[k].t.shape && tensors[k].data == layer[k].t.data
  {
    hide Inv, Tags, Ready, Pop, CommitBackward, Handles, OnlyThese, SameElsewhere, Numel, Filed, Feasible;
    BoundsOf(handler.View(), m);
    ReadyNext(m, handler.numLayers, DoCommitBackward);
    ReadyFits(m, handler.View(), DoCommitBackward);
    CommitBackwardSafe(handler.View(), m);
    handler.OnGroupCommitBackward();
    m' := m.(layer := m.layer - 1);
    ghost var l := m'.layer;
    tensors := [];
    var k := |handles|;
    SameSelf(m.saved, l);
    while k > 0
      invariant 0 <= k <= |handles| && |tensors| == |handles| - k
      invariant handler.Valid() && Inv(handler.View(), m') && Ready(m')
      invariant m' == m.(layer := l, saved := m'.saved)
      invariant Handles(handles, layer, k, l, m'.saved) && OnlyThese(handles, k, l, m'.saved)
      invariant SameElsewhere(m.saved, m'.saved, l)
      invariant forall tag | tag in m'.saved :: tag in m.saved
      invariant forall j | k <= j < |handles| ::
                  tensors[j - k].shape == layer[j].t.shape && tensors[j - k].data == layer[j].t.data
    {
      k := k - 1;
      HandleAt(handles, layer, k, l, m'.saved);
      BoundsOf(handler.View(), m');
      ReadyNext(m', handler.numLayers, DoPop(handles[k]));
      PopSafe(handler.View(), m', handles[k]);
      ghost var step := ModelStep(m', handler.numLayers, DoPop(handles[k]));
      var t := handler.TensorPop(handles[k]);
      SameTrans(m.saved, m'.saved, step.0.saved, l);
      tensors := [t] + tensors;
      m' := step.0;
    }
    NoneLeft(handles, l, m'.saved);
  }

  lemma OthersKeyFree(m: Model, e: Event)
    ensures !e.DoPush? || !e.offloadable ==> KeyFree(m, e)
  {
  }

  lemma ReadyFits(m: Model, s: State, e: Event)
    requires Ready(m) && Tags(m, s.layers)
    ensures Feasible(m, s.window, e)
  {
    HonestFits(m, s.layers, s.window, e);
  }

  lemma SameSelf(saved: map<Tag, Tensor>, l: int)
    ensures SameElsewhere(saved, saved, l)
  {
  }

  lemma NoneLeft(handles: seq<Handle>, l: int, saved: map<Tag, Tensor>)
    requires OnlyThese(handles, 0, l, saved)
    ensures forall tag | tag in saved :: tag.group != l
  {
  }

  /** The last handle may be popped, and what is left is led to by the others. */
  lemma HandleAt(handles: seq<Handle>, layer: seq<Activation>, k: int, l: int, saved: map<Tag, Tensor>)
    requires 0 <= k && Handles(handles, layer, k + 1, l, saved) && OnlyThese(handles, k + 1, l, saved)
    ensures LeadsTo(handles[k], layer[k], l, saved)
    ensures var saved' := if handles[k].Tagged? then saved - {handles[k].tag} else saved;
            Handles(handles, layer, k, l, saved') && OnlyThese(handles, k, l, saved') && SameElsewhere(saved, saved', l)
  {
    var saved' := if handles[k].Tagged? then saved - {handles[k].tag} else saved;
    forall j | 0 <= j < k
      ensures LeadsTo(handles[j], layer[j], l, saved')
    {
      assert LeadsTo(handles[j], layer[j], l, saved);
    }
    forall tag | tag in saved' && tag.group == l
      ensures exists j | 0 <= j < k :: handles[j] == Tagged(tag)
    {
      var j :| 0 <= j < k + 1 && handles[j] == Tagged(tag);
    }
  }

  /** The handles of the layers below n lead to their tensors, and to all that is saved. */
  ghost predicate AllHandles(handles: seq<seq<Handle>>, layers: seq<seq<Activation>>, n: int, saved: map<Tag, Tensor>) {
    && 0 <= n <= |handles| && n <= |layers|
    && (forall l | 0 <= l < n ::
          |handles[l]| == |layers[l]| && Handles(handles[l], layers[l], |layers[l]|, l, saved)
          && OnlyThese(handles[l], |layers[l]|, l, saved))
    && (forall tag | tag in saved :: 0 <= tag.group < n)
  }

  lemma LayerAdded(handles: seq<seq<Handle>>, layers: seq<seq<Activation>>, saved: map<Tag, Tensor>,
                   more: seq<Handle>, saved': map<Tag, Tensor>)
    requires |handles| < |layers| && AllHandles(handles, layers, |handles|, saved)
    requires |more| == |layers[|handles|]| && Handles(more, layers[|handles|], |more|, |handles|, saved')
    requires OnlyThese(more, |more|, |handles|, saved') && SameElsewhere(saved, saved', |handles|)
    ensures AllHandles(handles + [more], layers, |handles| + 1, saved')
  {
    var n := |handles|;
    var all := handles + [more];
    forall l | 0 <= l < n
      ensures Handles(all[l], layers[l], |layers[l]|, l, saved') && OnlyThese(all[l], |layers[l]|, l, saved')
    {
      LayerKept(all[l], layers[l], l, saved, saved', n);
    }
  }

  lemma LayerKept(handles: seq<Handle>, layer: seq<Activation>, l: int, saved: map<Tag, Tensor>, saved': map<Tag, Tensor>, other: int)
    requires l != other && SameElsewhere(saved, saved', other) && |handles| == |layer|
    requires Handles(handles, layer, |layer|, l, saved) && OnlyThese(handles, |layer|, l, saved)
    ensures Handles(handles, layer, |layer|, l, saved') && OnlyThese(handles, |layer|, l, saved')
  {
    forall k | 0 <= k < |layer|
      ensures LeadsTo(handles[k], layer[k], l, saved')
    {
      assert LeadsTo(handles[k], layer[k], l, saved);
    }
  }

  lemma LayerRemoved(handles: seq<seq<Handle>>, layers: seq<seq<Activation>>, n: int, saved: map<Tag, Tensor>, saved': map<Tag, Tensor>)
    requires 0 < n && AllHandles(handles, layers, n, saved)
    requires SameElsewhere(saved, saved', n - 1) && forall tag | tag in saved' :: tag.group < n - 1
    ensures AllHandles(handles, layers, n - 1, saved')
  {
    forall l | 0 <= l < n - 1
      ensures Handles(handles[l], layers[l], |layers[l]|, l, saved') && OnlyThese(handles[l], |layers[l]|, l, saved')
    {
      LayerKept(handles[l], layers[l], l, saved, saved', n - 1);
    }
    assert forall tag | tag in saved' :: tag in saved;
  }

  lemma NothingSaved(s: State, m: Model, layers: seq<seq<Activation>>)
    requires Inv(s, m) && AtStart(m)
    ensures AllHandles([], layers, 0, m.saved)
  {
  }

  /** One training step: whatever each layer saves in the forward pass, the backward pass gets
      back, and the handler is ready for the next step. */
  method TrainStep(handler: AsyncDoubleBufferGroupOffloadHandler, layers: seq<seq<Activation>>, ghost m: Model)
    returns (restored: seq<seq<Tensor>>, ghost m': Model)
    requires handler.Valid() && Inv(handler.View(), m) && AtStart(m)
    requires |layers| == handler.numLayers
    requires forall l | 0 <= l < |layers| :: LayerOk(layers[l], l < Shared(handler.numOffloadGroup, |layers|))
    modifies handler
    ensures handler.Valid() && Inv(handler.View(), m') && AtStart(m') && m'.steps == m.steps + 1
    ensures |restored| == |layers|
    ensures forall l | 0 <= l < |layers| :: |restored[l]| == |layers[l]|
    ensures forall l, k | 0 <= l < |layers| && 0 <= k < |layers[l]| ::
              restored[l][k].shape == layers[l][k].t.shape && restored[l][k].data == layers[l][k].t.data
  {
    hide Inv, Tags, Ready, LayerOk, Handles, OnlyThese, SameElsewhere, AllHandles;
    m' := m;
    ReadyAtStart(m);
    var handles: seq<seq<Handle>> := [];
    NothingSaved(handler.View(), m, layers);
    BoundsOf(handler.View(), m);
    for l := 0 to |layers|
      invariant handler.Valid() && Inv(handler.View(), m') && Ready(m') && |handles| == l
      invariant m'.layer == l && m'.count == 0 && m'.backward == (l == |layers|) && m'.steps == m.steps
      invariant AllHandles(handles, layers, l, m'.saved)
    {
      Below(handles, layers, l, m'.saved);
      BoundsOf(handler.View(), m');
      var more;
      ghost var after;
      more, after := ForwardLayer(handler, layers[l], m');
      LayerAdded(handles, layers, m'.saved, more, after.saved);
      handles, m' := handles + [more], after;
    }
    restored := [];
    var l := |layers|;
    while l > 0
      invariant 0 <= l <= |layers| && |restored| == |layers| - l
      invariant handler.Valid() && Inv(handler.View(), m') && Ready(m')
      invariant m'.layer == l && m'.backward && m'.steps == m.steps
      invariant |handles| == |layers| && AllHandles(handles, layers, l, m'.saved)
      invariant forall i | l <= i < |layers| :: |restored[i - l]| == |layers[i]|
      invariant forall i, k | l <= i < |layers| && 0 <= k < |layers[i]| ::
                  restored[i - l][k].shape == layers[i][k].t.shape && restored[i - l][k].data == layers[i][k].t.data
    {
      Below(handles, layers, l, m'.saved);
      l := l - 1;
      var tensors;
      ghost var after;
      tensors, after := BackwardLayer(handler, handles[l], layers[l], m');
      LayerRemoved(handles, layers, l + 1, m'.saved, after.saved);
      restored, m' := [tensors] + restored, after;
    }
    Below(handles, layers, 0, m'.saved);
    EndStepSafe(handler.View(), m');
    StartAgain(handler.View(), m');
    m' := ModelStep(m', handler.numLayers, EndStep).0;
  }

  lemma Below(handles: seq<seq<Handle>>, layers: seq<seq<Activation>>, n: int, saved: map<Tag, Tensor>)
    requires AllHandles(handles, layers, n, saved)
    ensures forall tag | tag in saved :: 0 <= tag.group < n
    ensures n == 0 ==> saved == map[]
    ensures 0 < n ==> |handles[n - 1]| == |layers[n - 1]|
                      && Handles(handles[n - 1], layers[n - 1], |layers[n - 1]|, n - 1, saved)
                      && OnlyThese(handles[n - 1], |layers[n - 1]|, n - 1, saved)
  {
    if n == 0 {
      assert forall tag :: tag !in saved;
    }
  }

  lemma ReadyAtStart(m: Model)
    requires AtStart(m)
    ensures Ready(m)
  {
  }

  lemma StartAgain(s: State, m: Model)
    requires Inv(s, m) && m.backward && m.layer == 0 && m.saved == map[]
    ensures AtStart(ModelStep(m, s.layers, EndStep).0)
  {
    hide SafeLog, Awaited, Hollow, Counted, Buffers, Gone, Stored, Pristine, FiledFirst, WindowOk;
  }

  ghost predicate SameContents(restored: seq<seq<Tensor>>, layers: seq<seq<Activation>>) {
    && |restored| == |layers|
    && (forall l | 0 <= l < |layers| :: |restored[l]| == |layers[l]|)
    && forall l, k | 0 <= l < |layers| && 0 <= k < |layers[l]| ::
         restored[l][k].shape == layers[l][k].t.shape && restored[l][k].data == layers[l][k].t.data
  }

  /** A new handler serves any number of steps; between them it is as it was when it was made. */
  method Train(groups: nat, layers: nat, steps: seq<seq<seq<Activation>>>) returns (restored: seq<seq<seq<Tensor>>>)
    requires 1 <= groups <= layers
    requires forall i | 0 <= i < |steps| :: |steps[i]| == layers
    requires forall i, l | 0 <= i < |steps| && 0 <= l < layers :: LayerOk(steps[i][l], l < Shared(groups, layers))
    ensures |restored| == |steps|
    ensures forall i | 0 <= i < |steps| :: SameContents(restored[i], steps[i])
  {
    hide Inv, LayerOk;
    var handler := new AsyncDoubleBufferGroupOffloadHandler(groups, layers);
    WindowIsOk(layers, groups, handler.layerWindowMap);
    InitialInv(layers, groups, handler.layerWindowMap);
    ghost var m := Start(groups, layers);
    restored := [];
    for i := 0 to |steps|
      invariant handler.Valid() && Inv(handler.View(), m) && AtStart(m) && m.steps == i
      invariant handler.numLayers == layers && handler.numOffloadGroup == groups && |restored| == i
      invariant forall k | 0 <= k < i :: SameContents(restored[k], steps[k])
    {
      var tensors;
      tensors, m := TrainStep(handler, steps[i], m);
      restored := restored + [tensors];
    }
    AtRest(handler.View(), m);
  }
}
