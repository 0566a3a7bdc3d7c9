/** The handler as the object it is: fields updated in place by every push, pop and commit. */
module OffloadHandler {
  import opened Options
  import opened OffloadWindow
  import opened OffloadStreams
  import opened OffloadModel

  ghost predicate NoDuplicates(order: seq<Tag>) {
    forall i, j | 0 <= i < j < |order| :: order[i] != order[j]
  }

  lemma {:induction false} WithoutDistinct(order: seq<Tag>, tag: Tag)
    requires NoDuplicates(order)
    ensures NoDuplicates(Without(order, tag))
  {
    if order != [] {
      var rest := Without(order[1..], tag);
      WithoutDistinct(order[1..], tag);
      assert order[0] !in rest;
      assert forall i | 0 <= i < |rest| :: rest[i] in rest;
    }
  }

  /** The flat contents a mapping from keys to tensors stands for once copied. */
  ghost function DataOf(mapping: map<Key, Tensor>): map<Key, seq<int>> {
    map key | key in mapping :: mapping[key].data
  }

  lemma CopiesNext(order: seq<Tag>, i: int, slots: map<Tag, Slot>, group: int, mapping: map<Key, Tensor>)
    requires 0 <= i < |order| && order[i] in slots
    requires DataOf(mapping) == Copies(order[..i], slots, group)
    ensures var slot := slots[order[i]];
            DataOf(if order[i].group != group || slot.Evicted? || slot.t.key in mapping then mapping
                   else mapping[slot.t.key := slot.t]) == Copies(order[..i + 1], slots, group)
  {
    assert order[..i + 1][..i] == order[..i];
    assert forall key :: key in mapping <==> key in DataOf(mapping);
  }

  lemma CopiesNone(order: seq<Tag>, slots: map<Tag, Slot>, group: int)
    ensures DataOf(map[]) == Copies(order[..0], slots, group)
    ensures Copies(order[..|order|], slots, group) == Copies(order, slots, group)
  {
    assert order[..|order|] == order;
  }

  class AsyncDoubleBufferGroupOffloadHandler {
    const numOffloadGroup: nat
    const numLayers: nat
    const layerWindowMap: map<int, int>
    var currentGroup: int
    var tensorCountCurrentGroup: int
    var tensorTagOrder: seq<Tag>  // insertion order of tensorTagToState
    var tensorTagToState: map<Tag, Slot>
    var tensorTagToBuf: map<Tag, Option<Tensor>>
    var offloadedGroupCount: int
    var groupOffloadMapping: map<int, map<Key, seq<int>>>
    ghost var log: seq<Op>

    ghost function View(): State
      reads this
    {
      State(numOffloadGroup, numLayers, layerWindowMap, currentGroup, tensorCountCurrentGroup,
            tensorTagOrder, tensorTagToState, tensorTagToBuf, offloadedGroupCount, groupOffloadMapping, log)
    }

    /** The order lists each key of the dictionary once. */
    ghost predicate Valid()
      reads this
    {
      && NoDuplicates(tensorTagOrder)
      && forall tag :: tag in tensorTagOrder <==> tag in tensorTagToState
    }

    constructor (groups: nat, layers: nat)
      ensures Valid()
      ensures View() == Initial(groups, layers, layerWindowMap)
      ensures forall i :: i in layerWindowMap <==> 0 <= i < groups
      ensures forall i | 0 <= i < groups :: layerWindowMap[i] == Window(layers, groups, i)
    {
      numOffloadGroup, numLayers := groups, layers;
      var window := BuildWindowMap(layers, groups);
      layerWindowMap := window;
      currentGroup, tensorCountCurrentGroup := 0, 0;
      tensorTagOrder, tensorTagToState, tensorTagToBuf := [], map[], map[];
      offloadedGroupCount, groupOffloadMapping := 0, map[];
      log := [];
    }

    method TensorPush(t: Tensor, offloadable: bool) returns (h: Handle)
      requires Valid() && Push(View(), t, offloadable).Some?
      modifies this
      ensures Valid() && Some((View(), h)) == Push(old(View()), t, offloadable)
    {
      if offloadable {
        var tag := Tag(currentGroup, tensorCountCurrentGroup);
        tensorCountCurrentGroup := tensorCountCurrentGroup + 1;
        assert tag !in tensorTagToState;
        tensorTagOrder := tensorTagOrder + [tag];
        tensorTagToState := tensorTagToState[tag := Resident(t)];
        if currentGroup < numOffloadGroup {
          tensorTagToBuf := tensorTagToBuf[tag := Some(t)];
        }
        log := log + [Produce(currentGroup)];
        h := Tagged(tag);
      } else {
        h := Direct(t);
      }
    }

    method TensorPop(h: Handle) returns (t: Tensor)
      requires Valid() && Pop(View(), h).Some?
      modifies this
      ensures Valid() && Some((View(), t)) == Pop(old(View()), h)
    {
      if h.Direct? {
        return h.t;
      }
      assert h.tag in tensorTagToState;
      var state := tensorTagToState[h.tag];
      WithoutDistinct(tensorTagOrder, h.tag);
      tensorTagOrder := Without(tensorTagOrder, h.tag);
      tensorTagToState := tensorTagToState - {h.tag};
      tensorTagToBuf := tensorTagToBuf - {h.tag};
      log := log + [Use(h.tag.group)];
      assert state.Resident?;
      t := state.t;
    }

    method BulkOffloadGroup(group: int)
      requires Valid() && BulkOffload(View(), group).Some?
      modifies this`tensorTagToState, this`groupOffloadMapping, this`log
      ensures Valid() && Some(View()) == BulkOffload(old(View()), group)
    {
      hide Copies, EvictGroup, DataOf;
      var mapping := LabelGroup(group);
      var copies := CopyToHost(mapping);
      groupOffloadMapping := groupOffloadMapping[group := copies];
      log := log + [CopyOut(group, copies.Keys)];
    }

    /** The pass over the dictionary: tensors of the group are replaced by their key and shape,
        and the first tensor of each key is kept for copying. */
    method LabelGroup(group: int) returns (mapping: map<Key, Tensor>)
      requires Valid() && AllResident(tensorTagToState, group)
      modifies this`tensorTagToState
      ensures Valid() && tensorTagToState == EvictGroup(old(tensorTagToState), group)
      ensures DataOf(mapping) == Copies(tensorTagOrder, old(tensorTagToState), group)
    {
      hide Copies, DataOf;
      ghost var before := tensorTagToState;
      CopiesNone(tensorTagOrder, before, group);
      mapping := map[];
      for i := 0 to |tensorTagOrder|
        invariant tensorTagToState.Keys == before.Keys
        invariant forall k | 0 <= k < |tensorTagOrder| ::
                    tensorTagToState[tensorTagOrder[k]] ==
                    if k < i && tensorTagOrder[k].group == group then Evict(before[tensorTagOrder[k]])
                    else before[tensorTagOrder[k]]
        invariant DataOf(mapping) == Copies(tensorTagOrder[..i], before, group)
      {
        var tag := tensorTagOrder[i];
        CopiesNext(tensorTagOrder, i, before, group, mapping);
        if tag.group == group {
          var state := tensorTagToState[tag];
          assert state.Resident?;
          if state.t.key !in mapping {
            mapping := mapping[state.t.key := state.t];
          }
          tensorTagToState := tensorTagToState[tag := Evicted(state.t.key, state.t.shape)];
        }
      }
      forall tag | tag in before
        ensures tensorTagToState[tag] == EvictGroup(before, group)[tag]
      {
        var k :| 0 <= k < |tensorTagOrder| && tensorTagOrder[k] == tag;
      }
    }

    /** The device-to-host copies, one per key. */
    static method CopyToHost(mapping: map<Key, Tensor>) returns (copies: map<Key, seq<int>>)
      ensures copies == DataOf(mapping)
    {
      copies := map[];
      var keys := mapping.Keys;
      while keys != {}
        invariant keys <= mapping.Keys
        invariant copies == map key | key in mapping && key !in keys :: mapping[key].data
      {
        var key :| key in keys;
        copies := copies[key := mapping[key].data];
        keys := keys - {key};
      }
    }

    method SynchronizeOnGroupCommitForward(group: int)
      requires Valid() && group == currentGroup
      requires Kickstart(View()).Some? && AdvanceOffload(Kickstart(View()).value).Some?
      modifies this
      ensures Valid() && Some(View()) == AdvanceOffload(Kickstart(old(View())).value)
    {
      hide BulkOffload, AdvanceOffload;
      if group == 0 {
        log := log + [Wait(D2H, Compute)];
        BulkOffloadGroup(group);
      }
      EndWindow(group);
    }

    /** If the running copy's window ends here: waits, release, next copy. */
    method EndWindow(group: int)
      requires Valid() && group == currentGroup && AdvanceOffload(View()).Some?
      modifies this
      ensures Valid() && Some(View()) == AdvanceOffload(old(View()))
    {
      hide BulkOffload;
      if layerWindowMap[offloadedGroupCount] == group {
        log := log + [Wait(D2H, Compute)];
        log := log + [Wait(Compute, D2H)];
        ReleaseBuffers();
        if offloadedGroupCount < numOffloadGroup - 1 {
          BulkOffloadGroup(offloadedGroupCount + 1);
        }
        offloadedGroupCount := offloadedGroupCount + 1;
      }
    }

    /** Drops the device references of the group whose copy has been awaited. */
    method ReleaseBuffers()
      requires Valid()
      modifies this`tensorTagToBuf, this`log
      ensures Valid()
      ensures View() == old(View()).(buffers := ReleaseGroup(old(tensorTagToBuf), offloadedGroupCount),
                                     log := old(log) + [Release(offloadedGroupCount)])
    {
      tensorTagToBuf := map tag | tag in tensorTagToBuf ::
        if tag.group == offloadedGroupCount then None else tensorTagToBuf[tag];
      log := log + [Release(offloadedGroupCount)];
    }

    method OnGroupCommitForward()
      requires Valid() && CommitForward(View()).Some?
      modifies this
      ensures Valid() && Some(View()) == CommitForward(old(View()))
    {
      hide Kickstart, AdvanceOffload;
      SynchronizeOnGroupCommitForward(currentGroup);
      currentGroup := currentGroup + 1;
      tensorCountCurrentGroup := 0;
    }

    method BulkReloadGroup(group: int)
      requires Valid() && BulkReload(View(), group).Some?
      modifies this`tensorTagToState, this`groupOffloadMapping, this`log
      ensures Valid() && Some(View()) == BulkReload(old(View()), group)
    {
      hide RecoverGroup, AllRecoverable;
      assert group < numOffloadGroup;
      var mapping := groupOffloadMapping[group];
      groupOffloadMapping := groupOffloadMapping - {group};
      RecoverTensors(group, mapping);
      log := log + [CopyIn(group, mapping.Keys)];
    }

    /** The pass over the dictionary: labels of the group become tensors again. */
    method RecoverTensors(group: int, mapping: map<Key, seq<int>>)
      requires Valid() && AllRecoverable(tensorTagToState, group, mapping)
      modifies this`tensorTagToState
      ensures Valid() && tensorTagToState == RecoverGroup(old(tensorTagToState), group, mapping)
    {
      ghost var before := tensorTagToState;
      for i := 0 to |tensorTagOrder|
        invariant tensorTagToState.Keys == before.Keys
        invariant forall k | 0 <= k < |tensorTagOrder| ::
                    tensorTagToState[tensorTagOrder[k]] ==
                    if k < i && tensorTagOrder[k].group == group then Recover(before[tensorTagOrder[k]], mapping)
                    else before[tensorTagOrder[k]]
      {
        var tag := tensorTagOrder[i];
        var state := tensorTagToState[tag];
        if tag.group == group && state.Evicted? {
          assert Recoverable(before[tag], mapping);
          tensorTagToState :=
            tensorTagToState[tag := Resident(Tensor(state.key, state.shape, mapping[state.key]))];
        }
      }
      forall tag | tag in before
        ensures tensorTagToState[tag] == RecoverGroup(before, group, mapping)[tag]
      {
        var k :| 0 <= k < |tensorTagOrder| && tensorTagOrder[k] == tag;
      }
    }

    method OnGroupCommitBackward()
      requires Valid() && CommitBackward(View()).Some?
      modifies this
      ensures Valid() && Some(View()) == CommitBackward(old(View()))
    {
      hide BulkReload;
      currentGroup := currentGroup - 1;
      assert currentGroup >= 0;
      if layerWindowMap[offloadedGroupCount - 1] == currentGroup {
        log := log + [Wait(H2D, Compute)];
        log := log + [Wait(Compute, H2D)];
        BulkReloadGroup(offloadedGroupCount - 1);
        offloadedGroupCount := offloadedGroupCount - (if offloadedGroupCount > 1 then 1 else 0);
      }
      if currentGroup == 0 {
        log := log + [Wait(Compute, H2D)];
        offloadedGroupCount := 0;
      }
    }
  }
}
