/** The asynchronous activation offload handler
    (verl/utils/activation_offload.py, lines 143-170 and 221-395). */
module OffloadHandler {
  import opened Basics
  import opened OffloadWindow
  import opened Streams
  import opened StreamOrder
  import opened OffloadTables

  class AsyncHandler {
    const numOffloadGroup: int
    const numLayers: int
    const layerWindowMap: map<int, int>

    var currentGroup: int
    var tensorCountCurrentGroup: nat
    var offloadedGroupCount: int
    var tensorTagToState: map<Tag, State>
    var tensorTagToBuf: map<Tag, Option<Tensor>>
    var groupOffloadMapping: map<int, Backup>

    ghost var saved: map<Tag, Tensor>  // what is to be given back for the tags pushed and not popped yet
    ghost var backward: bool           // between the last forward commit and the next round
    ghost var freed: nat               // the schedule has passed the groups below this one
    ghost var present: set<nat>        // groups with a host copy in this round
    ghost var round: nat
    ghost var log: Log

    /** How many groups the schedule really takes to the host. */
    ghost function Host(): int
      reads this
    {
      Hosted(numOffloadGroup, numLayers)
    }

    /** The number of groups whose host copy was started in this round's forward pass. */
    ghost function Copied(): nat
      reads this
    {
      if backward then (if numOffloadGroup >= 0 then numOffloadGroup else 0)
      else if currentGroup <= 0 then 0
      else if freed + 1 <= numOffloadGroup then freed + 1 else freed
    }

    ghost predicate Counters()
      reads this
    {
      && 1 <= numOffloadGroup <= numLayers
      && layerWindowMap == (map i | 0 <= i < numOffloadGroup :: Window(numOffloadGroup, numLayers, i))
      && 0 <= currentGroup <= numLayers
      && Freed(numOffloadGroup, numLayers, currentGroup, freed)
      && offloadedGroupCount == (if !backward then freed
                                 else if currentGroup == 0 then 0
                                 else if freed == 0 then 1 else freed)
      && (backward ==> tensorCountCurrentGroup == 0)
      && AllBelow(present, Min(Copied(), Host()))
      && TagsOk(saved, Host(), currentGroup, backward, tensorCountCurrentGroup,
                if backward then Min(freed, Host()) else Host())
    }

    ghost predicate Entries()
      reads this
    {
      EntriesOk(saved, tensorTagToState, tensorTagToBuf, groupOffloadMapping, present, numOffloadGroup, Host(),
                if backward then freed else Copied(), if backward then numOffloadGroup else freed, backward)
    }

    ghost predicate Logged()
      reads this
      requires Counters()
    {
      RoundLog(log, round, present, if backward then numOffloadGroup else freed,
               if backward then numOffloadGroup else freed,
               if backward then freed else numOffloadGroup,
               if !backward then numOffloadGroup else if currentGroup == 0 then 0 else freed + 1)
    }

    ghost predicate Valid()
      reads this
    {
      Counters() && Entries() && Logged()
    }

    /** The state the constructor leaves, the log aside. */
    ghost predicate Initial()
      reads this
    {
      && currentGroup == 0 && tensorCountCurrentGroup == 0 && offloadedGroupCount == 0
      && tensorTagToState == map[] && tensorTagToBuf == map[] && groupOffloadMapping == map[]
    }

    constructor (G: int, L: int)
      requires 1 <= G <= L
      ensures Valid() && Initial() && !backward && saved == map[]
      ensures numOffloadGroup == G && numLayers == L
    {
      var window := BuildWindowMap(G, L);
      numOffloadGroup, numLayers, layerWindowMap := G, L, window;
      currentGroup, tensorCountCurrentGroup, offloadedGroupCount := 0, 0, 0;
      tensorTagToState, tensorTagToBuf, groupOffloadMapping := map[], map[], map[];
      saved, backward, freed, present, round, log := map[], false, 0, {}, 0, [];
      new;
      NothingFreed(G, L);
    }

    /** A pushed tensor gets a fresh tag of the current group, unless it is to stay as it is.
        `back` is what the handler will give back for it: in a group that goes to the host,
        the contents of the first tensor with the same key. */
    method TensorPush(t: Tensor, ghost back: Tensor) returns (r: Saved)
      requires Valid() && !backward && currentGroup < numLayers
      requires WellFormed(t)
      requires t.offloadable ==>
        if currentGroup < Host() then GivesBack(saved, currentGroup, t, back) else back == t
      modifies this`tensorCountCurrentGroup, this`tensorTagToState, this`tensorTagToBuf, this`saved, this`log
      ensures Valid()
      ensures !t.offloadable ==> r == Direct(t) && saved == old(saved)
      ensures t.offloadable ==>
                && r.Tagged? && r.tag !in old(saved) && saved == old(saved)[r.tag := back]
                && r.tag == Tag(currentGroup, old(tensorCountCurrentGroup))
                && tensorTagToState == old(tensorTagToState)[r.tag := OnDevice(t)]
      ensures tensorCountCurrentGroup == old(tensorCountCurrentGroup) + if t.offloadable then 1 else 0
      ensures log == old(log) + if t.offloadable then [Compute(round, currentGroup)] else []
    {
      hide Known, RoundLog, EntriesOk, TagsOk, Freed, Window, GivesBack, WellFormed, Hosted;
      if t.offloadable {
        var tag := Tag(currentGroup, tensorCountCurrentGroup);
        PushGroup(this);
        PushTags(saved, Host(), currentGroup, tensorCountCurrentGroup, t, back);
        PushEntries(saved, tensorTagToState, tensorTagToBuf, groupOffloadMapping, present, numOffloadGroup, Host(),
                    Copied(), freed, tag, t, back);
        AppendCompute(log, round, present, freed, freed, numOffloadGroup, numOffloadGroup, currentGroup);
        tensorCountCurrentGroup := tensorCountCurrentGroup + 1;
        assert tag !in tensorTagToState;
        tensorTagToState := tensorTagToState[tag := OnDevice(t)];
        if currentGroup < numOffloadGroup {
          tensorTagToBuf := tensorTagToBuf[tag := Some(t)];
        }
        saved := saved[tag := back];
        log := log + [Compute(round, currentGroup)];
        r := Tagged(tag);
      } else {
        r := Direct(t);
      }
    }

    method TensorPop(s: Saved) returns (t: Tensor)
      requires Valid() && backward
      requires s.Tagged? ==> s.tag in saved && s.tag.group == currentGroup
      modifies this`tensorTagToState, this`tensorTagToBuf, this`saved, this`log
      ensures Valid()
      ensures s.Direct? ==> t == s.tensor && saved == old(saved)
      ensures s.Tagged? ==> SameValue(t, old(saved)[s.tag]) && saved == old(saved) - {s.tag}
      ensures log == old(log) + if s.Tagged? then [Use(round, currentGroup)] else []
    {
      hide Known, RoundLog, EntriesOk, TagsOk, Freed, Window, WellFormed, Hosted;
      if s.Direct? {
        return s.tensor;
      }
      PopGroup(this);
      PopTags(saved, Host(), currentGroup, Min(freed, Host()), s.tag);
      PopEntries(saved, tensorTagToState, tensorTagToBuf, groupOffloadMapping, present, numOffloadGroup, Host(),
                 freed, numOffloadGroup, s.tag);
      AppendUse(log, round, present, numOffloadGroup, numOffloadGroup, freed,
                if currentGroup == 0 then 0 else freed + 1, s.tag.group);
      assert s.tag in tensorTagToState;
      var state := tensorTagToState[s.tag];
      tensorTagToState := tensorTagToState - {s.tag};
      tensorTagToBuf := tensorTagToBuf - {s.tag};
      saved := saved - {s.tag};
      assert !state.OnHost?;
      log := log + [Use(round, s.tag.group)];
      t := state.tensor;
    }

    /** Copies one whole group to the host, one copy per distinct key in the order of the
        pushes, and leaves (key, shape) handles behind. */
    method BulkOffloadGroup(g: nat)
      requires tensorTagToState.Keys == saved.Keys
      requires forall tag :: tag in saved && tag.group == g ==>
                 && tensorTagToState[tag].OnDevice? && Stands(saved, tag, tensorTagToState[tag].tensor)
                 && Agrees(saved, g, saved[tag])
      modifies this`tensorTagToState, this`groupOffloadMapping
      ensures tensorTagToState.Keys == saved.Keys
      ensures forall tag :: tag in saved ==>
                tensorTagToState[tag] == if tag.group == g then OnHost(saved[tag].key, saved[tag].shape)
                                         else old(tensorTagToState)[tag]
      ensures g in groupOffloadMapping && BacksUp(saved, g, groupOffloadMapping[g])
      ensures groupOffloadMapping == old(groupOffloadMapping)[g := groupOffloadMapping[g]]
    {
      var first: map<Key, Tensor> := map[];
      var todo := tensorTagToState.Keys;
      ghost var before := tensorTagToState;
      assert FirstOf(saved, g, todo, first) && Handing(saved, g, todo, before, tensorTagToState);
      hide FirstOf, IsNext, Agrees, IsFirst, Handing;
      while todo != {}
        modifies this`tensorTagToState
        invariant todo <= saved.Keys == before.Keys
        invariant Handing(saved, g, todo, before, tensorTagToState) && FirstOf(saved, g, todo, first)
        decreases todo
      {
        ghost var any :| any in todo;
        SomeNext(todo, any);
        var tag :| tag in todo && IsNext(todo, tag);
        HandNext(saved, g, todo, before, tensorTagToState, tag);
        var state := tensorTagToState[tag];
        if tag.group == g {
          assert !state.OnHost?;
          if state.tensor.key !in first {
            VisitFirst(saved, g, todo, first, tag, state.tensor);
            first := first[state.tensor.key := state.tensor];
          } else {
            VisitSeen(saved, g, todo, first, tag);
          }
          tensorTagToState := tensorTagToState[tag := OnHost(state.tensor.key, state.tensor.shape)];
        } else {
          VisitSeen(saved, g, todo, first, tag);
        }
        todo := todo - {tag};
      }
      HandedOver(saved, g, before, tensorTagToState);
      var backup := CopyAll(first);
      FirstBacksUp(saved, g, first, backup);
      hide BacksUp;
      groupOffloadMapping := groupOffloadMapping[g := backup];
    }

    /** Brings one whole group back; each handle becomes a view of the reloaded copy. It fails
        exactly when a copy does not have the size of a view. */
    method BulkReloadGroup(g: nat) returns (ok: bool)
      requires g < numOffloadGroup && g in groupOffloadMapping
      requires tensorTagToState.Keys == saved.Keys
      requires forall tag :: tag in saved && tag.group == g ==>
                 Reloadable(saved, tag, tensorTagToState[tag], groupOffloadMapping[g])
      modifies this`tensorTagToState, this`groupOffloadMapping
      ensures ok <==> forall tag :: tag in saved && tag.group == g && old(tensorTagToState)[tag].OnHost? ==>
                        WellFormed(saved[tag])
      ensures tensorTagToState.Keys == saved.Keys
      ensures ok ==> forall tag :: tag in saved && tag.group == g ==>
                tensorTagToState[tag].OnDevice? && SameValue(tensorTagToState[tag].tensor, saved[tag])
      ensures forall tag :: tag in saved && tag.group != g ==> tensorTagToState[tag] == old(tensorTagToState)[tag]
      ensures groupOffloadMapping == old(groupOffloadMapping) - {g}
    {
      var copies := groupOffloadMapping[g];
      groupOffloadMapping := groupOffloadMapping - {g};
      var todo := tensorTagToState.Keys;
      hide WellFormed;
      while todo != {}
        modifies this`tensorTagToState
        invariant todo <= saved.Keys == tensorTagToState.Keys
        invariant forall tag :: tag in saved && (tag in todo || tag.group != g) ==>
                    tensorTagToState[tag] == old(tensorTagToState)[tag]
        invariant forall tag :: tag in saved && tag !in todo && tag.group == g ==>
                    && tensorTagToState[tag].OnDevice? && SameValue(tensorTagToState[tag].tensor, saved[tag])
                    && (old(tensorTagToState)[tag].OnHost? ==> WellFormed(saved[tag]))
        decreases todo
      {
        var tag :| tag in todo;
        todo := todo - {tag};
        var state := tensorTagToState[tag];
        if tag.group == g && !state.OnDevice? {
          var address: int := *;
          var recovered := Tensor(Key(address, state.key.dtype), state.shape, copies[state.key], true);
          SameFit(recovered, saved[tag]);
          if !WellFormed(recovered) { return false; }
          tensorTagToState := tensorTagToState[tag := OnDevice(recovered)];
        }
      }
      ok := true;
    }

    /** Gives back the device buffers of one group (lines 336-338). */
    method DropBuffers(g: int)
      modifies this`tensorTagToBuf
      ensures tensorTagToBuf.Keys == old(tensorTagToBuf).Keys
      ensures forall tag :: tag in tensorTagToBuf ==>
                tensorTagToBuf[tag] == if tag.group == g then None else old(tensorTagToBuf)[tag]
    {
      var todo := tensorTagToBuf.Keys;
      while todo != {}
        invariant todo <= tensorTagToBuf.Keys == old(tensorTagToBuf).Keys
        invariant forall tag :: tag in tensorTagToBuf ==>
                    tensorTagToBuf[tag] == if tag.group == g && tag !in todo then None else old(tensorTagToBuf)[tag]
        decreases todo
      {
        var tag :| tag in todo;
        todo := todo - {tag};
        if tag.group == g {
          tensorTagToBuf := tensorTagToBuf[tag := None];
        }
      }
    }

    method OnGroupCommitForward()
      requires Valid() && !backward && currentGroup < numLayers
      modifies this
      ensures Valid() && !backward
      ensures currentGroup == old(currentGroup) + 1 && tensorCountCurrentGroup == 0
      ensures saved == old(saved) && round == old(round) && old(log) <= log
    {
      hide Known, Safe, Ordered, EntriesOk, TagsOk, Freed, Window, BacksUp, RoundLog, Hosted, AllBelow;
      FreedLag(numOffloadGroup, numLayers, currentGroup, freed);
      FreedStep(numOffloadGroup, numLayers, currentGroup, freed);
      NextTags(saved, Host(), currentGroup, tensorCountCurrentGroup);
      SynchronizeOnGroupCommitForward(currentGroup);
      currentGroup := currentGroup + 1;
      tensorCountCurrentGroup := 0;
    }

    /** The groups copied so far once the current commit has freed `n`. */
    ghost function After(n: nat): nat
      reads this
    {
      if n < numOffloadGroup then n + 1 else n
    }

    /** Between the steps of a forward commit: copies of `copied` groups have been started. */
    ghost predicate Committing(copied: nat)
      reads this
    {
      && 1 <= numOffloadGroup <= numLayers && copied <= numOffloadGroup && freed <= numOffloadGroup
      && AllBelow(present, Min(copied, Host()))
      && TagsOk(saved, Host(), currentGroup, false, tensorCountCurrentGroup, Host())
      && EntriesOk(saved, tensorTagToState, tensorTagToBuf, groupOffloadMapping, present, numOffloadGroup, Host(),
                   copied, freed, false)
      && RoundLog(log, round, present, freed, freed, numOffloadGroup, numOffloadGroup)
    }

    /** At the first commit the first group starts to leave; at a commit of the table one
        group is freed and the next one starts to leave. */
    method SynchronizeOnGroupCommitForward(c: int)
      requires Valid() && !backward && c == currentGroup < numLayers
      requires freed < numOffloadGroup && freed <= c && (numOffloadGroup == numLayers ==> freed == c)
      modifies this`tensorTagToState, this`tensorTagToBuf, this`groupOffloadMapping, this`offloadedGroupCount,
        this`freed, this`present, this`log
      ensures freed == offloadedGroupCount ==
                old(freed) + if Window(numOffloadGroup, numLayers, old(freed)) == c then 1 else 0
      ensures Committing(After(freed)) && old(log) <= log
    {
      hide Known, Safe, Ordered, EntriesOk, TagsOk, Freed, Window, BacksUp, RoundLog, AllBelow;
      ghost var G := numOffloadGroup;
      if c == 0 {
        WaitForCompute(log, round, present, 0, 0, G, G);
        log := log + [Wait(D2H, Main)];
        OffloadGroup(0);
      }
      assert offloadedGroupCount in layerWindowMap;
      if layerWindowMap[offloadedGroupCount] == c {
        FreeGroupAndOffloadNext();
      }
    }

    method FreeGroupAndOffloadNext()
      requires 0 <= freed == offloadedGroupCount < numOffloadGroup && Committing(freed + 1)
      requires numOffloadGroup == numLayers ==> freed == currentGroup
      modifies this`tensorTagToState, this`tensorTagToBuf, this`groupOffloadMapping, this`offloadedGroupCount,
        this`freed, this`present, this`log
      ensures freed == offloadedGroupCount == old(freed) + 1
      ensures Committing(After(freed)) && old(log) <= log
    {
      hide Known, Safe, Ordered, EntriesOk, Freed, Window, BacksUp, RoundLog, AllBelow;
      FreeGroup();
      if offloadedGroupCount < numOffloadGroup - 1 {
        NextIsUntouched(this, offloadedGroupCount + 1);
        OffloadGroup(offloadedGroupCount + 1);
      }
      offloadedGroupCount := offloadedGroupCount + 1;
    }

    /** Both streams wait for each other, and the device buffers of a group go (lines 330-338). */
    method FreeGroup()
      requires 0 <= freed == offloadedGroupCount < numOffloadGroup && Committing(freed + 1)
      modifies this`tensorTagToBuf, this`freed, this`log
      ensures freed == old(freed) + 1 && Committing(freed) && ComputeSeenByD2H(log) && old(log) <= log
    {
      hide Known, Safe, Ordered, EntriesOk, TagsOk, Freed, Window, BacksUp, RoundLog, Hosted;
      ghost var n: nat, G, buf := freed, numOffloadGroup, tensorTagToBuf;
      WaitForCompute(log, round, present, n, n, G, G);
      log := log + [Wait(D2H, Main)];
      WaitForCopies(log, round, present, n, n, G, G, n + 1);
      log := log + [Wait(Main, D2H)];
      DropBuffers(offloadedGroupCount);
      DropEntries(saved, tensorTagToState, buf, tensorTagToBuf, groupOffloadMapping, present, G, Host(), n + 1, n);
      if n in present {
        AppendDrop(log, round, present, n + 1, n, G, G);
        log := log + [Drop(round, n)];
      } else {
        NothingToMove(log, round, present, n + 1, n, G, G);
      }
      freed := freed + 1;
    }

    /** Starts the copy of the next group. */
    method OffloadGroup(g: nat)
      requires g < numOffloadGroup && freed <= g && Committing(g) && ComputeSeenByD2H(log)
      requires g < Host() || forall tag :: tag in saved ==> tag.group != g
      modifies this`tensorTagToState, this`groupOffloadMapping, this`present, this`log
      ensures Committing(g + 1) && ComputeSeenByD2H(log) && old(log) <= log
    {
      hide Known, Safe, Ordered, EntriesOk, TagsOk, Freed, Window, BacksUp, RoundLog;
      ghost var G, state, mapping, before := numOffloadGroup, tensorTagToState, groupOffloadMapping, present;
      GroupOnDevice(saved, state, tensorTagToBuf, mapping, present, G, Host(), g, freed, g);
      GroupAgrees(saved, Host(), currentGroup, tensorCountCurrentGroup, g);
      BulkOffloadGroup(g);
      ghost var backup := groupOffloadMapping[g];
      OffloadEntries(saved, state, tensorTagToState, tensorTagToBuf, mapping, backup, before, G, Host(), g, freed);
      OffloadPresent(saved, backup, before, Host(), g);
      if backup != map[] {
        AppendCopyOut(log, round, before, freed, freed, G, G, g);
        log := log + [CopyOut(round, g)];
      }
      present := WithGroup(before, g, backup);
    }

    /** A backward commit brings back one group when its forward commit freed one. It fails
        exactly when some copy does not have the size of a view in that group. */
    method OnGroupCommitBackward() returns (ok: bool)
      requires Valid() && backward && 0 < currentGroup
      requires forall tag :: tag in saved ==> tag.group < currentGroup
      modifies this
      ensures ok ==> Valid() && backward
      ensures !ok ==> exists tag :: tag in saved && tag.group < Host() && !WellFormed(saved[tag])
      ensures currentGroup == old(currentGroup) - 1
      ensures saved == old(saved) && round == old(round) && old(log) <= log
    {
      hide Known, Safe, Ordered, EntriesOk, TagsOk, Freed, Window, BacksUp, RoundLog, CopiesSeenByH2D, WellFormed, Hosted,
        AllBelow;
      ghost var G := numOffloadGroup;
      PriorTags(saved, Host(), currentGroup, currentGroup - 1, Min(freed, Host()));
      FreedStepBack(G, numLayers, currentGroup - 1, freed, offloadedGroupCount);
      currentGroup := currentGroup - 1;
      assert currentGroup >= 0;
      FreedLag(G, numLayers, currentGroup,
               if Window(G, numLayers, offloadedGroupCount - 1) == currentGroup then freed - 1 else freed);
      assert offloadedGroupCount - 1 in layerWindowMap;
      if layerWindowMap[offloadedGroupCount - 1] == currentGroup {
        ok := ReloadNext();
        if !ok { return; }
        offloadedGroupCount := if offloadedGroupCount > 1 then offloadedGroupCount - 1 else offloadedGroupCount;
      }
      if currentGroup == 0 {
        WaitForReloads(log, round, present, G, G, freed, freed + 1);
        log := log + [Wait(Main, H2D)];
        offloadedGroupCount := 0;
      }
      ok := true;
    }

    /** Between the steps of a backward commit. */
    ghost predicate Reloading()
      reads this
    {
      && 1 <= numOffloadGroup <= numLayers && freed <= numOffloadGroup
      && AllBelow(present, Min(numOffloadGroup, Host()))
      && TagsOk(saved, Host(), currentGroup, true, 0, Min(freed, Host()))
      && EntriesOk(saved, tensorTagToState, tensorTagToBuf, groupOffloadMapping, present, numOffloadGroup, Host(),
                   freed, numOffloadGroup, true)
      && RoundLog(log, round, present, numOffloadGroup, numOffloadGroup, freed, freed + 1)
    }

    /** Both streams wait for each other, and the reload of a group with a copy is enqueued
        (lines 377-384). */
    ghost method LogReload(g: nat)
      requires 0 <= numOffloadGroup && AllBelow(present, numOffloadGroup)
      requires RoundLog(log, round, present, numOffloadGroup, numOffloadGroup, g + 1, g + 2)
      modifies this`log
      ensures RoundLog(log, round, present, numOffloadGroup, numOffloadGroup, g, g + 1) && old(log) <= log
    {
      hide Known, Safe, Ordered, RoundLog, CopiesSeenByH2D;
      var G := numOffloadGroup;
      WaitBeforeReload(log, round, present, G, G, g + 1, g + 2);
      log := log + [Wait(H2D, Main)];
      WaitForReloads(log, round, present, G, G, g + 1, g + 2);
      log := log + [Wait(Main, H2D)];
      if g in present {
        AppendReload(log, round, present, G, G, g + 1, g + 1);
        log := log + [Reload(round, g)];
      } else {
        NothingToMove(log, round, present, G, G, g + 1, g + 1);
      }
    }

    method ReloadNext() returns (ok: bool)
      requires 0 < offloadedGroupCount == freed && Reloading()
      modifies this`tensorTagToState, this`groupOffloadMapping, this`freed, this`log
      ensures freed == old(freed) - 1 && old(log) <= log
      ensures ok ==> Reloading()
      ensures !ok ==> exists tag :: tag in saved && tag.group < Host() && !WellFormed(saved[tag])
    {
      hide Known, Safe, Ordered, EntriesOk, TagsOk, Freed, Window, BacksUp, RoundLog, CopiesSeenByH2D, WellFormed,
        Reloadable, Hosted;
      ghost var G, state, mapping := numOffloadGroup, tensorTagToState, groupOffloadMapping;
      var g := offloadedGroupCount - 1;
      LogReload(g);
      GroupOnHost(saved, state, tensorTagToBuf, mapping, present, G, Host(), G, g);
      ok := BulkReloadGroup(g);
      freed := freed - 1;
      if ok {
        ReloadEntries(saved, state, tensorTagToState, tensorTagToBuf, mapping, present, G, Host(), g, G);
        if g < Host() { SizeTags(saved, Host(), currentGroup, g); }
      }
    }

    /** The end of the forward pass. */
    ghost method TurnAround()
      requires Valid() && !backward && currentGroup == numLayers && tensorCountCurrentGroup == 0
      modifies this`backward
      ensures Valid() && backward
    {
      hide Known, Safe, Ordered, EntriesOk, TagsOk, Freed, Window;
      FreedLag(numOffloadGroup, numLayers, currentGroup, freed);
      TurnEntries(saved, tensorTagToState, tensorTagToBuf, groupOffloadMapping, present, numOffloadGroup, Host(),
                  currentGroup, 0);
      backward := true;
    }

    /** The end of the backward pass: nothing is left over from the round. */
    ghost method FinishRound()
      requires Valid() && backward && currentGroup == 0 && saved == map[]
      modifies this`backward, this`round, this`present
      ensures Valid() && !backward && Initial()
      ensures round == old(round) + 1
    {
      hide Known, Safe, Ordered, EntriesOk, TagsOk, Freed, Window, RoundLog;
      FreedLag(numOffloadGroup, numLayers, currentGroup, freed);
      EmptyEntries(saved, tensorTagToState, tensorTagToBuf, groupOffloadMapping, present, numOffloadGroup, Host(),
                   numOffloadGroup, true);
      NextRound(log, round, present, numOffloadGroup, numOffloadGroup, freed, 0, numOffloadGroup);
      backward, round, present := false, round + 1, {};
    }

    /** The groups of which the handler keeps some tensor in device memory. */
    ghost function Resident(): set<nat>
      reads this
    {
      set tag | tag in tensorTagToState
                && (tensorTagToState[tag].OnDevice? || (tag in tensorTagToBuf && tensorTagToBuf[tag].Some?))
              :: tag.group
    }

    /** At every point of a run, exactly the groups from the first unfreed one up to the
        current one are resident, as far as they have tensors; a group that never went to
        the host stays resident. */
    lemma ResidentExactly()
      requires Valid()
      ensures Resident() == set tag | tag in saved && Min(freed, Host()) <= tag.group <= currentGroup :: tag.group
    {
      hide RoundLog, Known, EntriesOk, Freed, Window;
      forall tag | tag in saved
        ensures tag in tensorTagToState && tag.group <= currentGroup
        ensures (tensorTagToState[tag].OnDevice? || (tag in tensorTagToBuf && tensorTagToBuf[tag].Some?))
                <==> Min(freed, Host()) <= tag.group
      {
        TagResident(this, tag);
      }
      SameTags(this);
    }

    /** The docstring's claim, for the group count its caller passes. */
    lemma AtMostTwoResident()
      requires Valid() && numOffloadGroup == numLayers - 1
      ensures |Resident()| <= 2
    {
      hide RoundLog, Known, EntriesOk, TagsOk, Window, Freed;
      ResidentExactly();
      AtMostTwoIff(numOffloadGroup, numLayers);
      FreedLag(numOffloadGroup, numLayers, currentGroup, freed);
      var g: nat := currentGroup;
      if g == 0 {
        SubsetSize(Resident(), {0});
      } else {
        SubsetSize(Resident(), {g - 1, g});
      }
    }
  }

  lemma SameTags(h: AsyncHandler)
    requires h.Valid()
    ensures h.tensorTagToState.Keys == h.saved.Keys
  {
    hide RoundLog, Known, EntryOk, TagsOk, Freed;
  }

  lemma TagResident(h: AsyncHandler, tag: Tag)
    requires h.Valid() && tag in h.saved
    ensures tag in h.tensorTagToState && tag.group <= h.currentGroup
    ensures (h.tensorTagToState[tag].OnDevice? || (tag in h.tensorTagToBuf && h.tensorTagToBuf[tag].Some?))
            <==> Min(h.freed, h.Host()) <= tag.group
  {
    hide RoundLog, Known, Stands, Window, Handled, Agrees, AllBelow;
    FreedLag(h.numOffloadGroup, h.numLayers, h.currentGroup, h.freed);
    assert tag in h.tensorTagToState;
    var handles := if h.backward then h.freed else h.Copied();
    assert EntryOk(h.saved, h.groupOffloadMapping, h.Host(), Min(handles, h.Host()), h.backward, tag,
                   h.tensorTagToState[tag]);
    hide TagsOk, EntriesOk;
    if tag.group in h.groupOffloadMapping {
      HandledIsOnHost(h.saved, tag, h.tensorTagToState[tag], h.groupOffloadMapping[tag.group]);
    }
  }

  lemma HandledIsOnHost(saved: map<Tag, Tensor>, tag: Tag, s: State, backup: Backup)
    ensures Handled(saved, tag, s, backup) ==> s.OnHost?
  {
  }

  lemma NothingFreed(G: int, L: int)
    requires 1 <= G <= L
    ensures Freed(G, L, 0, 0) && Hosted(G, L) <= G
  {
    if G < L { WindowAfterOwnCommit(G, L); } else { WindowFull(L, 0); }
  }

  /** In the forward pass the current group has not been copied yet. */
  lemma PushGroup(h: AsyncHandler)
    requires h.Valid() && !h.backward && h.currentGroup < h.numLayers
    ensures 0 <= h.currentGroup && Min(h.Copied(), h.Host()) <= h.currentGroup && h.freed <= h.currentGroup
    ensures h.freed <= h.numOffloadGroup && h.currentGroup !in h.present
  {
    hide RoundLog, EntriesOk, TagsOk, Window;
    FreedLag(h.numOffloadGroup, h.numLayers, h.currentGroup, h.freed);
  }

  /** In the backward pass the current group has been brought back, and waited for. */
  lemma PopGroup(h: AsyncHandler)
    requires h.Valid() && h.backward
    ensures 0 <= h.currentGroup && Min(h.freed, h.Host()) <= h.currentGroup && h.freed <= h.numOffloadGroup
    ensures h.currentGroup !in h.present
            || (h.freed <= h.currentGroup && (if h.currentGroup == 0 then 0 else h.freed + 1) <= h.currentGroup)
  {
    hide RoundLog, EntriesOk, TagsOk, Window;
    FreedLag(h.numOffloadGroup, h.numLayers, h.currentGroup, h.freed);
  }

  /** With as many groups as layers, the next group has no tensors yet. */
  lemma NextIsUntouched(h: AsyncHandler, g: nat)
    requires TagsOk(h.saved, h.Host(), h.currentGroup, false, h.tensorCountCurrentGroup, h.Host())
    requires 1 <= h.numOffloadGroup <= h.numLayers && 0 < g < h.numOffloadGroup
    requires h.numOffloadGroup == h.numLayers ==> g == h.currentGroup + 1
    ensures g < h.Host() || forall tag :: tag in h.saved ==> tag.group != g
  {
  }

  lemma GroupAgrees(saved: map<Tag, Tensor>, H: int, current: int, count: nat, g: nat)
    requires TagsOk(saved, H, current, false, count, H)
    requires g < H || forall tag :: tag in saved ==> tag.group != g
    ensures forall tag :: tag in saved && tag.group == g ==> Agrees(saved, g, saved[tag])
  {
  }

  lemma SameFit(a: Tensor, b: Tensor)
    requires a.shape == b.shape && a.data == b.data
    ensures WellFormed(a) <==> WellFormed(b)
  {
  }

  lemma SubsetSize(a: set<nat>, b: set<nat>)
    requires a <= b
    ensures |a| <= |b|
  {
    if a != {} {
      var x :| x in a;
      SubsetSize(a - {x}, b - {x});
    }
  }
}
