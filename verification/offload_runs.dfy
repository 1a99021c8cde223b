/** Whole training runs over the activation offload handler
    (verl/utils/activation_offload.py, lines 221-395). */
module OffloadRuns {
  import opened Basics
  import opened OffloadWindow
  import opened Streams
  import opened StreamOrder
  import opened OffloadTables
  import opened OffloadHandler

  // ---------- what a layer's handles stand for ----------

  /** `handles` are what the pushes of layer `g` returned, and the handler is to
      give back exactly the tensors of `layer` for them. */
  ghost predicate LayerHeld(saved: map<Tag, Tensor>, g: int, handles: seq<Saved>, layer: seq<Tensor>) {
    && |handles| == |layer|
    && (forall j :: 0 <= j < |layer| ==>
          if layer[j].offloadable then
            && handles[j].Tagged? && handles[j].tag.group == g
            && handles[j].tag in saved && saved[handles[j].tag] == layer[j]
          else handles[j] == Direct(layer[j]))
    && (forall j, k :: 0 <= j < k < |layer| && handles[j].Tagged? ==> handles[j] != handles[k])
    && (forall tag :: tag in saved && tag.group == g ==> Tagged(tag) in handles)
  }

  ghost function Without(saved: map<Tag, Tensor>, g: int): map<Tag, Tensor> {
    map tag | tag in saved && tag.group != g :: saved[tag]
  }

  lemma HeldPush(saved: map<Tag, Tensor>, saved': map<Tag, Tensor>, g: int, handles: seq<Saved>, layer: seq<Tensor>,
                 t: Tensor, r: Saved)
    requires LayerHeld(saved, g, handles, layer)
    requires if t.offloadable then
               r.Tagged? && r.tag.group == g && r.tag !in saved && saved' == saved[r.tag := t]
             else r == Direct(t) && saved' == saved
    ensures LayerHeld(saved', g, handles + [r], layer + [t])
    ensures Without(saved', g) == Without(saved, g)
  {
    forall tag | tag in saved' && tag.group == g ensures Tagged(tag) in handles + [r] {
    }
  }

  /** What the consumers of layer `i` get, if the first `H` groups go to the host. */
  function BackLayer(layer: seq<Tensor>, hosted: bool): (back: seq<Tensor>)
    ensures |back| == |layer|
  {
    if hosted then ComesBack(layer) else layer
  }

  lemma {:induction false} FirstIsSelf(layer: seq<Tensor>, j: nat)
    requires j < |layer| && layer[j].offloadable && forall k :: 0 <= k < j ==> !SameKey(layer[k], layer[j])
    ensures FirstData(layer, layer[j]) == layer[j].data
  {
    if j > 0 {
      assert !SameKey(layer[0], layer[j]);
      assert forall k :: 0 <= k < j - 1 ==> layer[1..][k] == layer[k + 1];
      FirstIsSelf(layer[1..], j - 1);
    }
  }

  /** The handler's promise for the next tensor of a layer that goes to the host. */
  lemma HeldGives(saved: map<Tag, Tensor>, g: nat, handles: seq<Saved>, layer: seq<Tensor>, j: nat)
    requires j < |layer| && layer[j].offloadable
    requires LayerHeld(saved, g, handles, ComesBack(layer)[..j])
    ensures GivesBack(saved, g, layer[j], ComesBack(layer)[j])
  {
    var t, back := layer[j], ComesBack(layer)[j];
    forall tag | tag in saved && tag.group == g && saved[tag].key == t.key ensures saved[tag].data == back.data {
      assert Tagged(tag) in handles;
      var k :| 0 <= k < j && handles[k] == Tagged(tag);
      assert saved[tag] == ComesBack(layer)[k];
      FirstDataSame(layer, layer[k], t, k);
    }
    if forall tag :: tag in saved && tag.group == g ==> saved[tag].key != t.key {
      forall k | 0 <= k < j ensures !SameKey(layer[k], t) {
        if layer[k].offloadable { assert saved[handles[k].tag] == ComesBack(layer)[k]; }
      }
      FirstIsSelf(layer, j);
    }
  }

  lemma PushPromise(h: AsyncHandler, handles: seq<Saved>, layer: seq<Tensor>, j: nat)
    requires 0 <= h.currentGroup && j < |layer| && AllWellFormed(layer)
    requires LayerHeld(h.saved, h.currentGroup, handles, BackLayer(layer, h.currentGroup < h.Host())[..j])
    ensures var back := BackLayer(layer, h.currentGroup < h.Host())[j];
      && WellFormed(layer[j]) && back.offloadable == layer[j].offloadable
      && (layer[j].offloadable ==>
            if h.currentGroup < h.Host() then GivesBack(h.saved, h.currentGroup, layer[j], back) else back == layer[j])
      && (!layer[j].offloadable ==> back == layer[j])
  {
    hide LayerHeld, GivesBack;
    if layer[j].offloadable && h.currentGroup < h.Host() {
      HeldGives(h.saved, h.currentGroup, handles, layer, j);
    }
  }

  /** The pushes of one layer. */
  method PushLayer(h: AsyncHandler, layer: seq<Tensor>) returns (handles: seq<Saved>)
    requires h.Valid() && !h.backward && 0 <= h.currentGroup < h.numLayers && AllWellFormed(layer)
    requires forall tag :: tag in h.saved ==> tag.group < h.currentGroup
    modifies h
    ensures h.Valid() && !h.backward && h.currentGroup == old(h.currentGroup) && h.round == old(h.round)
    ensures LayerHeld(h.saved, h.currentGroup, handles, BackLayer(layer, h.currentGroup < h.Host()))
    ensures Without(h.saved, h.currentGroup) == old(h.saved)
  {
    hide AsyncHandler.Valid, LayerHeld, GivesBack, WellFormed, Without, AllWellFormed, BackLayer, Hosted;
    handles := [];
    ghost var g: nat, backs := h.currentGroup, BackLayer(layer, h.currentGroup < h.Host());
    HeldNothing(h.saved, g, backs[..0]);
    var j := 0;
    while j < |layer|
      invariant 0 <= j <= |layer| && backs == BackLayer(layer, g < h.Host())
      invariant h.Valid() && !h.backward && h.currentGroup == g && h.round == old(h.round)
      invariant LayerHeld(h.saved, g, handles, backs[..j])
      invariant Without(h.saved, g) == old(h.saved)
    {
      PushPromise(h, handles, layer, j);
      ghost var saved := h.saved;
      var r := h.TensorPush(layer[j], backs[j]);
      HeldPush(saved, h.saved, g, handles, backs[..j], backs[j], r);
      assert backs[..j] + [backs[j]] == backs[..j + 1];
      handles := handles + [r];
      j := j + 1;
    }
    assert backs[..j] == backs;
  }

  /** The forward pass of one layer. */
  method ForwardLayer(h: AsyncHandler, layer: seq<Tensor>) returns (handles: seq<Saved>)
    requires h.Valid() && !h.backward && h.currentGroup < h.numLayers && h.tensorCountCurrentGroup == 0
    requires AllWellFormed(layer) && forall tag :: tag in h.saved ==> tag.group < h.currentGroup
    modifies h
    ensures h.Valid() && !h.backward && h.currentGroup == old(h.currentGroup) + 1 && h.tensorCountCurrentGroup == 0
    ensures LayerHeld(h.saved, old(h.currentGroup), handles, BackLayer(layer, old(h.currentGroup) < h.Host()))
    ensures Without(h.saved, old(h.currentGroup)) == old(h.saved)
    ensures h.round == old(h.round)
  {
    ValidRange(h);
    hide AsyncHandler.Valid, LayerHeld, Without, AllWellFormed, BackLayer, Hosted;
    handles := PushLayer(h, layer);
    h.OnGroupCommitForward();
  }

  lemma HeldNothing(saved: map<Tag, Tensor>, g: int, layer: seq<Tensor>)
    requires layer == [] && forall tag :: tag in saved ==> tag.group != g
    ensures LayerHeld(saved, g, [], layer)
    ensures Without(saved, g) == saved
  {
  }

  function Below(n: nat): (r: set<int>)
    ensures forall j :: j in r <==> 0 <= j < n
  {
    if n == 0 then {} else Below(n - 1) + {n - 1}
  }

  /** The layer's tensors at the indices in `todo`, and no others, are still held. */
  ghost predicate PartlyHeld(saved: map<Tag, Tensor>, g: int, handles: seq<Saved>, layer: seq<Tensor>, todo: set<int>) {
    && |handles| == |layer|
    && (forall j :: j in todo ==> 0 <= j < |handles|)
    && (forall j :: 0 <= j < |handles| ==> if layer[j].offloadable then handles[j].Tagged? && handles[j].tag.group == g
                                           else handles[j] == Direct(layer[j]))
    && (forall j, k :: 0 <= j < k < |handles| && handles[j].Tagged? ==> handles[j] != handles[k])
    && (forall j :: j in todo && handles[j].Tagged? ==> handles[j].tag in saved && saved[handles[j].tag] == layer[j])
    && (forall tag :: tag in saved && tag.group == g ==> exists j :: j in todo && handles[j] == Tagged(tag))
  }

  lemma HeldWhole(saved: map<Tag, Tensor>, g: int, handles: seq<Saved>, layer: seq<Tensor>)
    requires LayerHeld(saved, g, handles, layer)
    ensures PartlyHeld(saved, g, handles, layer, Below(|handles|))
  {
    forall tag | tag in saved && tag.group == g
      ensures exists j :: j in Below(|handles|) && handles[j] == Tagged(tag)
    {
      assert Tagged(tag) in handles;
      var j :| 0 <= j < |handles| && handles[j] == Tagged(tag);
      assert j in Below(|handles|);
    }
  }

  lemma HeldPop(saved: map<Tag, Tensor>, saved': map<Tag, Tensor>, g: int, handles: seq<Saved>, layer: seq<Tensor>,
                todo: set<int>, j: int)
    requires PartlyHeld(saved, g, handles, layer, todo)
    requires j in todo
    requires saved' == if handles[j].Direct? then saved else saved - {handles[j].tag}
    ensures PartlyHeld(saved', g, handles, layer, todo - {j})
    ensures Without(saved', g) == Without(saved, g)
  {
    forall tag | tag in saved' && tag.group == g
      ensures exists k :: k in todo - {j} && handles[k] == Tagged(tag)
    {
      var k :| k in todo && handles[k] == Tagged(tag);
      assert k in todo - {j};
    }
  }

  lemma HeldEmpty(saved: map<Tag, Tensor>, g: int, handles: seq<Saved>, layer: seq<Tensor>)
    requires PartlyHeld(saved, g, handles, layer, {})
    ensures saved == Without(saved, g)
  {
  }

  /** After a backward commit every tensor of the current group fits its shape. */
  lemma CurrentFits(h: AsyncHandler)
    requires h.Valid() && h.backward
    ensures forall tag :: tag in h.saved && tag.group == h.currentGroup ==> WellFormed(h.saved[tag])
  {
    PopGroup(h);
    hide RoundLog, EntriesOk, Freed, Window, AllBelow, WellFormed, Hosted;
  }

  lemma HeldFits(saved: map<Tag, Tensor>, g: int, handles: seq<Saved>, layer: seq<Tensor>)
    requires LayerHeld(saved, g, handles, layer)
    requires forall tag :: tag in saved && tag.group == g ==> WellFormed(saved[tag])
    requires forall j :: 0 <= j < |layer| && !layer[j].offloadable ==> WellFormed(layer[j])
    ensures AllWellFormed(layer)
  {
    hide WellFormed;
  }

  /** The backward pass of one layer consumes its tensors in any order. */
  method BackwardLayer(h: AsyncHandler, handles: seq<Saved>, ghost layer: seq<Tensor>)
    returns (ok: bool, popped: seq<Tensor>)
    requires h.Valid() && h.backward && 0 < h.currentGroup
    requires forall tag :: tag in h.saved ==> tag.group < h.currentGroup
    requires LayerHeld(h.saved, h.currentGroup - 1, handles, layer)
    requires forall j :: 0 <= j < |layer| && !layer[j].offloadable ==> WellFormed(layer[j])
    modifies h
    ensures ok ==>
      && h.Valid() && h.backward && h.currentGroup == old(h.currentGroup) - 1 && h.round == old(h.round)
      && h.saved == Without(old(h.saved), h.currentGroup)
      && SameValues(popped, layer) && AllWellFormed(layer)
    ensures !ok ==> exists tag :: tag in old(h.saved) && tag.group < h.Host() && !WellFormed(old(h.saved)[tag])
  {
    hide AsyncHandler.Valid, LayerHeld, PartlyHeld, Without, WellFormed, AllWellFormed, Hosted;
    popped := [];
    ok := h.OnGroupCommitBackward();
    if !ok { return; }
    ghost var g := h.currentGroup;
    CurrentFits(h);
    HeldFits(h.saved, g, handles, layer);
    HeldWhole(h.saved, g, handles, layer);
    HeldLength(h.saved, g, handles, layer, Below(|handles|));
    popped := PopAll(h, handles, layer);
  }

  /** The pops of one layer, in any order. */
  method PopAll(h: AsyncHandler, handles: seq<Saved>, ghost layer: seq<Tensor>) returns (popped: seq<Tensor>)
    requires h.Valid() && h.backward
    requires |handles| == |layer| && PartlyHeld(h.saved, h.currentGroup, handles, layer, Below(|handles|))
    modifies h
    ensures h.Valid() && h.backward && h.currentGroup == old(h.currentGroup) && h.round == old(h.round)
    ensures h.saved == Without(old(h.saved), h.currentGroup)
    ensures SameValues(popped, layer)
  {
    hide AsyncHandler.Valid, PartlyHeld, Without;
    ghost var g := h.currentGroup;
    var todo := Below(|handles|);
    var got: map<int, Tensor> := map[];
    while todo != {}
      invariant h.Valid() && h.backward && h.currentGroup == g && h.round == old(h.round)
      invariant PartlyHeld(h.saved, g, handles, layer, todo)
      invariant Without(h.saved, g) == Without(old(h.saved), g)
      invariant forall j :: j in got <==> 0 <= j < |handles| && j !in todo
      invariant forall j :: j in got ==> SameValue(got[j], layer[j])
      decreases todo
    {
      var j :| j in todo;
      HeldCanPop(h.saved, g, handles, layer, todo, j);
      ghost var saved := h.saved;
      var t := h.TensorPop(handles[j]);
      HeldPop(saved, h.saved, g, handles, layer, todo, j);
      got := got[j := t];
      todo := todo - {j};
    }
    HeldEmpty(h.saved, g, handles, layer);
    popped := seq(|handles|, i requires 0 <= i < |handles| => got[i]);
  }

  lemma ValidRange(h: AsyncHandler)
    requires h.Valid()
    ensures 0 <= h.currentGroup <= h.numLayers
  {
  }

  lemma HeldLength(saved: map<Tag, Tensor>, g: int, handles: seq<Saved>, layer: seq<Tensor>, todo: set<int>)
    requires PartlyHeld(saved, g, handles, layer, todo)
    ensures |handles| == |layer|
  {
  }

  lemma HeldCanPop(saved: map<Tag, Tensor>, g: int, handles: seq<Saved>, layer: seq<Tensor>,
                   todo: set<int>, j: int)
    requires PartlyHeld(saved, g, handles, layer, todo)
    requires j in todo
    ensures 0 <= j < |handles| == |layer|
    ensures handles[j].Tagged? ==> handles[j].tag in saved && handles[j].tag.group == g && saved[handles[j].tag] == layer[j]
    ensures handles[j].Direct? ==> handles[j].tensor == layer[j]
  {
  }

  /** The handles of the layers `0 .. |handles|` of the forward pass. */
  ghost predicate RunHeld(saved: map<Tag, Tensor>, handles: seq<seq<Saved>>, layers: seq<seq<Tensor>>) {
    && |handles| <= |layers|
    && (forall i :: 0 <= i < |handles| ==> LayerHeld(saved, i, handles[i], layers[i]))
    && (forall tag :: tag in saved ==> tag.group < |handles|)
  }

  lemma RunPush(saved: map<Tag, Tensor>, saved': map<Tag, Tensor>, handles: seq<seq<Saved>>, layers: seq<seq<Tensor>>,
                hs: seq<Saved>)
    requires RunHeld(saved, handles, layers) && |handles| < |layers|
    requires Without(saved', |handles|) == saved
    requires LayerHeld(saved', |handles|, hs, layers[|handles|])
    ensures RunHeld(saved', handles + [hs], layers)
  {
    forall i | 0 <= i < |handles| ensures LayerHeld(saved', i, handles[i], layers[i]) {
      LayerFrame(saved, saved', |handles|, i, handles[i], layers[i]);
    }
    forall tag | tag in saved' ensures tag.group < |handles| + 1 {
      if tag.group != |handles| { assert tag in Without(saved', |handles|); }
    }
  }

  lemma RunPop(saved: map<Tag, Tensor>, handles: seq<seq<Saved>>, layers: seq<seq<Tensor>>)
    requires RunHeld(saved, handles, layers) && handles != []
    ensures RunHeld(Without(saved, |handles| - 1), handles[..|handles| - 1], layers)
  {
    var last := |handles| - 1;
    forall i | 0 <= i < last ensures LayerHeld(Without(saved, last), i, handles[i], layers[i]) {
      LayerFrame(Without(saved, last), saved, last, i, handles[i], layers[i]);
    }
  }

  lemma LayerFrame(saved: map<Tag, Tensor>, saved': map<Tag, Tensor>, other: int, i: int, hs: seq<Saved>,
                   layer: seq<Tensor>)
    requires Without(saved', other) == saved && i != other
    ensures LayerHeld(saved, i, hs, layer) <==> LayerHeld(saved', i, hs, layer)
  {
    forall tag: Tag | tag.group == i
      ensures tag in saved <==> tag in saved'
      ensures tag in saved ==> saved[tag] == saved'[tag]
    {
      assert tag in saved <==> tag in Without(saved', other);
    }
  }

  // ---------- whole runs ----------

  /** What all layers' consumers get. */
  function Backs(layers: seq<seq<Tensor>>, H: int): (backs: seq<seq<Tensor>>)
    ensures |backs| == |layers| && forall i :: 0 <= i < |layers| ==> backs[i] == BackLayer(layers[i], i < H)
  {
    seq(|layers|, i requires 0 <= i < |layers| => BackLayer(layers[i], i < H))
  }

  ghost predicate RunWellFormed(layers: seq<seq<Tensor>>) { forall i :: 0 <= i < |layers| ==> AllWellFormed(layers[i]) }

  ghost predicate RunSame(a: seq<seq<Tensor>>, b: seq<seq<Tensor>>) {
    |a| == |b| && forall i :: 0 <= i < |a| ==> SameValues(a[i], b[i])
  }

  method ForwardPass(h: AsyncHandler, layers: seq<seq<Tensor>>) returns (handles: seq<seq<Saved>>)
    requires h.Valid() && !h.backward && h.Initial()
    requires |layers| == h.numLayers && RunWellFormed(layers)
    modifies h
    ensures h.Valid() && !h.backward && h.currentGroup == h.numLayers && h.tensorCountCurrentGroup == 0
    ensures h.round == old(h.round)
    ensures |handles| == |layers| && RunHeld(h.saved, handles, Backs(layers, h.Host()))
  {
    InitialSaved(h);
    handles := [];
    ghost var backs := Backs(layers, h.Host());
    assert RunHeld(h.saved, handles, backs);
    hide AsyncHandler.Valid, RunHeld, LayerHeld, Without, AllWellFormed, BackLayer, Hosted;
    while |handles| < |layers|
      invariant |handles| <= |layers| && backs == Backs(layers, h.Host())
      invariant h.Valid() && !h.backward && h.currentGroup == |handles| && h.tensorCountCurrentGroup == 0
      invariant h.round == old(h.round)
      invariant RunHeld(h.saved, handles, backs)
    {
      RunTags(h.saved, handles, backs);
      ghost var saved := h.saved;
      var hs := ForwardLayer(h, layers[|handles|]);
      RunPush(saved, h.saved, handles, backs, hs);
      handles := handles + [hs];
    }
  }

  /** A value that does not fit belongs to a layer that went to the host. */
  lemma RunMisfit(saved: map<Tag, Tensor>, handles: seq<seq<Saved>>, layers: seq<seq<Tensor>>, H: int)
    requires RunHeld(saved, handles, layers)
    requires exists tag :: tag in saved && tag.group < H && !WellFormed(saved[tag])
    ensures exists i :: 0 <= i < |layers| && i < H && !AllWellFormed(layers[i])
  {
    var tag :| tag in saved && tag.group < H && !WellFormed(saved[tag]);
    var i := tag.group;
    assert LayerHeld(saved, i, handles[i], layers[i]);
    assert Tagged(tag) in handles[i];
    var j :| 0 <= j < |handles[i]| && handles[i][j] == Tagged(tag);
    assert layers[i][j] == saved[tag];
  }

  method BackwardPass(h: AsyncHandler, handles: seq<seq<Saved>>, ghost backs: seq<seq<Tensor>>)
    returns (ok: bool, popped: seq<seq<Tensor>>)
    requires h.Valid() && h.backward && h.currentGroup == |backs|
    requires |handles| == |backs| && RunHeld(h.saved, handles, backs)
    requires forall i, j :: 0 <= i < |backs| && 0 <= j < |backs[i]| && !backs[i][j].offloadable ==> WellFormed(backs[i][j])
    modifies h
    ensures ok ==>
      && h.Valid() && h.backward && h.currentGroup == 0 && h.saved == map[] && h.round == old(h.round)
      && RunSame(popped, backs) && RunWellFormed(backs)
    ensures !ok ==> exists i :: 0 <= i < |backs| && i < h.Host() && !AllWellFormed(backs[i])
  {
    hide AsyncHandler.Valid, RunHeld, LayerHeld, Without, SameValues, WellFormed, AllWellFormed, Hosted;
    popped := [];
    var rest := handles;
    while rest != []
      invariant |rest| <= |backs| && h.currentGroup == |rest|
      invariant h.Valid() && h.backward && h.round == old(h.round)
      invariant RunHeld(h.saved, rest, backs)
      invariant |popped| == |backs| - |rest|
      invariant forall k :: |rest| <= k < |backs| ==> SameValues(popped[k - |rest|], backs[k]) && AllWellFormed(backs[k])
    {
      RunTags(h.saved, rest, backs);
      RunPop(h.saved, rest, backs);
      ghost var saved, before := h.saved, rest;
      var last := rest[|rest| - 1];
      rest := rest[..|rest| - 1];
      var out: seq<Tensor>;
      ok, out := BackwardLayer(h, last, backs[|rest|]);
      if !ok {
        RunMisfit(saved, before, backs, h.Host());
        return;
      }
      popped := [out] + popped;
    }
    RunTags(h.saved, rest, backs);
    ok := true;
  }

  /** Tensors that stay where they are fit as torch made them. */
  lemma StayersFit(layers: seq<seq<Tensor>>, H: int)
    requires RunWellFormed(layers)
    ensures forall i, j :: 0 <= i < |layers| && 0 <= j < |Backs(layers, H)[i]| && !Backs(layers, H)[i][j].offloadable ==>
      WellFormed(Backs(layers, H)[i][j])
    ensures forall i :: 0 <= i < |layers| && H <= i ==> AllWellFormed(Backs(layers, H)[i])
  {
    forall i, j | 0 <= i < |layers| && 0 <= j < |Backs(layers, H)[i]| && !Backs(layers, H)[i][j].offloadable
      ensures WellFormed(Backs(layers, H)[i][j])
    {
      assert AllWellFormed(layers[i]);
      assert Backs(layers, H)[i][j] == layers[i][j];
    }
  }

  /** One forward and backward pass over all layers. It fails exactly when some copy does
      not fit a view of it; otherwise every consumer gets what comes back for it, every
      device operation is ordered as it needs to be, no lookup or assertion fails, and the
      handler ends in its initial state. */
  method TrainRound(h: AsyncHandler, layers: seq<seq<Tensor>>) returns (r: Option<seq<seq<Tensor>>>)
    requires h.Valid() && !h.backward && h.Initial()
    requires |layers| == h.numLayers && RunWellFormed(layers)
    modifies h
    ensures r.Some? <==> RunWellFormed(Backs(layers, h.Host()))
    ensures r.Some? ==> RunSame(r.value, Backs(layers, h.Host()))
    ensures r.Some? ==> h.Valid() && !h.backward && h.Initial() && h.round == old(h.round) + 1 && Safe(h.log)
  {
    hide AsyncHandler.Valid, RunHeld, SameValues, Safe, AllWellFormed, Hosted, BackLayer;
    StayersFit(layers, h.Host());
    var handles := ForwardPass(h, layers);
    h.TurnAround();
    var ok, popped := BackwardPass(h, handles, Backs(layers, h.Host()));
    if !ok { return None; }
    h.FinishRound();
    ValidSafe(h);
    r := Some(popped);
  }

  lemma RunTags(saved: map<Tag, Tensor>, handles: seq<seq<Saved>>, layers: seq<seq<Tensor>>)
    requires RunHeld(saved, handles, layers)
    ensures forall tag :: tag in saved ==> tag.group < |handles|
    ensures handles != [] ==> LayerHeld(saved, |handles| - 1, handles[|handles| - 1], layers[|handles| - 1])
    ensures handles == [] ==> saved == map[]
  {
  }

  lemma InitialSaved(h: AsyncHandler)
    requires h.Valid() && h.Initial()
    ensures h.saved == map[]
  {
    hide RoundLog, Known;
    assert h.saved.Keys == {};
  }

  lemma ValidSafe(h: AsyncHandler)
    requires h.Valid()
    ensures Safe(h.log)
  {
    hide EntriesOk, TagsOk, Known;
  }

  /** All layers that go to the host are key-consistent. */
  ghost predicate RunConsistent(layers: seq<seq<Tensor>>, H: int) {
    forall i :: 0 <= i < |layers| && i < H ==> KeyConsistent(layers[i])
  }

  /** Every consumer gets the value that was pushed exactly for key-consistent runs, and
      these never fail. */
  lemma RunComesBackIff(layers: seq<seq<Tensor>>, H: int)
    requires RunWellFormed(layers)
    ensures RunSame(Backs(layers, H), layers) <==> RunConsistent(layers, H)
    ensures RunConsistent(layers, H) ==> RunWellFormed(Backs(layers, H))
  {
    forall i | 0 <= i < |layers|
      ensures SameValues(Backs(layers, H)[i], layers[i]) <==> (i < H ==> KeyConsistent(layers[i]))
      ensures (i < H ==> KeyConsistent(layers[i])) ==> AllWellFormed(Backs(layers, H)[i])
    {
      ComesBackIff(layers[i]);
      assert AllWellFormed(layers[i]);
      if i < H && KeyConsistent(layers[i]) { ConsistentFits(layers[i]); }
    }
    hide KeyConsistent, SameValues, AllWellFormed;
    if RunSame(Backs(layers, H), layers) {
      forall i | 0 <= i < |layers| && i < H ensures KeyConsistent(layers[i]) {
        assert SameValues(Backs(layers, H)[i], layers[i]);
      }
    }
  }

  lemma RunSameTrans(a: seq<seq<Tensor>>, b: seq<seq<Tensor>>, c: seq<seq<Tensor>>)
    requires RunSame(a, b)
    ensures RunSame(a, c) <==> RunSame(b, c)
  {
    forall i | 0 <= i < |a| && |a| == |c| ensures SameValues(a[i], c[i]) <==> SameValues(b[i], c[i]) {
      assert SameValues(a[i], b[i]);
      SameTrans(a[i], b[i], c[i]);
    }
    hide SameValues;
  }

  lemma SameTrans(a: seq<Tensor>, b: seq<Tensor>, c: seq<Tensor>)
    requires SameValues(a, b)
    ensures SameValues(a, c) <==> SameValues(b, c)
  {
    assert forall j :: 0 <= j < |a| ==> SameValue(a[j], b[j]);
  }

  /** Any number of rounds on one handler, for any number of groups up to the number of
      layers. The run fails exactly when some copy does not fit a view of it, and every
      consumer gets the value that was pushed exactly when tensors that share a key in a
      group that goes to the host have the same contents. */
  method TrainRun(G: int, rounds: seq<seq<seq<Tensor>>>, L: int)
    returns (r: Option<seq<seq<seq<Tensor>>>>, h: AsyncHandler)
    requires 1 <= G <= L
    requires forall k :: 0 <= k < |rounds| ==> |rounds[k]| == L && RunWellFormed(rounds[k])
    ensures r.Some? <==> forall k :: 0 <= k < |rounds| ==> RunWellFormed(Backs(rounds[k], Hosted(G, L)))
    ensures r.Some? ==> |r.value| == |rounds|
    ensures r.Some? ==> forall k :: 0 <= k < |rounds| ==> RunSame(r.value[k], Backs(rounds[k], Hosted(G, L)))
    ensures r.Some? ==> h.Initial() && Safe(h.log)
    ensures (r.Some? && forall k :: 0 <= k < |rounds| ==> RunSame(r.value[k], rounds[k]))
            <==> forall k :: 0 <= k < |rounds| ==> RunConsistent(rounds[k], Hosted(G, L))
    ensures fresh(h)
  {
    h := new AsyncHandler(G, L);
    ValidSafe(h);
    var popped: seq<seq<seq<Tensor>>> := [];
    var k := 0;
    ghost var H := Hosted(G, L);
    hide AsyncHandler.Valid, Safe, RunSame, RunWellFormed, RunConsistent, Backs, Hosted, RoundsBack;
    StartRounds(rounds, H);
    while k < |rounds|
      invariant 0 <= k <= |rounds| && RoundsBack(rounds, k, popped, H)
      invariant fresh(h) && h.numOffloadGroup == G && h.numLayers == L && h.Host() == H
      invariant h.Valid() && !h.backward && h.Initial() && Safe(h.log)
    {
      RunComesBackIff(rounds[k], H);
      var out := TrainRound(h, rounds[k]);
      if out.None? { return None, h; }
      NextRounds(rounds, k, popped, H, out.value);
      popped := popped + [out.value];
      k := k + 1;
    }
    AllRounds(rounds, popped, H);
    r := Some(popped);
  }

  /** The first `k` rounds gave back what comes back for them. */
  ghost predicate RoundsBack(rounds: seq<seq<seq<Tensor>>>, k: nat, popped: seq<seq<seq<Tensor>>>, H: int) {
    |popped| == k <= |rounds|
    && forall i :: 0 <= i < k ==> RunSame(popped[i], Backs(rounds[i], H)) && RunWellFormed(Backs(rounds[i], H))
  }

  lemma StartRounds(rounds: seq<seq<seq<Tensor>>>, H: int)
    ensures RoundsBack(rounds, 0, [], H)
  {
  }

  lemma NextRounds(rounds: seq<seq<seq<Tensor>>>, k: nat, popped: seq<seq<seq<Tensor>>>, H: int, out: seq<seq<Tensor>>)
    requires RoundsBack(rounds, k, popped, H) && k < |rounds|
    requires RunSame(out, Backs(rounds[k], H)) && RunWellFormed(Backs(rounds[k], H))
    ensures RoundsBack(rounds, k + 1, popped + [out], H)
  {
    hide RunSame, RunWellFormed, Backs;
  }

  lemma AllRounds(rounds: seq<seq<seq<Tensor>>>, popped: seq<seq<seq<Tensor>>>, H: int)
    requires RoundsBack(rounds, |rounds|, popped, H)
    requires forall k :: 0 <= k < |rounds| ==> RunWellFormed(rounds[k])
    ensures |popped| == |rounds|
    ensures forall i :: 0 <= i < |rounds| ==> RunSame(popped[i], Backs(rounds[i], H)) && RunWellFormed(Backs(rounds[i], H))
    ensures forall i :: 0 <= i < |rounds| ==> (RunSame(popped[i], rounds[i]) <==> RunConsistent(rounds[i], H))
  {
    hide RunSame, RunWellFormed, Backs, RunConsistent;
    forall i | 0 <= i < |rounds| ensures RunSame(popped[i], rounds[i]) <==> RunConsistent(rounds[i], H) {
      RunComesBackIff(rounds[i], H);
      RunSameTrans(popped[i], Backs(rounds[i], H), rounds[i]);
    }
  }
}
