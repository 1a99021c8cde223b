/** The tables of the activation offload handler, entry by entry, and what deduplicating a
    group by storage key gives back (verl/utils/activation_offload.py, lines 35-37 and
    263-371). */
module OffloadTables {
  import opened Basics
  import opened StreamOrder

  /** Storage address plus offset, and element type (line 36). */
  datatype Key = Key(address: int, dtype: int)

  /** A saved activation. `offloadable` is the outcome of the stray-tensor test and of
      the caller's filter (lines 264-269); `data` is the flattened contents. */
  datatype Tensor = Tensor(key: Key, shape: seq<nat>, data: seq<int>, offloadable: bool)

  datatype Tag = Tag(group: nat, index: nat)

  /** What `tensor_push` hands back to autograd: a tag, or the tensor itself. */
  datatype Saved = Tagged(tag: Tag) | Direct(tensor: Tensor)

  /** An entry of `tensor_tag_to_state`: the tensor, or the (key, shape) of its host copy. */
  datatype State = OnDevice(tensor: Tensor) | OnHost(key: Key, shape: seq<nat>)

  type Backup = map<Key, seq<int>>

  /** The element count that torch guarantees of every tensor, and that `view` checks. */
  predicate WellFormed(t: Tensor) { |t.data| == Numel(t.shape) }

  /** A tensor that comes back may lie elsewhere; its type, shape and contents count. */
  predicate SameValue(a: Tensor, b: Tensor) { a.key.dtype == b.key.dtype && a.shape == b.shape && a.data == b.data }

  ghost predicate SameValues(a: seq<Tensor>, b: seq<Tensor>) {
    |a| == |b| && forall j :: 0 <= j < |a| ==> SameValue(a[j], b[j])
  }

  // ---------- what a copied group gives back ----------

  /** One copy is kept per key, of the tensor that was pushed first. */
  function FirstData(layer: seq<Tensor>, t: Tensor): seq<int> {
    if layer == [] then t.data
    else if layer[0].offloadable && layer[0].key == t.key then layer[0].data
    else FirstData(layer[1..], t)
  }

  function BackFor(layer: seq<Tensor>, t: Tensor): Tensor {
    if t.offloadable then t.(data := FirstData(layer, t)) else t
  }

  /** What the consumers of a layer get back once it was taken to the host. */
  function ComesBack(layer: seq<Tensor>): (back: seq<Tensor>)
    ensures |back| == |layer| && forall j :: 0 <= j < |layer| ==> back[j] == BackFor(layer, layer[j])
  {
    seq(|layer|, j requires 0 <= j < |layer| => BackFor(layer, layer[j]))
  }

  predicate SameKey(a: Tensor, b: Tensor) { a.offloadable && b.offloadable && a.key == b.key }

  /** Tensors of the layer that share a key have the same flattened contents. */
  ghost predicate KeyConsistent(layer: seq<Tensor>) {
    forall j, k :: 0 <= j < |layer| && 0 <= k < |layer| && SameKey(layer[j], layer[k]) ==> layer[j].data == layer[k].data
  }

  ghost predicate AllWellFormed(layer: seq<Tensor>) { forall j :: 0 <= j < |layer| ==> WellFormed(layer[j]) }

  lemma {:induction false} FirstDataIs(layer: seq<Tensor>, t: Tensor)
    ensures (exists k :: 0 <= k < |layer| && layer[k].offloadable && layer[k].key == t.key
                         && FirstData(layer, t) == layer[k].data)
            || (FirstData(layer, t) == t.data
                && forall k :: 0 <= k < |layer| && layer[k].offloadable ==> layer[k].key != t.key)
  {
    if layer != [] && !(layer[0].offloadable && layer[0].key == t.key) {
      var rest := layer[1..];
      FirstDataIs(rest, t);
      if k :| 0 <= k < |rest| && rest[k].offloadable && rest[k].key == t.key && FirstData(rest, t) == rest[k].data {
        assert layer[k + 1] == rest[k];
      } else {
        assert forall k :: 0 < k < |layer| ==> layer[k] == rest[k - 1];
      }
    }
  }

  lemma {:induction false} FirstDataSame(layer: seq<Tensor>, s: Tensor, t: Tensor, j: nat)
    requires j < |layer| && layer[j].offloadable && layer[j].key == s.key == t.key
    ensures FirstData(layer, s) == FirstData(layer, t)
  {
    if !(layer[0].offloadable && layer[0].key == t.key) { FirstDataSame(layer[1..], s, t, j - 1); }
  }

  /** What comes back is what was pushed exactly for key-consistent layers. */
  lemma ComesBackIff(layer: seq<Tensor>)
    ensures SameValues(ComesBack(layer), layer) <==> KeyConsistent(layer)
  {
    if KeyConsistent(layer) {
      forall j | 0 <= j < |layer| ensures SameValue(BackFor(layer, layer[j]), layer[j]) {
        FirstDataIs(layer, layer[j]);
      }
    }
    if SameValues(ComesBack(layer), layer) {
      forall j, k | 0 <= j < |layer| && 0 <= k < |layer| && SameKey(layer[j], layer[k])
        ensures layer[j].data == layer[k].data
      {
        FirstDataSame(layer, layer[j], layer[k], j);
        assert SameValue(ComesBack(layer)[j], layer[j]) && SameValue(ComesBack(layer)[k], layer[k]);
      }
    }
  }

  /** A consistent layer of tensors as torch makes them always has views that fit. */
  lemma ConsistentFits(layer: seq<Tensor>)
    requires KeyConsistent(layer) && AllWellFormed(layer)
    ensures AllWellFormed(ComesBack(layer))
  {
    ComesBackIff(layer);
    forall j | 0 <= j < |layer| ensures WellFormed(ComesBack(layer)[j]) {
      assert SameValue(ComesBack(layer)[j], layer[j]);
    }
  }

  /** Two views of one buffer with different extents: the second view fails on reload. */
  lemma ExtentsFail(key: Key)
    ensures var layer := [Tensor(key, [2], [7, 8], true), Tensor(key, [1], [7], true)];
      AllWellFormed(layer) && !AllWellFormed(ComesBack(layer))
  {
    var layer := [Tensor(key, [2], [7, 8], true), Tensor(key, [1], [7], true)];
    assert Numel([2]) == 2 * Numel([]) && Numel([1]) == 1 * Numel([]);
    assert FirstData(layer, layer[1]) == [7, 8];
    assert !WellFormed(ComesBack(layer)[1]);
  }

  /** A matrix and its transpose: the views fit, and a wrong tensor comes back silently. */
  lemma TransposeIsLost(key: Key)
    ensures var layer := [Tensor(key, [2, 2], [1, 2, 3, 4], true), Tensor(key, [2, 2], [1, 3, 2, 4], true)];
      AllWellFormed(ComesBack(layer)) && !SameValue(ComesBack(layer)[1], layer[1])
  {
    var layer := [Tensor(key, [2, 2], [1, 2, 3, 4], true), Tensor(key, [2, 2], [1, 3, 2, 4], true)];
    assert [2, 2][1..] == [2] && [2][1..] == [];
    assert Numel([2, 2]) == 2 * Numel([2]) && Numel([2]) == 2 * Numel([]);
    assert FirstData(layer, layer[0]) == FirstData(layer, layer[1]) == [1, 2, 3, 4];
    assert layer[1].data[1] != 2;
  }

  // ---------- the tags in use ----------

  ghost predicate Agrees(saved: map<Tag, Tensor>, group: nat, t: Tensor) {
    forall tag :: tag in saved && tag.group == group && saved[tag].key == t.key ==> saved[tag].data == t.data
  }

  /** `back` is what the handler will give back for `t`, pushed after the tags in `saved`. */
  ghost predicate GivesBack(saved: map<Tag, Tensor>, group: nat, t: Tensor, back: Tensor) {
    && back == t.(data := back.data) && Agrees(saved, group, back)
    && ((forall tag :: tag in saved && tag.group == group ==> saved[tag].key != t.key) ==> back == t)
  }

  /** `saved` holds for every tag what the handler will give back. No group lies beyond the
      current one, and in the forward pass no index of the current group beyond the
      counter; in groups that go to the host, below `H`, a key stands for one value;
      from group `sized` on all values fit their shapes. */
  ghost predicate TagsOk(saved: map<Tag, Tensor>, H: int, current: int, backward: bool, count: nat, sized: int) {
    forall tag :: tag in saved ==>
      && tag.group <= current
      && (!backward && tag.group == current ==> tag.index < count)
      && (tag.group < H ==> Agrees(saved, tag.group, saved[tag]))
      && (sized <= tag.group ==> WellFormed(saved[tag]))
  }

  lemma PushTags(saved: map<Tag, Tensor>, H: int, current: nat, count: nat, t: Tensor, back: Tensor)
    requires TagsOk(saved, H, current, false, count, H)
    requires WellFormed(t) && if current < H then GivesBack(saved, current, t, back) else back == t
    ensures TagsOk(saved[Tag(current, count) := back], H, current, false, count + 1, H)
    ensures Tag(current, count) !in saved
  {
  }

  lemma NextTags(saved: map<Tag, Tensor>, H: int, current: int, count: nat)
    requires TagsOk(saved, H, current, false, count, H)
    ensures TagsOk(saved, H, current + 1, false, 0, H)
  {
  }

  lemma PopTags(saved: map<Tag, Tensor>, H: int, current: int, sized: int, tag: Tag)
    requires TagsOk(saved, H, current, true, 0, sized)
    ensures TagsOk(saved - {tag}, H, current, true, 0, sized)
  {
  }

  lemma PriorTags(saved: map<Tag, Tensor>, H: int, current: int, previous: int, sized: int)
    requires TagsOk(saved, H, current, true, 0, sized)
    requires forall tag :: tag in saved ==> tag.group <= previous
    ensures TagsOk(saved, H, previous, true, 0, sized)
  {
  }

  lemma SizeTags(saved: map<Tag, Tensor>, H: int, current: int, sized: int)
    requires TagsOk(saved, H, current, true, 0, sized + 1)
    requires forall tag :: tag in saved && tag.group == sized ==> WellFormed(saved[tag])
    ensures TagsOk(saved, H, current, true, 0, sized)
  {
  }

  // ---------- the entries ----------

  /** No tag of the group with the same key comes before. */
  ghost predicate IsFirst(saved: map<Tag, Tensor>, tag: Tag) {
    tag in saved
    && forall o :: o in saved && o.group == tag.group && saved[o].key == saved[tag].key ==> tag.index <= o.index
  }

  /** The device tensor of a tag that was not copied yet: the first of its key is what will
      come back for all of them. */
  ghost predicate Stands(saved: map<Tag, Tensor>, tag: Tag, t: Tensor) {
    tag in saved && t.key == saved[tag].key && t.shape == saved[tag].shape
    && (IsFirst(saved, tag) ==> t.data == saved[tag].data)
  }

  /** A host handle with its copy. */
  ghost predicate Handled(saved: map<Tag, Tensor>, tag: Tag, s: State, backup: Backup) {
    tag in saved && s == OnHost(saved[tag].key, saved[tag].shape) && saved[tag].key in backup
    && backup[saved[tag].key] == saved[tag].data
  }

  /** One tag's entry, with `hosted` groups on the host. */
  ghost predicate EntryOk(saved: map<Tag, Tensor>, mapping: map<int, Backup>, H: int, hosted: int, turned: bool,
                          tag: Tag, s: State)
  {
    && tag in saved
    && if tag.group < hosted then tag.group in mapping && Handled(saved, tag, s, mapping[tag.group])
       else if turned then s.OnDevice? && SameValue(s.tensor, saved[tag])
       else s.OnDevice? && Stands(saved, tag, s.tensor) && (H <= tag.group ==> s.tensor == saved[tag])
  }

  /** What the handler's tables hold for the tags in `saved`. Copies of the groups below
      `handles` were made, which are host handles as far as they are below `H`; before
      the turn all others are the tensors pushed, after it tensors of the same value;
      device buffers of groups below `freed` have been given back. */
  ghost predicate EntriesOk(saved: map<Tag, Tensor>, state: map<Tag, State>, buf: map<Tag, Option<Tensor>>,
                            mapping: map<int, Backup>, present: set<nat>, G: int, H: int, handles: int, freed: int,
                            turned: bool)
  {
    && state.Keys == saved.Keys
    && (forall tag :: tag in buf <==> tag in saved && tag.group < G)
    && (forall tag :: tag in buf ==> (buf[tag].None? <==> tag.group < freed))
    && handles <= G && H <= G
    && (forall g :: g in mapping <==> 0 <= g < handles)
    && (forall g: nat :: g in mapping ==> (mapping[g] != map[] <==> g in present))
    && (forall tag :: tag in saved ==> EntryOk(saved, mapping, H, Min(handles, H), turned, tag, state[tag]))
  }

  lemma PushEntries(saved: map<Tag, Tensor>, state: map<Tag, State>, buf: map<Tag, Option<Tensor>>,
                    mapping: map<int, Backup>, present: set<nat>, G: int, H: int, handles: int, freed: int,
                    tag: Tag, t: Tensor, back: Tensor)
    requires EntriesOk(saved, state, buf, mapping, present, G, H, handles, freed, false)
    requires TagsOk(saved, H, tag.group, false, tag.index, H)
    requires Min(handles, H) <= tag.group && freed <= tag.group
    requires if tag.group < H then GivesBack(saved, tag.group, t, back) else back == t
    ensures EntriesOk(saved[tag := back], state[tag := OnDevice(t)],
                      if tag.group < G then buf[tag := Some(t)] else buf, mapping, present, G, H, handles, freed, false)
    ensures tag !in state
  {
    var saved', state' := saved[tag := back], state[tag := OnDevice(t)];
    forall o | o in saved' ensures EntryOk(saved', mapping, H, Min(handles, H), false, o, state'[o]) {
      if o == tag {
        NewStands(saved, tag, t, back, H);
      } else {
        OldEntry(saved, mapping, H, Min(handles, H), o, state[o], tag, back);
      }
    }
    hide EntryOk, TagsOk;
  }

  lemma NewStands(saved: map<Tag, Tensor>, tag: Tag, t: Tensor, back: Tensor, H: int)
    requires TagsOk(saved, H, tag.group, false, tag.index, H)
    requires if tag.group < H then GivesBack(saved, tag.group, t, back) else back == t
    ensures tag !in saved && Stands(saved[tag := back], tag, t) && (H <= tag.group ==> t == back)
  {
    var saved' := saved[tag := back];
    if tag.group < H && IsFirst(saved', tag) {
      forall o | o in saved && o.group == tag.group ensures saved[o].key != t.key {
        assert o in saved' && o.index < tag.index;
      }
    }
  }

  lemma OldEntry(saved: map<Tag, Tensor>, mapping: map<int, Backup>, H: int, hosted: int, o: Tag, s: State,
                 tag: Tag, back: Tensor)
    requires EntryOk(saved, mapping, H, hosted, false, o, s) && tag !in saved
    ensures EntryOk(saved[tag := back], mapping, H, hosted, false, o, s)
  {
    var saved' := saved[tag := back];
    if IsFirst(saved', o) {
      forall p | p in saved && p.group == o.group && saved[p].key == saved[o].key ensures o.index <= p.index {
        assert p in saved';
      }
      assert IsFirst(saved, o);
    }
  }

  lemma PopEntries(saved: map<Tag, Tensor>, state: map<Tag, State>, buf: map<Tag, Option<Tensor>>,
                   mapping: map<int, Backup>, present: set<nat>, G: int, H: int, handles: int, freed: int, tag: Tag)
    requires EntriesOk(saved, state, buf, mapping, present, G, H, handles, freed, true)
    requires Min(handles, H) <= tag.group && tag in saved
    ensures EntriesOk(saved - {tag}, state - {tag}, buf - {tag}, mapping, present, G, H, handles, freed, true)
    ensures tag in state && state[tag].OnDevice? && SameValue(state[tag].tensor, saved[tag])
  {
  }

  /** A group that was not copied yet can be copied. */
  lemma GroupOnDevice(saved: map<Tag, Tensor>, state: map<Tag, State>, buf: map<Tag, Option<Tensor>>,
                      mapping: map<int, Backup>, present: set<nat>, G: int, H: int, handles: int, freed: int, g: int)
    requires EntriesOk(saved, state, buf, mapping, present, G, H, handles, freed, false)
    requires Min(handles, H) <= g
    ensures state.Keys == saved.Keys
    ensures forall tag :: tag in saved && tag.group == g ==> state[tag].OnDevice? && Stands(saved, tag, state[tag].tensor)
  {
  }

  /** `backup` has a copy for exactly the keys of the group, with the value that comes back. */
  ghost predicate BacksUp(saved: map<Tag, Tensor>, group: nat, backup: Backup) {
    && (forall tag :: tag in saved && tag.group == group ==>
          saved[tag].key in backup && backup[saved[tag].key] == saved[tag].data)
    && (forall key :: key in backup ==> exists tag :: tag in saved && tag.group == group && saved[tag].key == key)
  }

  ghost function WithGroup(present: set<nat>, g: nat, backup: Backup): set<nat> {
    if backup == map[] then present else present + {g}
  }

  lemma OffloadEntries(saved: map<Tag, Tensor>, state: map<Tag, State>, state': map<Tag, State>,
                       buf: map<Tag, Option<Tensor>>, mapping: map<int, Backup>, backup: Backup, present: set<nat>,
                       G: int, H: int, g: nat, freed: int)
    requires EntriesOk(saved, state, buf, mapping, present, G, H, g, freed, false)
    requires g < G && (g < H || forall tag :: tag in saved ==> tag.group != g)
    requires AllBelow(present, g)
    requires state'.Keys == saved.Keys && BacksUp(saved, g, backup)
    requires forall tag :: tag in saved ==>
      state'[tag] == if tag.group == g then OnHost(saved[tag].key, saved[tag].shape) else state[tag]
    ensures EntriesOk(saved, state', buf, mapping[g := backup], WithGroup(present, g, backup), G, H, g + 1, freed, false)
  {
    forall tag | tag in saved
      ensures EntryOk(saved, mapping[g := backup], H, Min(g + 1, H), false, tag, state'[tag])
    {
      OffloadEntry(saved, mapping, backup, H, g, tag, state[tag]);
    }
    hide EntryOk, BacksUp;
  }

  lemma OffloadEntry(saved: map<Tag, Tensor>, mapping: map<int, Backup>, backup: Backup, H: int, g: nat, tag: Tag,
                     s: State)
    requires EntryOk(saved, mapping, H, Min(g, H), false, tag, s) && g !in mapping && BacksUp(saved, g, backup)
    requires g < H || tag.group != g
    ensures EntryOk(saved, mapping[g := backup], H, Min(g + 1, H), false, tag,
                    if tag.group == g then OnHost(saved[tag].key, saved[tag].shape) else s)
  {
    hide Stands;
  }

  /** Only a group with tensors becomes present. */
  lemma OffloadPresent(saved: map<Tag, Tensor>, backup: Backup, present: set<nat>, H: int, g: nat)
    requires BacksUp(saved, g, backup) && (g < H || forall tag :: tag in saved ==> tag.group != g)
    requires AllBelow(present, Min(g, H))
    ensures AllBelow(WithGroup(present, g, backup), Min(g + 1, H))
  {
    if backup != map[] {
      var key :| key in backup;
    }
  }

  lemma DropEntries(saved: map<Tag, Tensor>, state: map<Tag, State>, buf: map<Tag, Option<Tensor>>,
                    buf': map<Tag, Option<Tensor>>, mapping: map<int, Backup>, present: set<nat>,
                    G: int, H: int, handles: int, g: int)
    requires EntriesOk(saved, state, buf, mapping, present, G, H, handles, g, false)
    requires buf'.Keys == buf.Keys
    requires forall tag :: tag in buf ==> buf'[tag] == if tag.group == g then None else buf[tag]
    ensures EntriesOk(saved, state, buf', mapping, present, G, H, handles, g + 1, false)
  {
  }

  /** An entry that a reload can deal with. */
  ghost predicate Reloadable(saved: map<Tag, Tensor>, tag: Tag, s: State, backup: Backup) {
    Handled(saved, tag, s, backup) || (tag in saved && s.OnDevice? && SameValue(s.tensor, saved[tag]))
  }

  lemma GroupOnHost(saved: map<Tag, Tensor>, state: map<Tag, State>, buf: map<Tag, Option<Tensor>>,
                    mapping: map<int, Backup>, present: set<nat>, G: int, H: int, freed: int, g: nat)
    requires EntriesOk(saved, state, buf, mapping, present, G, H, g + 1, freed, true)
    ensures state.Keys == saved.Keys && g in mapping && g < G && (mapping[g] != map[] <==> g in present)
    ensures forall tag :: tag in saved && tag.group == g ==> Reloadable(saved, tag, state[tag], mapping[g])
    ensures g < H ==> forall tag :: tag in saved && tag.group == g ==> state[tag].OnHost?
    ensures H <= g ==> forall tag :: tag in saved && tag.group == g ==> state[tag].OnDevice?
  {
  }

  lemma ReloadEntries(saved: map<Tag, Tensor>, state: map<Tag, State>, state': map<Tag, State>,
                      buf: map<Tag, Option<Tensor>>, mapping: map<int, Backup>, present: set<nat>,
                      G: int, H: int, g: nat, freed: int)
    requires EntriesOk(saved, state, buf, mapping, present, G, H, g + 1, freed, true)
    requires state'.Keys == saved.Keys
    requires forall tag :: tag in saved && tag.group == g ==>
      state'[tag].OnDevice? && SameValue(state'[tag].tensor, saved[tag])
    requires forall tag :: tag in saved && tag.group != g ==> state'[tag] == state[tag]
    ensures EntriesOk(saved, state', buf, mapping - {g}, present, G, H, g, freed, true)
  {
  }

  lemma TurnEntries(saved: map<Tag, Tensor>, state: map<Tag, State>, buf: map<Tag, Option<Tensor>>,
                    mapping: map<int, Backup>, present: set<nat>, G: int, H: int, current: int, count: nat)
    requires EntriesOk(saved, state, buf, mapping, present, G, H, G, G, false)
    requires TagsOk(saved, H, current, false, count, H)
    ensures EntriesOk(saved, state, buf, mapping, present, G, H, G, G, true)
    ensures TagsOk(saved, H, current, true, 0, H)
  {
  }

  lemma EmptyEntries(saved: map<Tag, Tensor>, state: map<Tag, State>, buf: map<Tag, Option<Tensor>>,
                     mapping: map<int, Backup>, present: set<nat>, G: int, H: int, freed: int, turned: bool)
    requires saved == map[]
    requires EntriesOk(saved, state, buf, mapping, present, G, H, 0, freed, turned)
    ensures state == map[] && buf == map[] && mapping == map[]
    ensures EntriesOk(saved, state, buf, mapping, {}, G, H, 0, 0, false)
    ensures TagsOk(saved, H, 0, false, 0, H)
  {
    assert forall g :: g !in mapping;
  }

  // ---------- copying one group, first come first kept ----------

  /** `first` has a tensor for every key of a tag of the group that is not in `todo`, with
      the value that comes back, and the tags in `todo` come after all others. */
  ghost predicate FirstOf(saved: map<Tag, Tensor>, g: nat, todo: set<Tag>, first: map<Key, Tensor>) {
    && (forall tag :: tag in saved && tag.group == g && tag !in todo ==> saved[tag].key in first)
    && (forall key :: key in first ==>
          (exists tag :: tag in saved && tag.group == g && saved[tag].key == key)
          && forall tag :: tag in saved && tag.group == g && saved[tag].key == key ==> first[key].data == saved[tag].data)
    && (forall tag, o :: tag in saved && o in todo && tag !in todo && tag.group == o.group == g ==> tag.index < o.index)
  }

  /** The next tag in insertion order: entries of one group were made in index order. */
  predicate IsNext(todo: set<Tag>, tag: Tag) {
    tag in todo && forall o :: o in todo && o.group == tag.group ==> tag.index <= o.index
  }

  lemma SomeNext(todo: set<Tag>, any: Tag)
    requires any in todo
    ensures exists tag :: IsNext(todo, tag)
    decreases any.index
  {
    if !IsNext(todo, any) {
      var o :| o in todo && o.group == any.group && o.index < any.index;
      SomeNext(todo, o);
    }
  }

  /** A tag of another group, or with a key that was seen, changes nothing. */
  lemma VisitSeen(saved: map<Tag, Tensor>, g: nat, todo: set<Tag>, first: map<Key, Tensor>, tag: Tag)
    requires FirstOf(saved, g, todo, first) && IsNext(todo, tag) && tag in saved
    requires tag.group != g || saved[tag].key in first
    ensures FirstOf(saved, g, todo - {tag}, first)
  {
    NextBefore(todo, tag);
  }

  lemma NextBefore(todo: set<Tag>, tag: Tag)
    requires IsNext(todo, tag)
    ensures forall o :: o in todo - {tag} && o.group == tag.group ==> tag.index < o.index
  {
    forall o | o in todo - {tag} && o.group == tag.group ensures tag.index < o.index {
      assert o.index != tag.index || o == tag;
    }
  }

  /** The first tag with its key is the one to copy. */
  lemma VisitFirst(saved: map<Tag, Tensor>, g: nat, todo: set<Tag>, first: map<Key, Tensor>, tag: Tag, t: Tensor)
    requires FirstOf(saved, g, todo, first) && IsNext(todo, tag) && tag in saved
    requires tag.group == g && saved[tag].key !in first && Stands(saved, tag, t) && Agrees(saved, g, saved[tag])
    ensures FirstOf(saved, g, todo - {tag}, first[saved[tag].key := t])
  {
    NextBefore(todo, tag);
    forall o | o in saved && o.group == g && saved[o].key == saved[tag].key ensures tag.index <= o.index {
      assert o in todo;
    }
    assert IsFirst(saved, tag);
    hide Stands, IsFirst, IsNext, Agrees;
  }

  /** The entries of the group that were visited are handles, all others are as before. */
  ghost predicate Handing(saved: map<Tag, Tensor>, g: nat, todo: set<Tag>, before: map<Tag, State>, now: map<Tag, State>) {
    && now.Keys == before.Keys == saved.Keys
    && forall tag :: tag in saved ==>
         now[tag] == if tag.group == g && tag !in todo then OnHost(saved[tag].key, saved[tag].shape) else before[tag]
  }

  lemma HandNext(saved: map<Tag, Tensor>, g: nat, todo: set<Tag>, before: map<Tag, State>, now: map<Tag, State>, tag: Tag)
    requires Handing(saved, g, todo, before, now) && tag in todo && tag in saved
    ensures now.Keys == saved.Keys && now[tag] == before[tag]
    ensures tag.group == g ==>
      Handing(saved, g, todo - {tag}, before, now[tag := OnHost(saved[tag].key, saved[tag].shape)])
    ensures tag.group != g ==> Handing(saved, g, todo - {tag}, before, now)
  {
  }

  lemma HandedOver(saved: map<Tag, Tensor>, g: nat, before: map<Tag, State>, now: map<Tag, State>)
    requires Handing(saved, g, {}, before, now)
    ensures now.Keys == saved.Keys
    ensures forall tag :: tag in saved ==>
      now[tag] == if tag.group == g then OnHost(saved[tag].key, saved[tag].shape) else before[tag]
  {
  }

  /** The host copies of lines 312-315, one for every key. */
  method CopyAll(first: map<Key, Tensor>) returns (backup: Backup)
    ensures backup == map key | key in first :: first[key].data
  {
    backup := map[];
    var keys := first.Keys;
    while keys != {}
      invariant keys <= first.Keys
      invariant backup == map key | key in first && key !in keys :: first[key].data
      decreases keys
    {
      var key :| key in keys;
      keys := keys - {key};
      backup := backup[key := first[key].data];
    }
  }

  lemma FirstBacksUp(saved: map<Tag, Tensor>, g: nat, first: map<Key, Tensor>, backup: Backup)
    requires FirstOf(saved, g, {}, first) && backup == map key | key in first :: first[key].data
    ensures BacksUp(saved, g, backup)
  {
  }
}
