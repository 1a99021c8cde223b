/** The final output of every session: selection, scatter and the validation copy
    (verl/trainer/main_ppo_sync.py, lines 144-162, 175 and 868-884). */
module SessionSelection {
  import opened Basics
  import opened SessionKeys

  datatype Outcome<R> = Selected(value: R) | AssertionFailed | ValueError

  ghost predicate AllParsed(toInt: ToInt, keys: seq<string>) {
    forall i :: 0 <= i < |keys| ==> ParseKey(toInt, keys[i]).Parsed?
  }

  /** Row `i` is the first row with the highest index of its session. */
  ghost predicate IsFinal(toInt: ToInt, keys: seq<string>, i: int) {
    0 <= i < |keys| && ParseKey(toInt, keys[i]).Parsed? && forall j :: 0 <= j < |keys| ==> !Beats(toInt, keys, j, i)
  }

  /** Row `j` is chosen over row `i`. */
  predicate Beats(toInt: ToInt, keys: seq<string>, j: int, i: int)
    requires 0 <= i < |keys| && 0 <= j < |keys|
  {
    var a, b := ParseKey(toInt, keys[i]), ParseKey(toInt, keys[j]);
    a.Parsed? && b.Parsed? && a.session == b.session && (b.index > a.index || (b.index == a.index && j < i))
  }

  type Best = map<string, (int, nat)>

  /** One more row against the best of every session; a key without three parts is a
      session of its own and always replaces what is there. */
  function Better(toInt: ToInt, best: Best, key: string, row: nat): Best
    requires !ParseKey(toInt, key).NotANumber?
  {
    var p := ParseKey(toInt, key);
    if p.NotThreeParts? then best[key := (0, row)]
    else if p.session !in best || best[p.session].0 < p.index then best[p.session := (p.index, row)]
    else best
  }

  /** Session to its best index and row. */
  function SessionMax(toInt: ToInt, keys: seq<string>): Best
    requires forall i :: 0 <= i < |keys| ==> !ParseKey(toInt, keys[i]).NotANumber?
  {
    if keys == [] then map[] else Better(toInt, SessionMax(toInt, keys[..|keys| - 1]), keys[|keys| - 1], |keys| - 1)
  }

  ghost predicate BestIsFinal(toInt: ToInt, keys: seq<string>, best: Best) {
    && (forall s :: s in best ==>
          IsFinal(toInt, keys, best[s].1) && ParseKey(toInt, keys[best[s].1]) == Parsed(s, best[s].0))
    && (forall i :: 0 <= i < |keys| ==> ParseKey(toInt, keys[i]).Parsed? && ParseKey(toInt, keys[i]).session in best)
  }

  lemma StillFinal(toInt: ToInt, keys: seq<string>, key: string, i: int)
    requires IsFinal(toInt, keys, i)
    requires !(ParseKey(toInt, key).Parsed? && ParseKey(toInt, key).session == ParseKey(toInt, keys[i]).session
               && ParseKey(toInt, key).index > ParseKey(toInt, keys[i]).index)
    ensures IsFinal(toInt, keys + [key], i)
  {
    forall j | 0 <= j < |keys + [key]| ensures !Beats(toInt, keys + [key], j, i) {
      if j < |keys| { assert !Beats(toInt, keys, j, i); }
    }
  }

  lemma NewFinal(toInt: ToInt, keys: seq<string>, best: Best, key: string)
    requires BestIsFinal(toInt, keys, best) && ParseKey(toInt, key).Parsed?
    requires ParseKey(toInt, key).session in best ==> best[ParseKey(toInt, key).session].0 < ParseKey(toInt, key).index
    ensures IsFinal(toInt, keys + [key], |keys|)
  {
    var all, p := keys + [key], ParseKey(toInt, key);
    forall j | 0 <= j < |all| ensures !Beats(toInt, all, j, |keys|) {
      if j < |keys| && ParseKey(toInt, keys[j]).session == p.session {
        assert !Beats(toInt, keys, j, best[p.session].1);
      }
    }
  }

  lemma BetterIsFinal(toInt: ToInt, keys: seq<string>, best: Best, key: string)
    requires BestIsFinal(toInt, keys, best) && ParseKey(toInt, key).Parsed?
    ensures BestIsFinal(toInt, keys + [key], Better(toInt, best, key, |keys|))
  {
    var all, p, next := keys + [key], ParseKey(toInt, key), Better(toInt, best, key, |keys|);
    forall s | s in next
      ensures IsFinal(toInt, all, next[s].1) && ParseKey(toInt, all[next[s].1]) == Parsed(s, next[s].0)
    {
      if next[s].1 == |keys| { NewFinal(toInt, keys, best, key); } else { StillFinal(toInt, keys, key, next[s].1); }
    }
  }

  /** The dictionary of best rows holds every session once, with its final row. */
  lemma {:induction false} SessionMaxIsFinal(toInt: ToInt, keys: seq<string>)
    requires AllParsed(toInt, keys)
    ensures BestIsFinal(toInt, keys, SessionMax(toInt, keys))
  {
    if keys != [] {
      var front := keys[..|keys| - 1];
      SessionMaxIsFinal(toInt, front);
      BetterIsFinal(toInt, front, SessionMax(toInt, front), keys[|keys| - 1]);
      assert keys == front + [keys[|keys| - 1]];
    }
  }

  lemma FinalIsUnique(toInt: ToInt, keys: seq<string>, i: int, j: int)
    requires IsFinal(toInt, keys, i) && IsFinal(toInt, keys, j)
    requires ParseKey(toInt, keys[i]).session == ParseKey(toInt, keys[j]).session
    ensures i == j
  {
    assert !Beats(toInt, keys, i, j) && !Beats(toInt, keys, j, i);
  }

  /** Row `f` belongs to the session of row `i`; no row of the session has a higher index,
      and none before it has the same. */
  ghost predicate IsLastOutput(toInt: ToInt, keys: seq<string>, i: int, f: int) {
    && 0 <= i < |keys| && 0 <= f < |keys| && ParseKey(toInt, keys[i]).Parsed? && ParseKey(toInt, keys[f]).Parsed?
    && ParseKey(toInt, keys[f]).session == ParseKey(toInt, keys[i]).session
    && forall j :: 0 <= j < |keys| && ParseKey(toInt, keys[j]).Parsed?
                   && ParseKey(toInt, keys[j]).session == ParseKey(toInt, keys[i]).session ==>
         if j < f then ParseKey(toInt, keys[j]).index < ParseKey(toInt, keys[f]).index
         else ParseKey(toInt, keys[j]).index <= ParseKey(toInt, keys[f]).index
  }

  lemma FinalIsLast(toInt: ToInt, keys: seq<string>, i: int, f: int)
    requires IsFinal(toInt, keys, f) && 0 <= i < |keys| && ParseKey(toInt, keys[i]).Parsed?
    requires ParseKey(toInt, keys[f]).session == ParseKey(toInt, keys[i]).session
    ensures IsLastOutput(toInt, keys, i, f)
  {
    hide ParseKey;
    forall j | 0 <= j < |keys| && ParseKey(toInt, keys[j]).Parsed?
               && ParseKey(toInt, keys[j]).session == ParseKey(toInt, keys[i]).session
      ensures ParseKey(toInt, keys[j]).index < ParseKey(toInt, keys[f]).index
              || (ParseKey(toInt, keys[j]).index == ParseKey(toInt, keys[f]).index && f <= j)
    {
      assert !Beats(toInt, keys, j, f);
    }
  }

  lemma FinalIff(toInt: ToInt, keys: seq<string>, i: int)
    ensures IsFinal(toInt, keys, i) <==> IsLastOutput(toInt, keys, i, i)
  {
    hide ParseKey;
    if IsFinal(toInt, keys, i) { FinalIsLast(toInt, keys, i, i); }
    if IsLastOutput(toInt, keys, i, i) {
      forall j | 0 <= j < |keys| ensures !Beats(toInt, keys, j, i) { }
    }
  }

  /** The key concerns the dictionary entry `s`: as a session's, or for want of three parts. */
  predicate Concerns(toInt: ToInt, key: string, s: string) {
    match ParseKey(toInt, key)
    case Parsed(session, _) => session == s
    case NotThreeParts => key == s
    case NotANumber => false
  }

  /** A key without three parts takes its entry from whatever row had it, and keeps it until
      another row concerns it. */
  lemma {:induction false} MalformedTakes(toInt: ToInt, keys: seq<string>, i: nat)
    requires forall j :: 0 <= j < |keys| ==> !ParseKey(toInt, keys[j]).NotANumber?
    requires i < |keys| && ParseKey(toInt, keys[i]).NotThreeParts?
    requires forall j :: i < j < |keys| ==> !Concerns(toInt, keys[j], keys[i])
    ensures keys[i] in SessionMax(toInt, keys) && SessionMax(toInt, keys)[keys[i]] == (0, i)
  {
    var front := keys[..|keys| - 1];
    if i < |front| {
      assert !Concerns(toInt, keys[|keys| - 1], keys[i]);
      hide ParseKey;
      MalformedTakes(toInt, front, i);
    }
  }

  // ---------- selection and scatter for the advantages ----------

  /** One final row for every session, and every row mapped to its own session's. */
  ghost predicate ScatterOk(toInt: ToInt, keys: seq<string>, finals: seq<nat>, local: seq<nat>) {
    && |local| == |keys|
    && (forall l :: 0 <= l < |finals| ==> IsFinal(toInt, keys, finals[l]))
    && (forall l, m :: 0 <= l < m < |finals| ==>
          ParseKey(toInt, keys[finals[l]]).session != ParseKey(toInt, keys[finals[m]]).session)
    && (forall i :: 0 <= i < |keys| ==>
          && local[i] < |finals| && ParseKey(toInt, keys[i]).Parsed?
          && ParseKey(toInt, keys[finals[local[i]]]).session == ParseKey(toInt, keys[i]).session)
  }

  /** A dictionary's keys in insertion order. */
  ghost predicate Ordered(order: seq<string>, keys: set<string>) {
    (forall s :: s in order <==> s in keys) && forall l, m :: 0 <= l < m < |order| ==> order[l] != order[m]
  }

  /** The first loop, lines 145-153. */
  method CollectSessions(toInt: ToInt, keys: seq<string>)
    returns (r: Outcome<(Best, seq<string>, seq<string>)>)
    ensures r.Selected? <==> AllParsed(toInt, keys)
    ensures r.Selected? ==>
      && r.value.0 == SessionMax(toInt, keys) && Ordered(r.value.1, r.value.0.Keys)
      && |r.value.2| == |keys| && forall i :: 0 <= i < |keys| ==> r.value.2[i] == ParseKey(toInt, keys[i]).session
  {
    var best: Best := map[];
    var order: seq<string> := [];
    var rows: seq<string> := [];
    hide ParseKey;
    for i := 0 to |keys|
      invariant AllParsed(toInt, keys[..i]) && best == SessionMax(toInt, keys[..i]) && Ordered(order, best.Keys)
      invariant |rows| == i && forall j :: 0 <= j < i ==> rows[j] == ParseKey(toInt, keys[j]).session
    {
      var p := ParseKey(toInt, keys[i]);
      if p.NotThreeParts? { return AssertionFailed; }
      if p.NotANumber? { return ValueError; }
      assert keys[..i + 1][..i] == keys[..i];
      rows := rows + [p.session];
      best, order := Visit(toInt, best, order, keys[i], p, i);
    }
    assert keys[..|keys|] == keys;
    r := Selected((best, order, rows));
  }

  /** Line 153: the row replaces its session's best row if its index is higher. */
  method Visit(toInt: ToInt, best: Best, order: seq<string>, ghost key: string, p: Parse, row: nat)
    returns (next: Best, nextOrder: seq<string>)
    requires p == ParseKey(toInt, key) && p.Parsed? && Ordered(order, best.Keys)
    ensures next == Better(toInt, best, key, row) && Ordered(nextOrder, next.Keys)
  {
    next, nextOrder := best, order;
    if p.session !in best || best[p.session].0 < p.index {
      if p.session !in best { nextOrder := order + [p.session]; }
      next := best[p.session := (p.index, row)];
    }
  }

  /** Selection fails exactly on a malformed key; otherwise it scatters correctly. */
  method ScatterSessions(toInt: ToInt, keys: seq<string>) returns (r: Outcome<(seq<nat>, seq<nat>)>)
    ensures r.Selected? <==> AllParsed(toInt, keys)
    ensures r.Selected? ==> ScatterOk(toInt, keys, r.value.0, r.value.1)
    ensures r.Selected? ==> forall i :: 0 <= i < |keys| ==> IsLastOutput(toInt, keys, i, r.value.0[r.value.1[i]])
  {
    var collected := CollectSessions(toInt, keys);
    if collected.AssertionFailed? { return AssertionFailed; }
    if collected.ValueError? { return ValueError; }
    var (best, order, rows) := collected.value;
    SessionMaxIsFinal(toInt, keys);
    var finals, places := PlaceSessions(best, order);
    var local := LocalIndices(order, rows, places);
    ScatterCorrect(toInt, keys, best, order, rows, finals, local);
    forall i | 0 <= i < |keys| ensures IsLastOutput(toInt, keys, i, finals[local[i]]) {
      FinalIsLast(toInt, keys, i, finals[local[i]]);
    }
    r := Selected((finals, local));
  }

  /** The second loop, lines 156-160. */
  method PlaceSessions(best: Best, order: seq<string>) returns (finals: seq<nat>, places: map<string, nat>)
    requires Ordered(order, best.Keys)
    ensures |finals| == |order| && forall l :: 0 <= l < |order| ==> order[l] in best && finals[l] == best[order[l]].1
    ensures places.Keys == best.Keys && forall s :: s in places ==> places[s] < |order| && order[places[s]] == s
  {
    finals, places := [], map[];
    assert forall l :: 0 <= l < |order| ==> order[l] in order;
    hide Ordered;
    for l := 0 to |order|
      invariant |finals| == l && forall m :: 0 <= m < l ==> finals[m] == best[order[m]].1
      invariant forall m :: 0 <= m < l ==> order[m] in places
      invariant forall s :: s in places ==> places[s] < l && order[places[s]] == s
    {
      finals := finals + [best[order[l]].1];
      places := places[order[l] := |finals| - 1];
    }
    PlacesAll(best, order, places);
  }

  lemma PlacesAll(best: Best, order: seq<string>, places: map<string, nat>)
    requires Ordered(order, best.Keys) && forall m :: 0 <= m < |order| ==> order[m] in places
    requires forall s :: s in places ==> places[s] < |order| && order[places[s]] == s
    ensures places.Keys == best.Keys
  {
    forall s | s in best ensures s in places { assert s in order; }
  }

  /** Line 162. */
  method LocalIndices(order: seq<string>, rows: seq<string>, places: map<string, nat>) returns (local: seq<nat>)
    requires forall s :: s in places ==> places[s] < |order| && order[places[s]] == s
    requires forall i :: 0 <= i < |rows| ==> rows[i] in places
    ensures |local| == |rows| && forall i :: 0 <= i < |rows| ==> local[i] < |order| && order[local[i]] == rows[i]
  {
    local := [];
    for i := 0 to |rows|
      invariant |local| == i && forall j :: 0 <= j < i ==> local[j] < |order| && order[local[j]] == rows[j]
    {
      local := local + [places[rows[i]]];
    }
  }

  lemma ScatterCorrect(toInt: ToInt, keys: seq<string>, best: Best, order: seq<string>, rows: seq<string>,
                       finals: seq<nat>, local: seq<nat>)
    requires BestIsFinal(toInt, keys, best) && Ordered(order, best.Keys)
    requires |rows| == |keys| && forall i :: 0 <= i < |keys| ==> rows[i] == ParseKey(toInt, keys[i]).session
    requires |finals| == |order| && forall l :: 0 <= l < |order| ==> order[l] in best && finals[l] == best[order[l]].1
    requires |local| == |rows| && forall i :: 0 <= i < |rows| ==> local[i] < |order| && order[local[i]] == rows[i]
    ensures ScatterOk(toInt, keys, finals, local)
  {
    hide ParseKey;
    forall l | 0 <= l < |finals|
      ensures IsFinal(toInt, keys, finals[l]) && ParseKey(toInt, keys[finals[l]]).session == order[l]
    {
    }
  }

  // ---------- the validation copy ----------

  /** The rows of the dictionary sorted by position: every row below `n` that is in it. */
  function Positions(best: Best, n: nat): (ps: seq<nat>)
    ensures forall p :: p in ps <==> p < n && exists s :: s in best && best[s].1 == p
    ensures forall i :: 0 <= i < |ps| ==> ps[i] < n
    ensures forall i, j :: 0 <= i < j < |ps| ==> ps[i] < ps[j]
  {
    if n == 0 then []
    else
      var front := Positions(best, n - 1);
      if exists s :: s in best && best[s].1 == n - 1 then front + [n - 1] else front
  }

  lemma {:induction false} RowsInRange(toInt: ToInt, keys: seq<string>)
    requires forall i :: 0 <= i < |keys| ==> !ParseKey(toInt, keys[i]).NotANumber?
    ensures forall s :: s in SessionMax(toInt, keys) ==> SessionMax(toInt, keys)[s].1 < |keys|
  {
    if keys != [] { RowsInRange(toInt, keys[..|keys| - 1]); }
  }

  /** Lines 870-882. On well-formed keys it selects exactly the final rows, in order. */
  method ValidateSelection(toInt: ToInt, keys: seq<string>) returns (r: Outcome<seq<nat>>)
    ensures r.Selected? <==> forall i :: 0 <= i < |keys| ==> !ParseKey(toInt, keys[i]).NotANumber?
    ensures !r.AssertionFailed?
    ensures r.Selected? ==> forall p :: p in r.value <==>
      exists s :: s in SessionMax(toInt, keys) && SessionMax(toInt, keys)[s].1 == p
    ensures r.Selected? ==> forall i, j :: 0 <= i < j < |r.value| ==> r.value[i] < r.value[j]
    ensures AllParsed(toInt, keys) ==> forall p :: p in r.value <==> IsFinal(toInt, keys, p)
  {
    var best: Best := map[];
    hide ParseKey;
    for i := 0 to |keys|
      invariant forall j :: 0 <= j < i ==> !ParseKey(toInt, keys[j]).NotANumber?
      invariant best == SessionMax(toInt, keys[..i])
    {
      var p := ParseKey(toInt, keys[i]);
      assert keys[..i + 1][..i] == keys[..i];
      if p.NotANumber? { return ValueError; }
      if p.Parsed? {
        if p.session !in best || p.index > best[p.session].0 { best := best[p.session := (p.index, i)]; }
      } else {
        best := best[keys[i] := (0, i)];
      }
    }
    assert keys[..|keys|] == keys;
    RowsInRange(toInt, keys);
    var rows := Positions(best, |keys|);
    ghost var ok := AllParsed(toInt, keys);
    if ok { SelectedIffFinal(toInt, keys, rows); }
    r := Selected(rows);
  }

  lemma SelectedIffFinal(toInt: ToInt, keys: seq<string>, rows: seq<nat>)
    requires AllParsed(toInt, keys)
    requires forall p :: p in rows <==>
      p < |keys| && exists s :: s in SessionMax(toInt, keys) && SessionMax(toInt, keys)[s].1 == p
    ensures forall p :: p in rows <==> IsFinal(toInt, keys, p)
  {
    SessionMaxIsFinal(toInt, keys);
    var best := SessionMax(toInt, keys);
    forall p: nat | IsFinal(toInt, keys, p) ensures p in rows {
      var s := ParseKey(toInt, keys[p]).session;
      assert s in best;
      FinalIsUnique(toInt, keys, p, best[s].1);
    }
  }

  // ---------- what the selections have in common ----------

  /** A correct scatter selects every final row, and no other. */
  lemma ScatterSelectsFinals(toInt: ToInt, keys: seq<string>, finals: seq<nat>, local: seq<nat>)
    requires ScatterOk(toInt, keys, finals, local)
    ensures forall p: nat :: p in finals <==> IsFinal(toInt, keys, p)
    ensures forall l, m :: 0 <= l < m < |finals| ==> finals[l] != finals[m]
  {
    forall p: nat | IsFinal(toInt, keys, p) ensures p in finals {
      FinalIsUnique(toInt, keys, p, finals[local[p]]);
    }
  }

  /** Training and validation select the same rows. */
  method SelectionsAgree(toInt: ToInt, keys: seq<string>) returns (trained: seq<nat>, validated: seq<nat>)
    requires AllParsed(toInt, keys)
    ensures forall p :: p in trained <==> p in validated
    ensures |trained| == |validated|
  {
    var scatter := ScatterSessions(toInt, keys);
    var selection := ValidateSelection(toInt, keys);
    trained, validated := scatter.value.0, selection.value;
    ScatterSelectsFinals(toInt, keys, trained, scatter.value.1);
    SameLength(trained, validated);
  }

  lemma SameLength(a: seq<nat>, b: seq<nat>)
    requires forall p :: p in a <==> p in b
    requires forall i, j :: 0 <= i < j < |a| ==> a[i] != a[j]
    requires forall i, j :: 0 <= i < j < |b| ==> b[i] != b[j]
    ensures |a| == |b|
  {
    SetSize(a);
    SetSize(b);
    assert Members(a) == Members(b);
  }

  function Members(a: seq<nat>): set<nat> { set p | p in a }

  lemma {:induction false} SetSize(a: seq<nat>)
    requires forall i, j :: 0 <= i < j < |a| ==> a[i] != a[j]
    ensures |Members(a)| == |a|
  {
    if a != [] {
      var front, last := a[..|a| - 1], a[|a| - 1];
      SetSize(front);
      assert a == front + [last];
      assert Members(a) == Members(front) + {last};
      assert last !in Members(front);
    }
  }

  // ---------- the order of the rows does not matter ----------

  /** With printed keys, each at most once, rows of one session differ in index. */
  ghost predicate PrintedDistinct(keys: seq<string>) {
    (forall i :: 0 <= i < |keys| ==> IsPrinted(keys[i]))
    && forall i, j :: 0 <= i < j < |keys| ==> keys[i] != keys[j]
  }

  lemma FinalBeatsAll(toInt: ToInt, keys: seq<string>, i: int, key: string)
    requires ReadsDecimals(toInt) && PrintedDistinct(keys) && IsFinal(toInt, keys, i)
    requires key in keys && ParseKey(toInt, key).Parsed?
    requires ParseKey(toInt, key).session == ParseKey(toInt, keys[i]).session
    ensures key == keys[i] || ParseKey(toInt, key).index < ParseKey(toInt, keys[i]).index
  {
    var j :| 0 <= j < |keys| && keys[j] == key;
    assert !Beats(toInt, keys, j, i);
    if ParseKey(toInt, key).index == ParseKey(toInt, keys[i]).index { PrintedKeyDetermined(toInt, key, keys[i]); }
  }

  /** The same rows in another order: every row is mapped to the same final key, so
      whatever score the final key gets, scattering commutes with permuting the rows. */
  lemma ScatterIgnoresOrder(toInt: ToInt, keys: seq<string>, finals: seq<nat>, local: seq<nat>,
                            keys': seq<string>, finals': seq<nat>, local': seq<nat>, i: nat, i': nat)
    requires ReadsDecimals(toInt) && PrintedDistinct(keys) && PrintedDistinct(keys') && multiset(keys) == multiset(keys')
    requires ScatterOk(toInt, keys, finals, local) && ScatterOk(toInt, keys', finals', local')
    requires i < |keys| && i' < |keys'| && keys[i] == keys'[i']
    ensures keys[finals[local[i]]] == keys'[finals'[local'[i']]]
  {
    var f, f' := finals[local[i]], finals'[local'[i']];
    assert keys'[f'] in multiset(keys') && keys[f] in multiset(keys);
    FinalBeatsAll(toInt, keys, f, keys'[f']);
    FinalBeatsAll(toInt, keys', f', keys[f]);
  }
}
