/** Merging the metadata of concatenated batches, with the metrics of different workers
    (verl/protocol.py, lines 937-958; verl/utils/py_functional.py, lines 359-368). */
module MetaMerge {
  import opened Basics

  /** A metadata value; `Plain` is whatever is neither None, a list nor a dictionary. */
  datatype Value<+M> =
    | Plain(v: M) | PyNone | ListOf(items: seq<Value<M>>) | DictOf(entries: map<string, Value<M>>)

  type Meta<+M> = map<string, Value<M>>

  datatype Outcome<+R> = Ok(value: R) | ZeroDivision | AssertionFailed | AttributeError | IndexError | TensorKeyError

  // ---------- a list of dictionaries as a dictionary of lists ----------

  ghost predicate KeysCovered<V>(ds: seq<map<string, V>>) { forall i :: 0 <= i < |ds| ==> ds[i].Keys <= ds[0].Keys }

  /** What the dictionaries hold under one key, in order. */
  function Gathered<V>(ds: seq<map<string, V>>, k: string): seq<V> {
    if ds == [] then []
    else Gathered(ds[..|ds| - 1], k) + (if k in ds[|ds| - 1] then [ds[|ds| - 1][k]] else [])
  }

  lemma GatheredSnoc<V>(ds: seq<map<string, V>>, i: nat, k: string)
    requires i < |ds|
    ensures Gathered(ds[..i + 1], k) == if k in ds[i] then Gathered(ds[..i], k) + [ds[i][k]] else Gathered(ds[..i], k)
  {
    assert ds[..i + 1][..i] == ds[..i];
  }

  /** What the lists hold after the first `i` dictionaries. */
  ghost predicate Collected<V>(output: map<string, seq<V>>, ds: seq<map<string, V>>, i: nat)
    requires ds != [] && i <= |ds|
  {
    output.Keys == ds[0].Keys && forall k :: k in output ==> output[k] == Gathered(ds[..i], k)
  }

  lemma CollectedStep<V>(output: map<string, seq<V>>, next: map<string, seq<V>>, ds: seq<map<string, V>>, i: nat)
    requires i < |ds| && Collected(output, ds, i)
    requires Appended(output, ds[i], next)
    ensures Collected(next, ds, i + 1)
  {
    forall k | k in next ensures next[k] == Gathered(ds[..i + 1], k) {
      GatheredSnoc(ds, i, k);
    }
  }

  lemma CollectedAll<V>(output: map<string, seq<V>>, ds: seq<map<string, V>>)
    requires ds != [] && Collected(output, ds, |ds|)
    ensures output.Keys == ds[0].Keys && forall k :: k in output ==> output[k] == Gathered(ds, k)
  {
    assert ds[..|ds|] == ds;
  }

  predicate HasKey<V>(ds: seq<map<string, V>>, k: string, j: int) { 0 <= j < |ds| && k in ds[j] }

  /** How many of the first `i` dictionaries have the key. */
  ghost function Holders<V>(ds: seq<map<string, V>>, k: string, i: nat): nat {
    |set j | 0 <= j < i && HasKey(ds, k, j)|
  }

  /** The list has one item for every dictionary with the key, its value, in their order. */
  ghost predicate ListsInOrder<V>(list: seq<V>, ds: seq<map<string, V>>, k: string) {
    && |list| == Holders(ds, k, |ds|)
    && forall i :: 0 <= i < |ds| && k in ds[i] ==>
         Holders(ds, k, i) < |list| && list[Holders(ds, k, i)] == ds[i][k]
  }

  lemma HoldersStep<V>(ds: seq<map<string, V>>, k: string, i: nat)
    requires i < |ds|
    ensures Holders(ds, k, i + 1) == Holders(ds, k, i) + if k in ds[i] then 1 else 0
  {
    var before, after := set j | 0 <= j < i && HasKey(ds, k, j), set j | 0 <= j < i + 1 && HasKey(ds, k, j);
    assert after == if k in ds[i] then before + {i} else before;
  }

  lemma {:induction false} GatheredInOrder<V>(ds: seq<map<string, V>>, k: string, n: nat)
    requires n <= |ds|
    ensures |Gathered(ds[..n], k)| == Holders(ds, k, n)
    ensures forall i :: 0 <= i < n && k in ds[i] ==>
      Holders(ds, k, i) < Holders(ds, k, n) && Gathered(ds[..n], k)[Holders(ds, k, i)] == ds[i][k]
  {
    if n > 0 {
      GatheredInOrder(ds, k, n - 1);
      GatheredSnoc(ds, n - 1, k);
      HoldersStep(ds, k, n - 1);
      hide Holders, Gathered;
    } else {
      assert ds[..0] == [];
    }
  }

  lemma GatheredLists<V>(ds: seq<map<string, V>>, k: string)
    ensures ListsInOrder(Gathered(ds, k), ds, k)
  {
    GatheredInOrder(ds, k, |ds|);
    assert ds[..|ds|] == ds;
  }

  /** When all dictionaries have the key, item `i` is the value of dictionary `i`. */
  lemma {:induction false} AllHold<V>(ds: seq<map<string, V>>, k: string, i: nat)
    requires i <= |ds| && forall j :: 0 <= j < |ds| ==> k in ds[j]
    ensures Holders(ds, k, i) == i
  {
    if i > 0 {
      AllHold(ds, k, i - 1);
      HoldersStep(ds, k, i - 1);
    } else {
      assert (set j | 0 <= j < 0 && HasKey(ds, k, j)) == {};
    }
  }

  /** `list_of_dict_to_dict_of_list`: it fails exactly on a key that the first dictionary
      does not have. */
  method DictOfLists<V>(ds: seq<map<string, V>>) returns (r: Option<map<string, seq<V>>>)
    requires ds != []
    ensures r.Some? <==> KeysCovered(ds)
    ensures r.Some? ==> r.value.Keys == ds[0].Keys && forall k :: k in r.value ==> r.value[k] == Gathered(ds, k)
    ensures r.Some? ==> forall k :: k in r.value ==> ListsInOrder(r.value[k], ds, k)
  {
    var output: map<string, seq<V>> := map k | k in ds[0] :: [];
    assert Collected(output, ds, 0);
    hide Collected, Appended, Gathered, ListsInOrder;
    for i := 0 to |ds|
      invariant output.Keys == ds[0].Keys && Collected(output, ds, i)
      invariant forall j :: 0 <= j < i ==> ds[j].Keys <= ds[0].Keys
    {
      if !(ds[i].Keys <= output.Keys) { return None; }
      var next := AppendAll(output, ds[i]);
      CollectedStep(output, next, ds, i);
      output := next;
    }
    CollectedAll(output, ds);
    forall k | k in output ensures ListsInOrder(output[k], ds, k) { GatheredLists(ds, k); }
    r := Some(output);
  }

  /** Every item is appended to the list under its key. */
  ghost predicate Appended<V>(output: map<string, seq<V>>, items: map<string, V>, r: map<string, seq<V>>) {
    r.Keys == output.Keys
    && forall k :: k in output ==> r[k] == if k in items then output[k] + [items[k]] else output[k]
  }

  /** The inner loop over one dictionary. */
  method AppendAll<V>(output: map<string, seq<V>>, items: map<string, V>) returns (r: map<string, seq<V>>)
    requires items.Keys <= output.Keys
    ensures r.Keys == output.Keys && Appended(output, items, r)
  {
    r := output;
    var todo := items.Keys;
    while todo != {}
      invariant todo <= items.Keys && r.Keys == output.Keys
      invariant forall k :: k in output ==>
        r[k] == if k in items && k !in todo then output[k] + [items[k]] else output[k]
      decreases todo
    {
      var k :| k in todo;
      todo := todo - {k};
      r := r[k := r[k] + [items[k]]];
    }
  }

  // ---------- everything but the metrics ----------

  ghost predicate Same<V>(a: map<string, V>, b: map<string, V>) { forall k :: k in a && k in b ==> a[k] == b[k] }

  /** What is stored under one key is the same wherever it occurs. */
  ghost predicate Agree<V>(ms: seq<map<string, V>>) { forall i, j :: 0 <= i < j < |ms| ==> Same(ms[i], ms[j]) }

  function Union<V>(ms: seq<map<string, V>>): map<string, V> {
    if ms == [] then map[] else Union(ms[..|ms| - 1]) + ms[|ms| - 1]
  }

  /** A dictionary agrees with the union of agreeing ones exactly when it agrees with each. */
  lemma {:induction false} SameAsUnion<V>(ms: seq<map<string, V>>, m: map<string, V>)
    requires Agree(ms)
    ensures Same(Union(ms), m) <==> forall i :: 0 <= i < |ms| ==> Same(ms[i], m)
  {
    if ms != [] {
      var front, last := ms[..|ms| - 1], ms[|ms| - 1];
      SameAsUnion(front, m);
      SameAsUnion(front, last);
      forall i | 0 <= i < |front| ensures Same(front[i], last) && front[i] == ms[i] { assert Same(ms[i], last); }
      SameAsSum(Union(front), last, m);
    }
  }

  lemma SameAsSum<V>(a: map<string, V>, b: map<string, V>, m: map<string, V>)
    requires Same(a, b)
    ensures Same(a + b, m) <==> Same(a, m) && Same(b, m)
  {
    if Same(a + b, m) {
      forall k | k in a && k in m ensures a[k] == m[k] { assert k in a + b; }
      forall k | k in b && k in m ensures b[k] == m[k] { assert k in a + b; }
    }
  }

  lemma AgreeSnoc<V>(ms: seq<map<string, V>>, m: map<string, V>)
    requires Agree(ms)
    ensures Agree(ms + [m]) <==> Same(Union(ms), m)
  {
    SameAsUnion(ms, m);
    hide Same, Union;
    var all := ms + [m];
    assert forall i :: 0 <= i < |ms| ==> all[i] == ms[i];
    if Agree(all) {
      forall i | 0 <= i < |ms| ensures Same(ms[i], m) { assert Same(all[i], all[|ms|]); }
    }
  }

  // ---------- the metrics ----------

  const METRICS := "metrics"

  function Others<M>(m: Meta<M>): Meta<M> { m - {METRICS} }

  function OthersOf<M>(ms: seq<Meta<M>>): (os: seq<Meta<M>>)
    ensures |os| == |ms| && forall i :: 0 <= i < |ms| ==> os[i] == Others(ms[i])
  {
    seq(|ms|, i requires 0 <= i < |ms| => Others(ms[i]))
  }

  /** What one batch adds to the list of metrics: lines 943-948. */
  function MetricsOf<M>(m: Meta<M>): seq<Value<M>> {
    if METRICS !in m then []
    else
      match m[METRICS]
      case PyNone => []
      case ListOf(items) => items
      case v => [v]
  }

  function AllMetrics<M>(ms: seq<Meta<M>>): seq<Value<M>> {
    if ms == [] then [] else AllMetrics(ms[..|ms| - 1]) + MetricsOf(ms[|ms| - 1])
  }

  /** Metrics can be merged when all are dictionaries with keys that the first one has. */
  ghost predicate MetricsOk<M>(all: seq<Value<M>>) {
    forall i :: 0 <= i < |all| ==> all[i].DictOf? && all[0].DictOf? && all[i].entries.Keys <= all[0].entries.Keys
  }

  function Entries<M>(all: seq<Value<M>>): (ds: seq<Meta<M>>)
    requires forall i :: 0 <= i < |all| ==> all[i].DictOf?
    ensures |ds| == |all| && forall i :: 0 <= i < |all| ==> ds[i] == all[i].entries
  {
    seq(|all|, i requires 0 <= i < |all| => all[i].entries)
  }

  /** The merged metrics, a dictionary of lists. */
  function MetricTable<M>(all: seq<Value<M>>): Meta<M>
    requires all != [] && forall i :: 0 <= i < |all| ==> all[i].DictOf?
  {
    map k | k in all[0].entries :: ListOf(Gathered(Entries(all), k))
  }

  ghost function MergedMeta<M>(ms: seq<Meta<M>>): Meta<M>
    requires MetricsOk(AllMetrics(ms))
  {
    if AllMetrics(ms) == [] then Union(OthersOf(ms))
    else Union(OthersOf(ms))[METRICS := DictOf(MetricTable(AllMetrics(ms)))]
  }

  /** One batch in the loop of lines 941-954. */
  method MergeOne<M(==)>(merged: Meta<M>, all: seq<Value<M>>, more: Meta<M>)
    returns (r: Option<Meta<M>>, metrics: seq<Value<M>>)
    requires METRICS !in merged
    ensures r.Some? <==> Same(merged, Others(more))
    ensures r.Some? ==> r.value == merged + Others(more) && metrics == all + MetricsOf(more)
  {
    var result := merged;
    metrics := all;
    var todo := more.Keys;
    assert Visited(merged, more, todo, result);
    hide Visited, MetricsOf;
    while todo != {}
      invariant todo <= more.Keys && Visited(merged, more, todo, result)
      invariant metrics == if METRICS in todo || METRICS !in more then all else all + MetricsOf(more)
      decreases todo
    {
      var k :| k in todo;
      VisitOne(merged, more, todo, result, k);
      todo := todo - {k};
      if k == METRICS {
        MetricsAre(more);
        if more[k] != PyNone {
          if more[k].ListOf? { metrics := metrics + more[k].items; } else { metrics := metrics + [more[k]]; }
        }
      } else if k in result {
        if result[k] != more[k] { return None, metrics; }
      } else {
        result := result[k := more[k]];
      }
    }
    VisitedAll(merged, more, result);
    if METRICS !in more { NoMetrics(more); }
    r := Some(result);
  }

  lemma NoMetrics<M>(m: Meta<M>)
    requires METRICS !in m
    ensures MetricsOf(m) == []
  {
  }

  lemma MetricsAre<M>(m: Meta<M>)
    requires METRICS in m
    ensures MetricsOf(m) ==
      if m[METRICS] == PyNone then [] else if m[METRICS].ListOf? then m[METRICS].items else [m[METRICS]]
  {
  }

  /** The merged dictionary after all but the keys in `todo`. */
  ghost predicate Visited<M>(merged: Meta<M>, more: Meta<M>, todo: set<string>, result: Meta<M>) {
    && METRICS !in merged
    && result.Keys == merged.Keys + (more.Keys - todo - {METRICS})
    && (forall k :: k in merged ==> result[k] == merged[k])
    && (forall k :: k in more.Keys - todo - {METRICS} ==> result[k] == more[k])
  }

  lemma VisitOne<M>(merged: Meta<M>, more: Meta<M>, todo: set<string>, result: Meta<M>, k: string)
    requires Visited(merged, more, todo, result) && k in todo && todo <= more.Keys
    ensures k == METRICS || (k in result && result[k] == more[k]) ==> Visited(merged, more, todo - {k}, result)
    ensures k != METRICS && k !in result ==> Visited(merged, more, todo - {k}, result[k := more[k]])
    ensures k != METRICS && k in result && result[k] != more[k] ==> !Same(merged, Others(more))
  {
    if k != METRICS && k in result && result[k] != more[k] {
      assert k in merged && k in Others(more);
    }
  }

  lemma VisitedAll<M>(merged: Meta<M>, more: Meta<M>, result: Meta<M>)
    requires Visited(merged, more, {}, result)
    ensures Same(merged, Others(more)) && result == merged + Others(more)
  {
  }

  lemma UnionHasNoMetrics<M>(ms: seq<Meta<M>>)
    ensures METRICS !in Union(OthersOf(ms))
  {
    if ms != [] {
      UnionHasNoMetrics(ms[..|ms| - 1]);
      assert OthersOf(ms)[..|ms| - 1] == OthersOf(ms[..|ms| - 1]);
    }
  }

  // ---------- merging, told without the merge ----------

  /** Everything but the metrics is the same wherever it occurs. */
  ghost predicate NoConflict<M>(ms: seq<Meta<M>>) {
    forall i, j, k :: 0 <= i < j < |ms| && k in ms[i] && k in ms[j] && k != METRICS ==> ms[i][k] == ms[j][k]
  }

  lemma AgreeIsNoConflict<M>(ms: seq<Meta<M>>)
    ensures Agree(OthersOf(ms)) <==> NoConflict(ms)
  {
    var os := OthersOf(ms);
    if Agree(os) {
      forall i, j, k | 0 <= i < j < |ms| && k in ms[i] && k in ms[j] && k != METRICS ensures ms[i][k] == ms[j][k] {
        assert Same(os[i], os[j]) && k in os[i] && k in os[j];
      }
    }
    if NoConflict(ms) {
      forall i, j | 0 <= i < j < |os| ensures Same(os[i], os[j]) {
      }
    }
  }

  /** The result has every entry but the metrics, as it was, and no other. */
  ghost predicate KeepsOthers<M>(ms: seq<Meta<M>>, r: Meta<M>) {
    && (forall i, k :: 0 <= i < |ms| && k in ms[i] && k != METRICS ==> k in r && r[k] == ms[i][k])
    && (forall k :: k in r && k != METRICS ==> exists i :: 0 <= i < |ms| && k in ms[i])
  }

  lemma {:induction false} UnionKeeps<M>(ms: seq<Meta<M>>)
    requires NoConflict(ms)
    ensures KeepsOthers(ms, Union(OthersOf(ms)))
  {
    if ms != [] {
      var front, last := ms[..|ms| - 1], ms[|ms| - 1];
      UnionKeeps(front);
      assert OthersOf(ms)[..|ms| - 1] == OthersOf(front);
      var u, r := Union(OthersOf(front)), Union(OthersOf(ms));
      assert r == u + Others(last);
      forall i, k | 0 <= i < |ms| && k in ms[i] && k != METRICS ensures k in r && r[k] == ms[i][k] {
        if i < |front| { assert front[i] == ms[i] && k in u; }
      }
      forall k | k in r && k != METRICS ensures exists i :: 0 <= i < |ms| && k in ms[i] {
        if k in last { assert ms[|ms| - 1] == last; } else {
          assert k in u;
          var i :| 0 <= i < |front| && k in front[i];
          assert ms[i] == front[i];
        }
      }
    }
  }

  /** The metrics of all batches one after the other: a list counts for its items, anything
      else for itself, and None for nothing. */
  lemma {:induction false} MetricsInTurn<M>(ms: seq<Meta<M>>) returns (parts: seq<seq<Value<M>>>)
    ensures Flatten(parts) == AllMetrics(ms) && |parts| == |ms|
    ensures forall i :: 0 <= i < |ms| ==>
      && (METRICS !in ms[i] || ms[i][METRICS].PyNone? ==> parts[i] == [])
      && (METRICS in ms[i] && ms[i][METRICS].ListOf? ==> parts[i] == ms[i][METRICS].items)
      && (METRICS in ms[i] && !ms[i][METRICS].PyNone? && !ms[i][METRICS].ListOf? ==> parts[i] == [ms[i][METRICS]])
  {
    parts := [];
    if ms != [] {
      var front := MetricsInTurn(ms[..|ms| - 1]);
      FlattenSnoc(front, MetricsOf(ms[|ms| - 1]));
      parts := front + [MetricsOf(ms[|ms| - 1])];
    }
  }

  ghost predicate AllDicts<M>(all: seq<Value<M>>) { forall i :: 0 <= i < |all| ==> all[i].DictOf? }

  /** The result's metrics: the first dictionary's keys, each with the list of its values. */
  ghost predicate ListsMetrics<M>(all: seq<Value<M>>, r: Meta<M>)
    requires AllDicts(all)
  {
    if all == [] then METRICS !in r
    else
      && METRICS in r && r[METRICS].DictOf? && r[METRICS].entries.Keys == all[0].entries.Keys
      && forall k :: k in r[METRICS].entries ==>
           r[METRICS].entries[k].ListOf? && ListsInOrder(r[METRICS].entries[k].items, Entries(all), k)
  }

  /** Batches that all have a dictionary of metrics: if all of them have the metric, item
      `i` of its list is the value of batch `i`. */
  ghost predicate MetricsByWorker<M>(ms: seq<Meta<M>>, r: Meta<M>) {
    ms != [] && (forall i :: 0 <= i < |ms| ==> METRICS in ms[i] && ms[i][METRICS].DictOf?) ==>
      && METRICS in r && r[METRICS].DictOf? && r[METRICS].entries.Keys == ms[0][METRICS].entries.Keys
      && forall k :: k in r[METRICS].entries && (forall i :: 0 <= i < |ms| ==> k in ms[i][METRICS].entries) ==>
           && r[METRICS].entries[k].ListOf? && |r[METRICS].entries[k].items| == |ms|
           && forall i :: 0 <= i < |ms| ==> r[METRICS].entries[k].items[i] == ms[i][METRICS].entries[k]
  }

  lemma {:induction false} DictMetrics<M>(ms: seq<Meta<M>>)
    requires forall i :: 0 <= i < |ms| ==> METRICS in ms[i] && ms[i][METRICS].DictOf?
    ensures |AllMetrics(ms)| == |ms| && forall i :: 0 <= i < |ms| ==> AllMetrics(ms)[i] == ms[i][METRICS]
  {
    if ms != [] { DictMetrics(ms[..|ms| - 1]); }
  }

  lemma ListByWorker<V>(list: seq<V>, ds: seq<map<string, V>>, k: string)
    requires ListsInOrder(list, ds, k) && forall i :: 0 <= i < |ds| ==> k in ds[i]
    ensures |list| == |ds| && forall i :: 0 <= i < |ds| ==> list[i] == ds[i][k]
  {
    forall i: nat | i <= |ds| ensures Holders(ds, k, i) == i { AllHold(ds, k, i); }
    hide Holders;
  }

  lemma MetricByWorker<M>(ms: seq<Meta<M>>, all: seq<Value<M>>, r: Meta<M>, k: string)
    requires AllDicts(all) && ListsMetrics(all, r) && METRICS in r && r[METRICS].DictOf? && k in r[METRICS].entries
    requires |all| == |ms| && forall i :: 0 <= i < |ms| ==> METRICS in ms[i] && all[i] == ms[i][METRICS]
    requires forall i :: 0 <= i < |ms| ==> k in all[i].entries
    ensures r[METRICS].entries[k].ListOf? && |r[METRICS].entries[k].items| == |ms|
    ensures forall i :: 0 <= i < |ms| ==> r[METRICS].entries[k].items[i] == all[i].entries[k]
  {
    hide ListsInOrder;
    ListByWorker(r[METRICS].entries[k].items, Entries(all), k);
  }

  lemma ByWorker<M>(ms: seq<Meta<M>>, r: Meta<M>)
    requires AllDicts(AllMetrics(ms)) && ListsMetrics(AllMetrics(ms), r)
    ensures MetricsByWorker(ms, r)
  {
    if ms != [] && forall i :: 0 <= i < |ms| ==> METRICS in ms[i] && ms[i][METRICS].DictOf? {
      DictMetrics(ms);
      var all := AllMetrics(ms);
      assert METRICS in r && r[METRICS].DictOf? && r[METRICS].entries.Keys == all[0].entries.Keys;
      hide AllMetrics, ListsInOrder, ListsMetrics, AllDicts;
      forall k | k in r[METRICS].entries && forall i :: 0 <= i < |ms| ==> k in ms[i][METRICS].entries
        ensures r[METRICS].entries[k].ListOf? && |r[METRICS].entries[k].items| == |ms|
        ensures forall i :: 0 <= i < |ms| ==> r[METRICS].entries[k].items[i] == ms[i][METRICS].entries[k]
      {
        MetricByWorker(ms, all, r, k);
      }
    }
  }

  /** Merging succeeds exactly when everything else agrees and the metrics are fit. */
  method MergeMeta<M(==)>(ms: seq<Meta<M>>) returns (r: Outcome<Meta<M>>)
    ensures r.Ok? || r.AssertionFailed? || r.AttributeError?
    ensures r.Ok? <==> Agree(OthersOf(ms)) && MetricsOk(AllMetrics(ms))
    ensures r.Ok? ==> r.value == MergedMeta(ms)
    ensures r.AttributeError? <==> NoConflict(ms) && MissesDict(AllMetrics(ms))
    ensures r.Ok? ==> NoConflict(ms) && KeepsOthers(ms, r.value)
    ensures r.Ok? ==> AllDicts(AllMetrics(ms)) && ListsMetrics(AllMetrics(ms), r.value)
    ensures r.Ok? ==> MetricsByWorker(ms, r.value)
  {
    AgreeIsNoConflict(ms);
    hide Agree, AllMetrics, MetricsOk, NoConflict, KeepsOthers, ListsMetrics, MetricsByWorker, MissesDict, MergedMeta,
      MergedTo, AllDicts;
    var merged, all := MergeAll(ms);
    if merged.None? { return AssertionFailed; }
    DoneMerge(ms, merged.value, all);
    r := MergeMetrics(merged.value, all);
    if r.Ok? {
      OthersKept(ms, merged.value, all, r.value);
      ByWorker(ms, r.value);
    }
  }

  /** The loop of lines 941-954. */
  method MergeAll<M(==)>(ms: seq<Meta<M>>) returns (r: Option<Meta<M>>, all: seq<Value<M>>)
    ensures r.Some? <==> Agree(OthersOf(ms))
    ensures r.Some? ==> MergedTo(ms, r.value, all)
  {
    var merged: Meta<M> := map[];
    all := [];
    assert OthersOf(ms[..0]) == [];
    hide Agree, Union, AllMetrics, Others, Same;
    StartMerge<M>();
    for i := 0 to |ms|
      invariant MergedTo(ms[..i], merged, all)
    {
      MergeStep(ms, i, merged, all);
      var more, metrics := MergeOne(merged, all, ms[i]);
      if more.None? {
        AgreeUpTo(ms, i + 1);
        return None, all;
      }
      merged, all := more.value, metrics;
    }
    assert ms[..|ms|] == ms;
    r := Some(merged);
  }

  lemma SameButMetrics<M>(ms: seq<Meta<M>>, a: Meta<M>, b: Meta<M>)
    requires KeepsOthers(ms, a) && a - {METRICS} == b - {METRICS}
    ensures KeepsOthers(ms, b)
  {
    forall k: string | k != METRICS ensures k in a <==> k in b ensures k in a ==> a[k] == b[k] {
      assert k in a <==> k in a - {METRICS};
      assert k in b <==> k in b - {METRICS};
      if k in a { assert (a - {METRICS})[k] == (b - {METRICS})[k]; }
    }
  }

  lemma OthersKept<M>(ms: seq<Meta<M>>, merged: Meta<M>, all: seq<Value<M>>, r: Meta<M>)
    requires MergedTo(ms, merged, all) && r - {METRICS} == merged - {METRICS}
    ensures KeepsOthers(ms, r)
  {
    assert Agree(OthersOf(ms)) && merged == Union(OthersOf(ms));
    hide MergedTo, Agree, Union, AllMetrics, KeepsOthers;
    AgreeIsNoConflict(ms);
    UnionKeeps(ms);
    hide NoConflict;
    SameButMetrics(ms, merged, r);
  }

  /** Something that is not a dictionary comes before any unknown key. */
  ghost predicate MissesDict<M>(all: seq<Value<M>>) {
    exists m :: 0 <= m < |all| && !all[m].DictOf? && MetricsOk(all[..m])
  }

  ghost predicate MergedTo<M>(ms: seq<Meta<M>>, merged: Meta<M>, all: seq<Value<M>>) {
    Agree(OthersOf(ms)) && merged == Union(OthersOf(ms)) && all == AllMetrics(ms) && METRICS !in merged
  }

  lemma StartMerge<M>()
    ensures MergedTo<M>([], map[], [])
  {
    assert OthersOf<M>([]) == [];
  }

  lemma MergeStep<M>(ms: seq<Meta<M>>, i: nat, merged: Meta<M>, all: seq<Value<M>>)
    requires i < |ms| && MergedTo(ms[..i], merged, all)
    ensures METRICS !in merged
    ensures Same(merged, Others(ms[i])) ==>
      MergedTo(ms[..i + 1], merged + Others(ms[i]), all + MetricsOf(ms[i]))
    ensures !Same(merged, Others(ms[i])) ==> !Agree(OthersOf(ms[..i + 1]))
  {
    var front, whole := OthersOf(ms[..i]), OthersOf(ms[..i + 1]);
    assert whole == front + [Others(ms[i])];
    assert whole[..i] == front && ms[..i + 1][..i] == ms[..i];
    AgreeSnoc(front, Others(ms[i]));
    UnionHasNoMetrics(ms[..i + 1]);
    hide Agree, Same;
  }

  /** A disagreement among the first dictionaries stays one. */
  lemma AgreeUpTo<M>(ms: seq<Meta<M>>, i: nat)
    requires i <= |ms|
    ensures Agree(OthersOf(ms)) ==> Agree(OthersOf(ms[..i]))
  {
    hide Same;
    assert forall j :: 0 <= j < i ==> OthersOf(ms[..i])[j] == OthersOf(ms)[j];
  }

  /** Lines 957-958. */
  method MergeMetrics<M>(merged: Meta<M>, all: seq<Value<M>>) returns (r: Outcome<Meta<M>>)
    requires METRICS !in merged
    ensures r.Ok? || r.AssertionFailed? || r.AttributeError?
    ensures r.Ok? <==> MetricsOk(all)
    ensures r.AttributeError? <==> MissesDict(all)
    ensures r.Ok? ==> r.value == if all == [] then merged else merged[METRICS := DictOf(MetricTable(all))]
    ensures r.Ok? ==> AllDicts(all) && ListsMetrics(all, r.value) && r.value - {METRICS} == merged - {METRICS}
  {
    if all == [] { return Ok(merged); }
    var m := 0;  // the dictionaries before the first other value
    while m < |all| && all[m].DictOf?
      invariant 0 <= m <= |all| && AllDicts(all[..m])
    {
      m := m + 1;
    }
    if m == 0 {
      assert all[..0] == [];
      return AttributeError;
    }
    var dicts := all[..m];
    DictsFirst(all, m);
    hide AllDicts, MetricsOk, MissesDict, ListsMetrics;
    var lists := CollectDicts(dicts);
    if lists.None? { return AssertionFailed; }
    if m < |all| { return AttributeError; }
    assert dicts == all;
    r := Ok(merged[METRICS := DictOf(lists.value)]);
    TableLists(merged, all);
  }

  /** The first value that is not a dictionary decides, unless a key is unknown before. */
  lemma DictsFirst<M>(all: seq<Value<M>>, m: nat)
    requires 0 < m <= |all| && AllDicts(all[..m]) && (m < |all| ==> !all[m].DictOf?)
    ensures MetricsOk(all) <==> m == |all| && MetricsOk(all[..m])
    ensures MissesDict(all) <==> m < |all| && MetricsOk(all[..m])
  {
    forall i | 0 <= i < m ensures all[i].DictOf? { assert all[..m][i] == all[i]; }
    if n :| 0 <= n < |all| && !all[n].DictOf? && MetricsOk(all[..n]) {
      assert forall i :: 0 <= i < n ==> all[..n][i] == all[i];
      assert m == n;
    }
    if m == |all| { assert all[..m] == all; }
  }

  lemma TableOf<M>(all: seq<Value<M>>, lists: map<string, seq<Value<M>>>)
    requires all != [] && AllDicts(all) && lists.Keys == all[0].entries.Keys
    requires forall k :: k in lists ==> lists[k] == Gathered(Entries(all), k)
    ensures MetricTable(all) == map k | k in lists :: ListOf(lists[k])
  {
    hide Gathered;
  }

  method CollectDicts<M>(all: seq<Value<M>>) returns (r: Option<Meta<M>>)
    requires all != [] && AllDicts(all)
    ensures r.Some? <==> MetricsOk(all)
    ensures r.Some? ==> r.value == MetricTable(all)
  {
    var ds := Entries(all);
    assert KeysCovered(ds) <==> MetricsOk(all);
    hide Gathered, ListsInOrder, MetricsOk, KeysCovered, Entries;
    var lists := DictOfLists(ds);
    if lists.None? { return None; }
    TableOf(all, lists.value);
    r := Some(map k | k in lists.value :: ListOf(lists.value[k]));
  }

  lemma TableLists<M>(merged: Meta<M>, all: seq<Value<M>>)
    requires all != [] && AllDicts(all)
    ensures ListsMetrics(all, merged[METRICS := DictOf(MetricTable(all))])
    ensures merged[METRICS := DictOf(MetricTable(all))] - {METRICS} == merged - {METRICS}
  {
    forall k | k in all[0].entries ensures ListsInOrder(Gathered(Entries(all), k), Entries(all), k) {
      GatheredLists(Entries(all), k);
    }
    hide ListsInOrder, Gathered;
  }

  lemma DoneMerge<M>(ms: seq<Meta<M>>, merged: Meta<M>, all: seq<Value<M>>)
    requires MergedTo(ms, merged, all)
    ensures Agree(OthersOf(ms)) && all == AllMetrics(ms) && METRICS !in merged
    ensures MetricsOk(all) ==>
      MergedMeta(ms) == if all == [] then merged else merged[METRICS := DictOf(MetricTable(all))]
  {
  }

  // ---------- the same metadata several times ----------

  ghost predicate AllAre<M>(ms: seq<Meta<M>>, meta: Meta<M>) { ms != [] && forall i :: 0 <= i < |ms| ==> ms[i] == meta }

  /** Merging copies of one dictionary changes nothing exactly for these. */
  predicate Stable<M(==)>(meta: Meta<M>) { METRICS in meta ==> meta[METRICS] == DictOf(map[]) }

  lemma {:induction false} CopiesOfOthers<M>(ms: seq<Meta<M>>, meta: Meta<M>)
    requires AllAre(ms, meta)
    ensures Agree(OthersOf(ms)) && Union(OthersOf(ms)) == Others(meta)
  {
    var os := OthersOf(ms);
    assert forall i :: 0 <= i < |os| ==> os[i] == Others(meta);
    if |ms| > 1 {
      CopiesOfOthers(ms[..|ms| - 1], meta);
      assert os[..|ms| - 1] == OthersOf(ms[..|ms| - 1]);
    } else {
      assert os[..0] == [];
    }
  }

  lemma {:induction false} CopiesOfMetrics<M>(ms: seq<Meta<M>>, meta: Meta<M>)
    requires AllAre(ms, meta)
    ensures forall x :: x in AllMetrics(ms) <==> x in MetricsOf(meta)
    ensures MetricsOf(meta) <= AllMetrics(ms) && (AllMetrics(ms) == [] <==> MetricsOf(meta) == [])
  {
    hide MetricsOf;
    if |ms| > 1 {
      CopiesOfMetrics(ms[..|ms| - 1], meta);
    } else {
      assert ms[..0] == [] && ms[0] == meta;
      assert AllMetrics(ms) == [] + MetricsOf(meta);
    }
  }

  lemma FirstGathered<M>(ds: seq<Meta<M>>, k: string)
    requires ds != [] && k in ds[0]
    ensures Gathered(ds, k) != [] && Gathered(ds, k)[0] == ds[0][k]
  {
    if |ds| > 1 { FirstGathered(ds[..|ds| - 1], k); }
  }

  /** Merging copies works exactly when the metrics alone are fit, keeps everything else,
      and gives the dictionary back exactly when it is stable. */
  lemma CopiesIff<M>(ms: seq<Meta<M>>, meta: Meta<M>)
    requires AllAre(ms, meta)
    ensures Agree(OthersOf(ms))
    ensures MetricsOk(AllMetrics(ms)) <==> MetricsOk(MetricsOf(meta))
    ensures Stable(meta) ==> MetricsOk(MetricsOf(meta))
    ensures MetricsOk(AllMetrics(ms)) ==>
      Others(MergedMeta(ms)) == Others(meta) && (MergedMeta(ms) == meta <==> Stable(meta))
  {
    CopiesOfOthers(ms, meta);
    CopiesOfMetrics(ms, meta);
    CopiesFit(MetricsOf(meta), AllMetrics(ms));
    if MetricsOk(AllMetrics(ms)) {
      hide Agree, Union, AllMetrics;
      if METRICS !in meta {
        assert Others(meta) == meta;
      } else if AllMetrics(ms) == [] {
        assert METRICS !in MergedMeta(ms);
      } else if meta[METRICS].DictOf? {
        assert AllMetrics(ms)[0] == meta[METRICS];
        TableDiffers(AllMetrics(ms));
        assert MergedMeta(ms) == Others(meta)[METRICS := DictOf(MetricTable(AllMetrics(ms)))];
        if Stable(meta) { assert MetricTable(AllMetrics(ms)) == map[]; }
      }
    }
  }

  lemma CopiesFit<M>(some: seq<Value<M>>, all: seq<Value<M>>)
    requires some <= all && (all == [] <==> some == []) && forall x :: x in all <==> x in some
    ensures MetricsOk(all) <==> MetricsOk(some)
  {
    if some != [] {
      assert all[0] == some[0];
      if MetricsOk(some) {
        forall i | 0 <= i < |all| ensures all[i].DictOf? && all[i].entries.Keys <= all[0].entries.Keys {
          assert all[i] in some;
        }
      }
      if MetricsOk(all) {
        forall i | 0 <= i < |some| ensures some[i].DictOf? && some[i].entries.Keys <= some[0].entries.Keys {
          assert some[i] == all[i];
        }
      }
    }
  }

  /** A dictionary of lists is not the dictionary it was made of, unless both are empty. */
  lemma TableDiffers<M>(all: seq<Value<M>>)
    requires all != [] && forall i :: 0 <= i < |all| ==> all[i].DictOf?
    ensures MetricTable(all) == all[0].entries <==> all[0].entries == map[]
  {
    if all[0].entries != map[] {
      var k :| k in all[0].entries;
      FirstGathered(Entries(all), k);
      var list := Gathered(Entries(all), k);
      assert MetricTable(all)[k] == ListOf(list) && ListOf(list) != list[0];
    }
  }

  /** Padding or chunking a batch with ordinary metrics changes them: a number becomes a list. */
  lemma MetricsAreWrapped(meta: Meta<int>)
    requires meta == map[METRICS := DictOf(map["loss" := Plain(1)])]
    ensures MetricsOk(MetricsOf(meta)) && !Stable(meta)
    ensures MetricsOk(AllMetrics([meta, meta])) && METRICS in MergedMeta([meta, meta])
    ensures MergedMeta([meta, meta])[METRICS] == DictOf(map["loss" := ListOf([Plain(1), Plain(1)])])
  {
    CopiesIff([meta, meta], meta);
    var v := meta[METRICS];
    assert [meta, meta][..1] == [meta] && [meta][..0] == [];
    assert AllMetrics([meta, meta]) == AllMetrics([meta]) + [v] && AllMetrics([meta]) == AllMetrics([]) + [v];
    assert AllMetrics([meta, meta]) == [v, v];
    var ds := Entries([v, v]);
    assert ds == [v.entries, v.entries] && ds[..1] == [v.entries] && [v.entries][..0] == [];
    assert Gathered(ds, "loss") == Gathered([v.entries], "loss") + [Plain(1)];
    assert Gathered([v.entries], "loss") == [] + [Plain(1)];
    assert Gathered(ds, "loss") == [Plain(1), Plain(1)];
    assert MetricTable([v, v]).Keys == {"loss"} && MetricTable([v, v])["loss"] == ListOf([Plain(1), Plain(1)]);
    assert MetricTable([v, v]) == map["loss" := ListOf([Plain(1), Plain(1)])];
  }
}
