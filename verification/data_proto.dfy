/** Batches of parallel columns: slicing, concatenation and padding
    (verl/protocol.py, lines 74-106, 675-719 and 917-961). */
module DataProtos {
  import opened Basics
  import opened MetaMerge

  type Columns<T> = map<string, seq<T>>

  datatype TensorDict<T> = TensorDict(size: nat, columns: Columns<T>)

  datatype DataProto<T, M> =
    DataProto(batch: Option<TensorDict<T>>, nonTensor: Columns<T>, meta: Meta<M>)

  // ---------- rows ----------

  ghost predicate HaveRows<T>(cs: Columns<T>, n: nat) { forall k :: k in cs ==> |cs[k]| == n }

  /** `__len__`, lines 333-340: the tensors' batch size, or else the length of some column. */
  ghost function Len<T, M>(d: DataProto<T, M>): nat {
    if d.batch.Some? then d.batch.value.size
    else if d.nonTensor != map[] then var k :| k in d.nonTensor; |d.nonTensor[k]|
    else 0
  }

  method Length<T, M>(d: DataProto<T, M>) returns (n: nat)
    requires Parallel(d)
    ensures n == Len(d)
  {
    if d.batch.Some? { return d.batch.value.size; }
    if d.nonTensor == map[] { return 0; }
    var k :| k in d.nonTensor;
    n := |d.nonTensor[k]|;
  }

  /** All columns have the batch's rows. */
  ghost predicate Parallel<T, M>(d: DataProto<T, M>) {
    (d.batch.Some? ==> HaveRows(d.batch.value.columns, Len(d))) && HaveRows(d.nonTensor, Len(d))
  }

  function SliceColumns<T>(cs: Columns<T>, from: nat, to: nat): Columns<T>
    requires from <= to && forall k :: k in cs ==> to <= |cs[k]|
  {
    map k | k in cs :: cs[k][from..to]
  }

  function SliceDict<T>(td: TensorDict<T>, from: nat, to: nat): TensorDict<T>
    requires from <= to && forall k :: k in td.columns ==> to <= |td.columns[k]|
  {
    TensorDict(to - from, SliceColumns(td.columns, from, to))
  }

  /** `d[from:to]` within the rows. */
  function Slice<T, M>(d: DataProto<T, M>, from: nat, to: nat): (s: DataProto<T, M>)
    requires Parallel(d) && from <= to <= Len(d)
    ensures Parallel(s)
    ensures d.batch.Some? || d.nonTensor != map[] ==> Len(s) == to - from
  {
    DataProto(if d.batch.Some? then Some(SliceDict(d.batch.value, from, to)) else None,
              SliceColumns(d.nonTensor, from, to), d.meta)
  }

  // ---------- concatenation ----------

  function JoinColumns<T>(a: Columns<T>, b: Columns<T>): Columns<T> {
    map k | k in a :: a[k] + (if k in b then b[k] else [])
  }

  function JoinDict<T>(a: TensorDict<T>, b: TensorDict<T>): TensorDict<T> {
    TensorDict(a.size + b.size, JoinColumns(a.columns, b.columns))
  }

  /** The columns of two batches end to end, with the metadata of the first. Without tensors
      in the first, the tensors of the second are not looked at. */
  function Join<T, M>(a: DataProto<T, M>, b: DataProto<T, M>): DataProto<T, M> {
    DataProto(if a.batch.Some? && b.batch.Some? then Some(JoinDict(a.batch.value, b.batch.value)) else None,
              JoinColumns(a.nonTensor, b.nonTensor), a.meta)
  }

  function Joined<T, M>(ds: seq<DataProto<T, M>>): DataProto<T, M>
    requires ds != []
  {
    if |ds| == 1 then ds[0] else Join(Joined(ds[..|ds| - 1]), ds[|ds| - 1])
  }

  function JoinedColumns<T>(cs: seq<Columns<T>>): (joined: Columns<T>)
    requires cs != []
    ensures joined.Keys == cs[0].Keys
  {
    if |cs| == 1 then cs[0] else JoinColumns(JoinedColumns(cs[..|cs| - 1]), cs[|cs| - 1])
  }

  /** The lists of arrays, concatenated. */
  lemma {:induction false} GatheredColumns<T>(cs: seq<Columns<T>>, k: string)
    requires cs != [] && k in cs[0]
    ensures Flatten(Gathered(cs, k)) == JoinedColumns(cs)[k]
  {
    var front, last := cs[..|cs| - 1], cs[|cs| - 1];
    if |cs| > 1 {
      GatheredColumns(front, k);
      if k in last { FlattenSnoc(Gathered(front, k), last[k]); } else { assert Gathered(cs, k) == Gathered(front, k); }
    } else {
      FlattenSnoc([], cs[0][k]);
      assert Gathered(front, k) == [] && [] + [cs[0][k]] == [cs[0][k]];
    }
  }

  /** Tensors concatenate when every batch has the first one's tensors. */
  ghost predicate TensorsMatch<T, M>(ds: seq<DataProto<T, M>>) {
    ds != [] && (ds[0].batch.Some? ==>
      forall i :: 0 <= i < |ds| ==>
        ds[i].batch.Some? && ds[i].batch.value.columns.Keys == ds[0].batch.value.columns.Keys)
  }

  function NonTensors<T, M>(ds: seq<DataProto<T, M>>): (cs: seq<Columns<T>>)
    ensures |cs| == |ds| && forall i :: 0 <= i < |ds| ==> cs[i] == ds[i].nonTensor
  {
    seq(|ds|, i requires 0 <= i < |ds| => ds[i].nonTensor)
  }

  /** `check_consistency`, lines 422-447. */
  predicate Checked<T, M>(d: DataProto<T, M>) {
    d.batch.Some? ==> forall k :: k in d.nonTensor ==> |d.nonTensor[k]| == d.batch.value.size
  }

  lemma {:induction false} JoinedNonTensors<T, M>(ds: seq<DataProto<T, M>>)
    requires ds != []
    ensures Joined(ds).nonTensor == JoinedColumns(NonTensors(ds))
  {
    if |ds| > 1 {
      JoinedNonTensors(ds[..|ds| - 1]);
      assert NonTensors(ds)[..|ds| - 1] == NonTensors(ds[..|ds| - 1]);
    } else {
      assert NonTensors(ds) == [ds[0].nonTensor];
    }
  }

  lemma {:induction false} NoTensors<T, M>(ds: seq<DataProto<T, M>>)
    requires ds != [] && ds[0].batch.None?
    ensures Joined(ds).batch.None?
  {
    if |ds| > 1 { NoTensors(ds[..|ds| - 1]); }
  }

  /** `torch.cat` of the tensors. */
  method CatTensors<T, M>(ds: seq<DataProto<T, M>>) returns (r: Outcome<Option<TensorDict<T>>>)
    requires ds != []
    ensures r.Ok? || r.TensorKeyError?
    ensures r.Ok? <==> TensorsMatch(ds)
    ensures r.Ok? ==> r.value == Joined(ds).batch
  {
    if ds[0].batch.None? { NoTensors(ds); return Ok(None); }
    var cat := ds[0].batch.value;
    assert ds[..1] == [ds[0]];
    for i := 1 to |ds|
      invariant TensorsMatch(ds[..i]) && Joined(ds[..i]).batch == Some(cat)
    {
      if ds[i].batch.None? || ds[i].batch.value.columns.Keys != ds[0].batch.value.columns.Keys {
        return TensorKeyError;
      }
      assert ds[..i + 1][..i] == ds[..i];
      cat := JoinDict(cat, ds[i].batch.value);
    }
    assert ds[..|ds|] == ds;
    r := Ok(Some(cat));
  }

  function Metas<T, M>(ds: seq<DataProto<T, M>>): (ms: seq<Meta<M>>)
    ensures |ms| == |ds| && forall i :: 0 <= i < |ds| ==> ms[i] == ds[i].meta
  {
    seq(|ds|, i requires 0 <= i < |ds| => ds[i].meta)
  }

  /** When concatenation succeeds: the columns match, the metadata can be merged and the
      result is consistent. */
  ghost predicate CanConcat<T, M>(ds: seq<DataProto<T, M>>) {
    && ds != [] && TensorsMatch(ds) && KeysCovered(NonTensors(ds)) && Checked(Joined(ds))
    && Agree(OthersOf(Metas(ds))) && MetricsOk(AllMetrics(Metas(ds)))
  }

  /** `np.concatenate` of every list of arrays. */
  method ConcatArrays<T>(cs: seq<Columns<T>>) returns (r: Option<Columns<T>>)
    requires cs != []
    ensures r.Some? <==> KeysCovered(cs)
    ensures r.Some? ==> r.value == JoinedColumns(cs)
  {
    hide ListsInOrder, Gathered, KeysCovered, JoinedColumns;
    var lists := DictOfLists(cs);
    if lists.None? { return None; }
    var joined := map k | k in lists.value :: Flatten(lists.value[k]);
    forall k | k in cs[0] ensures joined[k] == JoinedColumns(cs)[k] { GatheredColumns(cs, k); }
    r := Some(joined);
  }

  // ---------- concatenation, column by column ----------

  /** What the batches have of one column, in order. */
  function ColumnParts<T>(cs: seq<Columns<T>>, k: string): (parts: seq<seq<T>>)
    ensures |parts| == |cs| && forall i :: 0 <= i < |cs| ==> parts[i] == if k in cs[i] then cs[i][k] else []
  {
    seq(|cs|, i requires 0 <= i < |cs| => if k in cs[i] then cs[i][k] else [])
  }

  function Tensors<T, M>(ds: seq<DataProto<T, M>>): (cs: seq<Columns<T>>)
    ensures |cs| == |ds|
    ensures forall i :: 0 <= i < |ds| ==> cs[i] == if ds[i].batch.Some? then ds[i].batch.value.columns else map[]
  {
    seq(|ds|, i requires 0 <= i < |ds| => if ds[i].batch.Some? then ds[i].batch.value.columns else map[])
  }

  /** The first batch's columns, each the rows of all batches one after the other. */
  ghost predicate EndToEnd<T>(cs: seq<Columns<T>>, joined: Columns<T>)
    requires cs != []
  {
    joined.Keys == cs[0].Keys && forall k :: k in joined ==> joined[k] == Flatten(ColumnParts(cs, k))
  }

  lemma {:induction false} PartsJoined<T>(cs: seq<Columns<T>>, k: string)
    requires cs != [] && k in cs[0]
    ensures JoinedColumns(cs)[k] == Flatten(ColumnParts(cs, k))
  {
    var front, last := cs[..|cs| - 1], cs[|cs| - 1];
    var part := if k in last then last[k] else [];
    assert ColumnParts(cs, k) == ColumnParts(front, k) + [part];
    FlattenSnoc(ColumnParts(front, k), part);
    if |cs| > 1 { PartsJoined(front, k); } else { assert ColumnParts(front, k) == [] && Flatten<T>([]) == []; }
  }

  lemma JoinedEndToEnd<T>(cs: seq<Columns<T>>)
    requires cs != []
    ensures EndToEnd(cs, JoinedColumns(cs))
  {
    forall k | k in cs[0] ensures JoinedColumns(cs)[k] == Flatten(ColumnParts(cs, k)) { PartsJoined(cs, k); }
  }

  lemma {:induction false} JoinedTensors<T, M>(ds: seq<DataProto<T, M>>)
    requires TensorsMatch(ds) && ds[0].batch.Some?
    ensures Joined(ds).batch.Some? && Joined(ds).batch.value.columns == JoinedColumns(Tensors(ds))
  {
    if |ds| > 1 {
      JoinedTensors(ds[..|ds| - 1]);
      assert Tensors(ds)[..|ds| - 1] == Tensors(ds[..|ds| - 1]);
    } else {
      assert Tensors(ds) == [ds[0].batch.value.columns];
    }
  }

  /** The result of a concatenation, without `Joined`. */
  ghost predicate Concatenated<T, M>(ds: seq<DataProto<T, M>>, r: DataProto<T, M>)
    requires ds != []
  {
    && EndToEnd(NonTensors(ds), r.nonTensor)
    && (r.batch.Some? <==> ds[0].batch.Some?)
    && (r.batch.Some? ==> EndToEnd(Tensors(ds), r.batch.value.columns))
  }

  lemma JoinedConcatenated<T, M>(ds: seq<DataProto<T, M>>)
    requires TensorsMatch(ds)
    ensures Concatenated(ds, Joined(ds))
  {
    JoinedNonTensors(ds);
    JoinedEndToEnd(NonTensors(ds));
    if ds[0].batch.None? {
      NoTensors(ds);
    } else {
      JoinedTensors(ds);
      JoinedEndToEnd(Tensors(ds));
    }
    hide EndToEnd, Joined, JoinedColumns, TensorsMatch;
  }

  /** The rows of all tensor batches together. */
  function TotalSize<T, M>(ds: seq<DataProto<T, M>>): nat {
    if ds == [] then 0
    else TotalSize(ds[..|ds| - 1]) + if ds[|ds| - 1].batch.Some? then ds[|ds| - 1].batch.value.size else 0
  }

  lemma {:induction false} JoinedSize<T, M>(ds: seq<DataProto<T, M>>)
    requires TensorsMatch(ds) && ds[0].batch.Some?
    ensures Joined(ds).batch.Some? && Joined(ds).batch.value.size == TotalSize(ds)
  {
    if |ds| > 1 { JoinedSize(ds[..|ds| - 1]); } else { assert ds[..0] == [] && TotalSize(ds[..0]) == 0; }
  }

  /** Every batch has the tensors of the first one, if that has any; no batch has an array
      that the first does not have; nothing but the metrics differs; the metrics are all
      dictionaries with keys of the first; and every array of the result has as many rows
      as there are rows of tensors. */
  ghost predicate Fitting<T, M>(ds: seq<DataProto<T, M>>) {
    && ds != []
    && (ds[0].batch.Some? ==> forall i :: 0 <= i < |ds| ==>
          ds[i].batch.Some? && ds[i].batch.value.columns.Keys == ds[0].batch.value.columns.Keys)
    && (forall i :: 0 <= i < |ds| ==> ds[i].nonTensor.Keys <= ds[0].nonTensor.Keys)
    && NoConflict(Metas(ds))
    && (forall i :: 0 <= i < |AllMetrics(Metas(ds))| ==>
          && AllMetrics(Metas(ds))[i].DictOf? && AllMetrics(Metas(ds))[0].DictOf?
          && AllMetrics(Metas(ds))[i].entries.Keys <= AllMetrics(Metas(ds))[0].entries.Keys)
    && (ds[0].batch.Some? ==> forall k :: k in ds[0].nonTensor ==>
          |Flatten(ColumnParts(NonTensors(ds), k))| == TotalSize(ds))
  }

  lemma CheckedIff<T, M>(ds: seq<DataProto<T, M>>)
    requires TensorsMatch(ds)
    ensures Checked(Joined(ds)) <==>
      (ds[0].batch.Some? ==> forall k :: k in ds[0].nonTensor ==>
         |Flatten(ColumnParts(NonTensors(ds), k))| == TotalSize(ds))
  {
    JoinedNonTensors(ds);
    JoinedEndToEnd(NonTensors(ds));
    if ds[0].batch.None? { NoTensors(ds); } else { JoinedSize(ds); }
    hide Joined, JoinedColumns, TensorsMatch, Flatten, TotalSize;
  }

  lemma CanConcatIff<T, M>(ds: seq<DataProto<T, M>>)
    ensures CanConcat(ds) <==> Fitting(ds)
  {
    AgreeIsNoConflict(Metas(ds));
    hide Agree, NoConflict, Flatten, AllMetrics;
    if TensorsMatch(ds) { CheckedIff(ds); }
    hide Checked, Joined, TotalSize;
  }

  /** Concatenation succeeds exactly when it can; it is then all columns end to end, with
      the merged metadata. */
  method Concat<T, M(==)>(ds: seq<DataProto<T, M>>) returns (r: Outcome<DataProto<T, M>>)
    ensures r.IndexError? <==> ds == []
    ensures r.Ok? <==> CanConcat(ds)
    ensures r.Ok? <==> Fitting(ds)
    ensures r.TensorKeyError? <==> ds != [] && !TensorsMatch(ds)
    ensures r.Ok? && r.value.batch.Some? ==> r.value.batch.value.size == TotalSize(ds)
    ensures r.Ok? ==> r.value == Joined(ds).(meta := MergedMeta(Metas(ds)))
    ensures r.Ok? ==> Concatenated(ds, r.value)
    ensures r.Ok? ==> KeepsOthers(Metas(ds), r.value.meta) && MetricsByWorker(Metas(ds), r.value.meta)
    ensures r.Ok? ==> AllDicts(AllMetrics(Metas(ds))) && ListsMetrics(AllMetrics(Metas(ds)), r.value.meta)
  {
    if ds == [] { return IndexError; }
    CanConcatIff(ds);
    if TensorsMatch(ds) && ds[0].batch.Some? { JoinedSize(ds); }
    hide Fitting, TotalSize, TensorsMatch, KeysCovered, Agree, MetricsOk, KeepsOthers, MetricsByWorker, AllDicts, ListsMetrics, EndToEnd,
      MergedMeta, MissesDict, NoConflict;
    var batch := CatTensors(ds);
    if batch.TensorKeyError? { return TensorKeyError; }
    var nonTensor := ConcatArrays(NonTensors(ds));
    if nonTensor.None? { return AssertionFailed; }
    JoinedNonTensors(ds);
    JoinedConcatenated(ds);
    var meta := MergeMeta(Metas(ds));
    if meta.AssertionFailed? { return AssertionFailed; }
    if meta.AttributeError? { return AttributeError; }
    var joined := DataProto(batch.value, nonTensor.value, meta.value);
    if !Checked(joined) { return AssertionFailed; }
    r := Ok(joined);
  }
}
