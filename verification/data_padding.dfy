/** Padding a batch to a divisor and back (verl/protocol.py, lines 74-106). */
module DataPadding {
  import opened Basics
  import opened MetaMerge
  import opened DataProtos

  /** Row `i` is row `i` modulo the rows there are. */
  function Cycle<T>(c: seq<T>, m: nat): (r: seq<T>)
    requires c != []
    ensures |r| == m && forall i :: 0 <= i < m ==> r[i] == c[i % |c|]
  {
    seq(m, i requires 0 <= i < m => c[i % |c|])
  }

  function CyclicColumns<T>(cs: Columns<T>, m: nat): Columns<T>
    requires forall k :: k in cs ==> cs[k] != []
  {
    map k | k in cs :: Cycle(cs[k], m)
  }

  function Cyclic<T, M>(d: DataProto<T, M>, m: nat): (r: DataProto<T, M>)
    requires Parallel(d) && Len(d) > 0
    ensures Parallel(r) && Len(r) == m
  {
    DataProto(
      if d.batch.Some? then Some(TensorDict(m, CyclicColumns(d.batch.value.columns, m))) else None,
      CyclicColumns(d.nonTensor, m), d.meta)
  }

  ghost predicate LeastMultiple(m: nat, n: nat, divisor: nat) {
    m >= n && MultipleOf(m, divisor) && forall x: nat :: x >= n && MultipleOf(x, divisor) ==> m <= x
  }

  lemma CycleAppend<T>(c: seq<T>, m: nat, t: nat)
    requires c != [] && m % |c| == 0 && t <= |c|
    ensures Cycle(c, m) + c[..t] == Cycle(c, m + t)
  {
    forall i | m <= i < m + t ensures i % |c| == i - m {
      AddMultiple(i - m, m, |c|);
    }
  }

  lemma AddMultiple(i: nat, m: nat, n: nat)
    requires i < n && m % n == 0
    ensures (m + i) % n == i
  {
    var q := m / n;
    assert m == q * n;
    var q', r := (m + i) / n, (m + i) % n;
    assert m + i == q' * n + r;
    if q' <= q - 1 { Scale(q', q - 1, n); }
    if q <= q' - 1 { Scale(q, q' - 1, n); }
  }

  lemma JoinColumnsCyclic<T>(cs: Columns<T>, n: nat, m: nat, t: nat)
    requires n > 0 && HaveRows(cs, n) && m % n == 0 && t <= n
    ensures JoinColumns(CyclicColumns(cs, m), SliceColumns(cs, 0, t)) == CyclicColumns(cs, m + t)
  {
    forall k | k in cs ensures Cycle(cs[k], m) + cs[k][0..t] == Cycle(cs[k], m + t) {
      CycleAppend(cs[k], m, t);
    }
  }

  lemma JoinCyclic<T, M>(d: DataProto<T, M>, m: nat, t: nat)
    requires Parallel(d) && Len(d) > 0 && m % Len(d) == 0 && t <= Len(d)
    ensures Join(Cyclic(d, m), Slice(d, 0, t)) == Cyclic(d, m + t)
  {
    JoinColumnsCyclic(d.nonTensor, Len(d), m, t);
    if d.batch.Some? { JoinColumnsCyclic(d.batch.value.columns, Len(d), m, t); }
    hide CyclicColumns, JoinColumns, SliceColumns;
  }

  /** One full cycle is the batch itself. */
  lemma OneCycle<T, M>(d: DataProto<T, M>)
    requires Parallel(d) && Len(d) > 0
    ensures Cyclic(d, Len(d)) == d
  {
    forall c: seq<T> | |c| == Len(d) ensures Cycle(c, Len(d)) == c {
      forall i | 0 <= i < |c| ensures i % |c| == i { AddMultiple(i, 0, |c|); }
    }
    assert CyclicColumns(d.nonTensor, Len(d)) == d.nonTensor;
    if d.batch.Some? { assert CyclicColumns(d.batch.value.columns, Len(d)) == d.batch.value.columns; }
  }

  /** Slices of one batch have its columns and metadata. */
  ghost predicate Alike<T, M>(d: DataProto<T, M>, e: DataProto<T, M>) {
    && d.meta == e.meta && d.nonTensor.Keys == e.nonTensor.Keys
    && d.batch.Some? == e.batch.Some?
    && (d.batch.Some? ==> d.batch.value.columns.Keys == e.batch.value.columns.Keys)
  }

  lemma AlikeConcat<T, M>(d: DataProto<T, M>, ds: seq<DataProto<T, M>>)
    requires ds != [] && forall i :: 0 <= i < |ds| ==> Alike(d, ds[i])
    ensures TensorsMatch(ds) && KeysCovered(NonTensors(ds)) && AllAre(Metas(ds), d.meta)
  {
  }

  lemma PadIsLeast(n: nat, divisor: nat)
    requires divisor > 0
    ensures LeastMultiple(if n % divisor == 0 then n else n + divisor - n % divisor, n, divisor)
  {
    var m := if n % divisor == 0 then n else n + divisor - n % divisor;
    var q := n / divisor;
    assert n == q * divisor + n % divisor;
    if n % divisor != 0 {
      assert m == (q + 1) * divisor;
      AddMultiple(0, m, divisor) by { Multiple(q + 1, divisor); }
    }
    forall x: nat | x >= n && MultipleOf(x, divisor) ensures m <= x {
      assert x == (x / divisor) * divisor;
      if m > x { Scale(x / divisor, q, divisor) by { if x / divisor > q { Scale(q + 1, x / divisor, divisor); } } }
    }
  }

  /** The batches to concatenate so far, and the rows they make. */
  ghost predicate Padding<T, M>(d: DataProto<T, M>, parts: seq<DataProto<T, M>>, m: nat) {
    && Parallel(d) && Len(d) > 0 && parts != []
    && (forall i :: 0 <= i < |parts| ==> Alike(d, parts[i]))
    && Joined(parts) == Cyclic(d, m)
  }

  lemma PadStart<T, M>(d: DataProto<T, M>)
    requires Parallel(d) && Len(d) > 0
    ensures Padding(d, [d], Len(d))
  {
    OneCycle(d);
  }

  /** One round of the pad loop continues the cycle. */
  lemma PadStep<T, M>(d: DataProto<T, M>, parts: seq<DataProto<T, M>>, m: nat, take: nat)
    requires Padding(d, parts, m) && MultipleOf(m, Len(d)) && take <= Len(d)
    ensures Padding(d, parts + [Slice(d, 0, take)], m + take)
  {
    hide Cyclic, Slice, Join;
    JoinCyclic(d, m, take);
    assert (parts + [Slice(d, 0, take)])[..|parts|] == parts;
    SliceAlike(d, take);
  }

  lemma SliceAlike<T, M>(d: DataProto<T, M>, take: nat)
    requires Parallel(d) && take <= Len(d)
    ensures Alike(d, Slice(d, 0, take))
  {
  }

  /** What the loop keeps: until the last round, whole cycles. */
  ghost predicate PadOpen<T, M>(d: DataProto<T, M>, parts: seq<DataProto<T, M>>, n: nat, padSize: nat, remaining: int) {
    && 0 <= remaining <= padSize && Padding(d, parts, n + padSize - remaining)
    && (remaining == 0 || MultipleOf(n + padSize - remaining, n))
  }

  lemma PadRound<T, M>(d: DataProto<T, M>, parts: seq<DataProto<T, M>>, n: nat, padSize: nat, remaining: int, take: nat)
    requires Parallel(d) && n == Len(d) > 0 && remaining > 0 && take == (if remaining <= n then remaining else n)
    requires PadOpen(d, parts, n, padSize, remaining)
    ensures PadOpen(d, parts + [Slice(d, 0, take)], n, padSize, remaining - take)
  {
    hide Padding, MultipleOf, Slice;
    PadStep(d, parts, n + padSize - remaining, take);
    NextMultiple(n + padSize - remaining, n);
  }

  lemma PadClosed<T, M>(d: DataProto<T, M>, parts: seq<DataProto<T, M>>, n: nat, padSize: nat)
    requires PadOpen(d, parts, n, padSize, 0)
    ensures Padding(d, parts, n + padSize)
  {
  }

  /** The loop of lines 87-92. */
  method PadParts<T, M>(d: DataProto<T, M>, n: nat, padSize: nat) returns (parts: seq<DataProto<T, M>>)
    requires Parallel(d) && n == Len(d) > 0
    ensures Padding(d, parts, n + padSize)
  {
    parts := [d];
    var remaining := padSize;
    PadStart(d);
    NextMultiple(0, n);
    assert PadOpen(d, parts, n, padSize, remaining);
    hide PadOpen, Slice;
    while remaining > 0
      invariant 0 <= remaining <= padSize
      invariant PadOpen(d, parts, n, padSize, remaining)
    {
      var take := if remaining <= n then remaining else n;
      PadRound(d, parts, n, padSize, remaining, take);
      parts := parts + [Slice(d, 0, take)];
      remaining := remaining - take;
    }
    PadClosed(d, parts, n, padSize);
  }

  /** Slices of one batch concatenate exactly when its metrics are fit; the columns are then
      joined, and the metadata stays exactly when it is stable. */
  lemma ConcatAlike<T, M>(d: DataProto<T, M>, ds: seq<DataProto<T, M>>)
    requires ds != [] && forall i :: 0 <= i < |ds| ==> Alike(d, ds[i])
    requires Checked(Joined(ds))
    ensures CanConcat(ds) <==> MetricsOk(MetricsOf(d.meta))
    ensures Stable(d.meta) ==> CanConcat(ds)
    ensures CanConcat(ds) ==>
      Others(MergedMeta(Metas(ds))) == Others(d.meta) && (MergedMeta(Metas(ds)) == d.meta <==> Stable(d.meta))
  {
    AlikeConcat(d, ds);
    CopiesIff(Metas(ds), d.meta);
    hide TensorsMatch, KeysCovered, Checked, Agree, MetricsOk, MetricsOf, Stable;
  }

  lemma PaddingChecked<T, M>(d: DataProto<T, M>, parts: seq<DataProto<T, M>>, m: nat)
    requires Padding(d, parts, m)
    ensures parts != [] && Checked(Joined(parts)) && Joined(parts) == Cyclic(d, m)
    ensures forall i :: 0 <= i < |parts| ==> Alike(d, parts[i])
  {
  }

  /** The result differs from `rows` in the merged metrics only, and in nothing at all
      exactly when the metadata is stable. */
  ghost predicate UpToMetrics<T, M>(result: DataProto<T, M>, rows: DataProto<T, M>) {
    && result.batch == rows.batch && result.nonTensor == rows.nonTensor
    && Others(result.meta) == Others(rows.meta) && (result.meta == rows.meta <==> Stable(rows.meta))
  }

  /** `r` has `m` rows in every column of `d`, and row `i` is row `i % Len(d)` of `d`. */
  ghost predicate RepeatsRows<T, M>(d: DataProto<T, M>, r: DataProto<T, M>, m: nat)
    requires Len(d) > 0 && Parallel(d)
  {
    && (r.batch.Some? <==> d.batch.Some?)
    && (d.batch.Some? ==> r.batch.value.size == m && RepeatsColumns(d.batch.value.columns, r.batch.value.columns, Len(d), m))
    && RepeatsColumns(d.nonTensor, r.nonTensor, Len(d), m)
  }

  ghost predicate RepeatsColumns<T>(cs: Columns<T>, r: Columns<T>, n: nat, m: nat)
    requires n > 0 && HaveRows(cs, n)
  {
    r.Keys == cs.Keys && forall k :: k in r ==> |r[k]| == m && forall i :: 0 <= i < m ==> r[k][i] == cs[k][i % n]
  }

  lemma CyclicRepeats<T, M>(d: DataProto<T, M>, m: nat)
    requires Parallel(d) && Len(d) > 0
    ensures RepeatsRows(d, Cyclic(d, m), m)
  {
    CyclicColumnsRepeat(d.nonTensor, Len(d), m);
    if d.batch.Some? { CyclicColumnsRepeat(d.batch.value.columns, Len(d), m); }
    hide RepeatsColumns, CyclicColumns;
  }

  lemma CyclicColumnsRepeat<T>(cs: Columns<T>, n: nat, m: nat)
    requires n > 0 && HaveRows(cs, n)
    ensures RepeatsColumns(cs, CyclicColumns(cs, m), n, m)
  {
  }

  lemma SameRepeats<T, M>(d: DataProto<T, M>, a: DataProto<T, M>, b: DataProto<T, M>, m: nat)
    requires Parallel(d) && Len(d) > 0 && RepeatsRows(d, a, m) && a.batch == b.batch && a.nonTensor == b.nonTensor
    ensures RepeatsRows(d, b, m)
  {
  }

  /** Lines 86-93: the rows are repeated, if the metrics can be merged. */
  method AddRows<T, M(==)>(d: DataProto<T, M>, n: nat, padSize: nat) returns (r: Outcome<DataProto<T, M>>)
    requires Parallel(d) && n == Len(d) > 0
    ensures r.Ok? <==> MetricsOk(MetricsOf(d.meta))
    ensures r.Ok? ==> UpToMetrics(r.value, Cyclic(d, n + padSize)) && RepeatsRows(d, r.value, n + padSize)
  {
    hide Cyclic, Padding, Stable, RepeatsRows;
    var parts := PadParts(d, n, padSize);
    PaddingChecked(d, parts, n + padSize);
    ConcatAlike(d, parts);
    hide CanConcat, MetricsOk, MetricsOf, MergedMeta, Concatenated, KeepsOthers, MetricsByWorker, AllDicts, ListsMetrics,
      AllMetrics, Joined;
    r := Concat(parts);
    if r.Ok? {
      CyclicMeta(d, n + padSize);
      CyclicRepeats(d, n + padSize);
      SameRepeats(d, Cyclic(d, n + padSize), r.value, n + padSize);
    }
  }

  /** Padding fails on a zero divisor or, if rows are added, on metrics that do not merge.
      Otherwise the batch has the least multiple of the divisor as its length, and its rows
      repeat the batch from the start. */
  method PadToDivisor<T, M(==)>(d: DataProto<T, M>, divisor: nat) returns (r: Outcome<(DataProto<T, M>, nat)>)
    requires Parallel(d)
    ensures divisor == 0 ==> r == ZeroDivision
    ensures divisor > 0 && Len(d) % divisor == 0 ==> r == Ok((d, 0))
    ensures divisor > 0 && Len(d) % divisor != 0 ==> (r.Ok? <==> MetricsOk(MetricsOf(d.meta)))
    ensures r.Ok? ==> LeastMultiple(Len(d) + r.value.1, Len(d), divisor)
    ensures r.Ok? && r.value.1 > 0 ==> Len(d) > 0 && UpToMetrics(r.value.0, Cyclic(d, Len(d) + r.value.1))
    ensures r.Ok? && r.value.1 > 0 ==> RepeatsRows(d, r.value.0, Len(d) + r.value.1)
  {
    if divisor == 0 { return ZeroDivision; }
    var n := Length(d);
    PadIsLeast(n, divisor);
    hide Cyclic, LeastMultiple, UpToMetrics, MetricsOk, MetricsOf, RepeatsRows, Parallel;
    if n % divisor == 0 { return Ok((d, 0)); }
    var padSize := divisor - n % divisor;
    var padded := AddRows(d, n, padSize);
    if !padded.Ok? { return Failure(padded); }
    r := Ok((padded.value, padSize));
  }

  lemma CyclicMeta<T, M>(d: DataProto<T, M>, m: nat)
    requires Parallel(d) && Len(d) > 0
    ensures Cyclic(d, m).meta == d.meta
  {
  }

  /** The same error with another result type. */
  function Failure<R, S>(r: Outcome<R>): (s: Outcome<S>)
    requires !r.Ok?
    ensures !s.Ok?
  {
    match r
    case ZeroDivision => ZeroDivision
    case AssertionFailed => AssertionFailed
    case AttributeError => AttributeError
    case IndexError => IndexError
    case TensorKeyError => TensorKeyError
  }

  lemma NextMultiple(m: nat, n: nat)
    requires MultipleOf(m, n) || (m == 0 && n > 0)
    ensures MultipleOf(m + n, n)
  {
    assert m == (m / n) * n;
    assert m + n == (m / n + 1) * n;
    Multiple(m / n + 1, n);
  }

  /** `data[:-pad]`; a slice that reaches before the first row is empty. */
  method Unpad<T, M>(d: DataProto<T, M>, pad: nat) returns (u: DataProto<T, M>)
    requires Parallel(d)
    ensures u == Slice(d, 0, if pad <= Len(d) then Len(d) - pad else 0)
  {
    var n := Length(d);
    if pad != 0 {
      u := Slice(d, 0, if pad <= n then n - pad else 0);
    } else {
      u := d;
      SliceAll(d);
    }
  }

  lemma SliceAll<T, M>(d: DataProto<T, M>)
    requires Parallel(d)
    ensures Slice(d, 0, Len(d)) == d
  {
    SliceWhole(d.nonTensor, Len(d));
    if d.batch.Some? { SliceWhole(d.batch.value.columns, Len(d)); }
  }

  lemma SliceWhole<T>(cs: Columns<T>, n: nat)
    requires HaveRows(cs, n)
    ensures SliceColumns(cs, 0, n) == cs
  {
    forall k | k in cs ensures cs[k][0..n] == cs[k] { }
  }

  lemma CyclePrefix<T>(cs: Columns<T>, n: nat, m: nat)
    requires n <= m && forall k :: k in cs ==> cs[k] != []
    ensures SliceColumns(CyclicColumns(cs, m), 0, n) == CyclicColumns(cs, n)
  {
    forall k | k in cs ensures Cycle(cs[k], m)[0..n] == Cycle(cs[k], n) { }
  }

  lemma PrefixOfCyclic<T, M>(d: DataProto<T, M>, m: nat)
    requires Parallel(d) && 0 < Len(d) <= m
    ensures Slice(Cyclic(d, m), 0, Len(d)) == d
  {
    OneCycle(d);
    var n := Len(d);
    CyclePrefix(d.nonTensor, n, m);
    if d.batch.Some? { CyclePrefix(d.batch.value.columns, n, m); }
  }

  lemma SliceUpToMetrics<T, M>(result: DataProto<T, M>, d: DataProto<T, M>, m: nat)
    requires Parallel(d) && 0 < Len(d) <= m && UpToMetrics(result, Cyclic(d, m))
    ensures Parallel(result) && Len(result) == m && UpToMetrics(Slice(result, 0, Len(d)), d)
  {
    PrefixOfCyclic(d, m);
    SameColumns(result, Cyclic(d, m));
    hide Stable, Others;
  }

  lemma SameColumns<T, M>(a: DataProto<T, M>, b: DataProto<T, M>)
    requires a.batch == b.batch && a.nonTensor == b.nonTensor && Parallel(b)
    ensures Len(a) == Len(b) && Parallel(a)
  {
  }

  /** Unpadding by the returned size gives the rows back whenever padding works; it gives
      everything back exactly when nothing was added or the metadata is stable. */
  method PadThenUnpad<T, M(==)>(d: DataProto<T, M>, divisor: nat) returns (r: Outcome<DataProto<T, M>>)
    requires Parallel(d)
    ensures r.Ok? <==> divisor > 0 && (Len(d) % divisor == 0 || MetricsOk(MetricsOf(d.meta)))
    ensures r == Ok(d) <==> divisor > 0 && (Len(d) % divisor == 0 || Stable(d.meta))
    ensures r.Ok? ==> r.value.batch == d.batch && r.value.nonTensor == d.nonTensor
  {
    var padded := PadToDivisor(d, divisor);
    StableFit(d.meta);
    if !padded.Ok? { return Failure(padded); }
    var (result, pad) := padded.value;
    hide MetricsOk, MetricsOf, Stable, Cyclic, LeastMultiple;
    if pad == 0 {
      NoPadIff(Len(d), divisor) by { assert LeastMultiple(Len(d), Len(d), divisor); }
    } else {
      NoPadIff(Len(d), divisor);
      SliceUpToMetrics(result, d, Len(d) + pad);
    }
    SliceAll(d);
    var back := Unpad(result, pad);
    r := Ok(back);
  }

  lemma StableFit<M>(meta: Meta<M>)
    ensures Stable(meta) ==> MetricsOk(MetricsOf(meta))
  {
  }

  lemma NoPadIff(n: nat, divisor: nat)
    ensures LeastMultiple(n, n, divisor) <==> MultipleOf(n, divisor)
  {
  }
}
