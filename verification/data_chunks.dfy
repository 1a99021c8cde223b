/** Cutting a batch into equal chunks with two libraries, and concatenating them again
    (verl/protocol.py, lines 864-903 and 917-961). */
module DataChunks {
  import opened Basics
  import opened Blocks
  import opened MetaMerge
  import opened DataProtos
  import opened DataPadding

  // ---------- the two libraries ----------

  /** `TensorDict.split`: the rows from `from` on in pieces of `size`, the last possibly
      smaller. */
  function SplitDict<T>(td: TensorDict<T>, size: nat, from: nat): (ps: seq<TensorDict<T>>)
    requires size > 0 && from <= td.size && HaveRows(td.columns, td.size)
    decreases td.size - from
  {
    if td.size - from <= size then [SliceDict(td, from, td.size)]
    else [SliceDict(td, from, from + size)] + SplitDict(td, size, from + size)
  }

  /** `TensorDict.chunk`. */
  function ChunkDict<T>(td: TensorDict<T>, k: nat): seq<TensorDict<T>>
    requires k > 0 && td.size > 0 && HaveRows(td.columns, td.size)
  {
    PositiveSize(td.size, k);
    SplitDict(td, CeilDiv(td.size, k), 0)
  }

  /** `numpy.cumsum`, started at `sum`. */
  function CumSum(sizes: seq<nat>, sum: nat): (r: seq<nat>)
    ensures |r| == |sizes|
  {
    if sizes == [] then [] else [sum + sizes[0]] + CumSum(sizes[1..], sum + sizes[0])
  }

  predicate Increasing(from: nat, indices: seq<nat>, n: nat)
    decreases |indices|
  {
    if indices == [] then from <= n else from <= indices[0] && Increasing(indices[0], indices[1..], n)
  }

  /** `numpy.array_split` at indices, from `from` on. */
  function SplitAt<T>(s: seq<T>, from: nat, indices: seq<nat>): (ps: seq<seq<T>>)
    requires Increasing(from, indices, |s|)
    ensures |ps| == |indices| + 1
    decreases |indices|
  {
    if indices == [] then [s[from..]]
    else
      IndexInRange(from, indices, |s|);
      [s[from..indices[0]]] + SplitAt(s, indices[0], indices[1..])
  }

  lemma {:induction false} IndexInRange(from: nat, indices: seq<nat>, n: nat)
    requires Increasing(from, indices, n)
    ensures from <= n && forall i :: 0 <= i < |indices| ==> indices[i] <= n
    decreases |indices|
  {
    if indices != [] { IndexInRange(indices[0], indices[1..], n); }
  }

  /** The section sizes of `numpy.array_split` into `k` sections. */
  function Sections(n: nat, k: nat): (sizes: seq<nat>)
    requires k > 0
    ensures |sizes| == k
  {
    seq(k, i requires 0 <= i < k => if i < n % k then n / k + 1 else n / k)
  }

  // ---------- equal pieces ----------

  lemma {:induction false} SplitDictEven<T>(td: TensorDict<T>, size: nat, k: nat, i: nat, j: nat)
    requires size > 0 && HaveRows(td.columns, td.size) && i <= j < k && td.size == Start(k, size)
    ensures Start(i, size) <= td.size && Start(j, size) + size <= td.size
    ensures |SplitDict(td, size, Start(i, size))| == k - i
    ensures SplitDict(td, size, Start(i, size))[j - i] == SliceDict(td, Start(j, size), Start(j, size) + size)
    decreases k - i
  {
    hide SliceDict;
    BlockFits(k, i, size);
    BlockFits(k, j, size);
    if i + 1 < k {
      BlockFits(k, i + 1, size);
      SplitDictEven(td, size, k, i + 1, if j == i then j + 1 else j);
    }
  }

  /** Cut indices at the ends of pieces `g`, `g + 1` and so on. */
  ghost predicate EvenCuts(indices: seq<nat>, size: nat, g: nat) {
    forall i: nat :: i < |indices| ==> indices[i] == Start(g + i + 1, size)
  }

  lemma {:induction false} CumSumEven(sizes: seq<nat>, size: nat, g: nat, i: nat)
    requires forall i :: 0 <= i < |sizes| ==> sizes[i] == size
    requires i < |sizes|
    ensures CumSum(sizes, Start(g, size))[i] == Start(g + i + 1, size)
  {
    if i > 0 { CumSumEven(sizes[1..], size, g + 1, i - 1); }
  }

  lemma CutsOfSizes(sizes: seq<nat>, size: nat)
    requires sizes != [] && forall i :: 0 <= i < |sizes| ==> sizes[i] == size
    ensures EvenCuts(CumSum(sizes, 0)[..|sizes| - 1], size, 0)
  {
    var indices := CumSum(sizes, 0)[..|sizes| - 1];
    forall i: nat | i < |indices| ensures indices[i] == Start(0 + i + 1, size) {
      OneCut(sizes, size, i);
      hide Start, CumSum;
    }
    hide Start, CumSum;
  }

  lemma OneCut(sizes: seq<nat>, size: nat, i: nat)
    requires i < |sizes| && forall i :: 0 <= i < |sizes| ==> sizes[i] == size
    ensures CumSum(sizes, 0)[i] == Start(i + 1, size)
  {
    CumSumEven(sizes, size, 0, i);
  }

  lemma EvenCutsTail(indices: seq<nat>, size: nat, g: nat)
    requires EvenCuts(indices, size, g) && indices != []
    ensures indices[0] == Start(g + 1, size) && EvenCuts(indices[1..], size, g + 1)
  {
    forall i: nat | i < |indices[1..]| ensures indices[1..][i] == Start(g + 1 + i + 1, size) {
      assert indices[i + 1] == Start(g + (i + 1) + 1, size);
    }
  }

  lemma {:induction false} EvenCutsIncrease(indices: seq<nat>, size: nat, g: nat, n: nat)
    requires EvenCuts(indices, size, g) && n == Start(g + |indices| + 1, size)
    ensures Increasing(Start(g, size), indices, n)
    decreases |indices|
  {
    if indices == [] {
      BlockFits(g + 1, g, size);
    } else {
      EvenCutsTail(indices, size, g);
      EvenCutsIncrease(indices[1..], size, g + 1, n);
    }
  }

  lemma {:induction false} SplitAtEven<T>(s: seq<T>, indices: seq<nat>, size: nat, g: nat, j: nat)
    requires EvenCuts(indices, size, g) && |s| == Start(g + |indices| + 1, size) && j <= |indices|
    ensures Increasing(Start(g, size), indices, |s|)
    ensures Start(g + j, size) + size <= |s|
    ensures SplitAt(s, Start(g, size), indices)[j] == Block(s, g + j, size)
    decreases |indices|
  {
    EvenCutsIncrease(indices, size, g, |s|);
    BlockFits(g + |indices| + 1, g + j, size);
    if indices != [] {
      EvenCutsTail(indices, size, g);
      hide EvenCuts, Increasing;
      if j > 0 { SplitAtEven(s, indices[1..], size, g + 1, j - 1); }
    }
  }

  // ---------- chunk ----------

  /** Rows `i * size` up to `(i + 1) * size` of every column. */
  ghost function Piece<T, M>(d: DataProto<T, M>, i: nat, size: nat): DataProto<T, M>
    requires Parallel(d) && Start(i, size) + size <= Len(d)
  {
    Slice(d, Start(i, size), Start(i, size) + size)
  }

  ghost predicate ArePieces<T, M>(d: DataProto<T, M>, ps: seq<DataProto<T, M>>, size: nat) {
    Parallel(d) && forall i: nat :: i < |ps| ==> Start(i, size) + size <= Len(d) && ps[i] == Piece(d, i, size)
  }

  ghost predicate TensorPieces<T, M>(d: DataProto<T, M>, parts: seq<Option<TensorDict<T>>>, size: nat) {
    Parallel(d) && forall i: nat :: i < |parts| ==>
      Start(i, size) + size <= Len(d) && parts[i] == Piece(d, i, size).batch
  }

  ghost predicate ArrayPieces<T>(columns: Columns<T>, n: nat, parts: seq<Columns<T>>, size: nat) {
    HaveRows(columns, n) && forall i: nat :: i < |parts| ==>
      Start(i, size) + size <= n && parts[i] == SliceColumns(columns, Start(i, size), Start(i, size) + size)
  }

  /** `n` rows are `k` pieces of `size`, for either library. */
  ghost predicate Evenly(n: nat, k: nat, size: nat) {
    k > 0 && n == Start(k, size) && CeilDiv(n, k) == size && forall i :: 0 <= i < k ==> Sections(n, k)[i] == size
  }

  lemma Quotient(n: nat, k: nat)
    requires k > 0 && n % k == 0
    ensures Evenly(n, k, n / k)
  {
    StartIsProduct(k, n / k);
    assert n == k * (n / k);
    EvenSize(k, n / k);
  }

  lemma EvenDicts<T>(td: TensorDict<T>, size: nat, k: nat, dicts: seq<TensorDict<T>>)
    requires HaveRows(td.columns, td.size) && td.size > 0 && Evenly(td.size, k, size)
    requires dicts == ChunkDict(td, k)
    ensures |dicts| == k
    ensures forall i: nat :: i < k ==>
      Start(i, size) + size <= td.size && dicts[i] == SliceDict(td, Start(i, size), Start(i, size) + size)
  {
    PositiveSize(td.size, k);
    hide SliceDict, CeilDiv, SplitDict, Sections;
    SplitDictEven(td, size, k, 0, 0);
    forall i: nat | i < k
      ensures Start(i, size) + size <= td.size && dicts[i] == SliceDict(td, Start(i, size), Start(i, size) + size)
    {
      SplitDictEven(td, size, k, 0, i);
    }
  }

  /** Line 880 and the sizes of line 881. */
  method CutDict<T>(td: TensorDict<T>, chunks: nat, ghost size: nat)
    returns (parts: seq<Option<TensorDict<T>>>, sizes: seq<nat>)
    requires HaveRows(td.columns, td.size) && chunks > 0 && td.size > 0 && Evenly(td.size, chunks, size)
    ensures |parts| == |sizes| == chunks
    ensures forall i: nat :: i < chunks ==>
      && Start(i, size) + size <= td.size
      && parts[i] == Some(SliceDict(td, Start(i, size), Start(i, size) + size))
      && sizes[i] == size
  {
    hide Evenly, Start, ChunkDict;
    var dicts := ChunkDict(td, chunks);
    EvenDicts(td, size, chunks, dicts);
    parts := seq(|dicts|, i requires 0 <= i < |dicts| => Some(dicts[i]));
    sizes := seq(|dicts|, i requires 0 <= i < |dicts| => dicts[i].size);
  }

  lemma PiecesFit(n: nat, chunks: nat, size: nat)
    requires Evenly(n, chunks, size)
    ensures forall i: nat :: i < chunks ==> Start(i, size) + size <= n
  {
    forall i: nat | i < chunks ensures Start(i, size) + size <= n { BlockFits(chunks, i, size); }
  }

  lemma EvenSections(n: nat, chunks: nat, size: nat)
    requires Evenly(n, chunks, size)
    ensures forall i :: 0 <= i < chunks ==> Sections(n, chunks)[i] == size
  {
  }

  /** The tensors' pieces and the indices at which the arrays are then cut. */
  method CutTensors<T, M>(d: DataProto<T, M>, n: nat, chunks: nat, ghost size: nat)
    returns (parts: seq<Option<TensorDict<T>>>, indices: seq<nat>)
    requires Parallel(d) && n == Len(d) && chunks > 0 && Evenly(n, chunks, size) && (d.batch.Some? ==> n > 0)
    ensures |parts| == chunks && |indices| == chunks - 1 && EvenCuts(indices, size, 0)
    ensures TensorPieces(d, parts, size)
  {
    hide Evenly, EvenCuts, Start, Sections, CumSum;
    PiecesFit(n, chunks, size);
    var sizes: seq<nat>;
    if d.batch.Some? {
      parts, sizes := CutDict(d.batch.value, chunks, size);
    } else {
      EvenSections(n, chunks, size);
      parts := seq(chunks, _ => None);
      sizes := Sections(n, chunks);
    }
    CutsOfSizes(sizes, size);
    indices := CumSum(sizes, 0)[..chunks - 1];
  }

  /** Cutting all arrays at the indices: lines 886-895. */
  method CutArrays<T>(columns: Columns<T>, indices: seq<nat>, ghost n: nat, ghost size: nat)
    returns (parts: seq<Columns<T>>)
    requires HaveRows(columns, n) && EvenCuts(indices, size, 0) && n == Start(|indices| + 1, size)
    ensures |parts| == |indices| + 1 && ArrayPieces(columns, n, parts, size)
  {
    var chunks := |indices| + 1;
    parts := seq(chunks, _ => map[]);
    CutsIncrease(indices, size, n);
    var todo := columns.Keys;
    assert CutSoFar(columns, todo, n, parts, size);
    hide Start, Block, EvenCuts, Increasing, SplitAt, CutSoFar;
    while todo != {}
      invariant todo <= columns.Keys && |parts| == chunks && CutSoFar(columns, todo, n, parts, size)
      decreases todo
    {
      var key :| key in todo;
      CutColumn(columns[key], indices, size);
      var next := Store(parts, key, SplitAt(columns[key], 0, indices));
      CutOne(columns, todo, n, parts, next, size, key);
      parts := next;
      todo := todo - {key};
    }
    BlocksArePieces(columns, n, parts, size);
  }

  /** Every part has its block of every column that is not in `todo`. */
  ghost predicate CutSoFar<T>(columns: Columns<T>, todo: set<string>, n: nat, parts: seq<Columns<T>>, size: nat) {
    && HaveRows(columns, n)
    && (forall i: nat :: i < |parts| ==> Start(i, size) + size <= n)
    && (forall i: nat :: i < |parts| ==> parts[i].Keys == columns.Keys - todo)
    && (forall i: nat, k :: i < |parts| && k in columns.Keys - todo ==> parts[i][k] == Block(columns[k], i, size))
  }

  lemma CutOne<T>(columns: Columns<T>, todo: set<string>, n: nat, parts: seq<Columns<T>>, next: seq<Columns<T>>,
                  size: nat, key: string)
    requires CutSoFar(columns, todo, n, parts, size) && key in todo && key in columns && |next| == |parts|
    requires forall i: nat :: i < |parts| ==> next[i] == parts[i][key := Block(columns[key], i, size)]
    ensures CutSoFar(columns, todo - {key}, n, next, size)
  {
    hide Start, Block;
  }

  lemma CutsIncrease(indices: seq<nat>, size: nat, n: nat)
    requires EvenCuts(indices, size, 0) && n == Start(|indices| + 1, size)
    ensures Increasing(0, indices, n)
    ensures forall i: nat :: i <= |indices| ==> Start(i, size) + size <= n
  {
    EvenCutsIncrease(indices, size, 0, n);
    forall i: nat | i <= |indices| ensures Start(i, size) + size <= n { BlockFits(|indices| + 1, i, size); }
  }

  lemma CutColumn<T>(s: seq<T>, indices: seq<nat>, size: nat)
    requires EvenCuts(indices, size, 0) && |s| == Start(|indices| + 1, size)
    ensures Increasing(0, indices, |s|)
    ensures forall j: nat :: j <= |indices| ==>
      Start(j, size) + size <= |s| && SplitAt(s, 0, indices)[j] == Block(s, j, size)
  {
    EvenCutsIncrease(indices, size, 0, |s|);
    hide EvenCuts, Increasing, SplitAt, Block;
    forall j: nat | j <= |indices|
      ensures Start(j, size) + size <= |s| && SplitAt(s, 0, indices)[j] == Block(s, j, size)
    {
      SplitAtEven(s, indices, size, 0, j);
    }
  }

  lemma BlocksArePieces<T>(columns: Columns<T>, n: nat, parts: seq<Columns<T>>, size: nat)
    requires CutSoFar(columns, {}, n, parts, size)
    ensures ArrayPieces(columns, n, parts, size)
  {
    hide Start;
    forall i: nat | i < |parts|
      ensures parts[i] == SliceColumns(columns, Start(i, size), Start(i, size) + size)
    {
    }
  }

  /** The inner loop over the chunks. */
  method Store<T>(parts: seq<Columns<T>>, key: string, pieces: seq<seq<T>>) returns (r: seq<Columns<T>>)
    requires |pieces| == |parts|
    ensures |r| == |parts| && forall i :: 0 <= i < |parts| ==> r[i] == parts[i][key := pieces[i]]
  {
    r := parts;
    for i := 0 to |parts|
      invariant |r| == |parts|
      invariant forall j :: 0 <= j < |parts| ==> r[j] == if j < i then parts[j][key := pieces[j]] else parts[j]
    {
      r := r[i := r[i][key := pieces[i]]];
    }
  }

  /** The last loop of `chunk`. */
  method Assemble<T, M>(d: DataProto<T, M>, tensors: seq<Option<TensorDict<T>>>, arrays: seq<Columns<T>>, ghost size: nat)
    returns (output: seq<DataProto<T, M>>)
    requires Parallel(d) && |tensors| == |arrays|
    requires TensorPieces(d, tensors, size) && ArrayPieces(d.nonTensor, Len(d), arrays, size)
    ensures |output| == |tensors| && ArePieces(d, output, size)
  {
    hide Start, Parallel;
    output := [];
    for i := 0 to |tensors|
      invariant |output| == i && ArePieces(d, output, size)
    {
      output := output + [DataProto(tensors[i], arrays[i], d.meta)];
      assert output[i] == Piece(d, i, size);
    }
  }

  /** `c` is rows `i * size` up to `(i + 1) * size` of every column of `d`, with the same
      metadata. */
  ghost predicate IsCut<T, M>(d: DataProto<T, M>, c: DataProto<T, M>, i: nat, size: nat)
    requires Parallel(d)
  {
    && (i + 1) * size <= Len(d)
    && c.meta == d.meta && (c.batch.Some? <==> d.batch.Some?)
    && (d.batch.Some? ==>
          c.batch.value.size == size && CutColumns(d.batch.value.columns, c.batch.value.columns, i, size, Len(d)))
    && CutColumns(d.nonTensor, c.nonTensor, i, size, Len(d))
  }

  ghost predicate CutColumns<T>(cs: Columns<T>, c: Columns<T>, i: nat, size: nat, n: nat)
    requires HaveRows(cs, n) && (i + 1) * size <= n
  {
    CutRange(i, size);
    c.Keys == cs.Keys && forall k :: k in cs ==> c[k] == cs[k][i * size..(i + 1) * size]
  }

  lemma CutRange(i: nat, size: nat)
    ensures 0 <= i * size <= (i + 1) * size == i * size + size
  {
  }

  lemma SliceIsCut<T>(cs: Columns<T>, from: nat, i: nat, size: nat, n: nat)
    requires HaveRows(cs, n) && from == i * size && from + size <= n
    ensures (i + 1) * size <= n && CutColumns(cs, SliceColumns(cs, from, from + size), i, size, n)
  {
    CutRange(i, size);
  }

  lemma PieceIsCut<T, M>(d: DataProto<T, M>, i: nat, size: nat)
    requires Parallel(d) && Start(i, size) + size <= Len(d)
    ensures IsCut(d, Piece(d, i, size), i, size)
  {
    StartIsProduct(i, size);
    CutRange(i, size);
    var from := Start(i, size);
    SliceIsCut(d.nonTensor, from, i, size, Len(d));
    if d.batch.Some? { SliceIsCut(d.batch.value.columns, from, i, size, Len(d)); }
    hide CutColumns, Start, SliceColumns;
  }

  lemma PiecesAreCuts<T, M>(d: DataProto<T, M>, ps: seq<DataProto<T, M>>, size: nat)
    requires ArePieces(d, ps, size)
    ensures forall i :: 0 <= i < |ps| ==> IsCut(d, ps[i], i, size)
  {
    hide IsCut, Piece, Start;
    forall i: nat | i < |ps| ensures IsCut(d, ps[i], i, size) { PieceIsCut(d, i, size); }
  }

  /** Chunking succeeds exactly when the rows divide evenly, and then every column of both
      kinds is cut at the same rows. */
  method Chunks<T, M>(d: DataProto<T, M>, chunks: nat) returns (r: Outcome<seq<DataProto<T, M>>>)
    requires Parallel(d) && (d.batch.Some? ==> Len(d) > 0)
    ensures chunks == 0 ==> r == ZeroDivision
    ensures chunks > 0 && Len(d) % chunks != 0 ==> r == AssertionFailed
    ensures chunks > 0 && Len(d) % chunks == 0 ==>
      r.Ok? && |r.value| == chunks && ArePieces(d, r.value, Len(d) / chunks)
    ensures r.Ok? ==> forall i :: 0 <= i < chunks ==> IsCut(d, r.value[i], i, Len(d) / chunks)
  {
    if chunks == 0 { return ZeroDivision; }
    var n := Length(d);
    if n % chunks != 0 { return AssertionFailed; }
    ghost var size := n / chunks;
    Quotient(n, chunks);
    EvenStart(n, chunks, size);
    hide Start, EvenCuts, Piece, ArePieces, TensorPieces, ArrayPieces, Evenly, IsCut;
    var tensors, indices := CutTensors(d, n, chunks, size);
    var arrays := CutArrays(d.nonTensor, indices, n, size);
    var output := Assemble(d, tensors, arrays, size);
    PiecesAreCuts(d, output, size);
    r := Ok(output);
  }

  lemma EvenStart(n: nat, chunks: nat, size: nat)
    requires Evenly(n, chunks, size)
    ensures n == Start(chunks, size)
  {
  }

  // ---------- concat after chunk ----------

  lemma JoinRanges<T>(s: seq<T>, from: nat, mid: nat, to: nat)
    requires from <= mid <= to <= |s|
    ensures s[from..mid] + s[mid..to] == s[from..to]
  {
  }

  lemma JoinSlices<T>(cs: Columns<T>, from: nat, mid: nat, to: nat)
    requires from <= mid <= to && forall k :: k in cs ==> to <= |cs[k]|
    ensures JoinColumns(SliceColumns(cs, from, mid), SliceColumns(cs, mid, to)) == SliceColumns(cs, from, to)
  {
    forall k | k in cs ensures cs[k][from..mid] + cs[k][mid..to] == cs[k][from..to] { JoinRanges(cs[k], from, mid, to); }
  }

  lemma JoinNeighbours<T, M>(d: DataProto<T, M>, mid: nat, to: nat)
    requires Parallel(d) && mid <= to <= Len(d)
    ensures Join(Slice(d, 0, mid), Slice(d, mid, to)) == Slice(d, 0, to)
  {
    hide SliceColumns, JoinColumns;
    JoinSlices(d.nonTensor, 0, mid, to);
    if d.batch.Some? { JoinSlices(d.batch.value.columns, 0, mid, to); }
  }

  lemma {:induction false} JoinedPieces<T, M>(d: DataProto<T, M>, ps: seq<DataProto<T, M>>, size: nat)
    requires ArePieces(d, ps, size) && ps != [] && Start(|ps|, size) <= Len(d)
    ensures Joined(ps) == Slice(d, 0, Start(|ps|, size))
  {
    assert ps[|ps| - 1] == Piece(d, |ps| - 1, size);
    if |ps| > 1 {
      JoinedPieces(d, ps[..|ps| - 1], size);
      JoinNeighbours(d, Start(|ps| - 1, size), Start(|ps|, size));
      hide Join, Slice;
    }
  }

  lemma PiecesAlike<T, M>(d: DataProto<T, M>, ps: seq<DataProto<T, M>>, size: nat)
    requires ArePieces(d, ps, size)
    ensures forall i :: 0 <= i < |ps| ==> Alike(d, ps[i])
  {
    hide Start;
    forall i | 0 <= i < |ps| ensures Alike(d, ps[i]) { assert ps[i] == Piece(d, i, size); }
  }

  /** Concatenating the chunks gives the rows back, whatever their number, whenever the
      metrics can be merged; it is the identity exactly when the metadata is stable. */
  method ChunkThenConcat<T, M(==)>(d: DataProto<T, M>, chunks: nat) returns (r: Outcome<DataProto<T, M>>)
    requires Parallel(d) && (d.batch.Some? ==> Len(d) > 0)
    ensures chunks == 0 ==> r == ZeroDivision
    ensures r.Ok? <==> chunks > 0 && Len(d) % chunks == 0 && MetricsOk(MetricsOf(d.meta))
    ensures r == Ok(d) <==> chunks > 0 && Len(d) % chunks == 0 && Stable(d.meta)
    ensures r.Ok? ==> r.value.batch == d.batch && r.value.nonTensor == d.nonTensor
  {
    StableFit(d.meta);
    var pieces := Chunks(d, chunks);
    if !pieces.Ok? { return Failure(pieces); }
    ghost var size := Len(d) / chunks;
    Quotient(Len(d), chunks);
    EvenStart(Len(d), chunks, size);
    JoinedPieces(d, pieces.value, size);
    SliceAll(d);
    PiecesAlike(d, pieces.value, size);
    ParallelChecked(d);
    hide Start, ArePieces, Piece, Evenly, Slice, Parallel, Checked;
    ConcatAlike(d, pieces.value);
    hide CanConcat, MetricsOk, MetricsOf, MergedMeta, Stable, Concatenated, KeepsOthers, MetricsByWorker, AllDicts,
      ListsMetrics, AllMetrics, IsCut;
    r := Concat(pieces.value);
  }

  lemma ParallelChecked<T, M>(d: DataProto<T, M>)
    requires Parallel(d)
    ensures Checked(d)
  {
  }
}
