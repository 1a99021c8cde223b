/** Splitting weights into chunks and merging them back
    (verl/checkpoint_engine/base.py, lines 503-571). */
module WeightChunks {
  import opened Basics

  newtype byte = x: int | 0 <= x < 256

  datatype Result<+T> = Ok(value: T) | AssertionError | RuntimeError

  /** A named tensor: `itemsize` bytes per element, `data` its bytes in order. */
  datatype Weight = Weight(name: string, shape: seq<nat>, itemsize: nat, data: seq<byte>)

  /** A chunk with the metadata that travels with it. */
  datatype Chunk =
    Chunk(name: string, shape: seq<nat>, itemsize: nat, chunkOffset: nat, chunkSize: nat, data: seq<byte>)

  function Nbytes(shape: seq<nat>, itemsize: nat): nat { Numel(shape) * itemsize }

  predicate WeightOk(w: Weight) { |w.data| == Nbytes(w.shape, w.itemsize) }

  // ---------- split ----------

  function ChunkAt(w: Weight, B: nat, start: nat): Chunk
    requires start < |w.data|
  {
    var size := Min(B, |w.data| - start);
    Chunk(w.name, w.shape, w.itemsize, start, size, w.data[start..start + size])
  }

  /** The chunks of one weight from byte `start` on. */
  function SplitFrom(w: Weight, B: nat, start: nat): seq<Chunk>
    requires 1 <= B
    decreases if start < |w.data| then |w.data| - start else 0
  {
    if start >= |w.data| then []
    else [ChunkAt(w, B, start)] + SplitFrom(w, B, start + ChunkAt(w, B, start).chunkSize)
  }

  function Split(ws: seq<Weight>, B: nat): seq<Chunk>
    requires 1 <= B
  {
    if ws == [] then [] else SplitFrom(ws[0], B, 0) + Split(ws[1..], B)
  }

  lemma SplitFromStep(w: Weight, B: nat, start: nat, done: seq<Chunk>, chunk: Chunk)
    requires 1 <= B && start < |w.data| && chunk == ChunkAt(w, B, start)
    ensures done + SplitFrom(w, B, start) == done + [chunk] + SplitFrom(w, B, start + chunk.chunkSize)
  {
    var rest := SplitFrom(w, B, start + chunk.chunkSize);
    assert SplitFrom(w, B, start) == [chunk] + rest;
    hide SplitFrom;
  }

  lemma SplitFromEnd(w: Weight, B: nat, start: nat, done: seq<Chunk>)
    requires 1 <= B && start >= |w.data|
    ensures done + SplitFrom(w, B, start) == done
  {
  }

  lemma SplitStep(ws: seq<Weight>, B: nat, i: nat, done: seq<Chunk>)
    requires 1 <= B && i < |ws|
    ensures done + Split(ws[i..], B) == (done + SplitFrom(ws[i], B, 0)) + Split(ws[i + 1..], B)
  {
    assert ws[i..][1..] == ws[i + 1..];
    assert Split(ws[i..], B) == SplitFrom(ws[i], B, 0) + Split(ws[i + 1..], B);
    hide Split, SplitFrom;
  }

  method SplitWeightChunks(ws: seq<Weight>, B: nat) returns (chunks: seq<Chunk>)
    requires 1 <= B
    ensures chunks == Split(ws, B)
  {
    chunks := [];
    var i := 0;
    assert ws[0..] == ws;
    assert Split(ws[|ws|..], B) == [];
    hide Split, SplitFrom;
    while i < |ws|
      invariant 0 <= i <= |ws|
      invariant chunks + Split(ws[i..], B) == Split(ws, B)
    {
      var w := ws[i];
      ghost var before := chunks;
      var chunkOffset := 0;
      while chunkOffset < |w.data|
        invariant 0 <= chunkOffset <= |w.data|
        invariant chunks + SplitFrom(w, B, chunkOffset) == before + SplitFrom(w, B, 0)
        decreases |w.data| - chunkOffset
      {
        var chunkSize := Min(B, |w.data| - chunkOffset);
        var chunk := Chunk(w.name, w.shape, w.itemsize, chunkOffset, chunkSize,
                           w.data[chunkOffset..chunkOffset + chunkSize]);
        SplitFromStep(w, B, chunkOffset, chunks, chunk);
        chunks := chunks + [chunk];
        chunkOffset := chunkOffset + chunkSize;
      }
      SplitFromEnd(w, B, chunkOffset, chunks);
      SplitStep(ws, B, i, before);
      i := i + 1;
    }
  }

  // ---------- merge ----------

  /** A chunk as the merge loop gets it: a slice of a bucket, starting at `offset`. */
  datatype Placed = Placed(chunk: Chunk, offset: nat)

  function ChunksOf(ps: seq<Placed>): (cs: seq<Chunk>)
    ensures |cs| == |ps| && forall i :: 0 <= i < |ps| ==> cs[i] == ps[i].chunk
  {
    seq(|ps|, i requires 0 <= i < |ps| => ps[i].chunk)
  }

  /** A weight being assembled: its header and the bytes received so far. */
  datatype Pending = Pending(name: string, shape: seq<nat>, itemsize: nat, got: seq<byte>)

  /** `view(dtype)` of a byte slice to a wider type needs a multiple of the item size as
      its offset in the storage. */
  predicate CanView(c: Chunk, offset: nat) { c.itemsize > 1 ==> offset % c.itemsize == 0 }

  /** One iteration of the merge loop: the pending weight afterwards and the weights
      yielded, or the assertion or tensor error it stops with. */
  function MergeStep(p: Option<Pending>, x: Placed, B: nat): Result<(Option<Pending>, seq<Weight>)> {
    var c := x.chunk;
    var nbytes := Nbytes(c.shape, c.itemsize);
    if nbytes <= B then
      if p.Some? then AssertionError
      else if !CanView(c, x.offset) || |c.data| != nbytes then RuntimeError
      else Ok((None, [Weight(c.name, c.shape, c.itemsize, c.data)]))
    else if p.None? && c.chunkOffset != 0 then AssertionError
    else
      var q := if p.None? then Pending(c.name, c.shape, c.itemsize, []) else p.value;
      if c.name != q.name || |q.got| != c.chunkOffset then AssertionError
      else if |c.data| != c.chunkSize || c.chunkOffset + c.chunkSize > Nbytes(q.shape, q.itemsize) then RuntimeError
      else
        var r := q.(got := q.got + c.data);
        if c.chunkOffset + c.chunkSize == nbytes then
          if nbytes == Nbytes(q.shape, q.itemsize) then Ok((None, [Weight(r.name, r.shape, r.itemsize, r.got)]))
          else RuntimeError
        else Ok((Some(r), []))
  }

  type MergeResult = Result<(Option<Pending>, seq<Weight>)>

  function Prefixed(out: seq<Weight>, r: MergeResult): MergeResult {
    if r.Ok? then Ok((r.value.0, out + r.value.1)) else r
  }

  /** The whole loop: what is pending at the end and everything yielded. */
  function Merge(p: Option<Pending>, ps: seq<Placed>, B: nat): MergeResult
    decreases |ps|
  {
    if ps == [] then Ok((p, []))
    else
      var step := MergeStep(p, ps[0], B);
      if step.Ok? then Prefixed(step.value.1, Merge(step.value.0, ps[1..], B)) else step
  }

  /** The weights that have at least one byte. */
  function NonEmpty(ws: seq<Weight>): seq<Weight> {
    if ws == [] then []
    else if ws[0].data == [] then NonEmpty(ws[1..])
    else [ws[0]] + NonEmpty(ws[1..])
  }

  lemma PrefixedTwice(a: seq<Weight>, b: seq<Weight>, r: MergeResult)
    ensures Prefixed(a, Prefixed(b, r)) == Prefixed(a + b, r)
    ensures Prefixed([], r) == r
  {
    if r.Ok? {
      assert a + (b + r.value.1) == a + b + r.value.1;
      assert [] + r.value.1 == r.value.1;
    }
  }

  lemma {:induction false} MergeConcat(p: Option<Pending>, a: seq<Placed>, b: seq<Placed>, B: nat)
    ensures Merge(p, a + b, B) ==
              if Merge(p, a, B).Ok? then Prefixed(Merge(p, a, B).value.1, Merge(Merge(p, a, B).value.0, b, B))
              else Merge(p, a, B)
    decreases |a|
  {
    hide MergeStep;
    if a == [] {
      assert a + b == b;
      PrefixedTwice([], [], Merge(p, b, B));
    } else {
      assert (a + b)[0] == a[0] && (a + b)[1..] == a[1..] + b;
      var step := MergeStep(p, a[0], B);
      if step.Ok? {
        var (q, out) := step.value;
        MergeConcat(q, a[1..], b, B);
        var rest := Merge(q, a[1..], B);
        if rest.Ok? {
          PrefixedTwice(out, rest.value.1, Merge(rest.value.0, b, B));
        }
      }
    }
  }

  /** What is pending in the middle of weight `w`. */
  function Midway(w: Weight, start: nat): Option<Pending>
    requires start <= |w.data|
  {
    if start == 0 then None else Some(Pending(w.name, w.shape, w.itemsize, w.data[..start]))
  }

  /** Every weight that comes in one piece starts at a multiple of its item size. */
  ghost predicate Aligned(ps: seq<Placed>, B: nat) {
    forall i :: 0 <= i < |ps| && Nbytes(ps[i].chunk.shape, ps[i].chunk.itemsize) <= B ==>
      CanView(ps[i].chunk, ps[i].offset)
  }

  lemma AlignedConcat(a: seq<Placed>, b: seq<Placed>, B: nat)
    ensures Aligned(a + b, B) <==> Aligned(a, B) && Aligned(b, B)
  {
    if Aligned(a + b, B) {
      forall i | 0 <= i < |a| && Nbytes(a[i].chunk.shape, a[i].chunk.itemsize) <= B
        ensures CanView(a[i].chunk, a[i].offset)
      {
        assert (a + b)[i] == a[i];
      }
      forall i | 0 <= i < |b| && Nbytes(b[i].chunk.shape, b[i].chunk.itemsize) <= B
        ensures CanView(b[i].chunk, b[i].offset)
      {
        assert (a + b)[|a| + i] == b[i];
      }
    }
  }

  /** A weight in one piece comes back if its offset allows it, and fails otherwise. */
  lemma {:induction false} SmallWeightMerges(w: Weight, B: nat, ps: seq<Placed>)
    requires 1 <= B && WeightOk(w) && 0 < |w.data| <= B
    requires ChunksOf(ps) == SplitFrom(w, B, 0)
    ensures Merge(None, ps, B) == if Aligned(ps, B) then Ok((None, [w])) else RuntimeError
  {
    assert ChunkAt(w, B, 0).data == w.data;
    assert SplitFrom(w, B, |w.data|) == [];
    assert SplitFrom(w, B, 0) == [ChunkAt(w, B, 0)];
    assert |ps| == 1 && ps[0].chunk == ChunkAt(w, B, 0) && ps[1..] == [];
    assert [w] + [] == [w];
  }

  /** A weight larger than a bucket comes back wherever its chunks were placed. */
  lemma {:induction false} LargeWeightMerges(w: Weight, B: nat, start: nat, ps: seq<Placed>)
    requires 1 <= B && WeightOk(w) && start < |w.data| && B < |w.data|
    requires ChunksOf(ps) == SplitFrom(w, B, start)
    ensures Merge(Midway(w, start), ps, B) == Ok((None, [w])) && Aligned(ps, B)
    decreases |w.data| - start
  {
    var c := ChunkAt(w, B, start);
    var next := start + c.chunkSize;
    assert ChunksOf(ps)[1..] == SplitFrom(w, B, next) && ps[0].chunk == c;
    assert ChunksOf(ps[1..]) == ChunksOf(ps)[1..];
    assert w.data[..start] + c.data == w.data[..next];
    if next == |w.data| {
      assert w.data[..next] == w.data && ps[1..] == [];
      assert [w] + [] == [w];
    } else {
      LargeWeightMerges(w, B, next, ps[1..]);
      assert [] + [w] == [w];
    }
    AlignedConcat([ps[0]], ps[1..], B);
    assert ps == [ps[0]] + ps[1..];
  }

  /** Merging what was split, wherever the chunks lie in their buckets: exactly the
      non-empty weights, in order and byte for byte, if and only if every weight in one
      piece is aligned; no assertion of the loop ever fails. */
  lemma {:induction false} SplitThenMerge(ws: seq<Weight>, B: nat, ps: seq<Placed>)
    requires 1 <= B
    requires forall i :: 0 <= i < |ws| ==> WeightOk(ws[i])
    requires ChunksOf(ps) == Split(ws, B)
    ensures Merge(None, ps, B) == if Aligned(ps, B) then Ok((None, NonEmpty(ws))) else RuntimeError
  {
    if ws != [] {
      var n := |SplitFrom(ws[0], B, 0)|;
      var a, b := ps[..n], ps[n..];
      assert ChunksOf(ps)[..n] == SplitFrom(ws[0], B, 0) && ChunksOf(ps)[n..] == Split(ws[1..], B);
      assert ChunksOf(a) == ChunksOf(ps)[..n] && ChunksOf(b) == ChunksOf(ps)[n..];
      assert ps == a + b;
      hide Split, SplitFrom, MergeStep;
      SplitThenMerge(ws[1..], B, b);
      AlignedConcat(a, b, B);
      if ws[0].data == [] {
        assert a == [] by { SplitFromEnd(ws[0], B, 0, []); }
        assert ps == b;
      } else {
        if |ws[0].data| <= B { SmallWeightMerges(ws[0], B, a); } else { LargeWeightMerges(ws[0], B, 0, a); }
        MergeConcat(None, a, b, B);
      }
    }
  }

  /** The receiver gets the sender's list exactly when no weight is empty. */
  lemma {:induction false} NothingLostIff(ws: seq<Weight>)
    ensures |NonEmpty(ws)| <= |ws|
    ensures NonEmpty(ws) == ws <==> forall i :: 0 <= i < |ws| ==> ws[i].data != []
  {
    if ws != [] {
      NothingLostIff(ws[1..]);
      if ws[0].data == [] {
        assert |NonEmpty(ws)| < |ws|;
      } else {
        assert NonEmpty(ws)[1..] == NonEmpty(ws[1..]);
        assert (forall i :: 0 <= i < |ws| ==> ws[i].data != [])
          <==> (forall i :: 0 <= i < |ws[1..]| ==> ws[1..][i].data != []) by {
          assert forall i :: 0 < i < |ws| ==> ws[i] == ws[1..][i - 1];
        }
      }
    }
  }

  // ---------- whatever the stream is ----------

  /** The bytes of consecutive chunks. */
  function Joined(ps: seq<Placed>): seq<byte> { if ps == [] then [] else ps[0].chunk.data + Joined(ps[1..]) }

  function Got(p: Option<Pending>): seq<byte> { if p.Some? then p.value.got else [] }

  /** The chunks `ps` complete `w`, of which the pending bytes are there: all of them have
      its name and each starts where the bytes before it end, except that a weight that
      fits in a bucket is one chunk, whose offset does not matter. */
  ghost predicate Assembles(p: Option<Pending>, ps: seq<Placed>, w: Weight, B: nat) {
    && ps != [] && WeightOk(w) && w.data == Got(p) + Joined(ps)
    && (forall k :: 0 <= k < |ps| ==> ps[k].chunk.name == w.name)
    && (if |w.data| <= B then |ps| == 1
        else forall k :: 0 <= k < |ps| ==> ps[k].chunk.chunkOffset == |Got(p)| + |Joined(ps[..k])|)
    && (if p.Some? then p.value.name == w.name && p.value.shape == w.shape && p.value.itemsize == w.itemsize
        else ps[0].chunk.shape == w.shape && ps[0].chunk.itemsize == w.itemsize)
  }

  /** The stream falls into one run of chunks for every weight, in order; the first run only
      completes what is pending. */
  ghost predicate Runs(p: Option<Pending>, groups: seq<seq<Placed>>, out: seq<Weight>, B: nat) {
    && |groups| == |out| && (p.Some? ==> out != [])
    && forall i :: 0 <= i < |out| ==> Assembles(if i == 0 then p else None, groups[i], out[i], B)
  }

  /** Only a large weight is ever pending. */
  predicate PendingOk(p: Option<Pending>, B: nat) { p.Some? ==> B < Nbytes(p.value.shape, p.value.itemsize) }

  lemma AssembleOne(p: Option<Pending>, x: Placed, w: Weight, B: nat)
    requires WeightOk(w) && w.data == Got(p) + x.chunk.data && x.chunk.name == w.name
    requires |w.data| > B ==> x.chunk.chunkOffset == |Got(p)|
    requires if p.Some? then p.value.name == w.name && p.value.shape == w.shape && p.value.itemsize == w.itemsize
             else x.chunk.shape == w.shape && x.chunk.itemsize == w.itemsize
    ensures Assembles(p, [x], w, B)
  {
    assert Joined([x]) == x.chunk.data + Joined([]) && [x][..0] == [];
  }

  lemma AssembleMore(p: Option<Pending>, q: Pending, x: Placed, ps: seq<Placed>, w: Weight, B: nat)
    requires Assembles(Some(q), ps, w, B) && |w.data| > B && q.got == Got(p) + x.chunk.data
    requires x.chunk.name == w.name && x.chunk.chunkOffset == |Got(p)|
    requires if p.Some? then p.value == q.(got := p.value.got)
             else x.chunk.shape == q.shape && x.chunk.itemsize == q.itemsize
    ensures Assembles(p, [x] + ps, w, B)
  {
    var all := [x] + ps;
    assert all[1..] == ps;
    forall k | 0 <= k < |all| ensures all[k].chunk.chunkOffset == |Got(p)| + |Joined(all[..k])| {
      if k > 0 {
        assert all[..k][0] == x && all[..k][1..] == ps[..k - 1];
        assert ps[k - 1].chunk.chunkOffset == |q.got| + |Joined(ps[..k - 1])|;
      }
    }
    assert Got(p) + x.chunk.data + Joined(ps) == Got(p) + (x.chunk.data + Joined(ps));
  }

  /** Whatever stream of chunks the merge accepts, it never mixes weights: every weight it
      yields has exactly the bytes of its own run of chunks, all under its name and each
      where it belongs, and no chunk is left out. */
  lemma {:induction false} MergeNeverMixes(p: Option<Pending>, ps: seq<Placed>, B: nat, out: seq<Weight>)
    returns (groups: seq<seq<Placed>>)
    requires Merge(p, ps, B) == Ok((None, out)) && PendingOk(p, B)
    ensures Flatten(groups) == ps && Runs(p, groups, out, B)
    decreases |ps|
  {
    if ps == [] {
      groups := [];
    } else {
      var x, rest := ps[0], ps[1..];
      var (q, more) := MergeStep(p, x, B).value;
      var tail := Merge(q, rest, B).value.1;
      assert out == more + tail;
      StepPending(p, x, B);
      hide Merge, MergeStep, Runs;
      var later := MergeNeverMixes(q, rest, B, tail);
      assert [x] + rest == ps;
      if q.None? {
        ClosesRun(p, x, B, later, tail);
        groups := [[x]] + later;
        assert groups[1..] == later;
      } else {
        ExtendsRun(p, x, B, later, tail);
        groups := [[x] + later[0]] + later[1..];
        FirstRunLonger(x, later);
        assert [] + tail == tail;
      }
    }
  }

  lemma FirstRunLonger(x: Placed, later: seq<seq<Placed>>)
    requires later != []
    ensures Flatten([[x] + later[0]] + later[1..]) == [x] + Flatten(later)
  {
    var groups := [[x] + later[0]] + later[1..];
    assert groups[1..] == later[1..];
    assert [x] + later[0] + Flatten(later[1..]) == [x] + (later[0] + Flatten(later[1..]));
  }

  lemma StepPending(p: Option<Pending>, x: Placed, B: nat)
    requires MergeStep(p, x, B).Ok? && PendingOk(p, B)
    ensures PendingOk(MergeStep(p, x, B).value.0, B)
    ensures MergeStep(p, x, B).value.0.Some? ==> MergeStep(p, x, B).value.1 == []
  {
  }

  /** A step that yields a weight completes it. */
  lemma ClosingStep(p: Option<Pending>, x: Placed, B: nat) returns (w: Weight)
    requires MergeStep(p, x, B).Ok? && PendingOk(p, B) && MergeStep(p, x, B).value.0.None?
    ensures MergeStep(p, x, B).value.1 == [w] && Assembles(p, [x], w, B)
  {
    hide Numel;
    w := MergeStep(p, x, B).value.1[0];
    assert |w.data| == |Got(p)| + |x.chunk.data|;
    hide Assembles;
    AssembleOne(p, x, w, B);
  }

  lemma ClosesRun(p: Option<Pending>, x: Placed, B: nat, later: seq<seq<Placed>>, tail: seq<Weight>)
    requires MergeStep(p, x, B).Ok? && PendingOk(p, B)
    requires MergeStep(p, x, B).value.0.None? && Runs(None, later, tail, B)
    ensures Runs(p, [[x]] + later, MergeStep(p, x, B).value.1 + tail, B)
  {
    hide Assembles, MergeStep;
    var w := ClosingStep(p, x, B);
    var groups, out := [[x]] + later, [w] + tail;
    assert forall i :: 0 < i < |out| ==> out[i] == tail[i - 1] && groups[i] == later[i - 1];
  }

  lemma ExtendsRun(p: Option<Pending>, x: Placed, B: nat, later: seq<seq<Placed>>, tail: seq<Weight>)
    requires MergeStep(p, x, B).Ok? && PendingOk(p, B)
    requires MergeStep(p, x, B).value.0.Some? && Runs(MergeStep(p, x, B).value.0, later, tail, B)
    ensures later != [] && Runs(p, [[x] + later[0]] + later[1..], tail, B)
  {
    var q := MergeStep(p, x, B).value.0.value;
    assert q.got == Got(p) + x.chunk.data;
    assert Assembles(Some(q), later[0], tail[0], B) && |tail[0].data| > B;
    hide Assembles;
    AssembleMore(p, q, x, later[0], tail[0], B);
    assert forall i :: 0 < i < |tail| ==> ([[x] + later[0]] + later[1..])[i] == later[i];
  }

  lemma MergeUnfold(p: Option<Pending>, ps: seq<Placed>, B: nat, i: nat, out: seq<Weight>)
    requires i <= |ps|
    ensures i < |ps| ==>
      var step := MergeStep(p, ps[i], B);
      Prefixed(out, Merge(p, ps[i..], B)) ==
        if step.Ok? then Prefixed(out + step.value.1, Merge(step.value.0, ps[i + 1..], B)) else step
    ensures i == |ps| ==> Prefixed(out, Merge(p, ps[i..], B)) == Ok((p, out))
  {
    if i < |ps| {
      assert ps[i..][0] == ps[i] && ps[i..][1..] == ps[i + 1..];
      var step := MergeStep(p, ps[i], B);
      if step.Ok? {
        PrefixedTwice(out, step.value.1, Merge(step.value.0, ps[i + 1..], B));
      }
    } else {
      assert out + [] == out;
    }
  }

  /** What a caller sees of the merge loop. */
  function Yielded(r: MergeResult): Result<seq<Weight>> {
    match r
    case Ok((_, ws)) => Ok(ws)
    case AssertionError => AssertionError
    case RuntimeError => RuntimeError
  }

  /** The merge loop with its preallocated buffer, filled slice by slice. */
  method MergeWeightChunks(ps: seq<Placed>, B: nat) returns (r: Result<seq<Weight>>)
    requires forall i :: 0 <= i < |ps| ==> |ps[i].chunk.data| == ps[i].chunk.chunkSize
    ensures r == Yielded(Merge(None, ps, B))
  {
    var out: seq<Weight> := [];
    var mergeWeight: Option<Pending> := None;  // name and shape of the weight under way
    var mergeBuffer := new byte[0];
    var mergeOffset := 0;
    ghost var p: Option<Pending> := None;
    var i := 0;
    hide Merge, Prefixed, Numel, CanView;
    assert ps[0..] == ps;
    PrefixedTwice([], [], Merge(None, ps, B));
    while i < |ps|
      invariant 0 <= i <= |ps|
      invariant fresh(mergeBuffer)
      invariant mergeWeight.Some? <==> p.Some?
      invariant p.Some? ==>
        && mergeWeight.value == p.value.(got := [])
        && mergeBuffer.Length == Nbytes(p.value.shape, p.value.itemsize)
        && 0 <= mergeOffset <= mergeBuffer.Length
        && mergeBuffer[..mergeOffset] == p.value.got
      invariant Merge(None, ps, B) == Prefixed(out, Merge(p, ps[i..], B))
    {
      var c := ps[i].chunk;
      ghost var step, before := MergeStep(p, ps[i], B), out;
      MergeUnfold(p, ps, B, i, out);
      var nbytes := Nbytes(c.shape, c.itemsize);
      if nbytes <= B {
        if mergeWeight.Some? { return AssertionError; }
        if !CanView(c, ps[i].offset) || |c.data| != nbytes { return RuntimeError; }
        out := out + [Weight(c.name, c.shape, c.itemsize, c.data)];
      } else {
        if mergeWeight.None? {
          if c.chunkOffset != 0 { return AssertionError; }
          mergeWeight := Some(Pending(c.name, c.shape, c.itemsize, []));
          mergeBuffer := new byte[nbytes];
          mergeOffset := 0;
        }
        if c.name != mergeWeight.value.name { return AssertionError; }
        if mergeOffset != c.chunkOffset { return AssertionError; }
        if c.chunkOffset + c.chunkSize > mergeBuffer.Length { return RuntimeError; }
        ghost var got := mergeBuffer[..mergeOffset];
        WriteSlice(mergeBuffer, c.chunkOffset, c.data);
        mergeOffset := mergeOffset + c.chunkSize;
        assert mergeBuffer[..mergeOffset] == got + c.data;
        p := Some(mergeWeight.value.(got := got + c.data));
        if c.chunkOffset + c.chunkSize == nbytes {
          if nbytes != mergeBuffer.Length { return RuntimeError; }
          assert mergeBuffer[..] == mergeBuffer[..mergeOffset];
          var w := mergeWeight.value;
          out := out + [Weight(w.name, w.shape, w.itemsize, mergeBuffer[..])];
          mergeWeight, mergeOffset, p := None, 0, None;
        }
      }
      assert step.Ok? && step.value.0 == p && out == before + step.value.1;
      i := i + 1;
    }
    MergeUnfold(p, ps, B, i, out);
    r := Ok(out);
  }

  method WriteSlice(a: array<byte>, start: nat, data: seq<byte>)
    requires start + |data| <= a.Length
    modifies a
    ensures a[..] == old(a[..start]) + data + old(a[start + |data|..])
  {
    var k := 0;
    while k < |data|
      invariant 0 <= k <= |data|
      invariant forall i :: 0 <= i < a.Length ==> a[i] == if start <= i < start + k then data[i - start] else old(a[i])
    {
      a[start + k] := data[k];
      k := k + 1;
    }
  }
}
