/** Where chunks lie in their buckets, when the views of the merge loop succeed there, and a
    whole synchronisation (verl/checkpoint_engine/base.py, line 552;
    verl/checkpoint_engine/nccl_checkpoint_engine.py, lines 259-390). */
module WeightPlaces {
  import opened Basics
  import opened WeightChunks
  import opened WeightBuckets

  // ---------- where the chunks lie ----------

  /** Where a chunk lies when the bucket is filled up to `offset`. */
  function At(offset: nat, c: Chunk, B: nat): nat { if offset + |c.data| > B then 0 else offset }

  /** The chunks with their buffer offsets, by a running offset that starts over whenever
      the next chunk does not fit. */
  function PlaceFrom(offset: nat, chunks: seq<Chunk>, B: nat): (ps: seq<Placed>)
    ensures |ps| == |chunks|
    decreases |chunks|
  {
    if chunks == [] then []
    else
      var at := At(offset, chunks[0], B);
      [Placed(chunks[0], at)] + PlaceFrom(at + |chunks[0].data|, chunks[1..], B)
  }

  lemma {:induction false} PlacesChunks(offset: nat, chunks: seq<Chunk>, B: nat)
    ensures ChunksOf(PlaceFrom(offset, chunks, B)) == chunks
    decreases |chunks|
  {
    if chunks != [] {
      var next := At(offset, chunks[0], B) + |chunks[0].data|;
      PlacesChunks(next, chunks[1..], B);
      var rest := PlaceFrom(next, chunks[1..], B);
      assert forall i :: 0 <= i < |rest| ==> ChunksOf(rest)[i] == rest[i].chunk == chunks[i + 1];
    }
  }

  lemma PlaceStep(offset: nat, c: Chunk, rest: seq<Chunk>, B: nat)
    ensures PlaceFrom(offset, [c] + rest, B) ==
      [Placed(c, At(offset, c, B))] + PlaceFrom(At(offset, c, B) + |c.data|, rest, B)
  {
    assert ([c] + rest)[1..] == rest;
  }

  lemma PlaceGroupSnoc(group: seq<Chunk>, c: Chunk)
    ensures PlaceGroup(group + [c]) == PlaceGroup(group) + [Placed(c, Size(group))]
  {
    assert (group + [c])[..|group|] == group;
  }

  /** The running offset is the place in the next-fit group. */
  lemma {:induction false} NextFitPlaces(group: seq<Chunk>, chunks: seq<Chunk>, B: nat)
    ensures PlaceGroups(NextFit(group, chunks, B)) == PlaceGroup(group) + PlaceFrom(Size(group), chunks, B)
    decreases |chunks|, 1
  {
    if chunks == [] {
      assert PlaceGroups([group]) == PlaceGroup(group) + PlaceGroups([]);
    } else {
      var c, rest := chunks[0], chunks[1..];
      assert chunks == [c] + rest;
      PlaceStep(Size(group), c, rest, B);
      if Size(group) + |c.data| > B { ClosePlaces(group, c, rest, B); } else { StayPlaces(group, c, rest, B); }
      hide NextFit, PlaceGroup, PlaceGroups, PlaceFrom, Size;
    }
  }

  lemma ClosePlaces(group: seq<Chunk>, c: Chunk, rest: seq<Chunk>, B: nat)
    requires Size(group) + |c.data| > B
    ensures PlaceGroups(NextFit(group, [c] + rest, B)) ==
      PlaceGroup(group) + ([Placed(c, 0)] + PlaceFrom(|c.data|, rest, B))
    decreases |rest| + 1, 0
  {
    assert ([c] + rest)[1..] == rest;
    NextFitPlaces([c], rest, B);
    Snoc([], c);
    PlaceGroupSnoc([], c);
    assert [] + [c] == [c];
    assert PlaceGroup([c]) == [Placed(c, 0)] && Size([c]) == |c.data|;
    var groups := NextFit(group, [c] + rest, B);
    assert groups[0] == group && groups[1..] == NextFit([c], rest, B);
  }

  lemma StayPlaces(group: seq<Chunk>, c: Chunk, rest: seq<Chunk>, B: nat)
    requires Size(group) + |c.data| <= B
    ensures PlaceGroups(NextFit(group, [c] + rest, B)) ==
      PlaceGroup(group) + ([Placed(c, Size(group))] + PlaceFrom(Size(group) + |c.data|, rest, B))
    decreases |rest| + 1, 0
  {
    assert ([c] + rest)[1..] == rest;
    NextFitPlaces(group + [c], rest, B);
    Snoc(group, c);
    PlaceGroupSnoc(group, c);
    assert NextFit(group, [c] + rest, B) == NextFit(group + [c], rest, B);
    hide NextFit, PlaceGroup, PlaceGroups, PlaceFrom, Size;
  }

  /** A caller's condition for a whole synchronisation: every non-empty weight that fits in
      a bucket starts at a multiple of its item size. */
  ghost predicate WeightsAligned(ws: seq<Weight>, B: nat)
    requires 1 <= B
  {
    Aligned(PlaceFrom(0, Split(ws, B), B), B)
  }

  /** Two small weights of different types: the second cannot be viewed where it lies. */
  lemma MixedTypesMisalign(a: Weight, b: Weight)
    requires a.shape == b.shape == [1] && a.itemsize == 2 && b.itemsize == 4 && WeightOk(a) && WeightOk(b)
    ensures !WeightsAligned([a, b], 16)
  {
    var ws := [a, b];
    assert Numel([1]) == 1 * Numel([]);
    SplitSmall(a, 16);
    SplitSmall(b, 16);
    assert ws[1..] == [b] && Split([b], 16) == [ChunkAt(b, 16, 0)] + Split([], 16);
    assert Split(ws, 16) == [ChunkAt(a, 16, 0), ChunkAt(b, 16, 0)];
    var ps := PlaceFrom(0, Split(ws, 16), 16);
    PlaceStep(0, ChunkAt(a, 16, 0), [ChunkAt(b, 16, 0)], 16);
    PlaceStep(2, ChunkAt(b, 16, 0), [], 16);
    assert [ChunkAt(a, 16, 0)] + [ChunkAt(b, 16, 0)] == Split(ws, 16);
    assert [ChunkAt(b, 16, 0)] + [] == [ChunkAt(b, 16, 0)];
    assert ps[1] == Placed(ChunkAt(b, 16, 0), 2);
    assert !CanView(ps[1].chunk, ps[1].offset);
  }

  lemma SplitSmall(w: Weight, B: nat)
    requires 1 <= B && 0 < |w.data| <= B
    ensures SplitFrom(w, B, 0) == [ChunkAt(w, B, 0)]
  {
    assert SplitFrom(w, B, |w.data|) == [];
  }

  /** Even one type misaligns when its size does not divide the bucket size. */
  lemma OddBucketMisaligns(a: Weight, b: Weight)
    requires a.shape == [4] && b.shape == [1] && a.itemsize == b.itemsize == 2 && WeightOk(a) && WeightOk(b)
    ensures !WeightsAligned([a, b], 5)
  {
    var ws := [a, b];
    assert Numel([1]) == 1 * Numel([]) && Numel([4]) == 4 * Numel([]);
    SplitSmall(b, 5);
    assert SplitFrom(a, 5, 8) == [];
    assert SplitFrom(a, 5, 5) == [ChunkAt(a, 5, 5)];
    assert SplitFrom(a, 5, 0) == [ChunkAt(a, 5, 0), ChunkAt(a, 5, 5)];
    assert ws[1..] == [b] && Split([b], 5) == [ChunkAt(b, 5, 0)] + Split([], 5);
    var chunks := [ChunkAt(a, 5, 0), ChunkAt(a, 5, 5), ChunkAt(b, 5, 0)];
    assert Split(ws, 5) == chunks;
    var ps := PlaceFrom(0, chunks, 5);
    PlaceStep(0, ChunkAt(a, 5, 0), [ChunkAt(a, 5, 5), ChunkAt(b, 5, 0)], 5);
    PlaceStep(5, ChunkAt(a, 5, 5), [ChunkAt(b, 5, 0)], 5);
    PlaceStep(3, ChunkAt(b, 5, 0), [], 5);
    assert [ChunkAt(a, 5, 0)] + [ChunkAt(a, 5, 5), ChunkAt(b, 5, 0)] == chunks;
    assert [ChunkAt(a, 5, 5)] + [ChunkAt(b, 5, 0)] == [ChunkAt(a, 5, 5), ChunkAt(b, 5, 0)];
    assert [ChunkAt(b, 5, 0)] + [] == [ChunkAt(b, 5, 0)];
    assert ps[2] == Placed(ChunkAt(b, 5, 0), 3);
    assert !CanView(ps[2].chunk, ps[2].offset);
  }

  /** All item sizes are `k` and all chunk sizes are multiples of it. */
  ghost predicate InUnits(chunks: seq<Chunk>, k: nat) {
    k > 0 && forall i :: 0 <= i < |chunks| ==> chunks[i].itemsize == k && MultipleOf(|chunks[i].data|, k)
  }

  lemma AlignedOne(c: Chunk, at: nat, B: nat)
    requires CanView(c, at)
    ensures Aligned([Placed(c, at)], B)
  {
  }

  lemma {:induction false} PlacesInUnits(offset: nat, chunks: seq<Chunk>, B: nat, k: nat)
    requires InUnits(chunks, k) && MultipleOf(offset, k)
    ensures Aligned(PlaceFrom(offset, chunks, B), B)
    decreases |chunks|
  {
    if chunks != [] {
      var c, rest := chunks[0], chunks[1..];
      var at := At(offset, c, B);
      hide InUnits, MultipleOf, PlaceFrom, CanView, Aligned, At;
      assert chunks == [c] + rest;
      PlaceStep(offset, c, rest, B);
      UnitStep(offset, c, rest, B, k);
      PlacesInUnits(at + |c.data|, rest, B, k);
      AlignedOne(c, at, B);
      AlignedConcat([Placed(c, at)], PlaceFrom(at + |c.data|, rest, B), B);
    }
  }

  lemma UnitStep(offset: nat, c: Chunk, rest: seq<Chunk>, B: nat, k: nat)
    requires InUnits([c] + rest, k) && MultipleOf(offset, k)
    ensures InUnits(rest, k) && CanView(c, At(offset, c, B)) && MultipleOf(At(offset, c, B) + |c.data|, k)
  {
    var chunks := [c] + rest;
    assert chunks[0] == c && forall i :: 0 <= i < |rest| ==> rest[i] == chunks[i + 1];
    MultiplesAdd(At(offset, c, B), |c.data|, k);
  }

  lemma {:induction false} SplitInUnits(w: Weight, B: nat, k: nat, start: nat)
    requires 1 <= B && MultipleOf(B, k) && MultipleOf(|w.data|, k) && w.itemsize == k && MultipleOf(start, k)
    ensures InUnits(SplitFrom(w, B, start), k)
    decreases if start < |w.data| then |w.data| - start else 0
  {
    if start < |w.data| {
      var c := ChunkAt(w, B, start);
      MultiplesAdd(|w.data|, start, k);
      MultiplesAdd(start, |c.data|, k);
      SplitInUnits(w, B, k, start + c.chunkSize);
      var rest := SplitFrom(w, B, start + c.chunkSize);
      assert SplitFrom(w, B, start) == [c] + rest;
    }
  }

  lemma {:induction false} AllInUnits(ws: seq<Weight>, B: nat, k: nat)
    requires 1 <= B && MultipleOf(B, k)
    requires forall i :: 0 <= i < |ws| ==> WeightOk(ws[i]) && ws[i].itemsize == k
    ensures InUnits(Split(ws, B), k)
  {
    if ws != [] {
      AllInUnits(ws[1..], B, k);
      Multiple(Numel(ws[0].shape), k);
      SplitInUnits(ws[0], B, k, 0);
    }
  }

  /** One item size that divides the bucket size is enough. */
  lemma OneTypeAligns(ws: seq<Weight>, B: nat, k: nat)
    requires 1 <= B && MultipleOf(B, k)
    requires forall i :: 0 <= i < |ws| ==> WeightOk(ws[i]) && ws[i].itemsize == k
    ensures WeightsAligned(ws, B)
  {
    AllInUnits(ws, B, k);
    PlacesInUnits(0, Split(ws, B), B, k);
  }

  // ---------- end to end ----------

  /** What a synchronisation is for, and when it fails. */
  ghost function Delivered(ws: seq<Weight>, B: nat): Result<seq<Weight>>
    requires 1 <= B
  {
    if WeightsAligned(ws, B) then Ok(NonEmpty(ws)) else RuntimeError
  }

  /** A whole synchronisation as one receiver sees it, given that the transport delivers
      the sent buckets in order: if the weights are aligned, the receiver gets exactly
      those with at least one byte; if not, a view fails. No assertion fails in any case. */
  method SynchronizeWeights(ws: seq<Weight>, B: nat) returns (r: Result<seq<Weight>>)
    requires 1 <= B && DistinctNames(ws)
    requires forall i :: 0 <= i < |ws| ==> WeightOk(ws[i])
    ensures r == Delivered(ws, B)
  {
    var chunks := SplitWeightChunks(ws, B);
    SplitPackable(ws, B);
    var sendBuf, recvBuf := new byte[B], new byte[B];
    var sent := SendBuckets(chunks, B, sendBuf, recvBuf);
    var received := ReceiveChunks(sent, NextFit([], chunks, B), B);
    SentPlaces(chunks, B);
    PlacesChunks(0, chunks, B);
    PackableSizes(chunks, B);
    SplitThenMerge(ws, B, received);
    r := MergeWeightChunks(received, B);
  }

  lemma SentPlaces(chunks: seq<Chunk>, B: nat)
    ensures PlaceGroups(NextFit([], chunks, B)) == PlaceFrom(0, chunks, B)
  {
    NextFitPlaces([], chunks, B);
    assert [] + PlaceFrom(0, chunks, B) == PlaceFrom(0, chunks, B);
  }

  lemma PackableSizes(chunks: seq<Chunk>, B: nat)
    requires Packable(chunks, B)
    ensures forall i :: 0 <= i < |chunks| ==>
      |PlaceFrom(0, chunks, B)[i].chunk.data| == PlaceFrom(0, chunks, B)[i].chunk.chunkSize
  {
    PlacesChunks(0, chunks, B);
    assert forall i :: 0 <= i < |chunks| ==> PlaceFrom(0, chunks, B)[i].chunk == ChunksOf(PlaceFrom(0, chunks, B))[i];
  }
}
