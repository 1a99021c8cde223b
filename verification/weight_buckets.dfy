/** Packing chunks into fixed-size buckets and reading them back
    (verl/checkpoint_engine/nccl_checkpoint_engine.py, lines 271-323 and 373-390; the
    NIXL engine packs and reads with the same code, lines 386-432 and 485-515). */
module WeightBuckets {
  import opened Basics
  import opened WeightChunks

  /** A chunk's header and its place in the bucket. */
  datatype TensorMeta =
    TensorMeta(name: string, shape: seq<nat>, itemsize: nat, chunkOffset: nat, chunkSize: nat, offset: nat)

  /** What is sent for one bucket: the ordered metadata and the buffer's bytes. */
  datatype Bucket = Bucket(metas: seq<TensorMeta>, bytes: seq<byte>)

  function Size(group: seq<Chunk>): nat {
    if group == [] then 0 else Size(group[..|group| - 1]) + |group[|group| - 1].data|
  }

  function Bytes(group: seq<Chunk>): (b: seq<byte>)
    ensures |b| == Size(group)
  {
    if group == [] then [] else Bytes(group[..|group| - 1]) + group[|group| - 1].data
  }

  function MetaOf(c: Chunk, offset: nat): TensorMeta {
    TensorMeta(c.name, c.shape, c.itemsize, c.chunkOffset, c.chunkSize, offset)
  }

  function Metas(group: seq<Chunk>): seq<TensorMeta> {
    if group == [] then []
    else Metas(group[..|group| - 1]) + [MetaOf(group[|group| - 1], Size(group[..|group| - 1]))]
  }

  lemma Snoc(group: seq<Chunk>, c: Chunk)
    ensures Size(group + [c]) == Size(group) + |c.data|
    ensures Bytes(group + [c]) == Bytes(group) + c.data
    ensures Metas(group + [c]) == Metas(group) + [MetaOf(c, Size(group))]
  {
    assert (group + [c])[..|group|] == group;
  }

  lemma {:induction false} MetasNames(group: seq<Chunk>)
    ensures |Metas(group)| == |group|
    ensures forall i :: 0 <= i < |group| ==> Metas(group)[i].name == group[i].name
  {
    if group != [] { MetasNames(group[..|group| - 1]); }
  }

  /** The bucket carries the group: its metadata in order, its bytes from the start of the
      buffer. The rest of the buffer is whatever an earlier bucket left there. */
  ghost predicate Carries(b: Bucket, group: seq<Chunk>, B: nat) {
    && b.metas == Metas(group)
    && |b.bytes| == B
    && Size(group) <= B
    && b.bytes[..Size(group)] == Bytes(group)
    && (forall i :: 0 <= i < |group| ==> group[i].chunkSize == |group[i].data|)
    && (forall i, j :: 0 <= i < j < |group| ==> group[i].name != group[j].name)
  }

  // ---------- next-fit grouping ----------

  /** The chunk groups the send loop forms, given the group under way. */
  function NextFit(group: seq<Chunk>, chunks: seq<Chunk>, B: nat): (groups: seq<seq<Chunk>>)
    ensures groups != []
    decreases |chunks|
  {
    if chunks == [] then [group]
    else if Size(group) + |chunks[0].data| > B then [group] + NextFit([chunks[0]], chunks[1..], B)
    else NextFit(group + [chunks[0]], chunks[1..], B)
  }

  /** Grouping loses, repeats and reorders nothing. */
  lemma {:induction false} NextFitFlatten(group: seq<Chunk>, chunks: seq<Chunk>, B: nat)
    ensures Flatten(NextFit(group, chunks, B)) == group + chunks
    decreases |chunks|
  {
    if chunks == [] {
    } else if Size(group) + |chunks[0].data| > B {
      NextFitFlatten([chunks[0]], chunks[1..], B);
      assert NextFit(group, chunks, B)[1..] == NextFit([chunks[0]], chunks[1..], B);
      assert [chunks[0]] + chunks[1..] == chunks;
    } else {
      NextFitFlatten(group + [chunks[0]], chunks[1..], B);
      assert group + [chunks[0]] + chunks[1..] == group + chunks;
    }
  }

  /** What the send loop relies on: no chunk is empty or larger than a bucket, and of two
      chunks of one weight the earlier one fills a bucket. */
  ghost predicate Packable(chunks: seq<Chunk>, B: nat) {
    && (forall i :: 0 <= i < |chunks| ==> 1 <= |chunks[i].data| == chunks[i].chunkSize <= B)
    && (forall i, j :: 0 <= i < j < |chunks| && chunks[i].name == chunks[j].name ==> |chunks[i].data| == B)
  }

  ghost predicate DistinctNames(ws: seq<Weight>) {
    forall i, j :: 0 <= i < j < |ws| ==> ws[i].name != ws[j].name
  }

  lemma {:induction false} SplitFromShape(w: Weight, B: nat, start: nat)
    requires 1 <= B
    ensures Packable(SplitFrom(w, B, start), B)
    ensures forall i :: 0 <= i < |SplitFrom(w, B, start)| ==> SplitFrom(w, B, start)[i].name == w.name
    decreases if start < |w.data| then |w.data| - start else 0
  {
    if start < |w.data| {
      var c := ChunkAt(w, B, start);
      var rest := SplitFrom(w, B, start + c.chunkSize);
      SplitFromShape(w, B, start + c.chunkSize);
      assert SplitFrom(w, B, start) == [c] + rest;
      assert |c.data| < B ==> rest == [];
      hide SplitFrom;
      PackableCons(c, rest, B);
    }
  }

  lemma PackableCons(c: Chunk, rest: seq<Chunk>, B: nat)
    requires Packable(rest, B) && 1 <= |c.data| == c.chunkSize <= B && (|c.data| == B || rest == [])
    ensures Packable([c] + rest, B)
  {
    var chunks := [c] + rest;
    assert forall i :: 0 < i < |chunks| ==> chunks[i] == rest[i - 1];
  }

  /** Splitting distinctly named weights always gives a packable chunk stream. */
  lemma {:induction false} SplitPackable(ws: seq<Weight>, B: nat)
    requires 1 <= B
    requires DistinctNames(ws)
    ensures Packable(Split(ws, B), B)
    ensures forall i :: 0 <= i < |Split(ws, B)| ==> exists k :: 0 <= k < |ws| && ws[k].name == Split(ws, B)[i].name
  {
    if ws != [] {
      var a, b := SplitFrom(ws[0], B, 0), Split(ws[1..], B);
      SplitFromShape(ws[0], B, 0);
      SplitPackable(ws[1..], B);
      forall i | 0 <= i < |b| ensures exists k :: 1 <= k < |ws| && ws[k].name == b[i].name {
        var k :| 0 <= k < |ws[1..]| && ws[1..][k].name == b[i].name;
        assert ws[k + 1].name == b[i].name;
      }
      forall i | 0 <= i < |a + b| ensures exists k :: 0 <= k < |ws| && ws[k].name == (a + b)[i].name {
        if i < |a| { assert ws[0].name == (a + b)[i].name; }
      }
      forall i, j | 0 <= i < |a| && 0 <= j < |b| ensures a[i].name != b[j].name {
        var k :| 1 <= k < |ws| && ws[k].name == b[j].name;
      }
    }
  }

  // ---------- the send loop ----------

  lemma NextFitUnfold(group: seq<Chunk>, chunks: seq<Chunk>, B: nat, i: nat, done: seq<seq<Chunk>>)
    requires i <= |chunks|
    ensures i == |chunks| ==> done + NextFit(group, chunks[i..], B) == done + [group]
    ensures i < |chunks| ==>
      done + NextFit(group, chunks[i..], B) ==
        if Size(group) + |chunks[i].data| > B then done + [group] + NextFit([chunks[i]], chunks[i + 1..], B)
        else done + NextFit(group + [chunks[i]], chunks[i + 1..], B)
  {
    if i < |chunks| {
      assert chunks[i..][0] == chunks[i] && chunks[i..][1..] == chunks[i + 1..];
      var rest := NextFit([chunks[i]], chunks[i + 1..], B);
      assert done + ([group] + rest) == done + [group] + rest;
    }
  }

  lemma SnapshotCarries(bytes: seq<byte>, chunks: seq<Chunk>, B: nat, first: nat, i: nat)
    requires Packable(chunks, B)
    requires first <= i <= |chunks| && Size(chunks[first..i]) <= B == |bytes|
    requires bytes[..Size(chunks[first..i])] == Bytes(chunks[first..i])
    ensures Carries(Bucket(Metas(chunks[first..i]), bytes), chunks[first..i], B)
  {
    GroupDistinct(chunks, B, first, i);
  }

  /** Fills the two buffers alternately and sends a snapshot of the full one whenever the
      next chunk does not fit. Both assertions of the loop hold. */
  method SendBuckets(chunks: seq<Chunk>, B: nat, sendBuf: array<byte>, recvBuf: array<byte>) returns (sent: seq<Bucket>)
    requires 1 <= B == sendBuf.Length == recvBuf.Length && sendBuf != recvBuf
    requires Packable(chunks, B)
    modifies sendBuf, recvBuf
    ensures |sent| == |NextFit([], chunks, B)|
    ensures forall k :: 0 <= k < |sent| ==> Carries(sent[k], NextFit([], chunks, B)[k], B)
  {
    hide NextFit, Carries, Size, Bytes, Metas, Packable;
    var send, recv := sendBuf, recvBuf;
    var bucketMeta: seq<TensorMeta> := [];
    var offset := 0;
    sent := [];
    ghost var done: seq<seq<Chunk>> := [];
    ghost var first := 0;  // chunks[first..i] is the group under way
    var i := 0;
    EmptyGroup();
    assert chunks[0..] == chunks && chunks[0..0] == [] && [] + NextFit([], chunks, B) == NextFit([], chunks, B);
    while i < |chunks|
      invariant 0 <= first <= i <= |chunks|
      invariant {send, recv} == {sendBuf, recvBuf}
      invariant offset == Size(chunks[first..i]) <= B && bucketMeta == Metas(chunks[first..i])
      invariant send[..offset] == Bytes(chunks[first..i])
      invariant done + NextFit(chunks[first..i], chunks[i..], B) == NextFit([], chunks, B)
      invariant |sent| == |done| && forall k :: 0 <= k < |sent| ==> Carries(sent[k], done[k], B)
    {
      var c := chunks[i];
      PackableAt(chunks, B, i);
      NextFitUnfold(chunks[first..i], chunks, B, i, done);
      if offset + c.chunkSize > B {
        SnapshotCarries(send[..], chunks, B, first, i);
        sent := sent + [Bucket(bucketMeta, send[..])];
        done := done + [chunks[first..i]];
        send, recv := recv, send;
        bucketMeta, offset := [], 0;
        first := i;
        assert chunks[i..i] == [] && chunks[i..i + 1] == [c];
      }
      assert offset + c.chunkSize <= B;
      GroupFresh(chunks, B, first, i);
      assert forall k :: 0 <= k < |bucketMeta| ==> bucketMeta[k].name != c.name;
      bucketMeta := bucketMeta + [MetaOf(c, offset)];
      WriteSlice(send, offset, c.data);
      Snoc(chunks[first..i], c);
      assert chunks[first..i] + [c] == chunks[first..i + 1];
      offset := offset + c.chunkSize;
      i := i + 1;
    }
    SnapshotCarries(send[..], chunks, B, first, i);
    NextFitUnfold(chunks[first..i], chunks, B, i, done);
    sent := sent + [Bucket(bucketMeta, send[..])];
  }

  lemma EmptyGroup()
    ensures Size([]) == 0 && Bytes([]) == [] && Metas([]) == []
  {
  }

  lemma PackableAt(chunks: seq<Chunk>, B: nat, i: nat)
    requires Packable(chunks, B) && i < |chunks|
    ensures 1 <= |chunks[i].data| == chunks[i].chunkSize <= B
  {
  }

  lemma {:induction false} SizeParts(group: seq<Chunk>, i: nat, j: nat)
    requires i < j < |group|
    ensures |group[i].data| + |group[j].data| <= Size(group)
    ensures |group[i].data| <= Size(group[..j])
  {
    var front := group[..|group| - 1];
    if j == |front| {
      SizePart(front, i);
      assert group[..j] == front;
    } else {
      SizeParts(front, i, j);
      assert front[..j] == group[..j];
    }
  }

  lemma {:induction false} SizePart(group: seq<Chunk>, i: nat)
    requires i < |group|
    ensures |group[i].data| <= Size(group)
  {
    if i < |group| - 1 { SizePart(group[..|group| - 1], i); }
  }

  /** A group that fits in a bucket has no two chunks of one weight. */
  lemma GroupDistinct(chunks: seq<Chunk>, B: nat, first: nat, i: nat)
    requires Packable(chunks, B)
    requires first <= i <= |chunks| && Size(chunks[first..i]) <= B
    ensures forall j, k :: 0 <= j < k < i - first ==> chunks[first..i][j].name != chunks[first..i][k].name
    ensures forall j :: 0 <= j < i - first ==> chunks[first..i][j].chunkSize == |chunks[first..i][j].data|
  {
    var group := chunks[first..i];
    forall j, k | 0 <= j < k < |group| ensures group[j].name != group[k].name {
      SizeParts(group, j, k);
      assert group[j] == chunks[first + j] && group[k] == chunks[first + k];
    }
  }

  /** Nor does it hold a chunk of the weight that comes next, if that fits too. */
  lemma GroupFresh(chunks: seq<Chunk>, B: nat, first: nat, i: nat)
    requires Packable(chunks, B)
    requires first <= i < |chunks| && Size(chunks[first..i]) + |chunks[i].data| <= B
    ensures |Metas(chunks[first..i])| == i - first
    ensures forall k :: 0 <= k < i - first ==> Metas(chunks[first..i])[k].name != chunks[i].name
  {
    var group := chunks[first..i];
    MetasNames(group);
    forall k | 0 <= k < |group| ensures Metas(group)[k].name != chunks[i].name {
      SizePart(group, k);
      assert group[k] == chunks[first + k];
    }
  }

  // ---------- the receive loop ----------

  /** The group's chunks with the offsets at which they were packed. */
  function PlaceGroup(group: seq<Chunk>): (ps: seq<Placed>)
    ensures |ps| == |group|
  {
    if group == [] then []
    else PlaceGroup(group[..|group| - 1]) + [Placed(group[|group| - 1], Size(group[..|group| - 1]))]
  }

  function PlaceGroups(groups: seq<seq<Chunk>>): seq<Placed> {
    if groups == [] then [] else PlaceGroup(groups[0]) + PlaceGroups(groups[1..])
  }

  /** What a metadata entry makes of a buffer: line 388 of the NCCL engine. */
  function ReadSlice(m: TensorMeta, bytes: seq<byte>): Placed
    requires m.offset + m.chunkSize <= |bytes|
  {
    Placed(Chunk(m.name, m.shape, m.itemsize, m.chunkOffset, m.chunkSize, bytes[m.offset..m.offset + m.chunkSize]),
           m.offset)
  }

  /** Reads one bucket's chunks out of its buffer, in metadata order. */
  function Unpack(metas: seq<TensorMeta>, bytes: seq<byte>): Option<seq<Placed>> {
    if metas == [] then Some([])
    else
      var m := metas[|metas| - 1];
      var front := Unpack(metas[..|metas| - 1], bytes);
      if front.None? || m.offset + m.chunkSize > |bytes| then None
      else Some(front.value + [ReadSlice(m, bytes)])
  }

  lemma SliceOfPrefix(bytes: seq<byte>, a: seq<byte>, b: seq<byte>)
    requires |a| + |b| <= |bytes| && bytes[..|a| + |b|] == a + b
    ensures bytes[..|a|] == a && bytes[|a|..|a| + |b|] == b
  {
    assert bytes[..|a|] == (a + b)[..|a|];
    assert bytes[|a|..|a| + |b|] == (a + b)[|a|..];
  }

  /** A bucket reads back as the group it carries, whatever lies behind it in the buffer. */
  lemma {:induction false} UnpackCarried(group: seq<Chunk>, bytes: seq<byte>)
    requires Size(group) <= |bytes| && bytes[..Size(group)] == Bytes(group)
    requires forall i :: 0 <= i < |group| ==> group[i].chunkSize == |group[i].data|
    ensures Unpack(Metas(group), bytes) == Some(PlaceGroup(group))
  {
    if group != [] {
      var front, c := group[..|group| - 1], group[|group| - 1];
      assert front + [c] == group;
      SliceOfPrefix(bytes, Bytes(front), c.data);
      UnpackCarried(front, bytes);
      UnpackSnoc(Metas(front), bytes, MetaOf(c, Size(front)));
    }
  }

  lemma UnpackSnoc(metas: seq<TensorMeta>, bytes: seq<byte>, m: TensorMeta)
    requires Unpack(metas, bytes).Some? && m.offset + m.chunkSize <= |bytes|
    ensures Unpack(metas + [m], bytes) == Some(Unpack(metas, bytes).value + [ReadSlice(m, bytes)])
  {
    assert (metas + [m])[..|metas|] == metas;
  }

  /** What a rank yields for the buckets it received, one slice at a time. */
  method ReceiveChunks(received: seq<Bucket>, ghost groups: seq<seq<Chunk>>, B: nat) returns (ps: seq<Placed>)
    requires |received| == |groups|
    requires forall k :: 0 <= k < |groups| ==> Carries(received[k], groups[k], B)
    ensures ps == PlaceGroups(groups)
  {
    hide Carries, Metas, Bytes, Size, PlaceGroup;
    ps := [];
    var k := 0;
    assert groups[0..] == groups;
    while k < |received|
      invariant 0 <= k <= |received|
      invariant ps + PlaceGroups(groups[k..]) == PlaceGroups(groups)
    {
      assert groups[k..][0] == groups[k] && groups[k..][1..] == groups[k + 1..];
      CarriesReads(received[k], groups[k], B);
      var metas, bytes := received[k].metas, received[k].bytes;
      ghost var before, placed := ps, PlaceGroup(groups[k]);
      var j := 0;
      assert placed[..0] == [];
      while j < |metas|
        invariant 0 <= j <= |metas| == |placed|
        invariant ps == before + placed[..j]
      {
        assert metas[j].offset + metas[j].chunkSize <= |bytes|;
        ps := ps + [ReadSlice(metas[j], bytes)];
        assert placed[..j] + [placed[j]] == placed[..j + 1];
        j := j + 1;
      }
      assert placed[..j] == placed;
      k := k + 1;
    }
  }

  /** Every entry reads as the chunk at its place. */
  ghost predicate ReadsAs(metas: seq<TensorMeta>, bytes: seq<byte>, ps: seq<Placed>) {
    |ps| == |metas| && forall j :: 0 <= j < |metas| ==>
      metas[j].offset + metas[j].chunkSize <= |bytes| && ps[j] == ReadSlice(metas[j], bytes)
  }

  lemma CarriesReads(b: Bucket, group: seq<Chunk>, B: nat)
    requires Carries(b, group, B)
    ensures ReadsAs(b.metas, b.bytes, PlaceGroup(group))
  {
    UnpackCarried(group, b.bytes);
    hide Metas, Unpack, Bytes, Size, PlaceGroup, ReadsAs;
    UnpackAt(b.metas, b.bytes);
  }

  lemma {:induction false} UnpackAt(metas: seq<TensorMeta>, bytes: seq<byte>)
    requires Unpack(metas, bytes).Some?
    ensures ReadsAs(metas, bytes, Unpack(metas, bytes).value)
  {
    if metas != [] {
      UnpackAt(metas[..|metas| - 1], bytes);
    }
  }

  // ---------- the next-fit bound ----------

  lemma NextFitStep(group: seq<Chunk>, c: Chunk, rest: seq<Chunk>, B: nat)
    ensures NextFit(group, [c] + rest, B) ==
      if Size(group) + |c.data| > B then [group] + NextFit([c], rest, B) else NextFit(group + [c], rest, B)
    ensures Size([c]) == |c.data| && Size(group + [c]) == Size(group) + |c.data|
  {
    assert ([c] + rest)[1..] == rest;
    Snoc([], c);
    Snoc(group, c);
    assert [] + [c] == [c];
  }

  /** The group under way is the start of the first group. */
  lemma {:induction false} NextFitFirst(group: seq<Chunk>, chunks: seq<Chunk>, B: nat)
    requires Size(group) <= B
    requires forall i :: 0 <= i < |chunks| ==> 1 <= |chunks[i].data| <= B
    ensures group <= NextFit(group, chunks, B)[0]
    ensures chunks != [] ==> NextFit(group, chunks, B)[0] != []
    decreases |chunks|
  {
    if chunks != [] {
      var c, rest := chunks[0], chunks[1..];
      assert chunks == [c] + rest;
      NextFitStep(group, c, rest, B);
      if Size(group) + |c.data| <= B {
        NextFitFirst(group + [c], rest, B);
        assert group <= group + [c];
      } else {
        assert group != [];
      }
      hide NextFit;
    }
  }

  ghost predicate FullBuckets(groups: seq<seq<Chunk>>, B: nat) {
    && (forall k :: 0 < k < |groups| ==> groups[k] != [])
    && (forall k :: 0 <= k < |groups| ==> Size(groups[k]) <= B)
    && (forall k :: 0 <= k < |groups| - 1 ==> Size(groups[k]) + Size(groups[k + 1]) > B)
  }

  lemma FullBucketsCons(group: seq<Chunk>, rest: seq<seq<Chunk>>, B: nat)
    requires rest != [] && FullBuckets(rest, B) && rest[0] != []
    requires Size(group) <= B && Size(group) + Size(rest[0]) > B
    ensures FullBuckets([group] + rest, B)
  {
    hide Size;
    var groups := [group] + rest;
    assert forall k :: 0 < k < |groups| ==> groups[k] == rest[k - 1];
  }

  /** Two neighbouring groups never fit in one bucket, every group fits in one, and no group
      but the first of an otherwise empty stream is empty. */
  lemma {:induction false} NextFitGroups(group: seq<Chunk>, chunks: seq<Chunk>, B: nat)
    requires forall i :: 0 <= i < |chunks| ==> 1 <= |chunks[i].data| <= B
    requires Size(group) <= B
    ensures FullBuckets(NextFit(group, chunks, B), B)
    ensures chunks != [] ==> NextFit(group, chunks, B)[0] != []
    decreases |chunks|
  {
    NextFitFirst(group, chunks, B);
    if chunks != [] {
      var c, rest := chunks[0], chunks[1..];
      assert chunks == [c] + rest;
      NextFitStep(group, c, rest, B);
      hide NextFit, FullBuckets, Size;
      if Size(group) + |c.data| > B {
        NextFitGroups([c], rest, B);
        NextFitFirst([c], rest, B);
        SizePrefix([c], NextFit([c], rest, B)[0]);
        FullBucketsCons(group, NextFit([c], rest, B), B);
      } else {
        NextFitGroups(group + [c], rest, B);
      }
    }
  }

  lemma {:induction false} SizePrefix(a: seq<Chunk>, b: seq<Chunk>)
    requires a <= b
    ensures Size(a) <= Size(b)
  {
    if a != b {
      SizePrefix(a, b[..|b| - 1]);
    } else {
      assert a == b;
    }
  }

  function TotalSize(groups: seq<seq<Chunk>>): nat {
    if groups == [] then 0 else Size(groups[0]) + TotalSize(groups[1..])
  }

  /** If neighbours never fit together, half the buckets carry more than a bucket each. */
  lemma {:induction false} PairsBound(groups: seq<seq<Chunk>>, B: nat)
    requires forall k :: 0 <= k < |groups| - 1 ==> Size(groups[k]) + Size(groups[k + 1]) > B
    ensures (|groups| / 2) * (B + 1) <= TotalSize(groups)
    decreases |groups|
  {
    if |groups| >= 2 {
      var rest := groups[2..];
      assert groups[1..][1..] == rest;
      assert forall k :: 0 <= k < |rest| ==> rest[k] == groups[k + 2];
      PairsBound(rest, B);
      assert TotalSize(groups) == Size(groups[0]) + Size(groups[1]) + TotalSize(rest);
      assert |groups| / 2 == |rest| / 2 + 1;
      assert (|rest| / 2 + 1) * (B + 1) == (|rest| / 2) * (B + 1) + (B + 1);
    }
  }

  /** The number of buckets sent for a weight list is at most about twice the optimum. */
  lemma BucketCount(ws: seq<Weight>, B: nat)
    requires 1 <= B && DistinctNames(ws)
    ensures var groups := NextFit([], Split(ws, B), B);
      && (|groups| / 2) * (B + 1) <= TotalSize(groups)
      && (forall k :: 0 <= k < |groups| - 1 ==> groups[k] != [] && Size(groups[k]) + Size(groups[k + 1]) > B)
  {
    SplitPackable(ws, B);
    NextFitGroups([], Split(ws, B), B);
    PairsBound(NextFit([], Split(ws, B), B), B);
  }
}
