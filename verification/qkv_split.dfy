/** Unpacking a fused query-key-value weight into q, k and v rows
    (verl/model_merger/megatron_model_merger.py, lines 330-354). */
module QkvSplit {
  import opened Basics
  import opened Blocks

  /** The ways lines 334, 335, 336 and 350 can fail, or the three parts. */
  datatype Outcome<T> =
    | Parts(q: seq<T>, k: seq<T>, v: seq<T>) | DivisionByZero | HeadsUneven | RowsUneven | SizesMismatch

  /** `part` holds rows `lo` up to `lo + n` of every group of `w` rows, group by group. */
  ghost predicate IsPart<T>(t: seq<T>, part: seq<T>, groups: nat, w: nat, lo: nat, n: nat) {
    && |t| == Start(groups, w) && lo + n <= w && |part| == Start(groups, n)
    && forall g: nat :: g < groups ==>
         && Start(g, w) + w <= |t| && Start(g, n) + n <= |part|
         && Block(part, g, n) == Block(t, g, w)[lo..lo + n]
  }

  /** q, k and v hold `a`, `d` and `d` rows of every group. */
  ghost predicate Unpacks<T>(t: seq<T>, q: seq<T>, k: seq<T>, v: seq<T>, groups: nat, a: nat, d: nat) {
    IsPart(t, q, groups, a + d + d, 0, a) && IsPart(t, k, groups, a + d + d, a, d)
    && IsPart(t, v, groups, a + d + d, a + d, d)
  }

  // ---------- the sizes of lines 336-349 ----------

  /** With a whole number `d` of rows a head, no division loses anything. */
  lemma WholeHeads(groups: nat, perKv: nat, d: nat)
    requires groups > 0
    ensures (groups * (perKv + 2)) * d == groups * (perKv * d + d + d)
    ensures ((groups * (perKv + 2)) * d) / (perKv + 2) == groups * d
    ensures (groups * d) / groups == d && (groups * d * perKv) / groups == perKv * d
  {
    Multiple(groups * d, perKv + 2);
    assert (groups * (perKv + 2)) * d == (groups * d) * (perKv + 2);
    Multiple(d, groups);
    Multiple(perKv * d, groups);
    assert groups * d * perKv == (perKv * d) * groups;
  }

  /** If the sizes add up to a chunk, the divisions lost nothing. */
  lemma NothingLost(kvSize: nat, groups: nat, perKv: nat, a: nat, d: nat, chunk: nat)
    requires groups > 0 && groups * a <= kvSize * perKv && groups * d <= kvSize
    requires kvSize * (perKv + 2) <= chunk * groups && chunk == a + d + d
    ensures groups * d == kvSize
  {
    assert chunk * groups == groups * a + groups * d + groups * d;
    assert kvSize * (perKv + 2) == kvSize * perKv + kvSize + kvSize;
  }

  lemma UnitPositive(groups: nat, perKv: nat)
    requires groups > 0
    ensures groups * (perKv + 2) > 0
  {
    Scale(1, groups, perKv + 2);
  }

  /** The sizes of lines 346-348. */
  function QueryRows(rows: nat, groups: nat, perKv: nat): nat
    requires groups > 0
  {
    rows / (perKv + 2) * perKv / groups
  }

  function HeadRows(rows: nat, groups: nat, perKv: nat): nat
    requires groups > 0
  {
    rows / (perKv + 2) / groups
  }

  function Unit(groups: nat, perKv: nat): (n: nat)
    ensures groups > 0 ==> n > 0
  {
    if groups > 0 then UnitPositive(groups, perKv); groups * (perKv + 2) else 0
  }

  lemma EvenSizes(rows: nat, groups: nat, perKv: nat)
    requires groups > 0 && rows % Unit(groups, perKv) == 0
    ensures HeadRows(rows, groups, perKv) == rows / Unit(groups, perKv)
    ensures QueryRows(rows, groups, perKv) == perKv * HeadRows(rows, groups, perKv)
    ensures rows ==
      Start(groups, QueryRows(rows, groups, perKv) + HeadRows(rows, groups, perKv) + HeadRows(rows, groups, perKv))
  {
    var unit := Unit(groups, perKv);
    assert rows == unit * (rows / unit);
    WholeHeads(groups, perKv, rows / unit);
    var d := rows / unit;
    StartIsProduct(groups, perKv * d + d + d);
  }

  lemma FloorBelow(x: nat, y: nat)
    requires y > 0
    ensures y * (x / y) <= x
  {
  }

  lemma DividesUnit(rows: nat, groups: nat, perKv: nat, d: nat)
    requires groups > 0 && rows == (groups * d) * (perKv + 2)
    ensures rows % Unit(groups, perKv) == 0
  {
    assert rows == d * Unit(groups, perKv);
    Multiple(d, Unit(groups, perKv));
  }

  lemma UnevenSizes(rows: nat, groups: nat, perKv: nat)
    requires groups > 0 && rows % (perKv + 2) == 0 && rows % Unit(groups, perKv) != 0
    ensures rows > 0
    ensures QueryRows(rows, groups, perKv) + HeadRows(rows, groups, perKv) + HeadRows(rows, groups, perKv)
            != CeilDiv(rows, groups)
  {
    var kvSize := rows / (perKv + 2);
    var a, d := kvSize * perKv / groups, kvSize / groups;
    assert rows == kvSize * (perKv + 2);
    FloorBelow(kvSize, groups);
    FloorBelow(kvSize * perKv, groups);
    CeilBounds(rows, groups);
    hide CeilDiv;
    SomeRows(rows, Unit(groups, perKv));
    if a + d + d == CeilDiv(rows, groups) { LosslessIsEven(kvSize, groups, perKv, a, d); }
  }

  lemma SomeRows(rows: nat, unit: nat)
    requires unit > 0 && rows % unit != 0
    ensures rows > 0
  {
    Multiple(0, unit);
  }

  lemma LosslessIsEven(kvSize: nat, groups: nat, perKv: nat, a: nat, d: nat)
    requires groups > 0 && groups * a <= kvSize * perKv && groups * d <= kvSize
    requires kvSize * (perKv + 2) <= (a + d + d) * groups
    ensures (kvSize * (perKv + 2)) % Unit(groups, perKv) == 0
  {
    hide Unit;
    NothingLost(kvSize, groups, perKv, a, d, a + d + d);
    DividesUnit(kvSize * (perKv + 2), groups, perKv, d);
  }

  // ---------- unpacking ----------

  /** `parts` are the same range of each of the first `i` chunks. */
  ghost predicate PartsOf<T>(cs: seq<seq<T>>, i: nat, parts: seq<seq<T>>, lo: nat, n: nat) {
    |parts| == i <= |cs| && forall g :: 0 <= g < i ==> lo + n <= |cs[g]| && parts[g] == cs[g][lo..lo + n]
  }

  lemma PartsSnoc<T>(cs: seq<seq<T>>, i: nat, parts: seq<seq<T>>, lo: nat, n: nat)
    requires i < |cs| && PartsOf(cs, i, parts, lo, n) && lo + n <= |cs[i]|
    ensures PartsOf(cs, i + 1, parts + [cs[i][lo..lo + n]], lo, n)
  {
  }

  /** The parts of a list of equal chunks. */
  lemma PartsOfChunks<T>(cs: seq<seq<T>>, parts: seq<seq<T>>, w: nat, lo: nat, n: nat)
    requires PartsOf(cs, |cs|, parts, lo, n) && lo + n <= w
    requires forall g :: 0 <= g < |cs| ==> |cs[g]| == w
    ensures IsPart(Flatten(cs), Flatten(parts), |cs|, w, lo, n)
  {
    FlattenBlocks(cs, w);
    FlattenBlocks(parts, n);
  }

  /** What the loop has collected from the first `i` chunks. */
  ghost predicate Collected<T>(cs: seq<seq<T>>, i: nat, qs: seq<seq<T>>, ks: seq<seq<T>>, vs: seq<seq<T>>, a: nat, d: nat) {
    && i <= |cs| && (forall g :: 0 <= g < i ==> |cs[g]| == a + d + d)
    && PartsOf(cs, i, qs, 0, a) && PartsOf(cs, i, ks, a, d) && PartsOf(cs, i, vs, a + d, d)
  }

  lemma CollectedStep<T>(cs: seq<seq<T>>, i: nat, qs: seq<seq<T>>, ks: seq<seq<T>>, vs: seq<seq<T>>, a: nat, d: nat)
    requires i < |cs| && |cs[i]| == a + d + d && Collected(cs, i, qs, ks, vs, a, d)
    ensures Collected(cs, i + 1, qs + [cs[i][..a]], ks + [cs[i][a..a + d]], vs + [cs[i][a + d..]], a, d)
  {
    assert cs[i][..a] == cs[i][0..a] && cs[i][a + d..] == cs[i][a + d..a + d + d];
    hide PartsOf;
    PartsSnoc(cs, i, qs, 0, a);
    PartsSnoc(cs, i, ks, a, d);
    PartsSnoc(cs, i, vs, a + d, d);
  }

  lemma CollectedUnpacks<T>(cs: seq<seq<T>>, qs: seq<seq<T>>, ks: seq<seq<T>>, vs: seq<seq<T>>, a: nat, d: nat, w: nat)
    requires Collected(cs, |cs|, qs, ks, vs, a, d) && w == a + d + d
    ensures IsPart(Flatten(cs), Flatten(qs), |cs|, w, 0, a) && IsPart(Flatten(cs), Flatten(ks), |cs|, w, a, d)
    ensures IsPart(Flatten(cs), Flatten(vs), |cs|, w, a + d, d)
  {
    hide PartsOf, IsPart, Flatten;
    PartsOfChunks(cs, qs, w, 0, a);
    PartsOfChunks(cs, ks, w, a, d);
    PartsOfChunks(cs, vs, w, a + d, d);
  }

  lemma CollectedSizes<T>(cs: seq<seq<T>>, qs: seq<seq<T>>, ks: seq<seq<T>>, vs: seq<seq<T>>, a: nat, d: nat)
    requires Collected(cs, |cs|, qs, ks, vs, a, d)
    ensures forall g :: 0 <= g < |cs| ==> |cs[g]| == a + d + d
  {
  }

  /** The loop of lines 344-353: it fails exactly when a chunk has another size. */
  method SplitChunks<T>(tensor: seq<T>, chunks: seq<seq<T>>, a: nat, d: nat) returns (r: Outcome<T>)
    requires Flatten(chunks) == tensor
    ensures r.Parts? || r.SizesMismatch?
    ensures r.Parts? <==> forall g :: 0 <= g < |chunks| ==> |chunks[g]| == a + d + d
    ensures r.Parts? ==> Unpacks(tensor, r.q, r.k, r.v, |chunks|, a, d)
  {
    var qs, ks, vs: seq<seq<T>> := [], [], [];
    assert Collected(chunks, 0, qs, ks, vs, a, d);
    hide Collected, IsPart, Flatten;
    for i := 0 to |chunks|
      invariant Collected(chunks, i, qs, ks, vs, a, d)
    {
      if a + d + d != |chunks[i]| { return SizesMismatch; }
      CollectedStep(chunks, i, qs, ks, vs, a, d);
      qs := qs + [chunks[i][..a]];
      ks := ks + [chunks[i][a..a + d]];
      vs := vs + [chunks[i][a + d..]];
    }
    CollectedUnpacks(chunks, qs, ks, vs, a, d, a + d + d);
    assert forall g :: 0 <= g < |chunks| ==> |chunks[g]| == a + d + d by { CollectedSizes(chunks, qs, ks, vs, a, d); }
    r := Parts(Flatten(qs), Flatten(ks), Flatten(vs));
  }

  lemma FirstChunk<T>(tensor: seq<T>, k: nat)
    requires k > 0 && tensor != []
    ensures |Chunk(tensor, k)[0]| == CeilDiv(|tensor|, k)
  {
    PositiveSize(|tensor|, k);
  }

  /** Every chunk has the three sizes exactly when the rows divide by the unit. */
  lemma ChunksMatchIff<T>(t: seq<T>, groups: nat, perKv: nat)
    requires groups > 0 && |t| % (perKv + 2) == 0
    ensures var a, d, cs := QueryRows(|t|, groups, perKv), HeadRows(|t|, groups, perKv), Chunk(t, groups);
            && ((forall g :: 0 <= g < |cs| ==> |cs[g]| == a + d + d) <==> |t| % Unit(groups, perKv) == 0)
            && (|t| % Unit(groups, perKv) == 0 ==>
                  |cs| == groups && d == |t| / Unit(groups, perKv) && a == perKv * d)
  {
    var a, d := QueryRows(|t|, groups, perKv), HeadRows(|t|, groups, perKv);
    hide QueryRows, HeadRows, Unit, Chunk;
    if |t| % Unit(groups, perKv) == 0 {
      EvenSizes(|t|, groups, perKv);
      ChunkEven(t, groups, a + d + d);
    } else {
      UnevenSizes(|t|, groups, perKv);
      FirstChunk(t, groups);
    }
  }

  /** Unpacking succeeds exactly when the rows are a whole number `d` of rows for every head
      of every group, and then q, k and v are the three parts of every group, in order. */
  method SplitQkv<T>(tensor: seq<T>, heads: nat, kvHeads: nat) returns (r: Outcome<T>)
    ensures r.DivisionByZero? <==> kvHeads == 0
    ensures r.HeadsUneven? <==> kvHeads > 0 && heads % kvHeads != 0
    ensures r.RowsUneven? <==> kvHeads > 0 && heads % kvHeads == 0 && |tensor| % (heads / kvHeads + 2) != 0
    ensures kvHeads > 0 && heads % kvHeads == 0 && |tensor| % (heads / kvHeads + 2) == 0 ==>
      && (r.Parts? <==> |tensor| % Unit(kvHeads, heads / kvHeads) == 0)
      && (r.Parts? ==>
            var d := |tensor| / Unit(kvHeads, heads / kvHeads);
            Unpacks(tensor, r.q, r.k, r.v, kvHeads, heads / kvHeads * d, d))
    ensures r.Parts? ==>
      var d := |tensor| / Unit(kvHeads, heads / kvHeads);
      var a := heads / kvHeads * d;
      && FromGroups(tensor, r.q, kvHeads, a + d + d, 0, a) && FromGroups(tensor, r.k, kvHeads, a + d + d, a, d)
      && FromGroups(tensor, r.v, kvHeads, a + d + d, a + d, d)
  {
    if kvHeads == 0 { return DivisionByZero; }
    if heads % kvHeads != 0 { return HeadsUneven; }
    var perKv := heads / kvHeads;
    if |tensor| % (perKv + 2) != 0 { return RowsUneven; }
    ChunksMatchIff(tensor, kvHeads, perKv);
    ChunkFlatten(tensor, kvHeads);
    var a, d := QueryRows(|tensor|, kvHeads, perKv), HeadRows(|tensor|, kvHeads, perKv);
    hide Unit, QueryRows, HeadRows, FromGroups, Unpacks;
    r := SplitChunks(tensor, Chunk(tensor, kvHeads), a, d);
    if r.Parts? { PartsFromGroups(tensor, r.q, r.k, r.v, kvHeads, a, d); }
  }

  // ---------- a permutation of rows, and its inverse ----------

  /** q, k and v put back group by group. */
  function Regroup<T>(q: seq<T>, k: seq<T>, v: seq<T>, n: nat, a: nat, d: nat): (t: seq<T>)
    requires |q| >= Start(n, a) && |k| >= Start(n, d) && |v| >= Start(n, d)
    ensures |t| == Start(n, a + d + d)
  {
    if n == 0 then []
    else Regroup(q, k, v, n - 1, a, d) + Block(q, n - 1, a) + Block(k, n - 1, d) + Block(v, n - 1, d)
  }

  lemma AppendThree<T>(s: seq<T>, a: seq<T>, b: seq<T>, c: seq<T>)
    ensures s + a + b + c == s + (a + b + c)
  {
  }

  lemma BlockAtEnd<T>(front: seq<T>, last: seq<T>, g: nat, w: nat)
    requires |front| == Start(g, w) && |last| == w
    ensures Block(front + last, g, w) == last
  {
  }

  lemma {:induction false} RegroupBlock<T>(q: seq<T>, k: seq<T>, v: seq<T>, n: nat, a: nat, d: nat, g: nat)
    requires |q| >= Start(n, a) && |k| >= Start(n, d) && |v| >= Start(n, d) && g < n
    ensures Start(g, a) + a <= |q| && Start(g, d) + d <= |k| && Start(g, d) + d <= |v|
    ensures Start(g, a + d + d) + (a + d + d) <= |Regroup(q, k, v, n, a, d)|
    ensures Block(Regroup(q, k, v, n, a, d), g, a + d + d) == Block(q, g, a) + Block(k, g, d) + Block(v, g, d)
  {
    hide Regroup, Block;
    BlockFits(n, g, a);
    BlockFits(n, g, d);
    BlockFits(n, g, a + d + d);
    if g < n - 1 {
      RegroupBlock(q, k, v, n - 1, a, d, g);
      RegroupGrows(q, k, v, n, a, d);
      hide Start;
      SameInLonger(Regroup(q, k, v, n - 1, a, d), Regroup(q, k, v, n, a, d), g, a + d + d);
    } else {
      RegroupLast(q, k, v, n, a, d);
      hide Start;
    }
  }

  lemma SameInLonger<T>(s: seq<T>, t: seq<T>, g: nat, w: nat)
    requires s <= t && Start(g, w) + w <= |s|
    ensures Block(t, g, w) == Block(s, g, w)
  {
  }

  lemma RegroupGrows<T>(q: seq<T>, k: seq<T>, v: seq<T>, n: nat, a: nat, d: nat)
    requires |q| >= Start(n, a) && |k| >= Start(n, d) && |v| >= Start(n, d) && n > 0
    ensures Regroup(q, k, v, n - 1, a, d) <= Regroup(q, k, v, n, a, d)
  {
    AppendThree(Regroup(q, k, v, n - 1, a, d), Block(q, n - 1, a), Block(k, n - 1, d), Block(v, n - 1, d));
  }

  lemma RegroupLast<T>(q: seq<T>, k: seq<T>, v: seq<T>, n: nat, a: nat, d: nat)
    requires |q| >= Start(n, a) && |k| >= Start(n, d) && |v| >= Start(n, d) && n > 0
    ensures Start(n - 1, a + d + d) + (a + d + d) <= |Regroup(q, k, v, n, a, d)|
    ensures Block(Regroup(q, k, v, n, a, d), n - 1, a + d + d) ==
      Block(q, n - 1, a) + Block(k, n - 1, d) + Block(v, n - 1, d)
  {
    var front := Regroup(q, k, v, n - 1, a, d);
    var last := Block(q, n - 1, a) + Block(k, n - 1, d) + Block(v, n - 1, d);
    AppendThree(front, Block(q, n - 1, a), Block(k, n - 1, d), Block(v, n - 1, d));
    assert Regroup(q, k, v, n, a, d) == front + last;
    hide Block, Regroup;
    BlockAtEnd(front, last, n - 1, a + d + d);
  }

  /** Putting the parts back restores the tensor. */
  lemma RegroupRestores<T>(t: seq<T>, q: seq<T>, k: seq<T>, v: seq<T>, groups: nat, a: nat, d: nat)
    requires Unpacks(t, q, k, v, groups, a, d)
    ensures Regroup(q, k, v, groups, a, d) == t
  {
    var w := a + d + d;
    var back := Regroup(q, k, v, groups, a, d);
    forall g: nat | g < groups ensures Start(g, w) + w <= |t| && Block(back, g, w) == Block(t, g, w) {
      RegroupBlock(q, k, v, groups, a, d, g);
      var b := Block(t, g, w);
      assert b == b[0..a] + b[a..a + d] + b[a + d..a + d + d];
    }
    hide Regroup, IsPart;
    SameBlocks(back, t, groups, w);
  }

  /** A part is determined by its tensor. */
  lemma PartIsUnique<T>(t: seq<T>, p: seq<T>, p': seq<T>, groups: nat, w: nat, lo: nat, n: nat)
    requires IsPart(t, p, groups, w, lo, n) && IsPart(t, p', groups, w, lo, n)
    ensures p == p'
  {
    forall g: nat | g < groups ensures Start(g, n) + n <= |p| && Block(p, g, n) == Block(p', g, n) {
      assert Block(p, g, n) == Block(t, g, w)[lo..lo + n];
    }
    SameBlocks(p, p', groups, n);
  }

  /** Group `g` of the tensor holds that group's rows of q, k and v. */
  ghost predicate GroupHolds<T>(t: seq<T>, q: seq<T>, k: seq<T>, v: seq<T>, a: nat, d: nat, w: nat, g: nat) {
    && Start(g, a) + a <= |q| && Start(g, d) + d <= |k| && Start(g, d) + d <= |v| && Start(g, w) + w <= |t|
    && w == a + d + d
    && Block(t, g, w) == Block(q, g, a) + Block(k, g, d) + Block(v, g, d)
  }

  lemma GroupParts<T>(t: seq<T>, q: seq<T>, k: seq<T>, v: seq<T>, a: nat, d: nat, w: nat, g: nat)
    requires GroupHolds(t, q, k, v, a, d, w, g)
    ensures Start(g, a) + a <= |q| && Start(g, d) + d <= |k| && Start(g, d) + d <= |v| && Start(g, w) + w <= |t|
    ensures w == a + d + d
    ensures Block(q, g, a) == Block(t, g, w)[0..a] && Block(k, g, d) == Block(t, g, w)[a..a + d]
    ensures Block(v, g, d) == Block(t, g, w)[a + d..a + d + d]
  {
    hide Block, Start;
  }

  lemma RegroupUnpacks<T>(q: seq<T>, k: seq<T>, v: seq<T>, groups: nat, a: nat, d: nat)
    requires |q| == Start(groups, a) && |k| == |v| == Start(groups, d)
    ensures Unpacks(Regroup(q, k, v, groups, a, d), q, k, v, groups, a, d)
  {
    var t, w := Regroup(q, k, v, groups, a, d), a + d + d;
    assert |t| == Start(groups, w);
    forall g: nat | g < groups ensures GroupHolds(t, q, k, v, a, d, w, g) { RegroupBlock(q, k, v, groups, a, d, g); }
    hide Regroup, GroupHolds, Block, Start;
    QueryPart(t, q, k, v, groups, a, d, w);
    KeyPart(t, q, k, v, groups, a, d, w);
    ValuePart(t, q, k, v, groups, a, d, w);
    hide IsPart;
  }

  lemma QueryPart<T>(t: seq<T>, q: seq<T>, k: seq<T>, v: seq<T>, groups: nat, a: nat, d: nat, w: nat)
    requires |t| == Start(groups, w) && |q| == Start(groups, a) && w == a + d + d
    requires forall g: nat :: g < groups ==> GroupHolds(t, q, k, v, a, d, w, g)
    ensures IsPart(t, q, groups, w, 0, a)
  {
    hide GroupHolds, Block, Start;
    forall g: nat | g < groups
      ensures Start(g, w) + w <= |t| && Start(g, a) + a <= |q| && Block(q, g, a) == Block(t, g, w)[0..a]
    {
      GroupParts(t, q, k, v, a, d, w, g);
    }
  }

  lemma KeyPart<T>(t: seq<T>, q: seq<T>, k: seq<T>, v: seq<T>, groups: nat, a: nat, d: nat, w: nat)
    requires |t| == Start(groups, w) && |k| == Start(groups, d) && w == a + d + d
    requires forall g: nat :: g < groups ==> GroupHolds(t, q, k, v, a, d, w, g)
    ensures IsPart(t, k, groups, w, a, d)
  {
    hide GroupHolds, Block, Start;
    forall g: nat | g < groups
      ensures Start(g, w) + w <= |t| && Start(g, d) + d <= |k| && Block(k, g, d) == Block(t, g, w)[a..a + d]
    {
      GroupParts(t, q, k, v, a, d, w, g);
    }
  }

  lemma ValuePart<T>(t: seq<T>, q: seq<T>, k: seq<T>, v: seq<T>, groups: nat, a: nat, d: nat, w: nat)
    requires |t| == Start(groups, w) && |v| == Start(groups, d) && w == a + d + d
    requires forall g: nat :: g < groups ==> GroupHolds(t, q, k, v, a, d, w, g)
    ensures IsPart(t, v, groups, w, a + d, d)
  {
    hide GroupHolds, Block, Start;
    forall g: nat | g < groups
      ensures Start(g, w) + w <= |t| && Start(g, d) + d <= |v| && Block(v, g, d) == Block(t, g, w)[a + d..a + d + d]
    {
      GroupParts(t, q, k, v, a, d, w, g);
    }
  }

  lemma UnpackingIsUnique<T>(t: seq<T>, q: seq<T>, k: seq<T>, v: seq<T>, q': seq<T>, k': seq<T>, v': seq<T>,
                             groups: nat, a: nat, d: nat)
    requires Unpacks(t, q, k, v, groups, a, d) && Unpacks(t, q', k', v', groups, a, d)
    ensures q' == q && k' == k && v' == v
  {
    hide IsPart;
    var w, b := a + d + d, a + d;
    PartIsUnique(t, q, q', groups, w, 0, a);
    PartIsUnique(t, k, k', groups, w, a, d);
    PartIsUnique(t, v, v', groups, w, b, d);
  }

  /** Any q, k and v come back out of their fused tensor, and nothing else does. */
  lemma UnpackingIsExact<T>(q: seq<T>, k: seq<T>, v: seq<T>, groups: nat, a: nat, d: nat,
                            q': seq<T>, k': seq<T>, v': seq<T>)
    requires |q| == Start(groups, a) && |k| == |v| == Start(groups, d)
    ensures Unpacks(Regroup(q, k, v, groups, a, d), q', k', v', groups, a, d)
            <==> q' == q && k' == k && v' == v
  {
    var t := Regroup(q, k, v, groups, a, d);
    RegroupUnpacks(q, k, v, groups, a, d);
    hide Regroup, Unpacks, Start;
    if Unpacks(t, q', k', v', groups, a, d) { UnpackingIsUnique(t, q, k, v, q', k', v', groups, a, d); }
  }

  // ---------- row by row ----------

  /** Where row `i` of group `g` lands in q, k and v laid end to end. */
  function HomeAt(groups: nat, a: nat, d: nat, g: nat, i: nat): nat {
    if i < a then Start(g, a) + i
    else if i < a + d then Start(groups, a) + Start(g, d) + (i - a)
    else Start(groups, a) + Start(groups, d) + Start(g, d) + (i - a - d)
  }

  /** Where row `j` of the tensor lands. */
  function Home(groups: nat, a: nat, d: nat, j: nat): nat
    requires a + d > 0
  {
    HomeAt(groups, a, d, j / (a + d + d), j % (a + d + d))
  }

  /** `part` has `n` rows of each group of `w` rows, from row `lo` of the group on: row `p`
      is row `p % n` of what it has of group `p / n`. */
  ghost predicate FromGroups<T>(t: seq<T>, part: seq<T>, groups: nat, w: nat, lo: nat, n: nat) {
    && |part| == groups * n
    && forall p :: 0 <= p < |part| ==>
         && n > 0 && p / n < groups && lo + p % n < w
         && 0 <= p / n * w + lo + p % n < |t| && part[p] == t[p / n * w + lo + p % n]
  }

  lemma PartFromGroups<T>(t: seq<T>, part: seq<T>, groups: nat, w: nat, lo: nat, n: nat)
    requires IsPart(t, part, groups, w, lo, n)
    ensures FromGroups(t, part, groups, w, lo, n)
  {
    StartIsProduct(groups, n);
    hide IsPart;
    PartLength(t, part, groups, w, lo, n);
    forall p: nat | p < |part|
      ensures n > 0 && p / n < groups && lo + p % n < w
      ensures 0 <= p / n * w + lo + p % n < |t| && part[p] == t[p / n * w + lo + p % n]
    {
      PlaceOf(p, groups, n);
      StartIsProduct(p / n, w);
      RowInPart(t, part, groups, w, lo, n, p / n, p % n);
      PartWidth(t, part, groups, w, lo, n);
    }
  }

  lemma PartWidth<T>(t: seq<T>, part: seq<T>, groups: nat, w: nat, lo: nat, n: nat)
    requires IsPart(t, part, groups, w, lo, n)
    ensures lo + n <= w
  {
  }

  lemma PartsFromGroups<T>(t: seq<T>, q: seq<T>, k: seq<T>, v: seq<T>, groups: nat, a: nat, d: nat)
    requires Unpacks(t, q, k, v, groups, a, d)
    ensures FromGroups(t, q, groups, a + d + d, 0, a) && FromGroups(t, k, groups, a + d + d, a, d)
    ensures FromGroups(t, v, groups, a + d + d, a + d, d)
  {
    hide IsPart, FromGroups;
    var w, b := a + d + d, a + d;
    PartFromGroups(t, q, groups, w, 0, a);
    PartFromGroups(t, k, groups, w, a, d);
    PartFromGroups(t, v, groups, w, b, d);
  }

  lemma RowInPart<T>(t: seq<T>, part: seq<T>, groups: nat, w: nat, lo: nat, n: nat, g: nat, i: nat)
    requires IsPart(t, part, groups, w, lo, n) && g < groups && i < n
    ensures Start(g, n) + i < |part| && Start(g, w) + lo + i < |t|
    ensures part[Start(g, n) + i] == t[Start(g, w) + lo + i]
  {
    assert Block(part, g, n)[i] == Block(t, g, w)[lo + i];
  }

  lemma Widths(groups: nat, a: nat, d: nat)
    ensures Start(groups, a + d + d) == Start(groups, a) + Start(groups, d) + Start(groups, d)
  {
    StartPlus(groups, a, d);
    StartPlus(groups, a + d, d);
  }

  lemma GroupRowMoves<T>(t: seq<T>, q: seq<T>, k: seq<T>, v: seq<T>, groups: nat, a: nat, d: nat, g: nat, i: nat)
    requires Unpacks(t, q, k, v, groups, a, d) && g < groups && i < a + d + d
    ensures HomeAt(groups, a, d, g, i) < |q + k + v| && Start(g, a + d + d) + i < |t|
    ensures (q + k + v)[HomeAt(groups, a, d, g, i)] == t[Start(g, a + d + d) + i]
  {
    hide IsPart, Start;
    if i < a { QueryRowMoves(t, q, k, v, groups, a, d, a + d + d, g, i); }
    else if i < a + d { KeyRowMoves(t, q, k, v, groups, a, d, a + d + d, g, i - a); }
    else { ValueRowMoves(t, q, k, v, groups, a, d, a + d + d, g, i - a - d); }
  }

  lemma QueryRowMoves<T>(t: seq<T>, q: seq<T>, k: seq<T>, v: seq<T>, groups: nat, a: nat, d: nat, w: nat, g: nat, i: nat)
    requires IsPart(t, q, groups, w, 0, a) && g < groups && i < a
    ensures Start(g, a) + i < |q| && Start(g, w) + i < |t|
    ensures (q + k + v)[Start(g, a) + i] == t[Start(g, w) + i]
  {
    RowInPart(t, q, groups, w, 0, a, g, i);
    InThree(q, k, v, Start(g, a) + i);
  }

  lemma KeyRowMoves<T>(t: seq<T>, q: seq<T>, k: seq<T>, v: seq<T>, groups: nat, a: nat, d: nat, w: nat, g: nat, i: nat)
    requires IsPart(t, q, groups, w, 0, a) && IsPart(t, k, groups, w, a, d) && g < groups && i < d
    ensures Start(groups, a) + Start(g, d) + i < |q| + |k| && Start(g, w) + a + i < |t|
    ensures (q + k + v)[Start(groups, a) + Start(g, d) + i] == t[Start(g, w) + a + i]
  {
    hide IsPart, Start;
    PartLength(t, q, groups, w, 0, a);
    RowInPart(t, k, groups, w, a, d, g, i);
    InThree(q, k, v, Start(groups, a) + Start(g, d) + i);
  }

  lemma ValueRowMoves<T>(t: seq<T>, q: seq<T>, k: seq<T>, v: seq<T>, groups: nat, a: nat, d: nat, w: nat, g: nat, i: nat)
    requires IsPart(t, q, groups, w, 0, a) && IsPart(t, k, groups, w, a, d) && IsPart(t, v, groups, w, a + d, d)
    requires g < groups && i < d
    ensures Start(groups, a) + Start(groups, d) + Start(g, d) + i < |q| + |k| + |v| && Start(g, w) + (a + d) + i < |t|
    ensures (q + k + v)[Start(groups, a) + Start(groups, d) + Start(g, d) + i] == t[Start(g, w) + (a + d) + i]
  {
    hide IsPart, Start;
    PartLength(t, q, groups, w, 0, a);
    PartLength(t, k, groups, w, a, d);
    var lo, p := a + d, Start(g, d) + i;
    RowInPart(t, v, groups, w, lo, d, g, i);
    InThree(q, k, v, |q| + |k| + p);
    assert v[p] == t[Start(g, w) + lo + i];
  }

  lemma PartLength<T>(t: seq<T>, part: seq<T>, groups: nat, w: nat, lo: nat, n: nat)
    requires IsPart(t, part, groups, w, lo, n)
    ensures |part| == Start(groups, n)
  {
  }

  lemma InThree<T>(q: seq<T>, k: seq<T>, v: seq<T>, p: nat)
    requires p < |q| + |k| + |v|
    ensures (q + k + v)[p] ==
      if p < |q| then q[p] else if p < |q| + |k| then k[p - |q|] else v[p - |q| - |k|]
  {
  }

  /** Every row of the tensor is at its closed-form index. */
  lemma RowsMoveHome<T>(t: seq<T>, q: seq<T>, k: seq<T>, v: seq<T>, groups: nat, a: nat, d: nat, j: nat)
    requires Unpacks(t, q, k, v, groups, a, d) && j < |t|
    ensures a + d > 0 && Home(groups, a, d, j) < |q + k + v| == |t|
    ensures (q + k + v)[Home(groups, a, d, j)] == t[j]
  {
    PlaceOf(j, groups, a + d + d);
    Widths(groups, a, d);
    GroupRowMoves(t, q, k, v, groups, a, d, j / (a + d + d), j % (a + d + d));
    hide HomeAt, Start;
  }

  predicate Reached(groups: nat, a: nat, d: nat, p: nat)
    requires a + d > 0
  {
    exists j: nat :: j < Start(groups, a + d + d) && Home(groups, a, d, j) == p
  }

  /** Rows of different heads or groups never share a place, and no place stays empty. */
  lemma PlacedExactlyOnce(groups: nat, a: nat, d: nat)
    requires a + d > 0
    ensures forall i: nat, j: nat ::
      i < j < Start(groups, a + d + d) ==> Home(groups, a, d, i) != Home(groups, a, d, j)
    ensures forall p: nat :: p < Start(groups, a + d + d) ==> Reached(groups, a, d, p)
  {
    hide Home, Start;
    forall i: nat, j: nat | i < j < Start(groups, a + d + d) ensures Home(groups, a, d, i) != Home(groups, a, d, j) {
      if Home(groups, a, d, i) == Home(groups, a, d, j) { HomesDiffer(groups, a, d, i, j); }
    }
    forall p: nat | p < Start(groups, a + d + d) ensures Reached(groups, a, d, p) {
      var j := HomeReaches(groups, a, d, p);
    }
  }

  lemma SamePlace(g: nat, i: nat, h: nat, j: nat, w: nat)
    requires i < w && j < w && Start(g, w) + i == Start(h, w) + j
    ensures g == h && i == j
  {
    if g < h { BlockFits(h, g, w); }
    if h < g { BlockFits(g, h, w); }
  }

  lemma PlacesDiffer(groups: nat, a: nat, d: nat, g: nat, i: nat, h: nat, j: nat)
    requires g < groups && h < groups && i < a + d + d && j < a + d + d
    requires HomeAt(groups, a, d, g, i) == HomeAt(groups, a, d, h, j)
    ensures g == h && i == j
  {
    if i < a || j < a {
      BlockFits(groups, g, a);
      BlockFits(groups, h, a);
      SamePlace(g, i, h, j, a);
    } else {
      BlockFits(groups, g, d);
      BlockFits(groups, h, d);
      if i < a + d { SamePlace(g, i - a, h, j - a, d); } else { SamePlace(g, i - a - d, h, j - a - d, d); }
    }
  }

  lemma HomesDiffer(groups: nat, a: nat, d: nat, i: nat, j: nat)
    requires a + d > 0 && i < Start(groups, a + d + d) && j < Start(groups, a + d + d)
    requires Home(groups, a, d, i) == Home(groups, a, d, j)
    ensures i == j
  {
    hide HomeAt, Start;
    PlaceOf(i, groups, a + d + d);
    PlaceOf(j, groups, a + d + d);
    PlacesDiffer(groups, a, d, i / (a + d + d), i % (a + d + d), j / (a + d + d), j % (a + d + d));
  }

  lemma HomeOf(groups: nat, a: nat, d: nat, g: nat, i: nat)
    requires g < groups && i < a + d + d
    ensures Start(g, a + d + d) + i < Start(groups, a + d + d)
    ensures Home(groups, a, d, Start(g, a + d + d) + i) == HomeAt(groups, a, d, g, i)
  {
    Place(g, i, a + d + d);
    BlockFits(groups, g, a + d + d);
  }

  lemma HomeReaches(groups: nat, a: nat, d: nat, p: nat) returns (j: nat)
    requires a + d > 0 && p < Start(groups, a + d + d)
    ensures j < Start(groups, a + d + d) && Home(groups, a, d, j) == p
  {
    Widths(groups, a, d);
    hide Start, HomeAt;
    var l := p - Start(groups, a);
    var g: nat, i: nat;
    if l < 0 {
      PlaceOf(p, groups, a);
      g, i := p / a, p % a;
      HomeAtIs(groups, a, d, g, i, 0);
    } else if l < Start(groups, d) {
      PlaceOf(l, groups, d);
      g, i := l / d, a + l % d;
      HomeAtIs(groups, a, d, g, l % d, 1);
    } else {
      var m := l - Start(groups, d);
      PlaceOf(m, groups, d);
      g, i := m / d, a + d + m % d;
      HomeAtIs(groups, a, d, g, m % d, 2);
    }
    HomeOf(groups, a, d, g, i);
    j := Start(g, a + d + d) + i;
  }

  /** `HomeAt`, part by part. */
  lemma HomeAtIs(groups: nat, a: nat, d: nat, g: nat, i: nat, part: nat)
    requires part <= 2 && i < if part == 0 then a else d
    ensures part == 0 ==> HomeAt(groups, a, d, g, i) == Start(g, a) + i
    ensures part == 1 ==> HomeAt(groups, a, d, g, a + i) == Start(groups, a) + Start(g, d) + i
    ensures part == 2 ==>
      HomeAt(groups, a, d, g, a + d + i) == Start(groups, a) + Start(groups, d) + Start(g, d) + i
  {
  }
}
