/** Equal blocks of a sequence, and how torch cuts a tensor's rows into chunks. */
module Blocks {
  import opened Basics

  /** The first row of block `g`: `g * w`, counted out so that proofs stay linear. */
  function Start(g: nat, w: nat): nat {
    if g == 0 then 0 else Start(g - 1, w) + w
  }

  lemma {:induction false} StartIsProduct(g: nat, w: nat)
    ensures Start(g, w) == g * w
  {
    if g > 0 { StartIsProduct(g - 1, w); }
  }

  /** Rows `g * w` up to `(g + 1) * w`. */
  function Block<T>(s: seq<T>, g: nat, w: nat): (b: seq<T>)
    requires Start(g, w) + w <= |s|
    ensures |b| == w
  {
    s[Start(g, w)..Start(g, w) + w]
  }

  lemma {:induction false} BlockFits(n: nat, g: nat, w: nat)
    requires g < n
    ensures Start(g, w) + w <= Start(n, w)
  {
    if g < n - 1 { BlockFits(n - 1, g, w); }
  }

  lemma {:induction false} StartPlus(g: nat, v: nat, w: nat)
    ensures Start(g, v + w) == Start(g, v) + Start(g, w)
  {
    if g > 0 { StartPlus(g - 1, v, w); }
  }

  /** Every row has one block and one place in it. */
  lemma Place(g: nat, i: nat, w: nat)
    requires i < w
    ensures (Start(g, w) + i) / w == g && (Start(g, w) + i) % w == i
  {
    StartIsProduct(g, w);
    var q, r := (g * w + i) / w, (g * w + i) % w;
    assert g * w + i == q * w + r;
    if q <= g - 1 { Scale(q, g - 1, w); }
    if g <= q - 1 { Scale(g, q - 1, w); }
  }

  lemma PlaceOf(j: nat, n: nat, w: nat)
    requires j < Start(n, w)
    ensures w > 0 && j / w < n && j % w < w && j == Start(j / w, w) + j % w
  {
    StartIsProduct(n, w);
    StartIsProduct(j / w, w);
    if n <= j / w { Scale(n, j / w, w); }
  }

  /** `Tensor.chunk(k)`: pieces of the rounded-up size, the last one possibly smaller, and
      possibly fewer than `k`; no rows are cut into `k` empty pieces. */
  function Chunk<T>(s: seq<T>, k: nat): (cs: seq<seq<T>>)
    requires k > 0
    ensures cs != []
  {
    if s == [] then seq(k, _ => []) else PositiveSize(|s|, k); Pieces(s, CeilDiv(|s|, k))
  }

  lemma PositiveSize(n: nat, k: nat)
    requires n > 0 && k > 0
    ensures 0 < CeilDiv(n, k) <= n
  {
    var c := CeilDiv(n, k);
    CeilBounds(n, k);
    if c <= 0 { Scale(c, 0, k); }
    if n <= c - 1 { Scale(n, c - 1, k); Scale(1, k, n); }
  }

  function Pieces<T>(s: seq<T>, size: nat): (cs: seq<seq<T>>)
    requires size > 0
    ensures cs != []
    ensures |cs[0]| == if |s| < size then |s| else size
    decreases |s|
  {
    if |s| <= size then [s] else [s[..size]] + Pieces(s[size..], size)
  }

  lemma {:induction false} PiecesFlatten<T>(s: seq<T>, size: nat)
    requires size > 0
    ensures Flatten(Pieces(s, size)) == s
    decreases |s|
  {
    if |s| <= size {
      assert Flatten([s]) == s + Flatten([]);
    } else {
      PiecesFlatten(s[size..], size);
    }
  }

  /** Chunking loses, repeats and reorders nothing. */
  lemma ChunkFlatten<T>(s: seq<T>, k: nat)
    requires k > 0
    ensures Flatten(Chunk(s, k)) == s
  {
    if s == [] {
      FlattenEmpty(Chunk(s, k));
    } else {
      PositiveSize(|s|, k);
      PiecesFlatten(s, CeilDiv(|s|, k));
    }
  }

  lemma {:induction false} FlattenEmpty<T>(cs: seq<seq<T>>)
    requires forall i :: 0 <= i < |cs| ==> cs[i] == []
    ensures Flatten(cs) == []
  {
    if cs != [] { FlattenEmpty(cs[1..]); }
  }

  lemma {:induction false} PiecesEven<T>(s: seq<T>, k: nat, size: nat)
    requires size > 0 && k > 0 && |s| == Start(k, size)
    ensures |Pieces(s, size)| == k
    ensures forall i :: 0 <= i < k ==> |Pieces(s, size)[i]| == size
    decreases k
  {
    if k > 1 {
      BlockFits(k - 1, 0, size);
      PiecesEven(s[size..], k - 1, size);
    }
  }

  lemma EvenSize(k: nat, size: nat)
    requires k > 0
    ensures CeilDiv(Start(k, size), k) == size
  {
    StartIsProduct(k, size);
    var c := CeilDiv(k * size, k);
    CeilBounds(k * size, k);
    if c <= size - 1 { Scale(c, size - 1, k); }
    if size <= c - 1 { Scale(size, c - 1, k); }
  }

  /** When the rows divide evenly, chunking gives exactly `k` equal blocks in order. */
  lemma ChunkEven<T>(s: seq<T>, k: nat, size: nat)
    requires k > 0 && |s| == Start(k, size)
    ensures |Chunk(s, k)| == k
    ensures forall i: nat :: i < k ==> Start(i, size) + size <= |s| && Chunk(s, k)[i] == Block(s, i, size)
  {
    if s == [] {
      BlockFits(k, 0, size);
      assert forall g :: 0 <= g < k ==> |Chunk(s, k)[g]| == size;
    } else {
      if size == 0 { StartIsProduct(k, size); assert false; }
      EvenSize(k, size);
      PositiveSize(|s|, k);
      PiecesEven(s, k, size);
    }
    ChunkFlatten(s, k);
    FlattenBlocks(Chunk(s, k), size);
  }

  /** Concatenating equal blocks puts block `g` at rows `g * w`. */
  lemma {:induction false} FlattenBlocks<T>(bs: seq<seq<T>>, w: nat)
    requires forall g :: 0 <= g < |bs| ==> |bs[g]| == w
    ensures |Flatten(bs)| == Start(|bs|, w)
    ensures forall g: nat :: g < |bs| ==> Start(g, w) + w <= |Flatten(bs)| && Block(Flatten(bs), g, w) == bs[g]
  {
    if bs != [] {
      var front, last := bs[..|bs| - 1], bs[|bs| - 1];
      assert bs == front + [last];
      FlattenSnoc(front, last);
      FlattenBlocks(front, w);
      forall g: nat | g < |bs| ensures Start(g, w) + w <= |Flatten(bs)| && Block(Flatten(bs), g, w) == bs[g] {
        if g < |front| {
          BlockFits(|front|, g, w);
          assert Block(Flatten(front), g, w) == front[g];
        }
      }
    }
  }

  lemma BlockOfPrefix<T>(s: seq<T>, m: nat, g: nat, w: nat)
    requires Start(g, w) + w <= m <= |s|
    ensures Block(s[..m], g, w) == Block(s, g, w)
  {
  }

  lemma LastBlock<T>(s: seq<T>, n: nat, w: nat)
    requires n > 0 && |s| == Start(n, w)
    ensures Start(n - 1, w) + w <= |s| && s == s[..Start(n - 1, w)] + Block(s, n - 1, w)
  {
  }

  /** Two sequences of equal blocks are equal when their blocks are. */
  lemma {:induction false} SameBlocks<T>(s: seq<T>, t: seq<T>, n: nat, w: nat)
    requires |s| == |t| == Start(n, w)
    requires forall g: nat :: g < n ==> Start(g, w) + w <= |s| && Block(s, g, w) == Block(t, g, w)
    ensures s == t
    decreases n
  {
    if n > 0 {
      var m := Start(n - 1, w);
      forall g: nat | g < n - 1 ensures Start(g, w) + w <= m && Block(s[..m], g, w) == Block(t[..m], g, w) {
        BlockFits(n - 1, g, w);
        BlockOfPrefix(s, m, g, w);
        BlockOfPrefix(t, m, g, w);
      }
      SameBlocks(s[..m], t[..m], n - 1, w);
      LastBlock(s, n, w);
      LastBlock(t, n, w);
    }
  }
}
