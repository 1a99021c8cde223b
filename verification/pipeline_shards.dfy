/** The pipeline shard search (verl/model_merger/megatron_model_merger.py, lines 57-98). */
module PipelineShards {
  import opened Basics

  /** The two ValueErrors of lines 67-71, and the IndexError of line 96. */
  datatype Outcome = Shards(stages: seq<int>) | TooFewLayers | TooFewRanks | NoCandidate

  datatype Candidate = Candidate(stages: seq<int>, diff: nat)

  function Sum(s: seq<int>): int {
    if s == [] then 0 else s[0] + Sum(s[1..])
  }

  function Repeat(n: nat, x: int): (s: seq<int>)
    ensures |s| == n && forall i :: 0 <= i < n ==> s[i] == x
  {
    if n == 0 then [] else [x] + Repeat(n - 1, x)
  }

  function Abs(x: int): nat { if x < 0 then -x else x }

  /** Layers left for the first and the last stage together. */
  function Ends(layers: int, ranks: int, middle: int): int { layers - middle * (ranks - 2) }

  predicate Fits(layers: int, ranks: int, middle: int) {
    var ends := Ends(layers, ranks, middle);
    0 < ends / 2 <= middle && 0 < ends - ends / 2 <= middle
  }

  function Stages(layers: int, ranks: int, middle: int): seq<int>
    requires ranks >= 2
  {
    var ends := Ends(layers, ranks, middle);
    [ends / 2] + Repeat(ranks - 2, middle) + [ends - ends / 2]
  }

  function CandidateOf(layers: int, ranks: int, middle: int): Candidate
    requires ranks >= 2
  {
    Candidate(Stages(layers, ranks, middle), Abs(Ends(layers, ranks, middle) / 2 - middle))
  }

  /** The first element of the stable sort by `diff`. */
  function Best(cs: seq<Candidate>): (best: Candidate)
    requires cs != []
    ensures best in cs
    ensures forall c :: c in cs ==> best.diff <= c.diff
  {
    if |cs| == 1 then cs[0]
    else
      var rest := Best(cs[1..]);
      if cs[0].diff <= rest.diff then cs[0] else rest
  }

  // ---------- what a sharding is ----------

  predicate IsSplit(s: seq<int>, layers: int, ranks: int) {
    |s| == ranks && (forall i :: 0 <= i < |s| ==> s[i] > 0) && Sum(s) == layers
  }

  predicate AtMost(s: seq<int>, bound: int) { forall i :: 0 <= i < |s| ==> s[i] <= bound }

  predicate Within(s: seq<int>, d: int) { forall i, j :: 0 <= i < |s| && 0 <= j < |s| ==> s[i] - s[j] <= d }

  lemma SumAppend(a: seq<int>, b: seq<int>)
    ensures Sum(a + b) == Sum(a) + Sum(b)
  {
    if a == [] { assert a + b == b; } else { assert (a + b)[1..] == a[1..] + b; }
  }

  lemma SumConst(n: nat, x: int)
    ensures Sum(Repeat(n, x)) == n * x
  {
    if n > 0 { SumConst(n - 1, x); }
  }

  lemma SumAtMost(s: seq<int>, bound: int)
    requires AtMost(s, bound)
    ensures Sum(s) <= |s| * bound
  {
    if s != [] {
      assert s[0] <= bound;
      assert forall i :: 0 <= i < |s| - 1 ==> s[1..][i] == s[i + 1];
      SumAtMost(s[1..], bound);
    }
  }

  /** No split whatever has a smaller largest stage than the rounded-up mean. */
  lemma LargestIsAtLeastMean(s: seq<int>, layers: int, ranks: int, bound: int)
    requires ranks > 0 && IsSplit(s, layers, ranks) && AtMost(s, bound)
    ensures CeilDiv(layers, ranks) <= bound
  {
    SumAtMost(s, bound);
    var c := CeilDiv(layers, ranks);
    CeilBounds(layers, ranks);
    if bound <= c - 1 { Scale(bound, c - 1, ranks); }
  }

  // ---------- the search collapses ----------

  lemma FitsIff(layers: int, ranks: int, middle: int)
    requires ranks >= 3
    ensures Fits(layers, ranks, middle) <==> Ends(layers, ranks, middle) >= 2 && layers <= middle * ranks
  {
    assert middle * ranks == middle * (ranks - 2) + 2 * middle;
  }

  /** When any middle size fits, the rounded-up mean fits, and every other fitting size is
      larger and farther from its first stage. */
  lemma MeanIsBest(layers: int, ranks: int, middle: int)
    requires ranks >= 3 && Fits(layers, ranks, middle)
    ensures Fits(layers, ranks, CeilDiv(layers, ranks)) && CeilDiv(layers, ranks) <= middle
    ensures middle != CeilDiv(layers, ranks) ==>
      CandidateOf(layers, ranks, CeilDiv(layers, ranks)).diff < CandidateOf(layers, ranks, middle).diff
  {
    var c := CeilDiv(layers, ranks);
    CeilBounds(layers, ranks);
    FitsIff(layers, ranks, middle);
    FitsIff(layers, ranks, c);
    if middle <= c - 1 { Scale(middle, c - 1, ranks); }
    Scale(c, middle, ranks - 2);
  }

  lemma StagesSplit(layers: int, ranks: int)
    requires ranks >= 2 && Fits(layers, ranks, CeilDiv(layers, ranks))
    ensures IsSplit(Stages(layers, ranks, CeilDiv(layers, ranks)), layers, ranks)
    ensures AtMost(Stages(layers, ranks, CeilDiv(layers, ranks)), CeilDiv(layers, ranks))
  {
    var m := CeilDiv(layers, ranks);
    var ends := Ends(layers, ranks, m);
    SumThree(ends / 2, ranks - 2, m, ends - ends / 2);
    hide CeilDiv, Sum;
    assert (ranks - 2) * m == m * (ranks - 2);
  }

  lemma SumThree(a: int, n: nat, m: int, b: int)
    ensures Sum([a] + Repeat(n, m) + [b]) == a + n * m + b
  {
    SumConst(n, m);
    SumAppend([a], Repeat(n, m));
    SumAppend([a] + Repeat(n, m), [b]);
    assert Sum([a]) == a + Sum([]) && Sum([b]) == b + Sum([]);
  }

  lemma MeanInRange(layers: int, ranks: int)
    requires 3 <= ranks <= layers
    ensures 1 <= CeilDiv(layers, ranks) < layers
  {
    var c := CeilDiv(layers, ranks);
    CeilBounds(layers, ranks);
    if c <= 0 { Scale(c, 0, ranks); }
    if layers <= c { Scale(layers - 1, c - 1, ranks); Scale(3, ranks, layers - 1); }
  }

  /** The largest stage of a split into stages of at most the rounded-up mean is minimal. */
  lemma MeanIsLeast(layers: int, ranks: int)
    requires ranks > 0
    ensures forall s, bound :: IsSplit(s, layers, ranks) && AtMost(s, bound) ==> CeilDiv(layers, ranks) <= bound
  {
    forall s, bound | IsSplit(s, layers, ranks) && AtMost(s, bound) ensures CeilDiv(layers, ranks) <= bound {
      LargestIsAtLeastMean(s, layers, ranks, bound);
    }
  }

  lemma OneStage(layers: int)
    requires layers >= 1
    ensures IsSplit([layers], layers, 1) && CeilDiv(layers, 1) == layers
  {
    assert Sum([layers]) == layers + Sum([]);
  }

  lemma TwoStages(layers: int)
    requires layers >= 2
    ensures var stages := [layers / 2, layers - layers / 2];
      IsSplit(stages, layers, 2) && AtMost(stages, CeilDiv(layers, 2)) && stages == Stages(layers, 2, CeilDiv(layers, 2))
  {
    var stages := [layers / 2, layers - layers / 2];
    assert Sum(stages) == stages[0] + Sum([stages[1]]) && Sum([stages[1]]) == stages[1] + Sum([]);
    assert Repeat(0, CeilDiv(layers, 2)) == [];
  }

  ghost predicate Considered(layers: int, ranks: int, m: int, x: Candidate) {
    ranks >= 2 && Fits(layers, ranks, m) && x == CandidateOf(layers, ranks, m)
  }

  /** Whatever the search has collected, its best candidate is the rounded-up mean. */
  lemma BestIsMean(layers: int, ranks: int, strategy: seq<Candidate>)
    requires 3 <= ranks <= layers
    requires forall m :: 0 <= m < layers && Fits(layers, ranks, m) ==> CandidateOf(layers, ranks, m) in strategy
    requires forall x :: x in strategy ==> exists m :: Considered(layers, ranks, m, x)
    ensures strategy == [] <==> Ends(layers, ranks, CeilDiv(layers, ranks)) < 2
    ensures strategy != [] ==> Best(strategy).stages == Stages(layers, ranks, CeilDiv(layers, ranks))
  {
    var c := CeilDiv(layers, ranks);
    MeanInRange(layers, ranks);
    FitsIff(layers, ranks, c);
    CeilBounds(layers, ranks);
    hide Ends, CeilDiv, Stages, Fits;
    if strategy != [] {
      var best := Best(strategy);
      var m :| Considered(layers, ranks, m, best);
      MeanIsBest(layers, ranks, m);
    }
  }

  /** The loop and the sort of lines 81-96. */
  method Search(layers: int, ranks: int) returns (r: Outcome)
    requires 3 <= ranks <= layers
    ensures r.NoCandidate? || r.Shards?
    ensures r.NoCandidate? <==> Ends(layers, ranks, CeilDiv(layers, ranks)) < 2
    ensures r.Shards? ==> r.stages == Stages(layers, ranks, CeilDiv(layers, ranks))
  {
    hide Fits, CandidateOf, CeilDiv, Ends, Stages;
    var strategy: seq<Candidate> := [];
    for middle := 0 to layers
      invariant forall m :: 0 <= m < middle && Fits(layers, ranks, m) ==> CandidateOf(layers, ranks, m) in strategy
      invariant forall x :: x in strategy ==> exists m :: Considered(layers, ranks, m, x)
    {
      if Fits(layers, ranks, middle) {
        assert Considered(layers, ranks, middle, CandidateOf(layers, ranks, middle));
        strategy := strategy + [CandidateOf(layers, ranks, middle)];
      }
    }
    BestIsMean(layers, ranks, strategy);
    if strategy == [] { return NoCandidate; }
    return Shards(Best(strategy).stages);
  }

  /** The search returns a sharding exactly when the rounded-up mean leaves two layers for
      the ends; its largest stage is then the smallest possible. */
  method GetDynamicPipelineShards(layers: int, ranks: int) returns (r: Outcome)
    ensures r.TooFewLayers? <==> layers < ranks
    ensures r.TooFewRanks? <==> ranks <= layers && ranks < 1
    ensures r.NoCandidate? <==> 3 <= ranks <= layers && layers - CeilDiv(layers, ranks) * (ranks - 2) < 2
    ensures r.Shards? ==> IsSplit(r.stages, layers, ranks) && AtMost(r.stages, CeilDiv(layers, ranks))
    ensures r.Shards? ==>
      forall s, bound :: IsSplit(s, layers, ranks) && AtMost(s, bound) ==> AtMost(r.stages, bound)
    ensures r.Shards? && ranks >= 2 ==> r.stages == Stages(layers, ranks, CeilDiv(layers, ranks))
    ensures r.Shards? && ranks >= 2 ==>
      && (forall i :: 0 < i < ranks - 1 ==> r.stages[i] == CeilDiv(layers, ranks))
      && 0 <= r.stages[ranks - 1] - r.stages[0] <= 1
  {
    if layers < ranks { return TooFewLayers; }
    if ranks < 1 { return TooFewRanks; }
    MeanIsLeast(layers, ranks);
    if ranks >= 2 { StagesShape(layers, ranks, CeilDiv(layers, ranks)); }
    assert Ends(layers, ranks, CeilDiv(layers, ranks)) == layers - CeilDiv(layers, ranks) * (ranks - 2);
    hide IsSplit, CeilDiv, Ends, Stages;
    if ranks == 1 {
      OneStage(layers);
      return Shards([layers]);
    }
    if ranks == 2 {
      TwoStages(layers);
      return Shards([layers / 2, layers - layers / 2]);
    }
    r := Search(layers, ranks);
    if r.Shards? { SearchSplits(layers, ranks); }
  }

  lemma SearchSplits(layers: int, ranks: int)
    requires 3 <= ranks <= layers && Ends(layers, ranks, CeilDiv(layers, ranks)) >= 2
    ensures IsSplit(Stages(layers, ranks, CeilDiv(layers, ranks)), layers, ranks)
    ensures AtMost(Stages(layers, ranks, CeilDiv(layers, ranks)), CeilDiv(layers, ranks))
  {
    FitsIff(layers, ranks, CeilDiv(layers, ranks));
    CeilBounds(layers, ranks);
    StagesSplit(layers, ranks);
  }

  /** All stages between the ends have the rounded-up mean, and of an odd rest the last
      stage gets the larger half. */
  lemma StagesShape(layers: int, ranks: int, middle: int)
    requires ranks >= 2
    ensures var stages := Stages(layers, ranks, middle);
      && |stages| == ranks && (forall i :: 0 < i < ranks - 1 ==> stages[i] == middle)
      && 0 <= stages[ranks - 1] - stages[0] <= 1
      && stages[0] + stages[ranks - 1] + middle * (ranks - 2) == layers
  {
  }

  /** The search can fail although sharding is possible. */
  lemma FailsOnFiveOverFour()
    ensures Ends(5, 4, CeilDiv(5, 4)) < 2 && IsSplit([2, 1, 1, 1], 5, 4)
  {
    assert CeilDiv(5, 4) == 2;
    assert Sum([2, 1, 1, 1]) == 2 + Sum([1, 1, 1]) == 3 + Sum([1, 1]) == 4 + Sum([1]);
  }

  // ---------- "as uniform as possible" ----------

  /** `extra` stages of one layer more than the others. */
  function Balanced(size: int, extra: nat, ranks: int): seq<int>
    requires extra <= ranks
  {
    Repeat(extra, size + 1) + Repeat(ranks - extra, size)
  }

  lemma BalancedSum(size: int, extra: nat, ranks: int)
    requires extra <= ranks
    ensures Sum(Balanced(size, extra, ranks)) == ranks * size + extra
  {
    SumConst(extra, size + 1);
    SumConst(ranks - extra, size);
    SumAppend(Repeat(extra, size + 1), Repeat(ranks - extra, size));
    assert extra * (size + 1) + (ranks - extra) * size == ranks * size + extra;
  }

  lemma BalancedShape(size: int, extra: nat, ranks: int)
    requires extra <= ranks && size > 0
    ensures |Balanced(size, extra, ranks)| == ranks
    ensures forall i :: 0 <= i < ranks ==> size <= Balanced(size, extra, ranks)[i] <= size + 1
  {
  }

  lemma BalancedSplits(layers: int, ranks: int)
    requires 1 <= ranks <= layers
    ensures IsSplit(Balanced(layers / ranks, layers % ranks, ranks), layers, ranks)
    ensures Within(Balanced(layers / ranks, layers % ranks, ranks), 1)
  {
    var size, extra := layers / ranks, layers % ranks;
    hide Sum, Balanced;
    assert layers == ranks * size + extra;
    if size <= 0 { Scale(size, 0, ranks); }
    BalancedSum(size, extra, ranks);
    BalancedShape(size, extra, ranks);
  }

  lemma SumEqual(s: seq<int>, x: int)
    requires forall i :: 0 <= i < |s| ==> s[i] == x
    ensures Sum(s) == |s| * x
  {
    assert s == Repeat(|s|, x);
    SumConst(|s|, x);
  }

  /** The ends of the found stages, and the layers that rounding up wastes. */
  lemma EndsAndWaste(layers: int, ranks: int)
    requires ranks >= 3
    ensures var c := CeilDiv(layers, ranks);
      Ends(layers, ranks, c) == 2 * c - (c * ranks - layers) && 0 <= c * ranks - layers < ranks
  {
    var c := CeilDiv(layers, ranks);
    CeilBounds(layers, ranks);
    assert c * ranks == c * (ranks - 2) + 2 * c;
    assert (c - 1) * ranks == c * ranks - ranks;
  }

  lemma StagesWithin(layers: int, ranks: int, waste: int)
    requires 3 <= ranks <= layers && waste >= 0
    requires Ends(layers, ranks, CeilDiv(layers, ranks)) == 2 * CeilDiv(layers, ranks) - waste
    ensures Within(Stages(layers, ranks, CeilDiv(layers, ranks)), 1) <==> waste <= 2
    ensures waste == 0 ==> Within(Stages(layers, ranks, CeilDiv(layers, ranks)), 0)
  {
    var stages := Stages(layers, ranks, CeilDiv(layers, ranks));
    hide Ends, CeilDiv;
    assert stages[1] == CeilDiv(layers, ranks);
    assert forall i :: 0 < i < ranks - 1 ==> stages[i] == CeilDiv(layers, ranks);
    assert stages[0] == (2 * CeilDiv(layers, ranks) - waste) / 2;
    assert stages[ranks - 1] == 2 * CeilDiv(layers, ranks) - waste - stages[0];
    if waste > 2 { assert stages[1] - stages[0] > 1; }
  }

  /** An even split exists only if rounding up wastes nothing. */
  lemma EqualStages(s: seq<int>, layers: int, ranks: int)
    requires ranks > 0 && IsSplit(s, layers, ranks) && Within(s, 0)
    ensures CeilDiv(layers, ranks) * ranks == layers
  {
    assert forall i :: 0 <= i < |s| ==> s[i] - s[0] <= 0 && s[0] - s[i] <= 0;
    SumEqual(s, s[0]);
    NoWaste(layers, ranks, s[0]);
  }

  /** What the search returns is as even as any split exactly when rounding up the mean
      wastes at most two layers. */
  lemma MostUniformIff(layers: int, ranks: int)
    requires 3 <= ranks <= layers && Ends(layers, ranks, CeilDiv(layers, ranks)) >= 2
    ensures (forall s, d :: IsSplit(s, layers, ranks) && Within(s, d) ==>
               Within(Stages(layers, ranks, CeilDiv(layers, ranks)), d))
            <==> CeilDiv(layers, ranks) * ranks - layers <= 2
  {
    var stages := Stages(layers, ranks, CeilDiv(layers, ranks));
    var waste := CeilDiv(layers, ranks) * ranks - layers;
    EndsAndWaste(layers, ranks);
    StagesWithin(layers, ranks, waste);
    hide Ends, CeilDiv, Stages, Sum;
    if waste <= 2 {
      forall s, d | IsSplit(s, layers, ranks) && Within(s, d) ensures Within(stages, d) {
        assert s[0] - s[0] <= d;
        if d == 0 { EqualStages(s, layers, ranks); }
      }
    } else {
      BalancedSplits(layers, ranks);
    }
  }

  lemma NoWaste(layers: int, ranks: int, x: int)
    requires ranks > 0 && layers == ranks * x
    ensures CeilDiv(layers, ranks) == x
  {
    var c := CeilDiv(layers, ranks);
    CeilBounds(layers, ranks);
    if c <= x - 1 { Scale(c, x - 1, ranks); }
    if x <= c - 1 { Scale(x, c - 1, ranks); }
  }
}
