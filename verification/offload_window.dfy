/** The offloading schedule of the activation handler: which layer commit frees
    which activation group (verl/utils/activation_offload.py, lines 248-257). */
module OffloadWindow {
  import opened Basics

  /** The commit at which group `i` of `G` is freed in a model of `L` layers. The
      remainder `L % G` is spread over the first groups, one layer each. */
  function Window(G: int, L: int, i: int): int
    requires 1 <= G
  {
    (L / G) * (i + 1) - 1 + Min(i + 1, L % G)
  }

  /** The table as the constructor builds it, with its running `constant`. */
  method BuildWindowMap(G: int, L: int) returns (window: map<int, int>)
    requires 1 <= G
    ensures window == map i | 0 <= i < G :: Window(G, L, i)
  {
    window := map[];
    var constant := 0;
    var i := 0;
    while i < G
      invariant 0 <= i <= G
      invariant constant == Min(i, L % G)
      invariant window == map k | 0 <= k < i :: Window(G, L, k)
    {
      window := window[i := (L / G) * (i + 1) - 1];
      if i < L % G {
        window := window[i := window[i] + i + 1];
        constant := i + 1;
      } else {
        window := window[i := window[i] + constant];
      }
      i := i + 1;
    }
  }

  /** Two groups are never freed at the same commit, and groups are freed in order. */
  lemma WindowIncreasing(G: int, L: int, i: int, j: int)
    requires 1 <= G <= L
    requires i < j
    ensures Window(G, L, i) < Window(G, L, j)
  {
    assert L / G >= 1;
    ProductIncreasing(L / G, i + 1, j + 1);
  }

  lemma ProductIncreasing(q: int, i: int, j: int)
    requires q >= 1 && i < j
    ensures q * i < q * j
  {
    assert q * j - q * i == q * (j - i);
  }

  /** The last group is freed at the last commit. */
  lemma WindowLast(G: int, L: int)
    requires 1 <= G
    ensures Window(G, L, G - 1) == L - 1
  {
    assert L == (L / G) * G + L % G;
  }

  /** The schedule is spread evenly: from one freeing to the next, and up to the first one,
      pass `L / G` commits, or one more for each of the first `L % G` groups. */
  lemma WindowEven(G: int, L: int, i: int)
    requires 1 <= G <= L && 0 <= i < G
    ensures Window(G, L, i) - (if i == 0 then -1 else Window(G, L, i - 1)) == L / G + if i < L % G then 1 else 0
  {
    assert (L / G) * (i + 1) == (L / G) * i + L / G;
  }

  /** Group `i` is freed strictly after its own commit, for every group, exactly
      when there are fewer groups than layers. */
  lemma WindowAfterOwnCommit(G: int, L: int)
    requires 1 <= G <= L
    ensures (forall i :: 0 <= i < G ==> Window(G, L, i) >= i + 1) <==> G < L
  {
    if G < L {
      forall i | 0 <= i < G ensures Window(G, L, i) >= i + 1 {
        WindowLate(G, L, i);
      }
    } else {
      assert L / G == 1;
      assert Window(G, L, 0) == 0;
    }
  }

  lemma WindowLate(G: int, L: int, i: int)
    requires 1 <= G < L
    requires 0 <= i < G
    ensures Window(G, L, i) >= i + 1
  {
    var q := L / G;
    if q >= 2 {
      assert q * (i + 1) >= 2 * (i + 1);
    } else {
      assert q == 1 && L % G == L - G;
    }
  }

  /** `n` groups are freed by the commits of the layers below `c`. */
  ghost predicate Freed(G: int, L: int, c: int, n: int)
    requires 1 <= G
  {
    && 0 <= n <= G
    && (n > 0 ==> Window(G, L, n - 1) < c)
    && (n < G ==> c <= Window(G, L, n))
  }

  /** With as many groups as layers, group `i` is freed at its own commit. */
  lemma WindowFull(L: int, i: int)
    requires 1 <= L && 0 <= i
    ensures Window(L, L, i) == i
  {
    assert L / L == 1 && L % L == 0;
  }

  /** It lags behind the layer, so a freed group is complete; after the last layer all
      groups are freed. */
  lemma FreedLag(G: int, L: int, c: int, n: int)
    requires 1 <= G <= L
    requires 0 <= c <= L
    requires Freed(G, L, c, n)
    ensures n <= c && (c > 0 && G < L ==> n < c) && (G == L ==> n == c)
    ensures c == L <==> n == G
  {
    hide Window;
    if G == L {
      WindowFull(L, n);
      if n > 0 { WindowFull(L, n - 1); }
    } else {
      WindowAfterOwnCommit(G, L);
      WindowLast(G, L);
      if n < G - 1 { WindowIncreasing(G, L, n, G - 1); }
    }
  }

  /** How many groups the schedule really takes to the host: with as many groups as layers
      the copy of every group but the first is started before the group has any tensor. */
  function Hosted(G: int, L: int): int { if G < L then G else Min(G, 1) }

  /** The copy of group `i + 1` starts when group `i` is freed; every group is complete when
      its copy starts exactly if all groups are really taken to the host. */
  lemma HostedAllIff(G: int, L: int)
    requires 1 <= G <= L
    ensures (forall i :: 0 <= i < G - 1 ==> Window(G, L, i) >= i + 1) <==> Hosted(G, L) == G
  {
    if G < L {
      WindowAfterOwnCommit(G, L);
    } else if G > 1 {
      WindowFull(L, 0);
      assert Window(G, L, 0) < 0 + 1;
    }
  }

  /** The commit of layer `c` frees one more group exactly when the table says so. */
  lemma FreedStep(G: int, L: int, c: int, n: int)
    requires 1 <= G <= L
    requires 0 <= c < L
    requires Freed(G, L, c, n)
    ensures n < G
    ensures Freed(G, L, c + 1, if Window(G, L, n) == c then n + 1 else n)
  {
    hide Window;
    FreedLag(G, L, c, n);
    if n + 1 < G { WindowIncreasing(G, L, n, n + 1); }
  }

  /** Read backwards: the commit of layer `c` in the backward pass brings back one group
      exactly when the forward commit of that layer freed one. `count` is the handler's
      counter, which never drops below one before layer 0. */
  lemma FreedStepBack(G: int, L: int, c: int, n: int, count: int)
    requires 1 <= G <= L
    requires 0 <= c < L
    requires Freed(G, L, c + 1, n)
    requires count == if n == 0 then 1 else n
    ensures 1 <= count <= G
    ensures Freed(G, L, c, if Window(G, L, count - 1) == c then n - 1 else n)
    ensures Window(G, L, count - 1) == c ==> 0 < n == count
  {
    hide Window;
    if n > 1 { WindowIncreasing(G, L, n - 2, n - 1); }
  }

  /** The bound of the docstring (lines 503-504): over the whole run at most one
      group besides the current one is unfreed, exactly for the caller's choice
      of group count (line 543). */
  lemma AtMostTwoIff(G: int, L: int)
    requires 1 <= G < L
    ensures (forall c, n :: 0 <= c < L && Freed(G, L, c, n) ==> c - n <= 1) <==> G == L - 1
  {
    WindowLast(G, L);
    if G == L - 1 {
      forall c, n | 0 <= c < L && Freed(G, L, c, n) ensures c - n <= 1 {
        if n < G { WindowTight(L, n); }
      }
    } else {
      if G > 1 { WindowIncreasing(G, L, G - 2, G - 1); }
      assert Freed(G, L, L - 1, G - 1);
    }
  }

  /** With one group per layer but the last, group `i` is freed at commit `i + 1`. */
  lemma WindowTight(L: int, i: int)
    requires 2 <= L
    requires 0 <= i < L - 1
    ensures Window(L - 1, L, i) == i + 1
  {
    if L == 2 {
      assert L / (L - 1) == 2 && L % (L - 1) == 0;
    } else {
      assert L / (L - 1) == 1 && L % (L - 1) == 1 by {
        assert L == 1 * (L - 1) + 1;
      }
    }
  }
}
