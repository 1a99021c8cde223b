/** Who reads from whom (verl/checkpoint_engine/nixl_checkpoint_engine.py, lines 288-330). */
module NixlTopology {
  import opened Basics

  /** A Python slice bound: negative counts from the end, and both are clamped. */
  function Clamp(i: int, n: nat): nat {
    var j := if i < 0 then i + n else i;
    if j < 0 then 0 else if j > n then n else j
  }

  function Slice<T>(s: seq<T>, lo: int, hi: int): seq<T> {
    var a, b := Clamp(lo, |s|), Clamp(hi, |s|);
    if a <= b then s[a..b] else []
  }

  function From<T>(s: seq<T>, lo: int): seq<T> { s[Clamp(lo, |s|)..] }

  function Agents<T>(s: seq<T>): seq<Option<T>> { seq(|s|, i requires 0 <= i < |s| => Some(s[i])) }

  /** The neighbours each rollout rank is told, as the code slices them. */
  function PrevAgents<T>(metadata: seq<T>, R: nat): seq<Option<T>>
    requires metadata != []
  {
    [Some(metadata[0])] + Agents(Slice(metadata, 0 - R, -1))
  }

  function NextAgents<T>(metadata: seq<T>, R: nat): seq<Option<T>> {
    Agents(From(metadata, 1 - R)) + [None]
  }

  /** `s[i]` with a negative index from the end. */
  function Item<T>(s: seq<T>, i: int): T
    requires -|s| <= i < 0
  {
    s[|s| + i]
  }

  /** The next agents the trainer's ranks are told: only rank 0 has one (line 294). */
  function TrainerNextAgents<T>(metadata: seq<T>, trainers: nat, R: nat): seq<Option<T>>
    requires 1 <= R <= |metadata| && 1 <= trainers
  {
    [Some(Item(metadata, 0 - R))] + seq(trainers - 1, _ => None)
  }

  /** Trainer rank 0 is followed by the first rollout rank and no other trainer rank by
      anyone. Rollout rank `i` (counting from 0) sits behind agent `T - 1 + i` of the
      metadata list, the first one behind trainer rank 0, and the last one has nobody
      behind it. */
  ghost predicate IsChain<A>(metadata: seq<A>, T: nat, R: nat, trainerNext: seq<Option<A>>, prev: seq<Option<A>>,
                             next: seq<Option<A>>)
    requires |metadata| == T + R && 1 <= T && 1 <= R
  {
    && |trainerNext| == T && |prev| == R && |next| == R
    && trainerNext[0] == Some(metadata[T]) && (forall i :: 1 <= i < T ==> trainerNext[i] == None)
    && prev[0] == Some(metadata[0])
    && (forall i :: 1 <= i < R ==> prev[i] == Some(metadata[T + i - 1]))
    && (forall i :: 0 <= i < R - 1 ==> next[i] == Some(metadata[T + i + 1]))
    && next[R - 1] == None
  }

  /** The topology is a chain from the trainer through all rollout ranks exactly when there
      are at least two of them: with one, `-R + 1` is 0 and the slice is the whole list. */
  lemma ChainIff<A>(metadata: seq<A>, T: nat, R: nat)
    requires |metadata| == T + R && 1 <= T && 1 <= R
    ensures
      IsChain(metadata, T, R, TrainerNextAgents(metadata, T, R), PrevAgents(metadata, R), NextAgents(metadata, R))
      <==> R >= 2
    ensures R == 1 ==> NextAgents(metadata, R)[0] == Some(metadata[0])
  {
    if R == 1 {
      assert |NextAgents(metadata, R)| == T + 2;
    }
  }
}
