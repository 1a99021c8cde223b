/** Round-robin tensor buckets of the Kimi checkpoint engine
    (verl/checkpoint_engine/kimi_checkpoint_engine.py, lines 37-63). */
module NamedBuckets {
  import opened Basics
  import opened Blocks

  /** A named tensor; `size` is its bytes in the rollout type. */
  datatype Named<T> = Named(name: string, size: nat, tensor: T)

  datatype Outcome<T> = Buckets(buckets: seq<seq<Named<T>>>) | ValueError | ZeroDivision

  // ---------- a rank's share ----------

  /** The rank that packs tensor `j`. */
  function Owner(j: nat, world: nat): (rank: nat)
    requires world > 0
    ensures rank < world
  {
    j % world
  }

  /** The tensor's place in its rank's share. */
  function Slot(j: nat, world: nat): nat
    requires world > 0
  {
    j / world
  }

  /** The tensors whose position is `rank` modulo `world`, in order. */
  function Share<T>(items: seq<T>, world: nat, rank: nat): seq<T>
    requires world > 0
  {
    if items == [] then []
    else
      Share(items[..|items| - 1], world, rank)
      + (if Owner(|items| - 1, world) == rank then [items[|items| - 1]] else [])
  }

  /** How many of the first `n` positions are `rank` modulo `world`. */
  function Count(n: nat, world: nat, rank: nat): nat
    requires rank < world
  {
    (n + world - 1 - rank) / world
  }

  lemma CountStep(n: nat, world: nat, rank: nat)
    requires rank < world
    ensures Count(n + 1, world, rank) == Count(n, world, rank) + (if Owner(n, world) == rank then 1 else 0)
    ensures Owner(n, world) == rank ==> Count(n, world, rank) == Slot(n, world)
  {
    var q, r := n / world, n % world;
    StartIsProduct(q, world);
    assert n == Start(q, world) + r;
    var rest := r + world - 1 - rank;
    if rest + 1 < world {
      Place(q, rest, world);
      Place(q, rest + 1, world);
    } else if rest < world {
      Place(q, rest, world);
      Place(q + 1, 0, world);
    } else {
      Place(q + 1, rest - world, world);
      Place(q + 1, rest + 1 - world, world);
    }
  }

  /** Tensor `j` is item `j / world` of rank `j % world`, and a rank has no other items. */
  lemma {:induction false} ShareExact<T>(items: seq<T>, world: nat, rank: nat)
    requires rank < world
    ensures |Share(items, world, rank)| == Count(|items|, world, rank)
    ensures forall j :: 0 <= j < |items| && Owner(j, world) == rank ==>
      Slot(j, world) < |Share(items, world, rank)| && Share(items, world, rank)[Slot(j, world)] == items[j]
  {
    if items == [] {
      Place(0, world - 1 - rank, world);
    } else {
      var front := items[..|items| - 1];
      ShareExact(front, world, rank);
      CountStep(|front|, world, rank);
      hide Owner, Slot;
      var share, next := Share(front, world, rank), Share(items, world, rank);
      assert share <= next && (Owner(|front|, world) == rank ==> next == share + [items[|front|]]);
      hide Count, Share;
      forall j | 0 <= j < |items| && Owner(j, world) == rank
        ensures Slot(j, world) < |next| && next[Slot(j, world)] == items[j]
      {
        if j < |front| { assert front[j] == items[j]; }
      }
    }
  }

  /** Item `i` is tensor `i * world + rank`. */
  ghost predicate EveryNth<T>(items: seq<T>, world: nat, rank: nat, share: seq<T>) {
    forall i :: 0 <= i < |share| ==> 0 <= i * world + rank < |items| && share[i] == items[i * world + rank]
  }

  /** Read the other way: item `i` of rank `rank` is tensor `i * world + rank`. */
  lemma ShareAt<T>(items: seq<T>, world: nat, rank: nat, i: nat)
    requires rank < world && i < |Share(items, world, rank)|
    ensures i * world + rank < |items| && Share(items, world, rank)[i] == items[i * world + rank]
  {
    ShareExact(items, world, rank);
    CountBound(|items|, world, rank, i);
    StartIsProduct(i, world);
    Place(i, rank, world);
  }

  lemma ShareIsEveryNth<T>(items: seq<T>, world: nat, rank: nat)
    requires rank < world
    ensures EveryNth(items, world, rank, Share(items, world, rank))
  {
    var share := Share(items, world, rank);
    forall i | 0 <= i < |share| ensures 0 <= i * world + rank < |items| && share[i] == items[i * world + rank] {
      ShareAt(items, world, rank, i);
    }
  }

  lemma CountBound(n: nat, world: nat, rank: nat, i: nat)
    requires rank < world && i < Count(n, world, rank)
    ensures i * world + rank < n
  {
    Scale(i + 1, Count(n, world, rank), world);
    assert (i + 1) * world == i * world + world;
  }

  /** The shares of the ranks `0` up to `ranks` together. */
  function TotalCount(n: nat, world: nat, ranks: nat): nat
    requires ranks <= world
  {
    if ranks == 0 then 0 else TotalCount(n, world, ranks - 1) + Count(n, world, ranks - 1)
  }

  lemma {:induction false} TotalStep(n: nat, world: nat, ranks: nat)
    requires ranks <= world && world > 0
    ensures TotalCount(n + 1, world, ranks) == TotalCount(n, world, ranks) + (if Owner(n, world) < ranks then 1 else 0)
  {
    if ranks > 0 {
      TotalStep(n, world, ranks - 1);
      CountStep(n, world, ranks - 1);
    }
  }

  lemma {:induction false} NothingAtStart(world: nat, ranks: nat)
    requires ranks <= world
    ensures TotalCount(0, world, ranks) == 0
  {
    if ranks > 0 {
      NothingAtStart(world, ranks - 1);
      Place(0, world - ranks, world);
    }
  }

  /** All shares together have as many tensors as there are. */
  lemma {:induction false} SharesCover(n: nat, world: nat)
    requires world > 0
    ensures TotalCount(n, world, world) == n
  {
    if n == 0 {
      NothingAtStart(world, world);
    } else {
      SharesCover(n - 1, world);
      TotalStep(n - 1, world, world);
    }
  }

  // ---------- packing ----------

  function Size<T>(group: seq<Named<T>>): nat {
    if group == [] then 0 else Size(group[..|group| - 1]) + group[|group| - 1].size
  }

  /** The closed groups, and the one under way, after the tensors. */
  function Pack<T>(items: seq<Named<T>>, limit: int): (p: (seq<seq<Named<T>>>, seq<Named<T>>))
    ensures p.1 == [] <==> items == []
    ensures items == [] ==> p.0 == []
  {
    if items == [] then ([], [])
    else
      var (closed, current) := Pack(items[..|items| - 1], limit);
      var item := items[|items| - 1];
      if current != [] && Size(current) + item.size > limit then (closed + [current], [item])
      else (closed, current + [item])
  }

  function Groups<T>(items: seq<Named<T>>, limit: int): seq<seq<Named<T>>> {
    var (closed, current) := Pack(items, limit);
    if current == [] then closed else closed + [current]
  }

  lemma AppendItem<T>(closed: seq<T>, current: seq<T>, item: T)
    ensures (closed + current) + [item] == closed + (current + [item])
  {
  }

  lemma {:induction false} PackKeepsOrder<T>(items: seq<Named<T>>, limit: int)
    ensures Flatten(Pack(items, limit).0) + Pack(items, limit).1 == items
  {
    hide Flatten;
    if items == [] {
      assert Flatten<Named<T>>([]) == [] by { FlattenNothing<Named<T>>(); }
    } else {
      var front, item := items[..|items| - 1], items[|items| - 1];
      PackKeepsOrder(front, limit);
      var (closed, current) := Pack(front, limit);
      assert Pack(items, limit) == (closed + [current], [item]) || Pack(items, limit) == (closed, current + [item]);
      hide Pack;
      FlattenSnoc(closed, current);
      AppendItem(Flatten(closed), current, item);
      assert items == front + [item];
    }
  }

  lemma FlattenNothing<T>()
    ensures Flatten<T>([]) == []
  {
  }

  /** Within the limit, unless it is a single oversized tensor. */
  predicate Fits<T>(group: seq<Named<T>>, limit: int) {
    group != [] && (Size(group) <= limit || |group| == 1)
  }

  /** A next tensor was turned away only because it did not fit. */
  predicate Full<T>(group: seq<Named<T>>, next: seq<Named<T>>, limit: int) {
    next != [] && Size(group) + next[0].size > limit
  }

  /** Every closed group fits and turned the tensor after it away; so did the last of them
      with the first tensor of the group under way. */
  ghost predicate ClosedFull<T>(closed: seq<seq<Named<T>>>, current: seq<Named<T>>, limit: int) {
    && (forall i :: 0 <= i < |closed| ==> Fits(closed[i], limit))
    && (forall i :: 0 <= i < |closed| - 1 ==> Full(closed[i], closed[i + 1], limit))
    && (closed != [] ==> Full(closed[|closed| - 1], current, limit))
  }

  lemma CloseOne<T>(closed: seq<seq<Named<T>>>, current: seq<Named<T>>, item: Named<T>, limit: int)
    requires ClosedFull(closed, current, limit) && Fits(current, limit) && Size(current) + item.size > limit
    ensures ClosedFull(closed + [current], [item], limit)
  {
  }

  lemma StayOpen<T>(closed: seq<seq<Named<T>>>, current: seq<Named<T>>, item: Named<T>, limit: int)
    requires ClosedFull(closed, current, limit) && (current == [] ==> closed == [])
    ensures ClosedFull(closed, current + [item], limit)
  {
    assert current != [] ==> (current + [item])[0] == current[0];
  }

  lemma {:induction false} PackFits<T>(items: seq<Named<T>>, limit: int)
    ensures ClosedFull(Pack(items, limit).0, Pack(items, limit).1, limit)
    ensures items != [] ==> Fits(Pack(items, limit).1, limit)
  {
    if items != [] {
      var front, item := items[..|items| - 1], items[|items| - 1];
      PackFits(front, limit);
      var (closed, current) := Pack(front, limit);
      assert Pack(items, limit) ==
        if current != [] && Size(current) + item.size > limit then (closed + [current], [item])
        else (closed, current + [item]);
      SizeSnoc(current, item);
      SizeSnoc([], item);
      assert [] + [item] == [item];
      hide Pack, Size, ClosedFull;
      if current != [] && Size(current) + item.size > limit { CloseOne(closed, current, item, limit); }
      else { StayOpen(closed, current, item, limit); }
    }
  }

  lemma SizeSnoc<T>(group: seq<Named<T>>, item: Named<T>)
    ensures Size(group + [item]) == Size(group) + item.size
    ensures Size<T>([]) == 0
  {
    assert (group + [item])[..|group|] == group;
  }

  /** All groups together fit and are full, once the last one is closed. */
  lemma LastFits<T>(closed: seq<seq<Named<T>>>, current: seq<Named<T>>, limit: int)
    requires ClosedFull(closed, current, limit) && Fits(current, limit)
    ensures forall i :: 0 <= i < |closed + [current]| ==> Fits((closed + [current])[i], limit)
    ensures forall i :: 0 <= i < |closed + [current]| - 1 ==>
      Full((closed + [current])[i], (closed + [current])[i + 1], limit)
  {
    hide Fits, Full;
  }

  lemma GroupsExact<T>(items: seq<Named<T>>, limit: int)
    ensures Flatten(Groups(items, limit)) == items
    ensures forall i :: 0 <= i < |Groups(items, limit)| ==> Fits(Groups(items, limit)[i], limit)
    ensures forall i :: 0 <= i < |Groups(items, limit)| - 1 ==>
      Full(Groups(items, limit)[i], Groups(items, limit)[i + 1], limit)
  {
    hide Flatten, Fits, Full, ClosedFull;
    PackKeepsOrder(items, limit);
    PackFits(items, limit);
    var (closed, current) := Pack(items, limit);
    assert Groups(items, limit) == if current == [] then closed else closed + [current];
    hide Pack, Groups;
    if items == [] { FlattenNothing<Named<T>>(); } else {
      FlattenSnoc(closed, current);
      LastFits(closed, current, limit);
    }
  }

  // ---------- buckets are dictionaries ----------

  predicate Holds<T>(bucket: seq<Named<T>>, name: string) {
    exists i :: 0 <= i < |bucket| && bucket[i].name == name
  }

  /** `bucket[name] = tensor` on a dictionary kept in insertion order. */
  function Put<T>(bucket: seq<Named<T>>, item: Named<T>): (r: seq<Named<T>>)
    ensures |r| == if Holds(bucket, item.name) then |bucket| else |bucket| + 1
    decreases |bucket|
  {
    if bucket == [] then [item]
    else if bucket[0].name == item.name then [item] + bucket[1..]
    else
      assert bucket[1..] == bucket[1..] && forall i :: 0 < i < |bucket| ==> bucket[1..][i - 1] == bucket[i];
      [bucket[0]] + Put(bucket[1..], item)
  }

  function AsDict<T>(group: seq<Named<T>>): (bucket: seq<Named<T>>)
    ensures |bucket| <= |group|
    ensures bucket == [] <==> group == []
  {
    if group == [] then [] else Put(AsDict(group[..|group| - 1]), group[|group| - 1])
  }

  function AsDicts<T>(groups: seq<seq<Named<T>>>): seq<seq<Named<T>>> {
    if groups == [] then [] else AsDicts(groups[..|groups| - 1]) + [AsDict(groups[|groups| - 1])]
  }

  predicate Distinct<T>(group: seq<Named<T>>) {
    forall i, j :: 0 <= i < j < |group| ==> group[i].name != group[j].name
  }

  lemma {:induction false} PutNew<T>(bucket: seq<Named<T>>, item: Named<T>)
    requires !Holds(bucket, item.name)
    ensures Put(bucket, item) == bucket + [item]
  {
    if bucket != [] {
      assert bucket[0].name != item.name;
      assert forall i :: 0 <= i < |bucket[1..]| ==> bucket[1..][i] == bucket[i + 1];
      PutNew(bucket[1..], item);
    }
  }

  /** A dictionary keeps the whole group exactly when its names are distinct. */
  lemma {:induction false} DictKeepsIff<T>(group: seq<Named<T>>)
    ensures Distinct(group) ==> AsDict(group) == group
    ensures !Distinct(group) ==> |AsDict(group)| < |group|
  {
    if group != [] {
      var front, last := group[..|group| - 1], group[|group| - 1];
      DictKeepsIff(front);
      assert group == front + [last];
      DistinctSnoc(front, last);
      if !Holds(front, last.name) { PutNew(front, last); }
      hide Distinct, Holds;
    }
  }

  lemma DistinctSnoc<T>(front: seq<Named<T>>, last: Named<T>)
    ensures Distinct(front + [last]) <==> Distinct(front) && !Holds(front, last.name)
  {
    var group := front + [last];
    if Distinct(group) {
      forall i, j | 0 <= i < j < |front| ensures front[i].name != front[j].name {
        assert group[i].name != group[j].name;
      }
    }
    if i :| 0 <= i < |front| && front[i].name == last.name {
      assert group[i].name == group[|front|].name;
    }
  }

  /** The last tensor of the group with its name. */
  ghost predicate IsLast<T>(group: seq<Named<T>>, i: int) {
    0 <= i < |group| && forall j :: i < j < |group| ==> group[j].name != group[i].name
  }

  ghost predicate HasLast<T>(group: seq<Named<T>>, item: Named<T>) { exists i :: IsLast(group, i) && group[i] == item }

  /** Name `a` occurs, and not after name `b`. */
  ghost predicate ComesFirst<T>(group: seq<Named<T>>, a: string, b: string) {
    exists i :: 0 <= i < |group| && group[i].name == a && !Holds(group[..i], b)
  }

  /** A dictionary has every name of the group once, with the last tensor under it, and its
      names in the order in which they came first. */
  ghost predicate IsDictOf<T>(bucket: seq<Named<T>>, group: seq<Named<T>>) {
    && Distinct(bucket)
    && (forall i :: 0 <= i < |group| ==> Holds(bucket, group[i].name))
    && (forall b :: 0 <= b < |bucket| ==> HasLast(group, bucket[b]))
    && (forall b, c :: 0 <= b < c < |bucket| ==> ComesFirst(group, bucket[b].name, bucket[c].name))
  }

  lemma {:induction false} PutReplaces<T>(bucket: seq<Named<T>>, item: Named<T>, b: nat)
    requires b < |bucket| && bucket[b].name == item.name && Distinct(bucket)
    ensures Put(bucket, item) == bucket[b := item] && Distinct(bucket[b := item])
  {
    if b > 0 {
      assert forall a :: 0 <= a < |bucket| - 1 ==> bucket[1..][a] == bucket[a + 1];
      PutReplaces(bucket[1..], item, b - 1);
    }
  }

  lemma LastSnoc<T>(front: seq<Named<T>>, item: Named<T>, x: Named<T>)
    ensures HasLast(front, x) && x.name != item.name ==> HasLast(front + [item], x)
    ensures HasLast(front + [item], item)
  {
    var group := front + [item];
    assert IsLast(group, |front|) && group[|front|] == item;
    if HasLast(front, x) && x.name != item.name {
      var i :| IsLast(front, i) && front[i] == x;
      assert IsLast(group, i) && group[i] == x;
    }
  }

  lemma FirstSnoc<T>(front: seq<Named<T>>, item: Named<T>, a: string, b: string)
    ensures ComesFirst(front, a, b) ==> ComesFirst(front + [item], a, b)
    ensures Holds(front, a) && !Holds(front, b) ==> ComesFirst(front + [item], a, b)
  {
    var group := front + [item];
    if ComesFirst(front, a, b) {
      var i :| 0 <= i < |front| && front[i].name == a && !Holds(front[..i], b);
      assert group[..i] == front[..i] && group[i] == front[i];
    }
    if Holds(front, a) && !Holds(front, b) {
      var i :| 0 <= i < |front| && front[i].name == a;
      assert group[i].name == a;
      assert forall k :: 0 <= k < i ==> group[..i][k] == front[k];
    }
  }

  lemma LastIsHeld<T>(group: seq<Named<T>>, x: Named<T>)
    requires HasLast(group, x)
    ensures Holds(group, x.name)
  {
    var i :| IsLast(group, i) && group[i] == x;
  }

  lemma SameNames<T>(bucket: seq<Named<T>>, item: Named<T>, b: nat, name: string)
    requires b < |bucket| && bucket[b].name == item.name && (Holds(bucket, name) || name == item.name)
    ensures Holds(bucket[b := item], name)
  {
    if name == item.name {
      assert bucket[b := item][b].name == name;
    } else {
      var c :| 0 <= c < |bucket| && bucket[c].name == name;
      assert bucket[b := item][c].name == name;
    }
  }

  lemma KnownLast<T>(bucket: seq<Named<T>>, front: seq<Named<T>>, item: Named<T>, next: seq<Named<T>>, b: nat)
    requires b < |bucket| && bucket[b].name == item.name && next == bucket[b := item]
    requires Distinct(bucket) && forall c :: 0 <= c < |bucket| ==> HasLast(front, bucket[c])
    ensures forall c :: 0 <= c < |next| ==> HasLast(front + [item], next[c])
  {
    forall c | 0 <= c < |next| ensures HasLast(front + [item], next[c]) { LastSnoc(front, item, next[c]); }
  }

  lemma KnownOrder<T>(bucket: seq<Named<T>>, front: seq<Named<T>>, item: Named<T>, next: seq<Named<T>>)
    requires |next| == |bucket| && forall c :: 0 <= c < |bucket| ==> next[c].name == bucket[c].name
    requires forall b, c :: 0 <= b < c < |bucket| ==> ComesFirst(front, bucket[b].name, bucket[c].name)
    ensures forall b, c :: 0 <= b < c < |next| ==> ComesFirst(front + [item], next[b].name, next[c].name)
  {
    forall b, c | 0 <= b < c < |next| ensures ComesFirst(front + [item], next[b].name, next[c].name) {
      FirstSnoc(front, item, next[b].name, next[c].name);
    }
  }

  lemma KnownNames<T>(bucket: seq<Named<T>>, front: seq<Named<T>>, item: Named<T>, b: nat)
    requires b < |bucket| && bucket[b].name == item.name
    requires forall i :: 0 <= i < |front| ==> Holds(bucket, front[i].name)
    ensures forall i :: 0 <= i < |front + [item]| ==> Holds(bucket[b := item], (front + [item])[i].name)
  {
    hide Holds;
    forall i | 0 <= i < |front + [item]| ensures Holds(bucket[b := item], (front + [item])[i].name) {
      SameNames(bucket, item, b, (front + [item])[i].name);
    }
  }

  lemma PutKnown<T>(bucket: seq<Named<T>>, front: seq<Named<T>>, item: Named<T>)
    requires IsDictOf(bucket, front) && Holds(bucket, item.name)
    ensures IsDictOf(Put(bucket, item), front + [item])
  {
    var b :| 0 <= b < |bucket| && bucket[b].name == item.name;
    hide HasLast, ComesFirst, Holds, Put, Distinct;
    PutReplaces(bucket, item, b);
    KnownNames(bucket, front, item, b);
    KnownLast(bucket, front, item, bucket[b := item], b);
    KnownOrder(bucket, front, item, bucket[b := item]);
  }

  lemma UnknownNames<T>(bucket: seq<Named<T>>, front: seq<Named<T>>, item: Named<T>)
    requires forall i :: 0 <= i < |front| ==> Holds(bucket, front[i].name)
    ensures forall i :: 0 <= i < |front + [item]| ==> Holds(bucket + [item], (front + [item])[i].name)
  {
    var next, group := bucket + [item], front + [item];
    forall i | 0 <= i < |group| ensures Holds(next, group[i].name) {
      if i < |front| {
        var c :| 0 <= c < |bucket| && bucket[c].name == front[i].name;
        assert next[c].name == group[i].name;
      } else {
        assert next[|bucket|].name == group[i].name;
      }
    }
  }

  lemma UnknownOrder<T>(bucket: seq<Named<T>>, front: seq<Named<T>>, item: Named<T>)
    requires forall c :: 0 <= c < |bucket| ==> HasLast(front, bucket[c])
    requires forall i :: 0 <= i < |front| ==> front[i].name != item.name
    requires forall b, c :: 0 <= b < c < |bucket| ==> ComesFirst(front, bucket[b].name, bucket[c].name)
    ensures var next := bucket + [item];
      forall b, c :: 0 <= b < c < |next| ==> ComesFirst(front + [item], next[b].name, next[c].name)
  {
    var next := bucket + [item];
    hide HasLast, ComesFirst;
    forall b, c | 0 <= b < c < |next| ensures ComesFirst(front + [item], next[b].name, next[c].name) {
      LastIsHeld(front, next[b]);
      FirstSnoc(front, item, next[b].name, next[c].name);
    }
  }

  lemma UnknownLast<T>(bucket: seq<Named<T>>, front: seq<Named<T>>, item: Named<T>)
    requires forall c :: 0 <= c < |bucket| ==> HasLast(front, bucket[c]) && bucket[c].name != item.name
    ensures forall c :: 0 <= c < |bucket + [item]| ==> HasLast(front + [item], (bucket + [item])[c])
  {
    hide HasLast;
    forall c | 0 <= c < |bucket + [item]| ensures HasLast(front + [item], (bucket + [item])[c]) {
      LastSnoc(front, item, (bucket + [item])[c]);
    }
  }

  lemma PutUnknown<T>(bucket: seq<Named<T>>, front: seq<Named<T>>, item: Named<T>)
    requires IsDictOf(bucket, front) && !Holds(bucket, item.name)
    ensures IsDictOf(Put(bucket, item), front + [item])
  {
    PutNew(bucket, item);
    DistinctSnoc(bucket, item);
    assert forall c :: 0 <= c < |bucket| ==> bucket[c].name != item.name;
    hide HasLast, ComesFirst, Holds, Put, Distinct;
    UnknownNames(bucket, front, item);
    UnknownLast(bucket, front, item);
    UnknownOrder(bucket, front, item);
  }

  /** A bucket is the dictionary of its group, also when the group repeats a name. */
  lemma {:induction false} AsDictExact<T>(group: seq<Named<T>>)
    ensures IsDictOf(AsDict(group), group)
  {
    if group != [] {
      var front, item := group[..|group| - 1], group[|group| - 1];
      AsDictExact(front);
      assert group == front + [item];
      hide IsDictOf;
      if Holds(AsDict(front), item.name) { PutKnown(AsDict(front), front, item); }
      else { PutUnknown(AsDict(front), front, item); }
    }
  }

  lemma {:induction false} DictsKeepIff<T>(groups: seq<seq<Named<T>>>)
    ensures (forall i :: 0 <= i < |groups| ==> Distinct(groups[i])) ==> AsDicts(groups) == groups
    ensures (exists i :: 0 <= i < |groups| && !Distinct(groups[i])) ==>
      |Flatten(AsDicts(groups))| < |Flatten(groups)|
    ensures |Flatten(AsDicts(groups))| <= |Flatten(groups)|
  {
    if groups != [] {
      var front, last := groups[..|groups| - 1], groups[|groups| - 1];
      DictsKeepIff(front);
      DictKeepsIff(last);
      assert groups == front + [last];
      FlattenSnoc(front, last);
      FlattenSnoc(AsDicts(front), AsDict(last));
      if i :| 0 <= i < |groups| && !Distinct(groups[i]) {
        if i < |front| { assert !Distinct(front[i]); }
      }
    }
  }

  // ---------- the generator ----------

  lemma AsDictsSnoc<T>(groups: seq<seq<Named<T>>>, group: seq<Named<T>>)
    ensures AsDicts(groups + [group]) == AsDicts(groups) + [AsDict(group)]
  {
    assert (groups + [group])[..|groups|] == groups;
  }

  /** The generator's variables after the tensors of `share`. */
  ghost predicate Packing<T>(share: seq<Named<T>>, limit: int, yielded: seq<seq<Named<T>>>,
                             current: seq<Named<T>>, currentSize: nat) {
    var (closed, group) := Pack(share, limit);
    yielded == AsDicts(closed) && current == AsDict(group) && currentSize == Size(group)
  }

  /** One round of the loop of lines 49-59 for a tensor of the rank. */
  method Take<T>(yielded: seq<seq<Named<T>>>, current: seq<Named<T>>, currentSize: nat, item: Named<T>, limit: int,
                 ghost share: seq<Named<T>>)
    returns (y: seq<seq<Named<T>>>, c: seq<Named<T>>, n: nat)
    requires Packing(share, limit, yielded, current, currentSize)
    ensures Packing(share + [item], limit, y, c, n)
  {
    ghost var (closed, group) := Pack(share, limit);
    assert (share + [item])[..|share|] == share;
    AsDictsSnoc(closed, group);
    assert (group + [item])[..|group|] == group;
    y, c, n := yielded, current, currentSize;
    if currentSize + item.size > limit {
      if current != [] {
        y := y + [current];
        c := [];
        n := 0;
      }
    }
    c := Put(c, item);
    n := n + item.size;
  }

  lemma ShareSnoc<T>(items: seq<T>, i: nat, world: nat, rank: nat)
    requires world > 0 && i < |items|
    ensures Share(items[..i + 1], world, rank) ==
      if Owner(i, world) == rank then Share(items[..i], world, rank) + [items[i]] else Share(items[..i], world, rank)
  {
    assert items[..i + 1][..i] == items[..i];
  }

  /** The buckets a rank yields: its share, packed in order, each bucket a dictionary. */
  method NamedTensorBuckets<T>(items: seq<Named<T>>, limit: int, world: nat, rank: nat) returns (r: Outcome<T>)
    ensures r.ValueError? <==> limit <= 0
    ensures r.ZeroDivision? <==> limit > 0 && world == 0 && items != []
    ensures r.Buckets? && world == 0 ==> r.buckets == []
    ensures r.Buckets? && world > 0 ==> r.buckets == AsDicts(Groups(Share(items, world, rank), limit))
  {
    if limit <= 0 { return ValueError; }
    if world == 0 {
      if items == [] { return Buckets([]); } else { return ZeroDivision; }
    }
    var yielded: seq<seq<Named<T>>> := [];
    var current: seq<Named<T>> := [];
    var currentSize: nat := 0;
    for i := 0 to |items|
      invariant Packing(Share(items[..i], world, rank), limit, yielded, current, currentSize)
    {
      hide Packing;
      ShareSnoc(items, i, world, rank);
      if Owner(i, world) == rank {
        yielded, current, currentSize :=
          Take(yielded, current, currentSize, items[i], limit, Share(items[..i], world, rank));
      }
    }
    assert items[..|items|] == items;
    ghost var (closed, group) := Pack(Share(items, world, rank), limit);
    AsDictsSnoc(closed, group);
    if current != [] { yielded := yielded + [current]; }
    r := Buckets(yielded);
  }

  /** A rank's buckets hold its whole share exactly when no packed group repeats a name. */
  lemma BucketsExactIff<T>(items: seq<Named<T>>, limit: int, world: nat, rank: nat)
    requires limit > 0 && world > 0
    ensures var share := Share(items, world, rank);
      Flatten(AsDicts(Groups(share, limit))) == share <==>
      forall i :: 0 <= i < |Groups(share, limit)| ==> Distinct(Groups(share, limit)[i])
  {
    var share := Share(items, world, rank);
    GroupsExact(share, limit);
    DictsKeepIff(Groups(share, limit));
  }

  lemma {:induction false} ShareIsDistinct<T>(items: seq<Named<T>>, world: nat, rank: nat)
    requires world > 0 && Distinct(items)
    ensures Distinct(Share(items, world, rank))
    ensures forall x :: x in Share(items, world, rank) ==> x in items
  {
    if items != [] {
      var front := items[..|items| - 1];
      ShareIsDistinct(front, world, rank);
      forall x | x in Share(front, world, rank) ensures x.name != items[|items| - 1].name && x in items {
        var i :| 0 <= i < |front| && front[i] == x;
        assert items[i] == x;
      }
    }
  }

  lemma {:induction false} GroupsAreDistinct<T>(groups: seq<seq<Named<T>>>)
    requires Distinct(Flatten(groups))
    ensures forall i :: 0 <= i < |groups| ==> Distinct(groups[i])
  {
    if groups != [] {
      var whole, rest := Flatten(groups), Flatten(groups[1..]);
      assert forall i :: 0 <= i < |groups[0]| ==> groups[0][i] == whole[i];
      assert forall i :: 0 <= i < |rest| ==> rest[i] == whole[|groups[0]| + i];
      GroupsAreDistinct(groups[1..]);
      assert forall i :: 0 < i < |groups| ==> groups[i] == groups[1..][i - 1];
    }
  }

  ghost predicate RankOk<T>(items: seq<Named<T>>, limit: int, world: nat, rank: nat, buckets: seq<seq<Named<T>>>)
    requires world > 0
  {
    && Flatten(buckets) == Share(items, world, rank)
    && (forall b :: 0 <= b < |buckets| ==> Fits(buckets[b], limit))
    && (forall b :: 0 <= b < |buckets| - 1 ==> Full(buckets[b], buckets[b + 1], limit))
  }

  /** A rank's generator, for distinctly named tensors: its share in order, every bucket
      within the limit unless it holds one oversized tensor. */
  method OneRank<T>(items: seq<Named<T>>, limit: int, world: nat, rank: nat) returns (buckets: seq<seq<Named<T>>>)
    requires limit > 0 && world > 0 && Distinct(items)
    ensures RankOk(items, limit, world, rank, buckets)
  {
    var r := NamedTensorBuckets(items, limit, world, rank);
    var share := Share(items, world, rank);
    ShareIsDistinct(items, world, rank);
    GroupsExact(share, limit);
    GroupsAreDistinct(Groups(share, limit));
    DictsKeepIff(Groups(share, limit));
    buckets := r.buckets;
  }

  /** Every rank's generator: tensor `j` is item `j / world` of rank `j % world`, and nothing
      is added. */
  method AllRanks<T>(items: seq<Named<T>>, limit: int, world: nat) returns (all: seq<seq<seq<Named<T>>>>)
    requires limit > 0 && world > 0 && Distinct(items)
    ensures |all| == world && TotalCount(|items|, world, world) == |items|
    ensures forall rank :: 0 <= rank < world ==>
      RankOk(items, limit, world, rank, all[rank]) && |Flatten(all[rank])| == Count(|items|, world, rank)
    ensures forall j :: 0 <= j < |items| ==>
      Slot(j, world) < |Flatten(all[Owner(j, world)])| && Flatten(all[Owner(j, world)])[Slot(j, world)] == items[j]
    ensures forall rank :: 0 <= rank < world ==> EveryNth(items, world, rank, Flatten(all[rank]))
  {
    all := [];
    hide Owner, Slot, Count, TotalCount, Share, Fits, Full, Distinct, Flatten, EveryNth;
    SharesCover(|items|, world);
    for rank := 0 to world
      invariant |all| == rank
      invariant forall i :: 0 <= i < rank ==>
        RankOk(items, limit, world, i, all[i]) && |Flatten(all[i])| == Count(|items|, world, i)
    {
      var buckets := OneRank(items, limit, world, rank);
      ShareExact(items, world, rank);
      all := all + [buckets];
    }
    forall rank | 0 <= rank < world ensures EveryNth(items, world, rank, Flatten(all[rank])) {
      assert RankOk(items, limit, world, rank, all[rank]);
      ShareIsEveryNth(items, world, rank);
    }
    forall j | 0 <= j < |items|
      ensures Slot(j, world) < |Flatten(all[Owner(j, world)])| && Flatten(all[Owner(j, world)])[Slot(j, world)] == items[j]
    {
      ShareExact(items, world, Owner(j, world));
      assert RankOk(items, limit, world, Owner(j, world), all[Owner(j, world)]);
    }
  }
}
