/** What the NIXL chain guarantees in every reachable state, and that it always finishes. */
module NixlResults {
  import opened Basics
  import opened WeightChunks
  import opened WeightBuckets
  import opened WeightPlaces
  import opened NixlChain
  import opened NixlSafety

  // ---------- delivery ----------

  /** In every reachable state every receiver has yielded a prefix of the sender's chunk
      sequence, metadata and data together; once it is done it has yielded all of it. */
  lemma DeliversInOrder(bs: Buckets, N: nat, run: seq<State>, i: nat, r: nat)
    requires BucketsOk(bs) && 1 <= N && Run(bs, N, run)
    requires i < |run| && 1 <= r < |run[i]|
    ensures run[i][r].out <= Flatten(bs)
    ensures run[i][r].pc == Done ==> run[i][r].out == Flatten(bs)
  {
    RunInv(bs, N, run);
    assert Inv(bs, run[i]);
    var x := run[i][r];
    assert RankInv(bs, x, r, r + 1 < |run[i]|);
    if !x.pc.First? && !x.pc.FirstRead? {
      FlattenTake(bs, x.k, x.j);
    }
  }

  // ---------- the notification assertion ----------

  /** A rank never has more than one readable operation outstanding, and the notification
      it waits for carries that operation's key, whatever the keys are (line 173). */
  lemma NotifyKeyMatches(bs: Buckets, N: nat, run: seq<State>, i: nat, r: nat)
    requires BucketsOk(bs) && 1 <= N && Run(bs, N, run)
    requires i < |run| && r + 1 < |run[i]|
    ensures var x, y := run[i][r], run[i][r + 1];
      && |y.inbox| + |x.notifs| + (if y.read.InFlight? then 1 else 0) == (if x.op.Some? then 1 else 0)
      && (x.notifs != [] ==> x.op == Some(x.notifs[0]))
  {
    RunInv(bs, N, run);
    assert Inv(bs, run[i]);
    hide Inv;
    Neighbours(bs, run[i], r);
  }

  // ---------- no buffer is overwritten while it is in use ----------

  /** The buffer an action writes to. */
  function WritesTo(x: Rank, a: Action): Option<int> {
    match a
    case FillSlot => Some(x.sel)
    case CopySlot => Some(1 - x.sel)
    case _ => None
  }

  /** The next rank has been told to read buffer `b` and has not finished reading it. */
  ghost predicate ReadableByNext(s: State, r: nat, b: int)
    requires r < |s|
  {
    && r + 1 < |s|
    && ((exists m :: m in s[r + 1].inbox && m.src == b)
        || (s[r + 1].read.InFlight? && s[r + 1].read.src == b))
  }

  /** The local consumer may still look at chunks that were yielded from buffer `b`. */
  predicate Viewed(x: Rank, b: int) {
    b == x.sel && (x.pc.Yield? || x.pc.AwaitAck? || x.pc.AwaitRead?)
  }

  lemma NeverOverwrites(bs: Buckets, N: nat, run: seq<State>, i: nat, r: nat, a: Action)
    requires BucketsOk(bs) && 1 <= N && Run(bs, N, run)
    requires i < |run| && r < |run[i]| && Enabled(bs, run[i], r, a)
    requires WritesTo(run[i][r], a).Some?
    ensures var b := WritesTo(run[i][r], a).value;
      !ReadableByNext(run[i], r, b) && !Viewed(run[i][r], b)
  {
    RunInv(bs, N, run);
    assert Inv(bs, run[i]);
    hide Inv, Consumed;
    Neighbours(bs, run[i], r);
  }

  // ---------- no deadlock ----------

  ghost predicate Stuck(bs: Buckets, s: State, r: nat)
    requires r < |s|
  {
    forall a :: !Enabled(bs, s, r, a)
  }

  /** A rank that cannot move waits for a message, waits for a notification, or is done. */
  predicate AwaitsMessage(x: Rank) { (x.pc.First? || x.pc.AwaitMeta?) && x.inbox == [] }

  predicate AwaitsNotification(x: Rank) { (x.pc.AckBeforeSend? || x.pc.AwaitAck?) && x.op.Some? && x.notifs == [] }

  lemma ReadMoves(bs: Buckets, s: State, r: nat)
    requires BucketsOk(bs) && Inv(bs, s) && r < |s|
    ensures s[r].read == NoRead || !Stuck(bs, s, r)
  {
    hide Inv, Consumed, Link, MetasOf, BucketsOk;
    Neighbours(bs, s, r);
    var x := s[r];
    if x.read.InFlight? {
      SourceHolds(bs, s, r);
      DataAll(bs[Started(x) - 1]);
      hide DataOf;
      if x.read.copied == |s[r - 1].bufs[x.read.src]| {
        assert Enabled(bs, s, r, CopyDone);
      } else {
        assert Enabled(bs, s, r, CopySlot);
      }
    }
  }

  lemma SenderMoves(bs: Buckets, s: State)
    requires BucketsOk(bs) && Inv(bs, s) && 0 < |s|
    ensures AwaitsNotification(s[0]) || s[0].pc == Done || !Stuck(bs, s, 0)
  {
    hide Inv, ReceiverInv, Link;
    Neighbours(bs, s, 0);
    var x := s[0];
    DataAll(bs[x.k]);
    match x.pc {
      case Fill => assert if x.j == |bs[x.k]| then Enabled(bs, s, 0, Full) else Enabled(bs, s, 0, FillSlot);
      case AckBeforeSend => assert Enabled(bs, s, 0, SenderAck) || AwaitsNotification(x);
      case Announce => assert Enabled(bs, s, 0, SenderAnnounce(0));
      case AwaitAck => assert Enabled(bs, s, 0, Ack) || AwaitsNotification(x);
      case _ =>
    }
  }

  lemma ReceiverMoves(bs: Buckets, s: State, r: nat)
    requires BucketsOk(bs) && Inv(bs, s) && 0 < r < |s| && s[r].read == NoRead
    ensures AwaitsMessage(s[r]) || AwaitsNotification(s[r]) || s[r].pc == Done || !Stuck(bs, s, r)
  {
    hide Inv, SenderInv, Link, Consumed, Incoming;
    Neighbours(bs, s, r);
    var x := s[r];
    if x.k < |bs| { DataAll(bs[x.k]); }
    match x.pc {
      case First => assert Enabled(bs, s, r, ReadFirst) || AwaitsMessage(x);
      case FirstRead => assert Enabled(bs, s, r, FinishFirst);
      case Top => assert Enabled(bs, s, r, Relay(0));
      case AwaitMeta => assert Enabled(bs, s, r, ReadNext) || AwaitsMessage(x);
      case Yield => assert if x.j == |x.metas| then Enabled(bs, s, r, YieldEnd) else Enabled(bs, s, r, YieldOne);
      case AwaitAck => assert Enabled(bs, s, r, Ack) || AwaitsNotification(x);
      case AwaitRead => assert Enabled(bs, s, r, Swap);
      case _ =>
    }
  }

  lemma StuckRank(bs: Buckets, s: State, r: nat)
    requires BucketsOk(bs) && Inv(bs, s) && r < |s| && Stuck(bs, s, r)
    ensures s[r].read == NoRead
    ensures AwaitsMessage(s[r]) || AwaitsNotification(s[r]) || s[r].pc == Done
  {
    ReadMoves(bs, s, r);
    if r == 0 { SenderMoves(bs, s); } else { ReceiverMoves(bs, s, r); }
  }

  /** If every rank is stuck, none waits for a notification: the next rank would have to
      wait for one too, and the last rank never does. */
  lemma {:induction false} NobodyAwaitsNotification(bs: Buckets, s: State, r: nat)
    requires BucketsOk(bs) && Inv(bs, s) && r < |s|
    requires forall q: nat :: q < |s| ==> Stuck(bs, s, q)
    ensures !AwaitsNotification(s[r])
    decreases |s| - r
  {
    hide Inv, Consumed, Stuck, Enabled;
    Neighbours(bs, s, r);
    if r + 1 < |s| {
      StuckRank(bs, s, r + 1);
      NobodyAwaitsNotification(bs, s, r + 1);
    }
  }

  /** Nor does any wait for a message: the previous rank would have to wait for one too,
      and the sender never does. */
  lemma {:induction false} NobodyAwaitsMessage(bs: Buckets, s: State, r: nat)
    requires BucketsOk(bs) && Inv(bs, s) && r < |s|
    requires forall q: nat :: q < |s| ==> Stuck(bs, s, q)
    ensures !AwaitsMessage(s[r])
    decreases r
  {
    hide Inv, Consumed, Stuck, Enabled;
    Neighbours(bs, s, r);
    if r > 0 {
      StuckRank(bs, s, r - 1);
      NobodyAwaitsNotification(bs, s, r - 1);
      NobodyAwaitsMessage(bs, s, r - 1);
    }
  }

  /** From every reachable state in which some rank is not done, some rank can step. */
  lemma NoDeadlock(bs: Buckets, s: State)
    requires BucketsOk(bs) && Inv(bs, s)
    ensures (forall r: nat :: r < |s| ==> s[r].pc == Done) || exists r: nat, a :: r < |s| && Enabled(bs, s, r, a)
  {
    if forall r: nat :: r < |s| ==> Stuck(bs, s, r) {
      forall r: nat | r < |s| ensures s[r].pc == Done {
        StuckRank(bs, s, r);
        NobodyAwaitsNotification(bs, s, r);
        NobodyAwaitsMessage(bs, s, r);
      }
    }
  }

  // ---------- termination ----------

  /** Work per bucket from bucket `k` on: one unit a chunk and `c` for the bucket. */
  ghost function Work(bs: Buckets, k: nat, c: nat): nat
    decreases |bs| - k
  {
    if k >= |bs| then 0 else |bs[k]| + c + Work(bs, k + 1, c)
  }

  /** What the rank's own coroutine still has to do. */
  ghost function OwnWork(bs: Buckets, x: Rank, sender: bool): int
    requires x.k < |bs|
  {
    var w, v, n := Work(bs, x.k, 6), Work(bs, x.k, 4), |bs[x.k]|;
    match x.pc
    case Fill => v - x.j
    case AckBeforeSend => v - n - 1
    case Announce => v - n - 2
    case First => w + 2
    case FirstRead => w + 1
    case Top => w
    case AwaitMeta => w - 1
    case Yield => w - 2 - x.j
    case AwaitAck => if sender then v - n - 3 else w - 3 - n
    case AwaitRead => w - 4 - n
    case Done => 0
  }

  /** What still has to be copied into the rank's buffers. */
  ghost function CopyWork(bs: Buckets, x: Rank, sender: bool): int {
    if sender then 0
    else
      Work(bs, Started(x), 1) +
      match x.read
      case NoRead => 0
      case InFlight(_, _, n) => if 0 < Started(x) <= |bs| then |bs[Started(x) - 1]| + 1 - n else 0
  }

  ghost function RankWork(bs: Buckets, x: Rank, sender: bool): int {
    if x.k < |bs| then OwnWork(bs, x, sender) + CopyWork(bs, x, sender) else 0
  }

  /** What all ranks together still have to do. */
  ghost function Measure(bs: Buckets, s: State): int {
    if s == [] then 0
    else Measure(bs, s[..|s| - 1]) + RankWork(bs, s[|s| - 1], |s| == 1)
  }

  lemma RankWorkNonNegative(bs: Buckets, x: Rank, r: nat, hasNext: bool)
    requires RankInv(bs, x, r, hasNext)
    ensures RankWork(bs, x, r == 0) >= 0
  {
    hide Consumed;
  }

  /** Messages and notifications are no work. */
  lemma InboxIsFree(bs: Buckets, x: Rank, inbox: seq<Msg>, sender: bool)
    ensures RankWork(bs, x.(inbox := inbox), sender) == RankWork(bs, x, sender)
  {
    hide Work, Started;
    assert Started(x.(inbox := inbox)) == Started(x) by { SameStart(x, x.(inbox := inbox)); }
  }

  lemma SameStart(x: Rank, y: Rank)
    requires x.pc == y.pc && x.last == y.last && x.k == y.k
    ensures Started(x) == Started(y)
  {
  }

  lemma NotifsAreFree(bs: Buckets, x: Rank, notifs: seq<int>, sender: bool)
    ensures RankWork(bs, x.(notifs := notifs), sender) == RankWork(bs, x, sender)
  {
    hide Work, Started;
    assert Started(x.(notifs := notifs)) == Started(x) by { SameStart(x, x.(notifs := notifs)); }
  }

  lemma SenderWorks(bs: Buckets, s: State, a: Action)
    requires BucketsOk(bs) && Inv(bs, s) && 0 < |s| && Enabled(bs, s, 0, a)
    ensures RankWork(bs, Local(bs, s, 0, a), true) < RankWork(bs, s[0], true)
  {
    hide Inv, ReceiverInv, Link;
    Neighbours(bs, s, 0);
  }

  lemma ReaderWorks(bs: Buckets, s: State, r: nat, a: Action)
    requires BucketsOk(bs) && Inv(bs, s) && 0 < r < |s| && Enabled(bs, s, r, a)
    requires a.CopySlot? || a.CopyDone?
    ensures RankWork(bs, Local(bs, s, r, a), false) < RankWork(bs, s[r], false)
  {
    hide Inv, SenderInv, Consumed, Link, Work;
    Neighbours(bs, s, r);
    SourceHolds(bs, s, r);
    DataAll(bs[Started(s[r]) - 1]);
    hide DataOf, MetasOf, BucketsOk;
  }

  lemma BeginnerWorks(bs: Buckets, s: State, r: nat, a: Action)
    requires BucketsOk(bs) && Inv(bs, s) && 0 < r < |s| && Enabled(bs, s, r, a)
    requires a.ReadFirst? || a.ReadNext?
    ensures RankWork(bs, Local(bs, s, r, a), false) < RankWork(bs, s[r], false)
  {
    hide Inv, SenderInv, Consumed, Link;
    Neighbours(bs, s, r);
  }

  lemma WorkStep(bs: Buckets, k: nat, c: nat)
    requires k < |bs|
    ensures Work(bs, k, c) == |bs[k]| + c + Work(bs, k + 1, c)
  {
  }

  /** A rank that has a whole new bucket. */
  lemma TakerWorks(bs: Buckets, s: State, r: nat, a: Action)
    requires BucketsOk(bs) && Inv(bs, s) && 0 < r < |s| && Enabled(bs, s, r, a) && (a.FinishFirst? || a.Swap?)
    ensures RankWork(bs, Local(bs, s, r, a), false) < RankWork(bs, s[r], false)
  {
    hide Inv, SenderInv, Consumed, Link, Work, MetasOf, DataOf, BucketsOk;
    Neighbours(bs, s, r);
    WorkStep(bs, s[r].k, 6);
  }

  lemma YielderWorks(bs: Buckets, s: State, r: nat, a: Action)
    requires BucketsOk(bs) && Inv(bs, s) && 0 < r < |s| && Enabled(bs, s, r, a) && (a.YieldOne? || a.YieldEnd?)
    ensures RankWork(bs, Local(bs, s, r, a), false) < RankWork(bs, s[r], false)
  {
    hide Inv, SenderInv, Consumed, Link, Work, BucketsOk;
    Neighbours(bs, s, r);
    WorkStep(bs, s[r].k, 6);
  }

  lemma AckerWorks(bs: Buckets, s: State, r: nat, a: Action)
    requires BucketsOk(bs) && Inv(bs, s) && 0 < r < |s| && Enabled(bs, s, r, a) && (a.Relay? || a.Ack?)
    ensures RankWork(bs, Local(bs, s, r, a), false) < RankWork(bs, s[r], false)
  {
    hide Inv, SenderInv, Consumed, Link, Work, MetasOf, DataOf, BucketsOk;
    Neighbours(bs, s, r);
    WorkStep(bs, s[r].k, 6);
  }

  lemma OnlyHolders(bs: Buckets, s: State, r: nat, a: Action)
    requires Inv(bs, s) && 0 < r < |s| && Enabled(bs, s, r, a)
    ensures !a.FillSlot? && !a.Full? && !a.SenderAck? && !a.SenderAnnounce?
  {
    hide Inv, SenderInv, Consumed, Link, MetasOf, DataOf;
    Neighbours(bs, s, r);
  }

  lemma ReceiverWorks(bs: Buckets, s: State, r: nat, a: Action)
    requires BucketsOk(bs) && Inv(bs, s) && 0 < r < |s| && Enabled(bs, s, r, a)
    ensures RankWork(bs, Local(bs, s, r, a), false) < RankWork(bs, s[r], false)
  {
    hide Inv, Enabled, Local, RankWork;
    if a.CopySlot? || a.CopyDone? { ReaderWorks(bs, s, r, a); }
    else if a.ReadFirst? || a.ReadNext? { BeginnerWorks(bs, s, r, a); }
    else if a.FinishFirst? || a.Swap? { TakerWorks(bs, s, r, a); }
    else if a.YieldOne? || a.YieldEnd? { YielderWorks(bs, s, r, a); }
    else { OnlyHolders(bs, s, r, a); AckerWorks(bs, s, r, a); }
  }

  lemma {:induction false} MeasureUpdate(bs: Buckets, s: State, r: nat, x: Rank)
    requires r < |s|
    ensures Measure(bs, s[r := x]) == Measure(bs, s) - RankWork(bs, s[r], r == 0) + RankWork(bs, x, r == 0)
  {
    hide RankWork;
    var front := s[..|s| - 1];
    if r == |s| - 1 {
      assert s[r := x][..|s| - 1] == front;
    } else {
      assert s[r := x][..|s| - 1] == front[r := x];
      MeasureUpdate(bs, front, r, x);
    }
  }

  /** Every step of every interleaving makes the measure smaller. */
  lemma StepWorks(bs: Buckets, s: State, r: nat, a: Action)
    requires BucketsOk(bs) && Inv(bs, s) && r < |s| && Enabled(bs, s, r, a)
    ensures Measure(bs, Apply(bs, s, r, a)) < Measure(bs, s)
  {
    hide Inv, Enabled, Local, RankWork;
    if r == 0 { SenderWorks(bs, s, a); } else { ReceiverWorks(bs, s, r, a); }
    var x, y := s[r], Local(bs, s, r, a);
    var t, u := s[r := y], Apply(bs, s, r, a);
    MeasureUpdate(bs, s, r, y);
    OnlyReceiversCopy(bs, s, r, a);
    if a.SenderAnnounce? || (a.Relay? && r + 1 < |s|) {
      InboxIsFree(bs, t[r + 1], u[r + 1].inbox, false);
      MeasureUpdate(bs, t, r + 1, u[r + 1]);
    } else if a.CopyDone? {
      NotifsAreFree(bs, t[r - 1], u[r - 1].notifs, r == 1);
      MeasureUpdate(bs, t, r - 1, u[r - 1]);
    }
  }

  lemma {:induction false} MeasureNonNegative(bs: Buckets, s: State, n: nat)
    requires Inv(bs, s) && n <= |s|
    ensures Measure(bs, s[..n]) >= 0
  {
    hide RankWork, RankInv, Link;
    if n > 0 {
      MeasureNonNegative(bs, s, n - 1);
      assert s[..n][..n - 1] == s[..n - 1];
      RankWorkNonNegative(bs, s[n - 1], n - 1, n < |s|);
    }
  }

  lemma {:induction false} RunShrinks(bs: Buckets, N: nat, run: seq<State>)
    requires BucketsOk(bs) && 1 <= N && Run(bs, N, run)
    ensures Measure(bs, run[|run| - 1]) + |run| - 1 <= Measure(bs, Init(N))
  {
    if |run| > 1 {
      var front := run[..|run| - 1];
      assert Run(bs, N, front);
      RunShrinks(bs, N, front);
      RunInv(bs, N, front);
      var s, t := front[|front| - 1], run[|run| - 1];
      assert Step(bs, run[|run| - 2], run[|run| - 1]);
      hide Inv, Enabled, Apply, Measure;
      var r: nat, a :| r < |s| && Enabled(bs, s, r, a) && t == Apply(bs, s, r, a);
      StepWorks(bs, s, r, a);
    }
  }

  lemma {:induction false} RunLength(bs: Buckets, N: nat, run: seq<State>)
    requires Run(bs, N, run)
    ensures forall i :: 0 <= i < |run| ==> |run[i]| == N + 1
  {
    if |run| > 1 {
      var front := run[..|run| - 1];
      RunLength(bs, N, front);
      assert Step(bs, run[|run| - 2], run[|run| - 1]);
      assert forall i :: 0 <= i < |front| ==> run[i] == front[i];
    }
  }

  ghost predicate CanStep(bs: Buckets, s: State) { exists t :: Step(bs, s, t) }

  ghost predicate AllDelivered(bs: Buckets, s: State) {
    forall r: nat :: r < |s| ==> s[r].pc == Done && (r > 0 ==> s[r].out == Flatten(bs))
  }

  /** Every run is bounded in length, and a run that cannot be continued has delivered the
      sender's whole chunk sequence to every receiver. */
  lemma EveryRunCompletes(bs: Buckets, N: nat, run: seq<State>)
    requires BucketsOk(bs) && 1 <= N && Run(bs, N, run)
    ensures |run| - 1 <= Measure(bs, Init(N))
    ensures |run[|run| - 1]| == N + 1
    ensures CanStep(bs, run[|run| - 1]) || AllDelivered(bs, run[|run| - 1])
  {
    var s := run[|run| - 1];
    RunInv(bs, N, run);
    RunLength(bs, N, run);
    RunShrinks(bs, N, run);
    assert s[..|s|] == s;
    MeasureNonNegative(bs, s, |s|);
    hide Inv, Enabled, Apply;
    NoDeadlock(bs, s);
    if exists r: nat, a :: r < |s| && Enabled(bs, s, r, a) {
      var r: nat, a :| r < |s| && Enabled(bs, s, r, a);
      assert Step(bs, s, Apply(bs, s, r, a));
    } else {
      forall r: nat | 0 < r <= N ensures s[r].out == Flatten(bs) {
        DeliversInOrder(bs, N, run, |run| - 1, r);
      }
    }
  }

  // ---------- with the weights ----------

  function ItemsOf(group: seq<Chunk>): (items: seq<Item>)
    ensures |items| == |group|
  {
    if group == [] then []
    else ItemsOf(group[..|group| - 1]) + [Item(MetaOf(group[|group| - 1], Size(group[..|group| - 1])),
                                               group[|group| - 1].data)]
  }

  function BucketsOf(groups: seq<seq<Chunk>>): (bs: Buckets)
    ensures |bs| == |groups|
    ensures forall k :: 0 <= k < |bs| ==> bs[k] == ItemsOf(groups[k])
  {
    seq(|groups|, k requires 0 <= k < |groups| => ItemsOf(groups[k]))
  }

  /** The chunk a receiver makes of an item: the header and the place from the metadata,
      the bytes from the buffer. */
  function PlacedItem(i: Item): Placed {
    Placed(Chunk(i.meta.name, i.meta.shape, i.meta.itemsize, i.meta.chunkOffset, i.meta.chunkSize, i.data),
           i.meta.offset)
  }

  function PlacedItems(items: seq<Item>): seq<Placed> {
    seq(|items|, i requires 0 <= i < |items| => PlacedItem(items[i]))
  }

  lemma {:induction false} ItemsRead(group: seq<Chunk>)
    ensures PlacedItems(ItemsOf(group)) == PlaceGroup(group)
  {
    if group != [] {
      ItemsRead(group[..|group| - 1]);
      var front, c := group[..|group| - 1], group[|group| - 1];
      PlacedConcat(ItemsOf(front), [Item(MetaOf(c, Size(front)), c.data)]);
      assert PlacedItems([Item(MetaOf(c, Size(front)), c.data)]) == [Placed(c, Size(front))];
      assert front + [c] == group;
    }
  }

  lemma PlacedConcat(a: seq<Item>, b: seq<Item>)
    ensures PlacedItems(a + b) == PlacedItems(a) + PlacedItems(b)
  {
  }

  lemma {:induction false} BucketsRead(groups: seq<seq<Chunk>>)
    ensures PlacedItems(Flatten(BucketsOf(groups))) == PlaceGroups(groups)
  {
    if groups != [] {
      BucketsRead(groups[1..]);
      ItemsRead(groups[0]);
      assert BucketsOf(groups)[1..] == BucketsOf(groups[1..]);
      PlacedConcat(BucketsOf(groups)[0], Flatten(BucketsOf(groups)[1..]));
    }
  }

  /** The buckets of the send loop are what the chain needs. */
  lemma SenderBucketsOk(ws: seq<Weight>, B: nat)
    requires 1 <= B && DistinctNames(ws)
    ensures BucketsOk(BucketsOf(NextFit([], Split(ws, B), B)))
  {
    SplitPackable(ws, B);
    NextFitGroups([], Split(ws, B), B);
    var groups := NextFit([], Split(ws, B), B);
    forall k | 0 <= k < |groups| ensures ItemsOf(groups[k]) != [] || |groups| == 1 {
      if Split(ws, B) == [] { assert groups == [[]]; }
    }
  }

  /** What the merge loop makes of all buckets together. */
  lemma DeliveredMerges(ws: seq<Weight>, B: nat, out: seq<Item>)
    requires 1 <= B && forall i :: 0 <= i < |ws| ==> WeightOk(ws[i])
    requires out == Flatten(BucketsOf(NextFit([], Split(ws, B), B)))
    ensures Merge(None, PlacedItems(out), B) ==
      if WeightsAligned(ws, B) then Ok((None, NonEmpty(ws))) else RuntimeError
  {
    var chunks := Split(ws, B);
    BucketsRead(NextFit([], chunks, B));
    SentPlaces(chunks, B);
    PlacesChunks(0, chunks, B);
    SplitThenMerge(ws, B, PlaceFrom(0, chunks, B));
  }

  /** End to end: however sender, relays and transfers interleave, a run that has come to
      its end has given every receiver exactly the sender's non-empty weights if these are
      aligned, and chunks whose merge fails in a view if they are not. */
  lemma EveryReceiverGetsTheWeights(ws: seq<Weight>, B: nat, N: nat, run: seq<State>, r: nat)
    requires 1 <= B && 1 <= r <= N && DistinctNames(ws)
    requires forall i :: 0 <= i < |ws| ==> WeightOk(ws[i])
    requires Run(BucketsOf(NextFit([], Split(ws, B), B)), N, run)
    requires !CanStep(BucketsOf(NextFit([], Split(ws, B), B)), run[|run| - 1])
    ensures r < |run[|run| - 1]|
    ensures Merge(None, PlacedItems(run[|run| - 1][r].out), B) ==
      if WeightsAligned(ws, B) then Ok((None, NonEmpty(ws))) else RuntimeError
  {
    SenderBucketsOk(ws, B);
    hide Run, CanStep, Merge, NextFit, BucketsOf;
    EveryRunCompletes(BucketsOf(NextFit([], Split(ws, B), B)), N, run);
    DeliveredMerges(ws, B, run[|run| - 1][r].out);
  }
}
