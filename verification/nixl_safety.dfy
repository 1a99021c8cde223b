/** Safety of the NIXL chain under every interleaving. */
module NixlSafety {
  import opened Basics
  import opened WeightChunks
  import opened WeightBuckets
  import opened NixlChain

  type Buckets = seq<seq<Item>>

  /** What the rank yields when it has consumed `k` buckets and `j` chunks of the next. */
  function Consumed(bs: Buckets, k: nat, j: nat): seq<Item>
    requires k < |bs| && j <= |bs[k]|
  {
    Flatten(bs[..k]) + bs[k][..j]
  }

  /** Buckets this rank has announced to the next one. */
  function Announced(x: Rank): nat {
    match x.pc
    case First => 0
    case FirstRead => 0
    case Fill => x.k
    case AckBeforeSend => x.k
    case Announce => x.k
    case Top => x.k
    case _ => x.k + 1
  }

  /** The buffer of the last announced bucket. */
  function SrcSel(x: Rank): nat {
    if x.pc.Fill? || x.pc.AckBeforeSend? then (if x.sel == 0 then 1 else 0) else x.sel
  }

  /** Reads this rank has begun. */
  function Started(x: Rank): nat {
    match x.pc
    case First => 0
    case FirstRead => 1
    case Yield => if x.last then x.k + 1 else x.k + 2
    case AwaitAck => if x.last then x.k + 1 else x.k + 2
    case AwaitRead => x.k + 2
    case _ => x.k + 1
  }

  ghost predicate TwoBuffers(x: Rank) { |x.bufs| == 2 && x.sel < 2 }

  ghost predicate SenderInv(bs: Buckets, x: Rank) {
    && TwoBuffers(x) && x.k < |bs| && x.read == NoRead && x.inbox == [] && x.out == []
    && (match x.pc
        case Fill =>
          && x.j <= |bs[x.k]| && !x.last && (x.op.Some? <==> x.k > 0)
          && (x.j > 0 || bs[x.k] == [] ==> x.bufs[x.sel] == DataOf(bs[x.k])[..x.j])
        case AckBeforeSend => !x.last && (x.op.Some? <==> x.k > 0) && x.bufs[x.sel] == DataOf(bs[x.k])
        case Announce => !x.last && x.op.None? && x.bufs[x.sel] == DataOf(bs[x.k])
        case AwaitAck => x.last && x.op.Some? && x.k + 1 == |bs| && x.bufs[x.sel] == DataOf(bs[x.k])
        case Done => x.op.None? && x.k + 1 == |bs|
        case _ => false)
    && (x.op.Some? ==> 0 < Announced(x) && x.bufs[SrcSel(x)] == DataOf(bs[Announced(x) - 1]))
  }

  /** Bucket `k` sits in send_buf, and the consumer has seen `j` chunks of it. */
  ghost predicate Held(bs: Buckets, x: Rank) {
    && TwoBuffers(x) && x.k < |bs| && x.j <= |bs[x.k]|
    && x.metas == MetasOf(bs[x.k]) && x.last == (x.k + 1 == |bs|)
    && x.bufs[x.sel] == DataOf(bs[x.k])
    && x.out == Consumed(bs, x.k, x.j)
  }

  /** Bucket `t` is on its way into recv_buf, or has arrived there. */
  ghost predicate Incoming(bs: Buckets, x: Rank, t: nat) {
    && TwoBuffers(x) && t < |bs| && x.nextMetas == MetasOf(bs[t]) && x.nextLast == (t + 1 == |bs|)
    && match x.read
       case NoRead => x.bufs[1 - x.sel] == DataOf(bs[t])
       case InFlight(_, _, n) =>
         n <= |bs[t]| && (n > 0 || bs[t] == [] ==> x.bufs[1 - x.sel] == DataOf(bs[t])[..n])
  }

  ghost predicate ReceiverInv(bs: Buckets, x: Rank, hasNext: bool) {
    && (x.op.Some? <==> hasNext && (x.pc.AwaitMeta? || x.pc.Yield? || x.pc.AwaitAck?))
    && (!hasNext ==> x.notifs == [])
    && match x.pc
       case First => x.k == 0 && x.j == 0 && x.out == [] && x.read == NoRead && x.sel == 0 && x.bufs == [[], []]
       case FirstRead => x.k == 0 && x.j == 0 && x.out == [] && Incoming(bs, x, 0)
       case Top => Held(bs, x) && x.j == 0 && x.read == NoRead
       case AwaitMeta => Held(bs, x) && x.j == 0 && !x.last && x.read == NoRead
       case Yield => Held(bs, x) && if x.last then x.read == NoRead else Incoming(bs, x, x.k + 1)
       case AwaitAck =>
         Held(bs, x) && x.j == |bs[x.k]| && if x.last then x.read == NoRead else Incoming(bs, x, x.k + 1)
       case AwaitRead => Held(bs, x) && x.j == |bs[x.k]| && !x.last && Incoming(bs, x, x.k + 1)
       case Done => Held(bs, x) && x.j == |bs[x.k]| && x.last && x.read == NoRead
       case _ => false
  }

  /** Between two neighbours there is at most one bucket under way, and it is in exactly one
      of three places: announced, being read, or read and not yet acknowledged. */
  ghost predicate Link(bs: Buckets, a: Rank, b: Rank) {
    match a.op
    case None => b.inbox == [] && a.notifs == [] && b.read == NoRead && Started(b) == Announced(a)
    case Some(key) =>
      && 0 < Announced(a) <= |bs|
      && (|| (b.inbox == [Msg(key, SrcSel(a), MetasOf(bs[Announced(a) - 1]), Announced(a) == |bs|)]
              && a.notifs == [] && b.read == NoRead && Started(b) + 1 == Announced(a))
          || (b.inbox == [] && a.notifs == [] && Started(b) == Announced(a)
              && b.read.InFlight? && b.read.key == key && b.read.src == SrcSel(a))
          || (b.inbox == [] && a.notifs == [key] && Started(b) == Announced(a) && b.read == NoRead))
  }

  ghost predicate RankInv(bs: Buckets, x: Rank, r: nat, hasNext: bool) {
    if r == 0 then SenderInv(bs, x) else ReceiverInv(bs, x, hasNext)
  }

  ghost predicate Inv(bs: Buckets, s: State) {
    && |s| >= 2
    && (forall r: nat :: r < |s| ==> RankInv(bs, s[r], r, r + 1 < |s|))
    && (forall r: nat :: r < |s| - 1 ==> Link(bs, s[r], s[r + 1]))
  }

  lemma InitInv(bs: Buckets, N: nat)
    requires BucketsOk(bs) && 1 <= N
    ensures Inv(bs, Init(N))
  {
    assert DataOf(bs[0])[..0] == [];
  }

  // ---------- replacing one or two neighbouring ranks ----------

  lemma UpdateOne(bs: Buckets, s: State, r: nat, x: Rank)
    requires Inv(bs, s) && r < |s|
    requires RankInv(bs, x, r, r + 1 < |s|)
    requires 0 < r ==> Link(bs, s[r - 1], x)
    requires r + 1 < |s| ==> Link(bs, x, s[r + 1])
    ensures Inv(bs, s[r := x])
  {
    hide RankInv, Link;
  }

  lemma UpdateTwo(bs: Buckets, s: State, r: nat, x: Rank, y: Rank)
    requires Inv(bs, s) && r + 1 < |s|
    requires RankInv(bs, x, r, true) && RankInv(bs, y, r + 1, r + 2 < |s|)
    requires 0 < r ==> Link(bs, s[r - 1], x)
    requires Link(bs, x, y)
    requires r + 2 < |s| ==> Link(bs, y, s[r + 2])
    ensures Inv(bs, s[r := x][r + 1 := y])
  {
    hide RankInv, Link;
  }

  lemma Neighbours(bs: Buckets, s: State, r: nat)
    requires Inv(bs, s) && r < |s|
    ensures |s| >= 2 && RankInv(bs, s[r], r, r + 1 < |s|)
    ensures 0 < r ==> Link(bs, s[r - 1], s[r]) && RankInv(bs, s[r - 1], r - 1, true)
    ensures r + 1 < |s| ==> Link(bs, s[r], s[r + 1]) && RankInv(bs, s[r + 1], r + 1, r + 2 < |s|)
    ensures r + 2 < |s| ==> Link(bs, s[r + 1], s[r + 2])
    ensures 1 < r ==> Link(bs, s[r - 2], s[r - 1])
  {
    hide RankInv, Link;
  }

  // ---------- one action at a time ----------

  lemma DataAt(bucket: seq<Item>, j: nat)
    requires j < |bucket|
    ensures DataOf(bucket)[..j] + [bucket[j].data] == DataOf(bucket)[..j + 1]
    ensures |DataOf(bucket)| == |MetasOf(bucket)| == |bucket|
    ensures Item(MetasOf(bucket)[j], DataOf(bucket)[j]) == bucket[j]
  {
  }

  lemma DataAll(bucket: seq<Item>)
    ensures |DataOf(bucket)| == |MetasOf(bucket)| == |bucket|
    ensures DataOf(bucket)[..|bucket|] == DataOf(bucket)
  {
  }

  lemma ConsumeOne(bs: Buckets, k: nat, j: nat)
    requires k < |bs| && j < |bs[k]|
    ensures Consumed(bs, k, j + 1) == Consumed(bs, k, j) + [bs[k][j]]
  {
  }

  lemma ConsumeBucket(bs: Buckets, k: nat)
    requires k < |bs|
    ensures Consumed(bs, k, |bs[k]|) == Flatten(bs[..k + 1])
    ensures k + 1 < |bs| ==> Consumed(bs, k + 1, 0) == Consumed(bs, k, |bs[k]|)
    ensures Consumed(bs, 0, 0) == []
  {
    assert bs[..k] + [bs[k]] == bs[..k + 1];
    FlattenSnoc(bs[..k], bs[k]);
    assert bs[k][..|bs[k]|] == bs[k];
    assert bs[..0] == [];
  }

  /** The buffer being read holds exactly the announced bucket. */
  lemma SourceHolds(bs: Buckets, s: State, r: nat)
    requires Inv(bs, s) && 0 < r < |s| && s[r].read.InFlight?
    ensures var y := s[r - 1];
      && y.op == Some(s[r].read.key) && s[r].read.src == SrcSel(y) && TwoBuffers(y)
      && 0 < Announced(y) == Started(s[r]) <= |bs| && y.bufs[SrcSel(y)] == DataOf(bs[Announced(y) - 1])
  {
    hide Inv, Consumed;
    Neighbours(bs, s, r);
  }

  lemma SenderRank(bs: Buckets, s: State, a: Action)
    requires BucketsOk(bs) && Inv(bs, s) && 0 < |s| && Enabled(bs, s, 0, a)
    ensures SenderInv(bs, Local(bs, s, 0, a))
  {
    hide Inv, Consumed, Link, ReceiverInv;
    Neighbours(bs, s, 0);
    var x := s[0];
    if x.j < |bs[x.k]| { DataAt(bs[x.k], x.j); }
    DataAll(bs[x.k]);
    if x.k + 1 < |bs| { assert DataOf(bs[x.k + 1])[..0] == []; }
  }

  /** A rank that starts a read. */
  lemma BeginFirst(bs: Buckets, s: State, r: nat, a: Action)
    requires BucketsOk(bs) && Inv(bs, s) && 0 < r < |s| && Enabled(bs, s, r, a) && a.ReadFirst?
    ensures ReceiverInv(bs, Local(bs, s, r, a), r + 1 < |s|)
  {
    hide Inv, Consumed, SenderInv;
    Neighbours(bs, s, r);
    hide BucketsOk;
  }

  lemma BeginNext(bs: Buckets, s: State, r: nat, a: Action)
    requires BucketsOk(bs) && Inv(bs, s) && 0 < r < |s| && Enabled(bs, s, r, a) && a.ReadNext?
    ensures ReceiverInv(bs, Local(bs, s, r, a), r + 1 < |s|)
  {
    hide Inv, Consumed, SenderInv;
    Neighbours(bs, s, r);
    var x := s[r];
    if x.k + 1 < |bs| { assert DataOf(bs[x.k + 1])[..0] == []; }
  }

  lemma BeginRank(bs: Buckets, s: State, r: nat, a: Action)
    requires BucketsOk(bs) && Inv(bs, s) && 0 < r < |s| && Enabled(bs, s, r, a)
    requires a.ReadFirst? || a.ReadNext?
    ensures ReceiverInv(bs, Local(bs, s, r, a), r + 1 < |s|)
  {
    hide Inv, ReceiverInv, Local, Enabled, BucketsOk;
    if a.ReadFirst? { BeginFirst(bs, s, r, a); } else { BeginNext(bs, s, r, a); }
  }

  /** A rank whose read has finished takes the bucket over. */
  lemma TakeRank(bs: Buckets, s: State, r: nat, a: Action)
    requires BucketsOk(bs) && Inv(bs, s) && 0 < r < |s| && Enabled(bs, s, r, a)
    requires a.FinishFirst? || a.Swap?
    ensures ReceiverInv(bs, Local(bs, s, r, a), r + 1 < |s|)
  {
    hide Inv, Consumed, SenderInv, Link;
    Neighbours(bs, s, r);
    ConsumeBucket(bs, s[r].k);
  }

  /** A rank that works on the bucket it holds. */
  lemma YieldRank(bs: Buckets, s: State, r: nat, a: Action)
    requires BucketsOk(bs) && Inv(bs, s) && 0 < r < |s| && Enabled(bs, s, r, a) && a.YieldOne?
    ensures ReceiverInv(bs, Local(bs, s, r, a), r + 1 < |s|)
  {
    hide Inv, Consumed, SenderInv, Link, BucketsOk;
    Neighbours(bs, s, r);
    var x := s[r];
    assert x.j < |bs[x.k]|;
    DataAll(bs[x.k]);
    DataAt(bs[x.k], x.j);
    ConsumeOne(bs, x.k, x.j);
    hide MetasOf, DataOf;
  }

  lemma RelayRank(bs: Buckets, s: State, r: nat, a: Action)
    requires BucketsOk(bs) && Inv(bs, s) && 0 < r < |s| && Enabled(bs, s, r, a) && a.Relay?
    ensures ReceiverInv(bs, Local(bs, s, r, a), r + 1 < |s|)
  {
    hide Inv, Consumed, SenderInv, Link, BucketsOk, MetasOf, DataOf;
    Neighbours(bs, s, r);
  }

  lemma YieldEndRank(bs: Buckets, s: State, r: nat, a: Action)
    requires BucketsOk(bs) && Inv(bs, s) && 0 < r < |s| && Enabled(bs, s, r, a) && a.YieldEnd?
    ensures ReceiverInv(bs, Local(bs, s, r, a), r + 1 < |s|)
  {
    hide Inv, Consumed, SenderInv, Link, BucketsOk, DataOf;
    Neighbours(bs, s, r);
  }

  lemma AckRank(bs: Buckets, s: State, r: nat, a: Action)
    requires BucketsOk(bs) && Inv(bs, s) && 0 < r < |s| && Enabled(bs, s, r, a) && a.Ack?
    ensures ReceiverInv(bs, Local(bs, s, r, a), r + 1 < |s|)
  {
    hide Inv, Consumed, SenderInv, Link, BucketsOk, DataOf, MetasOf;
    Neighbours(bs, s, r);
  }

  lemma HoldRank(bs: Buckets, s: State, r: nat, a: Action)
    requires BucketsOk(bs) && Inv(bs, s) && 0 < r < |s| && Enabled(bs, s, r, a)
    requires a.Relay? || a.YieldOne? || a.YieldEnd? || a.Ack?
    ensures ReceiverInv(bs, Local(bs, s, r, a), r + 1 < |s|)
  {
    hide Inv, ReceiverInv, Local, Enabled, BucketsOk;
    if a.YieldOne? { YieldRank(bs, s, r, a); }
    else if a.Relay? { RelayRank(bs, s, r, a); }
    else if a.YieldEnd? { YieldEndRank(bs, s, r, a); }
    else { AckRank(bs, s, r, a); }
  }

  lemma CopySlotRank(bs: Buckets, s: State, r: nat, a: Action)
    requires BucketsOk(bs) && Inv(bs, s) && 0 < r < |s| && Enabled(bs, s, r, a) && a.CopySlot?
    ensures ReceiverInv(bs, Local(bs, s, r, a), r + 1 < |s|)
  {
    hide Inv, Consumed, SenderInv, Link, BucketsOk, MetasOf;
    Neighbours(bs, s, r);
    SourceHolds(bs, s, r);
    var t := Started(s[r]) - 1;
    DataAll(bs[t]);
    DataAt(bs[t], s[r].read.copied);
    hide DataOf;
  }

  lemma CopyDoneRank(bs: Buckets, s: State, r: nat, a: Action)
    requires BucketsOk(bs) && Inv(bs, s) && 0 < r < |s| && Enabled(bs, s, r, a) && a.CopyDone?
    ensures ReceiverInv(bs, Local(bs, s, r, a), r + 1 < |s|)
  {
    hide Inv, Consumed, SenderInv, Link, BucketsOk, MetasOf;
    Neighbours(bs, s, r);
    SourceHolds(bs, s, r);
    DataAll(bs[Started(s[r]) - 1]);
    hide DataOf;
  }

  lemma CopyRank(bs: Buckets, s: State, r: nat, a: Action)
    requires BucketsOk(bs) && Inv(bs, s) && 0 < r < |s| && Enabled(bs, s, r, a)
    requires a.CopySlot? || a.CopyDone?
    ensures ReceiverInv(bs, Local(bs, s, r, a), r + 1 < |s|)
  {
    hide Inv, ReceiverInv, Local, Enabled, BucketsOk;
    if a.CopySlot? { CopySlotRank(bs, s, r, a); } else { CopyDoneRank(bs, s, r, a); }
  }

  /** The link to the previous rank, for everything but a finished read. */
  lemma ReadLink(bs: Buckets, s: State, r: nat, a: Action)
    requires Inv(bs, s) && 0 < r < |s| && Enabled(bs, s, r, a) && (a.ReadFirst? || a.ReadNext?)
    ensures Link(bs, s[r - 1], Local(bs, s, r, a))
  {
    hide Inv, Consumed, SenderInv, MetasOf, DataOf, SrcSel, Announced;
    Neighbours(bs, s, r);
  }

  lemma OwnLink(bs: Buckets, s: State, r: nat, a: Action)
    requires Inv(bs, s) && 0 < r < |s| && Enabled(bs, s, r, a) && !a.CopyDone? && !a.ReadFirst? && !a.ReadNext?
    ensures Link(bs, s[r - 1], Local(bs, s, r, a))
  {
    hide Inv, Consumed, SenderInv, MetasOf, DataOf, SrcSel, Announced;
    Neighbours(bs, s, r);
  }

  lemma BackLink(bs: Buckets, s: State, r: nat, a: Action)
    requires Inv(bs, s) && 0 < r < |s| && Enabled(bs, s, r, a) && !a.CopyDone?
    ensures Link(bs, s[r - 1], Local(bs, s, r, a))
  {
    hide Inv, ReceiverInv, Local, Enabled, Link;
    if a.ReadFirst? || a.ReadNext? { ReadLink(bs, s, r, a); } else { OwnLink(bs, s, r, a); }
  }

  /** The link to the next rank, for everything but a new message. */
  lemma SenderFrontLink(bs: Buckets, s: State, a: Action)
    requires Inv(bs, s) && 1 < |s| && Enabled(bs, s, 0, a) && !a.SenderAnnounce? && !a.Relay?
    ensures Link(bs, Local(bs, s, 0, a), s[1])
  {
    hide Inv, Consumed, ReceiverInv, MetasOf, DataOf, Started;
    Neighbours(bs, s, 0);
  }

  lemma AckFrontLink(bs: Buckets, s: State, r: nat, a: Action)
    requires Inv(bs, s) && 0 < r && r + 1 < |s| && Enabled(bs, s, r, a) && a.Ack?
    ensures Link(bs, Local(bs, s, r, a), s[r + 1])
  {
    hide Inv, Consumed, SenderInv, MetasOf, DataOf, Started;
    Neighbours(bs, s, r);
  }

  lemma ReceiverFrontLink(bs: Buckets, s: State, r: nat, a: Action)
    requires Inv(bs, s) && 0 < r && r + 1 < |s| && Enabled(bs, s, r, a)
    requires !a.SenderAnnounce? && !a.Relay? && !a.Ack?
    ensures Link(bs, Local(bs, s, r, a), s[r + 1])
  {
    hide Inv, Consumed, SenderInv, MetasOf, DataOf, Started;
    Neighbours(bs, s, r);
  }

  lemma FrontLink(bs: Buckets, s: State, r: nat, a: Action)
    requires Inv(bs, s) && r + 1 < |s| && Enabled(bs, s, r, a) && !a.SenderAnnounce? && !a.Relay?
    ensures Link(bs, Local(bs, s, r, a), s[r + 1])
  {
    hide Inv, ReceiverInv, Local, Enabled, Link;
    if r == 0 { SenderFrontLink(bs, s, a); }
    else if a.Ack? { AckFrontLink(bs, s, r, a); }
    else { ReceiverFrontLink(bs, s, r, a); }
  }

  /** A message in the inbox matters only to the link behind it. */
  lemma InboxFrame(bs: Buckets, y: Rank, inbox: seq<Msg>, hasNext: bool)
    ensures ReceiverInv(bs, y.(inbox := inbox), hasNext) <==> ReceiverInv(bs, y, hasNext)
    ensures forall z :: Link(bs, y.(inbox := inbox), z) <==> Link(bs, y, z)
  {
    InboxReceiver(bs, y, inbox, hasNext);
    hide Consumed, ReceiverInv, MetasOf;
  }

  lemma InboxReceiver(bs: Buckets, y: Rank, inbox: seq<Msg>, hasNext: bool)
    ensures ReceiverInv(bs, y.(inbox := inbox), hasNext) <==> ReceiverInv(bs, y, hasNext)
  {
    hide Consumed, DataOf, MetasOf;
  }

  /** A notification matters only to the link before it. */
  lemma NotifsFrame(bs: Buckets, y: Rank, notifs: seq<int>)
    ensures SenderInv(bs, y.(notifs := notifs)) <==> SenderInv(bs, y)
    ensures ReceiverInv(bs, y.(notifs := notifs), true) <==> ReceiverInv(bs, y, true)
    ensures forall z :: Link(bs, z, y.(notifs := notifs)) <==> Link(bs, z, y)
  {
    NotifsSender(bs, y, notifs);
    NotifsReceiver(bs, y, notifs);
    hide Consumed, SenderInv, ReceiverInv;
  }

  lemma NotifsSender(bs: Buckets, y: Rank, notifs: seq<int>)
    ensures SenderInv(bs, y.(notifs := notifs)) <==> SenderInv(bs, y)
  {
    hide DataOf;
  }

  lemma NotifsReceiver(bs: Buckets, y: Rank, notifs: seq<int>)
    ensures ReceiverInv(bs, y.(notifs := notifs), true) <==> ReceiverInv(bs, y, true)
  {
    hide Consumed, DataOf, MetasOf;
  }

  /** What a new message says about the rank that posts it. */
  lemma Posting(bs: Buckets, s: State, r: nat, a: Action)
    requires Inv(bs, s) && r + 1 < |s| && Enabled(bs, s, r, a) && (a.SenderAnnounce? || a.Relay?)
    ensures s[r].op.None? && s[r].k < |bs| && Announced(Local(bs, s, r, a)) == s[r].k + 1
    ensures Local(bs, s, r, a).op == Some(a.key) && SrcSel(Local(bs, s, r, a)) == s[r].sel
    ensures Local(bs, s, r, a).notifs == s[r].notifs && Announced(s[r]) == s[r].k
    ensures a.Relay? ==> s[r].metas == MetasOf(bs[s[r].k]) && s[r].last == (s[r].k + 1 == |bs|)
  {
    hide Inv, Consumed, Link;
    Neighbours(bs, s, r);
  }

  /** An announced bucket reaches a neighbour that has nothing under way. */
  lemma Announces(bs: Buckets, x: Rank, x': Rank, y: Rank, key: int, k: nat)
    requires Link(bs, x, y) && x.op.None? && k < |bs| && Announced(x) == k
    requires x'.op == Some(key) && Announced(x') == k + 1 && x'.notifs == x.notifs
    ensures Link(bs, x', y.(inbox := y.inbox + [Msg(key, SrcSel(x'), MetasOf(bs[k]), k + 1 == |bs|)]))
  {
    hide Announced, SrcSel, MetasOf;
  }

  lemma PostLink(bs: Buckets, s: State, r: nat, a: Action)
    requires Inv(bs, s) && r + 1 < |s| && Enabled(bs, s, r, a) && (a.SenderAnnounce? || a.Relay?)
    ensures Link(bs, Local(bs, s, r, a), Apply(bs, s, r, a)[r + 1])
    ensures RankInv(bs, Apply(bs, s, r, a)[r + 1], r + 1, r + 2 < |s|)
    ensures r + 2 < |s| ==> Link(bs, Apply(bs, s, r, a)[r + 1], s[r + 2])
  {
    hide Inv, SenderInv, ReceiverInv, Local, Announced, SrcSel, Link, MetasOf;
    Neighbours(bs, s, r);
    Posting(bs, s, r, a);
    InboxFrame(bs, s[r + 1], Apply(bs, s, r, a)[r + 1].inbox, r + 2 < |s|);
    Announces(bs, s[r], Local(bs, s, r, a), s[r + 1], a.key, s[r].k);
  }

  lemma DoneLink(bs: Buckets, s: State, r: nat, a: Action)
    requires Inv(bs, s) && 0 < r < |s| && Enabled(bs, s, r, a) && a.CopyDone?
    ensures Link(bs, Apply(bs, s, r, a)[r - 1], Local(bs, s, r, a))
    ensures RankInv(bs, Apply(bs, s, r, a)[r - 1], r - 1, true)
    ensures 1 < r ==> Link(bs, s[r - 2], Apply(bs, s, r, a)[r - 1])
  {
    hide Inv, SenderInv, ReceiverInv;
    Neighbours(bs, s, r);
    NotifsFrame(bs, s[r - 1], s[r - 1].notifs + [s[r].read.key]);
  }

  /** Every step of every interleaving keeps the invariant. */
  lemma StepInv(bs: Buckets, s: State, r: nat, a: Action)
    requires BucketsOk(bs) && Inv(bs, s) && r < |s| && Enabled(bs, s, r, a)
    ensures Inv(bs, Apply(bs, s, r, a))
  {
    hide Inv, SenderInv, ReceiverInv, Link, Enabled, Local;
    Neighbours(bs, s, r);
    var t, x := Apply(bs, s, r, a), Local(bs, s, r, a);
    if r == 0 { SenderRank(bs, s, a); }
    else if a.CopySlot? || a.CopyDone? { CopyRank(bs, s, r, a); }
    else if a.ReadFirst? || a.ReadNext? { BeginRank(bs, s, r, a); }
    else if a.FinishFirst? || a.Swap? { TakeRank(bs, s, r, a); }
    else { ReceiverActs(bs, s, r, a); HoldRank(bs, s, r, a); }
    if a.CopyDone? {
      OnlyReceiversCopy(bs, s, r, a);
      DoneLink(bs, s, r, a);
      if r + 1 < |s| { FrontLink(bs, s, r, a); }
      UpdateTwo(bs, s, r - 1, t[r - 1], x);
      assert t == s[r - 1 := t[r - 1]][r := x];
    } else if a.SenderAnnounce? || (a.Relay? && r + 1 < |s|) {
      OnlyReceiversCopy(bs, s, r, a);
      if 0 < r { BackLink(bs, s, r, a); }
      PostLink(bs, s, r, a);
      UpdateTwo(bs, s, r, x, t[r + 1]);
      assert t == s[r := x][r + 1 := t[r + 1]];
    } else {
      if 0 < r { BackLink(bs, s, r, a); }
      if r + 1 < |s| { FrontLink(bs, s, r, a); }
      UpdateOne(bs, s, r, x);
    }
  }

  lemma ReceiverActs(bs: Buckets, s: State, r: nat, a: Action)
    requires 0 < r < |s| && Inv(bs, s) && Enabled(bs, s, r, a)
    ensures !a.FillSlot? && !a.Full? && !a.SenderAck? && !a.SenderAnnounce?
  {
    assert RankInv(bs, s[r], r, r + 1 < |s|);
  }

  lemma OnlyReceiversCopy(bs: Buckets, s: State, r: nat, a: Action)
    requires r < |s| && Enabled(bs, s, r, a)
    ensures a.CopyDone? ==> 0 < r
    ensures a.SenderAnnounce? ==> r + 1 < |s|
  {
  }

  lemma {:induction false} RunInv(bs: Buckets, N: nat, run: seq<State>)
    requires BucketsOk(bs) && 1 <= N && Run(bs, N, run)
    ensures forall i :: 0 <= i < |run| ==> Inv(bs, run[i])
  {
    hide Inv, Enabled, Apply, Init, BucketsOk;
    if |run| == 1 {
      InitInv(bs, N);
    } else {
      var front := run[..|run| - 1];
      RunInv(bs, N, front);
      var s, t := front[|front| - 1], run[|run| - 1];
      assert Step(bs, run[|run| - 2], run[|run| - 1]);
      var r: nat, a :| r < |s| && Enabled(bs, s, r, a) && t == Apply(bs, s, r, a);
      StepInv(bs, s, r, a);
      forall i | 0 <= i < |run| ensures Inv(bs, run[i]) {
        if i < |front| { assert run[i] == front[i]; }
      }
    }
  }
}
