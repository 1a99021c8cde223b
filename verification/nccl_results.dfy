/** What the NCCL engine guarantees in every reachable state, and that it always finishes. */
module NcclResults {
  import opened Basics
  import opened WeightChunks
  import opened WeightBuckets
  import opened WeightPlaces
  import opened NixlChain
  import opened NixlSafety
  import opened NixlResults
  import opened NcclRounds
  import NcclSafety

  // ---------- safety ----------

  /** Every receiver has yielded a prefix of the sender's chunk sequence, and all of it
      once it is done. */
  lemma ReceivesInOrder(bs: NcclRounds.Buckets, N: nat, run: seq<Net>, i: nat, r: nat)
    requires BucketsOk(bs) && NcclRounds.Run(bs, N, run)
    requires i < |run| && r < |run[i].recvs|
    ensures run[i].recvs[r].out <= Flatten(bs)
    ensures run[i].recvs[r].pc == VDone ==> run[i].recvs[r].out == Flatten(bs)
  {
    NcclSafety.RunInv(bs, N, run);
    NcclSafety.At(bs, run[i], r);
    var y := run[i].recvs[r];
    if !y.pc.VFirst? { FlattenTake(bs, y.k, y.j); }
  }

  /** The anonymous requests served in one round come from pairwise distinct receivers,
      and each gets the metadata of the bucket it is about to receive (lines 91-98). */
  lemma ServedOncePerRound(bs: NcclRounds.Buckets, N: nat, run: seq<Net>, i: nat, pick: nat)
    requires BucketsOk(bs) && NcclRounds.Run(bs, N, run)
    requires i < |run| && NcclRounds.Enabled(bs, run[i], RootServe(pick))
    ensures var x := run[i].root;
      var y := run[i].recvs[x.queue[pick]];
      && x.queue[pick] !in x.served && x.op.count == |x.served|
      && y.round == x.ops - 1 < |bs| && x.opMeta == NcclSafety.MetaFor(bs, y.round)
  {
    NcclSafety.RunInv(bs, N, run);
    NcclSafety.ServesInTurn(bs, run[i], pick);
    NcclSafety.At(bs, run[i], 0);
  }

  /** The root enters a broadcast only when every receiver has been served, or has already
      joined, in this round; so no receiver is left without metadata. */
  lemma EntersTogether(bs: NcclRounds.Buckets, N: nat, run: seq<Net>, i: nat, r: nat)
    requires BucketsOk(bs) && NcclRounds.Run(bs, N, run)
    requires i < |run| && NcclRounds.Enabled(bs, run[i], RootEnter) && r < |run[i].recvs|
    ensures run[i].recvs[r].round == run[i].root.ops - 1
    ensures run[i].recvs[r].op.Receiving? || run[i].recvs[r].reply == Some(run[i].root.opMeta)
  {
    NcclSafety.RunInv(bs, N, run);
    NcclSafety.RootEnters(bs, run[i]);
    NcclSafety.At(bs, run[i], r);
  }

  /** The root never writes a buffer whose broadcast is under way, and the buffer a
      receiver yields from holds its bucket intact however far the broadcast into the
      other buffer has come. */
  lemma BuffersKeptApart(bs: NcclRounds.Buckets, N: nat, run: seq<Net>, i: nat, r: nat)
    requires BucketsOk(bs) && NcclRounds.Run(bs, N, run)
    requires i < |run| && r < |run[i].recvs|
    ensures var x := run[i].root;
      NcclRounds.Enabled(bs, run[i], RootFill) && (x.op.Serve? || x.op == InBroadcast) ==> x.opBuf != x.sel
    ensures var y := run[i].recvs[r];
      y.pc == VYield || y.pc == VNext ==>
        && y.sel < |y.bufs| && y.k < |bs| && y.bufs[y.sel] == DataOf(bs[y.k]) && y.meta.metas == MetasOf(bs[y.k])
        && (y.op != Idle ==> y.round == y.k + 1)
  {
    NcclSafety.RunInv(bs, N, run);
    NcclSafety.At(bs, run[i], r);
  }

  // ---------- no deadlock ----------

  /** Every receiver has the whole bucket of the root's current broadcast. */
  ghost predicate AllReceived(s: Net) {
    forall r: nat :: r < |s.recvs| ==> s.recvs[r].round >= s.root.ops || s.recvs[r].op == Received
  }

  /** A step that does not rely on the root's call returning before all have received. */
  ghost predicate CanMove(bs: NcclRounds.Buckets, s: Net) {
    exists a :: NcclRounds.Enabled(bs, s, a) && (a == RootReturn ==> AllReceived(s))
  }

  predicate WaitsForRoot(x: Root, y: Recv) {
    (y.op == AwaitReply && y.reply.None?) || (y.op.Receiving? && y.round >= Entered(x))
  }

  lemma OperationMoves(bs: NcclRounds.Buckets, s: Net, r: nat)
    requires BucketsOk(bs) && NcclSafety.Inv(bs, s) && r < |s.recvs|
    ensures CanMove(bs, s) || WaitsForRoot(s.root, s.recvs[r]) || s.recvs[r].op == Received || s.recvs[r].op == Idle
  {
    hide NcclSafety.Inv, NcclSafety.QueueInv, NcclSafety.Turn, NcclSafety.Holds, Consumed, Wire;
    NcclSafety.At(bs, s, r);
    var y := s.recvs[r];
    if y.op.Receiving? && y.round < Entered(s.root) {
      NcclSafety.WireHolds(bs, s.root, y.round, |s.recvs|);
      DataAll(bs[y.round]);
      assert NcclRounds.Enabled(bs, s, if y.op.copied == |bs[y.round]| then RecvComplete(r) else RecvSlot(r));
    } else if y.op == Request {
      assert NcclRounds.Enabled(bs, s, RecvRequest(r));
    } else if y.op == AwaitReply && y.reply.Some? {
      assert NcclRounds.Enabled(bs, s, RecvReply(r));
    }
  }

  lemma ReceiverMoves(bs: NcclRounds.Buckets, s: Net, r: nat)
    requires BucketsOk(bs) && NcclSafety.Inv(bs, s) && r < |s.recvs|
    ensures CanMove(bs, s) || WaitsForRoot(s.root, s.recvs[r]) || s.recvs[r].pc == VDone
  {
    OperationMoves(bs, s, r);
    YielderMoves(bs, s, r);
    hide NcclSafety.Inv, NcclSafety.QueueInv, NcclSafety.Turn, NcclSafety.RootInv, NcclSafety.Holds,
      Consumed, Wire, WaitsForRoot;
    NcclSafety.At(bs, s, r);
    var y := s.recvs[r];
    if y.op == Received || y.op == Idle {
      match y.pc {
        case VFirst => assert NcclRounds.Enabled(bs, s, RecvFirst(r));
        case VNext => assert NcclRounds.Enabled(bs, s, RecvNext(r));
        case VYield =>
        case VDone =>
      }
    }
  }

  lemma YielderMoves(bs: NcclRounds.Buckets, s: Net, r: nat)
    requires BucketsOk(bs) && NcclSafety.Inv(bs, s) && r < |s.recvs|
    ensures s.recvs[r].pc == VYield ==> CanMove(bs, s)
  {
    hide NcclSafety.Inv, NcclSafety.QueueInv, NcclSafety.Turn, NcclSafety.RootInv, Consumed, Wire;
    NcclSafety.At(bs, s, r);
    var y := s.recvs[r];
    if y.pc == VYield {
      DataAll(bs[y.k]);
      assert if y.j < |y.meta.metas| then NcclRounds.Enabled(bs, s, RecvYield(r))
             else NcclRounds.Enabled(bs, s, if y.meta.last then RecvDone(r) else RecvYieldEnd(r));
    }
  }

  /** While the root serves, either a request is waiting or some receiver can move. */
  lemma ServingMoves(bs: NcclRounds.Buckets, s: Net)
    requires BucketsOk(bs) && NcclSafety.Inv(bs, s) && s.root.op.Serve?
    ensures CanMove(bs, s)
  {
    hide NcclSafety.Inv, Consumed;
    var x := s.root;
    NcclSafety.At(bs, s, 0);
    if x.op.count == |s.recvs| {
      assert NcclRounds.Enabled(bs, s, RootEnter);
    } else if x.queue != [] {
      NcclSafety.NoRoom(x.served, |s.recvs|);
      assert NcclRounds.Enabled(bs, s, RootServe(0));
    } else {
      NcclSafety.NoRoom(x.served, |s.recvs|);
      if forall r: nat :: r < |s.recvs| ==> r in x.served { EverybodyCounts(x.served, |s.recvs|); }
      var r: nat :| r < |s.recvs| && r !in x.served;
      NcclSafety.At(bs, s, r);
      ReceiverMoves(bs, s, r);
    }
  }

  lemma {:induction false} EverybodyCounts(served: set<nat>, N: nat)
    requires forall r: nat :: r < N ==> r in served
    ensures |served| >= N
  {
    if N > 0 {
      var last: nat := N - 1;
      EverybodyCounts(served - {last}, last);
    }
  }

  lemma BroadcastMoves(bs: NcclRounds.Buckets, s: Net)
    requires BucketsOk(bs) && NcclSafety.Inv(bs, s) && s.root.op == InBroadcast
    ensures CanMove(bs, s)
  {
    hide NcclSafety.Inv, Consumed;
    if AllReceived(s) {
      assert NcclRounds.Enabled(bs, s, RootReturn);
    } else {
      var r: nat :| r < |s.recvs| && s.recvs[r].round < s.root.ops && s.recvs[r].op != Received;
      NcclSafety.At(bs, s, r);
      ReceiverMoves(bs, s, r);
    }
  }

  ghost predicate AllDone(s: Net) {
    s.root.pc == RDone && forall r: nat :: r < |s.recvs| ==> s.recvs[r].pc == VDone
  }

  /** From every reachable state that is not final some rank can move, even if the root's
      broadcast call returns only after every receiver has its data. */
  lemma NcclNoDeadlock(bs: NcclRounds.Buckets, s: Net)
    requires BucketsOk(bs) && NcclSafety.Inv(bs, s)
    ensures AllDone(s) || CanMove(bs, s)
  {
    hide NcclSafety.Inv, NcclSafety.QueueInv, Consumed;
    NcclSafety.At(bs, s, 0);
    var x := s.root;
    if x.op.Serve? { ServingMoves(bs, s); }
    else if x.op == InBroadcast { BroadcastMoves(bs, s); }
    else {
      match x.pc {
        case RFill => assert NcclRounds.Enabled(bs, s, if x.j == |bs[x.k]| then RootFull else RootFill);
        case RWaitPrevious => assert NcclRounds.Enabled(bs, s, RootCreate);
        case RWaitLast => assert NcclRounds.Enabled(bs, s, RootDone);
        case RDone =>
          if !AllDone(s) {
            var r: nat :| r < |s.recvs| && s.recvs[r].pc != VDone;
            NcclSafety.At(bs, s, r);
            ReceiverMoves(bs, s, r);
          }
      }
    }
  }

  // ---------- termination ----------

  ghost function RootWork(bs: NcclRounds.Buckets, x: Root, N: nat): int
    requires x.k < |bs|
  {
    (match x.pc
     case RFill => Work(bs, x.k, 3) - x.j
     case RWaitPrevious => Work(bs, x.k, 3) - |bs[x.k]| - 1
     case RWaitLast => 1
     case RDone => 0)
    + (|bs| - x.ops) * (N + 3)
    + (match x.op
       case NoOp => 0
       case Serve(c) => N - c + 2
       case InBroadcast => 1
       case Finished => 0)
  }

  ghost function RecvWork(bs: NcclRounds.Buckets, y: Recv): int
    requires y.k < |bs|
  {
    (match y.pc
     case VFirst => Work(bs, 0, 3) + 1
     case VYield => Work(bs, y.k, 3) - y.j
     case VNext => Work(bs, y.k, 3) - |bs[y.k]| - 1
     case VDone => Work(bs, y.k, 3) - |bs[y.k]| - 2)
    + Work(bs, y.round + 1, 4)
    + (if y.round >= |bs| then 0 else
         match y.op
         case Request => |bs[y.round]| + 3
         case AwaitReply => |bs[y.round]| + 2
         case Receiving(n) => |bs[y.round]| + 1 - n
         case Received => 0
         case Idle => 0)
  }

  ghost function RecvsWork(bs: NcclRounds.Buckets, recvs: seq<Recv>): int {
    if recvs == [] then 0
    else
      var y := recvs[|recvs| - 1];
      RecvsWork(bs, recvs[..|recvs| - 1]) + if y.k < |bs| then RecvWork(bs, y) else 0
  }

  ghost function NetWork(bs: NcclRounds.Buckets, s: Net): int {
    RecvsWork(bs, s.recvs) + if s.root.k < |bs| then RootWork(bs, s.root, |s.recvs|) else 0
  }

  lemma {:induction false} RecvsUpdate(bs: NcclRounds.Buckets, recvs: seq<Recv>, r: nat, y: Recv)
    requires r < |recvs| && recvs[r].k < |bs| && y.k < |bs|
    ensures RecvsWork(bs, recvs[r := y]) == RecvsWork(bs, recvs) - RecvWork(bs, recvs[r]) + RecvWork(bs, y)
  {
    hide RecvWork;
    var front := recvs[..|recvs| - 1];
    if r == |recvs| - 1 {
      assert recvs[r := y][..|recvs| - 1] == front;
    } else {
      assert recvs[r := y][..|recvs| - 1] == front[r := y];
      RecvsUpdate(bs, front, r, y);
    }
  }

  lemma {:induction false} RecvsNonNegative(bs: NcclRounds.Buckets, recvs: seq<Recv>, entered: int)
    requires forall r :: 0 <= r < |recvs| ==> NcclSafety.RecvInv(bs, recvs[r], entered)
    ensures RecvsWork(bs, recvs) >= 0
  {
    hide NcclSafety.RecvInv, RecvWork;
    if recvs != [] {
      RecvsNonNegative(bs, recvs[..|recvs| - 1], entered);
      RecvNonNegative(bs, recvs[|recvs| - 1], entered);
    }
  }

  lemma RecvNonNegative(bs: NcclRounds.Buckets, y: Recv, entered: int)
    requires NcclSafety.RecvInv(bs, y, entered)
    ensures y.k < |bs| && RecvWork(bs, y) >= 0
  {
    hide Consumed;
  }

  lemma RootWorks(bs: NcclRounds.Buckets, x: Root, s: Net, a: Step)
    requires BucketsOk(bs) && NcclSafety.Inv(bs, s) && NcclRounds.Enabled(bs, s, a) && x == s.root
    requires a.RootFill? || a.RootFull? || a.RootCreate? || a.RootServe? || a.RootEnter? || a.RootReturn? || a.RootDone?
    ensures x.k < |bs| && NcclRounds.Apply(bs, s, a).root.k < |bs|
    ensures RootWork(bs, NcclRounds.Apply(bs, s, a).root, |s.recvs|) < RootWork(bs, x, |s.recvs|)
  {
    hide NcclSafety.Inv, NcclSafety.QueueInv, NcclSafety.RecvInv, Wire;
    NcclSafety.At(bs, s, 0);
    var n, m := |bs| - x.ops, |s.recvs| + 3;
    assert (n - 1) * m == n * m - m;
  }

  lemma RecvReadWorks(bs: NcclRounds.Buckets, s: Net, r: nat, a: Step)
    requires BucketsOk(bs) && NcclSafety.Inv(bs, s) && r < |s.recvs| && NcclRounds.Enabled(bs, s, a)
    requires a == RecvSlot(r) || a == RecvComplete(r)
    ensures s.recvs[r].k < |bs| && NcclRounds.Apply(bs, s, a).recvs[r].k < |bs|
    ensures RecvWork(bs, NcclRounds.Apply(bs, s, a).recvs[r]) < RecvWork(bs, s.recvs[r])
  {
    hide NcclSafety.Inv, NcclSafety.QueueInv, NcclSafety.Turn, NcclSafety.Holds, Consumed, Wire, Work;
    NcclSafety.At(bs, s, r);
    var y := s.recvs[r];
    NcclSafety.WireHolds(bs, s.root, y.round, |s.recvs|);
    DataAll(bs[y.round]);
    hide NcclSafety.RootInv, BucketsOk;
  }

  lemma RecvOwnWorks(bs: NcclRounds.Buckets, s: Net, r: nat, a: Step)
    requires BucketsOk(bs) && NcclSafety.Inv(bs, s) && r < |s.recvs| && NcclRounds.Enabled(bs, s, a)
    requires a == RecvRequest(r) || a == RecvReply(r)
          || a == RecvYield(r) || a == RecvYieldEnd(r) || a == RecvDone(r) || a == RecvFirst(r) || a == RecvNext(r)
    ensures s.recvs[r].k < |bs| && NcclRounds.Apply(bs, s, a).recvs[r].k < |bs|
    ensures RecvWork(bs, NcclRounds.Apply(bs, s, a).recvs[r]) < RecvWork(bs, s.recvs[r])
  {
    hide NcclSafety.Inv, NcclSafety.QueueInv, NcclSafety.Turn, NcclSafety.RootInv, Consumed, Wire;
    NcclSafety.At(bs, s, r);
    DataAll(bs[s.recvs[r].k]);
  }

  lemma RecvWorks(bs: NcclRounds.Buckets, s: Net, r: nat, a: Step)
    requires BucketsOk(bs) && NcclSafety.Inv(bs, s) && r < |s.recvs| && NcclRounds.Enabled(bs, s, a)
    requires a == RecvRequest(r) || a == RecvReply(r) || a == RecvSlot(r) || a == RecvComplete(r)
          || a == RecvYield(r) || a == RecvYieldEnd(r) || a == RecvDone(r) || a == RecvFirst(r) || a == RecvNext(r)
    ensures s.recvs[r].k < |bs| && NcclRounds.Apply(bs, s, a).recvs[r].k < |bs|
    ensures RecvWork(bs, NcclRounds.Apply(bs, s, a).recvs[r]) < RecvWork(bs, s.recvs[r])
  {
    if a == RecvSlot(r) || a == RecvComplete(r) {
      RecvReadWorks(bs, s, r, a);
    } else {
      RecvOwnWorks(bs, s, r, a);
    }
    hide NcclSafety.Inv, RecvWork, NcclRounds.Enabled, NcclRounds.Apply;
  }

  /** Every step of every interleaving makes the measure smaller. */
  lemma NetWorks(bs: NcclRounds.Buckets, s: Net, a: Step)
    requires BucketsOk(bs) && NcclSafety.Inv(bs, s) && NcclRounds.Enabled(bs, s, a)
    ensures NetWork(bs, NcclRounds.Apply(bs, s, a)) < NetWork(bs, s)
  {
    hide NcclSafety.Inv, RootWork, RecvWork, Wire;
    var t := NcclRounds.Apply(bs, s, a);
    match a {
      case RootServe(pick) =>
        RootWorks(bs, s.root, s, a);
        ReplyIsFree(bs, s, pick);
        RecvsUpdate(bs, s.recvs, s.root.queue[pick], t.recvs[s.root.queue[pick]]);
      case RootFill => RootWorks(bs, s.root, s, a);
      case RootFull => RootWorks(bs, s.root, s, a);
      case RootCreate => RootWorks(bs, s.root, s, a);
      case RootEnter => RootWorks(bs, s.root, s, a);
      case RootReturn => RootWorks(bs, s.root, s, a);
      case RootDone => RootWorks(bs, s.root, s, a);
      case RecvRequest(r) => RecvChanges(bs, s, r, a);
      case RecvReply(r) => RecvChanges(bs, s, r, a);
      case RecvSlot(r) => RecvChanges(bs, s, r, a);
      case RecvComplete(r) => RecvChanges(bs, s, r, a);
      case RecvFirst(r) => RecvChanges(bs, s, r, a);
      case RecvYield(r) => RecvChanges(bs, s, r, a);
      case RecvYieldEnd(r) => RecvChanges(bs, s, r, a);
      case RecvNext(r) => RecvChanges(bs, s, r, a);
      case RecvDone(r) => RecvChanges(bs, s, r, a);
    }
  }

  lemma RecvChanges(bs: NcclRounds.Buckets, s: Net, r: nat, a: Step)
    requires BucketsOk(bs) && NcclSafety.Inv(bs, s) && NcclRounds.Enabled(bs, s, a)
    requires a == RecvRequest(r) || a == RecvReply(r) || a == RecvSlot(r) || a == RecvComplete(r)
          || a == RecvYield(r) || a == RecvYieldEnd(r) || a == RecvDone(r) || a == RecvFirst(r) || a == RecvNext(r)
    ensures NetWork(bs, NcclRounds.Apply(bs, s, a)) < NetWork(bs, s)
  {
    hide NcclSafety.Inv, RecvWork, Wire;
    var t := NcclRounds.Apply(bs, s, a);
    assert r < |s.recvs|;
    RecvWorks(bs, s, r, a);
    RecvsUpdate(bs, s.recvs, r, t.recvs[r]);
    assert t.recvs == s.recvs[r := t.recvs[r]];
    assert s.root.k == t.root.k;
    if s.root.k < |bs| { assert RootWork(bs, s.root, |s.recvs|) == RootWork(bs, t.root, |s.recvs|); }
  }

  lemma ReplyIsFree(bs: NcclRounds.Buckets, s: Net, pick: nat)
    requires NcclSafety.Inv(bs, s) && NcclRounds.Enabled(bs, s, RootServe(pick))
    ensures var r := s.root.queue[pick];
      && s.recvs[r].k < |bs| && NcclRounds.Apply(bs, s, RootServe(pick)).recvs[r].k < |bs|
      && RecvWork(bs, NcclRounds.Apply(bs, s, RootServe(pick)).recvs[r]) == RecvWork(bs, s.recvs[r])
  {
    hide Consumed;
    NcclSafety.At(bs, s, s.root.queue[pick]);
  }

  lemma {:induction false} NcclShrinks(bs: NcclRounds.Buckets, N: nat, run: seq<Net>)
    requires BucketsOk(bs) && NcclRounds.Run(bs, N, run)
    ensures NetWork(bs, run[|run| - 1]) + |run| - 1 <= NetWork(bs, NcclRounds.Init(N))
  {
    hide NetWork, NcclSafety.Inv, NcclRounds.Enabled, NcclRounds.Apply;
    if |run| > 1 {
      var front := run[..|run| - 1];
      assert NcclRounds.Run(bs, N, front);
      NcclShrinks(bs, N, front);
      NcclSafety.RunInv(bs, N, front);
      var s, t := front[|front| - 1], run[|run| - 1];
      assert Next(bs, run[|run| - 2], run[|run| - 1]);
      var a :| NcclRounds.Enabled(bs, s, a) && t == NcclRounds.Apply(bs, s, a);
      NetWorks(bs, s, a);
    }
  }

  lemma WorkNonNegative(bs: NcclRounds.Buckets, s: Net)
    requires NcclSafety.Inv(bs, s)
    ensures NetWork(bs, s) >= 0
  {
    hide NcclSafety.RecvInv, NcclSafety.Turn, NcclSafety.QueueInv, RecvsWork;
    RecvsNonNegative(bs, s.recvs, Entered(s.root));
    NcclSafety.NoRoom(s.root.served, |s.recvs|);
    var n, m := |bs| - s.root.ops, |s.recvs| + 3;
    assert n >= 0 ==> n * m >= 0;
  }

  ghost predicate AllHave(s: Net, items: seq<Item>) {
    forall r: nat :: r < |s.recvs| ==> s.recvs[r].out == items
  }

  /** Every run is bounded in length; one that cannot move any more has delivered the
      sender's whole chunk sequence to every receiver. */
  lemma EveryRoundCompletes(bs: NcclRounds.Buckets, N: nat, run: seq<Net>)
    requires BucketsOk(bs) && NcclRounds.Run(bs, N, run)
    ensures |run| - 1 <= NetWork(bs, NcclRounds.Init(N))
    ensures CanMove(bs, run[|run| - 1]) || AllDone(run[|run| - 1])
    ensures AllDone(run[|run| - 1]) ==>
      |run[|run| - 1].recvs| == N && AllHave(run[|run| - 1], Flatten(bs))
  {
    hide NcclSafety.Inv, NetWork, CanMove;
    var s := run[|run| - 1];
    NcclSafety.RunInv(bs, N, run);
    NcclShrinks(bs, N, run);
    WorkNonNegative(bs, s);
    NcclNoDeadlock(bs, s);
    forall r: nat | r < N ensures s.recvs[r].pc == VDone ==> s.recvs[r].out == Flatten(bs) {
      ReceivesInOrder(bs, N, run, |run| - 1, r);
    }
  }

  /** End to end: a run that cannot move any more has given every receiver exactly the
      sender's non-empty weights if these are aligned, and chunks whose merge fails in a
      view if they are not. */
  lemma EveryReceiverMerges(ws: seq<Weight>, B: nat, N: nat, run: seq<Net>, r: nat)
    requires 1 <= B && r < N && DistinctNames(ws)
    requires forall i :: 0 <= i < |ws| ==> WeightOk(ws[i])
    requires NcclRounds.Run(BucketsOf(NextFit([], Split(ws, B), B)), N, run)
    requires !CanMove(BucketsOf(NextFit([], Split(ws, B), B)), run[|run| - 1])
    ensures r < |run[|run| - 1].recvs|
    ensures Merge(None, PlacedItems(run[|run| - 1].recvs[r].out), B) ==
      if WeightsAligned(ws, B) then Ok((None, NonEmpty(ws))) else RuntimeError
  {
    SenderBucketsOk(ws, B);
    hide NcclRounds.Run, CanMove, Merge, NextFit, BucketsOf, NetWork;
    EveryRoundCompletes(BucketsOf(NextFit([], Split(ws, B), B)), N, run);
    DeliveredMerges(ws, B, run[|run| - 1].recvs[r].out);
  }
}
