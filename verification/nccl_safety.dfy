/** The rounds of the NCCL engine stay in step under every interleaving. */
module NcclSafety {
  import opened Basics
  import opened WeightChunks
  import opened WeightBuckets
  import opened NixlChain
  import opened NixlSafety
  import opened NcclRounds

  function MetaFor(bs: Buckets, q: nat): Metadata
    requires q < |bs|
  {
    Metadata(MetasOf(bs[q]), q + 1 == |bs|)
  }

  ghost predicate RootInv(bs: Buckets, x: Root, N: nat) {
    && |x.bufs| == 2 && x.sel < 2 && x.k < |bs| && x.j <= |bs[x.k]|
    && (match x.pc
        case RFill =>
          x.ops == x.k && (x.j > 0 || bs[x.k] == [] ==> x.bufs[x.sel] == DataOf(bs[x.k])[..x.j])
        case RWaitPrevious => x.ops == x.k && x.bufs[x.sel] == DataOf(bs[x.k])
        case RWaitLast => x.ops == x.k + 1 == |bs|
        case RDone => x.ops == x.k + 1 == |bs| && x.op == Finished)
    && (x.op == NoOp <==> x.ops == 0)
    && (x.ops > 0 ==>
          && x.opBuf == (if x.pc.RFill? || x.pc.RWaitPrevious? then Other(x.sel) else x.sel)
          && x.bufs[x.opBuf] == DataOf(bs[x.ops - 1])
          && x.opMeta == MetaFor(bs, x.ops - 1))
    && |x.wire| == (if x.op == Finished || x.op == NoOp then x.ops else x.ops - 1)
    && (forall q :: 0 <= q < |x.wire| ==> x.wire[q] == DataOf(bs[q]))
    && (forall r :: r in x.served ==> r < N)
    && (x.op.Serve? ==> x.op.count == |x.served|)
  }

  /** The receiver's current operation, of round `q`. */
  ghost predicate OpInv(bs: Buckets, y: Recv, q: nat, entered: int) {
    && q < |bs| && y.round == q && |y.bufs| == 2 && y.sel < 2
    && match y.op
       case Request => bs[q] == [] ==> y.bufs[Other(y.sel)] == []
       case AwaitReply => (bs[q] == [] ==> y.bufs[Other(y.sel)] == []) && (y.reply.Some? ==> y.reply.value == MetaFor(bs, q))
       case Receiving(n) =>
         && n <= |bs[q]| && y.opMeta == MetaFor(bs, q)
         && (n > 0 || bs[q] == [] ==> y.bufs[Other(y.sel)] == DataOf(bs[q])[..n])
       case Received => q < entered && y.opMeta == MetaFor(bs, q) && y.bufs[Other(y.sel)] == DataOf(bs[q])
       case Idle => false
  }

  ghost predicate Holds(bs: Buckets, y: Recv) {
    && |y.bufs| == 2 && y.sel < 2
    && y.k < |bs| && y.j <= |bs[y.k]| && y.meta == MetaFor(bs, y.k)
    && y.bufs[y.sel] == DataOf(bs[y.k]) && y.out == Consumed(bs, y.k, y.j)
  }

  ghost predicate RecvInv(bs: Buckets, y: Recv, entered: int) {
    && |y.bufs| == 2 && y.sel < 2 && y.round <= entered
    && (y.reply.Some? ==> y.op == AwaitReply)
    && match y.pc
       case VFirst => y.k == 0 && y.j == 0 && y.out == [] && OpInv(bs, y, 0, entered)
       case VYield =>
         Holds(bs, y) && if y.meta.last then y.op == Idle && y.round == y.k + 1 else OpInv(bs, y, y.k + 1, entered)
       case VNext => Holds(bs, y) && y.j == |bs[y.k]| && !y.meta.last && OpInv(bs, y, y.k + 1, entered)
       case VDone => Holds(bs, y) && y.j == |bs[y.k]| && y.meta.last && y.op == Idle && y.round == y.k + 1
  }

  /** How many metadata requests of this receiver have been answered. */
  function Answered(y: Recv): nat {
    match y.op
    case Request => y.round
    case AwaitReply => if y.reply.Some? then y.round + 1 else y.round
    case Receiving(_) => y.round + 1
    case Received => y.round + 1
    case Idle => y.round
  }

  /** While the root serves its current operation, a receiver is one answer behind exactly
      if it has not been served in it; otherwise all are level with the root. */
  ghost predicate Turn(x: Root, y: Recv, r: nat) {
    Answered(y) == if x.op.Serve? && r !in x.served then x.ops - 1 else x.ops
  }

  ghost predicate QueueInv(queue: seq<nat>, recvs: seq<Recv>) {
    && (forall i :: 0 <= i < |queue| ==> queue[i] < |recvs|)
    && (forall i, j :: 0 <= i < j < |queue| ==> queue[i] != queue[j])
    && (forall r: nat :: r < |recvs| ==> (r in queue <==> recvs[r].op == AwaitReply && recvs[r].reply.None?))
  }

  ghost predicate Inv(bs: Buckets, s: Net) {
    && RootInv(bs, s.root, |s.recvs|)
    && (forall r: nat :: r < |s.recvs| ==> RecvInv(bs, s.recvs[r], Entered(s.root)))
    && (forall r: nat :: r < |s.recvs| ==> Turn(s.root, s.recvs[r], r))
    && QueueInv(s.root.queue, s.recvs)
  }

  lemma InitInv(bs: Buckets, N: nat)
    requires BucketsOk(bs)
    ensures Inv(bs, NcclRounds.Init(N))
  {
    assert DataOf(bs[0])[..0] == [];
  }

  lemma At(bs: Buckets, s: Net, r: nat)
    requires Inv(bs, s)
    ensures RootInv(bs, s.root, |s.recvs|) && QueueInv(s.root.queue, s.recvs)
    ensures r < |s.recvs| ==> RecvInv(bs, s.recvs[r], Entered(s.root)) && Turn(s.root, s.recvs[r], r)
  {
    hide RootInv, RecvInv, Turn, QueueInv;
  }

  /** One receiver changes and the queue with it. */
  lemma UpdateRecv(bs: Buckets, s: Net, r: nat, y: Recv, queue: seq<nat>)
    requires Inv(bs, s) && r < |s.recvs|
    requires RecvInv(bs, y, Entered(s.root)) && Turn(s.root, y, r)
    requires QueueInv(queue, s.recvs[r := y])
    ensures Inv(bs, Net(s.root.(queue := queue), s.recvs[r := y]))
  {
    hide RecvInv, QueueInv;
  }

  /** Only the root changes. */
  lemma UpdateRoot(bs: Buckets, s: Net, x: Root)
    requires Inv(bs, s)
    requires RootInv(bs, x, |s.recvs|) && x.queue == s.root.queue && Entered(s.root) <= Entered(x)
    requires forall r: nat :: r < |s.recvs| ==> Turn(x, s.recvs[r], r)
    ensures Inv(bs, s.(root := x))
  {
    forall r: nat | r < |s.recvs| ensures RecvInv(bs, s.recvs[r], Entered(x)) {
      EnteredMore(bs, s.recvs[r], Entered(s.root), Entered(x));
    }
    hide RootInv, RecvInv, Turn, QueueInv;
  }

  lemma EnteredMore(bs: Buckets, y: Recv, before: int, after: int)
    requires RecvInv(bs, y, before) && before <= after
    ensures RecvInv(bs, y, after)
  {
    hide Consumed;
  }

  // ---------- root steps ----------

  lemma RootFills(bs: Buckets, s: Net)
    requires BucketsOk(bs) && Inv(bs, s) && NcclRounds.Enabled(bs, s, RootFill)
    ensures Inv(bs, NcclRounds.Apply(bs, s, RootFill))
  {
    var x, t := s.root, NcclRounds.Apply(bs, s, RootFill);
    At(bs, s, 0);
    DataAt(bs[x.k], x.j);
    forall r: nat | r < |s.recvs| ensures Turn(t.root, s.recvs[r], r) { assert Turn(x, s.recvs[r], r); }
    hide Inv, RecvInv, Turn, QueueInv;
    UpdateRoot(bs, s, t.root);
  }

  lemma RootAlone(bs: Buckets, s: Net, a: Step)
    requires BucketsOk(bs) && Inv(bs, s) && NcclRounds.Enabled(bs, s, a)
    requires a.RootFull? || a.RootReturn? || a.RootDone?
    ensures Inv(bs, NcclRounds.Apply(bs, s, a))
  {
    var x, t := s.root, NcclRounds.Apply(bs, s, a);
    At(bs, s, 0);
    DataAll(bs[x.k]);
    forall r: nat | r < |s.recvs| ensures Turn(t.root, s.recvs[r], r) { assert Turn(x, s.recvs[r], r); }
    hide Inv, RecvInv, Turn, QueueInv;
    UpdateRoot(bs, s, t.root);
  }

  lemma RootCreates(bs: Buckets, s: Net)
    requires BucketsOk(bs) && Inv(bs, s) && NcclRounds.Enabled(bs, s, RootCreate)
    ensures Inv(bs, NcclRounds.Apply(bs, s, RootCreate))
  {
    var x, t := s.root, NcclRounds.Apply(bs, s, RootCreate);
    At(bs, s, 0);
    if x.k + 1 < |bs| { assert DataOf(bs[x.k + 1])[..0] == []; }
    forall r: nat | r < |s.recvs| ensures Turn(t.root, s.recvs[r], r) { assert Turn(x, s.recvs[r], r); }
    hide Inv, RecvInv, Turn, QueueInv;
    UpdateRoot(bs, s, t.root);
  }

  lemma {:induction false} AllServed(served: set<nat>, N: nat)
    requires |served| == N && forall r :: r in served ==> r < N
    ensures forall r: nat :: r < N ==> r in served
  {
    if N > 0 {
      var last: nat := N - 1;
      if last !in served { NoRoom(served, last); }
      AllServed(served - {last}, last);
    }
  }

  lemma {:induction false} NoRoom(served: set<nat>, n: nat)
    requires forall r :: r in served ==> r < n
    ensures |served| <= n
  {
    if n == 0 {
      assert forall r :: r !in served;
      assert served == {};
    } else {
      var last: nat := n - 1;
      NoRoom(served - {last}, last);
    }
  }

  /** The handshake's purpose (lines 85-89): the root enters a broadcast only when every
      receiver has its metadata for it. */
  lemma RootEnters(bs: Buckets, s: Net)
    requires BucketsOk(bs) && Inv(bs, s) && NcclRounds.Enabled(bs, s, RootEnter)
    ensures forall r: nat :: r < |s.recvs| ==> Answered(s.recvs[r]) == s.root.ops
    ensures Inv(bs, NcclRounds.Apply(bs, s, RootEnter))
  {
    var x, t := s.root, NcclRounds.Apply(bs, s, RootEnter);
    At(bs, s, 0);
    AllServed(x.served, |s.recvs|);
    forall r: nat | r < |s.recvs| ensures Turn(t.root, s.recvs[r], r) && Answered(s.recvs[r]) == x.ops {
      assert Turn(x, s.recvs[r], r);
    }
    hide Inv, RecvInv, Turn, QueueInv, Answered;
    UpdateRoot(bs, s, t.root);
  }

  /** The request being served comes from a receiver that was not served in this round
      yet, and it asks for this round's metadata. */
  lemma ServesInTurn(bs: Buckets, s: Net, pick: nat)
    requires Inv(bs, s) && NcclRounds.Enabled(bs, s, RootServe(pick))
    ensures var r := s.root.queue[pick];
      && r !in s.root.served && s.recvs[r].op == AwaitReply && s.recvs[r].reply.None?
      && s.recvs[r].round == s.root.ops - 1 && s.root.opMeta == MetaFor(bs, s.recvs[r].round)
  {
    var r := s.root.queue[pick];
    At(bs, s, r);
    assert r in s.root.queue;
  }

  lemma QueuePick(queue: seq<nat>, recvs: seq<Recv>, pick: nat, y: Recv)
    requires QueueInv(queue, recvs) && pick < |queue| && y.reply.Some?
    ensures QueueInv(queue[..pick] + queue[pick + 1..], recvs[queue[pick] := y])
  {
    var r, rest := queue[pick], queue[..pick] + queue[pick + 1..];
    forall q: nat | q < |recvs| ensures q in rest <==> q in queue && q != r {
      if q in queue && q != r {
        var i :| 0 <= i < |queue| && queue[i] == q;
        assert rest[if i < pick then i else i - 1] == q;
      }
    }
  }

  lemma RootServes(bs: Buckets, s: Net, pick: nat)
    requires BucketsOk(bs) && Inv(bs, s) && NcclRounds.Enabled(bs, s, RootServe(pick))
    ensures Inv(bs, NcclRounds.Apply(bs, s, RootServe(pick)))
  {
    var x, r := s.root, s.root.queue[pick];
    var t := NcclRounds.Apply(bs, s, RootServe(pick));
    ServesInTurn(bs, s, pick);
    At(bs, s, r);
    QueuePick(x.queue, s.recvs, pick, t.recvs[r]);
    ReplyInv(bs, s.recvs[r], Entered(x));
    assert RootInv(bs, t.root, |s.recvs|);
    forall q: nat | q < |s.recvs|
      ensures RecvInv(bs, t.recvs[q], Entered(t.root)) && Turn(t.root, t.recvs[q], q)
    {
      assert RecvInv(bs, s.recvs[q], Entered(x)) && Turn(x, s.recvs[q], q);
      if q != r { hide RecvInv; }
    }
    hide RootInv, RecvInv, Turn, QueueInv;
  }

  lemma ReplyInv(bs: Buckets, y: Recv, entered: int)
    requires RecvInv(bs, y, entered) && y.op == AwaitReply && y.round < |bs|
    ensures RecvInv(bs, y.(reply := Some(MetaFor(bs, y.round))), entered)
  {
    hide Consumed;
  }

  // ---------- receiver steps ----------

  lemma QueueSame(queue: seq<nat>, recvs: seq<Recv>, r: nat, y: Recv)
    requires QueueInv(queue, recvs) && r < |recvs|
    requires (y.op == AwaitReply && y.reply.None?) <==> (recvs[r].op == AwaitReply && recvs[r].reply.None?)
    ensures QueueInv(queue, recvs[r := y])
  {
  }

  lemma QueueAdd(queue: seq<nat>, recvs: seq<Recv>, r: nat, y: Recv)
    requires QueueInv(queue, recvs) && r < |recvs|
    requires recvs[r].op == Request && y.op == AwaitReply && y.reply.None?
    ensures QueueInv(queue + [r], recvs[r := y])
  {
  }

  /** What the receiver reads off the wire is the bucket of its round. */
  lemma WireHolds(bs: Buckets, x: Root, q: nat, N: nat)
    requires RootInv(bs, x, N) && q < Entered(x)
    ensures q < |bs| && Wire(x, q) == DataOf(bs[q])
  {
  }

  lemma RecvReads(bs: Buckets, s: Net, r: nat, a: Step)
    requires BucketsOk(bs) && Inv(bs, s) && r < |s.recvs| && NcclRounds.Enabled(bs, s, a)
    requires a == RecvSlot(r) || a == RecvComplete(r)
    ensures RecvInv(bs, NcclRounds.Apply(bs, s, a).recvs[r], Entered(s.root))
    ensures Turn(s.root, NcclRounds.Apply(bs, s, a).recvs[r], r)
  {
    hide Inv, Consumed, QueueInv, Wire, RootInv, Holds;
    At(bs, s, r);
    var y := s.recvs[r];
    WireHolds(bs, s.root, y.round, |s.recvs|);
    DataAll(bs[y.round]);
    if y.op.copied < |bs[y.round]| { DataAt(bs[y.round], y.op.copied); }
    KeepsHolding(bs, y, NcclRounds.Apply(bs, s, a).recvs[r]);
  }

  /** Only send_buf, the metadata and the output matter to the bucket that is held. */
  lemma KeepsHolding(bs: Buckets, y: Recv, z: Recv)
    requires |y.bufs| == |z.bufs| == 2 && y.sel == z.sel < 2 && y.bufs[y.sel] == z.bufs[z.sel]
    requires y.k == z.k && y.j == z.j && y.meta == z.meta && y.out == z.out
    ensures Holds(bs, y) <==> Holds(bs, z)
  {
  }

  lemma RecvHandshakes(bs: Buckets, s: Net, r: nat, a: Step)
    requires BucketsOk(bs) && Inv(bs, s) && r < |s.recvs| && NcclRounds.Enabled(bs, s, a)
    requires a == RecvRequest(r) || a == RecvReply(r)
    ensures RecvInv(bs, NcclRounds.Apply(bs, s, a).recvs[r], Entered(s.root))
    ensures Turn(s.root, NcclRounds.Apply(bs, s, a).recvs[r], r)
  {
    hide Inv, Consumed, QueueInv, RootInv, Holds;
    At(bs, s, r);
    var y := s.recvs[r];
    if y.round < |bs| { assert DataOf(bs[y.round])[..0] == []; }
    KeepsHolding(bs, y, NcclRounds.Apply(bs, s, a).recvs[r]);
  }

  lemma RecvCoroutine(bs: Buckets, s: Net, r: nat, a: Step)
    requires BucketsOk(bs) && Inv(bs, s) && r < |s.recvs| && NcclRounds.Enabled(bs, s, a)
    requires a == RecvYield(r) || a == RecvYieldEnd(r) || a == RecvDone(r)
    ensures RecvInv(bs, NcclRounds.Apply(bs, s, a).recvs[r], Entered(s.root))
    ensures Turn(s.root, NcclRounds.Apply(bs, s, a).recvs[r], r)
  {
    hide Inv, Consumed, QueueInv, RootInv;
    At(bs, s, r);
    var y := s.recvs[r];
    DataAll(bs[y.k]);
    if y.j < |bs[y.k]| {
      DataAt(bs[y.k], y.j);
      ConsumeOne(bs, y.k, y.j);
    }
  }

  lemma RecvTakes(bs: Buckets, s: Net, r: nat, a: Step)
    requires BucketsOk(bs) && Inv(bs, s) && r < |s.recvs| && NcclRounds.Enabled(bs, s, a)
    requires a == RecvFirst(r) || a == RecvNext(r)
    ensures RecvInv(bs, NcclRounds.Apply(bs, s, a).recvs[r], Entered(s.root))
    ensures Turn(s.root, NcclRounds.Apply(bs, s, a).recvs[r], r)
  {
    hide Inv, Consumed, QueueInv, RootInv;
    At(bs, s, r);
    ConsumeBucket(bs, s.recvs[r].k);
  }

  lemma RecvStep(bs: Buckets, s: Net, r: nat, a: Step)
    requires BucketsOk(bs) && Inv(bs, s) && r < |s.recvs| && NcclRounds.Enabled(bs, s, a)
    requires a == RecvRequest(r) || a == RecvReply(r) || a == RecvSlot(r) || a == RecvComplete(r)
          || a == RecvYield(r) || a == RecvYieldEnd(r) || a == RecvDone(r) || a == RecvFirst(r) || a == RecvNext(r)
    ensures Inv(bs, NcclRounds.Apply(bs, s, a))
  {
    hide Inv, QueueInv, RootInv, RecvInv, Turn, Wire;
    At(bs, s, r);
    var x, y, t := s.root, s.recvs[r], NcclRounds.Apply(bs, s, a);
    if a.RecvRequest? || a.RecvReply? { RecvHandshakes(bs, s, r, a); }
    else if a.RecvSlot? || a.RecvComplete? { RecvReads(bs, s, r, a); }
    else if a.RecvFirst? || a.RecvNext? { RecvTakes(bs, s, r, a); }
    else { RecvCoroutine(bs, s, r, a); }
    if a.RecvRequest? {
      AwaitsNothing(bs, y, Entered(x));
      QueueAdd(x.queue, s.recvs, r, t.recvs[r]);
    } else {
      QueueSame(x.queue, s.recvs, r, t.recvs[r]);
    }
    UpdateRecv(bs, s, r, t.recvs[r], t.root.queue);
    assert t == Net(x.(queue := t.root.queue), s.recvs[r := t.recvs[r]]);
  }

  lemma AwaitsNothing(bs: Buckets, y: Recv, entered: int)
    requires RecvInv(bs, y, entered)
    ensures y.op == Request ==> y.reply.None?
  {
  }

  lemma StepInv(bs: Buckets, s: Net, a: Step)
    requires BucketsOk(bs) && Inv(bs, s) && NcclRounds.Enabled(bs, s, a)
    ensures Inv(bs, NcclRounds.Apply(bs, s, a))
  {
    hide Inv, NcclRounds.Apply;
    match a {
      case RootCreate => RootCreates(bs, s);
      case RootServe(pick) => RootServes(bs, s, pick);
      case RootEnter => RootEnters(bs, s);
      case RootFill => RootFills(bs, s);
      case RootFull => RootAlone(bs, s, a);
      case RootReturn => RootAlone(bs, s, a);
      case RootDone => RootAlone(bs, s, a);
      case RecvRequest(r) => RecvStep(bs, s, r, a);
      case RecvReply(r) => RecvStep(bs, s, r, a);
      case RecvSlot(r) => RecvStep(bs, s, r, a);
      case RecvComplete(r) => RecvStep(bs, s, r, a);
      case RecvFirst(r) => RecvStep(bs, s, r, a);
      case RecvYield(r) => RecvStep(bs, s, r, a);
      case RecvYieldEnd(r) => RecvStep(bs, s, r, a);
      case RecvNext(r) => RecvStep(bs, s, r, a);
      case RecvDone(r) => RecvStep(bs, s, r, a);
    }
  }

  lemma SameRanks(bs: Buckets, s: Net, a: Step)
    requires NcclRounds.Enabled(bs, s, a)
    ensures |NcclRounds.Apply(bs, s, a).recvs| == |s.recvs|
  {
  }

  lemma {:induction false} RunInv(bs: Buckets, N: nat, run: seq<Net>)
    requires BucketsOk(bs) && NcclRounds.Run(bs, N, run)
    ensures forall i :: 0 <= i < |run| ==> Inv(bs, run[i]) && |run[i].recvs| == N
  {
    hide Inv, NcclRounds.Enabled, NcclRounds.Apply;
    if |run| == 1 {
      InitInv(bs, N);
    } else {
      var front := run[..|run| - 1];
      RunInv(bs, N, front);
      var s, t := front[|front| - 1], run[|run| - 1];
      assert Next(bs, run[|run| - 2], run[|run| - 1]);
      var a :| NcclRounds.Enabled(bs, s, a) && t == NcclRounds.Apply(bs, s, a);
      StepInv(bs, s, a);
      SameRanks(bs, s, a);
      forall i | 0 <= i < |run| ensures Inv(bs, run[i]) && |run[i].recvs| == N {
        if i < |front| { assert run[i] == front[i]; }
      }
    }
  }
}
