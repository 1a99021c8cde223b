/** The NCCL engine (verl/checkpoint_engine/nccl_checkpoint_engine.py): one root and N
    receivers go through rounds of a REQ/REP metadata handshake and a collective
    broadcast. Every rank has a coroutine and an executor thread that runs the current
    broadcast operation; all of them interleave arbitrarily. */
module NcclRounds {
  import opened Basics
  import opened WeightChunks
  import opened WeightBuckets
  import opened NixlChain

  type Buckets = seq<seq<Item>>

  datatype Metadata = Metadata(metas: seq<TensorMeta>, last: bool)

  /** The root's broadcast operation: it serves metadata requests, then broadcasts. */
  datatype RootOp = NoOp | Serve(count: nat) | InBroadcast | Finished

  datatype RootPc = RFill | RWaitPrevious | RWaitLast | RDone

  datatype Root = Root(
    pc: RootPc,
    sel: nat, bufs: seq<Slots>,    // send_buf is bufs[sel]
    k: nat, j: nat,                // bucket being filled, chunks written
    op: RootOp, opBuf: nat, opMeta: Metadata,
    ops: nat,                      // operations created so far
    queue: seq<nat>,               // receivers whose request waits at the REP socket
    wire: seq<Slots>,              // what each finished broadcast had put on the wire
    served: set<nat>)              // history: receivers served in the current operation

  datatype RecvOp = Request | AwaitReply | Receiving(copied: nat) | Received | Idle

  datatype RecvPc = VFirst | VYield | VNext | VDone

  datatype Recv = Recv(
    pc: RecvPc,
    sel: nat, bufs: seq<Slots>,    // send_buf is bufs[sel], recv_buf the other one
    k: nat, j: nat,                // bucket in send_buf, chunks yielded
    meta: Metadata,
    op: RecvOp, round: nat,        // operations before this one are complete
    reply: Option<Metadata>,
    opMeta: Metadata,
    out: seq<Item>)

  datatype Net = Net(root: Root, recvs: seq<Recv>)

  const EMPTY := Metadata([], false)

  function Init(N: nat): Net {
    Net(Root(RFill, 0, [[], []], 0, 0, NoOp, 0, EMPTY, 0, [], [], {}),
        seq(N, _ => Recv(VFirst, 0, [[], []], 0, 0, EMPTY, Request, 0, None, EMPTY, [])))
  }

  datatype Step =
    | RootFill | RootFull | RootCreate | RootServe(pick: nat) | RootEnter | RootReturn | RootDone
    | RecvRequest(r: nat) | RecvReply(r: nat) | RecvSlot(r: nat) | RecvComplete(r: nat)
    | RecvFirst(r: nat) | RecvYield(r: nat) | RecvYieldEnd(r: nat) | RecvNext(r: nat) | RecvDone(r: nat)

  function Other(sel: nat): nat { if sel == 0 then 1 else 0 }

  /** How many broadcasts the root has entered. */
  function Entered(x: Root): int {
    match x.op
    case NoOp => 0
    case Serve(_) => x.ops - 1
    case InBroadcast => x.ops
    case Finished => x.ops
  }

  /** What the wire of round `q` carries: the live buffer while the root is in the
      broadcast, and what it held when the root's call returned afterwards. */
  ghost function Wire(x: Root, q: nat): Slots {
    if q < |x.wire| then x.wire[q] else if x.opBuf < |x.bufs| then x.bufs[x.opBuf] else []
  }

  ghost predicate Enabled(bs: Buckets, s: Net, a: Step) {
    var x := s.root;
    match a
    case RootFill => x.pc == RFill && x.k < |bs| && x.j < |bs[x.k]| && x.sel < |x.bufs| && x.j <= |x.bufs[x.sel]|
    case RootFull => x.pc == RFill && x.k < |bs| && x.j == |bs[x.k]|
    case RootCreate => x.pc == RWaitPrevious && x.k < |bs| && (x.op == NoOp || x.op == Finished)
    case RootServe(pick) =>
      x.op.Serve? && x.op.count < |s.recvs| && pick < |x.queue| && x.queue[pick] < |s.recvs|
    case RootEnter => x.op.Serve? && x.op.count == |s.recvs|
    case RootReturn => x.op == InBroadcast
    case RootDone => x.pc == RWaitLast && x.op == Finished
    case RecvRequest(r) => r < |s.recvs| && s.recvs[r].op == Request
    case RecvReply(r) => r < |s.recvs| && s.recvs[r].op == AwaitReply && s.recvs[r].reply.Some?
    case RecvSlot(r) =>
      r < |s.recvs| &&
      var y := s.recvs[r];
      && y.op.Receiving? && y.round < Entered(x) && y.sel < 2 == |y.bufs|
      && y.op.copied < |Wire(x, y.round)| && y.op.copied <= |y.bufs[Other(y.sel)]|
    case RecvComplete(r) =>
      r < |s.recvs| &&
      var y := s.recvs[r];
      y.op.Receiving? && y.round < Entered(x) && y.op.copied == |Wire(x, y.round)|
    case RecvFirst(r) => r < |s.recvs| && s.recvs[r].pc == VFirst && s.recvs[r].op == Received
    case RecvYield(r) =>
      r < |s.recvs| &&
      var y := s.recvs[r];
      y.pc == VYield && y.j < |y.meta.metas| && y.sel < |y.bufs| && y.j < |y.bufs[y.sel]|
    case RecvYieldEnd(r) =>
      r < |s.recvs| && s.recvs[r].pc == VYield && s.recvs[r].j == |s.recvs[r].meta.metas| && !s.recvs[r].meta.last
    case RecvNext(r) => r < |s.recvs| && s.recvs[r].pc == VNext && s.recvs[r].op == Received
    case RecvDone(r) =>
      r < |s.recvs| && s.recvs[r].pc == VYield && s.recvs[r].j == |s.recvs[r].meta.metas| && s.recvs[r].meta.last
  }

  /** Takes the received bucket over as the one to yield, and starts the next operation
      unless it was the last. */
  function TakeOver(y: Recv, k: nat): Recv {
    y.(pc := VYield, sel := Other(y.sel), meta := y.opMeta, k := k, j := 0,
       op := if y.opMeta.last then Idle else Request, round := y.round + 1)
  }

  ghost function Apply(bs: Buckets, s: Net, a: Step): Net
    requires Enabled(bs, s, a)
  {
    var x := s.root;
    match a
    case RootFill => s.(root := x.(bufs := Write(x.bufs, x.sel, x.j, bs[x.k][x.j].data), j := x.j + 1))
    case RootFull => s.(root := x.(pc := RWaitPrevious))
    case RootCreate =>
      var last := x.k + 1 == |bs|;
      var y := x.(op := Serve(0), opBuf := x.sel, opMeta := Metadata(MetasOf(bs[x.k]), last),
                  ops := x.ops + 1, served := {});
      s.(root := if last then y.(pc := RWaitLast)
                 else y.(pc := RFill, sel := Other(x.sel), k := x.k + 1, j := 0))
    case RootServe(pick) =>
      var r := x.queue[pick];
      Net(x.(queue := x.queue[..pick] + x.queue[pick + 1..], op := Serve(x.op.count + 1), served := x.served + {r}),
          s.recvs[r := s.recvs[r].(reply := Some(x.opMeta))])
    case RootEnter => s.(root := x.(op := InBroadcast))
    case RootReturn => s.(root := x.(op := Finished, wire := x.wire + [Wire(x, |x.wire|)]))
    case RootDone => s.(root := x.(pc := RDone))
    case RecvRequest(r) =>
      Net(x.(queue := x.queue + [r]), s.recvs[r := s.recvs[r].(op := AwaitReply)])
    case RecvReply(r) =>
      s.(recvs := s.recvs[r := s.recvs[r].(op := Receiving(0), opMeta := s.recvs[r].reply.value, reply := None)])
    case RecvSlot(r) =>
      var y := s.recvs[r];
      s.(recvs := s.recvs[r := y.(
        bufs := Write(y.bufs, Other(y.sel), y.op.copied, Wire(x, y.round)[y.op.copied]),
        op := Receiving(y.op.copied + 1))])
    case RecvComplete(r) => s.(recvs := s.recvs[r := s.recvs[r].(op := Received)])
    case RecvFirst(r) => s.(recvs := s.recvs[r := TakeOver(s.recvs[r], 0)])
    case RecvYield(r) =>
      var y := s.recvs[r];
      s.(recvs := s.recvs[r := y.(out := y.out + [Item(y.meta.metas[y.j], y.bufs[y.sel][y.j])], j := y.j + 1)])
    case RecvYieldEnd(r) => s.(recvs := s.recvs[r := s.recvs[r].(pc := VNext)])
    case RecvNext(r) => s.(recvs := s.recvs[r := TakeOver(s.recvs[r], s.recvs[r].k + 1)])
    case RecvDone(r) => s.(recvs := s.recvs[r := s.recvs[r].(pc := VDone)])
  }

  ghost predicate Next(bs: Buckets, s: Net, t: Net) {
    exists a :: Enabled(bs, s, a) && t == Apply(bs, s, a)
  }

  ghost predicate Run(bs: Buckets, N: nat, run: seq<Net>) {
    && run != [] && run[0] == Init(N)
    && forall i :: 0 <= i < |run| - 1 ==> Next(bs, run[i], run[i + 1])
  }
}
