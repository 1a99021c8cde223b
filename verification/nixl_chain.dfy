/** The NIXL store-and-forward chain (verl/checkpoint_engine/nixl_checkpoint_engine.py):
    rank 0 sends buckets to rank 1, every rank relays them to the next with its own two
    buffers. All ranks and all transfers interleave arbitrarily. */
module NixlChain {
  import opened Basics
  import opened WeightChunks
  import opened WeightBuckets

  /** One chunk as it travels: metadata through the message socket, data through the
      buffer. A buffer is the sequence of chunk slots written to it. */
  datatype Item = Item(meta: TensorMeta, data: seq<byte>)

  type Slots = seq<seq<byte>>

  function MetasOf(bucket: seq<Item>): seq<TensorMeta> { seq(|bucket|, i requires 0 <= i < |bucket| => bucket[i].meta) }

  function DataOf(bucket: seq<Item>): Slots { seq(|bucket|, i requires 0 <= i < |bucket| => bucket[i].data) }

  /** A readable-operation message (line 167): which buffer to read, and its metadata. */
  datatype Msg = Msg(key: int, src: nat, metas: seq<TensorMeta>, last: bool)

  /** A read operation of this rank, `copied` slots into its course. */
  datatype Read = NoRead | InFlight(key: int, src: nat, copied: nat)

  datatype Pc =
    | Fill           // sender: copying chunks into send_buf
    | AckBeforeSend  // sender: previous bucket must have been read
    | Announce       // sender: create the readable operation and swap
    | First          // receiver: waiting for the first message
    | FirstRead      // receiver: waiting for the first read
    | Top            // receiver: loop head, or the last bucket behind the loop
    | AwaitMeta      // receiver: waiting for the next message
    | Yield          // receiver: yielding chunks of send_buf
    | AwaitAck       // waiting until the next rank has read send_buf
    | AwaitRead      // receiver: waiting for the read into recv_buf
    | Done

  datatype Rank = Rank(
    pc: Pc,
    sel: nat,                  // which buffer is send_buf
    bufs: seq<Slots>,          // the two buffers
    k: nat,                    // bucket in send_buf
    j: nat,                    // its chunks written (sender) or yielded (receiver)
    metas: seq<TensorMeta>, last: bool,
    nextMetas: seq<TensorMeta>, nextLast: bool,
    op: Option<int>,           // key of the outstanding readable operation
    read: Read,
    inbox: seq<Msg>,           // messages from the previous rank
    notifs: seq<int>,          // notifications from the next rank
    out: seq<Item>)            // everything yielded to the local consumer

  type State = seq<Rank>  // ranks 0 .. N

  function Sender(): Rank {
    Rank(Fill, 0, [[], []], 0, 0, [], false, [], false, None, NoRead, [], [], [])
  }

  function Receiver(): Rank { Sender().(pc := First) }

  function Init(N: nat): State { [Sender()] + seq(N, _ => Receiver()) }

  datatype Action =
    | FillSlot | Full | SenderAck | SenderAnnounce(key: int)
    | ReadFirst | FinishFirst | Relay(key: int) | ReadNext | YieldOne | YieldEnd | Ack | Swap
    | CopySlot | CopyDone

  ghost predicate HasNext(s: State, r: int) { r + 1 < |s| }

  /** When rank `r` can take the action. Whether the bucket just filled is the last one
      is what the chunk generator tells the sender. */
  ghost predicate Enabled(bs: seq<seq<Item>>, s: State, r: nat, a: Action)
    requires r < |s|
  {
    var x := s[r];
    match a
    case FillSlot => x.pc == Fill && x.k < |bs| && x.j < |bs[x.k]| && x.sel < |x.bufs| && x.j <= |x.bufs[x.sel]|
    case Full => x.pc == Fill && x.k < |bs| && x.j == |bs[x.k]|
    case SenderAck => x.pc == AckBeforeSend && (x.op.Some? ==> x.notifs != [])
    case SenderAnnounce(_) => x.pc == Announce && HasNext(s, r) && x.k < |bs|
    case ReadFirst => x.pc == First && x.inbox != []
    case FinishFirst => x.pc == FirstRead && x.read == NoRead
    case Relay(_) => x.pc == Top
    case ReadNext => x.pc == AwaitMeta && x.inbox != []
    case YieldOne => x.pc == Yield && x.j < |x.metas| && x.sel < |x.bufs| && x.j < |x.bufs[x.sel]|
    case YieldEnd => x.pc == Yield && x.j == |x.metas|
    case Ack => x.pc == AwaitAck && (x.op.Some? ==> x.notifs != [])
    case Swap => x.pc == AwaitRead && x.read == NoRead
    case CopySlot =>
      && 0 < r && x.read.InFlight? && x.read.src < |s[r - 1].bufs| && x.sel < 2 == |x.bufs|
      && x.read.copied < |s[r - 1].bufs[x.read.src]| && x.read.copied <= |x.bufs[1 - x.sel]|
    case CopyDone =>
      && 0 < r && x.read.InFlight? && x.read.src < |s[r - 1].bufs|
      && x.read.copied == |s[r - 1].bufs[x.read.src]|
  }

  /** Writing slot `j` leaves nothing readable behind it. */
  function Write(bufs: seq<Slots>, b: nat, j: nat, d: seq<byte>): seq<Slots>
    requires b < |bufs| && j <= |bufs[b]|
  {
    bufs[b := bufs[b][..j] + [d]]
  }

  /** What the action does to the acting rank itself. */
  ghost function Local(bs: seq<seq<Item>>, s: State, r: nat, a: Action): Rank
    requires r < |s| && Enabled(bs, s, r, a)
  {
    var x := s[r];
    match a
    case FillSlot => x.(bufs := Write(x.bufs, x.sel, x.j, bs[x.k][x.j].data), j := x.j + 1)
    case Full => x.(pc := AckBeforeSend)
    case SenderAck => x.(pc := Announce, op := None, notifs := if x.op.Some? then x.notifs[1..] else x.notifs)
    case SenderAnnounce(key) =>
      if x.k + 1 < |bs| then x.(pc := Fill, op := Some(key), sel := if x.sel == 0 then 1 else 0, k := x.k + 1, j := 0)
      else x.(pc := AwaitAck, op := Some(key), last := true)
    case ReadFirst =>
      var m := x.inbox[0];
      x.(pc := FirstRead, inbox := x.inbox[1..], nextMetas := m.metas, nextLast := m.last,
         read := InFlight(m.key, m.src, 0))
    case FinishFirst =>
      x.(pc := Top, metas := x.nextMetas, last := x.nextLast, sel := if x.sel == 0 then 1 else 0)
    case Relay(key) =>
      x.(pc := if x.last then Yield else AwaitMeta, op := if HasNext(s, r) then Some(key) else None)
    case ReadNext =>
      var m := x.inbox[0];
      x.(pc := Yield, inbox := x.inbox[1..], nextMetas := m.metas, nextLast := m.last,
         read := InFlight(m.key, m.src, 0))
    case YieldOne => x.(out := x.out + [Item(x.metas[x.j], x.bufs[x.sel][x.j])], j := x.j + 1)
    case YieldEnd => x.(pc := AwaitAck)
    case Ack =>
      x.(pc := if x.last then Done else AwaitRead, op := None,
         notifs := if x.op.Some? then x.notifs[1..] else x.notifs)
    case Swap =>
      x.(pc := Top, metas := x.nextMetas, last := x.nextLast, sel := if x.sel == 0 then 1 else 0, k := x.k + 1, j := 0)
    case CopySlot =>
      x.(bufs := Write(x.bufs, 1 - x.sel, x.read.copied, s[r - 1].bufs[x.read.src][x.read.copied]),
         read := x.read.(copied := x.read.copied + 1))
    case CopyDone => x.(read := NoRead)
  }

  /** The whole effect: a readable operation posts a message to the next rank, a finished
      read notifies the previous one. */
  ghost function Apply(bs: seq<seq<Item>>, s: State, r: nat, a: Action): State
    requires r < |s| && Enabled(bs, s, r, a)
  {
    var x := s[r];
    var t := s[r := Local(bs, s, r, a)];
    if a.SenderAnnounce? then
      t[r + 1 := t[r + 1].(inbox := t[r + 1].inbox + [Msg(a.key, x.sel, MetasOf(bs[x.k]), x.k + 1 == |bs|)])]
    else if a.Relay? && HasNext(s, r) then
      t[r + 1 := t[r + 1].(inbox := t[r + 1].inbox + [Msg(a.key, x.sel, x.metas, x.last)])]
    else if a.CopyDone? then
      t[r - 1 := t[r - 1].(notifs := t[r - 1].notifs + [x.read.key])]
    else t
  }

  ghost predicate Step(bs: seq<seq<Item>>, s: State, t: State) {
    exists r: nat, a :: r < |s| && Enabled(bs, s, r, a) && t == Apply(bs, s, r, a)
  }

  /** A run of the chain with `N` receivers. */
  ghost predicate Run(bs: seq<seq<Item>>, N: nat, run: seq<State>) {
    && run != [] && run[0] == Init(N)
    && forall i :: 0 <= i < |run| - 1 ==> Step(bs, run[i], run[i + 1])
  }

  /** The buckets a sender produces: at least one, and none empty unless it is the only one. */
  ghost predicate BucketsOk(bs: seq<seq<Item>>) {
    bs != [] && forall k :: 0 <= k < |bs| ==> bs[k] != [] || |bs| == 1
  }
}
