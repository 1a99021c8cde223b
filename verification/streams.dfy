/** Device streams as a log of enqueued operations. Operations on one stream run in
    order; `Wait(a, b)` orders everything enqueued on `b` so far before everything
    enqueued on `a` later. Nothing else is ordered. */
module Streams {
  import opened Basics

  datatype Stream = Main | D2H | H2D

  /** One entry per operation of the offload handler, stamped with the training round
      and the activation group it concerns. */
  datatype Event =
    | Wait(waiter: Stream, on: Stream)
    | Compute(round: nat, group: nat)  // a tensor of the group is produced, on Main
    | CopyOut(round: nat, group: nat)  // the group is copied to the host, on D2H
    | Drop(round: nat, group: nat)     // the device buffers are given back to Main
    | Reload(round: nat, group: nat)   // the group is copied to the device, on H2D
    | Use(round: nat, group: nat)      // a tensor of the group is consumed, on Main

  type Log = seq<Event>

  /** How many leading entries of the log are certain to have run on stream `b` before
      anything that is enqueued on stream `a` from now on. */
  ghost function Known(log: Log, a: Stream, b: Stream): (n: nat)
    ensures n <= |log|
  {
    if a == b then |log|
    else if log == [] then 0
    else
      var before := log[..|log| - 1];
      var e := log[|log| - 1];
      if e.Wait? && e.waiter == a
      then Max(Known(before, a, b), Known(before, e.on, b))
      else Known(before, a, b)
  }

  /** A new entry forgets no ordering. */
  lemma KnownAppend(log: Log, e: Event, a: Stream, b: Stream)
    ensures Known(log, a, b) <= Known(log + [e], a, b)
    ensures !e.Wait? && a != b ==> Known(log + [e], a, b) == Known(log, a, b)
    ensures e.Wait? && e.waiter == a ==> Known(log, e.on, b) <= Known(log + [e], a, b)
  {
    assert (log + [e])[..|log|] == log;
  }

  lemma KnownAppendAll(log: Log, e: Event)
    ensures forall a, b :: Known(log, a, b) <= Known(log + [e], a, b)
    ensures e.Wait? ==> forall b :: Known(log, e.on, b) <= Known(log + [e], e.waiter, b)
  {
    forall a, b
      ensures Known(log, a, b) <= Known(log + [e], a, b)
      ensures e.Wait? && e.waiter == a ==> Known(log, e.on, b) <= Known(log + [e], a, b)
    {
      KnownAppend(log, e, a, b);
    }
  }

  /** The ordering that entry `e` needs when it is enqueued after `log`. */
  ghost predicate Ordered(log: Log, e: Event) {
    match e
    case Wait(_, _) => true
    case Compute(r, g) =>
      // nothing is produced in a group that was copied out already
      CopyOut(r, g) !in log
    case CopyOut(r, g) =>
      // the copy reads tensors only after the computation that produced them
      forall j :: 0 <= j < |log| && log[j] == Compute(r, g) ==> j < Known(log, D2H, Main)
    case Drop(r, g) =>
      // later computation may overwrite the buffers only after the copy has run
      && CopyOut(r, g) in log
      && forall j :: 0 <= j < |log| && log[j] == CopyOut(r, g) ==> j < Known(log, Main, D2H)
    case Reload(r, g) =>
      // the host copy is complete before it is read back
      && CopyOut(r, g) in log
      && forall j :: 0 <= j < |log| && log[j] == CopyOut(r, g) ==> j < Known(log, H2D, D2H)
    case Use(r, g) =>
      // whatever was copied out has been reloaded, and the reload has run
      && (CopyOut(r, g) in log ==> Reload(r, g) in log)
      && forall j :: 0 <= j < |log| && log[j] == Reload(r, g) ==> j < Known(log, Main, H2D)
  }

  /** Every operation found the ordering it needs in the log before it. */
  ghost predicate Safe(log: Log) {
    forall i :: 0 <= i < |log| ==> Ordered(log[..i], log[i])
  }

  lemma SafeAppend(log: Log, e: Event)
    requires Safe(log)
    requires Ordered(log, e)
    ensures Safe(log + [e])
  {
    var more := log + [e];
    forall i | 0 <= i < |more| ensures Ordered(more[..i], more[i]) {
      if i < |log| {
        assert more[..i] == log[..i] && more[i] == log[i];
      } else {
        assert more[..i] == log;
      }
    }
  }

  // ---------- what a safe log means on the device ----------

  /** The stream an operation is enqueued on. */
  function StreamOf(e: Event): Stream {
    match e
    case Wait(waiter, _) => waiter
    case Compute(_, _) => Main
    case CopyOut(_, _) => D2H
    case Drop(_, _) => Main
    case Reload(_, _) => H2D
    case Use(_, _) => Main
  }

  /** When the operations of the log may run: every stream runs its operations one after the
      other, and a wait is over only when all that was enqueued before it on the other
      stream is. The device is free in everything else. */
  ghost predicate Schedule(log: Log, at: seq<int>) {
    && |at| == |log|
    && (forall i, j :: 0 <= i < j < |log| && StreamOf(log[i]) == StreamOf(log[j]) ==> at[i] < at[j])
    && (forall i, j :: 0 <= i < j < |log| && log[j].Wait? && StreamOf(log[i]) == log[j].on ==> at[i] < at[j])
  }

  /** Operation `i` runs after all operations on stream `a` among the first `n`. */
  ghost predicate RunsAfter(log: Log, at: seq<int>, n: nat, a: Stream, i: nat)
    requires n <= |log| == |at| && i < |log|
  {
    forall m :: 0 <= m < n && StreamOf(log[m]) == a ==> at[m] < at[i]
  }

  /** What is known to have run has run, in every schedule. */
  lemma {:induction false} KnownHasRun(log: Log, at: seq<int>, n: nat, a: Stream, b: Stream, j: nat, i: nat)
    requires Schedule(log, at) && n <= |log| && i < |log| && RunsAfter(log, at, n, a, i)
    requires j < Known(log[..n], a, b) && StreamOf(log[j]) == b
    ensures at[j] < at[i]
    decreases n
  {
    if a != b {
      var before, e := log[..n - 1], log[n - 1];
      assert log[..n][..n - 1] == before && log[..n][n - 1] == e;
      if j < Known(before, a, b) {
        KnownHasRun(log, at, n - 1, a, b, j, i);
      } else {
        KnownHasRun(log, at, n - 1, e.on, b, j, n - 1);
      }
    }
  }

  /** Operation `j` is needed by operation `i` of the same group and round: the computation
      of what is copied out, the copy of what is dropped or reloaded, the reload of what
      is used. */
  predicate Needs(e: Event, d: Event) {
    match e
    case CopyOut(r, g) => d == Compute(r, g)
    case Drop(r, g) => d == CopyOut(r, g)
    case Reload(r, g) => d == CopyOut(r, g)
    case Use(r, g) => d == Reload(r, g)
    case _ => false
  }

  lemma NothingAfterCopy(log: Log, i: nat, j: nat)
    requires Safe(log) && i < j < |log| && log[i].CopyOut?
    ensures log[j] != Compute(log[i].round, log[i].group)
  {
    assert Ordered(log[..j], log[j]);
    assert log[..j][i] == log[i];
  }

  /** In a safe log no operation can run too early, in any schedule: what it needs was
      enqueued before it and runs before it. */
  lemma SafeInEverySchedule(log: Log, at: seq<int>, i: nat, j: nat)
    requires Safe(log) && Schedule(log, at) && i < |log| && j < |log| && Needs(log[i], log[j])
    ensures j < i ==> at[j] < at[i]
    ensures log[i].CopyOut? ==> j < i
    ensures log[i].Drop? || log[i].Reload? ==> log[j] in log[..i]
    ensures log[i].Use? && CopyOut(log[i].round, log[i].group) in log[..i] ==> log[j] in log[..i]
  {
    var before := log[..i];
    assert Ordered(before, log[i]);
    if j < i {
      assert before[j] == log[j];
      KnownHasRun(log, at, i, StreamOf(log[i]), StreamOf(log[j]), j, i);
    } else if i < j && log[i].CopyOut? {
      NothingAfterCopy(log, i, j);
    }
  }
}
