/** Trainer, agent loop workers and the polling thread around one replay buffer: the train
    partition under every interleaving (verl/trainer/main_ppo_sync.py, lines 202-240,
    333-351, 418-423, 449-469, 1564-1566 and 1576-1595). The transfer queue is an atomic
    key/tag store. */
module ReplayProtocol {
  import opened Basics
  import opened ReplayBuffers

  datatype Phase = Idle | Sampling | Training | Cleared

  /** A prompt's task on its worker: which sessions have put their outputs, which have raised
      instead, and the final status once it has been put. Putting is the last thing a session
      does, so that a session in either set is over. */
  datatype Work = Work(done: set<nat>, raised: set<nat>, result: Option<Status>)

  datatype State = State(
    tq: Partition,              // the transfer queue
    rb: Partition,              // the replay buffer's partition
    snapshot: Option<Partition>,  // what the polling thread has listed and not yet added
    phase: Phase, step: int,
    batch: set<Key>,            // keys of the batch in training
    work: map<int, Work>,       // dispatched prompts, by uid
    origin: map<int, int>,      // the step of every uid, prompts and padding
    outputs: set<Key>)          // history: every output key ever put

  function Init(step: int): State { State(map[], map[], None, Idle, step, {}, map[], map[], {}) }

  datatype Action =
    | Dispatch(uids: set<int>)
    | PutOutputs(uid: int, session: nat, count: nat)
    | Raise(uid: int, session: nat)
    | Finish(uid: int)
    | Fail(uid: int)
    | List
    | Poll
    | Sample
    | PutPadding(padUid: int, count: nat)
    | Clear
    | Remove

  function RunningItems(uids: set<int>, step: int): Partition {
    map u | u in uids :: Prompt(u) := Tags(Some(step), Some(Running))
  }

  function SessionKeys(uid: int, session: nat, count: nat): set<Key> {
    set i: nat | i < count :: Output(uid, session, i)
  }

  function PadKeys(uid: int, count: nat): set<Key> {
    set i: nat | i < count :: Output(uid, i, 0)
  }

  function SuccessItems(keys: set<Key>, step: int): Partition {
    map key | key in keys :: Tags(Some(step), Some(Success))
  }

  /** The keys one pass of `sample` hands out. */
  function Sampled(p: Partition, step: int): set<Key> {
    set key | key in p && p[key] == Tags(Some(step), Some(Success))
  }

  /** A session that has put its outputs or raised. */
  ghost predicate Over(w: Work, session: nat) { session in w.done || session in w.raised }

  /** A session still at work. A failed prompt's other sessions go on running. */
  ghost predicate Open(n: nat, s: State, uid: int, session: nat) {
    uid in s.work && session < n && !Over(s.work[uid], session) && s.work[uid].result != Some(Finished)
  }

  /** `n` is the number of sessions of a prompt. New uids are random and never repeat. A
      prompt fails when a session has raised, or when all sessions have put their outputs and
      putting "finished" raises; not to start any session is to have all of them raise. */
  ghost predicate Enabled(n: nat, s: State, a: Action) {
    match a
    case Dispatch(uids) => s.phase == Idle && uids !! s.origin.Keys
    case PutOutputs(uid, session, _) => Open(n, s, uid, session)
    case Raise(uid, session) => Open(n, s, uid, session)
    case Finish(uid) =>
      uid in s.work && s.work[uid].result.None? && forall i: nat :: i < n ==> i in s.work[uid].done
    case Fail(uid) =>
      && uid in s.work && s.work[uid].result.None?
      && (s.work[uid].raised != {} || forall i: nat :: i < n ==> i in s.work[uid].done)
    case List => s.snapshot.None?
    case Poll => s.snapshot.Some?
    case Sample => s.phase == Sampling && !exists key :: Has(s.rb, s.step, Running, key)
    case PutPadding(padUid, _) => s.phase == Training && padUid !in s.origin
    case Clear => s.phase == Training
    case Remove => s.phase == Cleared
  }

  function PutStatus(tq: Partition, uid: int, status: Status): Partition {
    Added(tq, map[Prompt(uid) := Tags(None, Some(status))])
  }

  ghost predicate Known(s: State) { forall u :: u in s.work ==> u in s.origin }

  ghost function Apply(n: nat, s: State, a: Action): State
    requires Enabled(n, s, a)
    requires Known(s)
  {
    match a
    case Dispatch(uids) =>
      s.(rb := Added(s.rb, RunningItems(uids, s.step)), phase := Sampling,
         work := s.work + (map u | u in uids :: Work({}, {}, None)), origin := s.origin + (map u | u in uids :: s.step))
    case PutOutputs(uid, session, count) =>
      s.(tq := Added(s.tq, SuccessItems(SessionKeys(uid, session, count), s.origin[uid])),
         work := s.work[uid := s.work[uid].(done := s.work[uid].done + {session})],
         outputs := s.outputs + SessionKeys(uid, session, count))
    case Raise(uid, session) =>
      s.(work := s.work[uid := s.work[uid].(raised := s.work[uid].raised + {session})])
    case Finish(uid) =>
      s.(tq := PutStatus(s.tq, uid, Finished), work := s.work[uid := s.work[uid].(result := Some(Finished))])
    case Fail(uid) =>
      s.(tq := PutStatus(s.tq, uid, Failure), work := s.work[uid := s.work[uid].(result := Some(Failure))])
    case List => s.(snapshot := Some(s.tq))
    case Poll => s.(rb := Added(s.rb, s.snapshot.value), snapshot := None)
    case Sample => s.(phase := Training, batch := Sampled(s.rb, s.step))
    case PutPadding(padUid, count) =>
      s.(tq := Added(s.tq, SuccessItems(PadKeys(padUid, count), s.step)), batch := s.batch + PadKeys(padUid, count),
         origin := s.origin[padUid := s.step], outputs := s.outputs + PadKeys(padUid, count))
    case Clear => s.(tq := s.tq - s.batch, phase := Cleared)
    case Remove => s.(rb := s.rb - s.batch, batch := {}, phase := Idle, step := s.step + 1)
  }

  // ---------- the invariant ----------

  /** Entries of the transfer queue, or of a listing of it that may be out of date. */
  ghost predicate Listed(s: State, p: Partition) {
    forall key :: key in p ==>
      match key
      case Prompt(u) => u in s.work && p[key].steps.None? && p[key].status.Some? && p[key].status == s.work[u].result
      case Output(u, _, _) => key in s.outputs && u in s.origin && p[key] == Tags(Some(s.origin[u]), Some(Success))
  }

  /** Entries of the replay buffer. */
  ghost predicate Buffered(s: State) {
    && (forall u :: u in s.work ==> Prompt(u) in s.rb)
    && forall key :: key in s.rb ==>
         match key
         case Prompt(u) =>
           && u in s.work && u in s.origin && s.rb[key].steps == Some(s.origin[u])
           && (s.rb[key].status == Some(Running) || (s.rb[key].status.Some? && s.rb[key].status == s.work[u].result))
         case Output(u, _, _) => key in s.outputs && u in s.origin && s.rb[key] == Tags(Some(s.origin[u]), Some(Success))
  }

  /** If `p` says that prompt `u` has finished, it holds all of its outputs. */
  ghost predicate CompleteFor(s: State, p: Partition, u: int) {
    Prompt(u) in p && p[Prompt(u)].status == Some(Finished) ==>
      forall key :: key in s.outputs && key.Output? && key.uid == u ==> key in p
  }

  ghost predicate Bookkeeping(s: State) {
    && Known(s)
    && (forall u :: u in s.origin ==> s.origin[u] <= s.step)
    && (s.phase == Idle ==> forall u :: u in s.origin ==> s.origin[u] < s.step)
    && (s.phase == Sampling ==> forall u :: u in s.origin && s.origin[u] == s.step ==> u in s.work)
    && (forall key :: key in s.outputs ==> key.Output? && key.uid in s.origin)
    && (forall u :: u in s.work && s.work[u].result.Some? ==> s.work[u].result.value in {Finished, Failure})
    && (forall key :: key in s.batch ==> key.Output? && key.uid in s.origin && s.origin[key.uid] == s.step)
    && (s.phase == Sampling || s.phase == Idle ==> s.batch == {})
  }

  /** While the trainer waits for a step, none of its outputs is lost on the way. */
  ghost predicate NothingLost(s: State) {
    s.phase == Sampling ==> forall u :: u in s.work && u in s.origin && s.origin[u] == s.step ==>
      && (forall key :: key in s.outputs && key.Output? && key.uid == u ==> key in s.tq)
      && (s.snapshot.Some? ==> CompleteFor(s, s.snapshot.value, u))
      && CompleteFor(s, s.rb, u)
  }

  ghost predicate Inv(s: State) {
    && Bookkeeping(s)
    && Listed(s, s.tq) && (s.snapshot.Some? ==> Listed(s, s.snapshot.value)) && Buffered(s)
    && NothingLost(s)
  }

  lemma DispatchBooks(n: nat, s: State, uids: set<int>)
    requires Inv(s) && Enabled(n, s, Dispatch(uids))
    ensures Bookkeeping(Apply(n, s, Dispatch(uids)))
  {
    hide Buffered, NothingLost, CompleteFor;
  }

  lemma DispatchLists(n: nat, s: State, uids: set<int>, p: Partition)
    requires Inv(s) && Enabled(n, s, Dispatch(uids)) && Listed(s, p)
    ensures Listed(Apply(n, s, Dispatch(uids)), p)
  {
    hide NothingLost, CompleteFor, Buffered;
  }

  lemma DispatchBuffers(n: nat, s: State, uids: set<int>)
    requires Inv(s) && Enabled(n, s, Dispatch(uids))
    ensures Buffered(Apply(n, s, Dispatch(uids)))
  {
    hide NothingLost, CompleteFor, Listed;
  }

  lemma DispatchEntries(n: nat, s: State, uids: set<int>)
    requires Inv(s) && Enabled(n, s, Dispatch(uids))
    ensures Listed(Apply(n, s, Dispatch(uids)), Apply(n, s, Dispatch(uids)).tq) && Buffered(Apply(n, s, Dispatch(uids)))
    ensures s.snapshot.Some? ==> Listed(Apply(n, s, Dispatch(uids)), s.snapshot.value)
  {
    hide NothingLost, CompleteFor;
    DispatchLists(n, s, uids, s.tq);
    if s.snapshot.Some? { DispatchLists(n, s, uids, s.snapshot.value); }
    DispatchBuffers(n, s, uids);
    hide Listed, Buffered, Bookkeeping;
  }

  lemma DispatchLosses(n: nat, s: State, uids: set<int>)
    requires Inv(s) && Enabled(n, s, Dispatch(uids))
    ensures NothingLost(Apply(n, s, Dispatch(uids)))
  {
  }

  lemma DispatchInv(n: nat, s: State, uids: set<int>)
    requires Inv(s) && Enabled(n, s, Dispatch(uids))
    ensures Inv(Apply(n, s, Dispatch(uids)))
  {
    DispatchBooks(n, s, uids);
    DispatchEntries(n, s, uids);
    DispatchLosses(n, s, uids);
    hide Bookkeeping, Listed, Buffered, NothingLost;
  }

  lemma PutOutputsBooks(n: nat, s: State, u: int, session: nat, count: nat)
    requires Inv(s) && Enabled(n, s, PutOutputs(u, session, count))
    ensures Bookkeeping(Apply(n, s, PutOutputs(u, session, count)))
  {
    hide Buffered, NothingLost, CompleteFor;
  }

  lemma PutOutputsEntries(n: nat, s: State, u: int, session: nat, count: nat)
    requires Inv(s) && Enabled(n, s, PutOutputs(u, session, count))
    ensures var t := Apply(n, s, PutOutputs(u, session, count)); Listed(t, t.tq) && Buffered(t)
    ensures s.snapshot.Some? ==> Listed(Apply(n, s, PutOutputs(u, session, count)), s.snapshot.value)
  {
    hide NothingLost, CompleteFor;
  }

  lemma PutOutputsLosses(n: nat, s: State, u: int, session: nat, count: nat)
    requires Inv(s) && Enabled(n, s, PutOutputs(u, session, count))
    ensures NothingLost(Apply(n, s, PutOutputs(u, session, count)))
  {
  }

  lemma PutOutputsInv(n: nat, s: State, u: int, session: nat, count: nat)
    requires Inv(s) && Enabled(n, s, PutOutputs(u, session, count))
    ensures Inv(Apply(n, s, PutOutputs(u, session, count)))
  {
    PutOutputsBooks(n, s, u, session, count);
    PutOutputsEntries(n, s, u, session, count);
    PutOutputsLosses(n, s, u, session, count);
    hide Bookkeeping, Listed, Buffered, NothingLost;
  }

  lemma RaiseBooks(n: nat, s: State, u: int, session: nat)
    requires Inv(s) && Enabled(n, s, Raise(u, session))
    ensures Bookkeeping(Apply(n, s, Raise(u, session)))
  {
    hide Buffered, NothingLost, CompleteFor;
  }

  lemma RaiseEntries(n: nat, s: State, u: int, session: nat)
    requires Inv(s) && Enabled(n, s, Raise(u, session))
    ensures var t := Apply(n, s, Raise(u, session)); Listed(t, t.tq) && Buffered(t)
    ensures s.snapshot.Some? ==> Listed(Apply(n, s, Raise(u, session)), s.snapshot.value)
  {
    hide NothingLost, CompleteFor;
  }

  lemma RaiseLosses(n: nat, s: State, u: int, session: nat)
    requires Inv(s) && Enabled(n, s, Raise(u, session))
    ensures NothingLost(Apply(n, s, Raise(u, session)))
  {
  }

  lemma RaiseInv(n: nat, s: State, u: int, session: nat)
    requires Inv(s) && Enabled(n, s, Raise(u, session))
    ensures Inv(Apply(n, s, Raise(u, session)))
  {
    RaiseBooks(n, s, u, session);
    RaiseEntries(n, s, u, session);
    RaiseLosses(n, s, u, session);
    hide Bookkeeping, Listed, Buffered, NothingLost;
  }

  lemma PutStatusBooks(n: nat, s: State, u: int, a: Action)
    requires Inv(s) && Enabled(n, s, a) && (a == Finish(u) || a == Fail(u))
    ensures Bookkeeping(Apply(n, s, a))
  {
    hide Buffered, NothingLost, CompleteFor;
  }

  lemma PutStatusEntries(n: nat, s: State, u: int, a: Action)
    requires Inv(s) && Enabled(n, s, a) && (a == Finish(u) || a == Fail(u))
    ensures Listed(Apply(n, s, a), Apply(n, s, a).tq) && Buffered(Apply(n, s, a))
    ensures s.snapshot.Some? ==> Listed(Apply(n, s, a), s.snapshot.value)
  {
    hide NothingLost, CompleteFor;
  }

  lemma PutStatusLosses(n: nat, s: State, u: int, a: Action)
    requires Inv(s) && Enabled(n, s, a) && (a == Finish(u) || a == Fail(u))
    ensures NothingLost(Apply(n, s, a))
  {
  }

  lemma PutStatusInv(n: nat, s: State, u: int, a: Action)
    requires Inv(s) && Enabled(n, s, a) && (a == Finish(u) || a == Fail(u))
    ensures Inv(Apply(n, s, a))
  {
    PutStatusBooks(n, s, u, a);
    PutStatusEntries(n, s, u, a);
    PutStatusLosses(n, s, u, a);
    hide Bookkeeping, Listed, Buffered, NothingLost;
  }

  lemma PollInv(n: nat, s: State, a: Action)
    requires Inv(s) && Enabled(n, s, a) && (a == List || a == Poll)
    ensures Inv(Apply(n, s, a))
  {
    var t := Apply(n, s, a);
    assert Listed(t, t.tq);
    assert Buffered(t);
  }

  lemma SampleInv(n: nat, s: State)
    requires Inv(s) && Enabled(n, s, Sample)
    ensures Inv(Apply(n, s, Sample))
  {
    hide Listed, Buffered, CompleteFor;
    var t := Apply(n, s, Sample);
    SameEntries(s, t, s.tq);
    if s.snapshot.Some? { SameEntries(s, t, s.snapshot.value); }
    BatchIsOfStep(s);
  }

  /** Entries mean the same in a state with the same work, origins, outputs and buffer. */
  lemma SameEntries(s: State, t: State, p: Partition)
    requires s.work == t.work && s.origin == t.origin && s.outputs == t.outputs && s.rb == t.rb
    ensures Listed(s, p) ==> Listed(t, p)
    ensures Buffered(s) ==> Buffered(t)
  {
  }

  lemma BatchIsOfStep(s: State)
    requires Buffered(s) && Bookkeeping(s)
    ensures forall key :: key in Sampled(s.rb, s.step) ==>
      key.Output? && key.uid in s.origin && s.origin[key.uid] == s.step
  {
  }

  lemma PaddingEntries(n: nat, s: State, a: Action)
    requires Inv(s) && Enabled(n, s, a) && a.PutPadding?
    ensures Listed(Apply(n, s, a), Apply(n, s, a).tq) && Buffered(Apply(n, s, a))
    ensures s.snapshot.Some? ==> Listed(Apply(n, s, a), s.snapshot.value)
  {
    hide NothingLost, CompleteFor;
  }

  lemma PaddingInv(n: nat, s: State, a: Action)
    requires Inv(s) && Enabled(n, s, a) && a.PutPadding?
    ensures Inv(Apply(n, s, a))
  {
    PaddingEntries(n, s, a);
    hide CompleteFor, Listed, Buffered;
  }

  lemma ClearInv(n: nat, s: State)
    requires Inv(s) && Enabled(n, s, Clear)
    ensures Inv(Apply(n, s, Clear))
  {
    hide Buffered, CompleteFor;
    var t := Apply(n, s, Clear);
    assert Listed(t, t.tq);
    SameEntries(s, t, s.tq);
  }

  lemma RemoveInv(n: nat, s: State)
    requires Inv(s) && Enabled(n, s, Remove)
    ensures Inv(Apply(n, s, Remove))
  {
    hide CompleteFor;
    var t := Apply(n, s, Remove);
    assert Buffered(t);
  }

  lemma StepInv(n: nat, s: State, a: Action)
    requires Inv(s) && Enabled(n, s, a)
    ensures Inv(Apply(n, s, a))
  {
    hide Inv, Enabled, Apply;
    match a {
      case Dispatch(uids) => DispatchInv(n, s, uids);
      case PutOutputs(u, session, count) => PutOutputsInv(n, s, u, session, count);
      case Raise(u, session) => RaiseInv(n, s, u, session);
      case Finish(u) => PutStatusInv(n, s, u, a);
      case Fail(u) => PutStatusInv(n, s, u, a);
      case List => PollInv(n, s, a);
      case Poll => PollInv(n, s, a);
      case Sample => SampleInv(n, s);
      case PutPadding(_, _) => PaddingInv(n, s, a);
      case Clear => ClearInv(n, s);
      case Remove => RemoveInv(n, s);
    }
  }

  ghost predicate Step(n: nat, s: State, t: State) {
    Known(s) && exists a :: Enabled(n, s, a) && t == Apply(n, s, a)
  }

  ghost predicate Run(n: nat, step: int, run: seq<State>) {
    && run != [] && run[0] == Init(step)
    && forall i :: 0 <= i < |run| - 1 ==> Step(n, run[i], run[i + 1])
  }

  lemma {:induction false} RunInv(n: nat, step: int, run: seq<State>)
    requires Run(n, step, run)
    ensures forall i :: 0 <= i < |run| ==> Inv(run[i])
  {
    if |run| == 1 {
      assert Inv(run[0]);
    } else {
      hide Inv, Enabled, Apply, Init;
      var front := run[..|run| - 1];
      RunInv(n, step, front);
      var s, t := front[|front| - 1], run[|run| - 1];
      assert Step(n, run[|run| - 2], run[|run| - 1]);
      var a :| Enabled(n, s, a) && t == Apply(n, s, a);
      StepInv(n, s, a);
      forall i | 0 <= i < |run| ensures Inv(run[i]) {
        if i < |front| { assert run[i] == front[i]; }
      }
    }
  }

  lemma ExtendRun(n: nat, step: int, run: seq<State>, a: Action)
    requires Run(n, step, run) && Known(run[|run| - 1])
    requires Enabled(n, run[|run| - 1], a)
    ensures Run(n, step, run + [Apply(n, run[|run| - 1], a)])
  {
    hide Enabled, Apply, Init;
    var more := run + [Apply(n, run[|run| - 1], a)];
    forall i | 0 <= i < |more| - 1 ensures Step(n, more[i], more[i + 1]) {
      if i < |run| - 1 { assert Step(n, run[i], run[i + 1]); }
    }
  }

  // ---------- what sample returns ----------

  /** No pass of `sample` fails on a missing tag, whatever the polling thread has added. */
  lemma NeverKeyError(n: nat, step: int, run: seq<State>, i: nat)
    requires Run(n, step, run) && i < |run|
    ensures Readable(run[i].rb, run[i].step)
  {
    RunInv(n, step, run);
    hide NothingLost, Listed;
    assert Inv(run[i]);
  }

  /** A prompt of the trainer's current step. */
  ghost predicate OfStep(s: State, uid: int) { uid in s.work && uid in s.origin && s.origin[uid] == s.step }

  /** Whenever `sample` returns, it returns outputs of the trainer's current step only,
      every prompt of that step has its final status, and all outputs of every prompt that
      finished are there, even if old listings re-add removed keys in between. */
  lemma SampleIsExact(n: nat, step: int, run: seq<State>, i: nat)
    requires Run(n, step, run) && i < |run| && Enabled(n, run[i], Sample)
    ensures forall key :: key in Sampled(run[i].rb, run[i].step) ==>
      key.Output? && key in run[i].outputs && OfStep(run[i], key.uid)
    ensures forall u :: OfStep(run[i], u) ==> run[i].work[u].result.Some?
    ensures forall key :: key in run[i].outputs && OfStep(run[i], key.uid) ==>
      run[i].work[key.uid].result == Some(Finished) ==> key in Sampled(run[i].rb, run[i].step)
  {
    RunInv(n, step, run);
    var s := run[i];
    assert Inv(s);
    hide Listed;
    forall u | OfStep(s, u)
      ensures s.work[u].result.Some? && s.rb[Prompt(u)].status == s.work[u].result
    {
      assert Prompt(u) in s.rb && !Has(s.rb, s.step, Running, Prompt(u));
    }
  }

  // ---------- when nothing is lost for good ----------

  /** A session that put an output is done, and a finished prompt has all sessions done. */
  ghost predicate SessionsDone(n: nat, s: State) {
    && (forall key :: key in s.outputs && key.Output? && key.uid in s.work ==> key.session in s.work[key.uid].done)
    && (forall u, q: nat :: u in s.work && s.work[u].result == Some(Finished) && q < n ==> q in s.work[u].done)
  }

  lemma StepSessions(n: nat, s: State, a: Action)
    requires Inv(s) && SessionsDone(n, s) && Enabled(n, s, a)
    ensures SessionsDone(n, Apply(n, s, a))
  {
    hide Buffered, NothingLost, Listed;
  }

  /** The last step of a run. */
  lemma LastStep(n: nat, step: int, run: seq<State>) returns (a: Action)
    requires Run(n, step, run) && |run| > 1
    ensures Run(n, step, run[..|run| - 1])
    ensures Known(run[|run| - 2]) && Enabled(n, run[|run| - 2], a) && run[|run| - 1] == Apply(n, run[|run| - 2], a)
  {
    hide Enabled, Apply, Init, Known;
    assert Step(n, run[|run| - 2], run[|run| - 2 + 1]);
    a :| Enabled(n, run[|run| - 2], a) && run[|run| - 1] == Apply(n, run[|run| - 2], a);
  }

  lemma InvAt(n: nat, step: int, run: seq<State>, i: nat)
    requires Run(n, step, run) && i < |run|
    ensures Inv(run[i])
  {
    RunInv(n, step, run);
    hide Inv, Run;
  }

  lemma InitSessions(n: nat, step: int)
    ensures SessionsDone(n, Init(step))
  {
  }

  lemma {:induction false} RunSessions(n: nat, step: int, run: seq<State>, i: nat)
    requires Run(n, step, run) && i < |run|
    ensures SessionsDone(n, run[i])
    decreases |run|, i
  {
    hide Inv, Enabled, Apply, Init, SessionsDone, Step;
    if |run| == 1 {
      InitSessions(n, step);
    } else {
      var front := run[..|run| - 1];
      var a := LastStep(n, step, run);
      hide Run;
      if i < |front| {
        RunSessions(n, step, front, i);
      } else {
        RunSessions(n, step, front, |front| - 1);
        InvAt(n, step, run, |front| - 1);
        StepSessions(n, run[|front| - 1], a);
      }
    }
  }

  /** A continuation of a run from state `s`. */
  ghost predicate Continues(n: nat, s: State, more: seq<State>) {
    more != [] && more[0] == s && forall i :: 0 <= i < |more| - 1 ==> Step(n, more[i], more[i + 1])
  }

  /** The sample taken in `s` has all outputs that its prompts have put in `t`. */
  ghost predicate Complete(s: State, t: State) {
    forall key :: key in t.outputs && key.Output? && OfStep(s, key.uid) ==> key in Sampled(s.rb, s.step)
  }

  /** Every output that a prompt of the step has put, or will ever put, is in the sample
      taken in `s`. */
  ghost predicate NothingEverLost(n: nat, s: State) {
    forall more: seq<State> :: Continues(n, s, more) ==> Complete(s, more[|more| - 1])
  }

  /** All sessions of prompt `u` are over, and all its outputs are in the buffer. */
  ghost predicate Settled(n: nat, s: State, u: int)
    requires u in s.work
  {
    && (forall q: nat :: q < n ==> Over(s.work[u], q))
    && (forall key :: key in s.outputs && key.Output? && key.uid == u ==> key in s.rb)
  }

  /** A prompt with all sessions over in `s` puts nothing more. */
  ghost predicate Quiet(n: nat, s: State, t: State, u: int) {
    && u in s.work && u in t.work && u in t.origin
    && (forall q: nat :: q < n ==> Over(t.work[u], q))
    && (forall key :: key in t.outputs && key.Output? && key.uid == u ==> key in s.outputs)
  }

  /** A session that is over stays over. */
  lemma StaysOver(n: nat, t: State, u: int, q: nat, a: Action)
    requires Known(t) && u in t.work && Over(t.work[u], q) && Enabled(n, t, a)
    ensures u in Apply(n, t, a).work && Over(Apply(n, t, a).work[u], q)
  {
  }

  /** Only an open session of a prompt adds to its outputs. */
  lemma NewOutputs(n: nat, t: State, u: int, a: Action)
    requires Known(t) && u in t.work && Enabled(n, t, a)
    requires forall q: nat :: q < n ==> Over(t.work[u], q)
    ensures u in Apply(n, t, a).work && u in Apply(n, t, a).origin
    ensures forall key :: key in Apply(n, t, a).outputs && key.Output? && key.uid == u ==> key in t.outputs
  {
  }

  lemma StaysQuiet(n: nat, s: State, t: State, u: int, a: Action)
    requires Known(t) && Quiet(n, s, t, u) && Enabled(n, t, a)
    ensures Quiet(n, s, Apply(n, t, a), u)
  {
    NewOutputs(n, t, u, a);
    hide Enabled, Apply, Over;
    var t' := Apply(n, t, a);
    forall q: nat | q < n ensures Over(t'.work[u], q) { StaysOver(n, t, u, q, a); }
  }

  lemma {:induction false} QuietForGood(n: nat, s: State, more: seq<State>, u: int)
    requires Continues(n, s, more) && Quiet(n, s, s, u)
    ensures Quiet(n, s, more[|more| - 1], u)
  {
    hide Enabled, Apply, Quiet;
    if |more| > 1 {
      var front := more[..|more| - 1];
      QuietForGood(n, s, front, u);
      var t, t' := front[|front| - 1], more[|more| - 1];
      assert Step(n, more[|more| - 2], more[|more| - 1]);
      var a :| Enabled(n, t, a) && t' == Apply(n, t, a);
      StaysQuiet(n, s, t, u, a);
    }
  }

  /** In the buffer means in the sample. */
  lemma BufferedIsSampled(s: State, key: Key)
    requires Inv(s) && key.Output? && OfStep(s, key.uid)
    ensures key in s.rb <==> key in Sampled(s.rb, s.step)
    ensures key in s.rb ==> key in s.outputs
  {
    hide NothingLost, Listed;
  }

  /** A session that is not over may still put an output after the sample. */
  lemma LateOutput(n: nat, s: State, u: int, q: nat)
    requires Inv(s) && SessionsDone(n, s) && OfStep(s, u) && q < n && !Over(s.work[u], q)
    ensures Enabled(n, s, PutOutputs(u, q, 1))
    ensures Output(u, q, 0) in Apply(n, s, PutOutputs(u, q, 1)).outputs && Output(u, q, 0) !in s.outputs
  {
    hide NothingLost, Listed, Buffered;
    assert Output(u, q, 0) in SessionKeys(u, q, 1);
  }

  /** The exact condition: a sample misses nothing, now or later, if and only if every failed
      prompt of the step is settled when the sample is taken. */
  lemma NothingLostIff(n: nat, step: int, run: seq<State>, i: nat)
    requires Run(n, step, run) && i < |run| && Enabled(n, run[i], Sample)
    ensures NothingEverLost(n, run[i]) <==>
      forall u :: OfStep(run[i], u) && run[i].work[u].result == Some(Failure) ==> Settled(n, run[i], u)
    ensures forall u :: OfStep(run[i], u) && run[i].work[u].result == Some(Finished) ==> Settled(n, run[i], u)
  {
    var s := run[i];
    InvAt(n, step, run, i);
    RunSessions(n, step, run, i);
    SampleIsExact(n, step, run, i);
    hide Inv, Enabled, Run, SessionsDone, NothingEverLost, Settled, OfStep;
    forall u | OfStep(s, u)
      ensures s.work[u].result in {Some(Finished), Some(Failure)}
      ensures s.work[u].result == Some(Finished) ==> Settled(n, s, u)
      ensures NothingEverLost(n, s) ==> Settled(n, s, u)
    {
      OfStepWork(s, u);
      FinalStatus(s, u);
      if s.work[u].result == Some(Finished) { FinishedSettles(n, s, u); }
      if !Settled(n, s, u) { UnsettledLoses(n, s, u); }
    }
    if forall u :: OfStep(s, u) && s.work[u].result == Some(Failure) ==> Settled(n, s, u) {
      SettledLosesNothing(n, s);
    }
  }

  lemma OfStepWork(s: State, u: int)
    requires OfStep(s, u)
    ensures u in s.work
  {
  }

  lemma SettledLosesNothing(n: nat, s: State)
    requires Inv(s) && forall u :: OfStep(s, u) ==> Settled(n, s, u)
    ensures NothingEverLost(n, s)
  {
    hide Inv, Sampled, Enabled, Apply;
    forall more: seq<State> | Continues(n, s, more) ensures Complete(s, more[|more| - 1]) {
      forall key | key in more[|more| - 1].outputs && key.Output? && OfStep(s, key.uid)
        ensures key in Sampled(s.rb, s.step)
      {
        assert Settled(n, s, key.uid);
        assert Quiet(n, s, s, key.uid);
        QuietForGood(n, s, more, key.uid);
        BufferedIsSampled(s, key);
      }
    }
  }

  lemma UnsettledLoses(n: nat, s: State, u: int)
    requires Inv(s) && SessionsDone(n, s) && OfStep(s, u) && !Settled(n, s, u)
    ensures !NothingEverLost(n, s)
  {
    assert Known(s);
    hide Inv, Sampled, Enabled, Apply, SessionsDone;
    if q: nat :| q < n && !Over(s.work[u], q) {
      LateOutput(n, s, u, q);
      BufferedIsSampled(s, Output(u, q, 0));
      var t := Apply(n, s, PutOutputs(u, q, 1));
      assert Step(n, s, t);
      assert Continues(n, s, [s, t]) && [s, t][|[s, t]| - 1] == t;
    } else {
      var key :| key in s.outputs && key.Output? && key.uid == u && key !in s.rb;
      BufferedIsSampled(s, key);
      assert Continues(n, s, [s]) && [s][|[s]| - 1] == s;
    }
  }

  /** In particular, when no prompt of the step failed, nothing is ever lost, and the batch
      is exactly the step's outputs. */
  lemma SampleIsComplete(n: nat, step: int, run: seq<State>, i: nat)
    requires Run(n, step, run) && i < |run| && Enabled(n, run[i], Sample)
    requires forall u :: OfStep(run[i], u) ==> run[i].work[u].result != Some(Failure)
    ensures NothingEverLost(n, run[i])
    ensures Sampled(run[i].rb, run[i].step) == set key | key in run[i].outputs && OfStep(run[i], key.uid)
  {
    var s := run[i];
    SampleIsExact(n, step, run, i);
    InvAt(n, step, run, i);
    NothingLostIff(n, step, run, i);
    hide Inv, Enabled, Run, Settled, NothingEverLost, Sampled;
    forall u | OfStep(s, u) ensures s.work[u].result == Some(Finished) { FinalStatus(s, u); }
    forall key | key in s.outputs ensures key.Output? { OutputKeys(s, key); }
  }

  lemma OutputKeys(s: State, key: Key)
    requires Inv(s) && key in s.outputs
    ensures key.Output?
  {
    hide Listed, Buffered, NothingLost;
  }

  /** A finished prompt whose outputs are all sampled is settled. */
  lemma FinishedSettles(n: nat, s: State, u: int)
    requires Inv(s) && SessionsDone(n, s) && OfStep(s, u) && s.work[u].result == Some(Finished)
    requires forall key :: key in s.outputs && key.Output? && key.uid == u ==> key in Sampled(s.rb, s.step)
    ensures Settled(n, s, u)
  {
    hide Inv;
  }

  lemma FinalStatus(s: State, u: int)
    requires Inv(s) && u in s.work && s.work[u].result.Some?
    ensures s.work[u].result.value in {Finished, Failure}
  {
    hide Listed, Buffered, NothingLost;
  }

  // A failed prompt is why the condition is needed: of two sessions one raises, and the other
  // puts an output when the trainer has already sampled.

  function Witness(step: int, k: nat): State {
    var s0 := Init(step);
    var s1 := s0.(rb := map[Prompt(7) := Tags(Some(step), Some(Running))], phase := Sampling,
                  work := map[7 := Work({}, {}, None)], origin := map[7 := step]);
    var s2 := s1.(work := map[7 := Work({}, {0}, None)]);
    var s3 := s2.(tq := map[Prompt(7) := Tags(None, Some(Failure))], work := map[7 := Work({}, {0}, Some(Failure))]);
    var s4 := s3.(snapshot := Some(s3.tq));
    var s5 := s4.(snapshot := None, rb := map[Prompt(7) := Tags(Some(step), Some(Failure))]);
    var s6 := s5.(phase := Training);
    if k == 0 then s0 else if k == 1 then s1 else if k == 2 then s2 else if k == 3 then s3
    else if k == 4 then s4 else if k == 5 then s5 else s6
  }

  lemma WitnessStarts(step: int)
    ensures Witness(step, 0) == Init(step) && Step(2, Witness(step, 0), Witness(step, 1))
  {
    assert Enabled(2, Witness(step, 0), Dispatch({7}));
    assert Apply(2, Witness(step, 0), Dispatch({7})) == Witness(step, 1);
  }

  lemma WitnessRaises(step: int)
    ensures Step(2, Witness(step, 1), Witness(step, 2))
  {
    assert Enabled(2, Witness(step, 1), Raise(7, 0));
    assert Apply(2, Witness(step, 1), Raise(7, 0)).work[7].raised == {0};
    assert Apply(2, Witness(step, 1), Raise(7, 0)) == Witness(step, 2);
  }

  lemma WitnessFails(step: int)
    ensures Step(2, Witness(step, 2), Witness(step, 3))
  {
    assert 0 in Witness(step, 2).work[7].raised;
    assert Enabled(2, Witness(step, 2), Fail(7));
    assert Apply(2, Witness(step, 2), Fail(7)) == Witness(step, 3);
  }

  lemma WitnessLists(step: int)
    ensures Step(2, Witness(step, 3), Witness(step, 4))
  {
    assert Enabled(2, Witness(step, 3), List);
  }

  lemma WitnessPolls(step: int)
    ensures Step(2, Witness(step, 4), Witness(step, 5))
  {
    assert Enabled(2, Witness(step, 4), Poll);
  }

  lemma WitnessSamples(step: int)
    ensures Known(Witness(step, 5)) && Enabled(2, Witness(step, 5), Sample)
    ensures Apply(2, Witness(step, 5), Sample) == Witness(step, 6) && Step(2, Witness(step, 5), Witness(step, 6))
    ensures Sampled(Witness(step, 5).rb, Witness(step, 5).step) == {} == Witness(step, 6).batch
    ensures OfStep(Witness(step, 5), 7)
  {
    assert Sampled(Witness(step, 5).rb, Witness(step, 5).step) == {};
  }

  lemma WitnessLate(step: int)
    ensures Known(Witness(step, 6)) && Enabled(2, Witness(step, 6), PutOutputs(7, 1, 1))
    ensures Output(7, 1, 0) in Apply(2, Witness(step, 6), PutOutputs(7, 1, 1)).outputs
  {
    assert Output(7, 1, 0) in SessionKeys(7, 1, 1);
  }

  /** A failed prompt's other session may put an output after the step was sampled. */
  lemma FailedPromptLosesOutputs(step: int) returns (run: seq<State>, i: nat, key: Key)
    ensures Run(2, step, run) && i + 1 < |run| && Known(run[i])
    ensures Enabled(2, run[i], Sample) && run[i + 1] == Apply(2, run[i], Sample)
    ensures key.Output? && OfStep(run[i], key.uid)
    ensures key in run[|run| - 1].outputs && key !in run[i + 1].batch
  {
    WitnessStarts(step);
    WitnessRaises(step);
    WitnessFails(step);
    WitnessLists(step);
    WitnessPolls(step);
    WitnessSamples(step);
    WitnessLate(step);
    hide Enabled, Apply, Sampled, Witness, Step, Init, Known, OfStep;
    run := [Witness(step, 0), Witness(step, 1), Witness(step, 2), Witness(step, 3), Witness(step, 4),
            Witness(step, 5), Witness(step, 6)];
    i, key := 5, Output(7, 1, 0);
    ExtendRun(2, step, run, PutOutputs(7, 1, 1));
    run := run + [Apply(2, run[6], PutOutputs(7, 1, 1))];
  }

  // ---------- the class refines the protocol ----------

  /** What the replay buffer object returns for a partition is what the protocol samples. */
  method TrainerSample(buffer: ReplayBuffer, globalSteps: int, ghost n: nat, ghost step: int, ghost run: seq<State>,
                       ghost i: nat)
    returns (r: Scan)
    requires Run(n, step, run) && i < |run| && run[i].phase == Sampling
    requires buffer.Contents("train") == run[i].rb && globalSteps == run[i].step
    ensures !r.KeyError?
    ensures if r.MustWait? then !Enabled(n, run[i], Sample)
            else Enabled(n, run[i], Sample) && (set k | k in r.keys) == Sampled(run[i].rb, run[i].step)
  {
    NeverKeyError(n, step, run, i);
    r := buffer.SampleOnce("train", globalSteps);
  }
}
