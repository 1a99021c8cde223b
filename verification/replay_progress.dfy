/** The wait of the replay buffer comes to an end, and a step leaves nothing behind
    (verl/trainer/main_ppo_sync.py, lines 202-275, 341-351, 449-469 and 1564-1595). */
module ReplayProgress {
  import opened Basics
  import opened ReplayBuffers
  import opened ReplayProtocol

  // ---------- what the transfer queue has of a prompt ----------

  /** The final status of every prompt is in the transfer queue once it has been put. */
  ghost predicate Posted(s: State) {
    forall u :: u in s.work && s.work[u].result.Some? ==>
      Prompt(u) in s.tq && s.tq[Prompt(u)].status == s.work[u].result
  }

  lemma StepPosted(n: nat, s: State, a: Action)
    requires Inv(s) && Posted(s) && Enabled(n, s, a)
    ensures Posted(Apply(n, s, a))
  {
    hide Listed, Buffered, NothingLost;
  }

  /** Only prompts of the step that is being waited for have no result yet. */
  ghost predicate Resolves(s: State) {
    forall u :: u in s.work && s.work[u].result.None? ==> s.phase == Sampling && OfStep(s, u)
  }

  lemma SampleResolves(n: nat, s: State)
    requires Inv(s) && Resolves(s) && Enabled(n, s, Sample)
    ensures forall u :: u in s.work ==> s.work[u].result.Some?
  {
    hide Listed, NothingLost;
    forall u | u in s.work ensures s.work[u].result.Some? {
      assert Prompt(u) in s.rb;
      assert !Has(s.rb, s.step, Running, Prompt(u));
    }
  }

  lemma StepResolves(n: nat, s: State, a: Action)
    requires Inv(s) && Resolves(s) && Enabled(n, s, a)
    ensures Resolves(Apply(n, s, a))
  {
    if a.Sample? { SampleResolves(n, s); }
    hide Listed, Buffered, NothingLost;
  }

  // ---------- a step leaves nothing behind ----------

  /** The batch in training has all padding of the step and all outputs of its finished
      prompts. */
  ghost predicate BatchHasStep(s: State) {
    s.phase == Training || s.phase == Cleared ==>
      forall key :: key in s.outputs && key.Output? && key.uid in s.origin && s.origin[key.uid] == s.step ==>
        key in s.batch || (key.uid in s.work && s.work[key.uid].result == Some(Failure))
  }

  /** The transfer queue holds outputs of the current step, and of failed prompts. Once the
      batch has been cleared it holds outputs of failed prompts only. */
  ghost predicate OnlyFailedStay(s: State) {
    forall key :: key in s.tq && key.Output? ==>
      || (key.uid in s.work && s.work[key.uid].result == Some(Failure))
      || (key.uid in s.origin && s.origin[key.uid] == s.step && (s.phase == Sampling || s.phase == Training))
  }

  lemma SampledStep(n: nat, s: State)
    requires Inv(s) && Resolves(s) && Enabled(n, s, Sample)
    ensures BatchHasStep(Apply(n, s, Sample))
  {
    SampleResolves(n, s);
    forall key | key in s.outputs && key.Output? && OfStep(s, key.uid) && s.work[key.uid].result == Some(Finished)
      ensures key in Sampled(s.rb, s.step)
    {
      assert Prompt(key.uid) in s.rb && !Has(s.rb, s.step, Running, Prompt(key.uid));
      assert CompleteFor(s, s.rb, key.uid);
    }
    hide Listed, Buffered, NothingLost;
  }

  lemma StepBatch(n: nat, s: State, a: Action)
    requires Inv(s) && Resolves(s) && BatchHasStep(s) && Enabled(n, s, a)
    ensures BatchHasStep(Apply(n, s, a))
  {
    if a.Sample? { SampledStep(n, s); } else { KeepsBatch(n, s, a); }
  }

  lemma KeepsBatch(n: nat, s: State, a: Action)
    requires Inv(s) && Resolves(s) && BatchHasStep(s) && Enabled(n, s, a) && !a.Sample?
    ensures BatchHasStep(Apply(n, s, a))
  {
    hide Listed, Buffered, NothingLost;
  }

  lemma ListedOutputs(s: State, key: Key)
    requires Inv(s) && key in s.tq && key.Output?
    ensures key in s.outputs && key.uid in s.origin
  {
    hide Buffered, NothingLost;
  }

  lemma ClearLeaves(n: nat, s: State)
    requires Inv(s) && BatchHasStep(s) && OnlyFailedStay(s) && Enabled(n, s, Clear)
    ensures OnlyFailedStay(Apply(n, s, Clear))
  {
    forall key | key in s.tq && key.Output? ensures key in s.outputs && key.uid in s.origin { ListedOutputs(s, key); }
    hide Inv;
  }

  lemma StepLeaves(n: nat, s: State, a: Action)
    requires Inv(s) && Resolves(s) && BatchHasStep(s) && OnlyFailedStay(s) && Enabled(n, s, a)
    ensures OnlyFailedStay(Apply(n, s, a))
  {
    if a.Clear? { ClearLeaves(n, s); } else { PutLeaves(n, s, a); }
  }

  lemma PutLeaves(n: nat, s: State, a: Action)
    requires Inv(s) && Resolves(s) && OnlyFailedStay(s) && Enabled(n, s, a) && !a.Clear?
    ensures OnlyFailedStay(Apply(n, s, a))
  {
    hide Listed, Buffered, NothingLost;
  }

  /** What holds besides the protocol's invariant. */
  ghost predicate Tidy(s: State) { Posted(s) && Resolves(s) && BatchHasStep(s) && OnlyFailedStay(s) }

  lemma StepTidy(n: nat, s: State, a: Action)
    requires Inv(s) && Tidy(s) && Enabled(n, s, a)
    ensures Tidy(Apply(n, s, a))
  {
    hide Inv, Enabled, Apply, Posted, Resolves, BatchHasStep, OnlyFailedStay;
    StepPosted(n, s, a);
    StepResolves(n, s, a);
    StepBatch(n, s, a);
    StepLeaves(n, s, a);
  }

  lemma InitTidy(step: int)
    ensures Tidy(Init(step))
  {
  }

  /** Step `j` of the run is this action. */
  ghost predicate Takes(n: nat, run: seq<State>, j: nat, a: Action) {
    j + 1 < |run| && Known(run[j]) && Enabled(n, run[j], a) && run[j + 1] == Apply(n, run[j], a)
  }

  lemma TakesSome(n: nat, step: int, run: seq<State>, j: nat) returns (a: Action)
    requires Run(n, step, run) && j + 1 < |run|
    ensures Takes(n, run, j, a)
  {
    hide Enabled, Apply, Init, Known;
    assert Step(n, run[j], run[j + 1]);
    a :| Enabled(n, run[j], a) && run[j + 1] == Apply(n, run[j], a);
  }

  lemma {:induction false} RunTidy(n: nat, step: int, run: seq<State>, i: nat)
    requires Run(n, step, run) && i < |run|
    ensures Inv(run[i]) && Tidy(run[i])
  {
    InvAt(n, step, run, i);
    hide Inv, Enabled, Apply, Init, Tidy, Step, Known;
    if i == 0 {
      InitTidy(step);
    } else {
      RunTidy(n, step, run, i - 1);
      var a := TakesSome(n, step, run, i - 1);
      StepTidy(n, run[i - 1], a);
    }
  }

  /** Nothing of a finished prompt and no padding outlives its step in the transfer queue:
      between two steps it holds no outputs but those of failed prompts. */
  lemma NothingStays(n: nat, step: int, run: seq<State>, i: nat)
    requires Run(n, step, run) && i < |run| && (run[i].phase == Cleared || run[i].phase == Idle)
    ensures forall key :: key in run[i].tq && key.Output? ==>
      key.uid in run[i].work && run[i].work[key.uid].result == Some(Failure)
  {
    RunTidy(n, step, run, i);
    hide Inv;
  }

  /** The batch that is trained on, cleared and removed: every output of a finished prompt and
      all padding of the step is in it, and nothing that is not an output of the step. */
  lemma TrainedBatch(n: nat, step: int, run: seq<State>, i: nat)
    requires Run(n, step, run) && i < |run| && (run[i].phase == Training || run[i].phase == Cleared)
    ensures forall key :: key in run[i].batch ==>
      key.Output? && key.uid in run[i].origin && run[i].origin[key.uid] == run[i].step
    ensures forall key ::
      (&& key in run[i].outputs && key.uid in run[i].origin && run[i].origin[key.uid] == run[i].step
       && (key.uid in run[i].work ==> run[i].work[key.uid].result == Some(Finished)))
      ==> key in run[i].batch
  {
    RunTidy(n, step, run, i);
    hide Listed, Buffered, NothingLost;
  }

  /** The two removals take exactly the batch, from the queue and from the buffer. */
  lemma RemovalsAreExact(n: nat, s: State)
    requires Known(s)
    ensures Enabled(n, s, Clear) ==> var t := Apply(n, s, Clear);
      forall key :: key in t.tq <==> key in s.tq && key !in s.batch
    ensures Enabled(n, s, Remove) ==> var t := Apply(n, s, Remove);
      forall key :: (key in t.rb <==> key in s.rb && key !in s.batch) && (key in t.rb ==> t.rb[key] == s.rb[key])
  {
  }

  // ---------- what was put is what is sampled ----------

  /** The action puts this output. */
  ghost predicate Puts(a: Action, key: Key) {
    match a
    case PutOutputs(u, q, count) => key.Output? && key.uid == u && key.session == q && key.index < count
    case PutPadding(u, count) => key.Output? && key.uid == u && key.session < count && key.index == 0
    case _ => false
  }

  lemma StepPuts(n: nat, s: State, a: Action, key: Key)
    requires Known(s) && Enabled(n, s, a)
    ensures key in Apply(n, s, a).outputs <==> key in s.outputs || Puts(a, key)
  {
  }

  /** Every output was put by a step before. */
  lemma {:induction false} OutputWasPut(n: nat, step: int, run: seq<State>, i: nat, key: Key)
    requires Run(n, step, run) && i < |run| && key in run[i].outputs
    ensures exists j: nat, a :: j < i && Takes(n, run, j, a) && Puts(a, key)
  {
    if i > 0 {
      hide Run, Puts, Enabled, Apply, Known;
      var a := TakesSome(n, step, run, i - 1);
      StepPuts(n, run[i - 1], a, key);
      if key in run[i - 1].outputs { OutputWasPut(n, step, run, i - 1, key); }
    }
  }

  lemma {:induction false} OutputStays(n: nat, step: int, run: seq<State>, i: nat, j: nat, key: Key)
    requires Run(n, step, run) && i <= j < |run| && key in run[i].outputs
    ensures key in run[j].outputs
  {
    hide Run, Enabled, Apply, Puts;
    if i < j {
      OutputStays(n, step, run, i, j - 1, key);
      var a := TakesSome(n, step, run, j - 1);
      StepPuts(n, run[j - 1], a, key);
    }
  }

  /** A sample has every output that a finished prompt's sessions put, one by one, and
      nothing that was not put. */
  lemma SampledWasPut(n: nat, step: int, run: seq<State>, i: nat, key: Key)
    requires Run(n, step, run) && i < |run| && Enabled(n, run[i], Sample)
    ensures key in Sampled(run[i].rb, run[i].step) ==> exists j: nat, a :: j < i && Takes(n, run, j, a) && Puts(a, key)
    ensures OfStep(run[i], key.uid) && run[i].work[key.uid].result == Some(Finished) ==>
      (exists j: nat, a :: j < i && Takes(n, run, j, a) && Puts(a, key)) ==> key in Sampled(run[i].rb, run[i].step)
  {
    SampleIsExact(n, step, run, i);
    hide Run, Enabled, Apply, Sampled, Puts, OfStep;
    if key in Sampled(run[i].rb, run[i].step) { OutputWasPut(n, step, run, i, key); }
    if j: nat, a :| j < i && Takes(n, run, j, a) && Puts(a, key) {
      StepPuts(n, run[j], a, key);
      OutputStays(n, step, run, j + 1, i, key);
    }
  }

  // ---------- the wait ends ----------

  /** Every prompt of the step has its final status in `p`. */
  ghost predicate Final(s: State, p: Partition) {
    forall u :: OfStep(s, u) ==> s.work[u].result.Some? && Prompt(u) in p && p[Prompt(u)].status == s.work[u].result
  }

  ghost predicate Resolved(s: State) { forall u :: OfStep(s, u) ==> s.work[u].result.Some? }

  /** All that the polling thread has listed says how the prompts of the step ended. */
  ghost predicate FreshListing(s: State) { Resolved(s) && (s.snapshot.Some? ==> Final(s, s.snapshot.value)) }

  lemma FinalCanSample(n: nat, s: State)
    requires Inv(s) && s.phase == Sampling && Final(s, s.rb)
    ensures Enabled(n, s, Sample)
  {
    hide Listed, NothingLost;
  }

  /** Within the wait the step has the same prompts, and those with a result keep it. */
  lemma SameResults(n: nat, s: State, a: Action)
    requires Known(s) && Enabled(n, s, a) && s.phase == Apply(n, s, a).phase == Sampling && Resolved(s)
    ensures var t := Apply(n, s, a);
      forall u :: (OfStep(s, u) <==> OfStep(t, u)) && (OfStep(s, u) ==> t.work[u].result == s.work[u].result)
    ensures var t := Apply(n, s, a);
      && t.snapshot == (if a.List? then Some(s.tq) else if a.Poll? then None else s.snapshot)
      && (!a.Poll? ==> t.rb == s.rb)
  {
  }

  lemma StaysFinalIn(s: State, t: State, p: Partition)
    requires forall u :: (OfStep(s, u) <==> OfStep(t, u)) && (OfStep(s, u) ==> t.work[u].result == s.work[u].result)
    ensures Final(s, p) ==> Final(t, p)
    ensures Resolved(s) ==> Resolved(t)
  {
    hide OfStep;
    assert forall u :: OfStep(t, u) ==> u in s.work && u in t.work by { OfStepInWork(s); OfStepInWork(t); }
  }

  lemma OfStepInWork(s: State)
    ensures forall u :: OfStep(s, u) ==> u in s.work
  {
  }

  lemma PostedIsFinal(s: State)
    requires Posted(s) && Resolved(s)
    ensures Final(s, s.tq)
  {
  }

  /** Within the wait, a listing or buffer that has the final statuses keeps them. */
  lemma StaysFinal(n: nat, s: State, a: Action)
    requires Inv(s) && Posted(s) && Enabled(n, s, a) && s.phase == Apply(n, s, a).phase == Sampling && Resolved(s)
    ensures Resolved(Apply(n, s, a))
    ensures FreshListing(s) || a.List? ==> FreshListing(Apply(n, s, a))
    ensures Final(s, s.rb) || (FreshListing(s) && a.Poll?) ==> Final(Apply(n, s, a), Apply(n, s, a).rb)
  {
    var t := Apply(n, s, a);
    SameResults(n, s, a);
    PostedIsFinal(s);
    if a.Poll? { PollsFinal(n, s); }
    hide Inv, Posted, Enabled, Apply, Final, Resolved, OfStep;
    StaysFinalIn(s, t, s.tq);
    StaysFinalIn(s, t, s.rb);
    if s.snapshot.Some? { StaysFinalIn(s, t, s.snapshot.value); }
  }

  lemma PollsFinal(n: nat, s: State)
    requires Inv(s) && Enabled(n, s, Poll)
    ensures FreshListing(s) || Final(s, s.rb) ==> Final(Apply(n, s, Poll), Apply(n, s, Poll).rb)
  {
    hide Buffered, NothingLost;
  }

  lemma TidyPosted(n: nat, step: int, run: seq<State>, i: nat)
    requires Run(n, step, run) && i < |run|
    ensures Inv(run[i]) && Posted(run[i])
  {
    RunTidy(n, step, run, i);
    hide Run, Inv;
  }

  lemma FreshResolved(s: State)
    ensures FreshListing(s) ==> Resolved(s)
  {
  }

  /** The trainer waits in all states from `i` up to `j`. */
  ghost predicate Waits(run: seq<State>, i: nat, j: nat) {
    i <= j < |run| && forall k :: i <= k <= j ==> run[k].phase == Sampling
  }

  lemma {:induction false} StaysResolved(n: nat, step: int, run: seq<State>, i: nat, j: nat)
    requires Run(n, step, run) && Waits(run, i, j) && Resolved(run[i])
    ensures Resolved(run[j])
    ensures FreshListing(run[i]) ==> FreshListing(run[j])
    ensures Final(run[i], run[i].rb) ==> Final(run[j], run[j].rb)
  {
    hide Run, Inv, Enabled, Apply, Resolved, FreshListing, Final, Tidy, Posted, Known;
    if i < j {
      StaysResolved(n, step, run, i, j - 1);
      TidyPosted(n, step, run, j - 1);
      var a := TakesSome(n, step, run, j - 1);
      StaysFinal(n, run[j - 1], a);
    }
  }

  /** The wait ends: once every prompt of the step has its result, one listing and the poll
      after it are enough, whatever happens in between; from then on `sample` returns. */
  lemma WaitEnds(n: nat, step: int, run: seq<State>, i: nat, list: nat, poll: nat, j: nat)
    requires Run(n, step, run) && Waits(run, i, j) && Resolved(run[i])
    requires i <= list < poll < j && Takes(n, run, list, List) && Takes(n, run, poll, Poll)
    ensures Enabled(n, run[j], Sample)
    ensures forall key :: key in run[j].outputs && OfStep(run[j], key.uid) ==>
      run[j].work[key.uid].result == Some(Finished) ==> key in Sampled(run[j].rb, run[j].step)
  {
    hide Run, Inv, Enabled, Apply, Resolved, FreshListing, Final, OfStep, Sampled, Tidy;
    TidyPosted(n, step, run, list);
    TidyPosted(n, step, run, poll);
    FreshResolved(run[list + 1]);
    StaysResolved(n, step, run, i, list);
    InvAt(n, step, run, j);
    assert Waits(run, list + 1, poll) && Waits(run, poll + 1, j);
    hide Waits;
    StaysFinal(n, run[list], List);
    StaysResolved(n, step, run, list + 1, poll);
    StaysFinal(n, run[poll], Poll);
    StaysResolved(n, step, run, poll + 1, j);
    FinalCanSample(n, run[j]);
    SampleIsExact(n, step, run, j);
  }
}
