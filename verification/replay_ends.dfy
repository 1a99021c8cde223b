/** From every state in which the trainer waits, the workers and the polling thread can bring
    the step to its sample (verl/trainer/main_ppo_sync.py, lines 341-351 and 449-469). */
module ReplayEnds {
  import opened Basics
  import opened ReplayBuffers
  import opened ReplayProtocol
  import opened ReplayProgress

  ghost predicate Waiting(s: State) { Inv(s) && Tidy(s) && s.phase == Sampling }

  /** The same step goes on, and nobody but prompt `u` has moved. */
  ghost predicate OnlyMoves(s: State, t: State, u: int) {
    && t.step == s.step && t.origin == s.origin && t.work.Keys == s.work.Keys
    && forall v :: v in s.work && v != u ==> t.work[v] == s.work[v]
  }

  function Last<T>(s: seq<T>): T
    requires s != []
  {
    s[|s| - 1]
  }

  lemma ContinuesOne(n: nat, s: State, a: Action)
    requires Known(s) && Enabled(n, s, a)
    ensures Continues(n, s, [s, Apply(n, s, a)])
  {
    hide Enabled, Apply;
    assert Step(n, s, Apply(n, s, a));
  }

  lemma ContinuesConcat(n: nat, s: State, a: seq<State>, b: seq<State>)
    requires Continues(n, s, a) && Continues(n, Last(a), b)
    ensures Continues(n, s, a + b[1..]) && Last(a + b[1..]) == Last(b)
  {
    hide Step;
    var more := a + b[1..];
    forall i | 0 <= i < |more| - 1 ensures Step(n, more[i], more[i + 1]) {
      if i < |a| - 1 {
        assert Step(n, a[i], a[i + 1]);
      } else {
        assert Step(n, b[i - (|a| - 1)], b[i - (|a| - 1) + 1]);
      }
    }
  }

  lemma WaitingKnown(s: State)
    requires Waiting(s)
    ensures Known(s)
  {
    hide Buffered, Listed, NothingLost, Tidy;
  }

  lemma WaitingStep(n: nat, s: State, a: Action)
    requires Waiting(s) && Enabled(n, s, a) && !a.Sample?
    ensures Known(s) && Waiting(Apply(n, s, a)) && Continues(n, s, [s, Apply(n, s, a)])
  {
    WaitingKnown(s);
    StepInv(n, s, a);
    StepTidy(n, s, a);
    ContinuesOne(n, s, a);
    hide Inv, Tidy, Continues;
  }

  /** A session of the prompt puts an output. */
  lemma PutMoves(n: nat, s: State, u: int, q: nat)
    requires Known(s) && OfStep(s, u) && s.work[u].result.None? && q < n && !Over(s.work[u], q)
    ensures Enabled(n, s, PutOutputs(u, q, 1))
    ensures var t := Apply(n, s, PutOutputs(u, q, 1));
      OnlyMoves(s, t, u) && t.work[u] == s.work[u].(done := s.work[u].done + {q})
  {
  }

  /** The prompt ends. */
  lemma EndMoves(n: nat, s: State, u: int, a: Action)
    requires Known(s) && OfStep(s, u) && s.work[u].result.None?
    requires || (a == Finish(u) && forall i: nat :: i < n ==> i in s.work[u].done)
             || (a == Fail(u) && s.work[u].raised != {})
    ensures Enabled(n, s, a)
    ensures var t := Apply(n, s, a);
      OnlyMoves(s, t, u) && t.work[u].result == Some(if a.Finish? then Finished else Failure)
  {
  }

  lemma MovesTrans(s: State, t: State, r: State, u: int)
    requires OnlyMoves(s, t, u) && OnlyMoves(t, r, u)
    ensures OnlyMoves(s, r, u)
  {
  }

  /** A prompt of which no session has raised can finish. */
  lemma {:induction false} CanFinish(n: nat, s: State, u: int, q: nat) returns (more: seq<State>)
    requires Waiting(s) && OfStep(s, u) && s.work[u].result.None? && s.work[u].raised == {}
    requires q <= n && forall p: nat :: p < q ==> p in s.work[u].done
    ensures Continues(n, s, more) && Waiting(Last(more))
    ensures OnlyMoves(s, Last(more), u) && Last(more).work[u].result == Some(Finished)
    decreases n - q
  {
    WaitingKnown(s);
    hide Waiting, Known, Enabled, Apply, Continues;
    if q == n {
      EndMoves(n, s, u, Finish(u));
      WaitingStep(n, s, Finish(u));
      more := [s, Apply(n, s, Finish(u))];
    } else if q in s.work[u].done {
      more := CanFinish(n, s, u, q + 1);
    } else {
      PutMoves(n, s, u, q);
      var t := Apply(n, s, PutOutputs(u, q, 1));
      WaitingStep(n, s, PutOutputs(u, q, 1));
      var rest := CanFinish(n, t, u, q + 1);
      MovesTrans(s, t, Last(rest), u);
      ContinuesConcat(n, s, [s, t], rest);
      more := [s, t] + rest[1..];
    }
  }

  function Unresolved(s: State): set<int> { set u | u in s.work && s.work[u].result.None? }

  /** The wait goes on in the same step; results stay, and prompts of which no session had
      raised have finished. */
  ghost predicate EndsWell(s: State, t: State) {
    && t.step == s.step && t.origin == s.origin && t.work.Keys == s.work.Keys
    && forall u :: u in s.work ==>
         && (s.work[u].result.Some? ==> t.work[u].result == s.work[u].result)
         && (s.work[u].result.None? && s.work[u].raised == {} ==> t.work[u].result == Some(Finished))
  }

  lemma EndsOne(s: State, t: State, r: State, u: int)
    requires OnlyMoves(s, t, u) && u in s.work && s.work[u].result.None? && t.work[u].result.Some?
    requires s.work[u].raised == {} ==> t.work[u].result == Some(Finished)
    ensures |Unresolved(t)| < |Unresolved(s)|
    ensures EndsWell(t, r) ==> EndsWell(s, r)
  {
    forall v ensures v in Unresolved(t) <==> v in Unresolved(s) && v != u {
      assert v in t.work <==> v in s.work;
    }
    assert Unresolved(t) == Unresolved(s) - {u} && u in Unresolved(s);
  }

  lemma WaitsForStep(s: State, u: int)
    requires Waiting(s) && u in Unresolved(s)
    ensures OfStep(s, u)
  {
    hide Inv;
  }

  /** All prompts of the step can come to their results. */
  lemma {:induction false} CanResolve(n: nat, s: State) returns (more: seq<State>)
    requires Waiting(s)
    ensures Continues(n, s, more) && Waiting(Last(more)) && EndsWell(s, Last(more)) && Unresolved(Last(more)) == {}
    decreases |Unresolved(s)|
  {
    WaitingKnown(s);
    hide Waiting, Known, Enabled, Apply, OnlyMoves, EndsWell, Step;
    if u :| u in Unresolved(s) {
      WaitsForStep(s, u);
      var one: seq<State>;
      if s.work[u].raised == {} {
        one := CanFinish(n, s, u, 0);
      } else {
        EndMoves(n, s, u, Fail(u));
        WaitingStep(n, s, Fail(u));
        one := [s, Apply(n, s, Fail(u))];
      }
      EndsOne(s, Last(one), s, u);
      var rest := CanResolve(n, Last(one));
      EndsOne(s, Last(one), Last(rest), u);
      ContinuesConcat(n, s, one, rest);
      more := one + rest[1..];
    } else {
      EndsAtOnce(s);
      more := [s];
    }
  }

  lemma EndsAtOnce(s: State)
    requires forall u :: u !in Unresolved(s)
    ensures Unresolved(s) == {} && EndsWell(s, s)
  {
    assert forall u :: u in s.work ==> u !in Unresolved(s);
  }

  lemma PollMoves(n: nat, s: State, a: Action)
    requires Known(s) && Enabled(n, s, a) && (a == List || a == Poll)
    ensures Apply(n, s, a).work == s.work && Apply(n, s, a).step == s.step && Apply(n, s, a).origin == s.origin
    ensures a == List ==> Apply(n, s, a).snapshot.Some?
    ensures a == Poll ==> Apply(n, s, a).snapshot.None?
  {
  }

  lemma NoneUnresolved(s: State)
    requires Unresolved(s) == {}
    ensures Resolved(s)
  {
    assert forall u :: u in s.work ==> u !in Unresolved(s);
  }

  /** One more action of the polling thread. */
  lemma PollOnce(n: nat, s: State, a: Action) returns (t: State)
    requires Waiting(s) && Unresolved(s) == {} && (a == List || a == Poll) && Enabled(n, s, a)
    ensures Continues(n, s, [s, t]) && Waiting(t) && t.work == s.work && t.step == s.step && t.origin == s.origin
    ensures a == List ==> t.snapshot.Some? && FreshListing(t)
    ensures a == Poll ==> t.snapshot.None? && (FreshListing(s) ==> Final(t, t.rb))
  {
    WaitingKnown(s);
    WaitingStep(n, s, a);
    t := Apply(n, s, a);
    PollMoves(n, s, a);
    NoneUnresolved(s);
    WaitingParts(s);
    WaitingParts(t);
    hide Waiting, Inv, Posted, Enabled, Apply, Resolved, FreshListing, Final;
    StaysFinal(n, s, a);
  }

  lemma WaitingParts(s: State)
    requires Waiting(s)
    ensures Inv(s) && Posted(s) && s.phase == Sampling
  {
    hide Inv;
  }

  lemma CanPoll(n: nat, s: State)
    ensures s.snapshot.None? ==> Enabled(n, s, List)
    ensures s.snapshot.Some? ==> Enabled(n, s, Poll)
  {
  }

  /** The polling thread can bring the results to the buffer. */
  lemma CanList(n: nat, s: State) returns (more: seq<State>)
    requires Waiting(s) && Unresolved(s) == {}
    ensures Continues(n, s, more) && Waiting(Last(more)) && Final(Last(more), Last(more).rb)
    ensures Last(more).work == s.work && Last(more).step == s.step && Last(more).origin == s.origin
  {
    hide Waiting, Enabled, Apply, FreshListing, Final, Step;
    var t := s;
    more := [s];
    CanPoll(n, s);
    if s.snapshot.Some? {
      t := PollOnce(n, s, Poll);
      more := [s, t];
    }
    CanPoll(n, t);
    var listed := PollOnce(n, t, List);
    ContinuesConcat(n, s, more, [t, listed]);
    more := more + [t, listed][1..];
    CanPoll(n, listed);
    var polled := PollOnce(n, listed, Poll);
    ContinuesConcat(n, s, more, [listed, polled]);
    more := more + [listed, polled][1..];
  }

  /** No wait is in vain: from every state of every run in which the trainer waits there is a
      continuation, within the step, in which every prompt of which no session has raised
      finishes, no result changes, and `sample` returns. */
  lemma EveryWaitCanEnd(n: nat, step: int, run: seq<State>) returns (more: seq<State>)
    requires Run(n, step, run) && Last(run).phase == Sampling
    ensures Continues(n, Last(run), more) && EndsWell(Last(run), Last(more)) && Enabled(n, Last(more), Sample)
  {
    RunTidy(n, step, run, |run| - 1);
    assert Waiting(Last(run));
    hide Waiting, Run, Enabled, EndsWell, Final, Inv, Tidy;
    var resolved := CanResolve(n, Last(run));
    var listed := CanList(n, Last(resolved));
    ContinuesConcat(n, Last(run), resolved, listed);
    more := resolved + listed[1..];
    SameEnds(Last(run), Last(resolved), Last(listed));
    WaitingParts(Last(listed));
    FinalCanSample(n, Last(listed));
  }

  lemma SameEnds(s: State, t: State, r: State)
    requires EndsWell(s, t) && r.work == t.work && r.step == t.step && r.origin == t.origin
    ensures EndsWell(s, r)
  {
  }
}
