/** What the log of one training round of the offload handler looks like, and why each
    operation the handler enqueues finds the ordering it needs. */
module StreamOrder {
  import opened Basics
  import opened Streams

  /** The log in round `round`: the groups in `present` have been copied to the host, of
      which those below `known` are ordered before later computation and those below
      `dropped` gave their device buffers back; those from `from` on were reloaded, of
      which those from `usable` on are ordered before later computation. A group without
      tensors is never in `present`: copying it enqueues nothing. */
  ghost predicate RoundLog(log: Log, round: nat, present: set<nat>, known: nat, dropped: nat, from: nat, usable: nat) {
    && Safe(log)
    && (forall e :: e in log && !e.Wait? ==> e.round <= round)
    && (forall g: nat :: CopyOut(round, g) in log <==> g in present)
    && (forall g: nat :: Drop(round, g) in log <==> g in present && g < dropped)
    && (forall g: nat :: Reload(round, g) in log <==> g in present && from <= g)
    && (forall j :: 0 <= j < |log| && log[j].CopyOut? && log[j].round == round && log[j].group < known
          ==> j < Known(log, Main, D2H))
    && (forall j :: 0 <= j < |log| && log[j].Reload? && log[j].round == round && log[j].group >= usable
          ==> j < Known(log, Main, H2D))
  }

  ghost predicate AllBelow(present: set<nat>, bound: int) { forall g :: g in present ==> g < bound }

  /** D2H waits for every computation enqueued so far. */
  ghost predicate ComputeSeenByD2H(log: Log) {
    forall j :: 0 <= j < |log| && log[j].Compute? ==> j < Known(log, D2H, Main)
  }

  /** H2D waits for every copy of the round enqueued so far. */
  ghost predicate CopiesSeenByH2D(log: Log, round: nat) {
    forall j :: 0 <= j < |log| && log[j].CopyOut? && log[j].round == round ==> j < Known(log, H2D, D2H)
  }

  lemma AppendCompute(log: Log, round: nat, present: set<nat>, known: nat, dropped: nat, from: nat, usable: nat, g: nat)
    requires RoundLog(log, round, present, known, dropped, from, usable)
    requires g !in present
    ensures RoundLog(log + [Compute(round, g)], round, present, known, dropped, from, usable)
  {
    hide Known, Safe;
    SafeAppend(log, Compute(round, g));
    KnownAppendAll(log, Compute(round, g));
  }

  /** Main waits for D2H: all copies are ordered before later computation. */
  lemma WaitForCopies(log: Log, round: nat, present: set<nat>, known: nat, dropped: nat, from: nat, usable: nat,
                      bound: nat)
    requires RoundLog(log, round, present, known, dropped, from, usable) && AllBelow(present, bound)
    ensures RoundLog(log + [Wait(Main, D2H)], round, present, bound, dropped, from, usable)
    ensures ComputeSeenByD2H(log) ==> ComputeSeenByD2H(log + [Wait(Main, D2H)])
  {
    hide Safe;
    SafeAppend(log, Wait(Main, D2H));
    KnownAppendAll(log, Wait(Main, D2H));
  }

  /** Main waits for H2D: all reloads are ordered before later computation. */
  lemma WaitForReloads(log: Log, round: nat, present: set<nat>, known: nat, dropped: nat, from: nat, usable: nat)
    requires RoundLog(log, round, present, known, dropped, from, usable)
    ensures RoundLog(log + [Wait(Main, H2D)], round, present, known, dropped, from, from)
    ensures CopiesSeenByH2D(log, round) ==> CopiesSeenByH2D(log + [Wait(Main, H2D)], round)
  {
    hide Safe;
    SafeAppend(log, Wait(Main, H2D));
    KnownAppendAll(log, Wait(Main, H2D));
  }

  /** D2H waits for Main: the next copy follows all computation so far. */
  lemma WaitForCompute(log: Log, round: nat, present: set<nat>, known: nat, dropped: nat, from: nat, usable: nat)
    requires RoundLog(log, round, present, known, dropped, from, usable)
    ensures RoundLog(log + [Wait(D2H, Main)], round, present, known, dropped, from, usable)
    ensures ComputeSeenByD2H(log + [Wait(D2H, Main)])
  {
    hide Safe;
    SafeAppend(log, Wait(D2H, Main));
    KnownAppendAll(log, Wait(D2H, Main));
  }

  /** H2D waits for Main, which knows all copies: the next reload follows them. */
  lemma WaitBeforeReload(log: Log, round: nat, present: set<nat>, known: nat, dropped: nat, from: nat, usable: nat)
    requires RoundLog(log, round, present, known, dropped, from, usable) && AllBelow(present, known)
    ensures RoundLog(log + [Wait(H2D, Main)], round, present, known, dropped, from, usable)
    ensures CopiesSeenByH2D(log + [Wait(H2D, Main)], round)
  {
    hide Safe;
    SafeAppend(log, Wait(H2D, Main));
    KnownAppendAll(log, Wait(H2D, Main));
  }

  lemma AppendCopyOut(log: Log, round: nat, present: set<nat>, known: nat, dropped: nat, from: nat, usable: nat, g: nat)
    requires RoundLog(log, round, present, known, dropped, from, usable)
    requires ComputeSeenByD2H(log)
    requires g !in present && known <= g && dropped <= g < from
    ensures RoundLog(log + [CopyOut(round, g)], round, present + {g}, known, dropped, from, usable)
    ensures ComputeSeenByD2H(log + [CopyOut(round, g)])
  {
    hide Known, Safe;
    SafeAppend(log, CopyOut(round, g));
    KnownAppendAll(log, CopyOut(round, g));
  }

  lemma AppendDrop(log: Log, round: nat, present: set<nat>, known: nat, dropped: nat, from: nat, usable: nat)
    requires RoundLog(log, round, present, known, dropped, from, usable)
    requires dropped in present && dropped < known
    ensures RoundLog(log + [Drop(round, dropped)], round, present, known, dropped + 1, from, usable)
    ensures ComputeSeenByD2H(log) ==> ComputeSeenByD2H(log + [Drop(round, dropped)])
  {
    hide Known, Safe;
    SafeAppend(log, Drop(round, dropped));
    KnownAppendAll(log, Drop(round, dropped));
  }

  lemma AppendReload(log: Log, round: nat, present: set<nat>, known: nat, dropped: nat, from: nat, usable: nat)
    requires RoundLog(log, round, present, known, dropped, from, usable)
    requires CopiesSeenByH2D(log, round)
    requires 0 < from && from - 1 in present && from <= usable
    ensures RoundLog(log + [Reload(round, from - 1)], round, present, known, dropped, from - 1, usable)
  {
    hide Known, Safe;
    SafeAppend(log, Reload(round, from - 1));
    KnownAppendAll(log, Reload(round, from - 1));
  }

  /** A group that was never copied out is neither dropped nor reloaded. */
  lemma NothingToMove(log: Log, round: nat, present: set<nat>, known: nat, dropped: nat, from: nat, usable: nat)
    requires RoundLog(log, round, present, known, dropped, from, usable)
    ensures dropped !in present ==> RoundLog(log, round, present, known, dropped + 1, from, usable)
    ensures 0 < from && from - 1 !in present ==> RoundLog(log, round, present, known, dropped, from - 1, usable)
  {
    hide Known, Safe;
  }

  lemma AppendUse(log: Log, round: nat, present: set<nat>, known: nat, dropped: nat, from: nat, usable: nat, g: nat)
    requires RoundLog(log, round, present, known, dropped, from, usable)
    requires g !in present || (from <= g && usable <= g)
    ensures RoundLog(log + [Use(round, g)], round, present, known, dropped, from, usable)
  {
    hide Known, Safe;
    SafeAppend(log, Use(round, g));
    KnownAppendAll(log, Use(round, g));
  }

  /** A new round starts from any finished one with nothing copied and nothing reloaded. */
  lemma NextRound(log: Log, round: nat, present: set<nat>, known: nat, dropped: nat, from: nat, usable: nat, groups: nat)
    requires RoundLog(log, round, present, known, dropped, from, usable)
    ensures RoundLog(log, round + 1, {}, 0, 0, groups, groups)
  {
  }
}
