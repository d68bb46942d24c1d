/**
  What every sequence of updates keeps, for one batch and any interleaving of
  resolvers, resumers, compensations and sweeps.
 */
module BatchRuns {
  import opened Common
  import opened BatchStore

  // ---- Decisions are final ------------------------------------------------

  lemma {:induction false} DispatchKeepsVerdicts(calls: seq<PendingCall>, id: string, now: int)
    ensures HasVerdict(Dispatched(calls, id, now)) <==> HasVerdict(calls)
    decreases |calls|
  {
    var after := Dispatched(calls, id, now);
    if calls != [] {
      if calls[0].callId == id {
        assert forall i | 0 <= i < |calls| :: after[i].verdict == calls[i].verdict;
      } else {
        DispatchKeepsVerdicts(calls[1..], id, now);
        assert after == [calls[0]] + Dispatched(calls[1..], id, now);
        HasVerdictCons(calls);
        HasVerdictCons(after);
      }
    }
  }

  lemma HasVerdictCons(calls: seq<PendingCall>)
    requires calls != []
    ensures HasVerdict(calls) <==> calls[0].verdict in RECORDED_VERDICTS || HasVerdict(calls[1..])
  {
    if HasVerdict(calls) && calls[0].verdict !in RECORDED_VERDICTS {
      var i :| 0 <= i < |calls| && calls[i].verdict in RECORDED_VERDICTS;
      assert calls[1..][i - 1] == calls[i];
    }
    if HasVerdict(calls[1..]) {
      var i :| 0 <= i < |calls[1..]| && calls[1..][i].verdict in RECORDED_VERDICTS;
      assert calls[i + 1] == calls[1..][i];
    }
  }

  /** Decided: past the resolve, with a recorded verdict. */
  ghost predicate Decided(b: Batch) {
    HasVerdict(b.calls) && !b.status.Preparing? && !b.status.Pending?
  }

  ghost predicate CarriesVerdict(u: Update) { u.RecordDecisions? ==> HasVerdict(u.calls) }

  lemma StepKeepsDecided(b: Batch, u: Update)
    requires Decided(b) && CarriesVerdict(u)
    ensures Decided(Apply(b, u))
  {
    if u.MarkDispatched? {
      DispatchKeepsVerdicts(b.calls, u.callId, u.now);
    }
  }

  /**
    Once verdicts are recorded on a resolving batch, no later sequence of steps
    returns it to pending, so no further resolve wins.
   */
  lemma {:induction false} DecisionIsFinal(b: Batch, run: seq<Update>)
    requires Decided(b) && forall u | u in run :: CarriesVerdict(u)
    ensures Decided(Exec(b, run)) && Count(b, run, ResolveWin) == 0
    decreases |run|
  {
    if run != [] {
      StepKeepsDecided(b, run[0]);
      DecisionIsFinal(Apply(b, run[0]), run[1..]);
    }
  }

  /** The hypothesis is exact: a later record reopens the batch exactly when it carries no verdict. */
  lemma ReopenedIff(b: Batch, calls: seq<PendingCall>, t: int, t': int)
    requires Decided(b) && b.status == Resolving
    ensures Exec(b, [RecordDecisions(calls, t), ResetToPending(t')]).status == Pending <==> !HasVerdict(calls)
  {
    ExecAppend(b, [RecordDecisions(calls, t)], ResetToPending(t'));
    ExecOne(RecordDecisions(calls, t));
    assert [RecordDecisions(calls, t)] + [ResetToPending(t')] == [RecordDecisions(calls, t), ResetToPending(t')];
  }

  /** A resolved or expired batch never becomes open again. */
  lemma {:induction false} TerminalIsFinal(b: Batch, run: seq<Update>)
    requires Terminal(b.status)
    ensures Terminal(Exec(b, run).status)
    decreases |run|
  {
    if run != [] {
      TerminalIsFinal(Apply(b, run[0]), run[1..]);
    }
  }

  // ---- The deadline is written once --------------------------------------

  /** How many steps of the run write expires_at. */
  function Stamps(b: Batch, run: seq<Update>): nat
    decreases |run|
  {
    if run == [] then 0
    else
      (if Matches(b, run[0]) && (run[0].Promote? || run[0].SweepPreparing?) then 1 else 0)
      + Stamps(Apply(b, run[0]), run[1..])
  }

  lemma {:induction false} DeadlineWrittenOnce(b: Batch, run: seq<Update>)
    ensures Stamps(b, run) <= 1
    ensures !b.status.Preparing? ==> Stamps(b, run) == 0 && !Exec(b, run).status.Preparing? && Exec(b, run).expiresAt == b.expiresAt
    ensures Stamps(b, run) == 0 ==> Exec(b, run).expiresAt == b.expiresAt
    decreases |run|
  {
    if run != [] {
      DeadlineWrittenOnce(Apply(b, run[0]), run[1..]);
    }
  }

  // ---- Wins and reverts ---------------------------------------------------

  datatype Effect = ResolveWin | RevertToPending | ResumeWin | RevertToResolving | Other

  function EffectOf(b: Batch, u: Update): Effect {
    if !Matches(b, u) then Other
    else if u.ToResolving? then ResolveWin
    else if u.ResetToPending? || u.SweepResolving? then RevertToPending
    else if u.ToResuming? then ResumeWin
    else if u.BackToResolving? || u.SweepResuming? then RevertToResolving
    else Other
  }

  function Count(b: Batch, run: seq<Update>, e: Effect): nat
    decreases |run|
  {
    if run == [] then 0
    else (if EffectOf(b, run[0]) == e then 1 else 0) + Count(Apply(b, run[0]), run[1..], e)
  }

  function ResolveLevel(s: Status): int { if s.Resolving? || s.Resuming? then 1 else 0 }

  function ResumeLevel(s: Status): int { if s.Resuming? then 1 else 0 }

  /** The statuses account exactly for the wins that have not been reverted. */
  lemma {:induction false} WinsMatchStatus(b: Batch, run: seq<Update>)
    ensures var b' := Exec(b, run);
            var resolve := Count(b, run, ResolveWin) - Count(b, run, RevertToPending);
            var resume := Count(b, run, ResumeWin) - Count(b, run, RevertToResolving);
            if Terminal(b.status) then resolve == 0 && resume == 0
            else
              && 0 <= ResolveLevel(b.status) + resolve <= 1
              && 0 <= ResumeLevel(b.status) + resume <= 1
              && (!Terminal(b'.status) ==>
                    && ResolveLevel(b'.status) == ResolveLevel(b.status) + resolve
                    && ResumeLevel(b'.status) == ResumeLevel(b.status) + resume)
    decreases |run|
  {
    if run != [] {
      if Terminal(Apply(b, run[0]).status) {
        TerminalIsFinal(Apply(b, run[0]), run[1..]);
      }
      WinsMatchStatus(Apply(b, run[0]), run[1..]);
    }
  }

  /** From a fresh batch, wins never get ahead of reverts by more than one, in any interleaving. */
  lemma AtMostOneOutstandingWin(b: Batch, run: seq<Update>)
    requires b.status.Preparing?
    ensures 0 <= Count(b, run, ResolveWin) - Count(b, run, RevertToPending) <= 1
    ensures 0 <= Count(b, run, ResumeWin) - Count(b, run, RevertToResolving) <= 1
  {
    WinsMatchStatus(b, run);
  }

  /** Between two resume wins a compensation or a sweep has given the batch back. */
  lemma ResumeWinsAreSeparated(b: Batch, t: int, between: seq<Update>, t': int)
    requires EffectOf(b, ToResuming(t)) == ResumeWin
    requires EffectOf(Exec(Apply(b, ToResuming(t)), between), ToResuming(t')) == ResumeWin
    ensures Count(Apply(b, ToResuming(t)), between, RevertToResolving) >= 1
  {
    WinsMatchStatus(Apply(b, ToResuming(t)), between);
  }

  /** Between two resolve wins a compensation or a sweep has put the batch back to pending. */
  lemma ResolveWinsAreSeparated(b: Batch, t: int, between: seq<Update>, t': int)
    requires EffectOf(b, ToResolving(t)) == ResolveWin
    requires EffectOf(Exec(Apply(b, ToResolving(t)), between), ToResolving(t')) == ResolveWin
    ensures Count(Apply(b, ToResolving(t)), between, RevertToPending) >= 1
  {
    WinsMatchStatus(Apply(b, ToResolving(t)), between);
  }

  // ---- The start-up sweep -------------------------------------------------

  /** The clock reading an update leaves in updated_at. */
  function Stamp(u: Update): int { if u.Promote? then u.started else u.now }

  /** A document older than the cutoff after recent writes is one no write touched. */
  lemma {:induction false} OldMeansUntouched(b: Batch, run: seq<Update>, cutoff: int)
    requires forall u | u in run :: cutoff <= Stamp(u)
    ensures Exec(b, run).updatedAt < cutoff ==> Exec(b, run) == b
    ensures cutoff <= b.updatedAt ==> cutoff <= Exec(b, run).updatedAt
    decreases |run|
  {
    if run != [] {
      assert run[0] in run;
      OldMeansUntouched(Apply(b, run[0]), run[1..], cutoff);
    }
  }

  /**
    The start-up sweep with writes of other processes between its two updates, all
    stamped at or after the cutoff: the first update moves exactly the old resolving
    batches without a verdict, the second exactly the old resuming batches nobody
    touched since, so no batch is moved twice and no verdict is lost.
   */
  lemma SweepMovesOneStep(b: Batch, cutoff: int, t1: int, between: seq<Update>, t2: int)
    requires cutoff <= t1 && forall u | u in between :: cutoff <= Stamp(u)
    ensures var first := Apply(b, SweepResolving(t1, cutoff));
            var mid := Exec(first, between);
            var b' := Exec(b, SweepOrphans(cutoff, t1, between, t2));
            && (first != b <==> b.status == Resolving && b.updatedAt < cutoff && !HasVerdict(b.calls))
            && (first != b ==> first == b.(status := Pending, updatedAt := t1) && b' == mid)
            && (b' != mid ==> mid == b && b' == b.(status := Resolving, updatedAt := t2))
            && (Matches(mid, SweepResuming(t2, cutoff)) <==> b.status == Resuming && b.updatedAt < cutoff && mid == b)
  {
    SweepOne(b, cutoff, t1, between, t2);
    OldMeansUntouched(Apply(b, SweepResolving(t1, cutoff)), between, cutoff);
  }

  /** Without interference: what one sweep does to a batch, and what it never touches. */
  lemma QuietSweep(b: Batch, cutoff: int, t1: int, t2: int)
    ensures var b' := Exec(b, SweepOrphans(cutoff, t1, [], t2));
            && b'.calls == b.calls && b'.expiresAt == b.expiresAt && b'.createdAt == b.createdAt
            && (b.status == Resolving && b.updatedAt < cutoff && !HasVerdict(b.calls) <==>
                b'.status != b.status && b'.status == Pending)
            && (b.status == Resuming && b.updatedAt < cutoff <==> b'.status != b.status && b'.status == Resolving)
            && (b'.status == b.status ==> b' == b)
            && (b.status == Resolving && HasVerdict(b.calls) ==> b' == b)
  {
    SweepOne(b, cutoff, t1, [], t2);
  }

  /** A second sweep at the same instant changes nothing, for every batch, exactly when the age is not negative. */
  lemma SweepIdempotentIff(now: int, olderThan: int)
    ensures var sweep := SweepOrphans(now - olderThan, now, [], now);
            (forall b :: Exec(Exec(b, sweep), sweep) == Exec(b, sweep)) <==> olderThan >= 0
  {
    var cutoff := now - olderThan;
    var sweep := SweepOrphans(cutoff, now, [], now);
    if olderThan >= 0 {
      forall b ensures Exec(Exec(b, sweep), sweep) == Exec(b, sweep) {
        SweepOne(b, cutoff, now, [], now);
        SweepOne(Exec(b, sweep), cutoff, now, [], now);
      }
    } else {
      var stranded := Batch("c", "b", Resuming, [], now, now, None);
      SweepOne(stranded, cutoff, now, [], now);
      SweepOne(Exec(stranded, sweep), cutoff, now, [], now);
      assert Exec(stranded, sweep).status == Resolving;
      assert Exec(Exec(stranded, sweep), sweep).status == Pending;
    }
  }
}
