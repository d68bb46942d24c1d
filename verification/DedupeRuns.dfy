/**
  Every interleaving of any number of Dispatch calls on one dedupe key.

  A call is in flight from its winning SETNX until its Store or Release lands or
  its process dies.  Redis is reachable throughout.
 */
module DedupeRuns {
  import opened Common
  import opened Redis
  import opened Dedupe

  datatype Phase =
    | Missed                            // SETNX lost, GET not issued yet
    | Running(since: int)               // owns the execution
    | Answered(outcome: ClaimOutcome)   // stopped by the gate
    | Finished                          // Store or Release landed
    | Crashed                           // died before either

  datatype State = State(now: int, slot: KeySlot, calls: map<nat, Phase>)

  datatype Action =
    | SetNx(call: nat)
    | Read(call: nat)
    | Store(call: nat, resp: ToolResponse)
    | Release(call: nat)
    | Crash(call: nat)
    | Tick(to: int)

  predicate IsRunning(s: State, c: nat) { c in s.calls && s.calls[c].Running? }

  /** One atomic step; an action that is not enabled changes nothing. */
  function Step(codec: Codec, s: State, a: Action): State {
    match a
    case SetNx(c) =>
      if c in s.calls then s
      else s.(slot := AfterSetNx(s.slot, s.now),
              calls := s.calls[c := if SetNxWins(s.slot, s.now) then Running(s.now) else Missed])
    case Read(c) =>
      if c in s.calls && s.calls[c].Missed?
      then s.(calls := s.calls[c := Answered(ReadAfterMiss(s.slot, s.now))])
      else s
    case Store(c, r) =>
      if IsRunning(s, c)
      then s.(slot := AfterStore(codec.encode(r), s.now), calls := s.calls[c := Finished])
      else s
    case Release(c) =>
      if IsRunning(s, c)
      then s.(slot := AfterRelease(s.slot, s.now), calls := s.calls[c := Finished])
      else s
    case Crash(c) =>
      if IsRunning(s, c) then s.(calls := s.calls[c := Crashed]) else s
    case Tick(to) =>
      if s.now <= to then s.(now := to) else s
  }

  function Exec(codec: Codec, s: State, run: seq<Action>): State
    decreases |run|
  {
    if run == [] then s else Exec(codec, Step(codec, s, run[0]), run[1..])
  }

  /** No call in flight has outlived the sentinel it stored. */
  ghost predicate Timely(s: State) {
    forall c | IsRunning(s, c) :: s.now < s.calls[c].since + EXECUTING_TTL
  }

  ghost predicate TimelyRun(codec: Codec, s: State, run: seq<Action>)
    decreases |run|
  {
    Timely(s) && (run != [] ==> TimelyRun(codec, Step(codec, s, run[0]), run[1..]))
  }

  /** The one call in flight owns the sentinel in the key. */
  ghost predicate SingleOwner(s: State) {
    forall c | IsRunning(s, c) ::
      && s.slot == Some(SentinelAt(s.calls[c].since))
      && forall d | IsRunning(s, d) :: d == c
  }

  lemma StepKeepsSingleOwner(codec: Codec, s: State, a: Action)
    requires SingleOwner(s) && Timely(s)
    ensures SingleOwner(Step(codec, s, a))
  {
    var s' := Step(codec, s, a);
    forall c | IsRunning(s', c)
      ensures s'.slot == Some(SentinelAt(s'.calls[c].since))
      ensures forall d | IsRunning(s', d) :: d == c
    {
      if IsRunning(s, c) {
        assert s.now < s.calls[c].since + EXECUTING_TTL;
        assert !SetNxWins(s.slot, s.now);
      }
      forall d | IsRunning(s', d) ensures d == c {
        if IsRunning(s, d) {
          assert !SetNxWins(s.slot, s.now);
        }
      }
    }
  }

  /**
    While every execution ends before its sentinel lapses, at most one execution
    is in flight in every state of every run, whatever the key held at the start.
   */
  lemma {:induction false} AtMostOneInFlight(codec: Codec, s: State, run: seq<Action>)
    requires SingleOwner(s) && TimelyRun(codec, s, run)
    ensures SingleOwner(Exec(codec, s, run))
    decreases |run|
  {
    if run != [] {
      StepKeepsSingleOwner(codec, s, run[0]);
      AtMostOneInFlight(codec, Step(codec, s, run[0]), run[1..]);
    }
  }

  /**
    The timing hypothesis is exact: a newcomer starts a second execution beside
    the one in flight if and only if that one has outlived its sentinel.
   */
  lemma SecondExecutionIff(codec: Codec, s: State, c: nat, newcomer: nat, to: int)
    requires SingleOwner(s) && IsRunning(s, c) && newcomer !in s.calls && s.now <= to
    ensures var s' := Exec(codec, s, [Tick(to), SetNx(newcomer)]);
            && IsRunning(s', c)
            && (IsRunning(s', newcomer) <==> s.calls[c].since + EXECUTING_TTL <= to)
  {
    var s1 := Step(codec, s, Tick(to));
    assert [Tick(to), SetNx(newcomer)][1..] == [SetNx(newcomer)];
    assert Exec(codec, s1, [SetNx(newcomer)]) == Step(codec, s1, SetNx(newcomer));
  }

  // ---- Whose sentinel a Release deletes -----------------------------------

  lemma ExecCons(codec: Codec, s: State, a: Action, rest: seq<Action>)
    ensures Exec(codec, s, [a] + rest) == Exec(codec, Step(codec, s, a), rest)
  {
    assert ([a] + rest)[1..] == rest;
  }

  lemma ExecThree(codec: Codec, s: State, a: Action, b: Action, c: Action, rest: seq<Action>)
    ensures Exec(codec, s, [a, b, c] + rest) == Exec(codec, Step(codec, Step(codec, Step(codec, s, a), b), c), rest)
  {
    assert [a, b, c] + rest == [a] + ([b] + ([c] + rest));
    ExecCons(codec, s, a, [b] + ([c] + rest));
    ExecCons(codec, Step(codec, s, a), b, [c] + rest);
    ExecCons(codec, Step(codec, Step(codec, s, a), b), c, rest);
  }

  /** The call leaves a live key that holds its own sentinel, and nobody else is executing. */
  ghost predicate ReleasesOwn(codec: Codec, s: State, c: nat) {
    && IsRunning(s, c)
    && s.slot == Some(SentinelAt(s.calls[c].since)) && Seen(s.slot, s.now).Some?
    && Step(codec, s, Release(c)).slot == None
    && forall d | d != c :: !IsRunning(s, d)
  }

  ghost predicate EveryReleaseIsOwn(codec: Codec, s: State, run: seq<Action>)
    decreases |run|
  {
    run != [] ==>
      && (run[0].Release? && IsRunning(s, run[0].call) ==> ReleasesOwn(codec, s, run[0].call))
      && EveryReleaseIsOwn(codec, Step(codec, s, run[0]), run[1..])
  }

  /** In a timely run every Release removes exactly the releaser's own sentinel. */
  lemma {:induction false} TimelyReleasesAreOwn(codec: Codec, s: State, run: seq<Action>)
    requires SingleOwner(s) && TimelyRun(codec, s, run)
    ensures EveryReleaseIsOwn(codec, s, run)
    decreases |run|
  {
    if run != [] {
      StepKeepsSingleOwner(codec, s, run[0]);
      TimelyReleasesAreOwn(codec, Step(codec, s, run[0]), run[1..]);
    }
  }

  /**
    A Release deletes a successor's claim, leaving the successor executing without
    a sentinel, if and only if the releaser has outlived its own.
   */
  lemma ReleaseFreesSuccessorIff(codec: Codec, s: State, c: nat, n: nat, to: int)
    requires SingleOwner(s) && IsRunning(s, c) && n !in s.calls && s.now <= to
    ensures var s' := Exec(codec, s, [Tick(to), SetNx(n), Release(c)] + []);
            IsRunning(s', n) && s'.slot == None <==> s.calls[c].since + EXECUTING_TTL <= to
  {
    ExecThree(codec, s, Tick(to), SetNx(n), Release(c), []);
  }

  /** The two calls execute side by side, and the first is within its own sentinel. */
  predicate Overlap(s: State, n: nat, m: nat) {
    IsRunning(s, n) && IsRunning(s, m) && s.now < s.calls[n].since + EXECUTING_TTL
  }

  /** A third call then executes beside a successor that is itself in time. */
  lemma LateReleaseFreesSuccessor(codec: Codec, s: State, c: nat, n: nat, m: nat, to: int)
    requires SingleOwner(s) && IsRunning(s, c) && n !in s.calls && m !in s.calls && n != m && s.now <= to
    ensures Overlap(Exec(codec, s, [Tick(to), SetNx(n), Release(c)] + [SetNx(m)]), n, m)
            <==> s.calls[c].since + EXECUTING_TTL <= to
  {
    ExecThree(codec, s, Tick(to), SetNx(n), Release(c), [SetNx(m)]);
    var s3 := Step(codec, Step(codec, Step(codec, s, Tick(to)), SetNx(n)), Release(c));
    assert Exec(codec, s3, [SetNx(m)]) == Step(codec, s3, SetNx(m));
  }

  /**
    One late Release makes later ones unsafe: the successor, still in time, deletes
    the third call's live sentinel when it releases in turn.
   */
  lemma LateReleaseCascades(codec: Codec, s: State, c: nat, n: nat, m: nat, to: int)
    requires SingleOwner(s) && IsRunning(s, c) && n !in s.calls && m !in s.calls && n != m && s.now <= to
    ensures var s' := Exec(codec, s, [Tick(to), SetNx(n), Release(c)] + [SetNx(m)]);
            Overlap(s', n, m) && s'.slot == Some(SentinelAt(to)) && Step(codec, s', Release(n)).slot == None
            <==> s.calls[c].since + EXECUTING_TTL <= to
  {
    LateReleaseFreesSuccessor(codec, s, c, n, m, to);
    ExecThree(codec, s, Tick(to), SetNx(n), Release(c), [SetNx(m)]);
    var s3 := Step(codec, Step(codec, Step(codec, s, Tick(to)), SetNx(n)), Release(c));
    assert Exec(codec, s3, [SetNx(m)]) == Step(codec, s3, SetNx(m));
  }

  /**
    In a timely run, a call that lost its SETNX and reads while another is
    executing is answered as in flight: neither executed nor given a result.
   */
  lemma ReadDuringExecution(codec: Codec, s: State, run: seq<Action>, c: nat, n: nat)
    requires SingleOwner(s) && TimelyRun(codec, s, run)
    requires var s' := Exec(codec, s, run); IsRunning(s', c) && n in s'.calls && s'.calls[n] == Missed
    ensures Step(codec, Exec(codec, s, run), Read(n)).calls[n] == Answered(InFlight)
  {
    AtMostOneInFlight(codec, s, run);
    TimelyAtEnd(codec, s, run);
  }

  lemma {:induction false} TimelyAtEnd(codec: Codec, s: State, run: seq<Action>)
    requires TimelyRun(codec, s, run)
    ensures Timely(Exec(codec, s, run))
    decreases |run|
  {
    if run != [] {
      TimelyAtEnd(codec, Step(codec, s, run[0]), run[1..]);
    }
  }

  /** So is a newcomer that arrives and reads at any time before the running call's 300 seconds are over. */
  lemma NewcomerIsInFlight(codec: Codec, s: State, c: nat, n: nat, t0: int, t1: int)
    requires SingleOwner(s) && IsRunning(s, c) && n !in s.calls && s.now <= t0 <= t1 < s.calls[c].since + 300_000
    ensures var s' := Exec(codec, s, [Tick(t0), SetNx(n), Tick(t1)] + [Read(n)]);
            n in s'.calls && s'.calls[n] == Answered(InFlight)
  {
    ExecThree(codec, s, Tick(t0), SetNx(n), Tick(t1), [Read(n)]);
    var s3 := Step(codec, Step(codec, Step(codec, s, Tick(t0)), SetNx(n)), Tick(t1));
    assert Exec(codec, s3, [Read(n)]) == Step(codec, s3, Read(n));
  }

  // ---- A stored result ----------------------------------------------------

  /** The key holds a completed result that lapses at `until`. */
  predicate Holds(s: State, payload: string, until: int) {
    payload != SENTINEL && s.slot == Some(Entry(payload, Some(until)))
  }

  lemma {:induction false} TimeMovesForward(codec: Codec, s: State, run: seq<Action>)
    ensures s.now <= Exec(codec, s, run).now
    decreases |run|
  {
    if run != [] {
      TimeMovesForward(codec, Step(codec, s, run[0]), run[1..]);
    }
  }

  /**
    No Claim or Release, however delayed and from however many overdue owners,
    removes or alters a result before it lapses; only another Store replaces it.
    No timing hypothesis is needed.
   */
  lemma {:induction false} StoredResultUntouched(codec: Codec, s: State, run: seq<Action>, payload: string, until: int)
    requires Holds(s, payload, until)
    requires forall a | a in run :: !a.Store?
    requires Exec(codec, s, run).now < until
    ensures Holds(Exec(codec, s, run), payload, until)
    decreases |run|
  {
    if run != [] {
      TimeMovesForward(codec, s, run);
      StoredResultUntouched(codec, Step(codec, s, run[0]), run[1..], payload, until);
    }
  }

  /** What a call may have become while a result is held: still unread, or answered with that result. */
  predicate ServedFrom(before: State, after: State, payload: string, c: nat) {
    c in after.calls && (c in before.calls ==> before.calls[c].Missed?)
    ==> after.calls[c] == Missed || after.calls[c] == Answered(Duplicate(payload))
  }

  /**
    Once a result is stored and nothing is in flight, no call executes until the
    result lapses: the key keeps the result and every later call is answered with it.
   */
  lemma {:induction false} NothingRunsWhileStored(codec: Codec, s: State, run: seq<Action>, payload: string, until: int)
    requires Holds(s, payload, until)
    requires forall c :: !IsRunning(s, c)
    requires Exec(codec, s, run).now < until
    ensures var s' := Exec(codec, s, run);
            && Holds(s', payload, until)
            && (forall c :: !IsRunning(s', c))
            && (forall c :: ServedFrom(s, s', payload, c))
    decreases |run|
  {
    if run != [] {
      TimeMovesForward(codec, s, run);
      var s1 := Step(codec, s, run[0]);
      assert !SetNxWins(s.slot, s.now);
      assert forall c :: IsRunning(s1, c) ==> IsRunning(s, c);
      NothingRunsWhileStored(codec, s1, run[1..], payload, until);
      var s' := Exec(codec, s1, run[1..]);
      forall c ensures ServedFrom(s, s', payload, c) {
        assert ServedFrom(s1, s', payload, c);
        AnsweredStays(codec, s1, run[1..], c);
      }
    }
  }

  lemma {:induction false} AnsweredStays(codec: Codec, s: State, run: seq<Action>, c: nat)
    ensures c in s.calls ==> c in Exec(codec, s, run).calls
    ensures c in s.calls && !s.calls[c].Missed? && !s.calls[c].Running? ==> Exec(codec, s, run).calls[c] == s.calls[c]
    decreases |run|
  {
    if run != [] {
      AnsweredStays(codec, Step(codec, s, run[0]), run[1..], c);
    }
  }

  /**
    The exactly-once guarantee end to end: in a timely run, from the moment a
    response is stored until DEDUPE_TTL later, no call executes and every call
    that arrives is answered with that response.
   */
  lemma StoreEndsExecution(codec: Codec, s: State, before: seq<Action>, c: nat, r: ToolResponse, after: seq<Action>)
    requires Lawful(codec) && SingleOwner(s) && TimelyRun(codec, s, before)
    requires IsRunning(Exec(codec, s, before), c)
    requires var stored := Step(codec, Exec(codec, s, before), Store(c, r));
             Exec(codec, stored, after).now < stored.now + DEDUPE_TTL
    ensures var stored := Step(codec, Exec(codec, s, before), Store(c, r));
            var s' := Exec(codec, stored, after);
            && s'.slot == AfterStore(codec.encode(r), stored.now)
            && (forall d :: !IsRunning(s', d))
            && (forall d :: ServedFrom(stored, s', codec.encode(r), d))
  {
    AtMostOneInFlight(codec, s, before);
    var running := Exec(codec, s, before);
    var stored := Step(codec, running, Store(c, r));
    assert forall d :: IsRunning(stored, d) ==> IsRunning(running, d);
    NothingRunsWhileStored(codec, stored, after, codec.encode(r), stored.now + DEDUPE_TTL);
  }
}
