/**
  Conservation of the month budget.  Admissions charge the estimate; a blocking
  call that succeeds above its estimate owes the difference, which a detached
  goroutine adds later, in any order relative to everything else.
 */
module MonthBudget {
  import opened Common
  import opened Redis
  import opened RateLimit
  import R = RateLimitRuns
  import Router

  /** The month under study: one user, one month, which ends at `end`. */
  datatype Month = Month(user: string, month: int, end: int) {
    function Key(): RateLimit.Key { TokensMonth(user, month) }
  }

  /** An admitted call.  `actual` is set once a blocking call has succeeded. */
  datatype Call = Call(estimate: nat, actual: Option<nat>, landed: bool)

  function Extra(c: Call): nat { if c.actual.Some? then Max(0, c.actual.value - c.estimate) else 0 }

  /** A reconcile that has been scheduled and has not reached Redis. */
  predicate Owes(c: Call) { Extra(c) > 0 && !c.landed }

  function ChargedSoFar(c: Call): nat { c.estimate + if c.landed then Extra(c) else 0 }

  /** What the budget should see of a call: the larger of estimate and reported usage. */
  function Due(c: Call): nat { if c.actual.Some? then Max(c.estimate, c.actual.value) else c.estimate }

  datatype State = State(db: Db, calls: seq<Call>)

  datatype Action =
    | Request(r: RateLimit.Request)
    | Succeed(call: nat, actual: nat)       // blocking call answered; usage reported
    | Land(call: nat, now: int)             // its reconcile reaches Redis
    | Foreign(a: R.Action)                  // any limiter step of other users, or a lost deadline

  /** A step of this month: its clock reads before the month's end, and the TTL it stamps reaches exactly that end. */
  predicate InMonth(m: Month, a: Action) {
    match a
    case Request(r) =>
      r.now < m.end && (r.user == m.user ==> r.month == m.month && r.monthTtl == m.end - r.now && r.limits.tokensPerMonth > 0)
    case Succeed(_, _) => true
    case Land(_, now) => now < m.end
    case Foreign(a') =>
      && R.At(a') < m.end
      && (a'.Call? ==> a'.r.user != m.user)
      && (a'.Reconcile? ==> a'.user != m.user)
  }

  ghost function Step(m: Month, s: State, a: Action): State {
    match a
    case Request(r) =>
      State(R.Step(s.db, R.Call(r)),
            if r.user == m.user && R.Admits(s.db, r) then s.calls + [Call(r.charge.Total(), None, false)] else s.calls)
    case Succeed(i, actual) =>
      if i < |s.calls| && s.calls[i].actual.None?
      then s.(calls := s.calls[i := s.calls[i].(actual := Some(actual))])
      else s
    case Land(i, now) =>
      if i < |s.calls| && Owes(s.calls[i])
      then State(R.Step(s.db, R.Reconcile(now, m.user, Extra(s.calls[i]), m.month, m.end - now)),
                 s.calls[i := s.calls[i].(landed := true)])
      else s
    case Foreign(a') => s.(db := R.Step(s.db, a'))
  }

  ghost function Exec(m: Month, s: State, run: seq<Action>): State
    decreases |run|
  {
    if run == [] then s else Exec(m, Step(m, s, run[0]), run[1..])
  }

  function SumCharged(calls: seq<Call>): nat {
    if calls == [] then 0 else SumCharged(calls[..|calls| - 1]) + ChargedSoFar(calls[|calls| - 1])
  }

  function SumDue(calls: seq<Call>): nat {
    if calls == [] then 0 else SumDue(calls[..|calls| - 1]) + Due(calls[|calls| - 1])
  }

  lemma {:induction false} SumChargedUpdate(calls: seq<Call>, i: nat, c: Call)
    requires i < |calls|
    ensures SumCharged(calls[i := c]) == SumCharged(calls) - ChargedSoFar(calls[i]) + ChargedSoFar(c)
    decreases |calls|
  {
    var n := |calls| - 1;
    if i == n {
      assert calls[i := c][..n] == calls[..n];
    } else {
      assert calls[i := c][..n] == calls[..n][i := c];
      SumChargedUpdate(calls[..n], i, c);
    }
  }

  lemma {:induction false} NothingOwed(calls: seq<Call>)
    requires forall i | 0 <= i < |calls| :: !Owes(calls[i])
    ensures SumCharged(calls) == SumDue(calls)
    decreases |calls|
  {
    if calls != [] {
      NothingOwed(calls[..|calls| - 1]);
    }
  }

  /** The month counter holds `base` plus what every admitted call has been charged so far. */
  ghost predicate Balanced(m: Month, s: State, base: int) {
    CounterBalances(m, Slot(s.db, m.Key()), s.calls, base)
  }

  ghost predicate CounterBalances(m: Month, c: Counter, calls: seq<Call>, base: int) {
    && (c.Some? && c.value.deadline.Some? ==> c.value.deadline.value == m.end)
    && (if c.Some? then c.value.value else 0) == base + SumCharged(calls)
    && forall i | 0 <= i < |calls| :: calls[i].landed ==> calls[i].actual.Some?
  }

  /** The month counter across one request: charged by its total, or at most re-stamped. */
  lemma MonthCounterStep(m: Month, db: Db, r: RateLimit.Request)
    requires InMonth(m, Action.Request(r))
    ensures var before, after := Slot(db, m.Key()), Slot(R.Step(db, R.Call(r)), m.Key());
            if r.user == m.user && R.Admits(db, r)
            then after == Charged(Repaired(before, r.now, m.end - r.now), r.now, r.charge.Total(), m.end - r.now)
            else after == before || after == Repaired(before, r.now, m.end - r.now)
  {
    if !Oversize(r) {
      var bs := Buckets(r);
      R.ReserveSettles(db, r.now, bs, R.Admits(db, r));
      if r.user == m.user {
        var i := |bs| - 1;
        assert bs[i] == Bucket(m.Key(), r.charge.Total(), 0, r.limits.tokensPerMonth, m.end - r.now);
      } else {
        assert forall i | 0 <= i < |bs| :: bs[i] in bs && bs[i].key != m.Key();
      }
    }
  }

  lemma ForeignKeepsCounter(m: Month, db: Db, a: R.Action)
    requires InMonth(m, Foreign(a))
    ensures var before, after := Slot(db, m.Key()), Slot(R.Step(db, a), m.Key());
            after == before || (before.Some? && after == Some(before.value.(deadline := None)))
  {
    if a.Call? {
      if !Oversize(a.r) {
        var bs := Buckets(a.r);
        R.ReserveSettles(db, a.r.now, bs, R.Admits(db, a.r));
        assert forall i | 0 <= i < |bs| :: bs[i] in bs && bs[i].key != m.Key();
      }
    }
  }

  lemma ChargeBalances(m: Month, c: Counter, calls: seq<Call>, base: int, now: int, estimate: nat)
    requires CounterBalances(m, c, calls, base) && now < m.end
    ensures var after := Charged(Repaired(c, now, m.end - now), now, estimate, m.end - now);
            CounterBalances(m, after, calls + [Call(estimate, None, false)], base)
  {
    var more := calls + [Call(estimate, None, false)];
    assert more[..|calls|] == calls;
    assert SumCharged(more) == SumCharged(calls) + estimate;
  }

  lemma RestampBalances(m: Month, c: Counter, calls: seq<Call>, base: int, now: int)
    requires CounterBalances(m, c, calls, base)
    ensures CounterBalances(m, Repaired(c, now, m.end - now), calls, base)
  {
  }

  /** What a request may do to the counter, seen from the calls. */
  lemma RequestBalances(m: Month, c: Counter, after: Counter, calls: seq<Call>, base: int, now: int, estimate: nat, mine: bool)
    requires CounterBalances(m, c, calls, base) && now < m.end
    requires if mine then after == Charged(Repaired(c, now, m.end - now), now, estimate, m.end - now)
             else after == c || after == Repaired(c, now, m.end - now)
    ensures CounterBalances(m, after, if mine then calls + [Call(estimate, None, false)] else calls, base)
  {
    if mine {
      ChargeBalances(m, c, calls, base, now, estimate);
    } else {
      RestampBalances(m, c, calls, base, now);
    }
  }

  lemma RequestKeepsBalance(m: Month, s: State, r: RateLimit.Request, base: int)
    requires Balanced(m, s, base) && InMonth(m, Action.Request(r))
    ensures Balanced(m, Step(m, s, Action.Request(r)), base)
  {
    MonthCounterStep(m, s.db, r);
    var mine := r.user == m.user && R.Admits(s.db, r);
    RequestBalances(m, Slot(s.db, m.Key()), Slot(R.Step(s.db, R.Call(r)), m.Key()), s.calls, base, r.now, r.charge.Total(), mine);
  }

  lemma LandKeepsBalance(m: Month, s: State, i: nat, now: int, base: int)
    requires Balanced(m, s, base) && InMonth(m, Land(i, now))
    ensures Balanced(m, Step(m, s, Land(i, now)), base)
  {
    if i < |s.calls| && Owes(s.calls[i]) {
      SumChargedUpdate(s.calls, i, s.calls[i].(landed := true));
    }
  }

  lemma StepKeepsBalance(m: Month, s: State, a: Action, base: int)
    requires Balanced(m, s, base) && InMonth(m, a)
    ensures Balanced(m, Step(m, s, a), base)
  {
    match a
    case Request(r) =>
      RequestKeepsBalance(m, s, r, base);
    case Succeed(i, actual) =>
      if i < |s.calls| && s.calls[i].actual.None? {
        SumChargedUpdate(s.calls, i, s.calls[i].(actual := Some(actual)));
      }
    case Land(i, now) =>
      LandKeepsBalance(m, s, i, now, base);
    case Foreign(a') =>
      ForeignKeepsCounter(m, s.db, a');
  }

  // ---- The router's calls are these steps --------------------------------

  function RequestOf(tiers: map<string, Limits>, q: Query): RateLimit.Request
    requires q.tier in tiers
  {
    RateLimit.Request(q.now, q.user, tiers[q.tier], q.charge, q.month, q.monthTtl)
  }

  /** What Chat promises of the limiter's store and of the reconcile it schedules when a call is answered. */
  ghost predicate ChatAnswered(tiers: map<string, Limits>, before: Db, after: Db, q: Query, usage: Router.Usage, scheduled: seq<nat>) {
    && Checked(tiers, before, after, q, Allowed)
    && scheduled == if usage.Actual() > q.charge.Total() then [usage.Actual() - q.charge.Total()] else []
  }

  /**
    An answered chat call of the user is a Request followed by a Succeed: it leaves
    the same store, and the reconcile it schedules is exactly what the call owes.
   */
  lemma AnsweredChatIsTwoSteps(m: Month, s: State, tiers: map<string, Limits>, after: Db, q: Query,
                               usage: Router.Usage, scheduled: seq<nat>)
    requires q.user == m.user && q.user != NIL_UUID && q.tier in tiers && !IsUnlimited(tiers[q.tier])
    requires ChatAnswered(tiers, s.db, after, q, usage, scheduled)
    ensures var s' := Step(m, Step(m, s, Action.Request(RequestOf(tiers, q))), Succeed(|s.calls|, usage.Actual()));
            && s'.db == after && |s'.calls| == |s.calls| + 1 && s'.calls[..|s.calls|] == s.calls
            && var call := s'.calls[|s.calls|];
               scheduled == if Owes(call) then [Extra(call)] else []
  {
    AllowedChatIsRequest(m, s, tiers, after, q);
    SucceedLast(m, State(after, s.calls + [Call(q.charge.Total(), None, false)]), usage.Actual());
  }

  lemma AllowedChatIsRequest(m: Month, s: State, tiers: map<string, Limits>, after: Db, q: Query)
    requires q.user == m.user && q.user != NIL_UUID && q.tier in tiers && !IsUnlimited(tiers[q.tier])
    requires Checked(tiers, s.db, after, q, Allowed)
    ensures Step(m, s, Action.Request(RequestOf(tiers, q))) == State(after, s.calls + [Call(q.charge.Total(), None, false)])
  {
    R.CheckIsStep(tiers, s.db, after, q, Allowed);
  }

  lemma SucceedLast(m: Month, s: State, actual: nat)
    requires s.calls != [] && s.calls[|s.calls| - 1].actual.None?
    ensures var n := |s.calls| - 1;
            Step(m, s, Succeed(n, actual)) == State(s.db, s.calls[n := s.calls[n].(actual := Some(actual))])
  {
  }

  /** A refused call of a real user that reached the limiter is a Request that admits nothing. */
  lemma DeniedChatIsOneStep(m: Month, s: State, tiers: map<string, Limits>, after: Db, q: Query)
    requires q.user != NIL_UUID && q.tier in tiers && !IsUnlimited(tiers[q.tier])
    requires Checked(tiers, s.db, after, q, Denied)
    ensures Step(m, s, Action.Request(RequestOf(tiers, q))) == State(after, s.calls)
  {
    R.CheckIsStep(tiers, s.db, after, q, Denied);
  }

  lemma {:induction false} RunKeepsBalance(m: Month, s: State, run: seq<Action>, base: int)
    requires Balanced(m, s, base) && forall a | a in run :: InMonth(m, a)
    ensures Balanced(m, Exec(m, s, run), base)
    decreases |run|
  {
    if run != [] {
      StepKeepsBalance(m, s, run[0], base);
      RunKeepsBalance(m, Step(m, s, run[0]), run[1..], base);
    }
  }

  /**
    Over any run inside the month, once every scheduled reconcile has landed the
    counter has grown by exactly the larger of estimate and reported usage for
    each successful blocking call, and by the estimate for every other admitted
    call.  Denied requests, other users, lost deadlines and landing order do not matter.
   */
  lemma BudgetTracksUsage(m: Month, db: Db, run: seq<Action>, now: int)
    requires var c := Slot(db, m.Key()); c.Some? && c.value.deadline.Some? ==> c.value.deadline.value == m.end
    requires forall a | a in run :: InMonth(m, a)
    requires now < m.end
    requires forall i | 0 <= i < |Exec(m, State(db, []), run).calls| :: !Owes(Exec(m, State(db, []), run).calls[i])
    ensures var s := Exec(m, State(db, []), run);
            Count(Slot(s.db, m.Key()), now) == Count(Slot(db, m.Key()), now) + SumDue(s.calls)
  {
    var base := Count(Slot(db, m.Key()), now);
    RunKeepsBalance(m, State(db, []), run, base);
    NothingOwed(Exec(m, State(db, []), run).calls);
  }
}
