/**
  Whole runs of the rate limiter: any mix of users, requests, reconciles and
  counters that lose their deadline, in time order, with Redis reachable.
 */
module RateLimitRuns {
  import opened Common
  import opened Redis
  import opened RateLimit

  datatype Action =
    | Call(r: Request)
    | Reconcile(now: int, user: string, delta: nat, month: int, monthTtl: int)
    | LoseTtl(now: int, key: Key)

  function At(a: Action): int { if a.Call? then a.r.now else a.now }

  predicate Ordered(t: int, run: seq<Action>)
    decreases |run|
  {
    run != [] ==> t <= At(run[0]) && Ordered(At(run[0]), run[1..])
  }

  // ---- Steps --------------------------------------------------------------

  /** The store the script leaves, written as a function. */
  function Reserve(db: Db, now: int, bs: seq<Bucket>, admitted: bool): Db {
    if bs == [] then db
    else
      var last := bs[|bs| - 1];
      WithCounter(Reserve(db, now, bs[..|bs| - 1], admitted), last.key, Reserved(Slot(db, last.key), now, last, admitted))
  }

  lemma {:induction false} ReserveSettles(db: Db, now: int, bs: seq<Bucket>, admitted: bool)
    requires DistinctKeys(bs)
    ensures Settled(db, Reserve(db, now, bs, admitted), now, bs, admitted)
    decreases |bs|
  {
    if bs != [] {
      var front := bs[..|bs| - 1];
      var last := bs[|bs| - 1];
      ReserveSettles(db, now, front, admitted);
      var mid := Reserve(db, now, front, admitted);
      var after := Reserve(db, now, bs, admitted);
      assert Slot(mid, last.key) == Slot(db, last.key) by {
        assert forall i | 0 <= i < |front| :: front[i].key != last.key;
      }
      forall i | 0 <= i < |bs| ensures Slot(after, bs[i].key) == Reserved(Slot(db, bs[i].key), now, bs[i], admitted) {
        if i < |front| {
          assert front[i] == bs[i] && bs[i].key != last.key;
        }
      }
      forall k | forall i | 0 <= i < |bs| :: bs[i].key != k ensures Slot(after, k) == Slot(db, k) {
        assert k != last.key;
        assert forall i | 0 <= i < |front| :: front[i].key != k;
      }
    }
  }

  /** The script's contract fixes the store: the limiter's method computes exactly `Reserve`. */
  lemma SettledIsReserve(db: Db, after: Db, now: int, bs: seq<Bucket>, admitted: bool)
    requires DistinctKeys(bs) && Settled(db, after, now, bs, admitted)
    ensures after == Reserve(db, now, bs, admitted)
  {
    ReserveSettles(db, now, bs, admitted);
    var other := Reserve(db, now, bs, admitted);
    forall k: Key ensures Slot(after, k) == Slot(other, k) {
      if i :| 0 <= i < |bs| && bs[i].key == k {
      }
    }
    assert forall k :: k in after <==> Slot(after, k).Some?;
    assert forall k :: k in other <==> Slot(other, k).Some?;
    assert forall k | k in after :: Slot(after, k).value == after[k];
    assert forall k | k in other :: Slot(other, k).value == other[k];
  }

  ghost predicate Admits(db: Db, r: Request) { !Oversize(r) && AllFit(db, r.now, Buckets(r)) }

  ghost function Step(db: Db, a: Action): Db {
    match a
    case Call(r) => if Oversize(r) then db else Reserve(db, r.now, Buckets(r), Admits(db, r))
    case Reconcile(now, u, delta, month, ttl) =>
      WithCounter(db, TokensMonth(u, month), Charged(Slot(db, TokensMonth(u, month)), now, delta, ttl))
    case LoseTtl(now, k) =>
      if Lookup(db, now, k).Some? then db[k := db[k].(deadline := None)] else db
  }

  /** A real user's CheckLimit that gets past the spend gate is exactly one step of the runs below. */
  lemma CheckIsStep(tiers: map<string, Limits>, before: Db, after: Db, q: Query, v: Verdict)
    requires Checked(tiers, before, after, q, v) && q.user != NIL_UUID && q.tier in tiers
    requires !IsUnlimited(tiers[q.tier]) && !SpendStops(tiers[q.tier], q)
    ensures var r := Request(q.now, q.user, tiers[q.tier], q.charge, q.month, q.monthTtl);
            after == Step(before, Call(r)) && v == if Admits(before, r) then Allowed else Denied
  {
    var r := Request(q.now, q.user, tiers[q.tier], q.charge, q.month, q.monthTtl);
    if !Oversize(r) {
      SettledIsReserve(before, after, q.now, Buckets(r), v == Allowed);
    }
  }

  ghost function Exec(db: Db, run: seq<Action>): Db
    decreases |run|
  {
    if run == [] then db else Exec(Step(db, run[0]), run[1..])
  }

  // ---- One per-minute counter of one user --------------------------------

  datatype Gate = RequestGate | TokenGate

  function KeyOf(g: Gate, u: string): Key { if g.RequestGate? then RequestsMin(u) else TokensMin(u) }

  function AmountOf(g: Gate, r: Request): nat { if g.RequestGate? then 1 else r.charge.variable }

  function CapOf(g: Gate, l: Limits): int { if g.RequestGate? then l.requestsPerMin else l.tokensPerMin }

  function BucketOf(g: Gate, r: Request): Bucket {
    match g
    case RequestGate => Bucket(RequestsMin(r.user), 1, 0, r.limits.requestsPerMin, MINUTE)
    case TokenGate => Bucket(TokensMin(r.user), r.charge.variable, r.charge.stable, r.limits.tokensPerMin, MINUTE)
  }

  /** Every request of the user `u` carries the tier `l`. */
  predicate OneTier(run: seq<Action>, u: string, l: Limits) {
    forall i | 0 <= i < |run| :: run[i].Call? && run[i].r.user == u ==> run[i].r.limits == l
  }

  predicate Passes(a: Action, u: string) { a.Call? && a.r.user == u }

  lemma FindBucket(g: Gate, r: Request) returns (i: nat)
    requires CapOf(g, r.limits) > 0
    ensures i < |Buckets(r)| && Buckets(r)[i] == BucketOf(g, r)
  {
    i := if g.TokenGate? && r.limits.requestsPerMin > 0 then 1 else 0;
  }

  /** What a step that admits nothing may do to the counter. */
  predicate Idle(before: Counter, after: Counter, now: int) {
    || after == before
    || after == Repaired(before, now, MINUTE)
    || (before.Some? && after == Some(before.value.(deadline := None)) && Seen(before, now).Some?)
  }

  /** What one step does to the user's per-minute counter. */
  lemma CounterStep(db: Db, a: Action, g: Gate, u: string)
    requires Passes(a, u) ==> CapOf(g, a.r.limits) > 0
    ensures var k := KeyOf(g, u);
            var before, after := Slot(db, k), Slot(Step(db, a), k);
            && (Passes(a, u) && Admits(db, a.r) ==>
                  && Count(before, At(a)) + AmountOf(g, a.r) <= CapOf(g, a.r.limits)
                  && after == Charged(Repaired(before, At(a), MINUTE), At(a), AmountOf(g, a.r), MINUTE))
            && (!(Passes(a, u) && Admits(db, a.r)) ==>
                  Idle(before, after, At(a)))
  {
    var k := KeyOf(g, u);
    if a.Call? && !Oversize(a.r) {
      var bs := Buckets(a.r);
      ReserveSettles(db, a.r.now, bs, Admits(db, a.r));
      if a.r.user == u {
        var i := FindBucket(g, a.r);
        assert bs[i].key == k;
      } else {
        assert forall i | 0 <= i < |bs| :: bs[i] in bs && bs[i].key != k;
      }
    }
  }

  // ---- Admissions inside an interval -------------------------------------

  datatype Admission = Admission(at: int, amount: nat)

  ghost function Admitted(db: Db, a: Action, g: Gate, u: string): seq<Admission> {
    if Passes(a, u) && Admits(db, a.r) then [Admission(At(a), AmountOf(g, a.r))] else []
  }

  ghost function Admissions(db: Db, run: seq<Action>, g: Gate, u: string): seq<Admission>
    decreases |run|
  {
    if run == [] then []
    else Admitted(db, run[0], g, u) + Admissions(Step(db, run[0]), run[1..], g, u)
  }

  function Sum(log: seq<Admission>): nat {
    if log == [] then 0 else Sum(log[..|log| - 1]) + log[|log| - 1].amount
  }

  /** The amount admitted during the half-open minute that starts at `from`. */
  function InMinute(log: seq<Admission>, from: int): nat {
    if log == [] then 0
    else
      var last := log[|log| - 1];
      InMinute(log[..|log| - 1], from) + if from <= last.at < from + MINUTE then last.amount else 0
  }

  lemma {:induction false} SumAppend(x: seq<Admission>, y: seq<Admission>, from: int)
    ensures Sum(x + y) == Sum(x) + Sum(y)
    ensures InMinute(x + y, from) == InMinute(x, from) + InMinute(y, from)
    decreases |y|
  {
    if y == [] {
      assert x + y == x;
    } else {
      assert (x + y)[..|x + y| - 1] == x + y[..|y| - 1];
      SumAppend(x, y[..|y| - 1], from);
    }
  }

  lemma Associative(x: seq<Admission>, y: seq<Admission>, z: seq<Admission>)
    ensures x + (y + z) == (x + y) + z
  {
  }

  lemma {:induction false} InMinuteBounds(x: seq<Admission>, from: int)
    ensures InMinute(x, from) <= Sum(x)
    ensures (forall i | 0 <= i < |x| :: x[i].at < from) ==> InMinute(x, from) == 0
    decreases |x|
  {
    if x != [] {
      InMinuteBounds(x[..|x| - 1], from);
    }
  }

  /**
    The admissions so far, cut by the lifetimes of the counter: `cur` belongs to
    the present one, `prev` to the one before, `older` to all earlier ones.
   */
  datatype Cut = Cut(older: seq<Admission>, prev: seq<Admission>, cur: seq<Admission>) {
    function All(): seq<Admission> { older + prev + cur }
  }

  ghost predicate NoLaterThan(log: seq<Admission>, t: int) { forall i | 0 <= i < |log| :: log[i].at <= t }

  ghost predicate NoEarlierThan(log: seq<Admission>, t: int) { forall i | 0 <= i < |log| :: t <= log[i].at }

  /** Lifetimes fill the cap at most once each, and lifetimes two apart are a minute apart. */
  ghost predicate Good(c: Counter, cut: Cut, cap: int, now: int) {
    && (c.Some? ==> 0 <= c.value.value)
    && (cut.prev == [] ==> cut.older == [])
    && (cut.cur == [] ==> cut.prev == [])
    && NoLaterThan(cut.cur, now)
    && (cut.prev != [] ==> NoLaterThan(cut.older, cut.prev[0].at))
    && (cut.cur != [] ==> NoLaterThan(cut.older, cut.cur[0].at) && NoLaterThan(cut.prev, cut.cur[0].at))
    && (cut.older != [] ==> NoEarlierThan(cut.cur, cut.prev[0].at + MINUTE))
    && (cut.cur != [] ==> c.Some? && Sum(cut.cur) <= c.value.value)
    && (cut.prev != [] && c.value.deadline.Some? ==> cut.cur[0].at + MINUTE <= c.value.deadline.value)
    && Sum(cut.prev) <= cap && Sum(cut.cur) <= cap
  }

  /** Where an admission at `now` falls: in the present lifetime if the counter is live, in a new one otherwise. */
  function Extend(c: Counter, cut: Cut, x: Admission): Cut {
    if Seen(c, x.at).Some? || cut.cur == [] then cut.(cur := cut.cur + [x])
    else Cut(cut.older + cut.prev, cut.cur, [x])
  }

  lemma ChargeKeepsGood(c: Counter, cut: Cut, cap: int, now: int, x: Admission)
    requires Good(c, cut, cap, now) && now <= x.at
    requires Count(c, x.at) + x.amount <= cap
    ensures Good(Charged(Repaired(c, x.at, MINUTE), x.at, x.amount, MINUTE), Extend(c, cut, x), cap, x.at)
    ensures Extend(c, cut, x).All() == cut.All() + [x]
  {
    var one := [x];
    assert Sum(one) == x.amount by { assert one[..0] == []; }
    SumAppend(cut.cur, one, 0);
    if Seen(c, x.at).Some? || cut.cur == [] {
      assert cut.older + cut.prev + (cut.cur + one) == cut.older + cut.prev + cut.cur + one;
      if cut.cur == [] {
        assert cut.cur + one == one;
      } else {
        assert (cut.cur + one)[0] == cut.cur[0];
      }
    } else {
      assert (cut.older + cut.prev) + cut.cur + one == cut.older + cut.prev + cut.cur + one;
    }
  }

  lemma IdleKeepsGood(c: Counter, after: Counter, cut: Cut, cap: int, now: int, now': int)
    requires Good(c, cut, cap, now) && now <= now' && Idle(c, after, now')
    ensures Good(after, cut, cap, now')
  {
  }

  /** Adding one admission keeps every minute within twice the cap. */
  lemma MinuteAfterCharge(cut: Cut, cap: int, c: Counter, log: seq<Admission>, x: Admission, from: int)
    requires Good(c, cut, cap, x.at)
    requires cut.cur != [] && cut.cur[|cut.cur| - 1] == x
    requires cut.All() == log + [x]
    requires InMinute(log, from) <= 2 * cap
    ensures InMinute(log + [x], from) <= 2 * cap
  {
    assert (log + [x])[..|log|] == log;
    if from <= x.at < from + MINUTE {
      SumAppend(cut.older + cut.prev, cut.cur, from);
      SumAppend(cut.older, cut.prev, from);
      InMinuteBounds(cut.prev, from);
      InMinuteBounds(cut.cur, from);
      InMinuteBounds(cut.older, from);
    }
  }

  lemma ChargeStep(c: Counter, cut: Cut, cap: int, now: int, x: Admission, from: int)
    requires Good(c, cut, cap, now) && now <= x.at
    requires Count(c, x.at) + x.amount <= cap
    requires InMinute(cut.All(), from) <= 2 * cap
    ensures Good(Charged(Repaired(c, x.at, MINUTE), x.at, x.amount, MINUTE), Extend(c, cut, x), cap, x.at)
    ensures Extend(c, cut, x).All() == cut.All() + [x]
    ensures InMinute(Extend(c, cut, x).All(), from) <= 2 * cap
  {
    ChargeKeepsGood(c, cut, cap, now, x);
    var after := Charged(Repaired(c, x.at, MINUTE), x.at, x.amount, MINUTE);
    MinuteAfterCharge(Extend(c, cut, x), cap, after, cut.All(), x, from);
  }

  lemma BoundStep(db: Db, now: int, a: Action, g: Gate, u: string, cap: int, cut: Cut, from: int) returns (cut': Cut)
    requires now <= At(a) && cap > 0 && (Passes(a, u) ==> CapOf(g, a.r.limits) == cap)
    requires Good(Slot(db, KeyOf(g, u)), cut, cap, now)
    requires InMinute(cut.All(), from) <= 2 * cap
    ensures Good(Slot(Step(db, a), KeyOf(g, u)), cut', cap, At(a))
    ensures cut'.All() == cut.All() + Admitted(db, a, g, u)
    ensures InMinute(cut'.All(), from) <= 2 * cap
  {
    CounterStep(db, a, g, u);
    var c, after := Slot(db, KeyOf(g, u)), Slot(Step(db, a), KeyOf(g, u));
    if Passes(a, u) && Admits(db, a.r) {
      var x := Admission(At(a), AmountOf(g, a.r));
      ChargeStep(c, cut, cap, now, x, from);
      cut' := Extend(c, cut, x);
    } else {
      IdleKeepsGood(c, after, cut, cap, now, At(a));
      cut' := cut;
    }
  }

  lemma {:induction false} MinuteBound(db: Db, now: int, run: seq<Action>, g: Gate, u: string, l: Limits, cut: Cut, from: int)
    requires Ordered(now, run) && OneTier(run, u, l) && CapOf(g, l) > 0
    requires Good(Slot(db, KeyOf(g, u)), cut, CapOf(g, l), now)
    requires InMinute(cut.All(), from) <= 2 * CapOf(g, l)
    ensures InMinute(cut.All() + Admissions(db, run, g, u), from) <= 2 * CapOf(g, l)
    decreases |run|
  {
    if run == [] {
      assert cut.All() + [] == cut.All();
    } else {
      var cut' := BoundStep(db, now, run[0], g, u, CapOf(g, l), cut, from);
      var rest := Admissions(Step(db, run[0]), run[1..], g, u);
      MinuteBound(Step(db, run[0]), At(run[0]), run[1..], g, u, l, cut', from);
      Associative(cut.All(), Admitted(db, run[0], g, u), rest);
    }
  }

  /**
    In any run and any half-open minute, a user on one tier is admitted at most
    twice the tier's requests and twice its variable tokens, even when counters
    lose their deadline and are repaired along the way.
   */
  lemma TwiceTheCap(db: Db, now: int, run: seq<Action>, g: Gate, u: string, l: Limits, from: int)
    requires Ordered(now, run) && OneTier(run, u, l) && CapOf(g, l) > 0
    requires Slot(db, KeyOf(g, u)).Some? ==> 0 <= Slot(db, KeyOf(g, u)).value.value
    ensures InMinute(Admissions(db, run, g, u), from) <= 2 * CapOf(g, l)
  {
    var none := Cut([], [], []);
    MinuteBound(db, now, run, g, u, l, none, from);
    assert none.All() + Admissions(db, run, g, u) == Admissions(db, run, g, u);
  }
}
