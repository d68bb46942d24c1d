/**
  What one reservation does to the store, the caps every reachable store obeys,
  and the size gate that runs before Redis.
 */
module RateLimitGate {
  import opened Common
  import opened Redis
  import opened RateLimit
  import opened RateLimitRuns

  // ---- All or nothing -----------------------------------------------------

  predicate LiveDeadline(c: Counter, now: int) { Seen(c, now).Some? && c.value.deadline.Some? }

  /**
    One counter before and after a reservation.  A stamp of no time at all, in the
    last fraction of a millisecond of a month, makes the counter vanish at once.
   */
  predicate Effect(before: Counter, after: Counter, now: int, added: int, ttl: int) {
    && (Seen(after, now).Some? ==> after.value.deadline.Some?)
    && (LiveDeadline(before, now) ==> Seen(after, now).Some? && after.value.deadline == before.value.deadline)
    && if LiveDeadline(before, now) || ttl > 0 then Count(after, now) == Count(before, now) + added
       else Seen(after, now).None?
  }

  lemma ReservedEffect(c: Counter, now: int, b: Bucket, admitted: bool)
    ensures Effect(c, Reserved(c, now, b, admitted), now, if admitted then b.increment else 0, b.ttl)
  {
  }

  /**
    An admitted request adds its own increment to every enabled counter and a
    denied one adds to none; a live deadline is never moved, a counter still
    alive afterwards always has one, and no other key changes.
   */
  lemma AllOrNothing(db: Db, r: Request)
    requires !Oversize(r)
    ensures forall b | b in Buckets(r) ::
              Effect(Slot(db, b.key), Slot(Step(db, Call(r)), b.key), r.now, if Admits(db, r) then b.increment else 0, b.ttl)
    ensures forall k | forall b | b in Buckets(r) :: b.key != k :: Slot(Step(db, Call(r)), k) == Slot(db, k)
  {
    var bs, after, ok := Buckets(r), Step(db, Call(r)), Admits(db, r);
    ReserveSettles(db, r.now, bs, ok);
    forall b | b in bs ensures Effect(Slot(db, b.key), Slot(after, b.key), r.now, if ok then b.increment else 0, b.ttl) {
      var i :| 0 <= i < |bs| && bs[i] == b;
      assert Slot(after, bs[i].key) == Reserved(Slot(db, bs[i].key), r.now, bs[i], ok);
      ReservedEffect(Slot(db, b.key), r.now, b, ok);
    }
    forall k | forall b | b in bs :: b.key != k ensures Slot(after, k) == Slot(db, k) {
      assert forall j | 0 <= j < |bs| :: bs[j] in bs;
    }
  }

  /** In every store reached by any run, a per-minute counter is within its cap. */
  lemma {:induction false} MinuteCountersWithinCaps(db: Db, run: seq<Action>, g: Gate, u: string, l: Limits)
    requires OneTier(run, u, l) && CapOf(g, l) > 0
    requires var c := Slot(db, KeyOf(g, u)); c.Some? ==> c.value.value <= CapOf(g, l)
    ensures var c := Slot(Exec(db, run), KeyOf(g, u)); c.Some? ==> c.value.value <= CapOf(g, l)
    decreases |run|
  {
    if run != [] {
      CounterStep(db, run[0], g, u);
      MinuteCountersWithinCaps(Step(db, run[0]), run[1..], g, u, l);
    }
  }

  // ---- The size gate ------------------------------------------------------

  ghost predicate NonNegative(db: Db) { forall k | k in db :: 0 <= db[k].value }

  /** The gate rejects only what the script would deny in every non-negative store. */
  lemma OversizeIsAlwaysDenied(db: Db, r: Request)
    requires NonNegative(db) && Oversize(r)
    ensures !AllFit(db, r.now, Buckets(r))
  {
    var bs := Buckets(r);
    if r.limits.tokensPerMin > 0 && r.charge.Total() > r.limits.tokensPerMin {
      var i := FindBucket(TokenGate, r);
      assert !Fits(Slot(db, bs[i].key), r.now, bs[i]);
    } else {
      var i := |bs| - 1;
      assert bs[i] == Bucket(TokensMonth(r.user, r.month), r.charge.Total(), 0, r.limits.tokensPerMonth, r.monthTtl);
      assert !Fits(Slot(db, bs[i].key), r.now, bs[i]);
    }
  }

  /** The limiter with the size gate removed. */
  ghost predicate UngatedAdmits(db: Db, r: Request) { AllFit(db, r.now, Buckets(r)) }

  /** A reservation that decides for itself. */
  ghost function Reserving(db: Db, now: int, bs: seq<Bucket>): Db { Reserve(db, now, bs, AllFit(db, now, bs)) }

  ghost function UngatedStep(db: Db, a: Action): Db {
    if a.Call? then Reserving(db, a.r.now, Buckets(a.r)) else Step(db, a)
  }

  /** A live counter of the request that has no deadline and would be repaired. */
  ghost predicate NeedsRepair(db: Db, r: Request) {
    exists b | b in Buckets(r) :: TtlLess(Slot(db, b.key), r.now)
  }

  lemma RepairShows(db: Db, now: int, bs: seq<Bucket>, i: nat)
    requires i < |bs| && DistinctKeys(bs) && TtlLess(Slot(db, bs[i].key), now)
    ensures Reserve(db, now, bs, false) != db
  {
    ReserveSettles(db, now, bs, false);
    assert Slot(Reserve(db, now, bs, false), bs[i].key) == Repaired(Slot(db, bs[i].key), now, bs[i].ttl);
  }

  lemma NothingToRepair(db: Db, now: int, bs: seq<Bucket>)
    requires DistinctKeys(bs) && forall i | 0 <= i < |bs| :: !TtlLess(Slot(db, bs[i].key), now)
    ensures Reserve(db, now, bs, false) == db
  {
    assert Settled(db, db, now, bs, false);
    SettledIsReserve(db, db, now, bs, false);
  }

  /** The gate changes what a request leaves behind exactly when it skips a repair. */
  lemma GateChangesStoreIff(db: Db, r: Request)
    requires NonNegative(db)
    ensures Admits(db, r) <==> UngatedAdmits(db, r)
    ensures Step(db, Call(r)) != UngatedStep(db, Call(r)) <==> Oversize(r) && NeedsRepair(db, r)
  {
    if Oversize(r) {
      OversizeIsAlwaysDenied(db, r);
      var bs := Buckets(r);
      if NeedsRepair(db, r) {
        var b :| b in bs && TtlLess(Slot(db, b.key), r.now);
        var i :| 0 <= i < |bs| && bs[i] == b;
        RepairShows(db, r.now, bs, i);
      } else {
        assert forall i | 0 <= i < |bs| :: bs[i] in bs;
        NothingToRepair(db, r.now, bs);
      }
    }
  }

  ghost predicate AllHaveTtl(db: Db) { forall k | k in db :: db[k].deadline.Some? }

  ghost predicate Healthy(db: Db) { NonNegative(db) && AllHaveTtl(db) }

  lemma {:induction false} ReserveKeepsHealthy(db: Db, now: int, bs: seq<Bucket>, admitted: bool)
    requires Healthy(db)
    ensures Healthy(Reserve(db, now, bs, admitted))
    decreases |bs|
  {
    if bs != [] {
      ReserveKeepsHealthy(db, now, bs[..|bs| - 1], admitted);
    }
  }

  ghost predicate Passed(db: Db, a: Action, gated: bool) {
    a.Call? && if gated then Admits(db, a.r) else UngatedAdmits(db, a.r)
  }

  ghost function Next(db: Db, a: Action, gated: bool): Db { if gated then Step(db, a) else UngatedStep(db, a) }

  /** The admitted requests of a run, in order. */
  ghost function Verdicts(db: Db, run: seq<Action>, gated: bool): (v: seq<bool>)
    ensures |v| == |run|
    decreases |run|
  {
    if run == [] then []
    else
      [Passed(db, run[0], gated)] + Verdicts(Next(db, run[0], gated), run[1..], gated)
  }

  /**
    Over every run in which no counter loses its deadline, adding the gate
    changes no verdict.
   */
  lemma {:induction false} GateChangesNoVerdict(db: Db, run: seq<Action>)
    requires Healthy(db) && forall a | a in run :: !a.LoseTtl?
    ensures Verdicts(db, run, true) == Verdicts(db, run, false)
    decreases |run|
  {
    if run != [] {
      var a := run[0];
      assert a in run;
      if a.Call? {
        GateChangesStoreIff(db, a.r);
        ReserveKeepsHealthy(db, a.r.now, Buckets(a.r), Admits(db, a.r));
      }
      GateChangesNoVerdict(Step(db, a), run[1..]);
    }
  }

  // ---- The separating run -------------------------------------------------

  /**
    A probe of one counter with value `value` and no deadline: an oversize call at
    `t`, a call that fills the counter to its cap at `t + 1`, and one more call when
    the deadline stamped at `t` is reached.
   */
  datatype Probe = Probe(key: Key, value: int, t: int, big: Request, fill: Request, last: Request)

  function RunOf(p: Probe): seq<Action> { [Call(p.big), Call(p.fill), Call(p.last)] }

  /** Beside the probed bucket, only buckets that admit everything the probe asks. */
  ghost predicate Roomy(db: Db, bs: seq<Bucket>) {
    forall j | 1 <= j < |bs| ::
      bs[j].increment == 0 && bs[j].reserved == 0 && bs[j].limit >= 0
      && (Slot(db, bs[j].key).Some? ==> Slot(db, bs[j].key).value.value <= bs[j].limit)
  }

  /** A call charged one unit against a cap of value + 1. */
  predicate UnitBucket(bs: seq<Bucket>, key: Key, value: int) {
    bs != [] && bs[0] == Bucket(key, 1, 0, value + 1, MINUTE)
  }

  /** What the three calls of a probe are charged against. */
  ghost predicate Aligned(db: Db, key: Key, value: int, big: seq<Bucket>, fill: seq<Bucket>, last: seq<Bucket>) {
    && Slot(db, key) == Some(Entry(value, None)) && value >= 0
    && big != [] && big[0].key == key && big[0].ttl == MINUTE
    && UnitBucket(fill, key, value) && UnitBucket(last, key, value)
    && DistinctKeys(big) && DistinctKeys(fill) && SameKeys(big, last) && SameKeys(fill, last)
    && Roomy(db, fill) && Roomy(db, last)
  }

  ghost predicate Sound(db: Db, p: Probe) {
    && p.big.now == p.t && p.fill.now == p.t + 1 && p.last.now == p.t + MINUTE
    && Oversize(p.big) && !Oversize(p.fill) && !Oversize(p.last)
    && Aligned(db, p.key, p.value, Buckets(p.big), Buckets(p.fill), Buckets(p.last))
  }

  ghost predicate SameKeys(bs: seq<Bucket>, cs: seq<Bucket>) {
    |bs| == |cs| && forall j | 0 <= j < |bs| :: bs[j].key == cs[j].key && bs[j].limit == cs[j].limit
  }

  /** A reservation that adds nothing beside its first bucket leaves the others roomy. */
  lemma ReserveKeepsRoomy(db: Db, now: int, bs: seq<Bucket>, cs: seq<Bucket>, admitted: bool)
    requires DistinctKeys(bs) && SameKeys(bs, cs) && Roomy(db, cs) && (admitted ==> Roomy(db, bs))
    ensures Roomy(Reserve(db, now, bs, admitted), cs)
  {
    ReserveSettles(db, now, bs, admitted);
    var after := Reserve(db, now, bs, admitted);
    forall j | 1 <= j < |cs| && Slot(after, cs[j].key).Some?
      ensures Slot(after, cs[j].key).value.value <= cs[j].limit
    {
      assert Slot(after, bs[j].key) == Reserved(Slot(db, bs[j].key), now, bs[j], admitted);
    }
  }

  lemma FitsIffFirst(db: Db, now: int, bs: seq<Bucket>)
    requires bs != [] && Roomy(db, bs)
    ensures AllFit(db, now, bs) <==> Fits(Slot(db, bs[0].key), now, bs[0])
  {
  }

  lemma FirstAfter(db: Db, now: int, bs: seq<Bucket>, admitted: bool)
    requires bs != [] && DistinctKeys(bs)
    ensures Slot(Reserve(db, now, bs, admitted), bs[0].key) == Reserved(Slot(db, bs[0].key), now, bs[0], admitted)
  {
    ReserveSettles(db, now, bs, admitted);
  }

  /** Without a repair the fill starts the counter's last minute, one tick too late for the last call. */
  lemma FillWithoutRepair(db: Db, key: Key, value: int, t: int, fill: seq<Bucket>, last: seq<Bucket>)
    requires Slot(db, key) == Some(Entry(value, None)) && UnitBucket(fill, key, value) && UnitBucket(last, key, value)
    requires DistinctKeys(fill) && Roomy(db, fill)
    ensures AllFit(db, t + 1, fill) && !AllFit(Reserve(db, t + 1, fill, true), t + MINUTE, last)
  {
    FitsIffFirst(db, t + 1, fill);
    FirstAfter(db, t + 1, fill, true);
    assert !Fits(Slot(Reserve(db, t + 1, fill, true), key), t + MINUTE, last[0]);
  }

  /** After a repair at `t` the counter lapses in time for the last call. */
  lemma FillAfterRepair(db: Db, key: Key, value: int, t: int, fill: seq<Bucket>, last: seq<Bucket>)
    requires Slot(db, key) == Some(Entry(value, Some(t + MINUTE))) && value >= 0
    requires UnitBucket(fill, key, value) && UnitBucket(last, key, value)
    requires DistinctKeys(fill) && Roomy(db, fill) && Roomy(db, last) && SameKeys(fill, last)
    ensures AllFit(db, t + 1, fill) && AllFit(Reserve(db, t + 1, fill, true), t + MINUTE, last)
  {
    FitsIffFirst(db, t + 1, fill);
    FirstAfter(db, t + 1, fill, true);
    ReserveKeepsRoomy(db, t + 1, fill, last, true);
    FitsIffFirst(Reserve(db, t + 1, fill, true), t + MINUTE, last);
  }

  lemma RepairThenFill(db: Db, key: Key, value: int, t: int, big: seq<Bucket>, fill: seq<Bucket>, last: seq<Bucket>)
    requires Aligned(db, key, value, big, fill, last)
    ensures var mid := Reserve(db, t, big, false);
            AllFit(mid, t + 1, fill) && AllFit(Reserve(mid, t + 1, fill, true), t + MINUTE, last)
  {
    FirstAfter(db, t, big, false);
    ReserveKeepsRoomy(db, t, big, last, false);
    ReserveKeepsRoomy(db, t, big, fill, false);
    FillAfterRepair(Reserve(db, t, big, false), key, value, t, fill, last);
  }

  lemma GatedProbe(db: Db, p: Probe)
    requires Sound(db, p)
    ensures !Admits(Step(Step(db, Call(p.big)), Call(p.fill)), p.last)
  {
    FillWithoutRepair(db, p.key, p.value, p.t, Buckets(p.fill), Buckets(p.last));
  }

  lemma LastFits(db: Db, key: Key, value: int, t: int, big: seq<Bucket>, fill: seq<Bucket>, last: seq<Bucket>)
    requires Aligned(db, key, value, big, fill, last) && !AllFit(db, t, big)
    ensures AllFit(Reserving(Reserving(db, t, big), t + 1, fill), t + MINUTE, last)
  {
    RepairThenFill(db, key, value, t, big, fill, last);
  }

  lemma UngatedProbe(db: Db, p: Probe)
    requires p.fill.now == p.big.now + 1 && p.last.now == p.big.now + MINUTE
    requires Aligned(db, p.key, p.value, Buckets(p.big), Buckets(p.fill), Buckets(p.last))
    requires !AllFit(db, p.big.now, Buckets(p.big))
    ensures AllFit(Reserving(Reserving(db, p.big.now, Buckets(p.big)), p.fill.now, Buckets(p.fill)), p.last.now, Buckets(p.last))
  {
    LastFits(db, p.key, p.value, p.big.now, Buckets(p.big), Buckets(p.fill), Buckets(p.last));
  }

  lemma VerdictsTail(db: Db, run: seq<Action>, gated: bool, i: nat)
    requires 0 < i < |run|
    ensures Verdicts(db, run, gated)[i] == Verdicts(Next(db, run[0], gated), run[1..], gated)[i - 1]
  {
  }

  lemma LastVerdict(db: Db, a: Action, b: Action, c: Action, gated: bool)
    ensures Verdicts(db, [a, b, c], gated)[2] <==> Passed(Next(Next(db, a, gated), b, gated), c, gated)
  {
    var mid := Next(db, a, gated);
    VerdictsTail(db, [a, b, c], gated, 2);
    assert [a, b, c][1..] == [b, c] && [b, c][1..] == [c];
    VerdictsTail(mid, [b, c], gated, 1);
    assert Verdicts(Next(mid, b, gated), [c], gated)[0] == Passed(Next(mid, b, gated), c, gated);
  }

  lemma GatedLast(db: Db, p: Probe)
    requires Sound(db, p)
    ensures !Verdicts(db, RunOf(p), true)[2]
  {
    GatedProbe(db, p);
    LastVerdict(db, Call(p.big), Call(p.fill), Call(p.last), true);
  }

  lemma UngatedLast(db: Db, p: Probe)
    ensures Verdicts(db, RunOf(p), false)[2] <==>
            UngatedAdmits(UngatedStep(UngatedStep(db, Call(p.big)), Call(p.fill)), p.last)
  {
    LastVerdict(db, Call(p.big), Call(p.fill), Call(p.last), false);
  }

  lemma ProbeSeparates(db: Db, p: Probe)
    requires Sound(db, p) && !AllFit(db, p.big.now, Buckets(p.big))
    ensures Verdicts(db, RunOf(p), true) != Verdicts(db, RunOf(p), false)
  {
    UngatedProbe(db, p);
    UngatedLast(db, p);
    GatedLast(db, p);
  }

  // ---- A probe for every kind of counter ---------------------------------

  function ProbeAt(key: Key, value: int, t: int, l: Limits, over: nat, unit: nat, month: int): Probe {
    Probe(key, value, t,
          Request(t, key.user, l, Charge(over, 0), month, MINUTE),
          Request(t + 1, key.user, l, Charge(unit, 0), month, MINUTE),
          Request(t + MINUTE, key.user, l, Charge(unit, 0), month, MINUTE))
  }

  /** A token cap with room for what is stored: it is enabled so that a call can be oversize. */
  function RoomFor(db: Db, user: string): nat {
    if TokensMin(user) in db then Max(1, db[TokensMin(user)].value) else 1
  }

  /** The probe of a counter; all its calls carry one tier. */
  function ProbeFor(db: Db, key: Key, t: int): Probe
    requires key in db && db[key].value >= 0
  {
    var v := db[key].value;
    match key
    case RequestsMin(u) =>
      var room := RoomFor(db, u);
      ProbeAt(key, v, t, Limits(v + 1, room, 0, 0.0), room + 1, 0, 0)
    case TokensMin(_) => ProbeAt(key, v, t, Limits(0, v + 1, 0, 0.0), v + 2, 1, 0)
    case TokensMonth(_, month) => ProbeAt(key, v, t, Limits(0, 0, v + 1, 0.0), v + 2, 1, month)
  }

  lemma OversizeIff(r: Request)
    ensures Oversize(r) <==>
            || (r.limits.tokensPerMin > 0 && r.charge.Total() > r.limits.tokensPerMin)
            || (r.limits.tokensPerMonth > 0 && r.charge.Total() > r.limits.tokensPerMonth)
  {
    var caps := [r.limits.tokensPerMin, r.limits.tokensPerMonth];
    assert caps[0] == r.limits.tokensPerMin && caps[1] == r.limits.tokensPerMonth;
  }

  /** The rows of a probe's call: the probed counter first, and the token gate beside a request counter. */
  function RowsFor(db: Db, key: Key, first: nat, second: nat): seq<Bucket>
    requires key in db
  {
    [Bucket(key, first, 0, db[key].value + 1, MINUTE)]
    + if key.RequestsMin? then [Bucket(TokensMin(key.user), second, 0, RoomFor(db, key.user), MINUTE)] else []
  }

  lemma ProbeRows(db: Db, key: Key, t: int)
    requires key in db && db[key].value >= 0
    ensures var p, over := ProbeFor(db, key, t), db[key].value + 2;
            && Buckets(p.big) == RowsFor(db, key, if key.RequestsMin? then 1 else over, RoomFor(db, key.user) + 1)
            && Buckets(p.fill) == RowsFor(db, key, 1, 0)
            && Buckets(p.last) == RowsFor(db, key, 1, 0)
  {
  }

  lemma RowsAreAligned(db: Db, key: Key, first: nat, second: nat)
    requires key in db && db[key].value >= 0 && db[key].deadline.None?
    ensures Aligned(db, key, db[key].value, RowsFor(db, key, first, second), RowsFor(db, key, 1, 0), RowsFor(db, key, 1, 0))
  {
  }

  lemma ProbeIsAligned(db: Db, key: Key, t: int)
    requires key in db && db[key].value >= 0 && db[key].deadline.None?
    ensures var p := ProbeFor(db, key, t);
            Aligned(db, p.key, p.value, Buckets(p.big), Buckets(p.fill), Buckets(p.last))
  {
    ProbeRows(db, key, t);
    RowsAreAligned(db, key, if key.RequestsMin? then 1 else db[key].value + 2, RoomFor(db, key.user) + 1);
  }

  lemma ProbeSizes(db: Db, key: Key, t: int)
    requires key in db && db[key].value >= 0
    ensures var p := ProbeFor(db, key, t);
            Oversize(p.big) && !Oversize(p.fill) && !Oversize(p.last)
  {
    var p := ProbeFor(db, key, t);
    OversizeIff(p.big);
    OversizeIff(p.fill);
    OversizeIff(p.last);
  }

  lemma ProbeIsSound(db: Db, key: Key, t: int)
    requires key in db && db[key].value >= 0 && db[key].deadline.None?
    ensures Sound(db, ProbeFor(db, key, t))
  {
    ProbeSizes(db, key, t);
    ProbeIsAligned(db, key, t);
  }

  /** The probe's limits leave the month gate out unless a month counter is probed. */
  lemma ProbeIsOrdered(db: Db, key: Key, t: int)
    requires key in db && db[key].value >= 0
    ensures Ordered(t, RunOf(ProbeFor(db, key, t)))
    ensures forall a | a in RunOf(ProbeFor(db, key, t)) ::
              a.Call? && (!key.TokensMonth? ==> a.r.limits.tokensPerMonth == 0)
  {
    var p := ProbeFor(db, key, t);
    var two, one := [Call(p.fill), Call(p.last)], [Call(p.last)];
    assert two[1..] == one && Ordered(t + 1, one);
    assert RunOf(p)[1..] == two && Ordered(t, two);
  }

  // ---- When the gate is neutral ------------------------------------------

  ghost predicate KeepsTtl(run: seq<Action>) { forall a | a in run :: !a.LoseTtl? }

  /** From a store, no run without lost deadlines tells the gated limiter from the ungated one. */
  ghost predicate Neutral(db: Db, now: int) {
    forall run | Ordered(now, run) && KeepsTtl(run) :: Verdicts(db, run, true) == Verdicts(db, run, false)
  }

  /** The gate changes no verdict of any run if and only if every stored counter has a deadline. */
  lemma GateIsNeutralIff(db: Db, now: int)
    requires NonNegative(db)
    ensures Neutral(db, now) <==> AllHaveTtl(db)
  {
    if AllHaveTtl(db) {
      forall run | Ordered(now, run) && KeepsTtl(run) ensures Verdicts(db, run, true) == Verdicts(db, run, false) {
        GateChangesNoVerdict(db, run);
      }
    } else {
      var key :| key in db && db[key].deadline.None?;
      GateCanDelayRepair(db, key, now);
    }
  }

  /**
    From every store with a counter that lost its deadline, the gate does change a
    verdict: the oversize request no longer starts the counter's last minute, so a
    later request that would have been admitted is denied.
   */
  lemma GateCanDelayRepair(db: Db, key: Key, now: int)
    requires NonNegative(db) && key in db && db[key].deadline.None?
    ensures var run := RunOf(ProbeFor(db, key, now));
            Ordered(now, run) && KeepsTtl(run) && Verdicts(db, run, true) != Verdicts(db, run, false)
  {
    ProbeIsOrdered(db, key, now);
    ProbeIsSound(db, key, now);
    OversizeIsAlwaysDenied(db, ProbeFor(db, key, now).big);
    ProbeSeparates(db, ProbeFor(db, key, now));
  }

  // ---- Under a calendar ---------------------------------------------------

  /** `end(m)` is the instant month `m` is over: a month counter is used before it and stamped to last until it. */
  predicate InCalendar(end: int -> int, a: Action) {
    match a
    case Call(r) => r.limits.tokensPerMonth > 0 ==> r.now < end(r.month) && r.monthTtl == end(r.month) - r.now
    case Reconcile(now, _, _, month, ttl) => now < end(month) && ttl == end(month) - now
    case LoseTtl(_, _) => true
  }

  ghost predicate Calendar(end: int -> int, run: seq<Action>) { forall a | a in run :: InCalendar(end, a) }

  predicate BucketInCalendar(end: int -> int, now: int, b: Bucket) {
    b.key.TokensMonth? ==> now < end(b.key.month) && b.ttl == end(b.key.month) - now
  }

  /** The counters differ at most in a month deadline that was or was not repaired; minute counters carry one. */
  predicate Alike(end: int -> int, k: Key, gated: Counter, ungated: Counter) {
    && gated.Some? == ungated.Some?
    && (gated.Some? ==>
          && 0 <= gated.value.value == ungated.value.value
          && (k.TokensMonth? || gated.value.deadline.Some?)
          && (gated.value.deadline == ungated.value.deadline
              || (k.TokensMonth? && gated.value.deadline.None? && ungated.value.deadline == Some(end(k.month)))))
  }

  ghost predicate AllAlike(end: int -> int, gated: Db, ungated: Db) {
    forall k: Key :: Alike(end, k, Slot(gated, k), Slot(ungated, k))
  }

  lemma ReservedAlike(end: int -> int, c: Counter, d: Counter, now: int, b: Bucket, admitted: bool)
    requires Alike(end, b.key, c, d) && BucketInCalendar(end, now, b)
    ensures Fits(c, now, b) <==> Fits(d, now, b)
    ensures Alike(end, b.key, Reserved(c, now, b, admitted), Reserved(d, now, b, admitted))
    ensures Alike(end, b.key, c, Reserved(d, now, b, false))
  {
  }

  lemma ReserveAlike(end: int -> int, gated: Db, ungated: Db, now: int, bs: seq<Bucket>, admitted: bool)
    requires AllAlike(end, gated, ungated) && DistinctKeys(bs)
    requires forall i | 0 <= i < |bs| :: BucketInCalendar(end, now, bs[i])
    ensures AllFit(gated, now, bs) <==> AllFit(ungated, now, bs)
    ensures AllAlike(end, Reserve(gated, now, bs, admitted), Reserve(ungated, now, bs, admitted))
    ensures AllAlike(end, gated, Reserve(ungated, now, bs, false))
  {
    FitAlike(end, gated, ungated, now, bs);
    ReserveSettles(gated, now, bs, admitted);
    ReserveSettles(ungated, now, bs, admitted);
    ReserveSettles(ungated, now, bs, false);
    forall k: Key
      ensures Alike(end, k, Slot(Reserve(gated, now, bs, admitted), k), Slot(Reserve(ungated, now, bs, admitted), k))
      ensures Alike(end, k, Slot(gated, k), Slot(Reserve(ungated, now, bs, false), k))
    {
      assert Alike(end, k, Slot(gated, k), Slot(ungated, k));
      if i :| 0 <= i < |bs| && bs[i].key == k {
        ReservedAlike(end, Slot(gated, k), Slot(ungated, k), now, bs[i], admitted);
      }
    }
  }

  lemma FitAlike(end: int -> int, gated: Db, ungated: Db, now: int, bs: seq<Bucket>)
    requires AllAlike(end, gated, ungated)
    requires forall i | 0 <= i < |bs| :: BucketInCalendar(end, now, bs[i])
    ensures AllFit(gated, now, bs) <==> AllFit(ungated, now, bs)
  {
    forall i | 0 <= i < |bs| ensures Fits(Slot(gated, bs[i].key), now, bs[i]) <==> Fits(Slot(ungated, bs[i].key), now, bs[i]) {
      ReservedAlike(end, Slot(gated, bs[i].key), Slot(ungated, bs[i].key), now, bs[i], false);
    }
  }

  lemma BucketsInCalendar(end: int -> int, r: Request)
    requires InCalendar(end, Call(r))
    ensures forall i | 0 <= i < |Buckets(r)| :: BucketInCalendar(end, r.now, Buckets(r)[i])
  {
  }

  lemma AlikeIsNonNegative(end: int -> int, gated: Db, ungated: Db)
    requires AllAlike(end, gated, ungated)
    ensures NonNegative(gated) && NonNegative(ungated)
  {
    forall k | k in gated ensures 0 <= gated[k].value {
      assert Alike(end, k, Slot(gated, k), Slot(ungated, k));
    }
    forall k | k in ungated ensures 0 <= ungated[k].value {
      assert Alike(end, k, Slot(gated, k), Slot(ungated, k));
    }
  }

  lemma CallAlike(end: int -> int, gated: Db, ungated: Db, r: Request)
    requires AllAlike(end, gated, ungated) && InCalendar(end, Call(r))
    ensures Admits(gated, r) <==> UngatedAdmits(ungated, r)
    ensures AllAlike(end, Step(gated, Call(r)), UngatedStep(ungated, Call(r)))
  {
    BucketsInCalendar(end, r);
    AlikeIsNonNegative(end, gated, ungated);
    ReserveAlike(end, gated, ungated, r.now, Buckets(r), AllFit(ungated, r.now, Buckets(r)));
    if Oversize(r) {
      OversizeIsAlwaysDenied(ungated, r);
    }
  }

  lemma ReconcileAlike(end: int -> int, gated: Db, ungated: Db, a: Action)
    requires AllAlike(end, gated, ungated) && InCalendar(end, a) && a.Reconcile?
    ensures AllAlike(end, Step(gated, a), UngatedStep(ungated, a))
  {
    forall k: Key ensures Alike(end, k, Slot(Step(gated, a), k), Slot(UngatedStep(ungated, a), k)) {
      assert Alike(end, k, Slot(gated, k), Slot(ungated, k));
    }
  }

  lemma {:induction false} AlikeVerdicts(end: int -> int, gated: Db, ungated: Db, run: seq<Action>)
    requires AllAlike(end, gated, ungated) && Calendar(end, run) && KeepsTtl(run)
    ensures Verdicts(gated, run, true) == Verdicts(ungated, run, false)
    decreases |run|
  {
    if run != [] {
      var a := run[0];
      assert a in run;
      if a.Call? {
        CallAlike(end, gated, ungated, a.r);
      } else {
        ReconcileAlike(end, gated, ungated, a);
      }
      AlikeVerdicts(end, Step(gated, a), UngatedStep(ungated, a), run[1..]);
    }
  }

  ghost predicate MinutesHaveTtl(db: Db) { forall k | k in db && !k.TokensMonth? :: db[k].deadline.Some? }

  ghost predicate NeutralInCalendar(end: int -> int, db: Db, now: int) {
    forall run | Ordered(now, run) && KeepsTtl(run) && Calendar(end, run) ::
      Verdicts(db, run, true) == Verdicts(db, run, false)
  }

  /**
    When month counters are only used inside their month, a lost month deadline
    cannot be told apart, because its repair lapses when the month is over anyway:
    the gate changes no verdict if and only if every minute counter has a deadline.
   */
  lemma GateIsNeutralInCalendarIff(end: int -> int, db: Db, now: int)
    requires NonNegative(db)
    ensures NeutralInCalendar(end, db, now) <==> MinutesHaveTtl(db)
  {
    if MinutesHaveTtl(db) {
      assert AllAlike(end, db, db);
      forall run | Ordered(now, run) && KeepsTtl(run) && Calendar(end, run)
        ensures Verdicts(db, run, true) == Verdicts(db, run, false)
      {
        AlikeVerdicts(end, db, db, run);
      }
    } else {
      var key :| key in db && !key.TokensMonth? && db[key].deadline.None?;
      ProbeIsOrdered(db, key, now);
      GateCanDelayRepair(db, key, now);
      assert Calendar(end, RunOf(ProbeFor(db, key, now)));
    }
  }
}
