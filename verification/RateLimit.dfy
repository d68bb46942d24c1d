/**
  The per-user LLM rate limiter: three Redis counters compared and charged by one
  script, a single-request size gate in front of it, and a later top-up of the
  month counter.

  Months are numbered, and the clock supplies the current month with the
  milliseconds left in it.
 */
module RateLimit {
  import opened Common
  import opened Redis

  const MINUTE: int := 60_000
  const NIL_UUID: string := "00000000-0000-0000-0000-000000000000"
  const SPEND_EPSILON: real := 0.000000001

  /** A count of -1 means unlimited; any count <= 0 disables that gate. */
  datatype Limits = Limits(requestsPerMin: int, tokensPerMin: int, tokensPerMonth: int, dailySpendUsd: real)

  predicate IsUnlimited(l: Limits) {
    l.requestsPerMin == -1 && l.tokensPerMin == -1 && l.tokensPerMonth == -1 && l.dailySpendUsd == -1.0
  }

  /** A pre-flight estimate: the conversation, and the prefix every call of a turn re-sends. */
  datatype Charge = Charge(variable: nat, stable: nat) {
    function Total(): nat { variable + stable }
  }

  /** `ratelimit:<user>:...`; a user id is a UUID of fixed length, so printed keys are distinct. */
  datatype Key = RequestsMin(user: string) | TokensMin(user: string) | TokensMonth(user: string, month: int)

  type Db = map<Key, Entry<int>>

  /** One row of the reservation: compare `count + increment + reserved` with `limit`. */
  datatype Bucket = Bucket(key: Key, increment: nat, reserved: nat, limit: int, ttl: int)

  datatype Request = Request(now: int, user: string, limits: Limits, charge: Charge, month: int, monthTtl: int)

  // ---- One counter --------------------------------------------------------

  type Counter = Option<Entry<int>>

  predicate Fits(c: Counter, now: int, b: Bucket) {
    Count(c, now) + b.increment + b.reserved <= b.limit
  }

  predicate TtlLess(c: Counter, now: int) { Seen(c, now).Some? && c.value.deadline.None? }

  /** PEXPIRE issued only when PTTL reports a counter without a deadline. */
  function Repaired(c: Counter, now: int, ttl: int): Counter {
    if TtlLess(c, now) then Some(Entry(c.value.value, Some(now + ttl))) else c
  }

  /** INCRBY, then PEXPIRE only when the counter has no deadline. */
  function Charged(c: Counter, now: int, increment: int, ttl: int): Counter {
    match Seen(c, now)
    case None => Some(Entry(increment, Some(now + ttl)))
    case Some(e) => Some(Entry(e.value + increment, if e.deadline.None? then Some(now + ttl) else e.deadline))
  }

  /** What the whole script leaves in one counter. */
  function Reserved(c: Counter, now: int, b: Bucket, admitted: bool): Counter {
    var r := Repaired(c, now, b.ttl);
    if admitted then Charged(r, now, b.increment, b.ttl) else r
  }

  // ---- The reservation script --------------------------------------------

  function WithCounter(db: Db, k: Key, c: Counter): Db {
    if c.Some? then db[k := c.value] else db
  }

  ghost predicate DistinctKeys(bs: seq<Bucket>) {
    forall i, j | 0 <= i < j < |bs| :: bs[i].key != bs[j].key
  }

  ghost predicate AllFit(db: Db, now: int, bs: seq<Bucket>) {
    forall i | 0 <= i < |bs| :: Fits(Slot(db, bs[i].key), now, bs[i])
  }

  /** The store after a script run over `bs`: every bucket's counter is settled, nothing else moves. */
  ghost predicate Settled(before: Db, after: Db, now: int, bs: seq<Bucket>, admitted: bool) {
    && (forall i | 0 <= i < |bs| :: Slot(after, bs[i].key) == Reserved(Slot(before, bs[i].key), now, bs[i], admitted))
    && (forall k | forall i | 0 <= i < |bs| :: bs[i].key != k :: Slot(after, k) == Slot(before, k))
  }

  /** The buckets a request is charged against; disabled gates are skipped. */
  function Buckets(r: Request): (bs: seq<Bucket>)
    ensures DistinctKeys(bs)
    ensures forall b | b in bs :: b.limit > 0 && b.key.user == r.user
  {
    Keep(Bucket(RequestsMin(r.user), 1, 0, r.limits.requestsPerMin, MINUTE)) +
    Keep(Bucket(TokensMin(r.user), r.charge.variable, r.charge.stable, r.limits.tokensPerMin, MINUTE)) +
    Keep(Bucket(TokensMonth(r.user, r.month), r.charge.Total(), 0, r.limits.tokensPerMonth, r.monthTtl))
  }

  function Keep(b: Bucket): seq<Bucket> { if b.limit <= 0 then [] else [b] }

  /** A cap the request breaks on its own, whatever the counters hold. */
  predicate ExceedsAlone(total: int, caps: seq<int>) {
    exists i | 0 <= i < |caps| :: caps[i] > 0 && total > caps[i]
  }

  predicate Oversize(r: Request) {
    ExceedsAlone(r.charge.Total(), [r.limits.tokensPerMin, r.limits.tokensPerMonth])
  }

  // ---- The rows, spelled out ----------------------------------------------

  /** Every enabled counter has room for the request: one call, and the whole estimate in both token counters. */
  ghost predicate HasRoom(db: Db, r: Request) {
    && (r.limits.requestsPerMin > 0 ==> Count(Slot(db, RequestsMin(r.user)), r.now) + 1 <= r.limits.requestsPerMin)
    && (r.limits.tokensPerMin > 0 ==>
          Count(Slot(db, TokensMin(r.user)), r.now) + r.charge.variable + r.charge.stable <= r.limits.tokensPerMin)
    && (r.limits.tokensPerMonth > 0 ==>
          Count(Slot(db, TokensMonth(r.user, r.month)), r.now) + r.charge.variable + r.charge.stable <= r.limits.tokensPerMonth)
  }

  /** Counters that did not exist start with the request's own amount and lifetime. */
  ghost predicate StartsCounters(before: Db, after: Db, r: Request) {
    && (r.limits.requestsPerMin > 0 && RequestsMin(r.user) !in before ==>
          Slot(after, RequestsMin(r.user)) == Some(Entry(1, Some(r.now + 60_000))))
    && (r.limits.tokensPerMin > 0 && TokensMin(r.user) !in before ==>
          Slot(after, TokensMin(r.user)) == Some(Entry(r.charge.variable, Some(r.now + 60_000))))
    && (r.limits.tokensPerMonth > 0 && TokensMonth(r.user, r.month) !in before ==>
          Slot(after, TokensMonth(r.user, r.month)) ==
          Some(Entry(r.charge.variable + r.charge.stable, Some(r.now + r.monthTtl))))
  }

  lemma RowsOf(r: Request)
    ensures r.limits.requestsPerMin > 0 <==> exists b :: b in Buckets(r) && b.key.RequestsMin?
    ensures r.limits.tokensPerMin > 0 <==> exists b :: b in Buckets(r) && b.key.TokensMin?
    ensures r.limits.tokensPerMonth > 0 <==> exists b :: b in Buckets(r) && b.key.TokensMonth?
    ensures forall b | b in Buckets(r) ::
              match b.key
              case RequestsMin(_) => b == Bucket(RequestsMin(r.user), 1, 0, r.limits.requestsPerMin, 60_000)
              case TokensMin(_) =>
                b == Bucket(TokensMin(r.user), r.charge.variable, r.charge.stable, r.limits.tokensPerMin, 60_000)
              case TokensMonth(_, _) =>
                b == Bucket(TokensMonth(r.user, r.month), r.charge.variable + r.charge.stable, 0, r.limits.tokensPerMonth, r.monthTtl)
  {
    var requests := Bucket(RequestsMin(r.user), 1, 0, r.limits.requestsPerMin, MINUTE);
    var tokens := Bucket(TokensMin(r.user), r.charge.variable, r.charge.stable, r.limits.tokensPerMin, MINUTE);
    var month := Bucket(TokensMonth(r.user, r.month), r.charge.Total(), 0, r.limits.tokensPerMonth, r.monthTtl);
    assert forall b :: b in Buckets(r) <==> b in Keep(requests) || b in Keep(tokens) || b in Keep(month);
    assert requests in Keep(requests) <==> requests.limit > 0;
    assert tokens in Keep(tokens) <==> tokens.limit > 0;
    assert month in Keep(month) <==> month.limit > 0;
  }

  lemma FitMeansRoom(db: Db, r: Request)
    ensures AllFit(db, r.now, Buckets(r)) <==> HasRoom(db, r)
  {
    RowsOf(r);
    var bs := Buckets(r);
    assert AllFit(db, r.now, bs) <==> forall b | b in bs :: Fits(Slot(db, b.key), r.now, b);
  }

  lemma ChargeStartsOne(before: Db, after: Db, now: int, bs: seq<Bucket>, b: Bucket)
    requires Settled(before, after, now, bs, true) && b in bs
    ensures b.key !in before ==> Slot(after, b.key) == Some(Entry(b.increment, Some(now + b.ttl)))
  {
    var i :| 0 <= i < |bs| && bs[i] == b;
    assert Slot(after, bs[i].key) == Reserved(Slot(before, bs[i].key), now, bs[i], true);
  }

  lemma ChargeStartsCounters(before: Db, after: Db, r: Request)
    requires Settled(before, after, r.now, Buckets(r), true)
    ensures StartsCounters(before, after, r)
  {
    RowsOf(r);
    forall b | b in Buckets(r) ensures b.key !in before ==> Slot(after, b.key) == Some(Entry(b.increment, Some(r.now + b.ttl))) {
      ChargeStartsOne(before, after, r.now, Buckets(r), b);
    }
  }

  // ---- The limiter --------------------------------------------------------

  datatype SpendReading = NoSpender | ReadFailed | Spend(usd: real)

  datatype Verdict = Allowed | Denied | UnknownTier | SpendExceeded | Unavailable

  /** One call of the limiter; `spend` is what the daily-spend reader answers. */
  datatype Query = Query(user: string, business: string, tier: string, charge: Charge, spend: SpendReading,
                         now: int, month: int, monthTtl: int)

  /** The daily-spend gate stops the call. */
  predicate SpendStops(l: Limits, q: Query) {
    && q.business != NIL_UUID && l.dailySpendUsd > 0.0
    && (q.spend == ReadFailed || (q.spend.Spend? && q.spend.usd + SPEND_EPSILON >= l.dailySpendUsd))
  }

  /** The gates in order, and which of them may touch a counter. */
  ghost predicate Checked(tiers: map<string, Limits>, before: Db, after: Db, q: Query, v: Verdict) {
    if q.tier !in tiers then
      after == before && v == if q.user == NIL_UUID then Allowed else UnknownTier
    else
      var l := tiers[q.tier];
      var r := Request(q.now, q.user, l, q.charge, q.month, q.monthTtl);
      if IsUnlimited(l) then after == before && v == Allowed
      else if SpendStops(l, q) then after == before && v == if q.spend == ReadFailed then Unavailable else SpendExceeded
      else if q.user == NIL_UUID then after == before && v == Allowed
      else if Oversize(r) then after == before && v == Denied
      else Settled(before, after, q.now, Buckets(r), v == Allowed) && v == if AllFit(before, q.now, Buckets(r)) then Allowed else Denied
  }

  method ExceedsAloneLoop(total: int, caps: seq<int>) returns (r: bool)
    ensures r <==> ExceedsAlone(total, caps)
  {
    for i := 0 to |caps|
      invariant forall j | 0 <= j < i :: !(caps[j] > 0 && total > caps[j])
    {
      if caps[i] > 0 && total > caps[i] {
        return true;
      }
    }
    return false;
  }

  class RateLimiter {
    var db: Db
    const tiers: map<string, Limits>

    constructor (tiers: map<string, Limits>)
      ensures this.tiers == tiers && db == map[]
    {
      this.tiers := tiers;
      db := map[];
    }

    /**
      The Lua script: a first pass reads, repairs and compares every bucket, a
      second charges them all.  All-or-nothing: either every counter grows by its
      own increment, or none grows.
     */
    method ReserveScript(bs: seq<Bucket>, now: int) returns (admitted: bool, healed: seq<bool>)
      requires DistinctKeys(bs)
      modifies this
      ensures admitted <==> AllFit(old(db), now, bs)
      ensures Settled(old(db), db, now, bs, admitted)
      ensures |healed| == |bs|
      ensures forall i | 0 <= i < |bs| :: healed[i] <==> TtlLess(Slot(old(db), bs[i].key), now)
    {
      admitted, healed := CompareAll(bs, now);
      if admitted {
        ChargeAll(bs, now, old(db));
      }
    }

    method CompareAll(bs: seq<Bucket>, now: int) returns (admitted: bool, healed: seq<bool>)
      requires DistinctKeys(bs)
      modifies this
      ensures admitted <==> AllFit(old(db), now, bs)
      ensures Settled(old(db), db, now, bs, false)
      ensures |healed| == |bs|
      ensures forall i | 0 <= i < |bs| :: healed[i] <==> TtlLess(Slot(old(db), bs[i].key), now)
    {
      admitted := true;
      healed := [];
      for i := 0 to |bs|
        invariant forall j | 0 <= j < i :: Slot(db, bs[j].key) == Reserved(Slot(old(db), bs[j].key), now, bs[j], false)
        invariant forall k | forall j | 0 <= j < i :: bs[j].key != k :: Slot(db, k) == Slot(old(db), k)
        invariant admitted <==> forall j | 0 <= j < i :: Fits(Slot(old(db), bs[j].key), now, bs[j])
        invariant |healed| == i
        invariant forall j | 0 <= j < i :: healed[j] <==> TtlLess(Slot(old(db), bs[j].key), now)
      {
        var key := bs[i].key;
        assert Slot(db, key) == Slot(old(db), key);
        var count := Count(Slot(db, key), now);
        var missing := TtlLess(Slot(db, key), now);
        if missing {
          db := db[key := Entry(db[key].value, Some(now + bs[i].ttl))];
        }
        healed := healed + [missing];
        if count + bs[i].increment + bs[i].reserved > bs[i].limit {
          admitted := false;
        }
      }
    }

    method ChargeAll(bs: seq<Bucket>, now: int, ghost before: Db)
      requires DistinctKeys(bs)
      requires Settled(before, db, now, bs, false)
      modifies this
      ensures Settled(before, db, now, bs, true)
    {
      for i := 0 to |bs|
        invariant forall j | 0 <= j < i :: Slot(db, bs[j].key) == Reserved(Slot(before, bs[j].key), now, bs[j], true)
        invariant forall j | i <= j < |bs| :: Slot(db, bs[j].key) == Reserved(Slot(before, bs[j].key), now, bs[j], false)
        invariant forall k | forall j | 0 <= j < |bs| :: bs[j].key != k :: Slot(db, k) == Slot(before, k)
      {
        var key := bs[i].key;
        var seen := Lookup(db, now, key);
        var count := if seen.None? then 0 else seen.value.value;
        var deadline := if seen.None? then None else seen.value.deadline;
        db := db[key := Entry(count + bs[i].increment, deadline)];
        if db[key].deadline.None? {
          db := db[key := Entry(db[key].value, Some(now + bs[i].ttl))];
        }
      }
    }

    /** Builds the bucket rows, skipping disabled gates, and runs the script. */
    method ReserveCharge(r: Request) returns (admitted: bool)
      modifies this
      ensures admitted <==> AllFit(old(db), r.now, Buckets(r))
      ensures Settled(old(db), db, r.now, Buckets(r), admitted)
      ensures admitted <==> HasRoom(old(db), r)
      ensures admitted ==> StartsCounters(old(db), db, r)
    {
      FitMeansRoom(db, r);
      var rows := [
        Bucket(RequestsMin(r.user), 1, 0, r.limits.requestsPerMin, MINUTE),
        Bucket(TokensMin(r.user), r.charge.variable, r.charge.stable, r.limits.tokensPerMin, MINUTE),
        Bucket(TokensMonth(r.user, r.month), r.charge.Total(), 0, r.limits.tokensPerMonth, r.monthTtl)];
      var bs: seq<Bucket> := [];
      for i := 0 to |rows|
        invariant bs == (if i > 0 then Keep(rows[0]) else []) + (if i > 1 then Keep(rows[1]) else [])
                        + (if i > 2 then Keep(rows[2]) else [])
      {
        if rows[i].limit <= 0 {
          continue;
        }
        bs := bs + [rows[i]];
      }
      if |bs| == 0 {
        RowsOf(r);
        return true;
      }
      var healed;
      admitted, healed := ReserveScript(bs, r.now);
      if admitted {
        ChargeStartsCounters(old(db), db, r);
      }
    }

    /** A limited tier with a daily cap, for a real business. */
    predicate SpendGated(q: Query) {
      && q.tier in tiers && tiers[q.tier] != Limits(-1, -1, -1, -1.0)
      && tiers[q.tier].dailySpendUsd > 0.0 && q.business != "00000000-0000-0000-0000-000000000000"
    }

    /** A limited tier and a real user: the per-user counters decide, if the spend gate lets the call through. */
    predicate Counted(q: Query) {
      q.tier in tiers && tiers[q.tier] != Limits(-1, -1, -1, -1.0) && q.user != "00000000-0000-0000-0000-000000000000"
    }

    method CheckLimit(q: Query) returns (v: Verdict)
      modifies this
      ensures Checked(tiers, old(db), db, q, v)
      ensures q.tier !in tiers ==> db == old(db) && v == if q.user == NIL_UUID then Allowed else UnknownTier
      ensures q.tier in tiers && tiers[q.tier] == Limits(-1, -1, -1, -1.0) ==> db == old(db) && v == Allowed
      // the daily-spend gate of a limited tier: at the cap or above it stops, clearly below it does not
      ensures SpendGated(q) && q.spend.Spend? && q.spend.usd >= tiers[q.tier].dailySpendUsd ==> v == SpendExceeded && db == old(db)
      ensures SpendGated(q) && q.spend.Spend? && q.spend.usd + 0.000000001 < tiers[q.tier].dailySpendUsd ==>
                v != SpendExceeded && v != Unavailable
      ensures SpendGated(q) && q.spend.ReadFailed? ==> v == Unavailable && db == old(db)
      ensures !SpendGated(q) || q.spend.NoSpender? ==> v != SpendExceeded && v != Unavailable
      // a call that reaches the counters is allowed exactly when neither cap nor counter stands against it
      ensures v == Denied || (v == Allowed && Counted(q)) ==>
                var l, total := tiers[q.tier], q.charge.variable + q.charge.stable;
                v == Allowed <==>
                  && (l.tokensPerMin > 0 ==> total <= l.tokensPerMin)
                  && (l.tokensPerMonth > 0 ==> total <= l.tokensPerMonth)
                  && HasRoom(old(db), Request(q.now, q.user, l, q.charge, q.month, q.monthTtl))
      ensures v == Allowed && Counted(q) ==>
                StartsCounters(old(db), db, Request(q.now, q.user, tiers[q.tier], q.charge, q.month, q.monthTtl))
      ensures v == Denied ==> Counted(q)
      ensures !Counted(q) ==> db == old(db)
    {
      if q.tier !in tiers {
        return if q.user == NIL_UUID then Allowed else UnknownTier;
      }
      var limits := tiers[q.tier];
      if IsUnlimited(limits) {
        return Allowed;
      }
      if !q.spend.NoSpender? && limits.dailySpendUsd > 0.0 && q.business != NIL_UUID {
        if q.spend.ReadFailed? {
          return Unavailable;
        }
        if q.spend.usd + SPEND_EPSILON >= limits.dailySpendUsd {
          return SpendExceeded;
        }
      }
      if q.user != NIL_UUID {
        var caps := [limits.tokensPerMin, limits.tokensPerMonth];
        var tooBig := ExceedsAloneLoop(q.charge.Total(), caps);
        assert caps[0] == limits.tokensPerMin && caps[1] == limits.tokensPerMonth;
        if tooBig {
          return Denied;
        }
      }
      if q.user == NIL_UUID {
        return Allowed;
      }
      var ok := ReserveCharge(Request(q.now, q.user, limits, q.charge, q.month, q.monthTtl));
      return if ok then Allowed else Denied;
    }

    /** Adds the reconcile delta to the month counter; the minute counters are left alone. */
    method RecordTokens(user: string, tier: string, delta: int, now: int, month: int, monthTtl: int)
      modifies this
      ensures var k := TokensMonth(user, month);
              db == if delta > 0 && user != NIL_UUID && tier in tiers && tiers[tier].tokensPerMonth > 0
                    then WithCounter(old(db), k, Charged(Slot(old(db), k), now, delta, monthTtl))
                    else old(db)
    {
      if delta <= 0 || user == NIL_UUID {
        return;
      }
      if tier !in tiers || IsUnlimited(tiers[tier]) || tiers[tier].tokensPerMonth <= 0 {
        return;
      }
      var key := TokensMonth(user, month);
      var seen := Lookup(db, now, key);
      var count := if seen.None? then 0 else seen.value.value;
      var deadline := if seen.None? then None else seen.value.deadline;
      db := db[key := Entry(count + delta, deadline)];
      if db[key].deadline.None? {
        db := db[key := Entry(db[key].value, Some(now + monthTtl))];
      }
    }
  }
}
