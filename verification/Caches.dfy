/**
  The agents' token cache: fetched tokens reused for a short time, dropped one by
  one or for a whole (business, platform) pair.
 */
module TokenCache {
  import opened Common
  import opened Keys

  const EXPIRY_MARGIN: int := 300_000

  datatype Token = Token(accessToken: string, expiresAt: Option<int>)

  datatype Cached = Cached(token: Token, fetchedAt: int)

  type Cache = map<string, Cached>

  function CacheKey(business: string, platform: string, external: string): string {
    business + ":" + (platform + ":" + external)
  }

  /** The wildcard form of Invalidate matches keys on this text. */
  function PairPrefix(business: string, platform: string): string { business + ":" + (platform + ":") }

  predicate ExpiringSoon(t: Token, now: int) { t.expiresAt.Some? && t.expiresAt.value - now < EXPIRY_MARGIN }

  predicate Usable(c: Cached, now: int, ttl: int) { now - c.fetchedAt < ttl && !ExpiringSoon(c.token, now) }

  function Hit(cache: Cache, key: string, now: int, ttl: int): Option<Token> {
    if key in cache && Usable(cache[key], now, ttl) then Some(cache[key].token) else None
  }

  // ---- Which entries the wildcard form removes ---------------------------

  lemma PrefixText(b: string, p: string, e: string)
    ensures PairPrefix(b, p) + e == CacheKey(b, p, e)
  {
    assert b + ":" + (p + ":") + e == b + ":" + (p + ":" + e);
  }

  /** With colon-free ids the prefix matches exactly the pair's own entries. */
  lemma PrefixMatchesPairIff(b: string, p: string, b': string, p': string, e': string)
    requires ColonFree(b) && ColonFree(p) && ColonFree(b') && ColonFree(p')
    ensures PairPrefix(b, p) <= CacheKey(b', p', e') <==> b == b' && p == p'
  {
    var k := CacheKey(b', p', e');
    if PairPrefix(b, p) <= k {
      var e := k[|PairPrefix(b, p)|..];
      PrefixText(b, p, e);
      assert k == PairPrefix(b, p) + e;
      FirstFieldUnique(b, p + ":" + e, b', p' + ":" + e');
      FirstFieldUnique(p, e, p', e');
    }
    if b == b' && p == p' {
      PrefixText(b, p, e');
    }
  }

  /**
    Exactly which entries are swept when platform ids may contain colons: the
    pair's own, those of platforms that continue it past a colon, and those whose
    external id completes a shorter platform to it.
   */
  lemma SweptIff(b: string, p: string, b': string, p': string, e': string)
    requires ColonFree(b) && ColonFree(b')
    ensures PairPrefix(b, p) <= CacheKey(b', p', e') <==>
            b == b' && (p == p' || p + ":" <= p' || (p' + ":" <= p && p[|p'| + 1..] + ":" <= e'))
  {
    var k := CacheKey(b', p', e');
    if PairPrefix(b, p) <= k {
      var e := k[|PairPrefix(b, p)|..];
      PrefixText(b, p, e);
      assert k == PairPrefix(b, p) + e;
      FirstFieldUnique(b, p + ":" + e, b', p' + ":" + e');
      SameTextIff(p, e, p', e');
    }
    if b == b' && p == p' {
      PrefixText(b, p, e');
    } else if b == b' && p + ":" <= p' {
      var q := p'[|p| + 1..];
      PrefixText(b, p, q + ":" + e');
      assert p + ":" + (q + ":" + e') == p' + ":" + e';
    } else if b == b' && p' + ":" <= p && p[|p'| + 1..] + ":" <= e' {
      var mid := p[|p'| + 1..];
      var e := e'[|mid| + 1..];
      PrefixText(b, p, e);
      assert p' + ":" + e' == p + ":" + e;
    }
  }

  lemma CacheKeyInjective(b: string, p: string, e: string, b': string, p': string, e': string)
    requires ColonFree(b) && ColonFree(p) && ColonFree(b') && ColonFree(p')
    requires CacheKey(b, p, e) == CacheKey(b', p', e')
    ensures b == b' && p == p' && e == e'
  {
    FirstFieldUnique(b, p + ":" + e, b', p' + ":" + e');
    FirstFieldUnique(p, e, p', e');
  }

  // ---- Writes -------------------------------------------------------------

  /** What happens under the lock: a fetched token is stored, or a revoke drops entries. */
  datatype Write =
    | Put(business: string, platform: string, external: string, token: Token, at: int)
    | Drop(business: string, platform: string, external: string)

  function Apply(cache: Cache, w: Write): Cache {
    match w
    case Put(b, p, x, token, at) => cache[CacheKey(b, p, x) := Cached(token, at)]
    case Drop(b, p, x) =>
      if x != "" then cache - {CacheKey(b, p, x)}
      else map k | k in cache && !(PairPrefix(b, p) <= k) :: cache[k]
  }

  function ApplyAll(cache: Cache, ws: seq<Write>): Cache
    decreases |ws|
  {
    if ws == [] then cache else ApplyAll(Apply(cache, ws[0]), ws[1..])
  }

  datatype FetchResult = FetchedToken(token: Token) | FetchFailed(err: string)

  class Client {
    var cache: Cache
    const ttl: int

    /** Tokens are reused for thirty seconds. */
    constructor ()
      ensures ttl == 30_000 && cache == map[]
    {
      ttl := 30_000;
      cache := map[];
    }

    /**
      Cache check at `t0`; on a miss `response` is what the API answers without the
      lock held, stored at `t1`.  `between` is what other goroutines write meanwhile.
     */
    method GetToken(b: string, p: string, x: string, response: FetchResult, between: seq<Write>, t0: int, t1: int)
      returns (r: FetchResult)
      requires t0 <= t1
      modifies this
      ensures var hit := Hit(old(cache), CacheKey(b, p, x), t0, ttl);
              var meanwhile := ApplyAll(old(cache), between);
              && (hit.Some? ==> r == FetchedToken(hit.value) && cache == old(cache))
              && (hit.None? ==> r == response)
              && (hit.None? && response.FetchFailed? ==> cache == meanwhile)
              && (hit.None? && response.FetchedToken? ==> cache == Apply(meanwhile, Put(b, p, x, response.token, t1)))
      // a cached token is reused while younger than the TTL and, if it expires, for more than five more minutes
      ensures var key := b + ":" + (p + ":" + x);
              if key in old(cache) && t0 - old(cache)[key].fetchedAt < ttl
                 && (old(cache)[key].token.expiresAt.Some? ==> old(cache)[key].token.expiresAt.value - t0 >= 300_000)
              then r == FetchedToken(old(cache)[key].token)
              else r == response && (response.FetchedToken? ==> key in cache && cache[key] == Cached(response.token, t1))
    {
      var key := CacheKey(b, p, x);
      if key in cache {
        if t0 - cache[key].fetchedAt < ttl && !ExpiringSoon(cache[key].token, t0) {
          return FetchedToken(cache[key].token);
        }
      }
      cache := ApplyAll(cache, between);
      if response.FetchedToken? {
        cache := cache[key := Cached(response.token, t1)];
      }
      r := response;
    }

    method Invalidate(b: string, p: string, x: string)
      modifies this
      ensures cache == Apply(old(cache), Drop(b, p, x))
      ensures x != "" ==> cache == old(cache) - {b + ":" + (p + ":" + x)}
      ensures x == "" ==>
                && (forall k :: k in cache <==> k in old(cache) && !(b + ":" + (p + ":") <= k))
                && forall k | k in cache :: cache[k] == old(cache)[k]
    {
      if x != "" {
        cache := cache - {CacheKey(b, p, x)};
        return;
      }
      var prefix := PairPrefix(b, p);
      cache := SweepPrefix(cache, prefix);
    }
  }

  /** Ranges over the map, deleting the keys with the prefix. */
  method SweepPrefix(before: Cache, prefix: string) returns (after: Cache)
    ensures after == map k | k in before && !(prefix <= k) :: before[k]
  {
    var todo := before.Keys;
    after := before;
    while todo != {}
      invariant todo <= after.Keys <= before.Keys
      invariant forall k | k in before :: k in after <==> k in todo || !(prefix <= k)
      invariant forall k | k in after :: after[k] == before[k]
      decreases |todo|
    {
      var k :| k in todo;
      if prefix <= k {
        after := after - {k};
      }
      todo := todo - {k};
    }
  }

  // ---- Runs ---------------------------------------------------------------

  /**
    `Answered`: the API answers a fetch; nothing is cached yet.  `Stored`: the
    fetch answered at that position of the log reaches the cache.  Any number of
    fetches may be between the two.
   */
  datatype Event =
    | Answered(business: string, platform: string, external: string, token: Token)
    | Stored(answer: nat, at: int)
    | Invalidated(business: string, platform: string, external: string)

  /** A store follows its own answer, once. */
  ghost predicate Causal(log: seq<Event>) {
    forall i | 0 <= i < |log| && log[i].Stored? ::
      && log[i].answer < i && log[log[i].answer].Answered?
      && forall j | 0 <= j < i && log[j].Stored? :: log[j].answer != log[i].answer
  }

  ghost predicate PlainIds(log: seq<Event>) {
    forall i | 0 <= i < |log| && !log[i].Stored? :: ColonFree(log[i].business) && ColonFree(log[i].platform)
  }

  /** The write an event makes, if any. */
  function WriteOf(log: seq<Event>, i: nat): Option<Write>
    requires i < |log|
  {
    match log[i]
    case Answered(_, _, _, _) => None
    case Invalidated(b, p, x) => Some(Drop(b, p, x))
    case Stored(a, at) =>
      if a < i && log[a].Answered? then Some(Put(log[a].business, log[a].platform, log[a].external, log[a].token, at))
      else None
  }

  function CacheAfter(log: seq<Event>, n: nat): Cache
    requires n <= |log|
  {
    if n == 0 then map[]
    else
      var w := WriteOf(log, n - 1);
      if w.None? then CacheAfter(log, n - 1) else Apply(CacheAfter(log, n - 1), w.value)
  }

  /** The write decides what the entry (b, p, x) holds from then on. */
  predicate Concerns(w: Write, b: string, p: string, x: string) {
    w.business == b && w.platform == p && (w.external == x || (w.Drop? && w.external == ""))
  }

  predicate Touches(log: seq<Event>, i: nat, b: string, p: string, x: string)
    requires i < |log|
  {
    WriteOf(log, i).Some? && Concerns(WriteOf(log, i).value, b, p, x)
  }

  function Slot(cache: Cache, k: string): Option<Cached> { if k in cache then Some(cache[k]) else None }

  function Written(w: Write): Option<Cached> { if w.Put? then Some(Cached(w.token, w.at)) else None }

  lemma ApplySlot(cache: Cache, w: Write, b: string, p: string, x: string)
    requires ColonFree(w.business) && ColonFree(w.platform) && ColonFree(b) && ColonFree(p)
    ensures Slot(Apply(cache, w), CacheKey(b, p, x))
            == if Concerns(w, b, p, x) then Written(w) else Slot(cache, CacheKey(b, p, x))
  {
    PrefixMatchesPairIff(w.business, w.platform, b, p, x);
    if CacheKey(b, p, x) == CacheKey(w.business, w.platform, w.external) {
      CacheKeyInjective(b, p, x, w.business, w.platform, w.external);
    }
  }

  /** What the first `n` events say about an entry: its last store, unless an invalidation followed. */
  function Latest(log: seq<Event>, n: nat, b: string, p: string, x: string): Option<Cached>
    requires n <= |log|
  {
    if n == 0 then None
    else if Touches(log, n - 1, b, p, x) then Written(WriteOf(log, n - 1).value)
    else Latest(log, n - 1, b, p, x)
  }

  lemma {:induction false} CacheIsLatest(log: seq<Event>, n: nat, b: string, p: string, x: string)
    requires n <= |log| && PlainIds(log) && ColonFree(b) && ColonFree(p)
    ensures Slot(CacheAfter(log, n), CacheKey(b, p, x)) == Latest(log, n, b, p, x)
    decreases n
  {
    if n > 0 {
      CacheIsLatest(log, n - 1, b, p, x);
      var w := WriteOf(log, n - 1);
      if w.Some? {
        ApplySlot(CacheAfter(log, n - 1), w.value, b, p, x);
      }
    }
  }

  /** The store at position `i` is what the first `n` events last say about the entry. */
  ghost predicate Current(log: seq<Event>, n: nat, i: nat, b: string, p: string, x: string)
    requires n <= |log|
  {
    && i < n && log[i].Stored? && Touches(log, i, b, p, x)
    && forall j | i < j < n :: !Touches(log, j, b, p, x)
  }

  lemma {:induction false} LatestIff(log: seq<Event>, n: nat, b: string, p: string, x: string, c: Cached)
    requires n <= |log|
    ensures Latest(log, n, b, p, x) == Some(c) <==>
            exists i: nat :: Current(log, n, i, b, p, x) && Written(WriteOf(log, i).value) == Some(c)
    decreases n
  {
    if n > 0 {
      LatestIff(log, n - 1, b, p, x, c);
      if Touches(log, n - 1, b, p, x) {
        if log[n - 1].Stored? {
          assert Current(log, n, n - 1, b, p, x);
        }
        assert forall i: nat | Current(log, n, i, b, p, x) :: i == n - 1;
      } else {
        assert forall i: nat :: Current(log, n, i, b, p, x) <==> Current(log, n - 1, i, b, p, x);
      }
    }
  }

  /** The store at position `i` serves a lookup at `now` with the token answered at position `a`. */
  ghost predicate Serves(log: seq<Event>, i: nat, a: nat, b: string, p: string, x: string, now: int, ttl: int) {
    && Current(log, |log|, i, b, p, x) && log[i].answer == a
    && now - log[i].at < ttl && !ExpiringSoon(log[a].token, now)
  }

  /**
    Over every run, a lookup hits with a token exactly when a fetch answered with
    that token for the same business, platform and integration was stored less than
    one TTL ago, the token is not about to expire, and no later store or
    invalidation of the entry followed the store.
   */
  lemma HitIff(log: seq<Event>, b: string, p: string, x: string, now: int, ttl: int, t: Token)
    requires PlainIds(log) && ColonFree(b) && ColonFree(p)
    ensures Hit(CacheAfter(log, |log|), CacheKey(b, p, x), now, ttl) == Some(t) <==>
            exists i: nat, a: nat :: Serves(log, i, a, b, p, x, now, ttl) && log[a].token == t
  {
    CacheIsLatest(log, |log|, b, p, x);
    var cache, key := CacheAfter(log, |log|), CacheKey(b, p, x);
    if Hit(cache, key, now, ttl) == Some(t) {
      LatestIff(log, |log|, b, p, x, cache[key]);
      var i: nat :| Current(log, |log|, i, b, p, x) && Written(WriteOf(log, i).value) == Some(cache[key]);
      assert Serves(log, i, log[i].answer, b, p, x, now, ttl);
    }
    if i: nat, a: nat :| Serves(log, i, a, b, p, x, now, ttl) && log[a].token == t {
      LatestIff(log, |log|, b, p, x, Cached(t, log[i].at));
    }
  }

  // ---- A revoke during a fetch -------------------------------------------

  /** The fetch answered at `a` is for the entry and has not reached the cache. */
  ghost predicate InFlight(log: seq<Event>, a: nat, b: string, p: string, x: string) {
    && a < |log| && log[a].Answered? && log[a].business == b && log[a].platform == p && log[a].external == x
    && forall i | 0 <= i < |log| && log[i].Stored? :: log[i].answer != a
  }

  /** The events `after` happen from `t0` on and before a lookup at `now`. */
  ghost predicate Timed(after: seq<Event>, t0: int, now: int) {
    t0 <= now && forall i | 0 <= i < |after| && after[i].Stored? :: t0 <= after[i].at <= now
  }

  /** In some continuation a lookup hits the token answered at `a`, before the revoke that ends `log`. */
  ghost predicate ServedLater(log: seq<Event>, a: nat, b: string, p: string, x: string, t0: int, ttl: int) {
    exists after, i: nat, now :: Continues(log, after, t0, now) && Serves(log + after, i, a, b, p, x, now, ttl)
  }

  ghost predicate Continues(log: seq<Event>, after: seq<Event>, t0: int, now: int) {
    Causal(log + after) && PlainIds(log + after) && Timed(after, t0, now)
  }

  /**
    When a revoke of the entry has just landed, a token answered before it can
    still be served afterwards if and only if its fetch was in flight at that
    moment and it is usable at all.  In particular, with no matching fetch in
    flight every later hit was answered after the revoke.
   */
  lemma ServedAfterRevokeIff(log: seq<Event>, a: nat, b: string, p: string, x: string, t0: int, ttl: int)
    requires Causal(log) && PlainIds(log) && ColonFree(b) && ColonFree(p) && log != [] && a < |log|
    requires log[|log| - 1].Invalidated? && Touches(log, |log| - 1, b, p, x)
    ensures ServedLater(log, a, b, p, x, t0, ttl) <==>
            InFlight(log, a, b, p, x) && ttl > 0 && !ExpiringSoon(log[a].token, t0)
  {
    if after, i: nat, now :| Continues(log, after, t0, now) && Serves(log + after, i, a, b, p, x, now, ttl) {
      ServedWasInFlight(log, after, i, a, b, p, x, now, t0, ttl);
    }
    if InFlight(log, a, b, p, x) && ttl > 0 && !ExpiringSoon(log[a].token, t0) {
      StoreBringsBack(log, a, b, p, x, t0, ttl);
    }
  }

  lemma ServedWasInFlight(log: seq<Event>, after: seq<Event>, i: nat, a: nat, b: string, p: string, x: string,
                          now: int, t0: int, ttl: int)
    requires Continues(log, after, t0, now) && Serves(log + after, i, a, b, p, x, now, ttl)
    requires log != [] && a < |log| && log[|log| - 1].Invalidated? && Touches(log, |log| - 1, b, p, x)
    ensures InFlight(log, a, b, p, x) && ttl > 0 && !ExpiringSoon(log[a].token, t0)
  {
    var all := log + after;
    assert all[|log| - 1] == log[|log| - 1] && Touches(all, |log| - 1, b, p, x);
    assert i >= |log|;
    assert after[i - |log|] == all[i];
    forall j | 0 <= j < |log| && log[j].Stored? ensures log[j].answer != a {
      assert all[j] == log[j];
    }
  }

  lemma StoreBringsBack(log: seq<Event>, a: nat, b: string, p: string, x: string, t0: int, ttl: int)
    requires Causal(log) && PlainIds(log) && InFlight(log, a, b, p, x) && ttl > 0 && !ExpiringSoon(log[a].token, t0)
    ensures ServedLater(log, a, b, p, x, t0, ttl)
  {
    var after := [Stored(a, t0)];
    var all := log + after;
    assert all[..|log|] == log && all[|log|] == Stored(a, t0) && all[a] == log[a];
    assert Causal(all) by {
      forall i | 0 <= i < |all| && all[i].Stored?
        ensures all[i].answer < i && all[all[i].answer].Answered?
        ensures forall j | 0 <= j < i && all[j].Stored? :: all[j].answer != all[i].answer
      {
        if i < |log| {
          assert log[i].Stored?;
        }
      }
    }
    assert Touches(all, |log|, b, p, x);
    assert Continues(log, after, t0, t0) && Serves(all, |log|, a, b, p, x, t0, ttl);
  }

  /**
    The failing run: the API answers, the revoke lands on an empty cache, and the
    fetch then stores the revoked token, which is served for a full TTL.
   */
  lemma RevokedTokenComesBack(b: string, p: string, x: string, t: Token, at: int, now: int, ttl: int)
    requires ColonFree(b) && ColonFree(p) && at <= now < at + ttl && !ExpiringSoon(t, now)
    ensures var log := [Answered(b, p, x, t), Invalidated(b, p, ""), Stored(0, at)];
            Causal(log) && Hit(CacheAfter(log, 3), CacheKey(b, p, x), now, ttl) == Some(t)
  {
    var log := [Answered(b, p, x, t), Invalidated(b, p, ""), Stored(0, at)];
    assert Touches(log, 2, b, p, x);
    assert Serves(log, 2, 0, b, p, x, now, ttl);
    HitIff(log, b, p, x, now, ttl, t);
  }
}

/** The daily-spend cache: one reading per business, for one UTC day. */
module SpendCache {
  import opened Common

  const DEFAULT_TTL: int := 10_000

  datatype Reading = Reading(day: int, spend: real, fetchedAt: int)

  type Cache = map<string, Reading>

  predicate Usable(r: Reading, day: int, now: int, ttl: int) { r.day == day && now - r.fetchedAt < ttl }

  datatype Event = Read(business: string, day: int, spend: real, at: int)

  function Apply(cache: Cache, e: Event): Cache { cache[e.business := Reading(e.day, e.spend, e.at)] }

  function CacheAfter(log: seq<Event>): Cache {
    if log == [] then map[] else Apply(CacheAfter(log[..|log| - 1]), log[|log| - 1])
  }

  class CachedDailySpender {
    var cache: Cache
    const ttl: int

    constructor (ttl: int)
      ensures this.ttl == (if ttl <= 0 then 10_000 else ttl) && cache == map[]
    {
      this.ttl := if ttl <= 0 then DEFAULT_TTL else ttl;
      cache := map[];
    }

    /**
      Locked check at `t0`, unlocked inner read, locked store at `t1`.  `between`
      is what concurrent callers stored meanwhile.  A failed read stores nothing.
     */
    method GetDailySpend(business: string, day: int, inner: Option<real>, between: seq<Event>, t0: int, t1: int)
      returns (r: Option<real>)
      requires t0 <= t1
      modifies this
      ensures var hit := business in old(cache) && Usable(old(cache)[business], day, t0, ttl);
              && (hit ==> r == Some(old(cache)[business].spend) && cache == old(cache))
              && (!hit ==> r == inner)
              && (!hit && inner.None? ==> cache == ApplyAll(old(cache), between))
              && (!hit && inner.Some? ==> cache == Apply(ApplyAll(old(cache), between), Read(business, day, inner.value, t1)))
      // a reading is reused for its own day while younger than the TTL; a fresh one replaces it
      ensures if business in old(cache) && old(cache)[business].day == day && t0 - old(cache)[business].fetchedAt < ttl
              then r == Some(old(cache)[business].spend)
              else r == inner && (inner.Some? ==> business in cache && cache[business] == Reading(day, inner.value, t1))
    {
      if business in cache && cache[business].day == day && t0 - cache[business].fetchedAt < ttl {
        return Some(cache[business].spend);
      }
      cache := ApplyAll(cache, between);
      if inner.None? {
        return None;
      }
      cache := cache[business := Reading(day, inner.value, t1)];
      r := inner;
    }
  }

  function ApplyAll(cache: Cache, es: seq<Event>): Cache
    decreases |es|
  {
    if es == [] then cache else ApplyAll(Apply(cache, es[0]), es[1..])
  }

  /** The last reading stored for the business. */
  ghost predicate Current(log: seq<Event>, i: nat, business: string) {
    i < |log| && log[i].business == business && forall j | i < j < |log| :: log[j].business != business
  }

  lemma {:induction false} CacheHoldsLastReading(log: seq<Event>, business: string, r: Reading)
    ensures business in CacheAfter(log) && CacheAfter(log)[business] == r <==>
            exists i: nat :: Current(log, i, business) && r == Reading(log[i].day, log[i].spend, log[i].at)
    decreases |log|
  {
    if log != [] {
      var n := |log| - 1;
      var front := log[..n];
      CacheHoldsLastReading(front, business, r);
      if log[n].business == business {
        assert Current(log, n, business);
        assert forall i: nat | Current(log, i, business) :: i == n;
      } else {
        assert forall i: nat :: Current(log, i, business) <==> Current(front, i, business);
      }
    }
  }

  /**
    Over every run, a hit for a business and a day is exactly the last reading
    stored for that business, when it is for that day and younger than the TTL.
   */
  lemma SpendHitIff(log: seq<Event>, business: string, day: int, now: int, ttl: int, spend: real)
    ensures var cache := CacheAfter(log);
            business in cache && Usable(cache[business], day, now, ttl) && cache[business].spend == spend <==>
            exists i: nat :: Current(log, i, business) && log[i].day == day && log[i].spend == spend && now - log[i].at < ttl
  {
    var cache := CacheAfter(log);
    if business in cache {
      CacheHoldsLastReading(log, business, cache[business]);
    }
    if i: nat :| Current(log, i, business) && log[i].day == day && log[i].spend == spend && now - log[i].at < ttl {
      CacheHoldsLastReading(log, business, Reading(log[i].day, log[i].spend, log[i].at));
    }
  }
}
