/**
  The per-user cap on concurrent SSE streams: an increment in a MULTI block, a
  separate rollback when the increment overshoots, and an idempotent release.

  `Counter` and `Slot` are the sequential code; `SseRuns` interleaves the same
  counter functions for one user.
 */
module SseCounter {
  import opened Common
  import opened Redis

  const MIN_KEY_TTL: int := 900_000

  type Cell = Option<Entry<int>>

  /** INCR and EXPIRE in one transaction. */
  function AfterIncr(c: Cell, now: int, ttl: int): Cell { Some(Entry(Count(c, now) + 1, Some(now + ttl))) }

  /** The rollback is a plain DECR: it keeps the deadline, and recreates an absent key without one. */
  function AfterDecr(c: Cell, now: int): Cell {
    match Seen(c, now)
    case None => Some(Entry(-1, None))
    case Some(e) => Some(Entry(e.value - 1, e.deadline))
  }

  /** The release script: no effect on an absent key, clamped at zero, deadline re-stamped. */
  function AfterRelease(c: Cell, now: int, ttl: int): Cell {
    match Seen(c, now)
    case None => c
    case Some(e) => Some(Entry(Max(0, e.value - 1), Some(now + ttl)))
  }

  /** A command of another stream on any user's key. */
  datatype Command =
    | Incr(user: string, at: int, ttl: int)
    | Decr(user: string, at: int)
    | SafeDecr(user: string, at: int, ttl: int)

  function Issue(cells: map<string, Entry<int>>, c: Command): map<string, Entry<int>> {
    var cell := Redis.Slot(cells, c.user);
    var after := match c
      case Incr(_, at, ttl) => AfterIncr(cell, at, ttl)
      case Decr(_, at) => AfterDecr(cell, at)
      case SafeDecr(_, at, ttl) => AfterRelease(cell, at, ttl);
    if after.Some? then cells[c.user := after.value] else cells
  }

  function IssueAll(cells: map<string, Entry<int>>, cs: seq<Command>): map<string, Entry<int>>
    decreases |cs|
  {
    if cs == [] then cells else IssueAll(Issue(cells, cs[0]), cs[1..])
  }

  class Store {
    var cells: map<string, Entry<int>>

    constructor ()
      ensures cells == map[]
    {
      cells := map[];
    }
  }

  /** The release function returned with a granted slot. */
  class Slot {
    const store: Store
    const user: string
    const ttl: int
    var done: bool

    constructor (store: Store, user: string, ttl: int)
      ensures this.store == store && this.user == user && this.ttl == ttl && !done
    {
      this.store, this.user, this.ttl, done := store, user, ttl, false;
    }

    /** Only the first call decrements. */
    method Release(now: int)
      modifies this, store
      ensures done
      ensures old(done) ==> store.cells == old(store.cells)
      ensures !old(done) ==>
                && Redis.Slot(store.cells, user) == AfterRelease(Redis.Slot(old(store.cells), user), now, ttl)
                && forall u | u != user :: Redis.Slot(store.cells, u) == Redis.Slot(old(store.cells), u)
      // a live counter goes down by one but never below zero and is kept for another TTL; a lapsed one is left alone
      ensures !old(done) ==>
                store.cells == if user in old(store.cells) && (old(store.cells)[user].deadline.Some? ==> now < old(store.cells)[user].deadline.value)
                               then old(store.cells)[user := Entry(if old(store.cells)[user].value > 0 then old(store.cells)[user].value - 1 else 0, Some(now + ttl))]
                               else old(store.cells)
    {
      var wasDone := done;
      done := true;
      if wasDone {
        return;
      }
      var seen := Lookup(store.cells, now, user);
      if seen.None? {
        return;
      }
      var n := seen.value.value - 1;
      if n < 0 {
        n := 0;
      }
      store.cells := store.cells[user := Entry(n, Some(now + ttl))];
    }
  }

  class Counter {
    const store: Store
    const max: int
    const ttl: int

    /** The key lives at least MIN_KEY_TTL, however short the caller's own budget. */
    constructor (store: Store, max: int, keyTtl: int)
      ensures this.store == store && this.max == max && ttl == if keyTtl < 900_000 then 900_000 else keyTtl
    {
      this.store, this.max := store, max;
      ttl := if keyTtl < MIN_KEY_TTL then MIN_KEY_TTL else keyTtl;
    }

    /**
      Increment at `t0`; when over the cap, roll back at `t1`.  `between` is what
      other streams do before the rollback.  A null slot is a rejection.
     */
    method Acquire(user: string, between: seq<Command>, t0: int, t1: int) returns (granted: bool, slot: Slot?)
      requires t0 <= t1
      modifies store
      ensures max <= 0 ==> granted && slot == null && store.cells == old(store.cells)
      ensures max > 0 ==>
                var before := Redis.Slot(old(store.cells), user);
                var bumped := Issue(old(store.cells), Incr(user, t0, ttl));
                && (granted <==> Count(before, t0) < max)
                && (granted <==> slot != null)
                && (granted ==> fresh(slot) && slot.store == store && slot.user == user && slot.ttl == ttl && !slot.done)
                && store.cells == if granted then bumped else Issue(IssueAll(bumped, between), Decr(user, t1))
      // a grant counts itself and restarts the TTL; an undisturbed rejection leaves the count as it was,
      // or minus one without a deadline when the key has lapsed meanwhile
      ensures max > 0 ==>
                var n := Count(Redis.Slot(old(store.cells), user), t0);
                && (granted ==> store.cells == old(store.cells)[user := Entry(n + 1, Some(t0 + ttl))])
                && (!granted && between == [] ==>
                      store.cells == old(store.cells)[user := if t1 < t0 + ttl then Entry(n, Some(t0 + ttl)) else Entry(-1, None)])
    {
      if max <= 0 {
        return true, null;
      }
      var seen := Lookup(store.cells, t0, user);
      var count := (if seen.None? then 0 else seen.value.value) + 1;
      store.cells := store.cells[user := Entry(count, Some(t0 + ttl))];
      if count > max {
        store.cells := IssueAll(store.cells, between);
        seen := Lookup(store.cells, t1, user);
        store.cells := store.cells[user := if seen.None? then Entry(-1, None) else Entry(seen.value.value - 1, seen.value.deadline)];
        return false, null;
      }
      slot := new Slot(store, user, ttl);
      granted := true;
    }
  }
}

module SseRuns {
  import opened Common
  import opened Redis
  import opened SseCounter

  /** One user's key, the streams holding a slot and the rejected acquires not rolled back yet. */
  datatype State = State(now: int, cell: Cell, granted: set<nat>, rejected: set<nat>, since: map<nat, int>)

  datatype Action = Acquire(id: nat) | Rollback(id: nat) | Release(id: nat) | Tick(to: int)

  datatype Config = Config(max: int, ttl: int)

  /** A repeated release finds its flag set and does nothing. */
  function Step(k: Config, s: State, a: Action): State {
    match a
    case Acquire(i) =>
      if i in s.since then s
      else
        var s' := s.(cell := AfterIncr(s.cell, s.now, k.ttl), since := s.since[i := s.now]);
        if Count(s.cell, s.now) + 1 > k.max then s'.(rejected := s.rejected + {i}) else s'.(granted := s.granted + {i})
    case Rollback(i) =>
      if i in s.rejected then s.(cell := AfterDecr(s.cell, s.now), rejected := s.rejected - {i}) else s
    case Release(i) =>
      if i in s.granted
      then s.(cell := AfterRelease(s.cell, s.now, k.ttl), granted := s.granted - {i})
      else s
    case Tick(to) =>
      if s.now <= to then s.(now := to) else s
  }

  function Exec(k: Config, s: State, run: seq<Action>): State
    decreases |run|
  {
    if run == [] then s else Exec(k, Step(k, s, run[0]), run[1..])
  }

  /** Every stream and every pending rollback is younger than the key's TTL. */
  ghost predicate Timely(k: Config, s: State) {
    forall i | Holds(s, i) :: i in s.since && s.now < s.since[i] + k.ttl
  }

  ghost predicate TimelyRun(k: Config, s: State, run: seq<Action>)
    decreases |run|
  {
    Timely(k, s) && (run != [] ==> TimelyRun(k, Step(k, s, run[0]), run[1..]))
  }

  function Holders(s: State): nat { |s.granted| + |s.rejected| }

  predicate Holds(s: State, i: nat) { i in s.granted || i in s.rejected }

  /** The counter counts exactly the holders, and outlives each of them. */
  ghost predicate Exact(k: Config, s: State) {
    && s.granted !! s.rejected
    && Count(s.cell, s.now) == Holders(s)
    && (s.cell.Some? ==> s.cell.value.deadline.Some?)
    && (forall i | i in s.since :: s.since[i] <= s.now)
    && (forall i | Holds(s, i) :: i in s.since && s.cell.Some? && s.since[i] + k.ttl <= s.cell.value.deadline.value)
    && |s.granted| <= k.max
  }

  lemma AcquireKeepsExact(k: Config, s: State, i: nat)
    requires Exact(k, s) && Timely(k, s) && k.max > 0 && k.ttl > 0
    ensures Exact(k, Step(k, s, Acquire(i)))
  {
    if i !in s.since {
      assert !Holds(s, i);
      assert |s.granted + {i}| == |s.granted| + 1 && |s.rejected + {i}| == |s.rejected| + 1;
    }
  }

  lemma ReturnKeepsExact(k: Config, s: State, a: Action)
    requires Exact(k, s) && Timely(k, s) && k.ttl > 0 && (a.Rollback? || a.Release?)
    ensures Exact(k, Step(k, s, a))
  {
    if a.Rollback? && a.id in s.rejected {
      assert |s.rejected - {a.id}| == |s.rejected| - 1;
    }
    if a.Release? && a.id in s.granted {
      assert |s.granted - {a.id}| == |s.granted| - 1;
    }
  }

  /**
    Letting time pass keeps the count exact if and only if the key is still alive
    or nobody holds anything.
   */
  lemma TickKeepsExactIff(k: Config, s: State, to: int)
    requires Exact(k, s) && s.now <= to
    ensures Exact(k, Step(k, s, Tick(to))) <==> Seen(s.cell, to).Some? || Holders(s) == 0
  {
    if s.granted != {} || s.rejected != {} {
      assert |s.granted| > 0 || |s.rejected| > 0;
    }
  }

  /**
    In every interleaving where streams and rollbacks finish within the key TTL,
    the counter equals granted plus rejected-but-not-rolled-back, so no more than
    `max` streams are ever open, and an acquire is granted exactly when the
    holders are below the cap.
   */
  lemma {:induction false} CountStaysExact(k: Config, s: State, run: seq<Action>)
    requires k.max > 0 && k.ttl > 0
    requires Exact(k, s) && TimelyRun(k, s, run)
    ensures var s' := Exec(k, s, run);
            && Exact(k, s')
            && |s'.granted| <= k.max
            && forall i | i !in s'.since && !Holds(s', i) :: i in Step(k, s', Acquire(i)).granted <==> Holders(s') < k.max
    decreases |run|
  {
    if run != [] {
      var s' := Step(k, s, run[0]);
      match run[0] {
        case Acquire(i) => AcquireKeepsExact(k, s, i);
        case Rollback(_) => ReturnKeepsExact(k, s, run[0]);
        case Release(_) => ReturnKeepsExact(k, s, run[0]);
        case Tick(to) =>
          if s.now <= to {
            assert Timely(k, s');
            if s.granted != {} || s.rejected != {} {
              var i :| i in s.granted || i in s.rejected;
              assert Holds(s', i) && Holds(s, i);
            }
            TickKeepsExactIff(k, s, to);
          }
      }
      CountStaysExact(k, s', run[1..]);
    }
  }

  // ---- When the cap breaks ------------------------------------------------

  /** A rollback leaves the count exact if and only if the key is still alive when it arrives. */
  lemma RollbackKeepsExactIff(k: Config, s: State, i: nat, to: int)
    requires Exact(k, s) && i in s.rejected && s.now <= to
    ensures Exact(k, Step(k, Step(k, s, Tick(to)), Rollback(i))) <==> Seen(s.cell, to).Some?
  {
    assert |s.rejected - {i}| == |s.rejected| - 1;
  }

  /** With every slot taken, one more stream is let in if and only if the key has lapsed. */
  lemma CapExceededIff(k: Config, s: State, n: nat, to: int)
    requires k.max > 0 && Exact(k, s) && |s.granted| == k.max && n !in s.since && s.now <= to
    ensures |Step(k, Step(k, s, Tick(to)), Acquire(n)).granted| > k.max <==> Seen(s.cell, to).None?
  {
    assert !Holds(s, n);
    assert |s.granted + {n}| == |s.granted| + 1;
  }

  function Acquires(ids: seq<nat>): seq<Action>
    ensures |Acquires(ids)| == |ids|
  {
    if ids == [] then [] else [Acquire(ids[0])] + Acquires(ids[1..])
  }

  /** New streams, each named once. */
  ghost predicate Fresh(s: State, ids: seq<nat>) {
    && (forall i | 0 <= i < |ids| :: ids[i] !in s.since && !Holds(s, ids[i]))
    && (forall i, j | 0 <= i < j < |ids| :: ids[i] != ids[j])
  }

  function Members(ids: seq<nat>): set<nat> { set i | i in ids }

  /** How many of `n` acquires in a row are granted. */
  function Room(k: Config, s: State, n: nat): nat { Max(0, Min(k.max - Count(s.cell, s.now), n)) }

  lemma ExecCons(k: Config, s: State, a: Action, rest: seq<Action>)
    ensures Exec(k, s, [a] + rest) == Exec(k, Step(k, s, a), rest)
  {
    assert ([a] + rest)[1..] == rest;
  }

  /** A burst of new streams: exactly the first ones that fit are granted. */
  lemma {:induction false} BurstGrants(k: Config, s: State, ids: seq<nat>)
    requires k.ttl > 0 && Fresh(s, ids)
    ensures Exec(k, s, Acquires(ids)).granted == s.granted + Members(ids[..Room(k, s, |ids|)])
    decreases |ids|
  {
    if ids != [] {
      var s' := Step(k, s, Acquire(ids[0]));
      ExecCons(k, s, Acquire(ids[0]), Acquires(ids[1..]));
      BurstGrants(k, s', ids[1..]);
      var n := Room(k, s, |ids|);
      if n > 0 {
        assert ids[..n] == [ids[0]] + ids[1..][..n - 1];
      }
    }
  }

  lemma WholeBurst(held: set<nat>, ids: seq<nat>, n: nat)
    requires n <= |ids| && (forall i | 0 <= i < |ids| :: ids[i] !in held)
    requires forall i, j | 0 <= i < j < |ids| :: ids[i] != ids[j]
    ensures Members(ids) <= held + Members(ids[..n]) <==> n == |ids|
  {
    if n < |ids| {
      assert ids[n] in Members(ids);
      assert ids[n] !in Members(ids[..n]);
    } else {
      assert ids[..n] == ids;
    }
  }

  lemma LaterBurst(k: Config, s: State, later: int, ids: seq<nat>)
    requires k.ttl > 0 && Fresh(s, ids) && s.now <= later
    ensures Members(ids) <= Exec(k, s, [Tick(later)] + Acquires(ids)).granted <==> Count(s.cell, later) + |ids| <= k.max || ids == []
  {
    var s' := Step(k, s, Tick(later));
    ExecCons(k, s, Tick(later), Acquires(ids));
    BurstGrants(k, s', ids);
    WholeBurst(s.granted, ids, Room(k, s', |ids|));
  }

  /**
    The weakened cap, for every cap: after a rollback at `to`, a burst of max + 1
    new streams is granted at any later time, however late, if and only if the key
    had lapsed when the rollback arrived.
   */
  lemma LateRollbackWeakensCap(k: Config, s: State, i: nat, to: int, later: int, ids: seq<nat>)
    requires k.max > 0 && k.ttl > 0 && Exact(k, s) && i in s.rejected && s.now <= to <= later
    requires Fresh(s, ids) && |ids| == k.max + 1
    ensures var rolled := Step(k, Step(k, s, Tick(to)), Rollback(i));
            && (Seen(s.cell, to).None? ==> rolled.cell == Some(Entry(-1, None)))
            && (Members(ids) <= Exec(k, rolled, [Tick(later)] + Acquires(ids)).granted <==> Seen(s.cell, to).None?)
  {
    var rolled := Step(k, Step(k, s, Tick(to)), Rollback(i));
    LaterBurst(k, rolled, later, ids);
    assert |s.rejected| > 0;
  }

  /** The state above is reached under every cap: one stream more than fits is rejected with an exact count. */
  lemma RejectionIsReachable(k: Config, t: int, ids: seq<nat>)
    requires k.max > 0 && k.ttl > 0 && |ids| == k.max + 1
    requires Fresh(State(t, None, {}, {}, map[]), ids)
    ensures var s := Exec(k, State(t, None, {}, {}, map[]), Acquires(ids));
            Exact(k, s) && s.rejected == {ids[k.max]} && s.granted == Members(ids[..k.max])
  {
    var s0 := State(t, None, {}, {}, map[]);
    BurstGrants(k, s0, ids);
    BurstRejects(k, s0, ids);
    AcquiresKeepExact(k, s0, ids);
    assert ids[k.max..] == [ids[k.max]];
  }

  lemma MembersCons(x: nat, ids: seq<nat>)
    ensures Members([x] + ids) == {x} + Members(ids)
  {
  }

  lemma {:induction false} BurstRejects(k: Config, s: State, ids: seq<nat>)
    requires k.ttl > 0 && Fresh(s, ids)
    ensures Exec(k, s, Acquires(ids)).rejected == s.rejected + Members(ids[Room(k, s, |ids|)..])
    decreases |ids|
  {
    if ids != [] {
      var s' := Step(k, s, Acquire(ids[0]));
      ExecCons(k, s, Acquire(ids[0]), Acquires(ids[1..]));
      BurstRejects(k, s', ids[1..]);
      var n, rest := Room(k, s, |ids|), ids[1..];
      if n > 0 {
        assert Room(k, s', |rest|) == n - 1;
        assert ids[n..] == rest[n - 1..];
      } else {
        assert Room(k, s', |rest|) == 0;
        assert ids[0..] == [ids[0]] + rest && rest[0..] == rest;
        MembersCons(ids[0], rest);
      }
    }
  }

  lemma {:induction false} AcquiresKeepExact(k: Config, s: State, ids: seq<nat>)
    requires k.max > 0 && k.ttl > 0 && Exact(k, s) && Timely(k, s) && Fresh(s, ids)
    ensures Exact(k, Exec(k, s, Acquires(ids)))
    decreases |ids|
  {
    if ids != [] {
      AcquireKeepsExact(k, s, ids[0]);
      ExecCons(k, s, Acquire(ids[0]), Acquires(ids[1..]));
      AcquiresKeepExact(k, Step(k, s, Acquire(ids[0])), ids[1..]);
    }
  }
}
