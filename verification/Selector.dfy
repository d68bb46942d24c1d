/**
  The selector's bounded table of records: every Record touches one key, and
  inserting into a full table drops the least recently touched one.
 */
module Selector {
  import opened Health

  /** A record with the time it was last touched. */
  datatype Row = Row(metrics: Metrics, touched: int)

  type Table = map<string, Row>

  predicate IsOldest(t: Table, k: string) {
    k in t && forall k' | k' in t :: t[k].touched <= t[k'].touched
  }

  /** What one Record call may do to the table; ties between oldest rows are broken arbitrarily. */
  ghost predicate Recorded(before: Table, after: Table, bound: int, key: string, o: Outcome, now: int) {
    if key in before then after == before[key := Row(Fold(before[key].metrics, o), now)]
    else if |before| >= bound && before != map[] then
      exists victim :: IsOldest(before, victim) && after == (before - {victim})[key := Row(Fold(FRESH, o), now)]
    else after == before[key := Row(Fold(FRESH, o), now)]
  }

  class ModelProviderEntry {
    const model: string
    const provider: string
    var status: Status
    var avgLatencyMs: int

    constructor (model: string, provider: string)
      ensures this.model == model && this.provider == provider && status == Healthy && avgLatencyMs == 0
    {
      this.model, this.provider := model, provider;
      status, avgLatencyMs := Healthy, 0;
    }
  }

  /** Linear scan for the least recently touched row. */
  method FindOldest(t: Table) returns (oldest: string)
    requires t != map[]
    ensures IsOldest(t, oldest)
  {
    var todo := t.Keys;
    oldest :| oldest in todo;
    todo := todo - {oldest};
    while todo != {}
      invariant todo <= t.Keys && oldest in t
      invariant forall k | k in t && k !in todo :: t[oldest].touched <= t[k].touched
      decreases |todo|
    {
      var k :| k in todo;
      if t[k].touched < t[oldest].touched {
        oldest := k;
      }
      todo := todo - {k};
    }
  }

  class DefaultSelector {
    var table: Table
    const maxEntries: int

    constructor (maxEntries: int)
      ensures this.maxEntries == maxEntries && table == map[]
    {
      this.maxEntries := maxEntries;
      table := map[];
    }

    /** Folds an outcome into the key's row and mirrors status and latency onto the entry. */
    method Record(entry: ModelProviderEntry?, o: Outcome, now: int)
      modifies this, entry
      ensures entry == null ==> table == old(table)
      ensures entry != null ==>
                var key := entry.provider + ":" + entry.model;
                && Recorded(old(table), table, maxEntries, key, o, now)
                && entry.status == table[key].metrics.status
                && entry.avgLatencyMs == if Sampled(o) then table[key].metrics.avgLatencyMs else old(entry.avgLatencyMs)
    {
      if entry == null {
        return;
      }
      var key := entry.provider + ":" + entry.model;
      if key !in table {
        if |table| >= maxEntries && table != map[] {
          var victim := FindOldest(table);
          table := table - {victim};
        }
        table := table[key := Row(FRESH, now)];
      }
      var m := Update(table[key].metrics, o);
      table := table[key := Row(m, now)];
      entry.status := m.status;
      if o.success && o.latency > 0 {
        entry.avgLatencyMs := m.avgLatencyMs;
      }
    }
  }
}

module SelectorRuns {
  import opened Common
  import opened Health
  import opened Selector

  datatype Event = Event(key: string, outcome: Outcome, now: int)

  /** A table is reached by a sequence of Record calls, for some choice of victims. */
  ghost predicate Reaches(bound: int, events: seq<Event>, t: Table)
    decreases |events|
  {
    if events == [] then t == map[]
    else
      var e := events[|events| - 1];
      exists t0 :: Reaches(bound, events[..|events| - 1], t0) && Recorded(t0, t, bound, e.key, e.outcome, e.now)
  }

  ghost predicate Increasing(events: seq<Event>) {
    forall i, j | 0 <= i < j < |events| :: events[i].now < events[j].now
  }

  // ---- The reference: recency order --------------------------------------

  function IndexOf(r: seq<string>, k: string): (i: nat)
    requires k in r
    ensures i < |r| && r[i] == k
  {
    if r[0] == k then 0 else 1 + IndexOf(r[1..], k)
  }

  function Without(r: seq<string>, i: nat): seq<string>
    requires i < |r|
  {
    r[..i] + r[i + 1..]
  }

  function MoveToFront(r: seq<string>, k: string): seq<string> {
    if k in r then [k] + Without(r, IndexOf(r, k)) else [k] + r
  }

  /** The distinct keys ever touched, most recent first. */
  function Recency(events: seq<Event>): seq<string> {
    if events == [] then [] else MoveToFront(Recency(events[..|events| - 1]), events[|events| - 1].key)
  }

  /** The keys an LRU of this size retains. */
  function Kept(bound: int, events: seq<Event>): seq<string> {
    var r := Recency(events);
    r[..Min(Max(1, bound), |r|)]
  }

  /** The outcomes of a key since it last entered the retained set. */
  function Episode(bound: int, events: seq<Event>, k: string): seq<Outcome> {
    if events == [] then []
    else
      var front, e := events[..|events| - 1], events[|events| - 1];
      if e.key != k then Episode(bound, front, k)
      else if k in Kept(bound, front) then Episode(bound, front, k) + [e.outcome]
      else [e.outcome]
  }

  // ---- Recency lists ------------------------------------------------------

  ghost predicate Distinct(r: seq<string>) { forall i, j | 0 <= i < j < |r| :: r[i] != r[j] }

  lemma MoveKeepsDistinct(r: seq<string>, k: string)
    requires Distinct(r)
    ensures Distinct(MoveToFront(r, k))
  {
  }

  lemma {:induction false} RecencyDistinct(events: seq<Event>)
    ensures Distinct(Recency(events))
    decreases |events|
  {
    if events != [] {
      RecencyDistinct(events[..|events| - 1]);
      MoveKeepsDistinct(Recency(events[..|events| - 1]), events[|events| - 1].key);
    }
  }

  lemma IndexIsUnique(r: seq<string>, k: string, i: nat)
    requires Distinct(r) && i < |r| && r[i] == k
    ensures k in r && IndexOf(r, k) == i
  {
    var j := IndexOf(r, k);
    assert r[j] == r[i];
  }

  /** A hit within the first `n` keys reorders them and leaves the rest alone. */
  lemma PrefixAfterHit(r: seq<string>, k: string, n: nat)
    requires Distinct(r) && n <= |r| && k in r[..n]
    ensures k in r && |MoveToFront(r, k)| == |r|
    ensures MoveToFront(r, k)[..n] == MoveToFront(r[..n], k)
  {
    var i := IndexOf(r[..n], k);
    assert r[i] == k;
    IndexIsUnique(r, k, i);
    assert (r[..i] + r[i + 1..])[..n - 1] == r[..n][..i] + r[..n][i + 1..];
    assert ([k] + Without(r, i))[..n] == [k] + Without(r, i)[..n - 1];
  }

  /** A miss pushes the last of the first `n` keys out. */
  lemma PrefixAfterMiss(r: seq<string>, k: string, n: nat)
    requires 1 <= n <= |r| && forall j | 0 <= j < n :: r[j] != k
    ensures n <= |MoveToFront(r, k)| && MoveToFront(r, k)[..n] == [k] + r[..n][..n - 1]
  {
    if k in r {
      assert IndexOf(r, k) >= n;
    }
  }

  // ---- The invariant ------------------------------------------------------

  /** The table holds exactly `kept`, in order of recency, none touched after `now`. */
  ghost predicate InOrder(t: Table, kept: seq<string>, now: int) {
    && Distinct(kept)
    && (forall k | k in t :: k in kept && t[k].touched <= now)
    && (forall i | 0 <= i < |kept| :: kept[i] in t)
    && (forall i, j | 0 <= i < j < |kept| :: t[kept[j]].touched < t[kept[i]].touched)
  }

  lemma {:induction false} SizeOfDistinct(r: seq<string>, ks: set<string>)
    requires Distinct(r) && (forall k | k in ks :: k in r) && (forall i | 0 <= i < |r| :: r[i] in ks)
    ensures |ks| == |r|
    decreases |r|
  {
    if r == [] {
      assert ks == {};
    } else {
      var last := r[|r| - 1];
      SizeOfDistinct(r[..|r| - 1], ks - {last});
      assert ks == (ks - {last}) + {last};
    }
  }

  lemma OldestIsLast(t: Table, kept: seq<string>, now: int, victim: string)
    requires InOrder(t, kept, now) && kept != [] && IsOldest(t, victim)
    ensures victim == kept[|kept| - 1]
  {
    var i :| 0 <= i < |kept| && kept[i] == victim;
    assert kept[|kept| - 1] in t;
  }

  /** The retained list after a Record. */
  function NextKept(kept: seq<string>, k: string, b: nat): seq<string>
    requires b >= 1
  {
    if k in kept then MoveToFront(kept, k)
    else if |kept| >= b then [k] + kept[..b - 1]
    else [k] + kept
  }

  /** Where the keys of the shorter list come from. */
  function Origin(i: nat, j: nat): nat { if j < i then j else j + 1 }

  lemma WithoutAt(kept: seq<string>, i: nat, j: nat)
    requires i < |kept| && j < |kept| - 1
    ensures |Without(kept, i)| == |kept| - 1 && Without(kept, i)[j] == kept[Origin(i, j)]
  {
  }

  lemma WithoutKeepsDistinct(kept: seq<string>, i: nat)
    requires Distinct(kept) && i < |kept|
    ensures Distinct(Without(kept, i))
    ensures forall j | 0 <= j < |kept| - 1 :: Without(kept, i)[j] != kept[i]
  {
    var next := Without(kept, i);
    forall a, b | 0 <= a < b < |next| ensures next[a] != next[b] {
      WithoutAt(kept, i, a);
      WithoutAt(kept, i, b);
    }
    forall j | 0 <= j < |next| ensures next[j] != kept[i] {
      WithoutAt(kept, i, j);
    }
  }

  lemma WithoutHasTheRest(kept: seq<string>, i: nat, x: string)
    requires i < |kept| && x in kept && x != kept[i]
    ensures x in Without(kept, i)
  {
    var j :| 0 <= j < |kept| && kept[j] == x;
    var from := if j < i then j else j - 1;
    WithoutAt(kept, i, from);
    assert Without(kept, i)[from] == x;
  }

  lemma RemoveKeepsOrder(t: Table, kept: seq<string>, before: int, i: nat)
    requires InOrder(t, kept, before) && i < |kept|
    ensures InOrder(t - {kept[i]}, Without(kept, i), before)
  {
    var next, t' := Without(kept, i), t - {kept[i]};
    WithoutKeepsDistinct(kept, i);
    forall j | 0 <= j < |next| ensures next[j] in t' {
      WithoutAt(kept, i, j);
    }
    forall a, b | 0 <= a < b < |next| ensures t'[next[b]].touched < t'[next[a]].touched {
      WithoutAt(kept, i, a);
      WithoutAt(kept, i, b);
    }
    forall x | x in t' ensures x in next {
      WithoutHasTheRest(kept, i, x);
    }
  }

  lemma PushKeepsOrder(t: Table, kept: seq<string>, before: int, k: string, row: Row)
    requires InOrder(t, kept, before) && k !in t && before < row.touched
    ensures InOrder(t[k := row], [k] + kept, row.touched)
  {
    var next, t' := [k] + kept, t[k := row];
    forall i | 0 <= i < |next| ensures next[i] in t' && (i > 0 ==> next[i] == kept[i - 1] && next[i] != k) {
    }
    forall i, j | 0 <= i < j < |next| ensures t'[next[j]].touched < t'[next[i]].touched && next[i] != next[j] {
      assert next[j] == kept[j - 1] && kept[j - 1] in t;
      if i > 0 {
        assert next[i] == kept[i - 1];
      }
    }
    forall x | x in t' ensures x in next && t'[x].touched <= row.touched {
      if x == k {
        assert next[0] == k;
      } else {
        var j :| 0 <= j < |kept| && kept[j] == x;
        assert next[j + 1] == x;
      }
    }
  }

  lemma HitKeepsOrder(t: Table, kept: seq<string>, before: int, k: string, row: Row)
    requires InOrder(t, kept, before) && k in kept && before < row.touched
    ensures InOrder(t[k := row], MoveToFront(kept, k), row.touched)
  {
    var i := IndexOf(kept, k);
    RemoveKeepsOrder(t, kept, before, i);
    PushKeepsOrder(t - {k}, Without(kept, i), before, k, row);
    assert t[k := row] == (t - {k})[k := row];
  }

  lemma EvictionKeepsOrder(t: Table, kept: seq<string>, before: int, victim: string, k: string, row: Row)
    requires InOrder(t, kept, before) && k !in t && kept != [] && before < row.touched && IsOldest(t, victim)
    ensures InOrder((t - {victim})[k := row], [k] + kept[..|kept| - 1], row.touched)
  {
    OldestIsLast(t, kept, before, victim);
    RemoveKeepsOrder(t, kept, before, |kept| - 1);
    assert Without(kept, |kept| - 1) == kept[..|kept| - 1];
    PushKeepsOrder(t - {victim}, kept[..|kept| - 1], before, k, row);
  }

  lemma MissKeepsOrder(t: Table, t': Table, bound: int, kept: seq<string>, before: int, e: Event)
    requires InOrder(t, kept, before) && before < e.now && |kept| == |t| <= Max(1, bound) && e.key !in t
    requires Recorded(t, t', bound, e.key, e.outcome, e.now)
    ensures InOrder(t', if |kept| >= Max(1, bound) then [e.key] + kept[..|kept| - 1] else [e.key] + kept, e.now)
  {
    var row := Row(Fold(FRESH, e.outcome), e.now);
    if |t| >= bound && t != map[] {
      var victim :| IsOldest(t, victim) && t' == (t - {victim})[e.key := row];
      EvictionKeepsOrder(t, kept, before, victim, e.key, row);
    } else {
      PushKeepsOrder(t, kept, before, e.key, row);
    }
  }

  lemma RecordKeepsOrder(t: Table, t': Table, bound: int, kept: seq<string>, before: int, e: Event)
    requires InOrder(t, kept, before) && before < e.now && |kept| <= Max(1, bound)
    requires Recorded(t, t', bound, e.key, e.outcome, e.now)
    ensures InOrder(t', NextKept(kept, e.key, Max(1, bound)), e.now)
  {
    SizeOfDistinct(kept, t.Keys);
    assert |t.Keys| == |t|;
    if e.key in t {
      HitKeepsOrder(t, kept, before, e.key, Row(Fold(t[e.key].metrics, e.outcome), e.now));
    } else {
      assert e.key !in kept;
      MissKeepsOrder(t, t', bound, kept, before, e);
    }
  }

  /** What a Record leaves in the rows that are present afterwards. */
  ghost predicate RowsFold(t: Table, t': Table, e: Event) {
    forall k | k in t' ::
      && (k != e.key ==> k in t && t'[k] == t[k])
      && (k == e.key ==> t'[k].metrics == Fold(if k in t then t[k].metrics else FRESH, e.outcome))
  }

  lemma RecordFoldsRows(t: Table, t': Table, bound: int, e: Event)
    requires Recorded(t, t', bound, e.key, e.outcome, e.now)
    ensures RowsFold(t, t', e)
  {
  }

  function LastTime(events: seq<Event>): int { if events == [] then 0 else events[|events| - 1].now }

  lemma KeptStep(bound: int, events: seq<Event>)
    requires events != []
    ensures var front, e := events[..|events| - 1], events[|events| - 1];
            Kept(bound, events) == NextKept(Kept(bound, front), e.key, Max(1, bound))
  {
    var front, e := events[..|events| - 1], events[|events| - 1];
    RecencyDistinct(front);
    var r, b := Recency(front), Max(1, bound);
    var n := Min(b, |r|);
    if e.key in r[..n] {
      PrefixAfterHit(r, e.key, n);
    } else if b <= |r| {
      assert forall j | 0 <= j < b :: r[..b][j] == r[j];
      PrefixAfterMiss(r, e.key, b);
    } else {
      assert r[..n] == r;
      assert ([e.key] + r)[..Min(b, |r| + 1)] == [e.key] + r;
    }
  }

  /**
    The table is an exact LRU: under a strictly increasing clock it holds the
    most recently touched keys up to the bound, whatever the map's iteration
    order, and each row is the record of the key's outcomes since it last entered.
   */
  lemma {:induction false} ExactLru(bound: int, events: seq<Event>, t: Table)
    requires Reaches(bound, events, t) && Increasing(events)
    ensures InOrder(t, Kept(bound, events), LastTime(events))
    ensures forall k | k in t :: t[k].metrics == Run(Episode(bound, events, k))
    decreases |events|
  {
    if events != [] {
      var front, e := events[..|events| - 1], events[|events| - 1];
      var t0 :| Reaches(bound, front, t0) && Recorded(t0, t, bound, e.key, e.outcome, e.now);
      ExactLru(bound, front, t0);
      KeptStep(bound, events);
      RecordKeepsOrder(t0, t, bound, Kept(bound, front), if front == [] then e.now - 1 else LastTime(front), e);
      RecordFoldsRows(t0, t, bound, e);
      forall k | k in t ensures t[k].metrics == Run(Episode(bound, events, k)) {
        RowStep(bound, events, t0, t, k);
      }
    }
  }

  lemma RowStep(bound: int, events: seq<Event>, t0: Table, t: Table, k: string)
    requires events != [] && k in t
    requires var front := events[..|events| - 1];
             && (k in t0 <==> k in Kept(bound, front))
             && (k in t0 ==> t0[k].metrics == Run(Episode(bound, front, k)))
             && RowsFold(t0, t, events[|events| - 1])
    ensures t[k].metrics == Run(Episode(bound, events, k))
  {
    var e := events[|events| - 1];
    var prior := Episode(bound, events[..|events| - 1], k);
    if k == e.key {
      if k in t0 {
        assert (prior + [e.outcome])[..|prior|] == prior;
      } else {
        assert [e.outcome][..0] == [];
      }
    }
  }
}
