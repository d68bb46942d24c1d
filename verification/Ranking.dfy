/**
  The registry's entries for one model, and the order in which the selector
  offers them: filtered, healthy first, then by strategy, ties in registry order.
 */
module Ranking {
  import opened Common
  import opened Health

  datatype Strategy = Cost | Speed

  /** What the ranking reads of an entry; `config` stands for everything it does not. */
  datatype Entry = Entry(provider: string, inputCost: real, outputCost: real, avgLatencyMs: int,
                         status: Status, enabled: bool, config: int)

  // ---- Registration -------------------------------------------------------

  function Providers(es: seq<Entry>): seq<string> { seq(|es|, i requires 0 <= i < |es| => es[i].provider) }

  ghost predicate OnePerProvider(es: seq<Entry>) { forall i, j | 0 <= i < j < |es| :: es[i].provider != es[j].provider }

  /** The new entry takes the slot of its provider, or goes last. */
  method Place(es: seq<Entry>, e: Entry) returns (after: seq<Entry>)
    requires OnePerProvider(es)
    ensures OnePerProvider(after) && e in after
    ensures Providers(after) == if e.provider in Providers(es) then Providers(es) else Providers(es) + [e.provider]
    ensures forall x | x in after :: x == e || (x in es && x.provider != e.provider)
    ensures forall x | x in es && x.provider != e.provider :: x in after
  {
    for i := 0 to |es|
      invariant forall j | 0 <= j < i :: es[j].provider != e.provider
    {
      if es[i].provider == e.provider {
        after := es[i := e];
        assert Providers(es)[i] == e.provider;
        assert Providers(after) == Providers(es);
        assert after[i] == e;
        forall x | x in es && x.provider != e.provider ensures x in after {
          var j :| 0 <= j < |es| && es[j] == x;
          assert after[j] == x;
        }
        return;
      }
    }
    after := es + [e];
    assert Providers(after) == Providers(es) + [e.provider];
    assert after[|es|] == e;
  }

  class Registry {
    var entries: map<string, seq<Entry>>

    ghost predicate Valid()
      reads this
    {
      forall m | m in entries :: OnePerProvider(entries[m])
    }

    constructor ()
      ensures Valid() && entries == map[]
    {
      entries := map[];
    }

    function GetModelProviders(model: string): seq<Entry>
      reads this
    {
      if model in entries then entries[model] else []
    }

    /** Each (model, provider) keeps one entry, the last one registered, at the place of the first. */
    method RegisterModelProvider(model: string, e: Entry)
      requires Valid()
      modifies this
      ensures Valid()
      ensures e in GetModelProviders(model)
      ensures var before, after := Providers(old(GetModelProviders(model))), Providers(GetModelProviders(model));
              after == if e.provider in before then before else before + [e.provider]
      ensures forall x :: x in GetModelProviders(model) <==> x == e || (x in old(GetModelProviders(model)) && x.provider != e.provider)
      ensures forall m | m != model :: GetModelProviders(m) == old(GetModelProviders(m))
    {
      var slots := Place(GetModelProviders(model), e);
      entries := entries[model := slots];
    }
  }

  // ---- Ranking ------------------------------------------------------------

  function AvgCost(e: Entry): real { (e.inputCost + e.outputCost) / 2.0 }

  /** No measurement yet ranks last. */
  predicate BetterLatency(a: Entry, b: Entry) {
    if a.avgLatencyMs == 0 then false
    else if b.avgLatencyMs == 0 then true
    else a.avgLatencyMs < b.avgLatencyMs
  }

  /** The sort's comparison. */
  predicate Less(s: Strategy, a: Entry, b: Entry) {
    var ha, hb := a.status == Healthy, b.status == Healthy;
    if ha != hb then ha
    else if s == Cost then AvgCost(a) < AvgCost(b)
    else BetterLatency(a, b)
  }

  /** The pick at position `i` against a rival at `j`. */
  predicate Unbeaten(s: Strategy, pick: Entry, i: nat, rival: Entry, j: nat) {
    if rival.status == Healthy && pick.status != Healthy then false
    else if rival.status != Healthy && pick.status == Healthy then true
    else
      match s
      case Cost =>
        pick.inputCost + pick.outputCost < rival.inputCost + rival.outputCost
        || (pick.inputCost + pick.outputCost == rival.inputCost + rival.outputCost && i <= j)
      case Speed =>
        if rival.avgLatencyMs == 0 then pick.avgLatencyMs != 0 || i <= j
        else pick.avgLatencyMs != 0 && (pick.avgLatencyMs < rival.avgLatencyMs || (pick.avgLatencyMs == rival.avgLatencyMs && i <= j))
  }

  predicate Eligible(es: seq<Entry>, wired: set<string>, i: nat) {
    i < |es| && es[i].enabled && es[i].provider in wired
  }

  /** The position `i` is offered before `j`: strictly better, or tied and registered earlier. */
  predicate Before(es: seq<Entry>, s: Strategy, i: nat, j: nat)
    requires i < |es| && j < |es|
  {
    Less(s, es[i], es[j]) || (!Less(s, es[j], es[i]) && i < j)
  }

  lemma BeforeIsTotalOrder(es: seq<Entry>, s: Strategy, i: nat, j: nat, k: nat)
    requires i < |es| && j < |es| && k < |es|
    ensures !Before(es, s, i, i)
    ensures i != j ==> (Before(es, s, i, j) <==> !Before(es, s, j, i))
    ensures Before(es, s, i, j) && Before(es, s, j, k) ==> Before(es, s, i, k)
  {
  }

  ghost predicate Ranked(es: seq<Entry>, s: Strategy, out: seq<nat>) {
    && (forall a | 0 <= a < |out| :: out[a] < |es|)
    && (forall a, b | 0 <= a < b < |out| :: Before(es, s, out[a], out[b]))
  }

  /** Inserts a later position into a ranked list, after everything it does not beat. */
  method Insert(es: seq<Entry>, s: Strategy, out: seq<nat>, i: nat) returns (after: seq<nat>)
    requires Ranked(es, s, out) && i < |es| && forall a | 0 <= a < |out| :: out[a] < i
    ensures Ranked(es, s, after)
    ensures forall x :: x in after <==> x in out || x == i
  {
    var p := |out|;
    while p > 0 && Less(s, es[i], es[out[p - 1]])
      invariant 0 <= p <= |out|
      invariant forall a | p <= a < |out| :: Before(es, s, i, out[a])
    {
      p := p - 1;
    }
    forall a | 0 <= a < p ensures Before(es, s, out[a], i) {
      BeforeIsTotalOrder(es, s, out[a], out[p - 1], i);
    }
    after := out[..p] + [i] + out[p..];
    Spliced(es, s, out, p, i);
  }

  lemma Spliced(es: seq<Entry>, s: Strategy, out: seq<nat>, p: nat, i: nat)
    requires Ranked(es, s, out) && i < |es| && p <= |out|
    requires forall a | 0 <= a < p :: Before(es, s, out[a], i)
    requires forall a | p <= a < |out| :: Before(es, s, i, out[a])
    ensures Ranked(es, s, out[..p] + [i] + out[p..])
    ensures forall x :: x in out[..p] + [i] + out[p..] <==> x in out || x == i
  {
    var after := out[..p] + [i] + out[p..];
    forall a | 0 <= a < |after| ensures after[a] == if a < p then out[a] else if a == p then i else out[a - 1] {
    }
    forall a, b | 0 <= a < b < |after| ensures after[a] < |es| && after[b] < |es| && Before(es, s, after[a], after[b]) {
    }
    assert out == out[..p] + out[p..];
  }

  /**
    The candidate list: exactly the enabled entries with a wired provider, in the
    one order that is best first and stable.
   */
  method BuildCandidates(es: seq<Entry>, wired: set<string>, s: Strategy) returns (out: seq<nat>)
    ensures Ranked(es, s, out)
    ensures forall i: nat :: i in out <==> Eligible(es, wired, i)
  {
    out := [];
    for i := 0 to |es|
      invariant Ranked(es, s, out)
      invariant forall j: nat :: j in out <==> j < i && Eligible(es, wired, j)
    {
      if !es[i].enabled {
        continue;
      }
      if es[i].provider !in wired {
        continue;
      }
      assert forall a | 0 <= a < |out| :: out[a] in out;
      out := Insert(es, s, out, i);
    }
  }

  /** The contract of BuildCandidates leaves no freedom: the ranking is unique. */
  lemma {:induction false} RankingIsUnique(es: seq<Entry>, s: Strategy, x: seq<nat>, y: seq<nat>)
    requires Ranked(es, s, x) && Ranked(es, s, y) && forall i: nat :: i in x <==> i in y
    ensures x == y
    decreases |x|
  {
    if y != [] {
      HeadIsMember(y);
    }
    if x != [] {
      HeadIsMember(x);
      SameHead(es, s, x, y);
      forall i: nat ensures i in x[1..] <==> i in y[1..] {
        TailMember(es, s, x, i);
        TailMember(es, s, y, i);
      }
      RankingIsUnique(es, s, x[1..], y[1..]);
      assert x == [x[0]] + x[1..] && y == [y[0]] + y[1..];
    }
  }

  lemma HeadIsMember(x: seq<nat>)
    requires x != []
    ensures x[0] in x
  {
  }

  lemma SameHead(es: seq<Entry>, s: Strategy, x: seq<nat>, y: seq<nat>)
    requires Ranked(es, s, x) && Ranked(es, s, y) && x != [] && x[0] in y && y != [] && y[0] in x
    ensures x[0] == y[0]
  {
    var a :| 0 <= a < |y| && y[a] == x[0];
    var b :| 0 <= b < |x| && x[b] == y[0];
    BeforeIsTotalOrder(es, s, x[0], y[0], x[0]);
  }

  lemma TailMember(es: seq<Entry>, s: Strategy, x: seq<nat>, i: nat)
    requires Ranked(es, s, x) && x != []
    ensures i in x[1..] <==> i in x && i != x[0]
  {
    if i in x[1..] {
      var a :| 0 <= a < |x[1..]| && x[1..][a] == i;
      BeforeIsTotalOrder(es, s, x[0], x[a + 1], x[0]);
    }
    if i in x && i != x[0] {
      var a :| 0 <= a < |x| && x[a] == i;
      assert x[1..][a - 1] == i;
    }
  }

  /**
    Pick offers an eligible entry whenever there is one, a healthy one whenever
    there is a healthy one, and never an entry some other eligible entry beats.
   */
  method Pick(es: seq<Entry>, wired: set<string>, s: Strategy) returns (r: Option<nat>)
    ensures r.None? <==> forall i: nat :: !Eligible(es, wired, i)
    ensures r.Some? ==>
              && Eligible(es, wired, r.value)
              && (forall j: nat | Eligible(es, wired, j) :: !Less(s, es[j], es[r.value]))
              && (forall j: nat | Eligible(es, wired, j) && !Less(s, es[r.value], es[j]) :: r.value <= j)
              && ((exists j: nat :: Eligible(es, wired, j) && es[j].status == Healthy) ==> es[r.value].status == Healthy)
    // in the words of the strategies: no healthy rival beats the pick on price, or on measured latency
    ensures r.Some? ==>
              && r.value < |es| && es[r.value].enabled && es[r.value].provider in wired
              && forall j: nat | j < |es| && es[j].enabled && es[j].provider in wired ::
                   Unbeaten(s, es[r.value], r.value, es[j], j)
    ensures r.None? <==> forall j: nat | j < |es| :: !es[j].enabled || es[j].provider !in wired
  {
    var out := BuildCandidates(es, wired, s);
    if |out| == 0 {
      assert forall i: nat :: i !in out;
      assert forall j: nat :: !Eligible(es, wired, j);
      forall j: nat | j < |es| ensures !es[j].enabled || es[j].provider !in wired {
        assert !Eligible(es, wired, j);
      }
      return None;
    }
    assert out[0] in out;
    forall j: nat | Eligible(es, wired, j) ensures j == out[0] || Before(es, s, out[0], j) {
      var a :| 0 <= a < |out| && out[a] == j;
    }
    r := Some(out[0]);
  }
}
