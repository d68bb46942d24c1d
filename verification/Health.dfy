/**
  The record a selector keeps for one (provider, model): lifetime counts, a
  success streak, a latency window and a health status.
 */
module Health {

  const LATENCY_WINDOW: nat := 100
  const RECOVERY_SUCCESS_MIN: nat := 3
  const NANOS_PER_MILLI: int := 1_000_000

  datatype Status = Healthy | Degraded | Down

  /** `latency` is in nanoseconds; streaming starts report zero. */
  datatype Outcome = Outcome(success: bool, latency: int)

  datatype Metrics = Metrics(total: nat, successes: nat, failures: nat, streak: nat,
                             avgLatencyMs: int, window: seq<int>, status: Status)

  const FRESH: Metrics := Metrics(0, 0, 0, 0, 0, [], Healthy)

  /** The failure rate is compared with 1/2 and 1/5 without rounding. */
  function Classify(failures: nat, total: nat): Status {
    if 2 * failures > total then Down
    else if 5 * failures > total then Degraded
    else Healthy
  }

  function Sum(xs: seq<int>): int {
    if xs == [] then 0 else Sum(xs[..|xs| - 1]) + xs[|xs| - 1]
  }

  function Mean(xs: seq<int>): int {
    if xs == [] then 0 else Sum(xs) / |xs|
  }

  /** The last `n` elements, or all of them. */
  function LastN<T>(xs: seq<T>, n: nat): seq<T> { if |xs| <= n then xs else xs[|xs| - n..] }

  /** A success with a positive latency contributes a sample, in whole milliseconds. */
  predicate Sampled(o: Outcome) { o.success && o.latency > 0 }

  // ---- What a history of outcomes means ----------------------------------

  function Failures(h: seq<Outcome>): nat {
    if h == [] then 0 else Failures(h[..|h| - 1]) + if h[|h| - 1].success then 0 else 1
  }

  /** Successes since the last failure. */
  function Trailing(h: seq<Outcome>): (n: nat)
    ensures n <= |h|
    ensures forall i | |h| - n <= i < |h| :: h[i].success
    ensures n < |h| ==> !h[|h| - n - 1].success
  {
    if h == [] || !h[|h| - 1].success then 0 else Trailing(h[..|h| - 1]) + 1
  }

  function Samples(h: seq<Outcome>): seq<int> {
    if h == [] then []
    else
      var last := h[|h| - 1];
      Samples(h[..|h| - 1]) + if Sampled(last) then [last.latency / NANOS_PER_MILLI] else []
  }

  /**
    The status a history calls for: the verdict at the last failure, unless three
    successes in a row have followed it.
   */
  function StatusOf(h: seq<Outcome>): Status {
    var n := |h| - Trailing(h);
    if n == 0 || Trailing(h) >= RECOVERY_SUCCESS_MIN then Healthy else Classify(Failures(h[..n]), n)
  }

  // ---- The record --------------------------------------------------------

  function Push(window: seq<int>, ms: int): seq<int> {
    var w := window + [ms];
    if |w| > LATENCY_WINDOW then w[1..] else w
  }

  /** One outcome folded into a record. */
  function Fold(m: Metrics, o: Outcome): Metrics {
    if o.success then
      var window := if Sampled(o) then Push(m.window, o.latency / NANOS_PER_MILLI) else m.window;
      Metrics(m.total + 1, m.successes + 1, m.failures, m.streak + 1,
              if Sampled(o) then Mean(window) else m.avgLatencyMs, window,
              if m.streak + 1 >= RECOVERY_SUCCESS_MIN then Healthy else m.status)
    else
      m.(total := m.total + 1, failures := m.failures + 1, streak := 0,
         status := Classify(m.failures + 1, m.total + 1))
  }

  function Run(h: seq<Outcome>): Metrics {
    if h == [] then FRESH else Fold(Run(h[..|h| - 1]), h[|h| - 1])
  }

  /** The statements of Record on one record, against Fold. */
  method Update(m: Metrics, o: Outcome) returns (m': Metrics)
    ensures m' == Fold(m, o)
  {
    m' := m.(total := m.total + 1);
    if o.success {
      m' := m'.(successes := m'.successes + 1, streak := m'.streak + 1);
      if o.latency > 0 {
        var w := m'.window + [o.latency / NANOS_PER_MILLI];
        if |w| > LATENCY_WINDOW {
          w := w[1..];
        }
        var sum := 0;
        for i := 0 to |w|
          invariant sum == Sum(w[..i])
        {
          assert w[..i + 1][..i] == w[..i];
          sum := sum + w[i];
        }
        assert w[..|w|] == w;
        m' := m'.(window := w, avgLatencyMs := sum / |w|);
      }
      if m'.status != Healthy && m'.streak >= RECOVERY_SUCCESS_MIN {
        m' := m'.(status := Healthy);
      }
    } else {
      m' := m'.(failures := m'.failures + 1, streak := 0);
      if 2 * m'.failures > m'.total {
        m' := m'.(status := Down);
      } else if 5 * m'.failures > m'.total {
        m' := m'.(status := Degraded);
      } else {
        m' := m'.(status := Healthy);
      }
    }
  }

  // ---- One outcome, spelled out -------------------------------------------

  lemma FoldCounts(m: Metrics, o: Outcome)
    ensures var m' := Fold(m, o);
            && m'.total == m.total + 1
            && (o.success ==> m'.successes == m.successes + 1 && m'.failures == m.failures && m'.streak == m.streak + 1)
            && (!o.success ==> m'.successes == m.successes && m'.failures == m.failures + 1 && m'.streak == 0)
  {
  }

  lemma QuotientAbove(f: real, t: real, c: real)
    requires t > 0.0
    ensures f / t > c <==> f > c * t
  {
    var rate := f / t;
    assert rate * t == f;
    if rate > c {
      assert (rate - c) * t > 0.0;
    } else {
      assert (c - rate) * t >= 0.0;
    }
    assert (rate - c) * t == f - c * t;
  }

  lemma RateAbove(failures: nat, total: nat)
    requires total > 0
    ensures failures as real / total as real > 0.5 <==> 2 * failures > total
    ensures failures as real / total as real > 0.2 <==> 5 * failures > total
  {
    QuotientAbove(failures as real, total as real, 0.5);
    QuotientAbove(failures as real, total as real, 0.2);
  }

  /** A failure leaves the record down above one half and degraded above one fifth; three successes in a row heal it. */
  lemma FoldStatus(m: Metrics, o: Outcome)
    ensures var m' := Fold(m, o);
            && (o.success ==> m'.status == if m.streak + 1 >= 3 then Healthy else m.status)
            && (!o.success ==>
                  var rate := (m.failures + 1) as real / (m.total + 1) as real;
                  m'.status == if rate > 0.5 then Down else if rate > 0.2 then Degraded else Healthy)
  {
    RateAbove(m.failures + 1, m.total + 1);
  }

  /** A positive success latency joins the last hundred, in milliseconds; the average is their mean rounded down. */
  lemma FoldLatency(m: Metrics, o: Outcome)
    ensures var m' := Fold(m, o);
            if o.success && o.latency > 0 then
              var all := m.window + [o.latency / 1_000_000];
              && m'.window == (if |all| > 100 then all[1..] else all)
              && |m'.window| > 0 && m'.avgLatencyMs == Sum(m'.window) / |m'.window|
            else m'.window == m.window && m'.avgLatencyMs == m.avgLatencyMs
  {
  }

  lemma PushIsLastN(samples: seq<int>, ms: int)
    ensures Push(LastN(samples, LATENCY_WINDOW), ms) == LastN(samples + [ms], LATENCY_WINDOW)
  {
  }

  lemma {:induction false} CountsReflectHistory(h: seq<Outcome>)
    ensures var m := Run(h);
            && m.total == |h| && m.failures == Failures(h) && m.successes == |h| - Failures(h)
            && m.streak == Trailing(h)
    decreases |h|
  {
    if h != [] {
      CountsReflectHistory(h[..|h| - 1]);
    }
  }

  lemma {:induction false} WindowReflectsHistory(h: seq<Outcome>)
    ensures var m := Run(h); m.window == LastN(Samples(h), LATENCY_WINDOW) && m.avgLatencyMs == Mean(m.window)
    decreases |h|
  {
    if h != [] {
      var front, o := h[..|h| - 1], h[|h| - 1];
      WindowReflectsHistory(front);
      if Sampled(o) {
        PushIsLastN(Samples(front), o.latency / NANOS_PER_MILLI);
      }
    }
  }

  lemma {:induction false} StatusReflectsHistory(h: seq<Outcome>)
    ensures Run(h).status == StatusOf(h)
    decreases |h|
  {
    if h != [] {
      var front, o := h[..|h| - 1], h[|h| - 1];
      StatusReflectsHistory(front);
      CountsReflectHistory(front);
      var n := |h| - Trailing(h);
      if o.success {
        assert front[..n] == h[..n];
      } else {
        assert h[..n] == h;
      }
    }
  }

  /**
    A record is a function of its history: exact counts, the streak since the
    last failure, the last hundred positive success latencies with their floored
    mean, and the status the history calls for.
   */
  lemma RecordReflectsHistory(h: seq<Outcome>)
    ensures var m := Run(h);
            && m.total == |h| && m.failures == Failures(h) && m.successes == |h| - Failures(h)
            && m.streak == Trailing(h)
            && m.window == LastN(Samples(h), LATENCY_WINDOW)
            && m.avgLatencyMs == Mean(m.window)
            && m.status == StatusOf(h)
  {
    CountsReflectHistory(h);
    WindowReflectsHistory(h);
    StatusReflectsHistory(h);
  }

  // ---- Recovery -----------------------------------------------------------

  lemma {:induction false} FailuresAfterSuccesses(h: seq<Outcome>, n: nat)
    requires n <= |h| && forall i | n <= i < |h| :: h[i].success
    ensures Failures(h) == Failures(h[..n])
    decreases |h|
  {
    if n == |h| {
      assert h[..n] == h;
    } else {
      FailuresAfterSuccesses(h[..|h| - 1], n);
      assert h[..|h| - 1][..n] == h[..n];
    }
  }

  /**
    An unhealthy record returns to healthy on an outcome if and only if that
    outcome completes three successes in a row.  In particular no failure ever
    restores it: at most two successes since the last failure cannot dilute the
    lifetime rate back to one fifth.
   */
  lemma RecoversIff(h: seq<Outcome>, o: Outcome)
    requires Run(h).status != Healthy
    ensures Run(h + [o]).status == Healthy <==> Trailing(h + [o]) >= RECOVERY_SUCCESS_MIN
  {
    var h' := h + [o];
    assert h'[..|h'| - 1] == h;
    assert Run(h') == Fold(Run(h), o);
    RecordReflectsHistory(h);
    if !o.success {
      var n := |h| - Trailing(h);
      FailuresAfterSuccesses(h, n);
      assert 5 * Failures(h) > n && |h| <= n + 2;
    }
  }

  /** Between an unhealthy moment and a later healthy one lie three consecutive successes. */
  lemma {:induction false} RecoveryNeedsStreak(h: seq<Outcome>, more: seq<Outcome>) returns (end: nat)
    requires Run(h).status != Healthy && Run(h + more).status == Healthy
    ensures |h| < end <= |h + more|
    ensures end >= RECOVERY_SUCCESS_MIN
    ensures forall i | end - RECOVERY_SUCCESS_MIN <= i < end :: (h + more)[i].success
    decreases |more|
  {
    assert h + [] == h;
    var h1 := h + [more[0]];
    assert h1 + more[1..] == h + more;
    if Run(h1).status == Healthy {
      RecoversIff(h, more[0]);
      end := |h1|;
      assert forall i | 0 <= i < |h1| :: h1[i] == (h + more)[i];
    } else {
      end := RecoveryNeedsStreak(h1, more[1..]);
    }
  }
}
