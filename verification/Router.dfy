/**
  The blocking chat call: rate-limit gate, at most one sibling retry, and the
  token reconcile it schedules.
 */
module Router {
  import opened RateLimit

  const MAX_CHAT_ATTEMPTS: nat := 2

  datatype Usage = Usage(input: nat, output: nat, cacheRead: nat, cacheCreation: nat) {
    /** Every consumed token class, whatever the provider put in its own total. */
    function Actual(): nat { input + output + cacheRead + cacheCreation }
  }

  /** What a provider did with one attempt.  A nil response without an error counts as transient. */
  datatype Reply = Success(usage: Usage) | NilResponse | Transient(err: string) | Permanent(err: string)

  predicate Retryable(r: Reply) { r.NilResponse? || r.Transient? }

  const NIL_RESPONSE_ERROR: string := "provider returned nil response without error"

  function ErrorOf(r: Reply): string
    requires !r.Success?
  {
    if r.NilResponse? then NIL_RESPONSE_ERROR else r.err
  }

  datatype Outcome =
    | Answered(candidate: nat, usage: Usage)
    | ProviderError(err: string)
    | NoProvider
    | Refused(verdict: Verdict)

  /** `charge` is the pre-flight estimate, computed from the request alone. */
  datatype ChatRequest = ChatRequest(user: string, business: string, tier: string, charge: Charge)

  /** What the surroundings answer during a call: the daily-spend reader and the calendar. */
  datatype Ambient = Ambient(spend: SpendReading, now: int, month: int, monthTtl: int)

  /** An empty tier is the free one. */
  function QueryOf(req: ChatRequest, c: Ambient): Query {
    Query(req.user, req.business, if req.tier == "" then "free" else req.tier, req.charge, c.spend, c.now, c.month, c.monthTtl)
  }

  class Router {
    const limiter: RateLimiter?
    /** Attempts reported to the selector: candidate index and success. */
    var recorded: seq<(nat, bool)>
    /** Reconcile goroutines started: tokens still to be added to the month counter. */
    var reconciles: seq<nat>

    constructor (limiter: RateLimiter?)
      ensures this.limiter == limiter && recorded == [] && reconciles == []
    {
      this.limiter := limiter;
      recorded, reconciles := [], [];
    }

    /** No limiter, or nobody to attribute the call to. */
    predicate Ungated(req: ChatRequest) { limiter == null || (req.user == NIL_UUID && req.business == NIL_UUID) }

    method CheckRateLimit(req: ChatRequest, c: Ambient) returns (v: Verdict)
      modifies limiter
      ensures Ungated(req) ==> v == Allowed && (limiter != null ==> limiter.db == old(limiter.db))
      ensures limiter != null && (req.user != NIL_UUID || req.business != NIL_UUID) ==>
                var tier := if req.tier == "" then "free" else req.tier;
                var q := Query(req.user, req.business, tier, req.charge, c.spend, c.now, c.month, c.monthTtl);
                Checked(limiter.tiers, old(limiter.db), limiter.db, q, v)
    {
      if limiter == null || (req.user == NIL_UUID && req.business == NIL_UUID) {
        return Allowed;
      }
      v := limiter.CheckLimit(QueryOf(req, c));
    }

    method ReconcileTokens(req: ChatRequest, usage: Usage)
      modifies this`reconciles
      ensures reconciles == old(reconciles) +
                            if limiter != null && req.user != NIL_UUID && usage.Actual() > req.charge.Total()
                            then [usage.Actual() - req.charge.Total()] else []
      // every token class counts, against the whole estimate
      ensures var delta := usage.input + usage.output + usage.cacheRead + usage.cacheCreation
                           - (req.charge.variable + req.charge.stable);
              reconciles == if limiter != null && req.user != NIL_UUID && delta > 0 then old(reconciles) + [delta] else old(reconciles)
    {
      if limiter == null || req.user == NIL_UUID {
        return;
      }
      var delta := usage.Actual() - req.charge.Total();
      if delta <= 0 {
        return;
      }
      reconciles := reconciles + [delta];
    }

    /**
      `replies[i]` is what the i-th ranked candidate would answer.  The call
      answers with the first candidate, or with the second after a transient
      first failure, and never tries a third.
     */
    method Chat(req: ChatRequest, replies: seq<Reply>, c: Ambient) returns (out: Outcome)
      modifies this`recorded, this`reconciles, limiter
      ensures !Ungated(req) ==>
                Checked(limiter.tiers, old(limiter.db), limiter.db, QueryOf(req, c), if out.Refused? then out.verdict else Allowed)
      ensures |recorded| <= |old(recorded)| + MAX_CHAT_ATTEMPTS
      ensures out.Refused? ==> out.verdict != Allowed && recorded == old(recorded)
      ensures out.NoProvider? <==> !out.Refused? && replies == []
      ensures out.Answered? ==>
                && out.candidate < |replies| && replies[out.candidate] == Success(out.usage)
                && (out.candidate == 0 || (out.candidate == 1 && Retryable(replies[0])))
                && recorded == old(recorded) + (if out.candidate == 0 then [] else [(0, false)]) + [(out.candidate, true)]
      ensures out.ProviderError? ==>
                && replies != [] && !replies[0].Success?
                && (if Retryable(replies[0]) && |replies| >= 2
                    then !replies[1].Success? && out.err == ErrorOf(replies[1])
                         && recorded == old(recorded) + [(0, false)] + [(1, false)]
                    else out.err == ErrorOf(replies[0]) && recorded == old(recorded) + [(0, false)])
      // which failures reach the second candidate, reply by reply
      ensures !out.Refused? && replies != [] ==>
                match replies[0]
                case Success(u) => out == Answered(0, u)
                case Permanent(e) => out == ProviderError(e) && recorded == old(recorded) + [(0, false)]
                case _ =>
                  if |replies| == 1 then
                    && recorded == old(recorded) + [(0, false)]
                    && out == ProviderError(if replies[0].Transient? then replies[0].err
                                            else "provider returned nil response without error")
                  else
                    match replies[1]
                    case Success(u) => out == Answered(1, u)
                    case Permanent(e) => out == ProviderError(e)
                    case Transient(e) => out == ProviderError(e)
                    case NilResponse => out == ProviderError("provider returned nil response without error")
      ensures Ungated(req) ==> !out.Refused?
      // exactly the answered calls reconcile, once, by the tokens above the estimate
      ensures reconciles == old(reconciles) +
                            if out.Answered? && limiter != null && req.user != NIL_UUID && out.usage.Actual() > req.charge.Total()
                            then [out.usage.Actual() - req.charge.Total()] else []
    {
      var v := CheckRateLimit(req, c);
      if v != Allowed {
        return Refused(v);
      }
      if |replies| == 0 {
        return NoProvider;
      }
      var lastErr := "";
      ghost var charged: Db := if limiter == null then map[] else limiter.db;
      for attempt := 0 to |replies|
        invariant attempt <= 1 && recorded == old(recorded) + if attempt == 0 then [] else [(0, false)]
        invariant reconciles == old(reconciles)
        invariant limiter != null ==> limiter.db == charged
        invariant attempt == 1 ==> Retryable(replies[0]) && |replies| >= 2
      {
        if attempt >= MAX_CHAT_ATTEMPTS {
          break;
        }
        var reply := replies[attempt];
        recorded := recorded + [(attempt, reply.Success?)];
        if reply.Success? {
          ReconcileTokens(req, reply.usage);
          return Answered(attempt, reply.usage);
        }
        lastErr := ErrorOf(reply);
        if !Retryable(reply) {
          return ProviderError(lastErr);
        }
        if attempt == 0 && |replies| >= 2 {
          continue;
        }
        return ProviderError(lastErr);
      }
      out := ProviderError(lastErr);
    }
  }
}
