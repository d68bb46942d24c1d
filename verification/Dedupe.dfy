/**
  Deduplication of approved tool calls: the Redis claim/store/release protocol
  and the dispatcher that drives it.

  `DedupeClient` and `Dispatcher` are the sequential code; every command they
  issue is one of the slot functions below.  `DedupeRuns` interleaves the same
  slot functions.
 */
module Dedupe {
  import opened Common
  import opened Redis
  import Keys

  const DEDUPE_TTL: int := 86_400_000
  const EXECUTING_TTL: int := 300_000
  const SENTINEL: string := "executing"

  datatype ToolRequest = ToolRequest(taskId: string, tool: string, businessId: string, approvalId: string)

  /** `result` stands for the decoded result object. */
  datatype ToolResponse =
    ToolResponse(taskId: string, success: bool, result: string, error: string, code: string)

  /** What the platform routing callback returned; a response and an error may come together. */
  datatype ExecResult = ExecResult(resp: Option<ToolResponse>, err: Option<string>)

  /** The JSON codec, whose internals are library code. */
  datatype Codec = Codec(encode: ToolResponse -> string, decode: string -> Option<ToolResponse>)

  /** A JSON object is never the bare word stored by Claim, and nothing decodes from the empty text. */
  ghost predicate Lawful(c: Codec) {
    && (forall r :: c.decode(c.encode(r)) == Some(r))
    && (forall r :: c.encode(r) != SENTINEL)
    && c.decode("") == None
  }

  function KeyFor(businessId: string, approvalId: string): string {
    "hitl:approval:" + (businessId + ":" + approvalId)
  }

  /** Exactly when two approvals share a dedupe key. */
  lemma KeyForCollidesIff(b: string, a: string, b': string, a': string)
    ensures KeyFor(b, a) == KeyFor(b', a') <==>
            (b == b' && a == a') || Keys.Extends(b, a, b', a') || Keys.Extends(b', a', b, a)
  {
    var prefix := "hitl:approval:";
    assert forall s: string {:trigger prefix + s} :: (prefix + s)[|prefix|..] == s;
    assert KeyFor(b, a)[|prefix|..] == b + ":" + a;
    assert KeyFor(b', a')[|prefix|..] == b' + ":" + a';
    Keys.SameTextIff(b, a, b', a');
  }

  /** Tenants whose identifiers carry no colon never share a key. */
  lemma KeyForInjective(b: string, a: string, b': string, a': string)
    requires Keys.ColonFree(b) && Keys.ColonFree(b')
    requires KeyFor(b, a) == KeyFor(b', a')
    ensures b == b' && a == a'
  {
    assert (b + ":" + a) == KeyFor(b, a)[14..] == KeyFor(b', a')[14..] == (b' + ":" + a');
    Keys.FirstFieldUnique(b, a, b', a');
  }

  // ---- One dedupe key: the effect of each Redis command -------------------

  type KeySlot = Option<Entry<string>>

  datatype ClaimOutcome = Skip | Claimed | InFlight | Duplicate(cached: string)

  function SentinelAt(now: int): Entry<string> { Entry(SENTINEL, Some(now + EXECUTING_TTL)) }

  predicate SetNxWins(slot: KeySlot, now: int) { Seen(slot, now).None? }

  function AfterSetNx(slot: KeySlot, now: int): KeySlot {
    if SetNxWins(slot, now) then Some(SentinelAt(now)) else slot
  }

  /** The verdict of the GET that follows a lost SETNX. */
  function ReadAfterMiss(slot: KeySlot, now: int): ClaimOutcome {
    match Seen(slot, now)
    case None => Duplicate("")
    case Some(e) => if e.value == SENTINEL then InFlight else Duplicate(e.value)
  }

  function AfterStore(payload: string, now: int): KeySlot { Some(Entry(payload, Some(now + DEDUPE_TTL))) }

  /** The compare-and-delete script. */
  function AfterRelease(slot: KeySlot, now: int): KeySlot {
    match Seen(slot, now)
    case None => slot
    case Some(e) => if e.value == SENTINEL then None else slot
  }

  function WithSlot(db: map<string, Entry<string>>, key: string, slot: KeySlot): map<string, Entry<string>> {
    if slot.Some? then db[key := slot.value] else db - {key}
  }

  /** A command of another process on any dedupe key. */
  datatype Command =
    | SetIfAbsent(key: string, at: int)
    | Put(key: string, payload: string, at: int)
    | CompareDelete(key: string, at: int)

  function Issue(db: map<string, Entry<string>>, c: Command): map<string, Entry<string>> {
    var slot := Redis.Slot(db, c.key);
    WithSlot(db, c.key, match c
                        case SetIfAbsent(_, at) => AfterSetNx(slot, at)
                        case Put(_, payload, at) => AfterStore(payload, at)
                        case CompareDelete(_, at) => AfterRelease(slot, at))
  }

  function IssueAll(db: map<string, Entry<string>>, cs: seq<Command>): map<string, Entry<string>>
    decreases |cs|
  {
    if cs == [] then db else IssueAll(Issue(db, cs[0]), cs[1..])
  }

  /** The key is present and its deadline, if it has one, lies ahead. */
  predicate HoldsLive(db: map<string, Entry<string>>, key: string, now: int) {
    key in db && (db[key].deadline.Some? ==> now < db[key].deadline.value)
  }

  // ---- The client ---------------------------------------------------------

  class DedupeClient {
    var db: map<string, Entry<string>>
    const codec: Codec

    constructor (codec: Codec)
      ensures this.codec == codec && db == map[]
    {
      this.codec := codec;
      db := map[];
    }

    /** SETNX at `t0`; when it loses, GET at `t1`.  `between` is what other processes do before the GET. */
    method Claim(businessId: string, approvalId: string, between: seq<Command>, t0: int, t1: int)
      returns (outcome: ClaimOutcome)
      requires t0 <= t1
      modifies this
      ensures approvalId == "" ==> outcome == Skip && db == old(db)
      ensures approvalId != "" ==>
                var key := KeyFor(businessId, approvalId);
                if SetNxWins(Redis.Slot(old(db), key), t0)
                then outcome == Claimed && db == WithSlot(old(db), key, Some(SentinelAt(t0)))
                else db == IssueAll(old(db), between) && outcome == ReadAfterMiss(Redis.Slot(db, key), t1)
      // the outcomes in the words of the protocol
      ensures var key := "hitl:approval:" + (businessId + ":" + approvalId);
              && (outcome == Skip <==> approvalId == "")
              && (outcome == Claimed ==> db == old(db)[key := Entry("executing", Some(t0 + 300_000))])
              && (outcome == InFlight ==> HoldsLive(db, key, t1) && db[key].value == "executing")
              && (outcome.Duplicate? && HoldsLive(db, key, t1) ==> db[key].value != "executing" && outcome.cached == db[key].value)
              && (outcome.Duplicate? && !HoldsLive(db, key, t1) ==> outcome.cached == "")
    {
      if approvalId == "" {
        return Skip;
      }
      var key := KeyFor(businessId, approvalId);
      if Lookup(db, t0, key).None? {
        db := db[key := SentinelAt(t0)];
        return Claimed;
      }
      db := IssueAll(db, between);
      var val := Lookup(db, t1, key);
      if val.None? {
        return Duplicate("");
      }
      outcome := if val.value.value == SENTINEL then InFlight else Duplicate(val.value.value);
    }

    method Store(businessId: string, approvalId: string, result: ToolResponse, now: int)
      modifies this
      ensures approvalId == "" ==> db == old(db)
      ensures approvalId != "" ==>
                db == WithSlot(old(db), KeyFor(businessId, approvalId), AfterStore(codec.encode(result), now))
      ensures approvalId != "" ==>
                db == old(db)["hitl:approval:" + (businessId + ":" + approvalId) := Entry(codec.encode(result), Some(now + 86_400_000))]
    {
      if approvalId != "" {
        db := db[KeyFor(businessId, approvalId) := Entry(codec.encode(result), Some(now + DEDUPE_TTL))];
      }
    }

    method Release(businessId: string, approvalId: string, now: int)
      modifies this
      ensures approvalId == "" ==> db == old(db)
      ensures approvalId != "" ==>
                var key := KeyFor(businessId, approvalId);
                db == WithSlot(old(db), key, AfterRelease(Redis.Slot(old(db), key), now))
      ensures approvalId != "" ==>
                var key := "hitl:approval:" + (businessId + ":" + approvalId);
                db == if HoldsLive(old(db), key, now) && old(db)[key].value == "executing" then old(db) - {key} else old(db)
    {
      if approvalId == "" {
        return;
      }
      var key := KeyFor(businessId, approvalId);
      var seen := Lookup(db, now, key);
      if seen.Some? && seen.value.value == SENTINEL {
        db := db - {key};
      } else {
        assert db == WithSlot(db, key, Redis.Slot(db, key));
      }
    }
  }

  // ---- The dispatcher -----------------------------------------------------

  const IN_FLIGHT_ERROR: string := "duplicate: already in flight"
  const UNAVAILABLE_ERROR: string := "duplicate: cached result unavailable"

  /** The reply the gate gives when it stops a call. */
  function GateReply(codec: Codec, req: ToolRequest, outcome: ClaimOutcome): ToolResponse
    requires outcome.InFlight? || outcome.Duplicate?
  {
    match outcome
    case InFlight => ToolResponse(req.taskId, false, "", IN_FLIGHT_ERROR, "transient")
    case Duplicate(cached) =>
      match codec.decode(cached)
      case None => ToolResponse(req.taskId, false, "", UNAVAILABLE_ERROR, "")
      case Some(r) => r.(taskId := req.taskId)
  }

  class Dispatcher {
    const dedupe: DedupeClient?
    const classify: Option<string> -> Option<string>

    constructor (dedupe: DedupeClient?, classify: Option<string> -> Option<string>)
      ensures this.dedupe == dedupe && this.classify == classify
    {
      this.dedupe := dedupe;
      this.classify := classify;
    }

    /** True when the approval gate applies to a request. */
    predicate Gated(req: ToolRequest) { dedupe != null && req.approvalId != "" }

    method DedupeGate(req: ToolRequest, between: seq<Command>, t0: int, t1: int) returns (reply: Option<ToolResponse>)
      requires t0 <= t1
      modifies dedupe
      ensures !Gated(req) ==> reply == None && (dedupe != null ==> dedupe.db == old(dedupe.db))
      ensures Gated(req) ==>
                var key := KeyFor(req.businessId, req.approvalId);
                if SetNxWins(Redis.Slot(old(dedupe.db), key), t0)
                then reply == None && dedupe.db == WithSlot(old(dedupe.db), key, Some(SentinelAt(t0)))
                else
                  && dedupe.db == IssueAll(old(dedupe.db), between)
                  && reply == Some(GateReply(dedupe.codec, req, ReadAfterMiss(Redis.Slot(dedupe.db, key), t1)))
    {
      if dedupe == null || req.approvalId == "" {
        return None;
      }
      var outcome := dedupe.Claim(req.businessId, req.approvalId, between, t0, t1);
      match outcome
      case InFlight =>
        reply := Some(ToolResponse(req.taskId, false, "", IN_FLIGHT_ERROR, "transient"));
      case Duplicate(cached) =>
        var decoded := dedupe.codec.decode(cached);
        if decoded.None? {
          reply := Some(ToolResponse(req.taskId, false, "", UNAVAILABLE_ERROR, ""));
        } else {
          reply := Some(decoded.value.(taskId := req.taskId));
        }
      case _ =>
        reply := None;
    }

    method DedupeStore(req: ToolRequest, resp: Option<ToolResponse>, execErr: Option<string>, now: int)
      modifies dedupe
      ensures !Gated(req) && dedupe != null ==> dedupe.db == old(dedupe.db)
      ensures Gated(req) ==>
                var key := KeyFor(req.businessId, req.approvalId);
                var slot := Redis.Slot(old(dedupe.db), key);
                dedupe.db == WithSlot(old(dedupe.db), key,
                                      if execErr.None? && resp.Some?
                                      then AfterStore(dedupe.codec.encode(resp.value), now)
                                      else AfterRelease(slot, now))
    {
      if dedupe == null || req.approvalId == "" {
        return;
      }
      if execErr.Some? || resp.None? {
        dedupe.Release(req.businessId, req.approvalId, now);
      } else {
        dedupe.Store(req.businessId, req.approvalId, resp.value, now);
      }
    }

    /**
      Gate at `t0`/`t1`, execution, classification, then Store or Release at `t2`.
      `between` and `during` are what other processes do before the gate's GET and
      while the callback runs.  `executed` reports whether the callback ran.
     */
    method Dispatch(req: ToolRequest, exec: ToolRequest -> ExecResult, between: seq<Command>, during: seq<Command>,
                    t0: int, t1: int, t2: int)
      returns (resp: Option<ToolResponse>, err: Option<string>, executed: bool)
      requires t0 <= t1 <= t2
      modifies dedupe
      ensures executed <==> !Gated(req) || SetNxWins(Redis.Slot(old(dedupe.db), KeyFor(req.businessId, req.approvalId)), t0)
      ensures executed ==>
                && resp == exec(req).resp
                && err == classify(exec(req).err)
      ensures !executed ==> err == None && resp.Some? && dedupe.db == IssueAll(old(dedupe.db), between)
      // a stopped call that finds a live stored result returns it with only the task id replaced
      ensures forall r: ToolResponse, d: int ::
                !executed && Lawful(dedupe.codec) && t1 < d
                && Redis.Slot(dedupe.db, KeyFor(req.businessId, req.approvalId))
                   == Some(Entry(dedupe.codec.encode(r), Some(d)))
                ==> resp == Some(r.(taskId := req.taskId))
      // a call stopped by one that is still executing is told to retry
      ensures !executed && HoldsLive(dedupe.db, KeyFor(req.businessId, req.approvalId), t1)
              && dedupe.db[KeyFor(req.businessId, req.approvalId)].value == "executing" ==>
                resp == Some(ToolResponse(req.taskId, false, "", "duplicate: already in flight", "transient"))
      // one that finds nothing, or nothing it can decode, reports the result as unavailable
      ensures !executed && Lawful(dedupe.codec) && !HoldsLive(dedupe.db, KeyFor(req.businessId, req.approvalId), t1) ==>
                resp == Some(ToolResponse(req.taskId, false, "", "duplicate: cached result unavailable", ""))
      ensures !executed && HoldsLive(dedupe.db, KeyFor(req.businessId, req.approvalId), t1)
              && dedupe.db[KeyFor(req.businessId, req.approvalId)].value != "executing"
              && dedupe.codec.decode(dedupe.db[KeyFor(req.businessId, req.approvalId)].value) == None ==>
                resp == Some(ToolResponse(req.taskId, false, "", "duplicate: cached result unavailable", ""))
      // a successful execution leaves its response for the next 24 hours
      ensures Gated(req) && executed && err.None? && resp.Some? ==>
                Redis.Slot(dedupe.db, KeyFor(req.businessId, req.approvalId))
                == Some(Entry(dedupe.codec.encode(resp.value), Some(t2 + 86_400_000)))
      // with the gate off Redis is not touched by the call itself
      ensures dedupe != null && req.approvalId == "" ==> executed && dedupe.db == IssueAll(old(dedupe.db), during)
      // a failed execution leaves the key free for an immediate retry, or holding another call's result
      ensures Gated(req) && executed && (err.Some? || resp.None?) ==>
                var seen := Lookup(dedupe.db, t2, KeyFor(req.businessId, req.approvalId));
                seen.Some? ==> seen.value.value != "executing"
      ensures Gated(req) && executed && (err.Some? || resp.None?) && during == [] ==>
                SetNxWins(Redis.Slot(dedupe.db, KeyFor(req.businessId, req.approvalId)), t2)
    {
      var reply := DedupeGate(req, between, t0, t1);
      if reply.Some? {
        return reply, None, false;
      }
      var outcome := exec(req);
      resp := outcome.resp;
      err := classify(outcome.err);
      if dedupe != null {
        dedupe.db := IssueAll(dedupe.db, during);
      }
      DedupeStore(req, resp, err, t2);
      executed := true;
    }
  }
}
