/**
  The agent's message handler: whatever decoding, the tool, or the response
  encoding do, a request with a reply subject is answered.
 */
module Agent {
  import opened Common
  import opened Dedupe

  /** How the tool callback ended. */
  datatype ExecOutcome = Responded(resp: ToolResponse) | RespondedNil | Errored(msg: string, code: string) | Panicked

  /** The handler's surroundings: the callback, and which responses json.Marshal accepts. */
  datatype Env = Env(exec: ToolRequest -> ExecOutcome, encodes: ToolResponse -> bool)

  /** Only the free-form result object can defeat the encoder. */
  ghost predicate PlainEncodes(env: Env) { forall r: ToolResponse :: r.result == "" ==> env.encodes(r) }

  const DECODE_FAILURE: ToolResponse := ToolResponse("", false, "", "agent failed to decode request", "transient")

  function Failure(taskId: string, error: string, code: string): ToolResponse {
    ToolResponse(taskId, false, "", error, code)
  }

  /** The response the requester should see. */
  function Intended(env: Env, decoded: Option<ToolRequest>): ToolResponse {
    if decoded.None? then DECODE_FAILURE
    else
      var id := decoded.value.taskId;
      match env.exec(decoded.value)
      case Responded(resp) => if env.encodes(resp) then resp else Failure(id, "agent failed to encode tool response", "transient")
      case RespondedNil => Failure(id, "handler returned nil response and nil error", "transient")
      case Errored(msg, code) => Failure(id, msg, code)
      case Panicked => Failure(id, "agent panic", "transient")
  }

  class Transport {
    var attempts: seq<(string, ToolResponse)>
    /** A Publish that panics instead of returning. */
    const panics: bool

    constructor (panics: bool)
      ensures this.panics == panics && attempts == []
    {
      this.panics := panics;
      attempts := [];
    }

    method Publish(reply: string, resp: ToolResponse) returns (panicked: bool)
      modifies this
      ensures attempts == old(attempts) + [(reply, resp)] && panicked == panics
    {
      attempts := attempts + [(reply, resp)];
      panicked := panics;
    }
  }

  /** The response the handler itself publishes, if it gets that far. */
  function Answer(env: Env, decoded: Option<ToolRequest>): Option<ToolResponse> {
    if decoded.None? then (if env.encodes(DECODE_FAILURE) then Some(DECODE_FAILURE) else None)
    else
      var id := decoded.value.taskId;
      var fallback := Failure(id, "agent failed to encode tool response", "transient");
      match env.exec(decoded.value)
      case Panicked => None
      case Responded(r) => FirstEncodable(env, r, fallback)
      case RespondedNil =>
        FirstEncodable(env, Failure(id, "handler returned nil response and nil error", "transient"), fallback)
      case Errored(msg, code) => FirstEncodable(env, Failure(id, msg, code), fallback)
  }

  function FirstEncodable(env: Env, r: ToolResponse, fallback: ToolResponse): Option<ToolResponse> {
    if env.encodes(r) then Some(r) else if env.encodes(fallback) then Some(fallback) else None
  }

  /** A panic of the callback or of the handler's own publish reaches the recovery. */
  predicate Recovers(env: Env, decoded: Option<ToolRequest>, panics: bool) {
    || (decoded.Some? && env.exec(decoded.value).Panicked?)
    || (panics && Answer(env, decoded).Some?)
  }

  function Recovery(env: Env, decoded: Option<ToolRequest>): Option<ToolResponse> {
    var r := Failure(if decoded.Some? then decoded.value.taskId else "", "agent panic", "transient");
    if env.encodes(r) then Some(r) else None
  }

  function ToSeq(reply: string, r: Option<ToolResponse>): seq<(string, ToolResponse)> {
    if r.Some? then [(reply, r.value)] else []
  }

  /** Every publish attempt one message leads to. */
  function Attempts(env: Env, reply: string, decoded: Option<ToolRequest>, panics: bool): seq<(string, ToolResponse)> {
    if reply == "" then []
    else ToSeq(reply, Answer(env, decoded)) +
         if Recovers(env, decoded, panics) then ToSeq(reply, Recovery(env, decoded)) else []
  }

  /** With a transport that does not panic: one attempt with the intended response, or none without a reply subject. */
  lemma OneIntendedAttempt(env: Env, reply: string, decoded: Option<ToolRequest>)
    requires PlainEncodes(env)
    ensures Attempts(env, reply, decoded, false) == if reply == "" then [] else [(reply, Intended(env, decoded))]
  {
    if decoded.Some? && env.exec(decoded.value).Panicked? {
      assert env.encodes(Failure(decoded.value.taskId, "agent panic", "transient"));
    } else {
      assert Answer(env, decoded) == Some(Intended(env, decoded));
    }
  }

  /** What the requester is told, for every way a message can end. */
  predicate Reported(env: Env, decoded: Option<ToolRequest>, r: ToolResponse) {
    if decoded.None? then r == ToolResponse("", false, "", "agent failed to decode request", "transient")
    else
      var id := decoded.value.taskId;
      match env.exec(decoded.value)
      case Responded(resp) =>
        if env.encodes(resp) then r == resp
        else r == ToolResponse(id, false, "", "agent failed to encode tool response", "transient")
      case RespondedNil => r == ToolResponse(id, false, "", "handler returned nil response and nil error", "transient")
      case Errored(msg, code) => r == ToolResponse(id, false, "", msg, code)
      case Panicked => r == ToolResponse(id, false, "", "agent panic", "transient")
  }

  /** A second publish can only come from recovering a panic of the first. */
  predicate PublishesTwice(env: Env, decoded: Option<ToolRequest>, panics: bool) {
    panics && (decoded.None? || !env.exec(decoded.value).Panicked?)
  }

  /** Runs the callback and picks the response; `panicked` reports a panic on the way. */
  method Respond(env: Env, req: ToolRequest) returns (resp: Option<ToolResponse>, panicked: bool)
    ensures panicked <==> env.exec(req).Panicked?
    ensures resp == Answer(env, Some(req))
    ensures PlainEncodes(env) && !panicked ==> resp == Some(Intended(env, Some(req))) && Reported(env, Some(req), resp.value)
  {
    var outcome := env.exec(req);
    if outcome.Panicked? {
      return None, true;
    }
    var r: ToolResponse;
    match outcome {
      case Errored(msg, code) => r := Failure(req.taskId, msg, code);
      case RespondedNil => r := Failure(req.taskId, "handler returned nil response and nil error", "transient");
      case Responded(resp') => r := resp';
    }
    if !env.encodes(r) {
      r := Failure(req.taskId, "agent failed to encode tool response", "transient");
      if !env.encodes(r) {
        return None, false;
      }
    }
    return Some(r), false;
  }

  /**
    A request with a reply subject gets exactly one publish attempt, carrying the
    intended response, unless Publish itself panics; a request without one gets none.
    `crashed` reports a panic that escapes the recovery.
   */
  method Handle(transport: Transport, env: Env, reply: string, decoded: Option<ToolRequest>) returns (crashed: bool)
    modifies transport
    ensures transport.attempts == old(transport.attempts) + Attempts(env, reply, decoded, transport.panics)
    ensures reply == "" ==> transport.attempts == old(transport.attempts) && !crashed
    ensures PlainEncodes(env) && reply != "" && !PublishesTwice(env, decoded, transport.panics) ==>
              transport.attempts == old(transport.attempts) + [(reply, Intended(env, decoded))]
    ensures PlainEncodes(env) && reply != "" && PublishesTwice(env, decoded, transport.panics) ==>
              |transport.attempts| == |old(transport.attempts)| + 2
    ensures PlainEncodes(env) ==> (crashed <==> reply != "" && transport.panics)
    ensures !transport.panics ==> !crashed && |transport.attempts| <= |old(transport.attempts)| + 1
    // what the requester is told, for every ending
    ensures PlainEncodes(env) && reply != "" && !transport.panics ==>
              |transport.attempts| == |old(transport.attempts)| + 1 &&
              var sent := transport.attempts[|transport.attempts| - 1];
              && sent.0 == reply
              && Reported(env, decoded, sent.1)
  {
    var panicked := false;
    var taskId := "";
    if decoded.None? {
      if reply != "" && env.encodes(DECODE_FAILURE) {
        panicked := transport.Publish(reply, DECODE_FAILURE);
      }
    } else {
      taskId := decoded.value.taskId;
      var resp;
      resp, panicked := Respond(env, decoded.value);
      if !panicked && resp.Some? && reply != "" {
        panicked := transport.Publish(reply, resp.value);
      }
    }
    crashed := false;
    if panicked && reply != "" && env.encodes(Failure(taskId, "agent panic", "transient")) {
      crashed := transport.Publish(reply, Failure(taskId, "agent panic", "transient"));
    }
  }
}

/**
  Every interleaving of message delivery, handler goroutines and the shutdown
  sequence DrainSubs / Stop / Close.

  The subscription callback is one goroutine: it takes a semaphore slot, then
  adds to the wait group and spawns the handler.  A handler makes the publish
  attempts of `Agent.Attempts`, frees its slot, and only then leaves the wait
  group.  Publish returns, with an error once the connection is closed.
 */
module AgentRuns {
  import opened Common
  import opened Dedupe
  import opened Agent

  /** A delivered message: its reply subject, and the request if it decodes. */
  datatype Message = Message(reply: string, decoded: Option<ToolRequest>)

  /** `cap` <= 0 means unbounded.  `inbox` is what each delivery carries. */
  datatype World = World(cap: int, env: Env, inbox: nat -> Message)

  datatype Callback = Idle | Waiting(msg: nat) | Holding(msg: nat)

  /** `late` tells whether the connection was already closed. */
  datatype Attempt = Attempt(msg: nat, reply: string, resp: ToolResponse, late: bool)

  datatype State = State(
    queue: set<nat>, callback: Callback,
    handling: set<nat>, replied: set<nat>, freed: set<nat>, finished: set<nat>,
    slots: nat, wg: nat,
    draining: bool, waited: bool, closed: bool,
    log: seq<Attempt>)

  const INIT: State := State({}, Idle, {}, {}, {}, {}, 0, 0, false, false, false, [])

  datatype Action =
    | Arrive(msg: nat)       // the server delivers; impossible once interest is removed
    | Invoke(msg: nat)       // the client library calls the callback, also while draining
    | TakeSlot
    | Spawn
    | Finish(msg: nat)       // the handler returns, its attempts made
    | FreeSlot(msg: nat)
    | WgDone(msg: nat)
    | DrainSubs
    | StopReturns            // wg.Wait returns within the budget
    | Timeout                // the drain budget elapses first
    | Close

  function InCallback(s: State): set<nat> { if s.callback.Idle? then {} else {s.callback.msg} }

  /** Messages whose handler has returned. */
  function Past(s: State): set<nat> { s.replied + s.freed + s.finished }

  function Known(s: State): set<nat> { s.queue + InCallback(s) + s.handling + Past(s) }

  /** The attempts the handler of a message makes. */
  function Made(w: World, m: nat): seq<(string, ToolResponse)> {
    Attempts(w.env, w.inbox(m).reply, w.inbox(m).decoded, false)
  }

  function Tagged(m: nat, made: seq<(string, ToolResponse)>, late: bool): (log: seq<Attempt>)
    ensures |log| == |made| && forall i | 0 <= i < |log| :: log[i].msg == m && log[i].late == late
  {
    if made == [] then []
    else
      var last := made[|made| - 1];
      Tagged(m, made[..|made| - 1], late) + [Attempt(m, last.0, last.1, late)]
  }

  function Step(w: World, s: State, a: Action): State {
    match a
    case Arrive(m) =>
      if s.draining || m in Known(s) then s else s.(queue := s.queue + {m})
    case Invoke(m) =>
      if s.callback.Idle? && m in s.queue then s.(callback := Waiting(m), queue := s.queue - {m}) else s
    case TakeSlot =>
      if s.callback.Waiting? && (w.cap <= 0 || s.slots < w.cap)
      then s.(callback := Holding(s.callback.msg), slots := s.slots + 1)
      else s
    case Spawn =>
      if s.callback.Holding?
      then s.(callback := Idle, wg := s.wg + 1, handling := s.handling + {s.callback.msg})
      else s
    case Finish(m) =>
      if m in s.handling
      then s.(handling := s.handling - {m}, replied := s.replied + {m}, log := s.log + Tagged(m, Made(w, m), s.closed))
      else s
    case FreeSlot(m) =>
      if m in s.replied && s.slots > 0
      then s.(replied := s.replied - {m}, freed := s.freed + {m}, slots := s.slots - 1)
      else s
    case WgDone(m) =>
      if m in s.freed && s.wg > 0
      then s.(freed := s.freed - {m}, finished := s.finished + {m}, wg := s.wg - 1)
      else s
    case DrainSubs => s.(draining := true)
    case StopReturns => if s.draining && s.wg == 0 then s.(waited := true) else s
    case Timeout => if s.draining then s.(waited := true) else s
    case Close => if s.waited then s.(closed := true) else s
  }

  function Exec(w: World, s: State, run: seq<Action>): State
    decreases |run|
  {
    if run == [] then s else Exec(w, Step(w, s, run[0]), run[1..])
  }

  // ---- What every step keeps ---------------------------------------------

  /** Slots and wait-group counts match the goroutines that exist. */
  ghost predicate Counted(w: World, s: State) {
    && s.slots == |s.handling| + |s.replied| + (if s.callback.Holding? then 1 else 0)
    && (w.cap > 0 ==> s.slots <= w.cap)
    && s.wg == |s.handling| + |s.replied| + |s.freed|
  }

  /** Every message is in one place. */
  ghost predicate Placed(s: State) {
    && (forall m | m in InCallback(s) :: m !in s.queue)
    && (forall m | m in s.handling :: m !in s.queue && m !in InCallback(s))
    && (forall m | m in s.replied :: m !in s.queue && m !in InCallback(s) && m !in s.handling)
    && (forall m | m in s.freed :: m !in s.queue && m !in InCallback(s) && m !in s.handling && m !in s.replied)
    && (forall m | m in s.finished ::
          m !in s.queue && m !in InCallback(s) && m !in s.handling && m !in s.replied && m !in s.freed)
  }

  /** The attempts made for a message, in order. */
  function AttemptsFor(log: seq<Attempt>, m: nat): seq<(string, ToolResponse)> {
    if log == [] then []
    else
      var last := log[|log| - 1];
      AttemptsFor(log[..|log| - 1], m) + if last.msg == m then [(last.reply, last.resp)] else []
  }

  /** A message whose handler has returned has exactly the handler's attempts, any other has none. */
  ghost predicate Logged(w: World, s: State) {
    forall m :: AttemptsFor(s.log, m) == if m in Past(s) then Made(w, m) else []
  }

  ghost predicate Inv(w: World, s: State) { Counted(w, s) && Placed(s) && Logged(w, s) }

  lemma StepKeepsPlaced(w: World, s: State, a: Action)
    requires Placed(s)
    ensures Placed(Step(w, s, a))
  {
  }

  lemma Moved(a: set<nat>, b: set<nat>, m: nat)
    requires m in a && m !in b
    ensures |a - {m}| == |a| - 1 && |b + {m}| == |b| + 1
  {
  }

  lemma SpawnKeepsCounted(w: World, s: State)
    requires Counted(w, s) && s.callback.Holding? && s.callback.msg !in s.handling
    ensures Counted(w, Step(w, s, Spawn))
  {
    Moved({s.callback.msg}, s.handling, s.callback.msg);
  }

  lemma FinishKeepsCounted(w: World, s: State, m: nat)
    requires Counted(w, s) && m in s.handling && m !in s.replied
    ensures Counted(w, Step(w, s, Finish(m)))
  {
    Moved(s.handling, s.replied, m);
  }

  lemma FreeKeepsCounted(w: World, s: State, m: nat)
    requires Counted(w, s) && m in s.replied && m !in s.freed
    ensures Counted(w, Step(w, s, FreeSlot(m)))
  {
    Moved(s.replied, s.freed, m);
  }

  lemma DoneKeepsCounted(w: World, s: State, m: nat)
    requires Counted(w, s) && m in s.freed
    ensures Counted(w, Step(w, s, WgDone(m)))
  {
    Moved(s.freed, s.freed - {m}, m);
  }

  lemma StepKeepsCounted(w: World, s: State, a: Action)
    requires Counted(w, s) && Placed(s)
    ensures Counted(w, Step(w, s, a))
  {
    match a
    case Spawn =>
      if s.callback.Holding? {
        assert s.callback.msg in InCallback(s);
        SpawnKeepsCounted(w, s);
      }
    case Finish(m) =>
      if m in s.handling {
        FinishKeepsCounted(w, s, m);
      }
    case FreeSlot(m) =>
      if m in s.replied {
        FreeKeepsCounted(w, s, m);
      }
    case WgDone(m) =>
      if m in s.freed {
        DoneKeepsCounted(w, s, m);
      }
    case _ =>
  }

  lemma {:induction false} AttemptsForAppend(log: seq<Attempt>, m: nat, made: seq<(string, ToolResponse)>, late: bool, x: nat)
    ensures AttemptsFor(log + Tagged(m, made, late), x) == AttemptsFor(log, x) + if x == m then made else []
    decreases |made|
  {
    if made == [] {
      assert log + Tagged(m, made, late) == log;
    } else {
      var n := |made| - 1;
      var front := log + Tagged(m, made[..n], late);
      var last := Attempt(m, made[n].0, made[n].1, late);
      assert log + Tagged(m, made, late) == front + [last];
      AttemptsForSnoc(front, last, x);
      AttemptsForAppend(log, m, made[..n], late, x);
      assert made == made[..n] + [(last.reply, last.resp)];
      assert AttemptsFor(log, x) + (made[..n] + [made[n]]) == (AttemptsFor(log, x) + made[..n]) + [made[n]];
    }
  }

  lemma AttemptsForSnoc(log: seq<Attempt>, last: Attempt, x: nat)
    ensures AttemptsFor(log + [last], x) == AttemptsFor(log, x) + if last.msg == x then [(last.reply, last.resp)] else []
  {
    assert (log + [last])[..|log|] == log;
  }

  lemma StepKeepsPast(w: World, s: State, a: Action)
    ensures var s' := Step(w, s, a);
            if a.Finish? && a.msg in s.handling then Past(s') == Past(s) + {a.msg}
            else Past(s') == Past(s) && s'.log == s.log
  {
  }

  lemma StepKeepsLogged(w: World, s: State, a: Action)
    requires Logged(w, s) && Placed(s)
    ensures Logged(w, Step(w, s, a))
  {
    StepKeepsPast(w, s, a);
    if a.Finish? && a.msg in s.handling {
      FinishKeepsLogged(w, s, Step(w, s, a), a.msg);
    }
  }

  /** The attempts of one message, across the return of a handler. */
  lemma FinishLogsOne(w: World, log: seq<Attempt>, past: set<nat>, m: nat, late: bool, x: nat)
    requires AttemptsFor(log, x) == (if x in past then Made(w, x) else []) && m !in past
    ensures AttemptsFor(log + Tagged(m, Made(w, m), late), x) == if x in past + {m} then Made(w, x) else []
  {
    AttemptsForAppend(log, m, Made(w, m), late, x);
    if x == m {
      assert [] + Made(w, m) == Made(w, m);
    }
  }

  lemma FinishKeepsLogged(w: World, s: State, s': State, m: nat)
    requires Logged(w, s) && m !in Past(s)
    requires s'.log == s.log + Tagged(m, Made(w, m), s.closed) && Past(s') == Past(s) + {m}
    ensures Logged(w, s')
  {
    forall x ensures AttemptsFor(s'.log, x) == if x in Past(s') then Made(w, x) else [] {
      FinishLogsOne(w, s.log, Past(s), m, s.closed, x);
    }
  }

  lemma StepKeepsInv(w: World, s: State, a: Action)
    requires Inv(w, s)
    ensures Inv(w, Step(w, s, a))
  {
    StepKeepsPlaced(w, s, a);
    StepKeepsCounted(w, s, a);
    StepKeepsLogged(w, s, a);
  }

  /**
    In every interleaving the handlers holding a slot never exceed the cap, and the
    attempts made so far for a message are exactly those of its handler once the
    handler has returned, and none before.
   */
  lemma {:induction false} EveryStateIsSound(w: World, s: State, run: seq<Action>)
    requires Inv(w, s)
    ensures Inv(w, Exec(w, s, run))
    ensures w.cap > 0 ==> |Exec(w, s, run).handling| + |Exec(w, s, run).replied| <= w.cap
    decreases |run|
  {
    if run != [] {
      StepKeepsInv(w, s, run[0]);
      EveryStateIsSound(w, Step(w, s, run[0]), run[1..]);
    }
  }

  /**
    What the requester sees, in every state of every run: a request with a reply
    subject whose handler has returned was answered exactly once, with the intended
    response; one without a reply subject, or still on its way, not at all.
   */
  lemma AnsweredExactlyOnce(w: World, run: seq<Action>, m: nat)
    requires PlainEncodes(w.env)
    ensures var s, msg := Exec(w, INIT, run), w.inbox(m);
            AttemptsFor(s.log, m)
            == if m in Past(s) && msg.reply != "" then [(msg.reply, Intended(w.env, msg.decoded))] else []
  {
    EveryStateIsSound(w, INIT, run);
    OneIntendedAttempt(w.env, w.inbox(m).reply, w.inbox(m).decoded);
  }

  /** A failed call is reported as failed, under its own task id, in every state of every run. */
  lemma FailuresAreReported(w: World, run: seq<Action>, m: nat)
    requires PlainEncodes(w.env) && m in Past(Exec(w, INIT, run)) && w.inbox(m).reply != ""
    ensures var told, msg := AttemptsFor(Exec(w, INIT, run).log, m), w.inbox(m);
            && |told| == 1 && told[0].0 == msg.reply && Reported(w.env, msg.decoded, told[0].1)
            && (msg.decoded.Some? && !w.env.exec(msg.decoded.value).Responded? ==>
                  !told[0].1.success && told[0].1.taskId == msg.decoded.value.taskId && told[0].1.result == "")
            && (msg.decoded.None? ==> !told[0].1.success)
  {
    AnsweredExactlyOnce(w, run, m);
  }

  // ---- Shutdown -----------------------------------------------------------

  /** The handler of the message will publish something. */
  predicate Replies(w: World, m: nat) { Made(w, m) != [] }

  /** No message that will be answered is on its way to becoming a handler. */
  ghost predicate Quiet(w: World, s: State) { forall m | m in s.queue || m in InCallback(s) :: !Replies(w, m) }

  /** Whenever subscriptions are drained, nothing that needs an answer is still on its way. */
  ghost predicate QuietDrain(w: World, s: State, run: seq<Action>)
    decreases |run|
  {
    run != [] ==>
      && (run[0].DrainSubs? ==> Quiet(w, s))
      && QuietDrain(w, Step(w, s, run[0]), run[1..])
  }

  ghost predicate NoneLate(s: State) { forall i | 0 <= i < |s.log| :: !s.log[i].late }

  /** No handler that is still running will publish. */
  ghost predicate Spent(w: World, s: State) { forall m | m in s.handling :: !Replies(w, m) }

  /** The wait group emptied before the connection was closed, and no publisher can join it again. */
  ghost predicate Orderly(w: World, s: State) {
    && NoneLate(s)
    && (s.draining ==> Quiet(w, s))
    && (s.waited ==> s.draining && Spent(w, s))
    && (s.closed ==> s.waited)
  }

  lemma StepKeepsNoneLate(w: World, s: State, a: Action)
    requires NoneLate(s) && (s.closed ==> Spent(w, s))
    ensures NoneLate(Step(w, s, a))
  {
    if a.Finish? && a.msg in s.handling {
      assert s.closed ==> !Replies(w, a.msg);
    }
  }

  /** What is on its way after a step was on its way before, or has just arrived. */
  lemma PendingStep(w: World, s: State, a: Action, m: nat)
    ensures var s' := Step(w, s, a);
            (m in s'.queue || m in InCallback(s')) && !(a == Arrive(m) && !s.draining) ==> m in s.queue || m in InCallback(s)
    ensures m in Step(w, s, a).handling ==> m in s.handling || m in InCallback(s)
  {
  }

  lemma QuietAfter(w: World, s: State, a: Action)
    requires (s.draining || a.DrainSubs?) ==> Quiet(w, s)
    ensures Step(w, s, a).draining ==> Quiet(w, Step(w, s, a))
  {
    var s' := Step(w, s, a);
    if s'.draining {
      forall m | m in s'.queue || m in InCallback(s') ensures !Replies(w, m) {
        PendingStep(w, s, a, m);
      }
    }
  }

  lemma SpentAfter(w: World, s: State, a: Action)
    requires Counted(w, s) && (s.draining ==> Quiet(w, s)) && (s.waited ==> s.draining && Spent(w, s)) && !a.Timeout?
    ensures Step(w, s, a).waited ==> Step(w, s, a).draining && Spent(w, Step(w, s, a))
  {
    var s' := Step(w, s, a);
    if s'.waited {
      if !s.waited {
        assert s.handling == {};
      }
      forall m | m in s'.handling ensures !Replies(w, m) {
        PendingStep(w, s, a, m);
      }
    }
  }

  lemma OrderlyStep(w: World, s: State, a: Action)
    requires Counted(w, s) && Orderly(w, s) && !a.Timeout? && (a.DrainSubs? ==> Quiet(w, s))
    ensures Orderly(w, Step(w, s, a))
  {
    StepKeepsNoneLate(w, s, a);
    QuietAfter(w, s, a);
    SpentAfter(w, s, a);
  }

  /**
    If handlers finish within the budget and nothing that needs an answer is on its
    way when the subscriptions are drained, every publish attempt precedes Close.
   */
  lemma {:induction false} RepliesPrecedeClose(w: World, s: State, run: seq<Action>)
    requires Inv(w, s) && Orderly(w, s)
    requires QuietDrain(w, s, run) && forall a | a in run :: !a.Timeout?
    ensures NoneLate(Exec(w, s, run))
    decreases |run|
  {
    if run != [] {
      assert run[0] in run;
      OrderlyStep(w, s, run[0]);
      StepKeepsInv(w, s, run[0]);
      RepliesPrecedeClose(w, Step(w, s, run[0]), run[1..]);
    }
  }

  lemma ExecCons(w: World, s: State, a: Action, rest: seq<Action>)
    ensures Exec(w, s, [a] + rest) == Exec(w, Step(w, s, a), rest)
  {
    assert ([a] + rest)[1..] == rest;
  }

  lemma QuietStep(w: World, s: State, a: Action)
    requires s.draining && Quiet(w, s) && Spent(w, s)
    ensures var s' := Step(w, s, a); s'.draining && Quiet(w, s') && Spent(w, s') && s'.log == s.log
  {
    var s' := Step(w, s, a);
    QuietAfter(w, s, a);
    forall m | m in s'.handling ensures !Replies(w, m) {
      PendingStep(w, s, a, m);
    }
    if a.Finish? && a.msg in s.handling {
      assert s.log + [] == s.log;
    }
  }

  /** With nothing to answer on its way and no publisher left, no publish happens any more. */
  lemma {:induction false} SilentForGood(w: World, s: State, run: seq<Action>)
    requires s.draining && Quiet(w, s) && Spent(w, s)
    ensures Exec(w, s, run).log == s.log
    decreases |run|
  {
    if run != [] {
      QuietStep(w, s, run[0]);
      SilentForGood(w, Step(w, s, run[0]), run[1..]);
    }
  }

  /** The callback's own message becomes a handler, returns and frees its slot. */
  lemma CallbackClears(w: World, s: State, rest: seq<Action>) returns (run: seq<Action>, s': State)
    requires !s.callback.Idle? && s.handling == {} && s.replied == {}
    requires s.slots == if s.callback.Holding? then 1 else 0
    ensures s'.closed == s.closed && s'.queue == s.queue && s'.callback.Idle? && s'.slots == 0
    ensures Exec(w, s, run + rest) == Exec(w, s', rest)
  {
    var c := s.callback.msg;
    var s1 := Step(w, s, TakeSlot);
    var s2 := Step(w, s1, Spawn);
    var s3 := Step(w, s2, Finish(c));
    s' := Step(w, s3, FreeSlot(c));
    assert s1.callback == Holding(c) && s1.slots == 1 && s1.handling == {};
    assert s2.callback.Idle? && s2.slots == 1 && c in s2.handling;
    assert s3.callback.Idle? && s3.slots == 1 && c in s3.replied;
    run := [TakeSlot, Spawn, Finish(c), FreeSlot(c)];
    ExecFour(w, s, TakeSlot, Spawn, Finish(c), FreeSlot(c), rest);
  }

  lemma ExecFour(w: World, s: State, a: Action, b: Action, c: Action, d: Action, rest: seq<Action>)
    ensures Exec(w, s, [a, b, c, d] + rest) == Exec(w, Step(w, Step(w, Step(w, Step(w, s, a), b), c), d), rest)
  {
    assert [a, b, c, d] + rest == [a] + ([b] + ([c] + ([d] + rest)));
    var s1 := Step(w, s, a);
    var s2 := Step(w, s1, b);
    var s3 := Step(w, s2, c);
    ExecCons(w, s, a, [b] + ([c] + ([d] + rest)));
    ExecCons(w, s1, b, [c] + ([d] + rest));
    ExecCons(w, s2, c, [d] + rest);
    ExecCons(w, s3, d, rest);
  }

  /** A message in the callback with a slot to take is answered from there on. */
  lemma CallbackPublishes(w: World, s: State, m: nat)
    requires s.closed && !s.callback.Idle? && s.callback.msg == m && Replies(w, m)
    requires s.callback.Waiting? ==> w.cap <= 0 || s.slots < w.cap
    ensures !NoneLate(Exec(w, s, [TakeSlot] + ([Spawn] + ([Finish(m)] + []))))
  {
    var s1 := Step(w, s, TakeSlot);
    var s2 := Step(w, s1, Spawn);
    var s3 := Step(w, s2, Finish(m));
    ExecCons(w, s, TakeSlot, [Spawn] + ([Finish(m)] + []));
    ExecCons(w, s1, Spawn, [Finish(m)] + []);
    ExecCons(w, s2, Finish(m), []);
    assert s3.log[|s2.log|] == Tagged(m, Made(w, m), true)[0];
  }

  /** A message to be answered that is still on its way after Close is answered late. */
  lemma LateReply(w: World, s: State, m: nat) returns (run: seq<Action>)
    requires Counted(w, s) && s.closed && s.handling == {} && s.replied == {}
    requires Replies(w, m) && (m in s.queue || m in InCallback(s))
    ensures !NoneLate(Exec(w, s, run))
  {
    var publish := [TakeSlot] + ([Spawn] + ([Finish(m)] + []));
    if m in InCallback(s) {
      CallbackPublishes(w, s, m);
      return publish;
    }
    var later := [Invoke(m)] + publish;
    var s1 := s;
    run := later;
    if !s.callback.Idle? {
      var clear;
      clear, s1 := CallbackClears(w, s, later);
      run := clear + later;
    }
    ExecCons(w, s1, Invoke(m), publish);
    CallbackPublishes(w, Step(w, s1, Invoke(m)), m);
  }

  lemma PendingMeansLate(w: World, s: State, m: nat) returns (run: seq<Action>)
    requires Counted(w, s) && s.draining && s.wg == 0 && Replies(w, m) && (m in s.queue || m in InCallback(s))
    ensures !NoneLate(Exec(w, s, [StopReturns] + ([Close] + run)))
  {
    assert s.handling == {} && s.replied == {};
    var s1 := Step(w, s, StopReturns);
    var s2 := Step(w, s1, Close);
    run := LateReply(w, s2, m);
    ExecCons(w, s, StopReturns, [Close] + run);
    ExecCons(w, s1, Close, run);
  }

  /**
    The delivery hypothesis is exact: when the wait group is empty and Close
    follows, no reply is ever late if and only if no message to be answered is
    queued or held in the subscription callback at that moment.
   */
  lemma NoLateReplyIff(w: World, s: State)
    requires Inv(w, s) && s.draining && s.wg == 0 && !s.closed && NoneLate(s)
    ensures (forall run :: NoneLate(Exec(w, s, [StopReturns] + ([Close] + run)))) <==> Quiet(w, s)
  {
    if Quiet(w, s) {
      assert s.handling == {};
      forall run ensures NoneLate(Exec(w, s, [StopReturns] + ([Close] + run))) {
        SilentForGood(w, s, [StopReturns] + ([Close] + run));
      }
    } else {
      var m :| (m in s.queue || m in InCallback(s)) && Replies(w, m);
      var run := PendingMeansLate(w, s, m);
    }
  }

  // ---- When the budget runs out -------------------------------------------

  /** Running handlers return and free their slots; nothing else moves. */
  lemma {:induction false} HandlersLeave(w: World, s: State) returns (run: seq<Action>, s': State)
    requires Inv(w, s)
    ensures Exec(w, s, run) == s' && Inv(w, s') && s'.handling == {} && s'.replied == {}
    ensures s'.queue == s.queue && s'.callback == s.callback && s'.closed == s.closed
    decreases 2 * |s.handling| + |s.replied|
  {
    if s.handling != {} {
      var m :| m in s.handling;
      FinishKeepsInv(w, s, m);
      var more;
      more, s' := HandlersLeave(w, Step(w, s, Finish(m)));
      run := [Finish(m)] + more;
      ExecCons(w, s, Finish(m), more);
    } else if s.replied != {} {
      var m :| m in s.replied;
      FreeKeepsInv(w, s, m);
      var more;
      more, s' := HandlersLeave(w, Step(w, s, FreeSlot(m)));
      run := [FreeSlot(m)] + more;
      ExecCons(w, s, FreeSlot(m), more);
    } else {
      run, s' := [], s;
    }
  }

  lemma FinishKeepsInv(w: World, s: State, m: nat)
    requires Inv(w, s) && m in s.handling
    ensures var s' := Step(w, s, Finish(m));
            Inv(w, s') && |s'.handling| == |s.handling| - 1 && |s'.replied| == |s.replied| + 1
  {
    StepKeepsInv(w, s, Finish(m));
    assert m !in s.replied;
    Moved(s.handling, s.replied, m);
  }

  lemma FreeKeepsInv(w: World, s: State, m: nat)
    requires Inv(w, s) && m in s.replied
    ensures var s' := Step(w, s, FreeSlot(m));
            Inv(w, s') && s'.handling == s.handling && |s'.replied| == |s.replied| - 1
  {
    StepKeepsInv(w, s, FreeSlot(m));
    assert |s.replied| > 0;
    Moved(s.replied, s.replied - {m}, m);
  }

  lemma {:induction false} ExecAppend(w: World, s: State, a: seq<Action>, b: seq<Action>)
    ensures Exec(w, s, a + b) == Exec(w, Exec(w, s, a), b)
    decreases |a|
  {
    if a == [] {
      assert a + b == b;
    } else {
      assert (a + b)[1..] == a[1..] + b;
      ExecAppend(w, Step(w, s, a[0]), a[1..], b);
    }
  }

  lemma RunningMeansLate(w: World, s: State, m: nat)
    requires s.closed && m in s.handling && Replies(w, m)
    ensures !NoneLate(Exec(w, s, [Finish(m)] + []))
  {
    ExecCons(w, s, Finish(m), []);
    var s' := Step(w, s, Finish(m));
    assert s'.log[|s.log|] == Tagged(m, Made(w, m), true)[0];
  }

  lemma WaitingMeansLate(w: World, s: State, m: nat) returns (run: seq<Action>)
    requires Inv(w, s) && s.closed && Replies(w, m) && (m in s.queue || m in InCallback(s))
    ensures !NoneLate(Exec(w, s, run))
  {
    var leave, s' := HandlersLeave(w, s);
    var late := LateReply(w, s', m);
    ExecAppend(w, s, leave, late);
    run := leave + late;
  }

  lemma UnansweredMeansLate(w: World, s: State, m: nat) returns (run: seq<Action>)
    requires Inv(w, s) && s.closed && Replies(w, m) && (m in s.handling || m in s.queue || m in InCallback(s))
    ensures !NoneLate(Exec(w, s, run))
  {
    if m in s.handling {
      run := [Finish(m)] + [];
      RunningMeansLate(w, s, m);
    } else {
      run := WaitingMeansLate(w, s, m);
    }
  }

  lemma ClosingKeepsInv(w: World, s: State)
    requires Inv(w, s)
    ensures Inv(w, s.(waited := true, closed := true))
  {
    var s' := s.(waited := true, closed := true);
    assert Past(s') == Past(s) && InCallback(s') == InCallback(s);
  }

  lemma ExecTwo(w: World, s: State, a: Action, b: Action, rest: seq<Action>)
    ensures Exec(w, s, [a] + ([b] + rest)) == Exec(w, Step(w, Step(w, s, a), b), rest)
  {
    ExecCons(w, s, a, [b] + rest);
    ExecCons(w, Step(w, s, a), b, rest);
  }

  lemma TimeoutThenClose(w: World, s: State)
    requires s.draining
    ensures Step(w, Step(w, s, Timeout), Close) == s.(waited := true, closed := true)
  {
  }

  lemma ClosedMeansLate(w: World, s: State, m: nat) returns (run: seq<Action>)
    requires Inv(w, s) && Replies(w, m) && (m in s.handling || m in s.queue || m in InCallback(s))
    ensures !NoneLate(Exec(w, s.(waited := true, closed := true), run))
  {
    ClosingKeepsInv(w, s);
    run := UnansweredMeansLate(w, s.(waited := true, closed := true), m);
  }

  lemma TimeoutMeansLate(w: World, s: State, m: nat) returns (run: seq<Action>)
    requires Inv(w, s) && s.draining && Replies(w, m) && (m in s.handling || m in s.queue || m in InCallback(s))
    ensures !NoneLate(Exec(w, s, [Timeout] + ([Close] + run)))
  {
    run := ClosedMeansLate(w, s, m);
    ExecTwo(w, s, Timeout, Close, run);
    TimeoutThenClose(w, s);
  }

  /**
    When the drain budget runs out and Close follows anyway, no reply is ever late
    if and only if no handler still to publish is running and no message to be
    answered is on its way.
   */
  lemma TimeoutIsHarmlessIff(w: World, s: State)
    requires Inv(w, s) && s.draining && !s.closed && NoneLate(s)
    ensures (forall run :: NoneLate(Exec(w, s, [Timeout] + ([Close] + run)))) <==> Quiet(w, s) && Spent(w, s)
  {
    if Quiet(w, s) && Spent(w, s) {
      forall run ensures NoneLate(Exec(w, s, [Timeout] + ([Close] + run))) {
        SilentForGood(w, s, [Timeout] + ([Close] + run));
      }
    } else {
      var m :| (m in s.handling || m in s.queue || m in InCallback(s)) && Replies(w, m);
      var run := TimeoutMeansLate(w, s, m);
    }
  }

  /**
    The failing case is reachable whenever the second message is to be answered:
    with the only slot taken, a callback blocked on the semaphore holds a message
    that the wait group does not count, and the wait group empties as soon as the
    running handler leaves.
   */
  lemma BlockedCallbackIsUncounted(w: World) returns (run: seq<Action>)
    requires w.cap == 1 && Replies(w, 1)
    ensures var s := Exec(w, INIT, run);
            Inv(w, s) && s.draining && s.wg == 0 && !s.closed && NoneLate(s) && !Quiet(w, s)
  {
    var second := [Invoke(1), DrainSubs, Finish(0), FreeSlot(0), WgDone(0)] + [];
    run := [Arrive(0), Invoke(0), TakeSlot, Spawn, Arrive(1)] + second;
    SlotTaken(w, second);
    HandlerLeaves(w);
    EveryStateIsSound(w, INIT, run);
  }

  /** One message holds the only slot and a second one is queued. */
  const BUSY: State := State({1}, Idle, {0}, {}, {}, {}, 1, 1, false, false, false, [])

  lemma SlotTaken(w: World, rest: seq<Action>)
    requires w.cap == 1
    ensures Exec(w, INIT, [Arrive(0), Invoke(0), TakeSlot, Spawn, Arrive(1)] + rest) == Exec(w, BUSY, rest)
  {
    ExecFive(w, INIT, Arrive(0), Invoke(0), TakeSlot, Spawn, Arrive(1), rest);
    assert Step(w, Step(w, Step(w, Step(w, Step(w, INIT, Arrive(0)), Invoke(0)), TakeSlot), Spawn), Arrive(1)) == BUSY;
  }

  lemma HandlerLeaves(w: World)
    requires w.cap == 1
    ensures Exec(w, BUSY, [Invoke(1), DrainSubs, Finish(0), FreeSlot(0), WgDone(0)] + [])
            == State({}, Waiting(1), {}, {}, {}, {0}, 0, 0, true, false, false, [] + Tagged(0, Made(w, 0), false))
  {
    ExecFive(w, BUSY, Invoke(1), DrainSubs, Finish(0), FreeSlot(0), WgDone(0), []);
  }

  lemma ExecFive(w: World, s: State, a: Action, b: Action, c: Action, d: Action, e: Action, rest: seq<Action>)
    ensures Exec(w, s, [a, b, c, d, e] + rest)
            == Exec(w, Step(w, Step(w, Step(w, Step(w, Step(w, s, a), b), c), d), e), rest)
  {
    assert [a, b, c, d, e] + rest == [a] + ([b] + ([c] + ([d] + ([e] + rest))));
    var s1 := Step(w, s, a);
    var s2 := Step(w, s1, b);
    var s3 := Step(w, s2, c);
    var s4 := Step(w, s3, d);
    ExecCons(w, s, a, [b] + ([c] + ([d] + ([e] + rest))));
    ExecCons(w, s1, b, [c] + ([d] + ([e] + rest)));
    ExecCons(w, s2, c, [d] + ([e] + rest));
    ExecCons(w, s3, d, [e] + rest);
    ExecCons(w, s4, e, rest);
  }
}
