# OneVoice core protocols in Dafny

A model of the shared Go packages of OneVoice, with proofs over whole runs: the
approval pipeline that must not execute an approved action twice, the limiters
built on expiring Redis counters, the provider selector, the agent runtime, and
the envelope encryption.

Conventions used throughout:

- Times are integers (milliseconds unless a comment says otherwise). An entry
  with a deadline is gone for every command issued at or after the deadline.
- Redis commands, Lua scripts, MULTI blocks and single-document Mongo updates are
  atomic steps. Redis and Mongo are reachable; driver errors are not modelled.
- The sequential code is classes and methods; a protocol is a state machine
  `Step`/`Exec` whose action sequences are arbitrary interleavings. Both are tied
  to the same functions: the dedupe, SSE, batch and token-cache methods name the
  slot, document and cache functions the runs step with; `CheckIsStep` makes a
  limiter check one step of the limiter runs; `AnsweredChatIsTwoSteps` makes an
  answered chat call a request and a success of the month runs; the agent runs
  append what `Attempts` says `Handle` publishes. A lemma about `Exec(s, run)` for
  every `run` speaks about every reachable state, since every prefix of a run is a
  run. Methods that make several commands take what others do in the gaps
  (`between`, `during`) as a parameter.
- Contracts of the operations spell out what a caller sees (texts, codes, caps,
  TTLs, byte order) beside the functions the runs share, so that the answers do not
  rest on those functions alone.
- Clocks, randomness, JSON, AES-GCM and provider replies are parameters, with the
  laws they need stated as hypotheses (`Lawful`, `PlainEncodes`, `Ideal`).
- Hypotheses about timing are named predicates, each with the exact condition
  under which the protocol needs it: `Timely` for dedupe (`SecondExecutionIff`,
  `ReleaseFreesSuccessorIff`), `Timely` for the SSE counter (`CapExceededIff`,
  `RollbackKeepsExactIff`), `QuietDrain` for shutdown (`NoLateReplyIff`).
  `InMonth` confines a run to one month's counter.

## Where code and documentation part

- `Release` is documented as never touching a successor's claim
  (pkg/hitldedupe/dedupe.go:154-157). Every claim stores the same word. While
  executions end before their sentinels lapse, every release removes exactly the
  releaser's own (`TimelyReleasesAreOwn`); a release deletes a successor's claim
  exactly when its caller has outlived its own sentinel
  (`ReleaseFreesSuccessorIff`), and from then on the release of a call that is
  itself in time can delete a third call's claim (`LateReleaseCascades`).
- `Invalidate` is documented as making a subsequent GetToken fetch again
  (pkg/tokenclient/client.go:158-159). The lock is not held during the fetch
  (pkg/tokenclient/client.go:104-146), so a fetch that was answered before the
  revoke and stores after it brings the revoked token back for a full TTL
  (`RevokedTokenComesBack`), exactly when it was in flight at that moment
  (`ServedAfterRevokeIff`).
- `Stop` is documented as safe between DrainSubs and Close
  (pkg/a2a/agent.go:249-252). A subscription callback blocked on the semaphore is
  not counted by the wait group, and draining keeps invoking the callback for
  queued messages (pkg/a2a/nats_transport.go:66-68): `BlockedCallbackIsUncounted`
  reaches that state, `NoLateReplyIff` says when replies can be late.
- The last-owner guard locks membership rows only (pkg/authz/invariants.go:81), so
  a deletion request can land between its snapshot and the change; when that leaves
  no owner is `StampDuringChangeIff`.
- The size gate is documented as rejecting only what could never pass
  (pkg/llm/ratelimit.go:240-244), which holds (`OversizeIsAlwaysDenied`); but it
  also skips the repair of a counter without a deadline, which changes a later
  verdict of some run exactly when such a counter is stored (`GateIsNeutralIff`);
  when month counters are only used inside their month, only minute counters
  matter (`GateIsNeutralInCalendarIff`).
- The fake key service accepts associated data of 65534 and 65535 bytes that it
  cannot read back (`RoundTripIff`, `RowSurvivesRotationIff`).
- The over-cap rollback of the SSE counter is a plain DECR, unlike the release
  script (pkg/ssecounter/counter.go:123, 140-163). It is harmless exactly while the
  key is alive (`RollbackKeepsExactIff`); after that every cap admits one stream too
  many in a later burst (`LateRollbackWeakensCap`).
- Re-registering a provider is documented as keeping the same pointer
  (pkg/llm/registry.go:53-56); the code stores the new one in the slot
  (pkg/llm/registry.go:64), which is what `RegisterModelProvider` states.
- docs/pkg/llm.md:187-188 says a call without a user skips the limiter; the code
  skips it only when the business is missing too (pkg/llm/router.go:138-140), so
  such a call still meets the daily-spend gate. `CheckRateLimit` follows the code.
- The state diagram of docs/pkg/hitlstore.md:18-30 has no `resuming` state and no
  way back from `resolving`; the model has both, as the code does.

## Model

| member | source | states |
|---|---|---|
| Keys.SameTextIff | pkg/hitldedupe/dedupe.go:89-91 | two colon-joined pairs print the same text exactly when equal or when one first field continues the other past a colon |
| Dedupe.KeyForCollidesIff | pkg/hitldedupe/dedupe.go:89-91 | exactly which two approvals share a dedupe key |
| Dedupe.KeyForInjective | pkg/hitldedupe/dedupe.go:87-91 | colon-free business ids never share a dedupe key |
| Dedupe.DedupeClient.Claim | pkg/hitldedupe/dedupe.go:105-128 | the empty approval bypasses Redis; a free key is claimed for 300 s; otherwise the verdict of the later GET on whatever other processes left: in flight for a live sentinel, the stored text for a live result, an empty duplicate for a vanished key; only a win writes |
| Dedupe.DedupeClient.Store | pkg/hitldedupe/dedupe.go:136-146 | the encoded response replaces the key for 24 h and touches no other |
| Dedupe.DedupeClient.Release | pkg/hitldedupe/dedupe.go:48-61 | the key is deleted exactly when it is live and holds the sentinel; nothing else changes |
| Dedupe.Dispatcher.DedupeGate | pkg/agentbase/dispatcher.go:87-117 | stops a call exactly when its claim lost, with the in-flight, cached or unavailable reply |
| Dedupe.Dispatcher.DedupeStore | pkg/agentbase/dispatcher.go:127-142 | stores a clean response, releases on error or nil response |
| Dedupe.Dispatcher.Dispatch | pkg/agentbase/dispatcher.go:60-117 | executes exactly when ungated or the claim won; response and error of the callback both pass through; a stopped call answers "already in flight" with code transient beside a live sentinel, the stored response with its own id, or "cached result unavailable"; success leaves the response for 24 h; failure leaves no sentinel, whatever others did meanwhile |
| DedupeRuns.AtMostOneInFlight | pkg/hitldedupe/dedupe.go:105-169 | in every interleaving in which executions end before their sentinel lapses, at most one execution is in flight and it owns the key |
| DedupeRuns.SecondExecutionIff | pkg/hitldedupe/dedupe.go:28-41 | a newcomer executes beside a running call if and only if the running call outlived its sentinel |
| DedupeRuns.TimelyReleasesAreOwn | pkg/hitldedupe/dedupe.go:148-169 | in every timely interleaving every release removes exactly the releaser's own live sentinel |
| DedupeRuns.ReleaseFreesSuccessorIff | pkg/hitldedupe/dedupe.go:154-157 | a release leaves a successor executing without a sentinel if and only if the releaser has outlived its own |
| DedupeRuns.LateReleaseFreesSuccessor | pkg/hitldedupe/dedupe.go:148-169 | a third call then executes beside an in-time successor, under exactly the same condition |
| DedupeRuns.LateReleaseCascades | pkg/hitldedupe/dedupe.go:148-169 | and the in-time successor's own release deletes the third call's live sentinel |
| DedupeRuns.ReadDuringExecution | pkg/hitldedupe/dedupe.go:105-128 | in every timely run, a call that lost its claim and reads while another executes is answered as in flight |
| DedupeRuns.NewcomerIsInFlight | pkg/hitldedupe/dedupe.go:28-46 | so is any newcomer that arrives and reads within the 300 s of the running call |
| DedupeRuns.StoredResultUntouched | pkg/hitldedupe/dedupe.go:48-61 | no claim, read, release or crash, however late, alters a stored result before it lapses |
| DedupeRuns.NothingRunsWhileStored | pkg/hitldedupe/dedupe.go:130-146 | while a result is held nothing executes and every later call is answered with it |
| DedupeRuns.StoreEndsExecution | pkg/agentbase/dispatcher.go:57-142 | in a timely run, for 24 h after a store no call executes and all arriving calls get that response |
| RateLimit.ExceedsAloneLoop | pkg/llm/ratelimit.go:350-357 | true exactly when some enabled cap is below the request's own total |
| RateLimit.RateLimiter.ReserveScript | pkg/llm/ratelimit.go:55-79 | admits exactly when every bucket fits; every bucket's counter ends repaired and, if admitted, charged; no other key moves; reports exactly the repaired buckets |
| RateLimit.RowsOf | pkg/llm/ratelimit.go:301-323 | the rows of a request: one call per minute, variable tokens with the stable ones reserved per minute, the whole estimate per month, each only when enabled |
| RateLimit.RateLimiter.ReserveCharge | pkg/llm/ratelimit.go:301-343 | the script over exactly those rows: admitted exactly when every enabled counter has room; missing counters start with the request's amount and lifetime |
| RateLimit.RateLimiter.CheckLimit | pkg/llm/ratelimit.go:265-299 | unknown and unlimited tiers; a spend at or above the daily cap is refused, one clearly below is not, a failed reading is unavailable, no reading or no business is not gated; then allowed exactly when no token cap is below the estimate and every counter has room; only the reservation touches a counter |
| RateLimit.RateLimiter.RecordTokens | pkg/llm/ratelimit.go:376-395 | adds a positive delta to the month counter alone, keeping a live deadline |
| RateLimitRuns.SettledIsReserve | pkg/llm/ratelimit.go:55-79 | the script's contract determines the store it leaves |
| RateLimitRuns.CheckIsStep | pkg/llm/ratelimit.go:291-298 | a real user's check past the spend gate is one step of the run model |
| RateLimitRuns.CounterStep | pkg/llm/ratelimit.go:56-77 | any step charges a user's minute counter within the cap, re-stamps it, or leaves it |
| RateLimitRuns.TwiceTheCap | pkg/llm/ratelimit.go:27-79 | in every run and every half-open minute a user on one tier gets at most twice the tier's requests and variable tokens, also when counters lose their deadline |
| RateLimitGate.AllOrNothing | pkg/llm/ratelimit.go:55-79 | admitted adds exactly its increment to every enabled counter, denied adds nothing, live deadlines never move, surviving counters carry one; a TTL of zero makes exactly the counters without a live deadline vanish |
| RateLimitGate.MinuteCountersWithinCaps | pkg/llm/ratelimit.go:65-77 | in every reachable store a minute counter is at most its cap |
| RateLimitGate.OversizeIsAlwaysDenied | pkg/llm/ratelimit.go:345-357 | a request the size gate rejects is denied by the script in every non-negative store |
| RateLimitGate.GateChangesStoreIff | pkg/llm/ratelimit.go:291-293 | the gate never changes a verdict, and changes the store exactly when it skips a repair |
| RateLimitGate.GateChangesNoVerdict | pkg/llm/ratelimit.go:291-298 | over every run without lost deadlines the gate changes no verdict |
| RateLimitGate.GateCanDelayRepair | pkg/llm/ratelimit.go:240-247 | from every store with a counter that lost its deadline, of any kind, a run of three calls of one tier is judged differently with and without the gate |
| RateLimitGate.GateIsNeutralIff | pkg/llm/ratelimit.go:291-298 | the gate changes no verdict of any run if and only if every stored counter has a deadline |
| RateLimitGate.GateIsNeutralInCalendarIff | pkg/llm/ratelimit.go:302-314 | when month counters are used and stamped only inside their month, if and only if every minute counter has one |
| Router.Router.CheckRateLimit | pkg/llm/router.go:134-149 | an unattributed call is not gated; any other is one limiter check, on the free tier when none is given |
| Router.Router.ReconcileTokens | pkg/llm/router.go:167-182 | schedules exactly the usage above the estimate, all token classes counted |
| Router.Router.Chat | pkg/llm/router.go:206-262 | reply by reply: a success answers, a permanent failure returns at once, a transient or nil one reaches the second candidate and no third; which error surfaces; one reconcile per answered call |
| MonthBudget.AnsweredChatIsTwoSteps | pkg/llm/router.go:167-262 | an answered chat call leaves the store of a request and a success step, and schedules exactly what that call owes |
| MonthBudget.DeniedChatIsOneStep | pkg/llm/router.go:134-149 | a denied one is a request step that admits nothing |
| MonthBudget.RunKeepsBalance | pkg/llm/ratelimit.go:301-343 | in every run the month counter is its start plus what every admitted call has been charged |
| MonthBudget.BudgetTracksUsage | pkg/llm/router.go:151-182 | once reconciles have landed the counter grew by the larger of estimate and usage per successful blocking call and by the estimate of every other admitted call |
| BatchStore.SweepTwice | pkg/hitlstore/pending_tool_call.go:509-542 | both UpdateMany calls take every document through both updates, with what others write in between, and the count is what each of them modified |
| BatchStore.Sweep | pkg/hitlstore/pending_tool_call.go:467-481 | an UpdateMany applies its update to every matching document and no other, and counts the modified ones |
| BatchStore.Repository.Persist | pkg/hitlstore/pending_tool_call.go:87-122 | identity guard, staging and promotion; undisturbed, the batch as given, pending for 24 h; fails exactly when another process took the batch out of preparing |
| BatchStore.Repository.GetByBatchID | pkg/hitlstore/pending_tool_call.go:133-160 | exactly the overdue pending, resolving and resuming batches are shown as expired; everything else is shown as stored |
| BatchStore.Repository.AtomicTransitionToResolving | pkg/hitlstore/pending_tool_call.go:218-240 | wins exactly on a pending batch, changing status and update time alone; miss and lost race are told apart and change nothing |
| BatchStore.Repository.AtomicTransitionResolvingToResuming | pkg/hitlstore/pending_tool_call.go:250-272 | wins exactly on a resolving batch, changing status and update time alone; miss and lost race are told apart and change nothing |
| BatchStore.Repository.AtomicTransitionResumingToResolving | pkg/hitlstore/pending_tool_call.go:285-304 | gives a resuming batch back, is a no-op on any other |
| BatchStore.Repository.ResetResolvingToPending | pkg/hitlstore/pending_tool_call.go:306-332 | reopens a resolving batch none of whose calls is approved, edited or rejected, otherwise changes nothing |
| BatchStore.Repository.RecordDecisions | pkg/hitlstore/pending_tool_call.go:336-352 | replaces the calls whatever the status, which it keeps |
| BatchStore.Repository.MarkDispatched | pkg/hitlstore/pending_tool_call.go:358-369 | flags exactly the first call with the id, silently ignores a missing one, keeps the status |
| BatchStore.DispatchedIsFirst | pkg/hitlstore/pending_tool_call.go:358-369 | the positional operator touches the first matching call and nothing else |
| BatchStore.Repository.MarkResolved | pkg/hitlstore/pending_tool_call.go:374-390 | forces the terminal status, keeping the deadline |
| BatchStore.Repository.MarkExpired | pkg/hitlstore/pending_tool_call.go:393-409 | forces the terminal status, keeping the deadline |
| BatchStore.Repository.ReconcileOrphanPreparing | pkg/hitlstore/pending_tool_call.go:464-482 | every batch left preparing before the cutoff becomes expired, with now as its deadline, and no other changes; returns how many there were |
| BatchStore.Repository.ReconcileOrphanResolving | pkg/hitlstore/pending_tool_call.go:509-542 | every document goes through the resolving sweep, other processes' writes and the resuming sweep; returns how many the sweeps changed |
| BatchStore.SweepUnstrands | pkg/hitlstore/pending_tool_call.go:509-542 | undisturbed, the start-up sweep reopens stranded resolves without a verdict and steps stranded resumes back, and leaves every other batch |
| BatchRuns.DecisionIsFinal | pkg/hitlstore/pending_tool_call.go:306-352 | once verdicts are recorded no sequence of steps reopens the batch or lets another resolve win |
| BatchRuns.ReopenedIff | pkg/hitlstore/pending_tool_call.go:319-352 | a later record lets the batch be reopened exactly when it carries no verdict |
| BatchRuns.TerminalIsFinal | pkg/hitlstore/pending_tool_call.go:371-409 | resolved and expired batches never become open again |
| BatchRuns.DeadlineWrittenOnce | pkg/hitlstore/pending_tool_call.go:103-111 | no run writes expires_at more than once |
| BatchRuns.WinsMatchStatus | pkg/hitlstore/pending_tool_call.go:218-332 | in every run the status accounts exactly for the unreverted resolve and resume wins |
| BatchRuns.AtMostOneOutstandingWin | pkg/hitlstore/pending_tool_call.go:213-304 | from a fresh batch, wins minus reverts is 0 or 1 for resolve and for resume |
| BatchRuns.ResumeWinsAreSeparated | pkg/hitlstore/pending_tool_call.go:242-304 | two resume wins have a compensation or sweep between them |
| BatchRuns.ResolveWinsAreSeparated | pkg/hitlstore/pending_tool_call.go:213-240 | two resolve wins have a reset or sweep between them |
| BatchRuns.SweepMovesOneStep | pkg/hitlstore/pending_tool_call.go:484-542 | with any recent writes of others between the two updates, exactly which batches each moves: none twice, and the second only those nobody touched |
| BatchRuns.QuietSweep | pkg/hitlstore/pending_tool_call.go:484-542 | without such writes, exactly which batches one sweep moves, by one step, calls and deadline untouched |
| BatchRuns.SweepIdempotentIff | pkg/hitlstore/pending_tool_call.go:504-542 | a second sweep at the same instant changes nothing exactly when the age is not negative |
| SseCounter.Slot.Release | pkg/ssecounter/counter.go:151-180 | only the first call counts: a live counter goes down by one, never below zero, and is kept for another TTL; a lapsed key is left alone |
| SseCounter.Counter.constructor | pkg/ssecounter/counter.go:67-77 | the key TTL is never below fifteen minutes |
| SseCounter.Counter.Acquire | pkg/ssecounter/counter.go:92-134 | granted exactly below the cap; the count and TTL a grant leaves, and what an undisturbed rejection leaves in time and too late; with what other streams do in between |
| SseRuns.CountStaysExact | pkg/ssecounter/counter.go:92-180 | in every timely interleaving the counter equals granted plus not-yet-rolled-back slots, at most max are granted, and an acquire is granted exactly when holders are below max |
| SseRuns.CapExceededIff | pkg/ssecounter/counter.go:28-38 | with every slot taken one more stream is let in if and only if the key has lapsed |
| SseRuns.RollbackKeepsExactIff | pkg/ssecounter/counter.go:122-127 | a rollback leaves the count exact if and only if the key is alive when it arrives |
| SseRuns.BurstGrants | pkg/ssecounter/counter.go:92-134 | of a burst of new streams exactly the first ones that fit are granted |
| SseRuns.LateRollbackWeakensCap | pkg/ssecounter/counter.go:122-130 | for every cap, after a rollback a burst of max + 1 new streams is granted in full at any later time if and only if the key had lapsed when the rollback arrived |
| SseRuns.RejectionIsReachable | pkg/ssecounter/counter.go:92-130 | under every cap a state with an exact count and a rejected acquire is reached |
| Health.Update | pkg/llm/selector.go:176-208 | the statements of Record on one record compute the fold |
| Health.FoldStatus | pkg/llm/selector.go:193-208 | a failure leaves the record down above a rate of one half and degraded above one fifth; three successes in a row heal, fewer change nothing |
| Health.FoldLatency | pkg/llm/selector.go:181-192 | a positive success latency joins the last hundred in milliseconds and the average is their mean rounded down; nothing else touches either |
| Health.RecordReflectsHistory | pkg/llm/selector.go:67-82 | counts, streak, last hundred positive latencies, floored mean and status as functions of the outcome history |
| Health.RecoversIff | pkg/llm/selector.go:193-207 | an unhealthy record turns healthy on an outcome exactly when it completes three successes in a row |
| Health.RecoveryNeedsStreak | pkg/llm/selector.go:67-73 | between an unhealthy and a later healthy moment lie three consecutive successes |
| Selector.FindOldest | pkg/llm/selector.go:272-286 | the scan returns a least recently touched key |
| Selector.DefaultSelector.Record | pkg/llm/selector.go:155-214 | folds into the key's row, evicting an oldest row when full, and mirrors status and latency onto the entry |
| SelectorRuns.ExactLru | pkg/llm/selector.go:162-192 | under an increasing clock the table holds exactly the most recently touched keys and each row is the record of the key's outcomes since it entered |
| Ranking.Registry.RegisterModelProvider | pkg/llm/registry.go:57-69 | one entry per model and provider, the last registered, at the place of the first |
| Ranking.BeforeIsTotalOrder | pkg/llm/selector.go:133-148 | the comparison with registry order as tie-break is a strict total order |
| Ranking.BuildCandidates | pkg/llm/selector.go:110-151 | exactly the enabled, wired entries, best first and stable |
| Ranking.RankingIsUnique | pkg/llm/selector.go:133-148 | that contract determines the list |
| Ranking.Pick | pkg/llm/selector.go:95-151 | fails exactly without an enabled, wired entry; the pick is healthy if any such entry is, and no rival in its health class is cheaper, or faster by measurement with unmeasured ones last, ties to the earlier registration |
| Agent.Respond | pkg/a2a/agent.go:163-201 | the response for every way the callback can end, in its exact words, encoder failures included |
| Agent.OneIntendedAttempt | pkg/a2a/agent.go:121-247 | the attempts of a message are one with the intended response, or none without a reply subject, when Publish returns |
| Agent.Handle | pkg/a2a/agent.go:121-247 | makes exactly the attempts of the shared function: one for every request with a reply subject, saying success false with the request's id and the exact error and code for a decode failure, an error, a nil response or a panic, and the callback's own response otherwise; two exactly when Publish itself panics |
| AgentRuns.EveryStateIsSound | pkg/a2a/agent.go:102-119 | in every interleaving slot holders stay within the cap and the attempts made for a message are exactly its handler's once that has returned, and none before |
| AgentRuns.AnsweredExactlyOnce | pkg/a2a/agent.go:102-247 | in every reachable state a request with a reply subject whose handler has returned was answered once, with the intended response; any other not at all |
| AgentRuns.FailuresAreReported | pkg/a2a/agent.go:166-247 | in every reachable state that one answer reports a failed call as failed, under its own id and with the error and code of its ending |
| AgentRuns.RepliesPrecedeClose | pkg/agentbase/run.go:124-132 | if handlers finish in budget and nothing to be answered is on its way at DrainSubs, every attempt precedes Close |
| AgentRuns.NoLateReplyIff | pkg/agentbase/run.go:117-154 | when the wait group is empty before Close, no reply can be late if and only if no message to be answered is queued or held in the callback |
| AgentRuns.TimeoutIsHarmlessIff | pkg/agentbase/run.go:124-154 | when the budget runs out instead, if and only if in addition no handler still to publish is running |
| AgentRuns.BlockedCallbackIsUncounted | pkg/a2a/agent.go:104-118 | a run that empties the wait group while a message is held in the callback |
| KmsFake.LabelIsShort | pkg/crypto/kmsfake/fake.go:51-57 | a version label is at most twenty bytes |
| KmsFake.LabelReadsBack | pkg/crypto/kmsfake/fake.go:51-57 | a label is the version in decimal, signed when negative |
| KmsFake.DecodeOnBytes | pkg/crypto/kmsfake/fake.go:72-101 | every check of Decrypt in order, on the bytes: high byte first, the field bounds, the wrapped indices, the version, the associated data |
| KmsFake.RoundTripIff | pkg/crypto/kmsfake/fake.go:61-100 | an encoding decodes to its plaintext exactly when the associated data is at most 65533 bytes, and panics otherwise |
| KmsFake.AcceptsOnlyEncodings | pkg/crypto/kmsfake/fake.go:72-101 | a plaintext comes out exactly for the encoding of that plaintext, version and associated data |
| KmsFake.RotationKeepsVersions | pkg/crypto/kmsfake/fake.go:41-46 | no sequence of rotations forgets a version |
| KmsFake.FakeKms.RotateToVersion | pkg/crypto/kmsfake/fake.go:41-46 | sets the current version and keeps every known one |
| KmsFake.FakeKms.Encrypt | pkg/crypto/kmsfake/fake.go:50-68 | fails exactly for fields over 65535 bytes, otherwise two length bytes high first and the version, the same for the associated data, then the plaintext |
| KmsFake.FakeKms.Decrypt | pkg/crypto/kmsfake/fake.go:72-101 | every error case and the panics of wrapped indices, in order |
| Envelope.FieldsRoundTrip | pkg/crypto/envelope.go:184-231 | opening the sealed fields returns every plaintext, empty ones as nil |
| Envelope.RowSurvivesRotationIff | pkg/crypto/envelope.go:147-233 | an encrypted row decrypts after any rotations to the same plaintexts and key version exactly when the platform is at most 65496 bytes, and panics otherwise |
| Envelope.WrappedKeyIsBoundToRow | pkg/crypto/envelope.go:68-72 | under another integration or platform a row never decrypts |
| Envelope.SameEncoding | pkg/crypto/kmsfake/fake.go:61-67 | the byte format is injective |
| Envelope.Wipe | pkg/crypto/wipe.go:8-13 | every byte is zero |
| Envelope.Envelope.EncryptForRow | pkg/crypto/envelope.go:147-201 | which error, or the row field by field: what is wrapped, what seals each field under the id, a bar and the platform, and the mapped version; the key buffer is zero on every path |
| Envelope.Envelope.DecryptForRow | pkg/crypto/envelope.go:206-249 | which failure, or each field opened with the unwrapped key, an unmapped version read as zero; the key buffer is zero on every path |
| LastOwner.OwnersAfter | pkg/authz/invariants.go:47-59 | a business has an owner after a change exactly when the change spares one |
| LastOwner.EnsureOwnerExistsAfter | pkg/authz/invariants.go:61-150 | a well-formed change is accepted exactly when some active member holds the system owner role, is not pending deletion and is not hit by the change, which is when the membership after it has an effective owner; when a malformed one is reported |
| LastOwner.OwnerSurvives | pkg/authz/invariants.go:17-59 | a run of guarded, serialised changes mixed with deletion requests and deactivations keeps an effective owner throughout if and only if every such departure leaves another owner |
| LastOwner.DepartureStrandsIff | pkg/authz/invariants.go:50-58 | an unguarded departure strands the business exactly when the user is its only effective owner |
| LastOwner.ReturnBringsOwnerIff | pkg/authz/invariants.go:50-58 | when canceling a deletion or promoting a member gives the business an owner |
| LastOwner.StampDuringChangeIff | pkg/authz/invariants.go:74-82 | an admitted change with a deletion stamp after the snapshot strands the business exactly when every owner it spares is the departing user |
| LastOwner.StaleSnapshotsStrand | pkg/authz/invariants.go:74-82 | without the row lock two admitted removals leave no owner |
| TokenCache.PrefixMatchesPairIff | pkg/tokenclient/client.go:172-177 | with colon-free ids the wildcard removes exactly the pair's entries |
| TokenCache.SweptIff | pkg/tokenclient/client.go:165-178 | exactly which entries the wildcard removes when platform ids may contain colons |
| TokenCache.CacheKeyInjective | pkg/tokenclient/client.go:85-87 | colon-free ids never share a cache key |
| TokenCache.Client.GetToken | pkg/tokenclient/client.go:93-156 | reuses a token exactly while it is younger than the TTL and does not expire within five minutes; miss and failed fetch, and what each leaves in the cache, with other goroutines' stores and revokes during the unlocked fetch |
| TokenCache.Client.constructor | pkg/tokenclient/client.go:16-67 | tokens are reused for thirty seconds |
| TokenCache.Client.Invalidate | pkg/tokenclient/client.go:165-178 | removes one entry, or every entry with the pair's prefix |
| TokenCache.SweepPrefix | pkg/tokenclient/client.go:173-177 | the range-delete loop removes exactly the keys with the prefix |
| TokenCache.HitIff | pkg/tokenclient/client.go:93-178 | over every run with answers and stores as separate events, a lookup hits exactly with the token of the last store of that entry, younger than the TTL, not about to expire, with no invalidation after the store (colon-free ids; `SweptIff` covers the others) |
| TokenCache.ServedAfterRevokeIff | pkg/tokenclient/client.go:104-178 | a token answered before a revoke can be served after it if and only if its fetch was in flight when the revoke landed and it is still usable |
| TokenCache.RevokedTokenComesBack | pkg/tokenclient/client.go:158-178 | the run in which a revoked token is served for a full TTL |
| SpendCache.CachedDailySpender.constructor | pkg/llm/dailyspend_cache.go:45-57 | a non-positive TTL falls back to ten seconds |
| SpendCache.CachedDailySpender.GetDailySpend | pkg/llm/dailyspend_cache.go:64-85 | hit, miss, failed read and what each leaves in the cache, with concurrent stores in between |
| SpendCache.SpendHitIff | pkg/llm/dailyspend_cache.go:59-85 | over every run, a hit is exactly the last reading stored for the business, for that day and younger than the TTL |

## Left out

- Publish panics in the agent runs: `AgentRuns` takes Publish to return, with an error once closed; what a panic of Publish does is stated by `Handle`.
- Documents inserted between the two updates of the start-up sweep: they are preparing, which neither update matches.
- Redis-down policy, the local token bucket and driver errors: the theorems assume Redis and Mongo are reachable.
- Token estimation (pkg/llm/estimate.go): a request carries its estimate; the sums would only add easy members.
- JSON, AES-GCM, SHA-256 and UUID parsing: parameters with the laws they need.
- Printed Redis counter keys: users are UUIDs of fixed length, so counters are keyed by a datatype instead of text.
- Floating-point rounding of failure rates and prices: rates are compared exactly, prices are reals.
- DedupeRuns: one dedupe key at a time; `KeyForCollidesIff` says when two approvals share one.
- EncryptToken, DecryptToken and the legacy decrypt path of pkg/crypto/envelope.go: the single-field form of the row operations.
- HitIff: stated for colon-free business and platform ids, because with colons one pair's wildcard also sweeps the entries `SweptIff` names.
- RateLimitRuns: assumes the clock of the limiter and of Redis agree and times do not go back.
- Physical deletion of batches (TTL monitor, DeleteByConversationIDs, DeleteByBusinessID) and the list queries.
- Registry: entries are values; that an entry's live status is shared through a pointer is modelled only in `DefaultSelector.Record`.
- ChatStream, billing and metrics of pkg/llm/router.go: no effect on the budget beyond the admission that is modelled.
- CheckEscalationSubset, CheckSelfLockout and CheckSystemRoleImmutable of pkg/authz/invariants.go: one-line set tests.
- Orchestrator and API services that call these packages: their obligations appear as hypotheses.
