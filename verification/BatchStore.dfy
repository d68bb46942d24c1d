/**
  The pending_tool_calls collection: approval batches moved between statuses by
  compare-and-set filters, compensating writes and start-up sweeps.

  Each Mongo update is atomic on one document and is a function of that document
  below; the repository class applies those functions to the collection.
 */
module BatchStore {
  import opened Common

  const BATCH_TTL: int := 86_400_000

  datatype Status = Preparing | Pending | Resolving | Resuming | Resolved | Expired

  predicate Terminal(s: Status) { s.Resolved? || s.Expired? }

  predicate Open(s: Status) { s.Pending? || s.Resolving? || s.Resuming? }

  datatype PendingCall = PendingCall(callId: string, toolName: string, verdict: string,
                                     dispatched: bool, dispatchedAt: Option<int>)

  datatype Batch = Batch(conversationId: string, businessId: string, status: Status, calls: seq<PendingCall>,
                         createdAt: int, updatedAt: int, expiresAt: Option<int>)

  const RECORDED_VERDICTS: set<string> := {"approve", "edit", "reject"}

  /** Some call carries a recorded verdict; the `$nin` filters match its negation. */
  predicate HasVerdict(calls: seq<PendingCall>) {
    exists i | 0 <= i < |calls| :: calls[i].verdict in RECORDED_VERDICTS
  }

  // ---- Updates of one document -------------------------------------------

  datatype Update =
    | Promote(started: int)                        // second half of Persist; `started` is its clock reading
    | ToResolving(now: int)
    | ToResuming(now: int)
    | BackToResolving(now: int)                    // compensation of a resume
    | ResetToPending(now: int)                     // compensation of a resolve
    | RecordDecisions(calls: seq<PendingCall>, now: int)
    | MarkDispatched(callId: string, now: int)
    | MarkResolved(now: int)
    | MarkExpired(now: int)
    | SweepPreparing(now: int, cutoff: int)
    | SweepResolving(now: int, cutoff: int)        // first UpdateMany of ReconcileOrphanResolving
    | SweepResuming(now: int, cutoff: int)         // second UpdateMany

  /** The update's filter, apart from the document id. */
  predicate Matches(b: Batch, u: Update) {
    match u
    case Promote(_) => b.status == Preparing
    case ToResolving(_) => b.status == Pending
    case ToResuming(_) => b.status == Resolving
    case BackToResolving(_) => b.status == Resuming
    case ResetToPending(_) => b.status == Resolving && !HasVerdict(b.calls)
    case RecordDecisions(_, _) => true
    case MarkDispatched(id, _) => exists i | 0 <= i < |b.calls| :: b.calls[i].callId == id
    case MarkResolved(_) => true
    case MarkExpired(_) => true
    case SweepPreparing(_, cutoff) => b.status == Preparing && b.createdAt < cutoff
    case SweepResolving(_, cutoff) => b.status == Resolving && b.updatedAt < cutoff && !HasVerdict(b.calls)
    case SweepResuming(_, cutoff) => b.status == Resuming && b.updatedAt < cutoff
  }

  /** The positional operator touches the first call with the id. */
  function Dispatched(calls: seq<PendingCall>, id: string, now: int): seq<PendingCall> {
    if calls == [] then []
    else if calls[0].callId == id then [calls[0].(dispatched := true, dispatchedAt := Some(now))] + calls[1..]
    else [calls[0]] + Dispatched(calls[1..], id, now)
  }

  ghost predicate IsFirst(calls: seq<PendingCall>, i: nat, id: string) {
    i < |calls| && calls[i].callId == id && forall j | 0 <= j < i :: calls[j].callId != id
  }

  /** Exactly the first call with the id is flagged, at `now`; without one nothing changes. */
  ghost predicate FirstDispatched(before: seq<PendingCall>, after: seq<PendingCall>, id: string, now: int) {
    && ((forall i | 0 <= i < |before| :: before[i].callId != id) ==> after == before)
    && forall i: nat | IsFirst(before, i, id) :: after == before[i := before[i].(dispatched := true, dispatchedAt := Some(now))]
  }

  lemma {:induction false} DispatchedIsFirst(calls: seq<PendingCall>, id: string, now: int)
    ensures FirstDispatched(calls, Dispatched(calls, id, now), id, now)
    decreases |calls|
  {
    if calls != [] {
      var rest := calls[1..];
      assert calls == [calls[0]] + rest;
      if calls[0].callId != id {
        DispatchedIsFirst(rest, id, now);
        forall i: nat | IsFirst(calls, i, id)
          ensures Dispatched(calls, id, now) == calls[i := calls[i].(dispatched := true, dispatchedAt := Some(now))]
        {
          assert IsFirst(rest, i - 1, id);
        }
      } else {
        assert forall i: nat | IsFirst(calls, i, id) :: i == 0;
        assert Dispatched(calls, id, now) == calls[0 := calls[0].(dispatched := true, dispatchedAt := Some(now))];
      }
    }
  }

  function Set(b: Batch, u: Update): Batch {
    match u
    case Promote(t) => b.(status := Pending, expiresAt := Some(t + BATCH_TTL), updatedAt := t)
    case ToResolving(t) => b.(status := Resolving, updatedAt := t)
    case ToResuming(t) => b.(status := Resuming, updatedAt := t)
    case BackToResolving(t) => b.(status := Resolving, updatedAt := t)
    case ResetToPending(t) => b.(status := Pending, updatedAt := t)
    case RecordDecisions(calls, t) => b.(calls := calls, updatedAt := t)
    case MarkDispatched(id, t) => b.(calls := Dispatched(b.calls, id, t), updatedAt := t)
    case MarkResolved(t) => b.(status := Resolved, updatedAt := t)
    case MarkExpired(t) => b.(status := Expired, updatedAt := t)
    case SweepPreparing(t, _) => b.(status := Expired, expiresAt := Some(t), updatedAt := t)
    case SweepResolving(t, _) => b.(status := Pending, updatedAt := t)
    case SweepResuming(t, _) => b.(status := Resolving, updatedAt := t)
  }

  function Apply(b: Batch, u: Update): Batch { if Matches(b, u) then Set(b, u) else b }

  /** A document across any sequence of updates, whoever issues them. */
  function Exec(b: Batch, run: seq<Update>): Batch
    decreases |run|
  {
    if run == [] then b else Exec(Apply(b, run[0]), run[1..])
  }

  lemma {:induction false} ExecAppend(b: Batch, run: seq<Update>, u: Update)
    ensures Exec(b, run + [u]) == Apply(Exec(b, run), u)
    decreases |run|
  {
    if run == [] {
      assert (run + [u])[1..] == [];
    } else {
      assert (run + [u])[1..] == run[1..] + [u];
      ExecAppend(Apply(b, run[0]), run[1..], u);
    }
  }

  lemma ExecOne(u: Update)
    ensures forall b :: Exec(b, [u]) == Apply(b, u)
  {
  }

  // ---- The repository -----------------------------------------------------

  datatype Error = NotFound | NotPending | NotResolving | Invalid | DuplicateId

  datatype Result<+T> = Ok(value: T) | Err(error: Error)

  type Collection = map<string, Batch>

  /** The collection after an update of one document. */
  function UpdateOne(coll: Collection, id: string, u: Update): Collection {
    if id in coll then coll[id := Apply(coll[id], u)] else coll
  }

  /** Every document of the collection has gone through `run`. */
  ghost predicate EachUpdated(before: Collection, after: Collection, run: seq<Update>) {
    after.Keys == before.Keys && forall id | id in before :: after[id] == Exec(before[id], run)
  }

  /** Both halves of the start-up sweep of one document, with what others write in the gap. */
  function SweepOrphans(cutoff: int, now1: int, between: seq<Update>, now2: int): seq<Update> {
    [SweepResolving(now1, cutoff)] + between + [SweepResuming(now2, cutoff)]
  }

  /** The documents an update of many modified. */
  function Modified(before: Collection, after: Collection): set<string> {
    set id | id in before && (id !in after || after[id] != before[id])
  }

  function Swept(coll: Collection, u: Update): Collection { map id | id in coll :: Apply(coll[id], u) }

  /** UpdateMany, document by document. */
  method Sweep(before: Collection, u: Update) returns (after: Collection, modified: nat)
    ensures EachUpdated(before, after, [u])
    ensures modified == |Modified(before, after)|
  {
    var todo := before.Keys;
    after := before;
    modified := 0;
    ghost var changed: set<string> := {};
    while todo != {}
      invariant after.Keys == before.Keys && todo <= before.Keys
      invariant forall id | id in todo :: after[id] == before[id]
      invariant forall id | id in before && id !in todo :: after[id] == Apply(before[id], u)
      invariant changed !! todo && modified == |changed|
      invariant forall id :: id in changed <==> id in before && after[id] != before[id]
      decreases |todo|
    {
      var id :| id in todo;
      var doc := Apply(after[id], u);
      if doc != after[id] {
        modified := modified + 1;
        changed := changed + {id};
      }
      after := after[id := doc];
      todo := todo - {id};
    }
    assert changed == Modified(before, after);
    ExecOne(u);
  }

  /** What other processes write to existing documents. */
  type Interference = map<string, seq<Update>>

  function WritesTo(writes: Interference, id: string): seq<Update> { if id in writes then writes[id] else [] }

  function Interfere(coll: Collection, writes: Interference): Collection {
    map id | id in coll :: Exec(coll[id], WritesTo(writes, id))
  }

  lemma SweepOne(b: Batch, cutoff: int, now1: int, between: seq<Update>, now2: int)
    ensures Exec(b, SweepOrphans(cutoff, now1, between, now2))
            == Apply(Exec(Apply(b, SweepResolving(now1, cutoff)), between), SweepResuming(now2, cutoff))
  {
    var first := [SweepResolving(now1, cutoff)] + between;
    assert first[1..] == between;
    ExecAppend(b, first, SweepResuming(now2, cutoff));
  }

  /** What the first half of the sweep changed, plus what the second half changed of what others left. */
  function ModifiedByBoth(before: Collection, after: Collection, cutoff: int, now1: int, between: Interference): nat {
    var resolving := Swept(before, SweepResolving(now1, cutoff));
    |Modified(before, resolving)| + |Modified(Interfere(resolving, between), after)|
  }

  /** Every document went through both halves of the sweep. */
  function SweptTwice(before: Collection, cutoff: int, now1: int, between: Interference, now2: int): Collection {
    map id | id in before :: Exec(before[id], SweepOrphans(cutoff, now1, WritesTo(between, id), now2))
  }

  /** What the start-up sweep makes of one batch: a stranded resolve without a verdict reopens, a stranded resume steps back. */
  function Unstranded(b: Batch, cutoff: int, now1: int, now2: int): Batch {
    var undecided := forall i | 0 <= i < |b.calls| :: b.calls[i].verdict !in {"approve", "edit", "reject"};
    if b.updatedAt >= cutoff then b
    else if b.status == Resolving && undecided then b.(status := Pending, updatedAt := now1)
    else if b.status == Resuming then b.(status := Resolving, updatedAt := now2)
    else b
  }

  lemma SweepUnstrands(before: Collection, cutoff: int, now1: int, now2: int)
    ensures SweptTwice(before, cutoff, now1, map[], now2).Keys == before.Keys
    ensures forall id | id in before ::
              SweptTwice(before, cutoff, now1, map[], now2)[id] == Unstranded(before[id], cutoff, now1, now2)
  {
    forall id | id in before
      ensures Exec(before[id], SweepOrphans(cutoff, now1, [], now2)) == Unstranded(before[id], cutoff, now1, now2)
    {
      SweepOne(before[id], cutoff, now1, [], now2);
    }
  }

  /** The two UpdateMany calls of the start-up sweep; others may write in between. */
  method SweepTwice(before: Collection, cutoff: int, now1: int, between: Interference, now2: int)
    returns (after: Collection, modified: nat)
    ensures after == SweptTwice(before, cutoff, now1, between, now2)
    ensures modified == ModifiedByBoth(before, after, cutoff, now1, between)
  {
    var resolving, n1 := Sweep(before, SweepResolving(now1, cutoff));
    var written := Interfere(resolving, between);
    var n2;
    after, n2 := Sweep(written, SweepResuming(now2, cutoff));
    modified := n1 + n2;
    ExecOne(SweepResolving(now1, cutoff));
    ExecOne(SweepResuming(now2, cutoff));
    assert resolving == Swept(before, SweepResolving(now1, cutoff));
    forall id | id in before ensures after[id] == Exec(before[id], SweepOrphans(cutoff, now1, WritesTo(between, id), now2)) {
      SweepOne(before[id], cutoff, now1, WritesTo(between, id), now2);
    }
  }

  /** Nothing but the one document changed, and none was added or removed. */
  ghost predicate OthersKept(before: Collection, after: Collection, id: string) {
    after.Keys == before.Keys && forall x | x in before && x != id :: after[x] == before[x]
  }

  class Repository {
    var coll: Collection

    constructor ()
      ensures coll == map[]
    {
      coll := map[];
    }

    /**
      Insert as preparing, then promote; both writes use the clock read at entry.
      `between` is what other processes did to the document in the gap.
     */
    method Persist(id: string, b: Batch, between: seq<Update>, now: int) returns (r: Result<Batch>)
      modifies this
      ensures r == Err(Invalid) <==> b.conversationId == "" || b.businessId == ""
      ensures r == Err(DuplicateId) <==> b.conversationId != "" && b.businessId != "" && id in old(coll)
      ensures r in {Err(Invalid), Err(DuplicateId)} ==> coll == old(coll)
      ensures r !in {Err(Invalid), Err(DuplicateId)} ==>
                var staged := b.(status := Preparing, createdAt := now, updatedAt := now);
                && coll == old(coll)[id := Exec(staged, between + [Promote(now)])]
                && (r.Ok? <==> Exec(staged, between).status == Preparing)
                && (r.Ok? ==> r.value == coll[id] && r.value.status == Pending && r.value.expiresAt == Some(now + BATCH_TTL))
                && (r.Err? ==> r == Err(NotFound))
      // undisturbed, the batch is stored as given, pending for the next 24 hours
      ensures b.conversationId != "" && b.businessId != "" && id !in old(coll) && between == [] ==>
                && r.Ok?
                && coll == old(coll)[id := b.(status := Pending, createdAt := now, updatedAt := now, expiresAt := Some(now + 86_400_000))]
    {
      if b.conversationId == "" || b.businessId == "" {
        return Err(Invalid);
      }
      if id in coll {
        return Err(DuplicateId);
      }
      var staged := b.(status := Preparing, createdAt := now, updatedAt := now);
      coll := coll[id := staged];
      coll := coll[id := Exec(staged, between)];
      ExecAppend(staged, between, Promote(now));
      if coll[id].status != Preparing {
        return Err(NotFound);
      }
      coll := coll[id := Set(coll[id], Promote(now))];
      r := Ok(coll[id]);
    }

    method GetByBatchID(id: string, now: int) returns (r: Result<Batch>)
      ensures id !in coll ==> r == Err(NotFound)
      ensures id in coll ==> r.Ok? && r.value.(status := coll[id].status) == coll[id]
      // a batch past its deadline is never shown as actionable
      ensures id in coll && Open(r.value.status) ==>
                && r.value == coll[id]
                && (coll[id].expiresAt.Some? ==> now <= coll[id].expiresAt.value)
      ensures id in coll && !Open(coll[id].status) ==> r.value == coll[id]
      // exactly the overdue pending, resolving and resuming batches are shown as expired
      ensures id in coll ==>
                r == Ok(if coll[id].status in {Pending, Resolving, Resuming} && coll[id].expiresAt.Some?
                           && coll[id].expiresAt.value < now
                        then coll[id].(status := Expired) else coll[id])
    {
      if id !in coll {
        return Err(NotFound);
      }
      var doc := coll[id];
      if doc.expiresAt.Some? && Open(doc.status) && doc.expiresAt.value < now {
        doc := doc.(status := Expired);
      }
      r := Ok(doc);
    }

    /** findOneAndUpdate with a status filter, and a probe to tell a miss from a lost race. */
    method FindOneAndUpdate(id: string, u: Update, lost: Error) returns (r: Result<Batch>)
      modifies this
      ensures coll == UpdateOne(old(coll), id, u)
      ensures r == if id !in old(coll) then Err(NotFound)
                   else if Matches(old(coll)[id], u) then Ok(coll[id]) else Err(lost)
    {
      if id !in coll {
        return Err(NotFound);
      }
      if !Matches(coll[id], u) {
        assert coll == coll[id := Apply(coll[id], u)];
        return Err(lost);
      }
      coll := coll[id := Set(coll[id], u)];
      r := Ok(coll[id]);
    }

    method AtomicTransitionToResolving(id: string, now: int) returns (r: Result<Batch>)
      modifies this
      ensures coll == UpdateOne(old(coll), id, ToResolving(now))
      ensures r.Ok? <==> id in old(coll) && old(coll)[id].status == Pending
      ensures r.Ok? ==> r.value == coll[id] && coll == old(coll)[id := old(coll)[id].(status := Resolving, updatedAt := now)]
      ensures r.Err? ==> coll == old(coll)
      ensures r == Err(NotFound) <==> id !in old(coll)
      ensures r.Err? && id in old(coll) ==> r == Err(NotPending)
    {
      r := FindOneAndUpdate(id, ToResolving(now), NotPending);
    }

    method AtomicTransitionResolvingToResuming(id: string, now: int) returns (r: Result<Batch>)
      modifies this
      ensures coll == UpdateOne(old(coll), id, ToResuming(now))
      ensures r.Ok? <==> id in old(coll) && old(coll)[id].status == Resolving
      ensures r.Ok? ==> r.value == coll[id] && coll == old(coll)[id := old(coll)[id].(status := Resuming, updatedAt := now)]
      ensures r.Err? ==> coll == old(coll)
      ensures r == Err(NotFound) <==> id !in old(coll)
      ensures r.Err? && id in old(coll) ==> r == Err(NotResolving)
    {
      r := FindOneAndUpdate(id, ToResuming(now), NotResolving);
    }

    /** The updates that report a missing document and treat an unmatched filter as success. */
    method UpdateById(id: string, u: Update) returns (r: Result<()>)
      modifies this
      ensures coll == UpdateOne(old(coll), id, u)
      ensures r == if id in old(coll) then Ok(()) else Err(NotFound)
    {
      if id !in coll {
        return Err(NotFound);
      }
      coll := coll[id := Apply(coll[id], u)];
      r := Ok(());
    }

    /** No error for an unmatched filter: the resume progressed, or never held the batch. */
    method AtomicTransitionResumingToResolving(id: string, now: int) returns (r: Result<()>)
      modifies this
      ensures coll == UpdateOne(old(coll), id, BackToResolving(now))
      ensures id in old(coll) ==>
                var b, b' := old(coll)[id], coll[id];
                if b.status == Resuming then b' == b.(status := Resolving, updatedAt := now) else b' == b
      ensures OthersKept(old(coll), coll, id)
      ensures r == if id in old(coll) then Ok(()) else Err(NotFound)
    {
      r := UpdateById(id, BackToResolving(now));
    }

    /** Never an error, not even for a missing batch. */
    method ResetResolvingToPending(id: string, now: int)
      modifies this
      ensures coll == UpdateOne(old(coll), id, ResetToPending(now))
      ensures id in old(coll) ==>
                var b, b' := old(coll)[id], coll[id];
                var undecided := forall i | 0 <= i < |b.calls| :: b.calls[i].verdict !in {"approve", "edit", "reject"};
                if b.status == Resolving && undecided then b' == b.(status := Pending, updatedAt := now) else b' == b
      ensures OthersKept(old(coll), coll, id)
    {
      var _ := UpdateById(id, ResetToPending(now));
    }

    method RecordDecisions(id: string, calls: seq<PendingCall>, now: int) returns (r: Result<()>)
      modifies this
      ensures coll == UpdateOne(old(coll), id, Update.RecordDecisions(calls, now))
      ensures id in old(coll) ==> coll[id] == old(coll)[id].(calls := calls, updatedAt := now)
      ensures OthersKept(old(coll), coll, id)
      ensures r == if id in old(coll) then Ok(()) else Err(NotFound)
    {
      r := UpdateById(id, Update.RecordDecisions(calls, now));
    }

    /** Never an error: the batch or the call may be gone. */
    method MarkDispatched(id: string, callId: string, now: int)
      modifies this
      ensures coll == UpdateOne(old(coll), id, Update.MarkDispatched(callId, now))
      ensures id in old(coll) ==>
                && coll[id].(calls := [], updatedAt := 0) == old(coll)[id].(calls := [], updatedAt := 0)
                && FirstDispatched(old(coll)[id].calls, coll[id].calls, callId, now)
      ensures OthersKept(old(coll), coll, id)
    {
      if id in coll {
        DispatchedIsFirst(coll[id].calls, callId, now);
      }
      var _ := UpdateById(id, Update.MarkDispatched(callId, now));
    }

    method MarkResolved(id: string, now: int) returns (r: Result<()>)
      modifies this
      ensures coll == UpdateOne(old(coll), id, Update.MarkResolved(now))
      ensures id in old(coll) ==> coll[id] == old(coll)[id].(status := Resolved, updatedAt := now)
      ensures OthersKept(old(coll), coll, id)
      ensures r == if id in old(coll) then Ok(()) else Err(NotFound)
    {
      r := UpdateById(id, Update.MarkResolved(now));
    }

    method MarkExpired(id: string, now: int) returns (r: Result<()>)
      modifies this
      ensures coll == UpdateOne(old(coll), id, Update.MarkExpired(now))
      ensures id in old(coll) ==> coll[id] == old(coll)[id].(status := Expired, updatedAt := now)
      ensures OthersKept(old(coll), coll, id)
      ensures r == if id in old(coll) then Ok(()) else Err(NotFound)
    {
      r := UpdateById(id, Update.MarkExpired(now));
    }

    method ReconcileOrphanPreparing(olderThan: int, now: int) returns (modified: nat)
      modifies this
      ensures EachUpdated(old(coll), coll, [SweepPreparing(now, now - olderThan)])
      // the batches left behind in preparing expire at once, everything else stays
      ensures coll.Keys == old(coll).Keys
      ensures forall id | id in old(coll) ::
                coll[id] == if old(coll)[id].status == Preparing && old(coll)[id].createdAt < now - olderThan
                            then old(coll)[id].(status := Expired, expiresAt := Some(now), updatedAt := now) else old(coll)[id]
      ensures modified == |set id | id in old(coll) && old(coll)[id].status == Preparing && old(coll)[id].createdAt < now - olderThan|
    {
      var before := coll;
      coll, modified := Sweep(before, SweepPreparing(now, now - olderThan));
      ExecOne(SweepPreparing(now, now - olderThan));
      assert Modified(before, coll) ==
             set id | id in before && before[id].status == Preparing && before[id].createdAt < now - olderThan;
    }

    /**
      The cutoff is read once; each UpdateMany stamps its own later clock reading.
      `between` is what other processes write to the documents in the gap.
     */
    method ReconcileOrphanResolving(olderThan: int, between: Interference, now: int, now1: int, now2: int)
      returns (modified: nat)
      requires now <= now1 <= now2
      modifies this
      ensures coll == SweptTwice(old(coll), now - olderThan, now1, between, now2)
      ensures modified == ModifiedByBoth(old(coll), coll, now - olderThan, now1, between)
    {
      coll, modified := SweepTwice(coll, now - olderThan, now1, between, now2);
    }
  }
}
