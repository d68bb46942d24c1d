/**
  The last-owner guard: a change to a business's membership is refused when it
  would leave nobody who can manage the business.
 */
module LastOwner {
  import opened Common

  const OWNER: string := "00000000-0000-0000-0000-000000000001"

  datatype Member = Member(user: string, role: string, active: bool, pendingDeletion: bool)

  datatype Kind = Unspecified | Demote | Remove | RoleEditRemovesOwnerPerm | RoleDelete | Unknown(code: int)

  datatype Change = Change(kind: Kind, member: Option<string>, role: Option<string>)

  predicate WellFormed(c: Change) {
    match c.kind
    case Demote => c.member.Some?
    case Remove => c.member.Some?
    case RoleEditRemovesOwnerPerm => c.role.Some?
    case RoleDelete => c.role.Some?
    case _ => false
  }

  // ---- What a change does -------------------------------------------------

  /** Membership rows, and the roles whose owner permission has been edited away. */
  datatype World = World(members: set<Member>, stripped: set<string>)

  /** An active owner whose account is not on its way out. */
  predicate Effective(w: World, m: Member) {
    m in w.members && m.active && m.role == OWNER && !m.pendingDeletion && OWNER !in w.stripped
  }

  ghost predicate HasOwner(w: World) { exists m :: Effective(w, m) }

  /** The world after a change goes through; `newRole` is the role demoted or orphaned members end up with. */
  function After(w: World, c: Change, newRole: string): World
    requires WellFormed(c)
  {
    match c.kind
    case Demote => w.(members := set m | m in w.members :: if m.user == c.member.value then m.(role := newRole) else m)
    case Remove => w.(members := set m | m in w.members && m.user != c.member.value)
    case RoleEditRemovesOwnerPerm => w.(stripped := w.stripped + {c.role.value})
    case RoleDelete => w.(members := set m | m in w.members :: if m.role == c.role.value then m.(role := newRole) else m)
  }

  /** The member is not affected by the change. */
  predicate Spared(c: Change, m: Member)
    requires WellFormed(c)
  {
    if c.kind.Demote? || c.kind.Remove? then m.user != c.member.value else m.role != c.role.value
  }

  /** Who is an owner afterwards: exactly the owners the change spares. */
  lemma OwnersAfter(w: World, c: Change, newRole: string)
    requires WellFormed(c) && newRole != OWNER
    ensures HasOwner(After(w, c, newRole)) <==> exists m :: Effective(w, m) && Spared(c, m)
  {
    var w' := After(w, c, newRole);
    if m :| Effective(w, m) && Spared(c, m) {
      assert m in w'.members;
      assert Effective(w', m);
    }
    if m' :| Effective(w', m') {
      assert m' in w.members;
      assert Effective(w, m') && Spared(c, m');
    }
  }

  // ---- The guard ----------------------------------------------------------

  /** The locked rows, read as a membership table. */
  function WorldOf(rows: seq<Member>): World { World(set m | m in rows, {}) }

  datatype Verdict = Accepted | LastOwnerLeaves | Malformed

  predicate Counts(m: Member, c: Change)
    requires WellFormed(c)
  {
    m.active && m.role == OWNER && !m.pendingDeletion && Spared(c, m)
  }

  /** What the guard admits on the rows it has locked. */
  ghost predicate Admitted(w: World, c: Change) {
    WellFormed(c) && exists m :: m in w.members && Counts(m, c)
  }

  /**
    The two loops over the locked rows.  A well-formed change is accepted exactly
    when the membership after it still has an effective owner.
   */
  method EnsureOwnerExistsAfter(rows: seq<Member>, c: Change) returns (v: Verdict)
    ensures v == Malformed <==> c.kind == Unspecified || (!WellFormed(c) && exists i | 0 <= i < |rows| :: rows[i].active)
    ensures v == Accepted <==> Admitted(WorldOf(rows), c)
    ensures WellFormed(c) ==>
              forall newRole | newRole != OWNER ::
                (v == Accepted <==> HasOwner(After(WorldOf(rows), c, newRole)))
    // an active member with the owner role, not on the way out, and not the one the change takes it from
    ensures WellFormed(c) ==>
              (v == Accepted <==>
                 exists i | 0 <= i < |rows| ::
                   && rows[i].active && !rows[i].pendingDeletion
                   && rows[i].role == "00000000-0000-0000-0000-000000000001"
                   && (c.kind in {Demote, Remove} ==> c.member != Some(rows[i].user))
                   && (c.kind in {RoleEditRemovesOwnerPerm, RoleDelete} ==> c.role != Some(rows[i].role)))
    ensures !WellFormed(c) ==> v != Accepted
  {
    if c.kind == Unspecified {
      return Malformed;
    }
    var snapshot: seq<Member> := [];
    for i := 0 to |rows|
      invariant forall m :: m in snapshot <==> m in rows[..i] && m.active
    {
      assert rows[..i + 1] == rows[..i] + [rows[i]];
      if rows[i].active {
        snapshot := snapshot + [rows[i]];
      }
    }
    assert rows[..|rows|] == rows;
    if !WellFormed(c) {
      if |snapshot| > 0 {
        assert snapshot[0] in rows;
        return Malformed;
      }
      return LastOwnerLeaves;
    }
    var postOwners := 0;
    for i := 0 to |snapshot|
      invariant postOwners >= 0
      invariant postOwners > 0 <==> exists m :: m in snapshot[..i] && Counts(m, c)
    {
      assert snapshot[..i + 1] == snapshot[..i] + [snapshot[i]];
      var m := snapshot[i];
      assert m in rows && m.active;
      var isOwner := m.role == OWNER;
      if !Spared(c, m) {
        continue;
      }
      if isOwner && !m.pendingDeletion {
        postOwners := postOwners + 1;
        assert Counts(m, c);
      }
    }
    assert snapshot[..|snapshot|] == snapshot;
    v := if postOwners < 1 then LastOwnerLeaves else Accepted;
    GuardMeaning(rows, snapshot, c);
    if v == Accepted {
      var m :| m in snapshot && Counts(m, c);
      var i :| 0 <= i < |rows| && rows[i] == m;
    }
    assert forall i | 0 <= i < |rows| && rows[i].active :: rows[i] in snapshot;
  }

  lemma GuardMeaning(rows: seq<Member>, snapshot: seq<Member>, c: Change)
    requires WellFormed(c) && forall m :: m in snapshot <==> m in rows && m.active
    ensures forall newRole | newRole != OWNER ::
              (exists m :: m in snapshot && Counts(m, c)) <==> HasOwner(After(WorldOf(rows), c, newRole))
  {
    var w := WorldOf(rows);
    forall newRole | newRole != OWNER
      ensures (exists m :: m in snapshot && Counts(m, c)) <==> HasOwner(After(w, c, newRole))
    {
      OwnersAfter(w, c, newRole);
      assert forall m :: Effective(w, m) && Spared(c, m) <==> m in snapshot && Counts(m, c);
    }
  }

  // ---- Runs ---------------------------------------------------------------

  /**
    Guarded changes run one at a time under the row lock.  A deletion request
    stamps the user's account and a deactivation the membership row, neither
    through the guard; the other steps cannot take an owner away.
   */
  datatype Action =
    | Guarded(change: Change, newRole: string)
    | Join(member: Member)
    | Promote(user: string)
    | CancelDeletion(user: string)
    | RequestDeletion(user: string)
    | Deactivate(user: string)

  ghost function Step(w: World, a: Action): World {
    match a
    case Guarded(c, newRole) => if Admitted(w, c) && newRole != OWNER then After(w, c, newRole) else w
    case Join(m) => w.(members := w.members + {m})
    case Promote(u) => w.(members := set m | m in w.members :: if m.user == u then m.(role := OWNER) else m)
    case CancelDeletion(u) => w.(members := set m | m in w.members :: if m.user == u then m.(pendingDeletion := false) else m)
    case RequestDeletion(u) => w.(members := set m | m in w.members :: if m.user == u then m.(pendingDeletion := true) else m)
    case Deactivate(u) => w.(members := set m | m in w.members :: if m.user == u then m.(active := false) else m)
  }

  ghost function Exec(w: World, run: seq<Action>): World
    decreases |run|
  {
    if run == [] then w else Exec(Step(w, run[0]), run[1..])
  }

  /** Some effective owner is not this user. */
  ghost predicate OwnedBeside(w: World, u: string) { exists m :: Effective(w, m) && m.user != u }

  /** An unguarded departure strands the business if and only if the user is its only effective owner. */
  lemma DepartureStrandsIff(w: World, u: string)
    ensures HasOwner(Step(w, RequestDeletion(u))) <==> OwnedBeside(w, u)
    ensures HasOwner(Step(w, Deactivate(u))) <==> OwnedBeside(w, u)
  {
    var deleted, inactive := Step(w, RequestDeletion(u)), Step(w, Deactivate(u));
    if m :| Effective(w, m) && m.user != u {
      assert m in deleted.members && m in inactive.members;
      assert Effective(deleted, m) && Effective(inactive, m);
    }
    if m :| Effective(deleted, m) {
      assert Effective(w, m) && m.user != u;
    }
    if m :| Effective(inactive, m) {
      assert Effective(w, m) && m.user != u;
    }
  }

  /** The user's own membership would make an owner but for the one obstacle named. */
  ghost predicate OwnerBut(w: World, u: string, m: Member, pending: bool, role: bool) {
    && m in w.members && m.user == u && m.active && OWNER !in w.stripped
    && (!pending ==> !m.pendingDeletion) && (!role ==> m.role == OWNER)
  }

  /** Canceling a deletion or promoting brings an owner exactly when there is one already or that member becomes one. */
  lemma ReturnBringsOwnerIff(w: World, u: string)
    ensures HasOwner(Step(w, CancelDeletion(u))) <==> HasOwner(w) || exists m :: OwnerBut(w, u, m, true, false)
    ensures HasOwner(Step(w, Promote(u))) <==> HasOwner(w) || exists m :: OwnerBut(w, u, m, false, true)
  {
    var canceled, promoted := Step(w, CancelDeletion(u)), Step(w, Promote(u));
    if m :| Effective(w, m) {
      StepKeepsOwner(w, CancelDeletion(u));
      StepKeepsOwner(w, Promote(u));
    }
    if m :| OwnerBut(w, u, m, true, false) {
      assert m.(pendingDeletion := false) in canceled.members;
      assert Effective(canceled, m.(pendingDeletion := false));
    }
    if m :| OwnerBut(w, u, m, false, true) {
      assert m.(role := OWNER) in promoted.members;
      assert Effective(promoted, m.(role := OWNER));
    }
    if m' :| Effective(canceled, m') {
      var m :| m in w.members && m' == if m.user == u then m.(pendingDeletion := false) else m;
      assert if m.user == u then OwnerBut(w, u, m, true, false) else Effective(w, m);
    }
    if m' :| Effective(promoted, m') {
      var m :| m in w.members && m' == if m.user == u then m.(role := OWNER) else m;
      assert if m.user == u then OwnerBut(w, u, m, false, true) else Effective(w, m);
    }
  }

  lemma StepKeepsOwner(w: World, a: Action)
    requires HasOwner(w) && !a.RequestDeletion? && !a.Deactivate?
    ensures HasOwner(Step(w, a))
  {
    var m :| Effective(w, m);
    var w' := Step(w, a);
    match a
    case Guarded(c, newRole) =>
      if Admitted(w, c) && newRole != OWNER {
        var o :| o in w.members && Counts(o, c);
        assert Effective(w, o);
        OwnersAfter(w, c, newRole);
      } else {
        assert Effective(w', m);
      }
    case Join(_) =>
      assert Effective(w', m);
    case Promote(u) =>
      assert (if m.user == u then m.(role := OWNER) else m) == m;
      assert m in w'.members && Effective(w', m);
    case CancelDeletion(u) =>
      assert (if m.user == u then m.(pendingDeletion := false) else m) == m;
      assert m in w'.members && Effective(w', m);
  }

  /** Every state of the run has an effective owner. */
  ghost predicate NeverStranded(w: World, run: seq<Action>)
    decreases |run|
  {
    HasOwner(w) && (run != [] ==> NeverStranded(Step(w, run[0]), run[1..]))
  }

  /** Nobody departs as the only effective owner. */
  ghost predicate DeparturesAreSafe(w: World, run: seq<Action>)
    decreases |run|
  {
    run != [] ==>
      && (run[0].RequestDeletion? || run[0].Deactivate? ==> OwnedBeside(w, run[0].user))
      && DeparturesAreSafe(Step(w, run[0]), run[1..])
  }

  /**
    A run of serialised, guarded changes mixed with unguarded departures keeps an
    effective owner throughout if and only if every departure leaves another one;
    in particular, guarded changes alone never strand the business.
   */
  lemma {:induction false} OwnerSurvives(w: World, run: seq<Action>)
    requires HasOwner(w)
    ensures NeverStranded(w, run) <==> DeparturesAreSafe(w, run)
    decreases |run|
  {
    if run != [] {
      var a := run[0];
      if a.RequestDeletion? || a.Deactivate? {
        DepartureStrandsIff(w, a.user);
      } else {
        StepKeepsOwner(w, a);
      }
      if HasOwner(Step(w, a)) {
        OwnerSurvives(Step(w, a), run[1..]);
      }
    }
  }

  /**
    The lock covers membership rows, not accounts: a deletion request may land
    between the guard's snapshot and the change.  An admitted change then strands
    the business if and only if every owner it spares is the departing user.
   */
  lemma StampDuringChangeIff(w: World, c: Change, newRole: string, u: string)
    requires Admitted(w, c) && newRole != OWNER
    ensures HasOwner(After(Step(w, RequestDeletion(u)), c, newRole)) <==>
            exists m :: Effective(w, m) && Spared(c, m) && m.user != u
  {
    var w' := Step(w, RequestDeletion(u));
    OwnersAfter(w', c, newRole);
    if m :| Effective(w, m) && Spared(c, m) && m.user != u {
      assert m in w'.members;
      assert Effective(w', m);
    }
    if m :| Effective(w', m) && Spared(c, m) {
      assert Effective(w, m) && m.user != u;
    }
  }

  /**
    The row lock is needed: two removals judged on the same snapshot are both
    admitted and together leave no owner, for any two distinct sole co-owners.
   */
  lemma StaleSnapshotsStrand(a: string, b: string)
    requires a != b
    ensures var w := World({Member(a, OWNER, true, false), Member(b, OWNER, true, false)}, {});
            var dropA, dropB := Change(Remove, Some(a), None), Change(Remove, Some(b), None);
            && HasOwner(w) && Admitted(w, dropA) && Admitted(w, dropB)
            && !HasOwner(After(After(w, dropA, ""), dropB, ""))
  {
    var ma, mb := Member(a, OWNER, true, false), Member(b, OWNER, true, false);
    var w := World({ma, mb}, {});
    assert Effective(w, ma);
    assert mb in w.members && Counts(mb, Change(Remove, Some(a), None));
    assert ma in w.members && Counts(ma, Change(Remove, Some(b), None));
    assert After(After(w, Change(Remove, Some(a), None), ""), Change(Remove, Some(b), None), "").members == {};
  }
}
