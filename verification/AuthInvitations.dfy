/** Whole-run properties of workspace invitations and of the memberships they create. */
module AuthInvitations {
  import opened Text
  import opened AuthTypes
  import opened Options
  import opened AuthTables
  import opened AuthHistory
  import opened AuthPlans
  import opened AuthLawful
  import opened AuthRuns
  import Runs

  /** In every reachable state an address, whatever its case, has at most one open invitation to a workspace. */
  lemma OneOpenPerAddress(db: Db, steps: seq<Step>, n: nat, i: Id, j: Id)
    requires Inv(db) && Run(db, steps) && n <= |steps|
    requires var rows := StateAt(db, steps, n).invitations;
      i in rows && j in rows && rows[i].Open() && rows[j].Open()
      && rows[i].workspace == rows[j].workspace && EqualFold(rows[i].email, rows[j].email)
    ensures i == j
  {
    RunKeepsInv(db, steps, n);
    var b := StateAt(db, steps, n);
    assert InvitationInv(b.invitations[i], b.workspaces, b.issued)
        && InvitationInv(b.invitations[j], b.workspaces, b.issued);
    NormalFold(b.invitations[i].email, b.invitations[j].email);
    assert Rivals(b.invitations, i, j);
  }

  predicate LiveInvitation(i: Invitation, w: Id, email: string, now: Time) {
    StatusAt(i, now) == Pending && i.workspace == w && i.email == email
  }

  /** A well-formed invitation is in conflict exactly with a member or with an unexpired open invitation. */
  lemma InviteConflictExactly(db: Db, p: Principal, email: string, role: string, env: Env)
    requires Inv(db) && Administers(p) && NormalizeEmail(email).Some? && ParseInvitableRole(role).Some?
    ensures var e := NormalizeEmail(email).value;
      InvitePlan(db, p, email, role, env).reply == Failed(Conflict) <==>
        (exists u :: u in db.users && db.users[u].email == e && (p.workspace, u) in db.members)
        || (exists i :: i in db.invitations && LiveInvitation(db.invitations[i], p.workspace, e, env.clock(0)))
  {
    var e := NormalizeEmail(email).value;
    var member := exists u :: u in db.users && db.users[u].email == e && (p.workspace, u) in db.members;
    assert member <==> e in db.usersByEmail && (p.workspace, db.usersByEmail[e]) in db.members by {
      if e in db.usersByEmail {
        assert db.users[db.usersByEmail[e]].email == e;
      }
    }
    NewcomerConflict(db, p, e, ParseInvitableRole(role).value, env);
  }

  lemma OpenForIsTheOne(db: Db, w: Id, email: string, now: Time)
    requires Inv(db)
    ensures OpenFor(db, w, email).Some? ==> OpenFor(db, w, email).value in db.invitations
    ensures (exists i :: i in db.invitations && LiveInvitation(db.invitations[i], w, email, now))
       <==> OpenFor(db, w, email).Some? && LiveInvitation(db.invitations[OpenFor(db, w, email).value], w, email, now)
  {
    var open := OpenFor(db, w, email);
    if i :| i in db.invitations && LiveInvitation(db.invitations[i], w, email, now) {
      assert db.invitations[i].Open();
      assert Rivals(db.invitations, i, open.value);
    }
  }

  lemma NewcomerConflict(db: Db, p: Principal, e: string, r: Role, env: Env)
    requires Inv(db)
    ensures InviteNewcomer(db, p, e, r, env).reply == Failed(Conflict)
       <==> exists i :: i in db.invitations && LiveInvitation(db.invitations[i], p.workspace, e, env.clock(0))
  {
    OpenForIsTheOne(db, p.workspace, e, env.clock(0));
  }

  lemma NewcomerConflictWritesNothing(db: Db, p: Principal, e: string, r: Role, env: Env)
    ensures InviteNewcomer(db, p, e, r, env).reply == Failed(Conflict) ==> InviteNewcomer(db, p, e, r, env).writes == []
  {
  }

  lemma InviteConflictWritesNothing(db: Db, p: Principal, email: string, role: string, env: Env)
    requires InvitePlan(db, p, email, role, env).reply == Failed(Conflict)
    ensures InvitePlan(db, p, email, role, env).writes == []
  {
    NewcomerConflictWritesNothing(db, p, NormalizeEmail(email).value, ParseInvitableRole(role).value, env);
  }

  /** A conflict answer changes nothing, although the service may withdraw invitations on the way. */
  lemma ConflictChangesNothing(db: Db, s: Step)
    requires StepOk(db, s) && s.op.Invite? && ReplyOf(db, s) == Failed(Conflict)
    ensures After(db, s) == db
  {
    InviteConflictWritesNothing(db, s.op.principal, s.op.email, s.op.role, s.env);
    assert Committed(db, s) == [];
  }

  /** As time and operations proceed, a status never returns to pending nor leaves accepted or revoked. */
  lemma StatusIsFinal(db: Db, steps: seq<Step>, i: nat, j: nat, id: Id, t: Time, t': Time)
    requires Run(db, steps) && i <= j <= |steps| && t <= t'
    requires id in StateAt(db, steps, i).invitations
    ensures id in StateAt(db, steps, j).invitations
    ensures var a := StatusAt(StateAt(db, steps, i).invitations[id], t);
        var b := StatusAt(StateAt(db, steps, j).invitations[id], t');
      (b == Pending ==> a == Pending) && (a == Accepted || a == Revoked ==> b == a)
  {
    InvitationHistory(db, steps, i, j, id);
  }

  predicate StartsWithAccept(ws: seq<Write>, id: Id, u: Id) {
    ws != [] && ws[0].AcceptInvitation? && ws[0].id == id && ws[0].member == u
  }

  /** The step commits the acceptance of invitation `id` by user `u`. */
  ghost predicate CommitsAccept(db: Db, s: Step, id: Id, u: Id) {
    StepOk(db, s) && StartsWithAccept(Committed(db, s), id, u)
  }

  lemma AcceptSettlesFirst(db: Db, ws: seq<Write>, id: Id, u: Id)
    requires Inv(db) && LawfulAll(db, ws) && StartsWithAccept(ws, id, u)
    ensures id in db.invitations && u in db.users && db.invitations[id].email == db.users[u].email
    ensures StatusAt(db.invitations[id], ws[0].at) == Pending
    ensures var b := ApplyAll(db, ws);
      id in b.invitations && b.invitations[id].acceptedAt.Some? && b.invitations[id].acceptedBy == Some(u)
  {
    var next := Apply(db, ws[0]);
    ApplyKeepsInv(db, ws[0]);
    WritesAdvanceInvitation(next, ws[1..], id);
  }

  /** An acceptance finds its invitation pending and addressed to the user, and settles it for good. */
  lemma AcceptSettles(db: Db, s: Step, id: Id, u: Id)
    requires CommitsAccept(db, s, id, u)
    ensures id in db.invitations && u in db.users && db.invitations[id].email == db.users[u].email
    ensures StatusAt(db.invitations[id], Committed(db, s)[0].at) == Pending
    ensures Settled(After(db, s), id) && After(db, s).invitations[id].acceptedBy == Some(u)
  {
    CommittedLawful(db, s);
    AcceptSettlesFirst(db, Committed(db, s), id, u);
  }

  lemma StepAdvancesInvitation(db: Db, s: Step, id: Id)
    requires StepOk(db, s) && id in db.invitations
    ensures id in After(db, s).invitations && InvitationAdvances(db.invitations[id], After(db, s).invitations[id])
  {
    CommittedLawful(db, s);
    WritesAdvanceInvitation(db, Committed(db, s), id);
  }

  lemma SettledIsNotAccepted(db: Db, s: Step, id: Id, v: Id)
    requires Settled(db, id)
    ensures !CommitsAccept(db, s, id, v)
  {
    if CommitsAccept(db, s, id, v) {
      AcceptSettles(db, s, id, v);
      assert false;
    }
  }

  /** No invitation admits twice. */
  lemma InvitationAdmitsOnce(db: Db, steps: seq<Step>, i: nat, j: nat, id: Id, u: Id, v: Id)
    requires Run(db, steps) && i < j < |steps|
    requires CommitsAccept(StateAt(db, steps, i), steps[i], id, u)
    ensures !CommitsAccept(StateAt(db, steps, j), steps[j], id, v)
  {
    var first := (a: Db, s: Step) => CommitsAccept(a, s, id, u);
    var second := (a: Db, s: Step) => CommitsAccept(a, s, id, v);
    var mark := (a: Db) => Settled(a, id);
    forall a, s | StepOk(a, s) && first(a, s)
      ensures mark(After(a, s))
    {
      AcceptSettles(a, s, id, u);
    }
    forall a, s | StepOk(a, s) && mark(a)
      ensures mark(After(a, s)) && !second(a, s)
    {
      StepAdvancesInvitation(a, s, id);
      SettledIsNotAccepted(a, s, id, v);
    }
    Runs.Excludes(StepOk, After, first, second, mark, db, steps, i, j);
    assert !second(StateAt(db, steps, j), steps[j]);
  }

  ghost predicate Settled(db: Db, id: Id) {
    id in db.invitations && db.invitations[id].acceptedAt.Some?
  }

  lemma OnlyAcceptSettles(db: Db, w: Write, id: Id)
    requires Lawful(db, w) && id in InvitationsAfter(db, w) && InvitationsAfter(db, w)[id].acceptedAt.Some?
        && !Settled(db, id)
    ensures w.AcceptInvitation? && w.id == id
  {
  }

  lemma {:induction false} NothingElseSettles(db: Db, ws: seq<Write>, id: Id)
    requires LawfulAll(db, ws) && !Settled(db, id)
    requires forall i :: 0 <= i < |ws| ==> !(ws[i].AcceptInvitation? && ws[i].id == id)
    ensures !Settled(ApplyAll(db, ws), id)
    decreases |ws|
  {
    if ws != [] {
      var next := Apply(db, ws[0]);
      if Settled(next, id) {
        OnlyAcceptSettles(db, ws[0], id);
        assert false;
      }
      NothingElseSettles(next, ws[1..], id);
    }
  }

  ghost predicate SettledFor(db: Db, id: Id, u: Id) {
    Settled(db, id) && db.invitations[id].acceptedBy == Some(u)
  }

  lemma StepSettles(db: Db, s: Step, id: Id, u: Id)
    requires StepOk(db, s) && !SettledFor(db, id, u) && SettledFor(After(db, s), id, u)
    ensures CommitsAccept(db, s, id, u)
  {
    var ws := Committed(db, s);
    CommittedLawful(db, s);
    PlanShape(db, s.op, s.env);
    if Settled(db, id) {
      StepAdvancesInvitation(db, s, id);
      assert false;
    } else if ws != [] && ws[0].AcceptInvitation? && ws[0].id == id {
      AcceptSettles(db, s, id, ws[0].member);
    } else {
      assert forall i :: 0 <= i < |ws| ==> !(ws[i].AcceptInvitation? && ws[i].id == id);
      NothingElseSettles(db, ws, id);
      assert false;
    }
  }

  /** Some step before `n` accepted the invitation on behalf of `u`. */
  ghost predicate AcceptedBefore(db: Db, steps: seq<Step>, n: nat, id: Id, u: Id)
    requires n <= |steps|
  {
    exists i :: 0 <= i < n && CommitsAccept(StateAt(db, steps, i), steps[i], id, u)
  }

  lemma SettledByStep(db: Db, steps: seq<Step>, n: nat, id: Id, u: Id)
    requires Run(db, steps) && n <= |steps| && !SettledFor(db, id, u) && SettledFor(StateAt(db, steps, n), id, u)
    ensures AcceptedBefore(db, steps, n, id, u)
  {
    var cause := (a: Db, s: Step) => CommitsAccept(a, s, id, u);
    var mark := (a: Db) => SettledFor(a, id, u);
    forall a, s | StepOk(a, s) && !mark(a) && mark(After(a, s))
      ensures cause(a, s)
    {
      StepSettles(a, s, id, u);
    }
    Runs.Caused(StepOk, After, cause, mark, db, steps, n);
    var i :| 0 <= i < n && cause(StateAt(db, steps, i), steps[i]);
    assert CommitsAccept(StateAt(db, steps, i), steps[i], id, u);
  }

  /**
   * Provenance: starting from empty tables, a member is the user the workspace was founded for, or an
   * earlier step of the run accepted, on that user's behalf, the one invitation the membership stems from.
   */
  lemma MembershipsHaveProvenance(steps: seq<Step>, n: nat, k: (Id, Id))
    requires Run(EMPTY, steps) && n <= |steps| && k in StateAt(EMPTY, steps, n).members
    ensures var b := StateAt(EMPTY, steps, n);
      match b.members[k].origin
      case Founding => k.0 in b.workspaces && b.workspaces[k.0] == k.1
      case Invited(id) =>
        && id in b.invitations && b.invitations[id].workspace == k.0
        && AcceptedBefore(EMPTY, steps, n, id, k.1)
  {
    EmptyInv();
    RunKeepsInv(EMPTY, steps, n);
    var b := StateAt(EMPTY, steps, n);
    assert Provenance(k, b.members[k], b.workspaces, b.users, b.invitations);
    if b.members[k].origin.Invited? {
      SettledByStep(EMPTY, steps, n, b.members[k].origin.invitation, k.1);
    }
  }

  /** Two memberships never stem from the same invitation. */
  lemma OriginsAreDistinct(db: Db, j: (Id, Id), k: (Id, Id))
    requires Inv(db) && j in db.members && k in db.members
    requires db.members[j].origin.Invited? && db.members[j].origin == db.members[k].origin
    ensures j == k
  {
    assert Provenance(j, db.members[j], db.workspaces, db.users, db.invitations);
    assert Provenance(k, db.members[k], db.workspaces, db.users, db.invitations);
  }
}
