/** Every plan only commits lawful writes, whatever the arguments, the clock and the random names are. */
module AuthLawful {
  import opened Text
  import opened AuthTypes
  import opened Options
  import opened AuthTables
  import opened AuthHistory
  import opened AuthPlans
  import opened WorkspaceChoice

  /**
   * The caller of an operation is who it says: its email is the one stored for its user. Rows of users
   * never change, so this holds of every principal that authentication ever produced.
   */
  predicate Authentic(db: Db, p: Principal) {
    p.user in db.users ==> db.users[p.user].email == p.email
  }

  predicate AuthenticOp(db: Db, op: Op) {
    op.Accept? ==> Authentic(db, op.principal)
  }

  lemma OneWriteLawful(db: Db, w: Write)
    requires Lawful(db, w)
    ensures LawfulAll(db, [w]) && ApplyAll(db, [w]) == Apply(db, w)
  {
    assert [w][1..] == [];
  }

  lemma TwoWritesLawful(db: Db, v: Write, w: Write)
    requires Lawful(db, v) && Lawful(Apply(db, v), w)
    ensures LawfulAll(db, [v, w]) && ApplyAll(db, [v, w]) == Apply(Apply(db, v), w)
  {
    OneWriteLawful(Apply(db, v), w);
    assert [v, w][1..] == [w];
  }

  lemma SessionWritesLawful(db: Db, u: Id, w: Id, access: string, refresh: string, now: Time)
    requires u in db.users && w in db.workspaces
    requires access !in db.issued && refresh !in db.issued && access != refresh
    ensures LawfulAll(db, SessionWrites(u, w, access, refresh, now))
  {
    var ws := SessionWrites(u, w, access, refresh, now);
    TwoWritesLawful(db, ws[0], ws[1]);
  }

  lemma FoundingWritesLawful(db: Db, u: Id, w: Id, now: Time)
    requires u in db.users && w !in db.issued && w != "" && IsTrimmed(w)
    requires forall k :: k in db.members ==> k.0 in db.issued
    ensures LawfulAll(db, FoundingWrites(u, w, now))
    ensures ApplyAll(db, FoundingWrites(u, w, now))
         == db.(workspaces := db.workspaces[w := u],
                members := db.members[(w, u) := Membership(Owner, now, Founding)],
                issued := db.issued + {w})
  {
    var ws := FoundingWrites(u, w, now);
    TwoWritesLawful(db, ws[0], ws[1]);
    assert db.issued + {w} + {} == db.issued + {w};
  }

  lemma MembersInIssued(db: Db)
    requires Inv(db)
    ensures forall k :: k in db.members ==> k.0 in db.workspaces && k.0 in db.issued && k.1 in db.users
  {
  }

  /** Three further names, new to a table state that has issued at most one of the earlier ones. */
  predicate NewNames3(issued: set<string>, a: string, b: string, c: string) {
    a !in issued && b !in issued && c !in issued && a != b && b != c && a != c && a != "" && IsTrimmed(a)
  }

  lemma LoginFoundingLawful(db: Db, u: Id, email: string, env: Env)
    requires u in db.users && NewNames3(db.issued, env.names(1), env.names(2), env.names(3))
    requires forall k :: k in db.members ==> k.0 in db.issued
    ensures LawfulAll(db, LoginFounding(u, email, env).writes)
  {
    var w := env.names(1);
    FoundingWritesLawful(db, u, w, env.clock(2));
    var mid := ApplyAll(db, FoundingWrites(u, w, env.clock(2)));
    SessionWritesLawful(mid, u, w, env.names(2), env.names(3), env.clock(3));
    ApplyAllConcat(db, FoundingWrites(u, w, env.clock(2)),
        SessionWrites(u, w, env.names(2), env.names(3), env.clock(3)));
  }

  lemma LoginIntoLawful(db: Db, u: Id, w: Id, access: string, refresh: string, now: Time)
    requires Inv(db) && u in db.users && access !in db.issued && refresh !in db.issued && access != refresh
    ensures LawfulAll(db, LoginInto(db, u, w, access, refresh, now).writes)
  {
    MembersInIssued(db);
    if (w, u) in db.members {
      SessionWritesLawful(db, u, w, access, refresh, now);
    }
  }

  lemma LoginHomeLawful(db: Db, u: Id, env: Env)
    requires Inv(db) && u in db.users && Fresh(db.issued, env)
    ensures LawfulAll(db, LoginHome(db, u, env).writes)
  {
    MembersInIssued(db);
    match DefaultWorkspace(db.members, u)
    case Some(w) => LoginIntoLawful(db, u, w, env.names(2), env.names(3), env.clock(3));
    case None => LoginFoundingLawful(db, u, db.users[u].email, env);
  }

  lemma CreateUserLawful(db: Db, email: string, password: string, env: Env)
    requires Inv(db) && Fresh(db.issued, env)
    ensures LawfulAll(db, CreateUserPlan(db, email, password, env).writes)
  {
    var plan := CreateUserPlan(db, email, password, env);
    if plan.writes != [] {
      var e, u, w := NormalizeEmail(email).value, env.names(0), env.names(1);
      var first := InsertUser(u, User(e, Hashed(password), env.clock(0)));
      MembersInIssued(db);
      OneWriteLawful(db, first);
      FoundingWritesLawful(Apply(db, first), u, w, env.clock(2));
      ApplyAllConcat(db, [first], FoundingWrites(u, w, env.clock(2)));
    }
  }

  lemma ExternalLoginLawful(db: Db, provider: string, subject: string, email: string, verified: bool, closed: bool,
      env: Env)
    requires Inv(db) && Fresh(db.issued, env)
    ensures LawfulAll(db, ExternalLoginPlan(db, provider, subject, email, verified, closed, env).writes)
  {
    var p, s := Lower(Trim(provider)), Trim(subject);
    if p == "" || s == "" {
    } else if (p, s) in db.identities {
      LoginHomeLawful(db, db.identities[(p, s)], env);
    } else if verified && NormalizeEmail(email).Some? {
      var e := NormalizeEmail(email).value;
      if e in db.usersByEmail {
        LinkedLoginLawful(db, p, s, db.usersByEmail[e], env);
      } else if !closed {
        FirstExternalLoginLawful(db, p, s, e, env);
      }
    }
  }

  lemma LinkedLoginLawful(db: Db, p: string, s: string, u: Id, env: Env)
    requires Inv(db) && Fresh(db.issued, env) && u in db.users && (p, s) !in db.identities
    ensures LawfulAll(db, [InsertIdentity(p, s, u)] + LoginHome(db, u, env).writes)
  {
    var first := InsertIdentity(p, s, u);
    var plan := LoginHome(db, u, env);
    OneWriteLawful(db, first);
    var next := Apply(db, first);
    assert next.issued == db.issued;
    ApplyKeepsInv(db, first);
    LoginHomeLawful(next, u, env);
    assert LoginHome(next, u, env) == plan;
    ApplyAllConcat(db, [first], plan.writes);
  }

  lemma FirstExternalLoginLawful(db: Db, p: string, s: string, e: string, env: Env)
    requires Inv(db) && Fresh(db.issued, env) && e !in db.usersByEmail && IsNormalEmail(e) && (p, s) !in db.identities
    ensures var u := env.names(0);
      LawfulAll(db, [InsertUser(u, User(e, NoPassword, env.clock(0))), InsertIdentity(p, s, u)]
          + LoginFounding(u, e, env).writes)
  {
    var u := env.names(0);
    var first, second, rest := InsertUser(u, User(e, NoPassword, env.clock(0))), InsertIdentity(p, s, u),
        LoginFounding(u, e, env).writes;
    MembersInIssued(db);
    TwoWritesLawful(db, first, second);
    var two := Apply(Apply(db, first), second);
    assert two.members == db.members && two.issued == db.issued + {u} + {};
    assert NewNames3(two.issued, env.names(1), env.names(2), env.names(3));
    LoginFoundingLawful(two, u, e, env);
    ApplyAllConcat(db, [first, second], rest);
  }

  lemma RefreshLawful(db: Db, token: string, env: Env)
    requires Inv(db) && Fresh(db.issued, env)
    ensures LawfulAll(db, RefreshPlan(db, token, env).writes)
  {
    var found := TokenPrincipal(db, token, Refresh, env.clock(0));
    if found.Some? {
      var p, first := found.value, DeleteSession(Digest(Trim(token)));
      MembersInIssued(db);
      OneWriteLawful(db, first);
      var next := Apply(db, first);
      assert next.issued == db.issued;
      SessionWritesLawful(next, p.user, p.workspace, env.names(0), env.names(1), env.clock(1));
      ApplyAllConcat(db, [first], SessionWrites(p.user, p.workspace, env.names(0), env.names(1), env.clock(1)));
    }
  }

  lemma CreateKeyLawful(db: Db, op: Op, env: Env)
    requires Fresh(db.issued, env) && op.CreateKey?
    ensures LawfulAll(db, CreateKeyPlan(db, op, env).writes)
  {
    var ws := CreateKeyPlan(db, op, env).writes;
    if ws != [] {
      OneWriteLawful(db, ws[0]);
      assert ws == [ws[0]];
    }
  }

  lemma RotateLawful(db: Db, op: Op, env: Env)
    requires Fresh(db.issued, env) && op.RotateApiKey?
    ensures LawfulAll(db, RotatePlan(db, op, env).writes)
  {
    var ws := RotatePlan(db, op, env).writes;
    if ws != [] {
      OneWriteLawful(db, ws[0]);
      assert ws == [ws[0]];
    }
  }

  lemma DeleteKeyLawful(db: Db, op: Op, env: Env)
    requires op.DeleteKey?
    ensures LawfulAll(db, DeleteKeyPlan(db, op, env).writes)
  {
    var ws := DeleteKeyPlan(db, op, env).writes;
    if ws != [] {
      OneWriteLawful(db, ws[0]);
      assert ws == [ws[0]];
    }
  }

  lemma AuthenticateKeyLawful(db: Db, token: string, due: bool, env: Env)
    requires Inv(db)
    ensures LawfulAll(db, AuthenticateKeyPlan(db, token, due, env).writes)
  {
    var ws := AuthenticateKeyPlan(db, token, due, env).writes;
    if ws != [] {
      OneWriteLawful(db, ws[0]);
      assert ws == [ws[0]];
    }
  }

  /** Once the expired invitation of an address is withdrawn, nothing stands in the way of a new one. */
  lemma WithdrawingClears(db: Db, id: Id, at: Time)
    requires OneOpenInvitation(db.invitations) && id in db.invitations && db.invitations[id].Open()
    ensures var b := Apply(db, RevokeInvitation(id, at));
      !OpenInvitation(b.invitations, db.invitations[id].workspace, db.invitations[id].email)
  {
    forall i | i in db.invitations && db.invitations[i].Open()
      ensures db.invitations[i].workspace == db.invitations[id].workspace
              && db.invitations[i].email == db.invitations[id].email
              ==> i == id
    {
      assert Rivals(db.invitations, i, id) ==> i == id;
    }
  }

  lemma NewInvitationLawful(db: Db, p: Principal, e: string, r: Role, env: Env)
    requires Fresh(db.issued, env) && p.workspace in db.workspaces && IsNormalEmail(e) && r != Owner
    requires !OpenInvitation(db.invitations, p.workspace, e)
    ensures LawfulAll(db, [InsertInvitation(env.names(0), NewInvitation(p, e, r, env.names(1), env.clock(2)))])
  {
    OneWriteLawful(db, InsertInvitation(env.names(0), NewInvitation(p, e, r, env.names(1), env.clock(2))));
  }

  lemma InviteAfterWithdrawal(db: Db, first: Write, p: Principal, e: string, r: Role, env: Env)
    requires first.RevokeInvitation? && Lawful(db, first)
        && !OpenInvitation(Apply(db, first).invitations, p.workspace, e)
    requires Fresh(db.issued, env) && IsNormalEmail(e) && r != Owner
    ensures p.workspace in db.workspaces ==>
      LawfulAll(db, [first] + [InsertInvitation(env.names(0), NewInvitation(p, e, r, env.names(1), env.clock(2)))])
  {
    OneWriteLawful(db, first);
    var next := Apply(db, first);
    assert next.issued == db.issued;
    if p.workspace in db.workspaces {
      NewInvitationLawful(next, p, e, r, env);
      ApplyAllConcat(db, [first], [InsertInvitation(env.names(0), NewInvitation(p, e, r, env.names(1), env.clock(2)))]);
    }
  }

  lemma ReplaceInvitationLawful(db: Db, id: Id, p: Principal, e: string, r: Role, env: Env)
    requires Inv(db) && Fresh(db.issued, env) && IsNormalEmail(e) && r != Owner
    requires id in db.invitations && db.invitations[id].Open()
    requires db.invitations[id].workspace == p.workspace && db.invitations[id].email == e
    ensures var first := RevokeInvitation(id, env.clock(1));
      var last := InsertInvitation(env.names(0), NewInvitation(p, e, r, env.names(1), env.clock(2)));
      LawfulAll(db, [first]) && (p.workspace in db.workspaces ==> LawfulAll(db, [first] + [last]))
  {
    WithdrawingClears(db, id, env.clock(1));
    InviteAfterWithdrawal(db, RevokeInvitation(id, env.clock(1)), p, e, r, env);
    OneWriteLawful(db, RevokeInvitation(id, env.clock(1)));
  }

  lemma InviteNewcomerLawful(db: Db, p: Principal, e: string, r: Role, env: Env)
    requires Inv(db) && Fresh(db.issued, env) && IsNormalEmail(e) && r != Owner
    ensures LawfulAll(db, InviteNewcomer(db, p, e, r, env).writes)
  {
    var open := OpenFor(db, p.workspace, e);
    var writes := InviteNewcomer(db, p, e, r, env).writes;
    if open.Some? {
      ReplaceInvitationLawful(db, open.value, p, e, r, env);
      var first := RevokeInvitation(open.value, env.clock(1));
      assert writes == [] || writes == [first] || p.workspace in db.workspaces;
    } else if p.workspace in db.workspaces {
      assert !OpenInvitation(db.invitations, p.workspace, e);
      NewInvitationLawful(db, p, e, r, env);
      var last := InsertInvitation(env.names(0), NewInvitation(p, e, r, env.names(1), env.clock(2)));
      assert writes == [] || writes == [last];
    }
  }

  lemma InviteLawful(db: Db, p: Principal, email: string, role: string, env: Env)
    requires Inv(db) && Fresh(db.issued, env)
    ensures LawfulAll(db, InvitePlan(db, p, email, role, env).writes)
  {
    if InvitePlan(db, p, email, role, env).writes != [] {
      InviteNewcomerLawful(db, p, NormalizeEmail(email).value, ParseInvitableRole(role).value, env);
    }
  }

  /** Two normal addresses that agree up to case are the same address. */
  lemma NormalFold(a: string, b: string)
    requires IsNormalEmail(a) && IsNormalEmail(b) && EqualFold(a, b)
    ensures a == b
  {
    assert forall i :: 0 <= i < |a| ==> Lower(a)[i] == a[i];
    assert forall i :: 0 <= i < |b| ==> Lower(b)[i] == b[i];
    assert Lower(a) == a && Lower(b) == b;
  }

  lemma AdmissionLawful(db: Db, id: Id, u: Id, w: Id, env: Env)
    requires Fresh(db.issued, env) && Lawful(db, AcceptInvitation(id, u, env.clock(1)))
    requires u in db.users && w in db.workspaces
    ensures LawfulAll(db, [AcceptInvitation(id, u, env.clock(1))]
        + SessionWrites(u, w, env.names(2), env.names(3), env.clock(3)))
  {
    var first := AcceptInvitation(id, u, env.clock(1));
    OneWriteLawful(db, first);
    var next := Apply(db, first);
    assert next.issued == db.issued;
    SessionWritesLawful(next, u, w, env.names(2), env.names(3), env.clock(3));
    ApplyAllConcat(db, [first], SessionWrites(u, w, env.names(2), env.names(3), env.clock(3)));
  }

  lemma AcceptLawful(db: Db, p: Principal, token: string, env: Env)
    requires Inv(db) && Fresh(db.issued, env) && Authentic(db, p)
    ensures LawfulAll(db, AcceptPlan(db, p, token, env).writes)
  {
    var plan := AcceptPlan(db, p, token, env);
    if plan.writes != [] {
      var id := db.invitationsByHash[Digest(Trim(token))];
      NormalFold(db.invitations[id].email, p.email);
      AdmissionLawful(db, id, p.user, db.invitations[id].workspace, env);
    }
  }

  /** A workspace with two owner rows keeps one when either is taken away. */
  lemma SecondOwner(members: map<(Id, Id), Membership>, w: Id, u: Id)
    requires |Owners(members, w)| > 1
    ensures OtherOwner(members, w, u)
  {
    var owners := Owners(members, w);
    var rest := owners - {(w, u)};
    assert owners == if (w, u) in owners then rest + {(w, u)} else rest;
    assert rest != {};
    var k :| k in rest;
    assert k.1 != u;
  }

  /** Member ids are trimmed, so the row that is written is the row that was checked. */
  lemma CheckedRowIsWrittenRow(db: Db, w: Id, user: string)
    requires Inv(db) && (w, user) in db.members
    ensures Trim(user) == user
  {
    MembersInIssued(db);
    TrimFixes(user);
  }

  lemma UpdateMemberLawful(db: Db, p: Principal, user: string, role: string)
    requires Inv(db)
    ensures LawfulAll(db, UpdateMemberPlan(db, p, user, role).writes)
  {
    if UpdateMemberPlan(db, p, user, role).writes != [] {
      CheckedRowIsWrittenRow(db, p.workspace, user);
      if |Owners(db.members, p.workspace)| > 1 {
        SecondOwner(db.members, p.workspace, user);
      }
      OneWriteLawful(db, SetRole(p.workspace, user, ParseRole(role).value));
    }
  }

  lemma RemoveMemberLawful(db: Db, p: Principal, user: string)
    requires Inv(db)
    ensures LawfulAll(db, RemoveMemberPlan(db, p, user).writes)
  {
    if RemoveMemberPlan(db, p, user).writes != [] {
      CheckedRowIsWrittenRow(db, p.workspace, user);
      if |Owners(db.members, p.workspace)| > 1 {
        SecondOwner(db.members, p.workspace, user);
      }
      OneWriteLawful(db, DeleteMember(p.workspace, user));
    }
  }

  lemma SessionPlansAreLawful(db: Db, op: Op, env: Env)
    requires Inv(db) && Fresh(db.issued, env)
    requires op.Login? || op.SwitchWorkspace? || op.EndSession? || op.RefreshSession?
    ensures LawfulAll(db, PlanOf(db, op, env).writes)
  {
    match op
    case Login(email, password) =>
      if PlanOf(db, op, env).writes != [] {
        LoginHomeLawful(db, db.usersByEmail[NormalizeEmail(email).value], env);
      }
    case SwitchWorkspace(user, workspace) =>
      if Trim(user) in db.users {
        LoginIntoLawful(db, Trim(user), Trim(workspace), env.names(2), env.names(3), env.clock(3));
      }
    case EndSession(token) => OneWriteLawful(db, DeleteSession(Digest(Trim(token))));
    case RefreshSession(token) => RefreshLawful(db, token, env);
  }

  lemma RevokeLawful(db: Db, p: Principal, id: string, env: Env)
    ensures LawfulAll(db, RevokePlan(db, p, id, env).writes)
  {
    if RevokePlan(db, p, id, env).writes != [] {
      OneWriteLawful(db, RevokeInvitation(Trim(id), env.clock(0)));
    }
  }

  lemma MemberPlansAreLawful(db: Db, op: Op, env: Env)
    requires Inv(db) && Fresh(db.issued, env) && AuthenticOp(db, op)
    requires op.Invite? || op.Accept? || op.UpdateMember? || op.RemoveMember? || op.Revoke?
    ensures LawfulAll(db, PlanOf(db, op, env).writes)
  {
    match op
    case Invite(p, email, role) => InviteLawful(db, p, email, role, env);
    case Accept(p, token) => AcceptLawful(db, p, token, env);
    case UpdateMember(p, user, role) => UpdateMemberLawful(db, p, user, role);
    case RemoveMember(p, user) => RemoveMemberLawful(db, p, user);
    case Revoke(p, id) => RevokeLawful(db, p, id, env);
  }

  lemma KeyPlansAreLawful(db: Db, op: Op, env: Env)
    requires Inv(db) && Fresh(db.issued, env) && AuthenticOp(db, op)
    requires op.CreateKey? || op.RotateApiKey? || op.DeleteKey? || op.AuthenticateKey?
    ensures LawfulAll(db, PlanOf(db, op, env).writes)
  {
    match op
    case CreateKey(_, _, _, _, _, _) => CreateKeyLawful(db, op, env);
    case RotateApiKey(_, _, _, _) => RotateLawful(db, op, env);
    case DeleteKey(_, _, _) => DeleteKeyLawful(db, op, env);
    case AuthenticateKey(token, due) => AuthenticateKeyLawful(db, token, due, env);
  }

  /** Every operation commits lawful writes only. */
  lemma PlansAreLawful(db: Db, op: Op, env: Env)
    requires Inv(db) && Fresh(db.issued, env) && AuthenticOp(db, op)
    ensures LawfulAll(db, PlanOf(db, op, env).writes)
  {
    match op
    case CreateUser(email, password) => CreateUserLawful(db, email, password, env);
    case ExternalLogin(provider, subject, email, verified, closed) =>
      ExternalLoginLawful(db, provider, subject, email, verified, closed, env);
    case Authenticate(_) =>
    case Login(_, _) => SessionPlansAreLawful(db, op, env);
    case RefreshSession(_) => SessionPlansAreLawful(db, op, env);
    case EndSession(_) => SessionPlansAreLawful(db, op, env);
    case SwitchWorkspace(_, _) => SessionPlansAreLawful(db, op, env);
    case Invite(_, _, _) => MemberPlansAreLawful(db, op, env);
    case Accept(_, _) => MemberPlansAreLawful(db, op, env);
    case UpdateMember(_, _, _) => MemberPlansAreLawful(db, op, env);
    case RemoveMember(_, _) => MemberPlansAreLawful(db, op, env);
    case Revoke(_, _) => MemberPlansAreLawful(db, op, env);
    case _ => KeyPlansAreLawful(db, op, env);
  }
}
