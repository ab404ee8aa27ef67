/** Who may do what: the caller behind every committed write, and what this means for whole runs. */
module AuthGuards {
  import opened Text
  import opened AuthTypes
  import opened Options
  import opened AuthTables
  import opened AuthHistory
  import opened AuthPlans
  import opened AuthLawful
  import opened AuthRuns
  import opened WorkspaceChoice
  import Runs

  // ---------------------------------------------------------------- the caller behind every write

  /** The user is stored under the address, in the form addresses are stored in, with that very password. */
  predicate HasPassword(db: Db, u: Id, email: string, password: string) {
    u in db.users && Some(db.users[u].email) == NormalizeEmail(email) && db.users[u].secret == Hashed(password)
  }

  /** The caller has shown to be the user: by password, provider, refresh token, or as the one who is served. */
  predicate SignsIn(db: Db, op: Op, u: Id) {
    match op
    case Login(email, password) => HasPassword(db, u, email, password)
    case ExternalLogin(provider, subject, email, verified, closed) =>
      var k := (Lower(Trim(provider)), Trim(subject));
      && k.0 != "" && k.1 != ""
      && if k in db.identities then db.identities[k] == u
         else verified && (if u in db.users then Some(db.users[u].email) == NormalizeEmail(email) else !closed)
    case RefreshSession(token) =>
      var h := Digest(Trim(token));
      h in db.sessions && db.sessions[h].kind == Refresh && db.sessions[h].user == u
    case SwitchWorkspace(user, _) => u == Trim(user)
    case Accept(p, _) => u == p.user
    case CreateUser(_, _) => u !in db.users
    case _ => false
  }

  predicate OwnerOrAdmin(p: Principal) {
    p.role == Some(Owner) || p.role == Some(Admin)
  }

  /** What the caller of the operation must have shown for the write, told from the tables before the call. */
  predicate Warranted(db: Db, op: Op, env: Env, v: Write) {
    match v
    case InsertUser(_, user) =>
      || (op.CreateUser? && |op.password| >= MIN_PASSWORD && user.secret == Hashed(op.password)
          && Some(user.email) == NormalizeEmail(op.email))
      || (op.ExternalLogin? && op.verified && !op.closed && user.secret == NoPassword
          && Some(user.email) == NormalizeEmail(op.email))
    case InsertIdentity(provider, subject, owner) =>
      && op.ExternalLogin? && op.verified && provider == Lower(Trim(op.provider)) && subject == Trim(op.subject)
      && SignsIn(db, op, owner)
    case InsertWorkspace(_, founder) => SignsIn(db, op, founder)
    case InsertFounder(workspace, founder, _) => workspace !in db.workspaces && SignsIn(db, op, founder)
    case SetRole(workspace, member, role) =>
      && op.UpdateMember? && op.principal.role == Some(Owner) && op.principal.workspace == workspace
      && op.user == member && ParseRole(op.role) == Some(role)
    case DeleteMember(workspace, member) =>
      op.RemoveMember? && op.principal.role == Some(Owner) && op.principal.workspace == workspace && op.user == member
    case InsertInvitation(_, i) =>
      && op.Invite? && OwnerOrAdmin(op.principal) && i.workspace == op.principal.workspace
      && i.invitedBy == op.principal.user && Some(i.email) == NormalizeEmail(op.email)
      && Some(i.role) == ParseInvitableRole(op.role)
    case AcceptInvitation(id, member, _) =>
      && op.Accept? && member == op.principal.user && id in db.invitations
      && db.invitations[id].hash == Digest(Trim(op.token)) && EqualFold(db.invitations[id].email, op.principal.email)
    case RevokeInvitation(id, _) =>
      && id in db.invitations
      && (op.Revoke? || op.Invite?) && OwnerOrAdmin(op.principal)
      && db.invitations[id].workspace == op.principal.workspace
      && (op.Revoke? ==> id == Trim(op.id))
      && (op.Invite? ==>
            Some(db.invitations[id].email) == NormalizeEmail(op.email)
            && db.invitations[id].expiresAt <= env.clock(0))
    case InsertSession(_, s) => !op.CreateUser? && SignsIn(db, op, s.user)
    case DeleteSession(hash) => (op.EndSession? || op.RefreshSession?) && hash == Digest(Trim(op.token))
    case InsertKey(_, k) =>
      op.CreateKey? && k.user == Trim(op.user) && Some(k.workspace) == op.context && k.expiresAt == op.expiresAt
    case TouchKey(id, _) =>
      op.AuthenticateKey? && op.due && id in db.keys && db.keys[id].hash == Digest(Trim(op.token))
    case RotateKey(source, _, _, _) =>
      && op.RotateApiKey? && source == Trim(op.key) && source in db.keys && db.keys[source].user == Trim(op.user)
      && Some(db.keys[source].workspace) == op.context
    case RevokeKey(id, _) =>
      && op.DeleteKey? && id == Trim(op.key) && id in db.keys && db.keys[id].user == Trim(op.user)
      && Some(db.keys[id].workspace) == op.context
  }

  ghost predicate AllWarranted(db: Db, op: Op, env: Env, ws: seq<Write>) {
    forall i :: 0 <= i < |ws| ==> Warranted(db, op, env, ws[i])
  }

  lemma OneWarranted(db: Db, op: Op, env: Env, v: Write)
    requires Warranted(db, op, env, v)
    ensures AllWarranted(db, op, env, [v])
  {
  }

  lemma PrefixWarranted(db: Db, op: Op, env: Env, ws: seq<Write>, log: seq<Write>)
    requires AllWarranted(db, op, env, ws) && log <= ws
    ensures AllWarranted(db, op, env, log)
  {
    forall i | 0 <= i < |log|
      ensures Warranted(db, op, env, log[i])
    {
      assert Warranted(db, op, env, ws[i]);
    }
  }

  lemma JoinedWarranted(db: Db, op: Op, env: Env, ws: seq<Write>, vs: seq<Write>)
    requires AllWarranted(db, op, env, ws) && AllWarranted(db, op, env, vs)
    ensures AllWarranted(db, op, env, ws + vs)
  {
    forall i | 0 <= i < |ws + vs|
      ensures Warranted(db, op, env, (ws + vs)[i])
    {
      assert i < |ws| ==> Warranted(db, op, env, ws[i]);
      assert i >= |ws| ==> Warranted(db, op, env, vs[i - |ws|]);
    }
  }

  /** Only a new workspace of the user's own, and sessions of the user. */
  predicate OnlyFor(db: Db, ws: seq<Write>, u: Id) {
    forall i :: 0 <= i < |ws| ==>
      match ws[i]
      case InsertWorkspace(_, founder) => founder == u
      case InsertFounder(workspace, founder, _) => founder == u && workspace !in db.workspaces
      case InsertSession(_, s) => s.user == u
      case _ => false
  }

  lemma HomeIsOnlyFor(db: Db, u: Id, env: Env)
    requires u in db.users && env.names(1) !in db.workspaces
    ensures OnlyFor(db, LoginHome(db, u, env).writes, u)
  {
  }

  lemma NewWorkspaceIsNew(db: Db, env: Env)
    requires Inv(db) && Fresh(db.issued, env)
    ensures env.names(1) !in db.workspaces && env.names(0) !in db.users
  {
  }

  lemma OnlyForIsWarranted(db: Db, op: Op, env: Env, ws: seq<Write>, u: Id)
    requires OnlyFor(db, ws, u) && !op.CreateUser? && SignsIn(db, op, u)
    ensures AllWarranted(db, op, env, ws)
  {
  }

  lemma CreateUserWarranted(db: Db, op: Op, env: Env)
    requires Resolves(db) && op.CreateUser? && env.names(1) !in db.workspaces && env.names(0) !in db.users
    ensures AllWarranted(db, op, env, PlanOf(db, op, env).writes)
  {
  }

  lemma LoginWarranted(db: Db, op: Op, env: Env)
    requires Inv(db) && op.Login? && env.names(1) !in db.workspaces
    ensures AllWarranted(db, op, env, PlanOf(db, op, env).writes)
  {
    match op
    case Login(email, password) =>
      var e := NormalizeEmail(email);
      if LoginPlan(db, email, password, env).writes != [] {
        HomeIsOnlyFor(db, db.usersByEmail[e.value], env);
        OnlyForIsWarranted(db, op, env, LoginHome(db, db.usersByEmail[e.value], env).writes, db.usersByEmail[e.value]);
      }
  }

  lemma FoundingIsOnlyFor(db: Db, u: Id, email: string, env: Env)
    requires env.names(1) !in db.workspaces
    ensures OnlyFor(db, LoginFounding(u, email, env).writes, u)
  {
  }

  /** The caller comes from an identity provider by a name unknown so far. */
  predicate NewIdentity(db: Db, op: Op, e: string) {
    && op.ExternalLogin? && op.verified && NormalizeEmail(op.email) == Some(e)
    && Lower(Trim(op.provider)) != "" && Trim(op.subject) != ""
    && (Lower(Trim(op.provider)), Trim(op.subject)) !in db.identities
  }

  lemma LinkedLoginWarranted(db: Db, op: Op, e: string, env: Env)
    requires Inv(db) && NewIdentity(db, op, e) && e in db.usersByEmail && env.names(1) !in db.workspaces
    ensures AllWarranted(db, op, env,
      [InsertIdentity(Lower(Trim(op.provider)), Trim(op.subject), db.usersByEmail[e])]
      + LoginHome(db, db.usersByEmail[e], env).writes)
  {
    var u := db.usersByEmail[e];
    HomeIsOnlyFor(db, u, env);
    OnlyForIsWarranted(db, op, env, LoginHome(db, u, env).writes, u);
    var v := InsertIdentity(Lower(Trim(op.provider)), Trim(op.subject), u);
    OneWarranted(db, op, env, v);
    JoinedWarranted(db, op, env, [v], LoginHome(db, u, env).writes);
  }

  lemma NewIdentityWarranted(db: Db, op: Op, e: string, env: Env)
    requires NewIdentity(db, op, e) && !op.closed && env.names(0) !in db.users
    ensures SignsIn(db, op, env.names(0))
    ensures Warranted(db, op, env, InsertUser(env.names(0), User(e, NoPassword, env.clock(0))))
    ensures Warranted(db, op, env, InsertIdentity(Lower(Trim(op.provider)), Trim(op.subject), env.names(0)))
  {
  }

  lemma FirstLoginWarranted(db: Db, op: Op, e: string, env: Env)
    requires NewIdentity(db, op, e) && !op.closed && env.names(1) !in db.workspaces && env.names(0) !in db.users
    ensures AllWarranted(db, op, env,
      [InsertUser(env.names(0), User(e, NoPassword, env.clock(0))),
       InsertIdentity(Lower(Trim(op.provider)), Trim(op.subject), env.names(0))]
      + LoginFounding(env.names(0), e, env).writes)
  {
    var u := env.names(0);
    var v, w := InsertUser(u, User(e, NoPassword, env.clock(0))),
        InsertIdentity(Lower(Trim(op.provider)), Trim(op.subject), u);
    NewIdentityWarranted(db, op, e, env);
    FoundingIsOnlyFor(db, u, e, env);
    OnlyForIsWarranted(db, op, env, LoginFounding(u, e, env).writes, u);
    OneWarranted(db, op, env, v);
    OneWarranted(db, op, env, w);
    JoinedWarranted(db, op, env, [v], [w]);
    assert [v] + [w] == [v, w];
    JoinedWarranted(db, op, env, [v, w], LoginFounding(u, e, env).writes);
  }

  lemma ExternalLoginWarranted(db: Db, op: Op, env: Env)
    requires Inv(db) && op.ExternalLogin? && env.names(1) !in db.workspaces && env.names(0) !in db.users
    ensures AllWarranted(db, op, env, PlanOf(db, op, env).writes)
  {
    var k, e := (Lower(Trim(op.provider)), Trim(op.subject)), NormalizeEmail(op.email);
    if k.0 == "" || k.1 == "" {
    } else if k in db.identities {
      HomeIsOnlyFor(db, db.identities[k], env);
      OnlyForIsWarranted(db, op, env, LoginHome(db, db.identities[k], env).writes, db.identities[k]);
    } else if op.verified && e.Some? && e.value in db.usersByEmail {
      LinkedLoginWarranted(db, op, e.value, env);
    } else if op.verified && e.Some? && !op.closed {
      FirstLoginWarranted(db, op, e.value, env);
    }
  }

  lemma RefreshWarranted(db: Db, op: Op, env: Env)
    requires Resolves(db) && op.RefreshSession?
    ensures AllWarranted(db, op, env, PlanOf(db, op, env).writes)
  {
  }

  lemma EndSessionWarranted(db: Db, op: Op, env: Env)
    requires Resolves(db) && op.EndSession?
    ensures AllWarranted(db, op, env, PlanOf(db, op, env).writes)
  {
  }

  lemma SwitchWarranted(db: Db, op: Op, env: Env)
    requires Resolves(db) && op.SwitchWorkspace?
    ensures AllWarranted(db, op, env, PlanOf(db, op, env).writes)
  {
  }

  lemma KeyUseWarranted(db: Db, op: Op, env: Env)
    requires Resolves(db) && op.AuthenticateKey?
    requires forall h :: h in db.keysByHash ==> db.keys[db.keysByHash[h]].hash == h
    ensures AllWarranted(db, op, env, PlanOf(db, op, env).writes)
  {
  }

  lemma KeyCreationWarranted(db: Db, op: Op, env: Env)
    requires Resolves(db) && op.CreateKey?
    ensures AllWarranted(db, op, env, PlanOf(db, op, env).writes)
  {
    var ws := CreateKeyPlan(db, op, env).writes;
    if ws != [] {
      var v := ws[0];
      assert v.InsertKey? && v.key.user == Trim(op.user) && Some(v.key.workspace) == op.context
             && v.key.expiresAt == op.expiresAt;
      OneWarranted(db, op, env, v);
      assert ws == [v];
    }
  }

  lemma RotationWarranted(db: Db, op: Op, env: Env)
    requires Resolves(db) && op.RotateApiKey?
    ensures AllWarranted(db, op, env, PlanOf(db, op, env).writes)
  {
  }

  lemma KeyDeletionWarranted(db: Db, op: Op, env: Env)
    requires Resolves(db) && op.DeleteKey?
    ensures AllWarranted(db, op, env, PlanOf(db, op, env).writes)
  {
  }

  lemma NewcomerWarranted(db: Db, op: Op, e: string, r: Role, env: Env)
    requires op.Invite? && OwnerOrAdmin(op.principal)
    requires NormalizeEmail(op.email) == Some(e) && ParseInvitableRole(op.role) == Some(r)
    ensures AllWarranted(db, op, env, InviteNewcomer(db, op.principal, e, r, env).writes)
  {
    var open := OpenFor(db, op.principal.workspace, e);
    var last := InsertInvitation(env.names(0), NewInvitation(op.principal, e, r, env.names(1), env.clock(2)));
    assert Warranted(db, op, env, last);
    if open.Some? && db.invitations[open.value].expiresAt <= env.clock(0) {
      assert Warranted(db, op, env, RevokeInvitation(open.value, env.clock(1)));
    }
  }

  lemma InviteWarranted(db: Db, op: Op, env: Env)
    requires Resolves(db) && op.Invite?
    ensures AllWarranted(db, op, env, PlanOf(db, op, env).writes)
  {
    if InvitePlan(db, op.principal, op.email, op.role, env).writes != [] {
      NewcomerWarranted(db, op, NormalizeEmail(op.email).value, ParseInvitableRole(op.role).value, env);
    }
  }

  lemma AcceptWarranted(db: Db, op: Op, env: Env)
    requires Resolves(db) && op.Accept?
    requires forall h :: h in db.invitationsByHash ==> db.invitations[db.invitationsByHash[h]].hash == h
    ensures AllWarranted(db, op, env, PlanOf(db, op, env).writes)
  {
  }

  lemma RoleWritesWarranted(db: Db, op: Op, env: Env)
    requires Resolves(db) && op.UpdateMember?
    ensures AllWarranted(db, op, env, PlanOf(db, op, env).writes)
  {
    match op
    case UpdateMember(p, user, role) =>
      if UpdateMemberPlan(db, p, user, role).writes != [] {
        OneWarranted(db, op, env, SetRole(p.workspace, user, ParseRole(role).value));
      }
  }

  lemma RemovalWritesWarranted(db: Db, op: Op, env: Env)
    requires Resolves(db) && op.RemoveMember?
    ensures AllWarranted(db, op, env, PlanOf(db, op, env).writes)
  {
  }

  lemma WithdrawalWritesWarranted(db: Db, op: Op, env: Env)
    requires Resolves(db) && op.Revoke?
    ensures AllWarranted(db, op, env, PlanOf(db, op, env).writes)
  {
  }

  lemma LoginsAreWarranted(db: Db, op: Op, env: Env)
    requires Inv(db) && env.names(1) !in db.workspaces && env.names(0) !in db.users
    requires op.CreateUser? || op.Login? || op.ExternalLogin?
    ensures AllWarranted(db, op, env, PlanOf(db, op, env).writes)
  {
    if op.CreateUser? {
      CreateUserWarranted(db, op, env);
    } else if op.Login? {
      LoginWarranted(db, op, env);
    } else {
      ExternalLoginWarranted(db, op, env);
    }
  }

  lemma SessionsAreWarranted(db: Db, op: Op, env: Env)
    requires Resolves(db) && (op.Authenticate? || op.RefreshSession? || op.EndSession? || op.SwitchWorkspace?)
    ensures AllWarranted(db, op, env, PlanOf(db, op, env).writes)
  {
    if op.RefreshSession? {
      RefreshWarranted(db, op, env);
    } else if op.EndSession? {
      EndSessionWarranted(db, op, env);
    } else if op.SwitchWorkspace? {
      SwitchWarranted(db, op, env);
    }
  }

  lemma IndexesAreTrue(db: Db)
    requires Inv(db)
    ensures forall h :: h in db.keysByHash ==> db.keysByHash[h] in db.keys && db.keys[db.keysByHash[h]].hash == h
    ensures forall h :: h in db.invitationsByHash ==>
      db.invitationsByHash[h] in db.invitations && db.invitations[db.invitationsByHash[h]].hash == h
    ensures Resolves(db)
  {
  }

  lemma KeysAreWarranted(db: Db, op: Op, env: Env)
    requires Inv(db) && (op.CreateKey? || op.RotateApiKey? || op.DeleteKey? || op.AuthenticateKey?)
    ensures AllWarranted(db, op, env, PlanOf(db, op, env).writes)
  {
    IndexesAreTrue(db);
    if op.AuthenticateKey? {
      KeyUseWarranted(db, op, env);
    } else if op.CreateKey? {
      KeyCreationWarranted(db, op, env);
    } else if op.RotateApiKey? {
      RotationWarranted(db, op, env);
    } else {
      KeyDeletionWarranted(db, op, env);
    }
  }

  lemma MembersAreWarranted(db: Db, op: Op, env: Env)
    requires Inv(db) && (op.Invite? || op.Accept? || op.Revoke? || op.UpdateMember? || op.RemoveMember?)
    ensures AllWarranted(db, op, env, PlanOf(db, op, env).writes)
  {
    IndexesAreTrue(db);
    if op.Invite? {
      InviteWarranted(db, op, env);
    } else if op.Accept? {
      AcceptWarranted(db, op, env);
    } else if op.Revoke? {
      WithdrawalWritesWarranted(db, op, env);
    } else if op.UpdateMember? {
      RoleWritesWarranted(db, op, env);
    } else {
      RemovalWritesWarranted(db, op, env);
    }
  }

  lemma PlansAreWarranted(db: Db, op: Op, env: Env)
    requires Inv(db) && Fresh(db.issued, env)
    ensures AllWarranted(db, op, env, PlanOf(db, op, env).writes)
  {
    NewWorkspaceIsNew(db, env);
    if op.CreateUser? || op.Login? || op.ExternalLogin? {
      LoginsAreWarranted(db, op, env);
    } else if op.Authenticate? || op.RefreshSession? || op.EndSession? || op.SwitchWorkspace? {
      SessionsAreWarranted(db, op, env);
    } else if op.CreateKey? || op.RotateApiKey? || op.DeleteKey? || op.AuthenticateKey? {
      KeysAreWarranted(db, op, env);
    } else {
      MembersAreWarranted(db, op, env);
    }
  }

  /**
   * Nothing is ever written for a caller who has not shown what the write takes: passwords, provider identities,
   * roles in the workspace, tokens and the ownership of keys are checked before every single write.
   */
  lemma EveryWriteIsWarranted(db: Db, s: Step)
    requires StepOk(db, s)
    ensures forall i :: 0 <= i < |Committed(db, s)| ==> Warranted(db, s.op, s.env, Committed(db, s)[i])
  {
    PlansAreWarranted(db, s.op, s.env);
  }

  // ---------------------------------------------------------------- memberships over runs

  /** An owner of the workspace removes the user. */
  predicate OwnerRemoves(s: Step, w: Id, u: Id) {
    s.op.RemoveMember? && s.op.principal.role == Some(Owner) && s.op.principal.workspace == w && s.op.user == u
  }

  /** An owner of the workspace gives the user a role. */
  predicate OwnerRanks(s: Step, w: Id, u: Id) {
    && s.op.UpdateMember? && s.op.principal.role == Some(Owner) && s.op.principal.workspace == w && s.op.user == u
    && ParseRole(s.op.role).Some?
  }

  lemma {:induction false} MembersSurvive(db: Db, ws: seq<Write>, w: Id, u: Id)
    requires LawfulAll(db, ws) && (w, u) in db.members
    requires forall i :: 0 <= i < |ws| ==> ws[i] != DeleteMember(w, u)
    ensures (w, u) in ApplyAll(db, ws).members
    decreases |ws|
  {
    if ws != [] {
      assert ws[0] != DeleteMember(w, u);
      assert (w, u) in MembersAfter(db, ws[0]);
      MembersSurvive(Apply(db, ws[0]), ws[1..], w, u);
    }
  }

  lemma {:induction false} RowsSurvive(db: Db, ws: seq<Write>, w: Id, u: Id)
    requires LawfulAll(db, ws) && (w, u) in db.members
    requires forall i :: 0 <= i < |ws| ==> !Touches(ws[i], w, u)
    ensures (w, u) in ApplyAll(db, ws).members && ApplyAll(db, ws).members[(w, u)] == db.members[(w, u)]
    decreases |ws|
  {
    if ws != [] {
      var next := Apply(db, ws[0]);
      assert !Touches(ws[0], w, u);
      assert next.members == MembersAfter(db, ws[0]);
      assert (w, u) in next.members && next.members[(w, u)] == db.members[(w, u)];
      RowsSurvive(next, ws[1..], w, u);
    }
  }

  lemma RemovalStep(db: Db, s: Step, w: Id, u: Id)
    requires StepOk(db, s) && (w, u) in db.members && (w, u) !in After(db, s).members
    ensures OwnerRemoves(s, w, u)
  {
    EveryWriteIsWarranted(db, s);
    CommittedLawful(db, s);
    var ws := Committed(db, s);
    if i :| 0 <= i < |ws| && ws[i] == DeleteMember(w, u) {
      assert Warranted(db, s.op, s.env, ws[i]);
    } else {
      MembersSurvive(db, ws, w, u);
    }
  }

  predicate Touches(v: Write, w: Id, u: Id) {
    v == DeleteMember(w, u) || (v.SetRole? && v.workspace == w && v.member == u)
  }

  lemma TouchedByOwner(db: Db, s: Step, w: Id, u: Id, v: Write)
    requires Warranted(db, s.op, s.env, v) && Touches(v, w, u)
    ensures OwnerRemoves(s, w, u) || OwnerRanks(s, w, u)
  {
  }

  lemma ChangeStep(db: Db, s: Step, w: Id, u: Id)
    requires StepOk(db, s) && (w, u) in db.members
    requires (w, u) !in After(db, s).members || After(db, s).members[(w, u)] != db.members[(w, u)]
    ensures OwnerRemoves(s, w, u) || OwnerRanks(s, w, u)
  {
    EveryWriteIsWarranted(db, s);
    CommittedLawful(db, s);
    var ws := Committed(db, s);
    if i :| 0 <= i < |ws| && Touches(ws[i], w, u) {
      TouchedByOwner(db, s, w, u, ws[i]);
    } else {
      RowsSurvive(db, ws, w, u);
    }
  }

  /** Over any run, a member that is gone was removed by an owner of its workspace. */
  lemma OnlyOwnersRemove(db: Db, steps: seq<Step>, w: Id, u: Id, n: nat)
    requires Run(db, steps) && n <= |steps| && (w, u) in db.members && (w, u) !in StateAt(db, steps, n).members
    ensures exists i :: 0 <= i < n && OwnerRemoves(steps[i], w, u)
  {
    var cause := (a: Db, s: Step) => OwnerRemoves(s, w, u);
    var mark := (a: Db) => (w, u) !in a.members;
    forall a, s | StepOk(a, s) && !mark(a) && mark(After(a, s))
      ensures cause(a, s)
    {
      RemovalStep(a, s, w, u);
    }
    Runs.Caused(StepOk, After, cause, mark, db, steps, n);
    var i :| 0 <= i < n && cause(Runs.At(After, db, steps, i), steps[i]);
    assert OwnerRemoves(steps[i], w, u);
  }

  /** Over any run, a membership stays as it is, role and all, until an owner of its workspace changes or ends it. */
  lemma OnlyOwnersChange(db: Db, steps: seq<Step>, w: Id, u: Id, n: nat)
    requires Run(db, steps) && n <= |steps| && (w, u) in db.members
    requires var b := StateAt(db, steps, n).members; (w, u) !in b || b[(w, u)] != db.members[(w, u)]
    ensures exists i :: 0 <= i < n && (OwnerRemoves(steps[i], w, u) || OwnerRanks(steps[i], w, u))
  {
    var m := db.members[(w, u)];
    var cause := (a: Db, s: Step) => OwnerRemoves(s, w, u) || OwnerRanks(s, w, u);
    var mark := (a: Db) => (w, u) !in a.members || a.members[(w, u)] != m;
    forall a, s | StepOk(a, s) && !mark(a) && mark(After(a, s))
      ensures cause(a, s)
    {
      ChangeStep(a, s, w, u);
    }
    Runs.Caused(StepOk, After, cause, mark, db, steps, n);
    var i :| 0 <= i < n && cause(Runs.At(After, db, steps, i), steps[i]);
    assert OwnerRemoves(steps[i], w, u) || OwnerRanks(steps[i], w, u);
  }

  // ---------------------------------------------------------------- members: exactly when, and what then

  /** The member may lose its ownership: it has none, or is not the last to have it. */
  predicate Dispensable(members: map<(Id, Id), Membership>, w: Id, u: Id)
    requires (w, u) in members
  {
    members[(w, u)].role == Owner ==> OtherOwner(members, w, u)
  }

  lemma OwnerCount(members: map<(Id, Id), Membership>, w: Id, u: Id)
    requires (w, u) in members && members[(w, u)].role == Owner
    ensures |Owners(members, w)| > 1 <==> OtherOwner(members, w, u)
  {
    if |Owners(members, w)| > 1 {
      SecondOwner(members, w, u);
    }
    if OtherOwner(members, w, u) {
      var k :| k in members && k.0 == w && k.1 != u && members[k].role == Owner;
      var rest := Owners(members, w) - {(w, u)};
      assert k in rest && Owners(members, w) == rest + {(w, u)};
    }
  }

  /** A removal succeeds exactly for owners of the workspace and members that are not its last owner. */
  predicate RemovalAnswer(db: Db, p: Principal, u: string, r: Reply) {
    && (r == Failed(Forbidden) <==> p.role != Some(Owner))
    && (r == Done <==>
        p.role == Some(Owner) && (p.workspace, u) in db.members && Dispensable(db.members, p.workspace, u))
    && (r == Failed(Conflict) <==>
        && p.role == Some(Owner) && (p.workspace, Trim(u)) in db.members
        && !Dispensable(db.members, p.workspace, Trim(u)))
    && r in {Done, Failed(Forbidden), Failed(NotFound), Failed(Conflict)}
  }

  ghost predicate TrimmedMembers(db: Db) {
    forall w, u :: (w, u) in db.members ==> Trim(u) == u
  }

  lemma MembersAreTrimmed(db: Db)
    requires Inv(db)
    ensures TrimmedMembers(db)
  {
    forall w, u | (w, u) in db.members
      ensures Trim(u) == u
    {
      CheckedRowIsWrittenRow(db, w, u);
    }
  }

  lemma RemovalReply(db: Db, p: Principal, u: string)
    requires TrimmedMembers(db)
    ensures RemovalAnswer(db, p, u, RemoveMemberPlan(db, p, u).reply)
    ensures RemoveMemberPlan(db, p, u).writes
         == if RemoveMemberPlan(db, p, u).reply == Done then [DeleteMember(p.workspace, u)] else []
  {
    var k := (p.workspace, Trim(u));
    if k in db.members && db.members[k].role == Owner {
      OwnerCount(db.members, p.workspace, Trim(u));
    }
  }

  /** Exactly this membership is gone. */
  predicate MemberGone(before: Db, after: Db, w: Id, u: Id) {
    after == before.(members := before.members - {(w, u)})
  }

  lemma RemovalPlan(db: Db, op: Op, env: Env)
    requires Resolves(db) && TrimmedMembers(db) && op.RemoveMember? && LawfulAll(db, PlanOf(db, op, env).writes)
    ensures RemovalAnswer(db, op.principal, op.user, PlanOf(db, op, env).reply)
    ensures var plan := PlanOf(db, op, env); var b := ApplyAll(db, plan.writes);
      if plan.reply == Done then MemberGone(db, b, op.principal.workspace, op.user) else b == db
  {
    RemovalReply(db, op.principal, op.user);
    if PlanOf(db, op, env).reply == Done {
      MemberDeleted(db, DeleteMember(op.principal.workspace, op.user));
    }
  }

  /** The answer to a removal, and that exactly this member is gone if it is reported done. */
  lemma RemovalExactly(db: Db, s: Step)
    requires StepOk(db, s) && s.op.RemoveMember? && !s.failed
    ensures RemovalAnswer(db, s.op.principal, s.op.user, ReplyOf(db, s))
    ensures if ReplyOf(db, s) == Done then MemberGone(db, After(db, s), s.op.principal.workspace, s.op.user)
      else After(db, s) == db
  {
    MembersAreTrimmed(db);
    UnfailedStep(db, s);
    RemovalPlan(db, s.op, s.env);
  }

  lemma MemberDeleted(db: Db, v: Write)
    requires LawfulAll(db, [v]) && v.DeleteMember?
    ensures MemberGone(db, ApplyAll(db, [v]), v.workspace, v.member)
  {
    assert Lawful(db, [v][0]);
    OneWriteLawful(db, v);
    assert db.issued + {} == db.issued;
  }

  /** A change of role succeeds exactly for owners of the workspace and members who need not stay owner. */
  predicate RoleAnswer(db: Db, p: Principal, u: string, role: Option<Role>, r: Reply) {
    && (r == Failed(Forbidden) <==> p.role != Some(Owner))
    && (r == Failed(InvalidInput) <==> p.role == Some(Owner) && role.None?)
    && (r == Done <==>
        && p.role == Some(Owner) && role.Some? && (p.workspace, u) in db.members
        && (role.value != Owner ==> Dispensable(db.members, p.workspace, u)))
    && (r == Failed(Conflict) <==>
        && p.role == Some(Owner) && role.Some? && (p.workspace, Trim(u)) in db.members
        && role.value != Owner && !Dispensable(db.members, p.workspace, Trim(u)))
    && r in {Done, Failed(Forbidden), Failed(InvalidInput), Failed(NotFound), Failed(Conflict)}
  }

  lemma RoleReply(db: Db, p: Principal, u: string, role: string)
    requires TrimmedMembers(db)
    ensures RoleAnswer(db, p, u, ParseRole(role), UpdateMemberPlan(db, p, u, role).reply)
    ensures UpdateMemberPlan(db, p, u, role).writes
         == if UpdateMemberPlan(db, p, u, role).reply == Done
            then [SetRole(p.workspace, u, ParseRole(role).value)] else []
  {
    var k := (p.workspace, Trim(u));
    if k in db.members && db.members[k].role == Owner {
      OwnerCount(db.members, p.workspace, Trim(u));
    }
  }

  /** Exactly this role has changed. */
  predicate RoleGiven(before: Db, after: Db, w: Id, u: Id, role: Role) {
    && (w, u) in before.members
    && after == before.(members := before.members[(w, u) := before.members[(w, u)].(role := role)])
  }

  lemma RolePlan(db: Db, op: Op, env: Env)
    requires Resolves(db) && TrimmedMembers(db) && op.UpdateMember? && LawfulAll(db, PlanOf(db, op, env).writes)
    ensures RoleAnswer(db, op.principal, op.user, ParseRole(op.role), PlanOf(db, op, env).reply)
    ensures var plan := PlanOf(db, op, env); var b := ApplyAll(db, plan.writes);
      && (plan.reply != Done ==> b == db)
      && (plan.reply == Done ==>
            ParseRole(op.role).Some?
            && RoleGiven(db, b, op.principal.workspace, op.user, ParseRole(op.role).value))
  {
    RoleReply(db, op.principal, op.user, op.role);
    RoleApplied(db, op.principal, op.user, op.role);
  }

  /** The answer to a change of role, and that exactly this role has changed if it is reported done. */
  lemma RoleChangeExactly(db: Db, s: Step)
    requires StepOk(db, s) && s.op.UpdateMember? && !s.failed
    ensures RoleAnswer(db, s.op.principal, s.op.user, ParseRole(s.op.role), ReplyOf(db, s))
    ensures ReplyOf(db, s) != Done ==> After(db, s) == db
    ensures ReplyOf(db, s) == Done ==>
      RoleGiven(db, After(db, s), s.op.principal.workspace, s.op.user, ParseRole(s.op.role).value)
  {
    MembersAreTrimmed(db);
    UnfailedStep(db, s);
    RolePlan(db, s.op, s.env);
  }

  lemma RoleApplied(db: Db, p: Principal, u: string, role: string)
    requires LawfulAll(db, UpdateMemberPlan(db, p, u, role).writes)
    ensures var plan := UpdateMemberPlan(db, p, u, role); var b := ApplyAll(db, plan.writes);
      && (plan.reply != Done ==> b == db)
      && (plan.reply == Done ==> ParseRole(role).Some? && RoleGiven(db, b, p.workspace, u, ParseRole(role).value))
  {
    if UpdateMemberPlan(db, p, u, role).reply == Done {
      RoleWritten(db, SetRole(p.workspace, u, ParseRole(role).value));
    }
  }

  lemma RoleWritten(db: Db, v: Write)
    requires LawfulAll(db, [v]) && v.SetRole?
    ensures RoleGiven(db, ApplyAll(db, [v]), v.workspace, v.member, v.role)
  {
    assert Lawful(db, [v][0]);
    OneWriteLawful(db, v);
    assert db.issued + {} == db.issued;
  }
}
