/**
 * The auth service itself: each operation reads, checks and writes step by step against its repository,
 * any call of which may fail. Every operation is proved to carry out its plan, or a prefix of it.
 */
module AuthService {
  import opened Text
  import opened AuthTypes
  import opened Options
  import opened AuthTables
  import opened AuthHistory
  import opened AuthPlans
  import opened AuthLawful
  import opened WorkspaceChoice
  import opened UsageTracking
  import Authorization

  /** The writes of `log` were committed, in the order of the plan; short of the whole plan only if a call failed. */
  ghost predicate Served(before: Db, after: Db, plan: Plan, log: seq<Write>, r: Reply, env: Env) {
    && LawfulAll(before, log) && after == ApplyAll(before, log) && log <= plan.writes
    && ((r == plan.reply && log == plan.writes) || (r == Failed(Internal) && Faulty(env)))
  }

  /** Whatever part of its plan an operation carries out, the invariant survives and history moves forward. */
  lemma ServedKeepsInv(before: Db, after: Db, plan: Plan, log: seq<Write>, r: Reply, env: Env)
    requires Inv(before) && Served(before, after, plan, log, r, env)
    ensures Inv(after) && Evolves(before, after)
  {
    ApplyAllEvolves(before, log);
  }

  lemma NextWriteLawful(start: Db, ws: seq<Write>, log: seq<Write>, w: Write)
    requires LawfulAll(start, ws) && log + [w] <= ws
    ensures LawfulAll(start, log) && Lawful(ApplyAll(start, log), w)
    ensures LawfulAll(start, log + [w]) && ApplyAll(start, log + [w]) == Apply(ApplyAll(start, log), w)
    decreases |ws|
  {
    LawfulPrefix(start, ws, |log|);
    assert ws[..|log|] == log;
    LawfulPrefix(start, ws, |log| + 1);
    assert ws[..|log| + 1] == log + [w];
    LastWriteLawful(start, log, w);
    ApplyAllOne(start, log, w);
  }

  lemma {:induction false} LastWriteLawful(start: Db, log: seq<Write>, w: Write)
    requires LawfulAll(start, log) && LawfulAll(start, log + [w])
    ensures Lawful(ApplyAll(start, log), w)
    decreases |log|
  {
    if log == [] {
      assert (log + [w])[0] == w;
    } else {
      var all := log + [w];
      assert all[1..] == log[1..] + [w];
      LastWriteLawful(Apply(start, log[0]), log[1..], w);
    }
  }

  lemma {:induction false} ServedInFull(before: Db, after: Db, mid: Db, front: seq<Write>, back: seq<Write>,
      plan: Plan, rest: Plan,
      r: Reply, env: Env)
    requires LawfulAll(before, front) && mid == ApplyAll(before, front)
    requires Served(mid, after, rest, back, r, env)
    requires plan == Plan(front + rest.writes, rest.reply)
    ensures Served(before, after, plan, front + back, r, env)
  {
    ApplyAllConcat(before, front, back);
  }

  lemma SetRoleIsLawful(db: Db, p: Principal, user: string, role: string)
    requires Inv(db) && UpdateMemberPlan(db, p, user, role).writes != []
    ensures Lawful(db, SetRole(p.workspace, user, ParseRole(role).value))
  {
    UpdateMemberLawful(db, p, user, role);
    assert UpdateMemberPlan(db, p, user, role).writes[0] == SetRole(p.workspace, user, ParseRole(role).value);
  }

  lemma NewUserFits(db: Db, e: string, password: string, env: Env)
    requires Inv(db) && Fresh(db.issued, env) && IsNormalEmail(e) && e !in db.usersByEmail
    ensures Lawful(db, InsertUser(env.names(0), User(e, Hashed(password), env.clock(0))))
    ensures LoginNames(db.issued + {env.names(0)}, env)
    ensures forall k :: k in db.members ==> k.0 in db.issued && k.1 != env.names(0)
  {
    MembersInIssued(db);
  }

  lemma AcceptanceIsLawful(db: Db, p: Principal, token: string, env: Env)
    requires Inv(db) && Fresh(db.issued, env) && Authentic(db, p) && AcceptPlan(db, p, token, env).writes != []
    ensures var id := db.invitationsByHash[Digest(Trim(token))];
      && Lawful(db, AcceptInvitation(id, p.user, env.clock(1))) && db.invitations[id].workspace in db.workspaces
    ensures env.names(2) !in db.issued && env.names(3) !in db.issued && env.names(2) != env.names(3)
  {
    NormalFold(db.invitations[db.invitationsByHash[Digest(Trim(token))]].email, p.email);
  }

  lemma DeleteMemberIsLawful(db: Db, p: Principal, user: string)
    requires Inv(db) && RemoveMemberPlan(db, p, user).writes != []
    ensures Lawful(db, DeleteMember(p.workspace, user))
  {
    RemoveMemberLawful(db, p, user);
    assert RemoveMemberPlan(db, p, user).writes[0] == DeleteMember(p.workspace, user);
  }

  /** Three random names, the last ones a login needs, are still unused. */
  predicate LoginNames(issued: set<string>, env: Env) {
    NewNames3(issued, env.names(1), env.names(2), env.names(3))
  }

  class Service {
    var db: Db
    const usage: UsageTracker

    constructor (tracker: UsageTracker)
      ensures db == EMPTY && usage == tracker && Inv(db)
    {
      db := EMPTY;
      usage := tracker;
      new;
      EmptyInv();
    }

    /** One repository write, the next one of the plan that `start` called for. */
    method Commit(w: Write, ghost start: Db, ghost ws: seq<Write>, ghost log: seq<Write>)
      requires LawfulAll(start, ws) && log + [w] <= ws
      requires LawfulAll(start, log) && db == ApplyAll(start, log)
      modifies this`db
      ensures Lawful(old(db), w) && db == Apply(old(db), w)
      ensures LawfulAll(start, log + [w]) && db == ApplyAll(start, log + [w])
    {
      NextWriteLawful(start, ws, log, w);
      db := Apply(db, w);
    }

    /** An operation whose plan is a single write. */
    method CommitOnly(w: Write)
      requires Lawful(db, w)
      modifies this`db
      ensures LawfulAll(old(db), [w]) && db == ApplyAll(old(db), [w])
    {
      OneWriteLawful(db, w);
      db := Apply(db, w);
    }

    method CreateLoginResultForWorkspace(u: Id, w: Id, env: Env) returns (r: Reply, ghost log: seq<Write>)
      requires u in db.users && ((w, u) in db.members ==> w in db.workspaces)
      requires env.names(2) !in db.issued && env.names(3) !in db.issued && env.names(2) != env.names(3)
      modifies this`db
      ensures Served(old(db), db, LoginInto(old(db), u, w, env.names(2), env.names(3), env.clock(3)), log, r, env)
    {
      log := [];
      if env.fails(20) { return Failed(Internal), []; }
      if (w, u) !in db.members { return Failed(Forbidden), []; }
      var session := SessionOf(u, db.users[u].email, w, db.members[(w, u)].role);
      if env.fails(21) { return Failed(Internal), []; }
      var access, refresh, now := env.names(2), env.names(3), env.clock(3);
      ghost var start := db;
      ghost var ws := SessionWrites(u, w, access, refresh, now);
      SessionWritesLawful(db, u, w, access, refresh, now);
      if env.fails(22) { return Failed(Internal), []; }
      var v0 := InsertSession(access, Session(u, w, Access, now + ACCESS_TTL, now));
      Commit(v0, start, ws, log);
      log := [v0];
      if env.fails(23) { return Failed(Internal), log; }
      var v1 := InsertSession(refresh, Session(u, w, Refresh, now + REFRESH_TTL, now));
      Commit(v1, start, ws, log);
      log := [v0, v1];
      return LoggedIn(access, refresh, session), log;
    }

    /** `None` when a repository call failed. */
    method EnsureDefaultWorkspace(u: Id, env: Env) returns (w: Option<Id>, ghost log: seq<Write>)
      requires u in db.users && LoginNames(db.issued, env) && forall k :: k in db.members ==> k.0 in db.issued
      modifies this`db
      ensures log <= (if DefaultWorkspace(old(db).members, u).Some? then []
          else FoundingWrites(u, env.names(1), env.clock(2)))
      ensures LawfulAll(old(db), log) && db == ApplyAll(old(db), log)
      ensures w.None? ==> Faulty(env)
      ensures w.Some? ==> match DefaultWorkspace(old(db).members, u)
        case Some(d) => w == Some(d) && log == []
        case None => w == Some(env.names(1)) && log == FoundingWrites(u, env.names(1), env.clock(2))
    {
      log := [];
      if env.fails(10) { return None, []; }
      var found := FindDefaultWorkspace(db.members, u);
      if found.Some? { return found, []; }
      var id, now := env.names(1), env.clock(2);
      ghost var start := db;
      ghost var ws := FoundingWrites(u, id, now);
      FoundingWritesLawful(db, u, id, now);
      if env.fails(11) { return None, []; }
      Commit(InsertWorkspace(id, u), start, ws, log);
      log := [InsertWorkspace(id, u)];
      if env.fails(12) { return None, log; }
      Commit(InsertFounder(id, u, now), start, ws, log);
      log := ws;
      return Some(id), log;
    }

    method CreateLoginResult(u: Id, env: Env) returns (r: Reply, ghost log: seq<Write>)
      requires u in db.users && LoginNames(db.issued, env)
      requires forall k :: k in db.members ==> k.0 in db.issued && k.0 in db.workspaces
      modifies this`db
      ensures Served(old(db), db, LoginHome(old(db), u, env), log, r, env)
    {
      ghost var start := db;
      var w, front := EnsureDefaultWorkspace(u, env);
      if w.None? { return Failed(Internal), front; }
      ghost var mid := db;
      if DefaultWorkspace(start.members, u).None? {
        FoundingWritesLawful(start, u, env.names(1), env.clock(2));
      }
      ghost var back;
      r, back := CreateLoginResultForWorkspace(u, w.value, env);
      log := front + back;
      ServedInFull(start, db, mid, front, back, LoginHome(start, u, env),
                   LoginInto(mid, u, w.value, env.names(2), env.names(3), env.clock(3)), r, env);
    }

    method CreateUser(email: string, password: string, env: Env) returns (r: Reply, ghost log: seq<Write>)
      requires Inv(db) && Fresh(db.issued, env)
      modifies this`db
      ensures Served(old(db), db, CreateUserPlan(old(db), email, password, env), log, r, env)
    {
      var e := NormalizeEmail(email);
      if e.None? { return Failed(InvalidInput), []; }
      if |password| < MIN_PASSWORD { return Failed(InvalidInput), []; }
      if env.fails(0) { return Failed(Internal), []; }
      if e.value in db.usersByEmail { return Failed(Conflict), []; }
      NewUserFits(db, e.value, password, env);
      r, log := SaveUserWithWorkspace(User(e.value, Hashed(password), env.clock(0)), env);
    }

    /** A new user belongs nowhere yet, so a workspace is always founded for it. */
    method SaveUserWithWorkspace(user: User, env: Env) returns (r: Reply, ghost log: seq<Write>)
      requires Lawful(db, InsertUser(env.names(0), user)) && LoginNames(db.issued + {env.names(0)}, env)
      requires forall k :: k in db.members ==> k.0 in db.issued && k.1 != env.names(0)
      modifies this`db
      ensures var u, w := env.names(0), env.names(1);
        Served(old(db), db,
          Plan([InsertUser(u, user)] + FoundingWrites(u, w, env.clock(2)), Registered(u, w)), log, r, env)
    {
      var u := env.names(0);
      ghost var start := db;
      var v0 := InsertUser(u, user);
      OneWriteLawful(db, v0);
      Commit(v0, start, [v0], []);
      assert DefaultWorkspace(db.members, u).None?;
      ghost var mid := db;
      var w, back := EnsureDefaultWorkspace(u, env);
      log := [v0] + back;
      ApplyAllConcat(start, [v0], back);
      if w.None? { return Failed(Internal), log; }
      return Registered(u, w.value), log;
    }

    method Login(email: string, password: string, env: Env) returns (r: Reply, ghost log: seq<Write>)
      requires Inv(db) && Fresh(db.issued, env)
      modifies this`db
      ensures Served(old(db), db, LoginPlan(old(db), email, password, env), log, r, env)
    {
      var e := NormalizeEmail(email);
      if e.None? { return Failed(Unauthorized), []; }
      if env.fails(0) { return Failed(Internal), []; }
      if e.value !in db.usersByEmail { return Failed(Unauthorized), []; }
      var u := db.usersByEmail[e.value];
      if db.users[u].secret != Hashed(password) { return Failed(Unauthorized), []; }
      MembersInIssued(db);
      r, log := CreateLoginResult(u, env);
    }

    method LoginWithExternalIdentity(provider: string, subject: string, email: string, verified: bool, closed: bool,
        env: Env)
      returns (r: Reply, ghost log: seq<Write>)
      requires Inv(db) && Fresh(db.issued, env)
      modifies this`db
      ensures Served(old(db), db,
        ExternalLoginPlan(old(db), provider, subject, email, verified, closed, env), log, r, env)
    {
      var p, s := Lower(Trim(provider)), Trim(subject);
      if p == "" || s == "" { return Failed(Unauthorized), []; }
      MembersInIssued(db);
      if env.fails(0) { return Failed(Internal), []; }
      if (p, s) in db.identities {
        if env.fails(1) { return Failed(Internal), []; }
        r, log := CreateLoginResult(db.identities[(p, s)], env);
        return;
      }
      if !verified { return Failed(Unauthorized), []; }
      var e := NormalizeEmail(email);
      if e.None? { return Failed(Unauthorized), []; }
      if env.fails(2) { return Failed(Internal), []; }
      if e.value in db.usersByEmail {
        r, log := LinkIdentity(p, s, db.usersByEmail[e.value], env);
        return;
      }
      if closed { return Failed(Forbidden), []; }
      r, log := RegisterIdentity(p, s, e.value, env);
    }

    /** The part of an external login that attaches the identity to a known user. */
    method LinkIdentity(p: string, s: string, u: Id, env: Env) returns (r: Reply, ghost log: seq<Write>)
      requires Inv(db) && Fresh(db.issued, env) && u in db.users && (p, s) !in db.identities
      modifies this`db
      ensures var home := LoginHome(old(db), u, env);
        Served(old(db), db, Plan([InsertIdentity(p, s, u)] + home.writes, home.reply), log, r, env)
    {
      ghost var start := db;
      ghost var home := LoginHome(db, u, env);
      ghost var plan := Plan([InsertIdentity(p, s, u)] + home.writes, home.reply);
      LinkedLoginLawful(db, p, s, u, env);
      MembersInIssued(db);
      log := [];
      if env.fails(3) { return Failed(Internal), []; }
      Commit(InsertIdentity(p, s, u), start, plan.writes, log);
      ghost var mid := db;
      assert mid.members == start.members && mid.users == start.users && mid.workspaces == start.workspaces;
      assert mid.issued == start.issued;
      ghost var back;
      r, back := CreateLoginResult(u, env);
      log := [InsertIdentity(p, s, u)] + back;
      assert LoginHome(mid, u, env) == home;
      ServedInFull(start, db, mid, [InsertIdentity(p, s, u)], back, plan, home, r, env);
    }

    /** The part of an external login that creates the user. */
    method RegisterIdentity(p: string, s: string, e: string, env: Env) returns (r: Reply, ghost log: seq<Write>)
      requires Inv(db) && Fresh(db.issued, env) && e !in db.usersByEmail && IsNormalEmail(e) && (p, s) !in db.identities
      modifies this`db
      ensures var u := env.names(0); var home := LoginFounding(u, e, env);
        Served(old(db), db,
          Plan([InsertUser(u, User(e, NoPassword, env.clock(0))), InsertIdentity(p, s, u)] + home.writes, home.reply),
          log, r, env)
    {
      MembersInIssued(db);
      r, log := SaveUserWithIdentity(p, s, User(e, NoPassword, env.clock(0)), env);
    }

    method SaveUserWithIdentity(p: string, s: string, user: User, env: Env) returns (r: Reply, ghost log: seq<Write>)
      requires Lawful(db, InsertUser(env.names(0), user)) && LoginNames(db.issued + {env.names(0)}, env)
          && (p, s) !in db.identities
      requires forall k :: k in db.members ==> k.0 in db.issued && k.0 in db.workspaces && k.1 != env.names(0)
      modifies this`db
      ensures var u := env.names(0); var home := LoginFounding(u, user.email, env);
        Served(old(db), db, Plan([InsertUser(u, user), InsertIdentity(p, s, u)] + home.writes, home.reply), log, r, env)
    {
      ghost var start := db;
      var u := env.names(0);
      ghost var home := LoginFounding(u, user.email, env);
      var v0, v1 := InsertUser(u, user), InsertIdentity(p, s, u);
      ghost var plan := Plan([v0, v1] + home.writes, home.reply);
      TwoWritesLawful(db, v0, v1);
      log := [];
      if env.fails(4) { return Failed(Internal), []; }
      Commit(v0, start, [v0, v1], log);
      log := [v0];
      if env.fails(3) { return Failed(Internal), log; }
      Commit(v1, start, [v0, v1], log);
      ghost var mid := db;
      assert mid.members == start.members && mid.workspaces == start.workspaces
          && mid.issued == start.issued + {u} + {};
      assert LoginNames(mid.issued, env) && DefaultWorkspace(mid.members, u).None?;
      ghost var back;
      r, back := CreateLoginResult(u, env);
      log := [v0, v1] + back;
      ServedInFull(start, db, mid, [v0, v1], back, plan, home, r, env);
    }

    method AuthenticateToken(token: string, kind: TokenKind, env: Env) returns (r: Reply)
      requires Inv(db)
      ensures r == AuthenticatePlan(db, token, kind, env).reply || (r == Failed(Internal) && Faulty(env))
    {
      var t := Trim(token);
      if t == "" { return Failed(Unauthorized); }
      if env.fails(0) { return Failed(Internal); }
      var h := Digest(t);
      if h !in db.sessions || db.sessions[h].kind != kind || db.sessions[h].expiresAt <= env.clock(0) {
        return Failed(Unauthorized);
      }
      var session := db.sessions[h];
      if env.fails(1) { return Failed(Internal); }
      if session.user !in db.users { return Failed(Unauthorized); }
      var w := Trim(session.workspace);
      TrimFixes(session.workspace);
      if w == "" { return Failed(Unauthorized); }
      if env.fails(2) { return Failed(Internal); }
      if (w, session.user) !in db.members { return Failed(Unauthorized); }
      return Authenticated(SessionOf(session.user, db.users[session.user].email, w,
          db.members[(w, session.user)].role));
    }

    method RefreshSession(token: string, env: Env) returns (r: Reply, ghost log: seq<Write>)
      requires Inv(db) && Fresh(db.issued, env)
      modifies this`db
      ensures Served(old(db), db, RefreshPlan(old(db), token, env), log, r, env)
    {
      RefreshLawful(db, token, env);
      var found := AuthenticateToken(token, Refresh, env);
      if !found.Authenticated? { return found, []; }
      r, log := ReplaceSession(Digest(Trim(token)), found.principal, env);
    }

    /** The old refresh session goes first, so a failure in between leaves the token spent. */
    method ReplaceSession(h: Digest, p: Principal, env: Env) returns (r: Reply, ghost log: seq<Write>)
      requires LawfulAll(db, [DeleteSession(h)]
          + SessionWrites(p.user, p.workspace, env.names(0), env.names(1), env.clock(1)))
      modifies this`db
      ensures Served(old(db), db,
        Plan([DeleteSession(h)] + SessionWrites(p.user, p.workspace, env.names(0), env.names(1), env.clock(1)),
             LoggedIn(env.names(0), env.names(1), p)), log, r, env)
    {
      var access, refresh, now := env.names(0), env.names(1), env.clock(1);
      var v0 := DeleteSession(h);
      var v1 := InsertSession(access, Session(p.user, p.workspace, Access, now + ACCESS_TTL, now));
      var v2 := InsertSession(refresh, Session(p.user, p.workspace, Refresh, now + REFRESH_TTL, now));
      ghost var start, ws := db, [v0] + SessionWrites(p.user, p.workspace, access, refresh, now);
      assert ws == [v0, v1, v2];
      log := [];
      if env.fails(3) { return Failed(Internal), []; }
      Commit(v0, start, ws, log);
      log := [v0];
      if env.fails(4) { return Failed(Internal), log; }
      Commit(v1, start, ws, log);
      log := [v0, v1];
      if env.fails(5) { return Failed(Internal), log; }
      Commit(v2, start, ws, log);
      log := [v0, v1, v2];
      return LoggedIn(access, refresh, p), log;
    }

    method EndSession(token: string, env: Env) returns (r: Reply, ghost log: seq<Write>)
      requires Inv(db)
      modifies this`db
      ensures Served(old(db), db, EndSessionPlan(token), log, r, env)
    {
      log := [];
      var t := Trim(token);
      if t == "" { return Done, []; }
      if env.fails(0) { return Failed(Internal), []; }
      CommitOnly(DeleteSession(Digest(t)));
      return Done, [DeleteSession(Digest(t))];
    }

    method SwitchWorkspace(user: string, workspace: string, env: Env) returns (r: Reply, ghost log: seq<Write>)
      requires Inv(db) && Fresh(db.issued, env)
      modifies this`db
      ensures Served(old(db), db, SwitchPlan(old(db), user, workspace, env), log, r, env)
    {
      var u, w := Trim(user), Trim(workspace);
      if u == "" || w == "" { return Failed(InvalidInput), []; }
      if env.fails(0) { return Failed(Internal), []; }
      if u !in db.users { return Failed(NotFound), []; }
      MembersInIssued(db);
      r, log := CreateLoginResultForWorkspace(u, w, env);
    }

    /** `UpdateAPIKeyLastUsed` */
    method Touch(id: Id, now: Time) returns (ghost log: seq<Write>)
      requires id in db.keys
      modifies this`db
      ensures log == [TouchKey(id, now)] && LawfulAll(old(db), log) && db == ApplyAll(old(db), log)
      ensures db.members == old(db.members) && db.users == old(db.users)
    {
      ghost var start := db;
      var v := TouchKey(id, now);
      OneWriteLawful(db, v);
      Commit(v, start, [v], []);
      log := [v];
    }

    /**
     * The tracker decides whether the key's last use is recorded; when recording fails, the reservation
     * is given back.
     */
    method AuthenticateAPIKeyPrincipal(token: string, env: Env)
        returns (r: Reply, ghost due: bool, ghost log: seq<Write>)
      requires Resolves(db)
      modifies this`db, usage
      ensures Served(old(db), db, AuthenticateKeyPlan(old(db), token, due, env), log, r, env)
      ensures LiveKey(old(db), token, env.clock(0)).None? || env.fails(0) ==>
        !due && usage.State() == old(usage.State())
      ensures LiveKey(old(db), token, env.clock(0)).Some? && !env.fails(0) ==>
        var id, now := LiveKey(old(db), token, env.clock(0)).value, env.clock(0);
        && due == !Throttled(old(usage.State()), id, old(db).keys[id].lastUsedAt, now)
        && var asked := Asked(old(usage.State()), id, old(db).keys[id].lastUsedAt, now);
           usage.State() == if due && env.fails(1) then Released(asked, id, now) else asked
    {
      due, log := false, [];
      var t := Trim(token);
      if t == "" { return Failed(Unauthorized), due, []; }
      if env.fails(0) { return Failed(Internal), due, []; }
      if Digest(t) !in db.keysByHash { return Failed(Unauthorized), due, []; }
      var id := db.keysByHash[Digest(t)];
      var key, now := db.keys[id], env.clock(0);
      if Due(key.revokedAt, now) { return Failed(Unauthorized), due, []; }
      if Due(key.expiresAt, now) { return Failed(Unauthorized), due, []; }
      var reserved := usage.ShouldUpdate(id, key.lastUsedAt, now);
      due := reserved;
      if reserved {
        if env.fails(1) {
          usage.Release(id, now);
          return Failed(Internal), due, [];
        }
        log := Touch(id, now);
      }
      if env.fails(2) { return Failed(Internal), due, log; }
      if (key.workspace, key.user) !in db.members { return Failed(Unauthorized), due, log; }
      return Authenticated(KeyPrincipal(db, key)), due, log;
    }

    method CreateAPIKey(user: string, context: Option<Id>, name: string, scopes: seq<string>, meters: seq<string>,
        expiresAt: Option<Time>, env: Env)
      returns (r: Reply, ghost log: seq<Write>)
      requires Fresh(db.issued, env)
      modifies this`db
      ensures Served(old(db), db,
        CreateKeyPlan(old(db), CreateKey(user, context, name, scopes, meters, expiresAt), env), log, r, env)
    {
      var u := Trim(user);
      if u == "" { return Failed(InvalidInput), []; }
      if context.None? { return Failed(Unauthorized), []; }
      var title := Trim(name);
      if title == "" { return Failed(InvalidInput), []; }
      var kept := Authorization.NormalizeAPIKeyScopes(scopes);
      if kept.None? { return Failed(InvalidInput), []; }
      var allowed := Authorization.NormalizeAllowedMeters(meters);
      if Due(expiresAt, env.clock(0)) { return Failed(InvalidInput), []; }
      var key := ApiKey(u, context.value, title, Digest(env.names(1)), kept.value, allowed, expiresAt, None,
          env.clock(1), None, None);
      if env.fails(0) { return Failed(Internal), []; }
      // The foreign keys of the key row.
      if u !in db.users || context.value !in db.workspaces { return Failed(Internal), []; }
      CommitOnly(InsertKey(env.names(0), key));
      return KeyIssued(env.names(0), env.names(1)), [InsertKey(env.names(0), key)];
    }

    method RotateAPIKey(user: string, context: Option<Id>, id: string, grace: Time, env: Env)
        returns (r: Reply, ghost log: seq<Write>)
      requires Fresh(db.issued, env)
      modifies this`db
      ensures Served(old(db), db, RotatePlan(old(db), RotateApiKey(user, context, id, grace), env), log, r, env)
    {
      var u, k := Trim(user), Trim(id);
      if u == "" || k == "" { return Failed(InvalidInput), []; }
      if grace < 0 || grace > MAX_ROTATION_GRACE { return Failed(InvalidInput), []; }
      if context.None? { return Failed(Unauthorized), []; }
      if env.fails(0) { return Failed(Internal), []; }
      if !OwnKey(db, u, context.value, k) { return Failed(NotFound), []; }
      var source, now := db.keys[k], env.clock(0);
      if Due(source.expiresAt, now) { return Failed(Conflict), []; }
      if source.revokedAt.Some? { return Failed(Conflict), []; }
      r, log := ReplaceKey(k, grace, env);
    }

    /** One transaction schedules the old key's revocation and stores its replacement. */
    method ReplaceKey(k: Id, grace: Time, env: Env) returns (r: Reply, ghost log: seq<Write>)
      requires k in db.keys && db.keys[k].revokedAt.None? && 0 <= grace <= MAX_ROTATION_GRACE && Fresh(db.issued, env)
      modifies this`db
      ensures var now := env.clock(0);
        Served(old(db), db, Plan([RotateKey(k, now + grace, env.names(0),
            Replacement(k, old(db).keys[k], env.names(1), now))],
                                 KeyIssued(env.names(0), env.names(1))), log, r, env)
    {
      var source, now := db.keys[k], env.clock(0);
      var replacement := ApiKey(source.user, source.workspace, source.name, Digest(env.names(1)), source.scopes,
          source.meters,
                                source.expiresAt, None, now, None, Some(k));
      if env.fails(1) { return Failed(Internal), []; }
      ghost var start := db;
      var v := RotateKey(k, now + grace, env.names(0), replacement);
      OneWriteLawful(db, v);
      Commit(v, start, [v], []);
      return KeyIssued(env.names(0), env.names(1)), [v];
    }

    method DeleteAPIKey(user: string, context: Option<Id>, id: string, env: Env)
        returns (r: Reply, ghost log: seq<Write>)
      modifies this`db
      ensures Served(old(db), db, DeleteKeyPlan(old(db), DeleteKey(user, context, id), env), log, r, env)
    {
      var u, k := Trim(user), Trim(id);
      if u == "" || k == "" { return Failed(InvalidInput), []; }
      if context.None? { return Failed(Unauthorized), []; }
      if env.fails(0) { return Failed(Internal), []; }
      if !OwnKey(db, u, context.value, k) { return Failed(NotFound), []; }
      var now := env.clock(0);
      if env.fails(1) { return Failed(Internal), []; }
      // UPDATE ... WHERE revoked_at IS NULL OR revoked_at > now
      if db.keys[k].revokedAt.Some? && db.keys[k].revokedAt.value <= now { return Failed(NotFound), []; }
      CommitOnly(RevokeKey(k, now));
      return Done, [RevokeKey(k, now)];
    }

    /** Every invitation of the workspace once, in an order the service does not rely on. */
    method ListWorkspaceInvitations(w: Id) returns (ids: seq<Id>)
      ensures forall i :: i in ids <==> i in db.invitations && db.invitations[i].workspace == w
      ensures forall i, j :: 0 <= i < j < |ids| ==> ids[i] != ids[j]
    {
      var rest := set i | i in db.invitations && db.invitations[i].workspace == w;
      ids := [];
      while rest != {}
        invariant forall i :: i in rest || i in ids <==> i in db.invitations && db.invitations[i].workspace == w
        invariant forall i :: i in rest ==> i !in ids
        invariant forall i, j :: 0 <= i < j < |ids| ==> ids[i] != ids[j]
        decreases rest
      {
        var i :| i in rest;
        ids, rest := ids + [i], rest - {i};
      }
    }

    method CreateWorkspaceInvitation(p: Principal, email: string, role: string, env: Env)
        returns (r: Reply, ghost log: seq<Write>)
      requires Inv(db) && Fresh(db.issued, env)
      modifies this`db
      ensures Served(old(db), db, InvitePlan(old(db), p, email, role, env), log, r, env)
    {
      if !Administers(p) { return Failed(Forbidden), []; }
      var e := NormalizeEmail(email);
      if e.None? { return Failed(InvalidInput), []; }
      var invited := ParseInvitableRole(role);
      if invited.None? { return Failed(InvalidInput), []; }
      if env.fails(0) { return Failed(Internal), []; }
      if e.value in db.usersByEmail {
        if env.fails(1) { return Failed(Internal), []; }
        if (p.workspace, db.usersByEmail[e.value]) in db.members { return Failed(Conflict), []; }
      }
      InviteNewcomerLawful(db, p, e.value, invited.value, env);
      r, log := InviteAddress(p, e.value, invited.value, env);
    }

    /** What stands in the way of inviting the address: nothing, a live invitation, or a failed call. */
    method ClearExpired(p: Principal, e: string, env: Env) returns (refused: Option<Error>, ghost log: seq<Write>)
      requires InvitationsInv(db.invitations, db.invitationsByHash, db.workspaces, db.issued)
          && OneOpenInvitation(db.invitations)
      requires IsNormalEmail(e)
      modifies this`db
      ensures var open := OpenFor(old(db), p.workspace, e);
        match refused
        case None => log == if open.Some? then [RevokeInvitation(open.value, env.clock(1))] else []
        case Some(Internal) => log == [] && Faulty(env)
        case Some(error) =>
          log == [] && error == Conflict && open.Some?
          && env.clock(0) < old(db).invitations[open.value].expiresAt
      ensures refused.None? ==> var open := OpenFor(old(db), p.workspace, e);
        open.Some? ==> old(db).invitations[open.value].expiresAt <= env.clock(0)
      ensures LawfulAll(old(db), log) && db == ApplyAll(old(db), log)
    {
      log := [];
      if env.fails(2) { return Some(Internal), []; }
      ghost var start := db;
      ghost var open := OpenFor(start, p.workspace, e);
      var ids := ListWorkspaceInvitations(p.workspace);
      var rows := db.invitations;
      for i := 0 to |ids|
        invariant log == if open.Some? && open.value in ids[..i] then [RevokeInvitation(open.value, env.clock(1))]
            else []
        invariant open.Some? && open.value in ids[..i] ==> rows[open.value].expiresAt <= env.clock(0)
        invariant LawfulAll(start, log) && db == ApplyAll(start, log)
      {
        var existing := rows[ids[i]];
        assert ids[..i + 1] == ids[..i] + [ids[i]];
        assert InvitationInv(existing, start.workspaces, start.issued);
        if EqualFold(existing.email, e) {
          NormalFold(existing.email, e);
        }
        if !EqualFold(existing.email, e) || existing.acceptedAt.Some? || existing.revokedAt.Some? {
          continue;
        }
        assert open.Some? && Rivals(start.invitations, open.value, ids[i]);
        assert open == Some(ids[i]) && open.value !in ids[..i];
        if env.clock(0) < existing.expiresAt { return Some(Conflict), []; }
        if env.fails(3) { return Some(Internal), []; }
        var v := RevokeInvitation(ids[i], env.clock(1));
        OneWriteLawful(db, v);
        Commit(v, start, [v], log);
        log := [v];
      }
      return None, log;
    }

    method InviteAddress(p: Principal, e: string, role: Role, env: Env) returns (r: Reply, ghost log: seq<Write>)
      requires InvitationsInv(db.invitations, db.invitationsByHash, db.workspaces, db.issued)
          && OneOpenInvitation(db.invitations)
      requires IsNormalEmail(e) && LawfulAll(db, InviteNewcomer(db, p, e, role, env).writes)
      modifies this`db
      ensures Served(old(db), db, InviteNewcomer(old(db), p, e, role, env), log, r, env)
    {
      ghost var start := db;
      ghost var plan := InviteNewcomer(db, p, e, role, env);
      var refused;
      refused, log := ClearExpired(p, e, env);
      if refused.Some? { return Failed(refused.value), log; }
      ghost var open := OpenFor(start, p.workspace, e);
      if open.Some? {
        OneWriteLawful(start, RevokeInvitation(open.value, env.clock(1)));
      }
      assert db.users == start.users && db.workspaces == start.workspaces;
      if env.fails(4) { return Failed(Internal), log; }
      // The foreign keys of the invitation row.
      if p.workspace !in db.workspaces || p.user !in db.users { return Failed(Internal), log; }
      var v := InsertInvitation(env.names(0), NewInvitation(p, e, role, env.names(1), env.clock(2)));
      Commit(v, start, plan.writes, log);
      log := log + [v];
      return InvitationIssued(env.names(0), env.names(1)), log;
    }

    method AcceptWorkspaceInvitation(p: Principal, token: string, env: Env) returns (r: Reply, ghost log: seq<Write>)
      requires Inv(db) && Fresh(db.issued, env) && Authentic(db, p)
      modifies this`db
      ensures Served(old(db), db, AcceptPlan(old(db), p, token, env), log, r, env)
    {
      var t := Trim(token);
      if t == "" { return Failed(InvalidInput), []; }
      if env.fails(0) { return Failed(Internal), []; }
      if Digest(t) !in db.invitationsByHash { return Failed(NotFound), []; }
      var id := db.invitationsByHash[Digest(t)];
      var i := db.invitations[id];
      if StatusAt(i, env.clock(0)) != Pending { return Failed(Conflict), []; }
      if !EqualFold(i.email, p.email) { return Failed(Forbidden), []; }
      if env.fails(1) { return Failed(Internal), []; }
      if (i.workspace, p.user) in db.members { return Failed(Conflict), []; }
      var now := env.clock(1);
      if env.fails(2) { return Failed(Internal), []; }
      // The transaction: insert the membership, then settle the invitation if it is still active.
      if p.user !in db.users { return Failed(Internal), []; }
      if StatusAt(i, now) != Pending { return Failed(Conflict), []; }
      AcceptanceIsLawful(db, p, token, env);
      r, log := Admit(id, p.user, env);
    }

    /** The membership just written is what the login then finds. */
    method Admit(id: Id, u: Id, env: Env) returns (r: Reply, ghost log: seq<Write>)
      requires Lawful(db, AcceptInvitation(id, u, env.clock(1))) && db.invitations[id].workspace in db.workspaces
      requires env.names(2) !in db.issued && env.names(3) !in db.issued && env.names(2) != env.names(3)
      modifies this`db
      ensures var i := old(db).invitations[id];
        Served(old(db), db,
          Plan([AcceptInvitation(id, u, env.clock(1))]
              + SessionWrites(u, i.workspace, env.names(2), env.names(3), env.clock(3)),
               LoggedIn(env.names(2), env.names(3), SessionOf(u, old(db).users[u].email, i.workspace, i.role))),
          log, r, env)
    {
      ghost var start := db;
      var i := db.invitations[id];
      var v := AcceptInvitation(id, u, env.clock(1));
      OneWriteLawful(db, v);
      Commit(v, start, [v], []);
      ghost var mid := db;
      assert mid.users == start.users && mid.workspaces == start.workspaces && mid.issued == start.issued + {};
      assert (i.workspace, u) in db.members && db.members[(i.workspace, u)].role == i.role;
      log := [v];
      if env.fails(3) { return Failed(Internal), log; }
      if u !in db.users { return Failed(NotFound), log; }
      ghost var back;
      r, back := CreateLoginResultForWorkspace(u, i.workspace, env);
      log := [v] + back;
      ghost var rest := LoginInto(mid, u, i.workspace, env.names(2), env.names(3), env.clock(3));
      ServedInFull(start, db, mid, [v], back, Plan([v] + rest.writes, rest.reply), rest, r, env);
    }

    method RevokeWorkspaceInvitation(p: Principal, id: string, env: Env) returns (r: Reply, ghost log: seq<Write>)
      modifies this`db
      ensures Served(old(db), db, RevokePlan(old(db), p, id, env), log, r, env)
    {
      if !Administers(p) { return Failed(Forbidden), []; }
      var i := Trim(id);
      if env.fails(0) { return Failed(Internal), []; }
      if i !in db.invitations || db.invitations[i].workspace != p.workspace || !db.invitations[i].Open() {
        return Failed(NotFound), [];
      }
      CommitOnly(RevokeInvitation(i, env.clock(0)));
      return Done, [RevokeInvitation(i, env.clock(0))];
    }

    method UpdateWorkspaceMember(p: Principal, user: string, role: string, env: Env)
        returns (r: Reply, ghost log: seq<Write>)
      requires Inv(db)
      modifies this`db
      ensures Served(old(db), db, UpdateMemberPlan(old(db), p, user, role), log, r, env)
    {
      if p.role != Some(Owner) { return Failed(Forbidden), []; }
      var wanted := ParseRole(role);
      if wanted.None? { return Failed(InvalidInput), []; }
      if env.fails(0) { return Failed(Internal), []; }
      var k := (p.workspace, Trim(user));
      if k !in db.members { return Failed(NotFound), []; }
      if db.members[k].role == Owner && wanted.value != Owner {
        if env.fails(1) { return Failed(Internal), []; }
        var owners := |Owners(db.members, p.workspace)|;
        if owners <= 1 { return Failed(Conflict), []; }
      }
      if env.fails(2) { return Failed(Internal), []; }
      if (p.workspace, user) !in db.members { return Failed(NotFound), []; }
      SetRoleIsLawful(db, p, user, role);
      CommitOnly(SetRole(p.workspace, user, wanted.value));
      return Done, [SetRole(p.workspace, user, wanted.value)];
    }

    method RemoveWorkspaceMember(p: Principal, user: string, env: Env) returns (r: Reply, ghost log: seq<Write>)
      requires Inv(db)
      modifies this`db
      ensures Served(old(db), db, RemoveMemberPlan(old(db), p, user), log, r, env)
    {
      if p.role != Some(Owner) { return Failed(Forbidden), []; }
      if env.fails(0) { return Failed(Internal), []; }
      var k := (p.workspace, Trim(user));
      if k !in db.members { return Failed(NotFound), []; }
      if db.members[k].role == Owner {
        if env.fails(1) { return Failed(Internal), []; }
        var owners := |Owners(db.members, p.workspace)|;
        if owners <= 1 { return Failed(Conflict), []; }
      }
      if env.fails(2) { return Failed(Internal), []; }
      if (p.workspace, user) !in db.members { return Failed(NotFound), []; }
      DeleteMemberIsLawful(db, p, user);
      CommitOnly(DeleteMember(p.workspace, user));
      return Done, [DeleteMember(p.workspace, user)];
    }
  }
}
