/** What one operation hands out, another takes: tokens, keys and invitations from issue to expiry. */
module AuthRoundTrips {
  import opened Text
  import opened AuthTypes
  import opened Options
  import opened AuthTables
  import opened AuthHistory
  import opened AuthPlans
  import opened AuthLawful
  import opened AuthRuns
  import opened WorkspaceChoice
  import Authorization
  import opened Sequences

  // ---------------------------------------------------------------- logins

  /** Random tokens survive the trimming of those who present them. */
  predicate GoodToken(token: string) {
    token != "" && IsTrimmed(token)
  }

  /** The plan stores two sessions last, and the reply describes the member as the writes before have left it. */
  ghost predicate EndsInLogin(db: Db, plan: Plan, front: seq<Write>, now: Time) {
    && plan.reply.LoggedIn? && LawfulAll(db, front)
    && var p := plan.reply.session; var mid := ApplyAll(db, front);
    && plan.writes == front + SessionWrites(p.user, p.workspace, plan.reply.access, plan.reply.refresh, now)
    && GoodToken(plan.reply.access) && GoodToken(plan.reply.refresh)
    && p.user in mid.users && (p.workspace, p.user) in mid.members
    && p == SessionOf(p.user, mid.users[p.user].email, p.workspace, mid.members[(p.workspace, p.user)].role)
  }

  ghost predicate IsLogin(db: Db, plan: Plan) {
    exists front, now :: EndsInLogin(db, plan, front, now)
  }

  lemma IntoEnds(db: Db, u: Id, w: Id, access: string, refresh: string, now: Time)
    requires u in db.users && GoodToken(access) && GoodToken(refresh)
        && LoginInto(db, u, w, access, refresh, now).reply.LoggedIn?
    ensures EndsInLogin(db, LoginInto(db, u, w, access, refresh, now), [], now)
  {
  }

  /** A workspace can be founded under the second random name. */
  ghost predicate CanFound(db: Db, env: Env) {
    && env.names(1) !in db.issued && GoodToken(env.names(1)) && GoodToken(env.names(2)) && GoodToken(env.names(3))
    && forall k :: k in db.members ==> k.0 in db.issued
  }

  lemma FoundingEnds(db: Db, u: Id, email: string, env: Env)
    requires u in db.users && db.users[u].email == email && CanFound(db, env)
    ensures EndsInLogin(db, LoginFounding(u, email, env), FoundingWrites(u, env.names(1), env.clock(2)), env.clock(3))
  {
    FoundingWritesLawful(db, u, env.names(1), env.clock(2));
  }

  lemma HomeEnds(db: Db, u: Id, env: Env)
    requires u in db.users && CanFound(db, env) && LoginHome(db, u, env).reply.LoggedIn?
    ensures IsLogin(db, LoginHome(db, u, env))
  {
    match DefaultWorkspace(db.members, u)
    case Some(w) => IntoEnds(db, u, w, env.names(2), env.names(3), env.clock(3));
    case None => FoundingEnds(db, u, db.users[u].email, env);
  }

  lemma Prepended(db: Db, v: Write, ws: seq<Write>)
    requires Lawful(db, v) && LawfulAll(Apply(db, v), ws)
    ensures LawfulAll(db, [v] + ws) && ApplyAll(db, [v] + ws) == ApplyAll(Apply(db, v), ws)
  {
    assert ([v] + ws)[0] == v && ([v] + ws)[1..] == ws;
  }

  lemma PrefixEndsWith(db: Db, v: Write, plan: Plan, front: seq<Write>, now: Time)
    requires Lawful(db, v) && EndsInLogin(Apply(db, v), plan, front, now)
    ensures EndsInLogin(db, plan.(writes := [v] + plan.writes), [v] + front, now)
  {
    Prepended(db, v, front);
    var p := plan.reply.session;
    JoinThree([v], front, SessionWrites(p.user, p.workspace, plan.reply.access, plan.reply.refresh, now));
  }

  /** One more write in front. */
  lemma PrefixEnds(db: Db, v: Write, plan: Plan)
    requires Lawful(db, v) && IsLogin(Apply(db, v), plan)
    ensures IsLogin(db, plan.(writes := [v] + plan.writes))
  {
    var front, now :| EndsInLogin(Apply(db, v), plan, front, now);
    PrefixEndsWith(db, v, plan, front, now);
  }

  lemma LinkedEnds(db: Db, provider: string, subject: string, u: Id, env: Env)
    requires u in db.users && CanFound(db, env) && (provider, subject) !in db.identities
        && LoginHome(db, u, env).reply.LoggedIn?
    ensures var plan := LoginHome(db, u, env);
      IsLogin(db, plan.(writes := [InsertIdentity(provider, subject, u)] + plan.writes))
  {
    var v := InsertIdentity(provider, subject, u);
    var next := Apply(db, v);
    assert next.members == db.members && next.users == db.users && next.issued == db.issued + {};
    assert LoginHome(next, u, env) == LoginHome(db, u, env);
    HomeEnds(next, u, env);
    PrefixEnds(db, v, LoginHome(db, u, env));
  }

  lemma FirstLoginEnds(db: Db, provider: string, subject: string, u: Id, env: Env)
    requires u in db.users && CanFound(db, env) && (provider, subject) !in db.identities
    ensures var plan := LoginFounding(u, db.users[u].email, env);
      IsLogin(db, plan.(writes := [InsertIdentity(provider, subject, u)] + plan.writes))
  {
    var v := InsertIdentity(provider, subject, u);
    var next := Apply(db, v);
    assert next.members == db.members && next.users == db.users && next.issued == db.issued + {};
    FoundingEnds(next, u, db.users[u].email, env);
    PrefixEnds(db, v, LoginFounding(u, db.users[u].email, env));
  }

  lemma RegisteredEnds(db: Db, provider: string, subject: string, user: User, env: Env)
    requires Lawful(db, InsertUser(env.names(0), user)) && (provider, subject) !in db.identities
    requires CanFound(db, env) && env.names(0) != env.names(1)
    ensures var plan := LoginFounding(env.names(0), user.email, env);
      IsLogin(db, plan.(writes := [InsertUser(env.names(0), user), InsertIdentity(provider, subject, env.names(0))]
          + plan.writes))
  {
    var u := env.names(0);
    var v, w := InsertUser(u, user), InsertIdentity(provider, subject, u);
    UserFirst(db, user, env);
    FirstLoginEnds(Apply(db, v), provider, subject, u, env);
    var plan := LoginFounding(u, user.email, env);
    PrefixEnds(db, v, plan.(writes := [w] + plan.writes));
    assert [v] + ([w] + plan.writes) == [v, w] + plan.writes;
  }

  lemma UserFirst(db: Db, user: User, env: Env)
    requires Lawful(db, InsertUser(env.names(0), user)) && CanFound(db, env) && env.names(0) != env.names(1)
    ensures var one := Apply(db, InsertUser(env.names(0), user));
      && env.names(0) in one.users && one.users[env.names(0)] == user && one.identities == db.identities
         && CanFound(one, env)
  {
  }

  lemma ExternalEnds(db: Db, provider: string, subject: string, email: string, verified: bool, closed: bool, env: Env)
    requires Inv(db) && Fresh(db.issued, env)
    requires ExternalLoginPlan(db, provider, subject, email, verified, closed, env).reply.LoggedIn?
    ensures IsLogin(db, ExternalLoginPlan(db, provider, subject, email, verified, closed, env))
  {
    var p, s := Lower(Trim(provider)), Trim(subject);
    MembersInIssued(db);
    if (p, s) in db.identities {
      HomeEnds(db, db.identities[(p, s)], env);
    } else {
      var e := NormalizeEmail(email).value;
      if e in db.usersByEmail {
        LinkedEnds(db, p, s, db.usersByEmail[e], env);
      } else {
        RegisteredEnds(db, p, s, User(e, NoPassword, env.clock(0)), env);
      }
    }
  }

  lemma RefreshEnds(db: Db, token: string, env: Env)
    requires Resolves(db) && Fresh(db.issued, env) && RefreshPlan(db, token, env).reply.LoggedIn?
    ensures IsLogin(db, RefreshPlan(db, token, env))
  {
    var v, plan := DeleteSession(Digest(Trim(token))), RefreshPlan(db, token, env);
    OneWriteLawful(db, v);
    assert EndsInLogin(db, plan, [v], env.clock(1));
  }

  lemma AdmissionEnds(db: Db, id: Id, u: Id, env: Env)
    requires Lawful(db, AcceptInvitation(id, u, env.clock(1))) && GoodToken(env.names(2)) && GoodToken(env.names(3))
    ensures var i := db.invitations[id];
      var front := [AcceptInvitation(id, u, env.clock(1))];
      IsLogin(db, Plan(front + SessionWrites(u, i.workspace, env.names(2), env.names(3), env.clock(3)),
                       LoggedIn(env.names(2), env.names(3), SessionOf(u, db.users[u].email, i.workspace, i.role))))
  {
    var i, v := db.invitations[id], AcceptInvitation(id, u, env.clock(1));
    OneWriteLawful(db, v);
    var p := SessionOf(u, db.users[u].email, i.workspace, i.role);
    var pair := SessionWrites(u, i.workspace, env.names(2), env.names(3), env.clock(3));
    assert EndsInLogin(db, Plan([v] + pair, LoggedIn(env.names(2), env.names(3), p)), [v], env.clock(3));
  }

  lemma AcceptEnds(db: Db, p: Principal, token: string, env: Env)
    requires Inv(db) && Fresh(db.issued, env) && Authentic(db, p) && AcceptPlan(db, p, token, env).reply.LoggedIn?
    ensures IsLogin(db, AcceptPlan(db, p, token, env))
  {
    var id := db.invitationsByHash[Digest(Trim(token))];
    NormalFold(db.invitations[id].email, p.email);
    AdmissionEnds(db, id, p.user, env);
  }

  lemma SwitchEnds(db: Db, user: string, workspace: string, env: Env)
    requires Fresh(db.issued, env) && SwitchPlan(db, user, workspace, env).reply.LoggedIn?
    ensures IsLogin(db, SwitchPlan(db, user, workspace, env))
  {
    IntoEnds(db, Trim(user), Trim(workspace), env.names(2), env.names(3), env.clock(3));
  }

  lemma LoginEnds(db: Db, email: string, password: string, env: Env)
    requires Inv(db) && Fresh(db.issued, env) && LoginPlan(db, email, password, env).reply.LoggedIn?
    ensures IsLogin(db, LoginPlan(db, email, password, env))
  {
    MembersInIssued(db);
    HomeEnds(db, db.usersByEmail[NormalizeEmail(email).value], env);
  }

  predicate OffersLogin(op: Op) {
    op.Login? || op.ExternalLogin? || op.RefreshSession? || op.Accept? || op.SwitchWorkspace?
  }

  /** Every reply that hands out tokens comes from a plan that ends by storing them. */
  lemma LoggedInEnds(db: Db, op: Op, env: Env)
    requires Inv(db) && Fresh(db.issued, env) && AuthenticOp(db, op) && OffersLogin(op)
        && PlanOf(db, op, env).reply.LoggedIn?
    ensures IsLogin(db, PlanOf(db, op, env))
  {
    match op
    case Login(email, password) => LoginEnds(db, email, password, env);
    case ExternalLogin(provider, subject, email, verified, closed) =>
      ExternalEnds(db, provider, subject, email, verified, closed, env);
    case RefreshSession(token) => RefreshEnds(db, token, env);
    case Accept(p, token) => AcceptEnds(db, p, token, env);
    case SwitchWorkspace(user, workspace) => SwitchEnds(db, user, workspace, env);
  }

  lemma {:induction false} LawfulSuffix(db: Db, front: seq<Write>, back: seq<Write>)
    requires LawfulAll(db, front) && LawfulAll(db, front + back)
    ensures LawfulAll(ApplyAll(db, front), back)
    decreases |front|
  {
    if front == [] {
      assert front + back == back;
    } else {
      assert (front + back)[1..] == front[1..] + back;
      LawfulSuffix(Apply(db, front[0]), front[1..], back);
    }
  }

  /**
   * At time `t` the tokens of a login made at `now` stand for its session, each for its own use and until it
   * expires.
   */
  predicate TokensGood(db: Db, r: Reply, now: Time, t: Time)
    requires r.LoggedIn? && forall h :: h in db.sessions ==> db.sessions[h].user in db.users
  {
    && TokenPrincipal(db, r.access, Access, t) == (if t < now + ACCESS_TTL then Some(r.session) else None)
    && TokenPrincipal(db, r.refresh, Refresh, t) == (if t < now + REFRESH_TTL then Some(r.session) else None)
    && TokenPrincipal(db, r.access, Refresh, t) == None && TokenPrincipal(db, r.refresh, Access, t) == None
  }

  lemma StoredTokensWork(mid: Db, r: Reply, now: Time, t: Time)
    requires r.LoggedIn? && GoodToken(r.access) && GoodToken(r.refresh)
    requires var p := r.session;
      && LawfulAll(mid, SessionWrites(p.user, p.workspace, r.access, r.refresh, now))
      && p.user in mid.users && (p.workspace, p.user) in mid.members
      && p == SessionOf(p.user, mid.users[p.user].email, p.workspace, mid.members[(p.workspace, p.user)].role)
    requires var b := ApplyAll(mid, SessionWrites(r.session.user, r.session.workspace, r.access, r.refresh, now));
      forall h :: h in b.sessions ==> b.sessions[h].user in b.users
    ensures var b := ApplyAll(mid, SessionWrites(r.session.user, r.session.workspace, r.access, r.refresh, now));
      TokensGood(b, r, now, t)
  {
    var ws := SessionWrites(r.session.user, r.session.workspace, r.access, r.refresh, now);
    assert ws == [ws[0], ws[1]] && ws[1..] == [ws[1]];
    var b := Apply(Apply(mid, ws[0]), ws[1]);
    TwoWritesLawful(mid, ws[0], ws[1]);
    TrimFixes(r.access);
    TrimFixes(r.refresh);
    assert b.members == mid.members && b.users == mid.users;
    assert r.access != r.refresh;
  }

  /**
   * From login to authentication: the tokens of every successful login, refresh, switch or acceptance stand for
   * exactly the session reported with them, the access token for fifteen minutes, the refresh token for thirty
   * days, and neither for the other's use.
   */
  lemma LoginTokensWork(db: Db, s: Step) returns (now: Time)
    requires StepOk(db, s) && OffersLogin(s.op) && ReplyOf(db, s).LoggedIn?
    ensures Resolves(After(db, s))
    ensures forall t :: TokensGood(After(db, s), ReplyOf(db, s), now, t)
  {
    StepEvolves(db, s);
    UnfailedStep(db, s);
    LoggedInEnds(db, s.op, s.env);
    now := PlanTokensWork(db, PlanOf(db, s.op, s.env));
  }

  lemma LoginPlanIsAuthentic(db: Db, plan: Plan)
    requires Inv(db) && LawfulAll(db, plan.writes) && IsLogin(db, plan)
    ensures plan.reply.LoggedIn?
    ensures var b := ApplyAll(db, plan.writes); plan.reply.session.user in b.users && Authentic(b, plan.reply.session)
  {
    var front, now :| EndsInLogin(db, plan, front, now);
    var p := plan.reply.session;
    var pair := SessionWrites(p.user, p.workspace, plan.reply.access, plan.reply.refresh, now);
    LawfulSuffix(db, front, pair);
    ApplyAllConcat(db, front, pair);
    assert pair == [pair[0], pair[1]];
    TwoApplied(ApplyAll(db, front), pair[0], pair[1]);
  }

  /** The principal that comes with a login carries its user's own address from then on. */
  lemma LoginIsAuthentic(db: Db, s: Step)
    requires StepOk(db, s) && OffersLogin(s.op) && ReplyOf(db, s).LoggedIn?
    ensures var p := ReplyOf(db, s).session; p.user in After(db, s).users && Authentic(After(db, s), p)
  {
    UnfailedStep(db, s);
    LoggedInEnds(db, s.op, s.env);
    LoginPlanIsAuthentic(db, PlanOf(db, s.op, s.env));
  }

  lemma PlanTokensWork(db: Db, plan: Plan) returns (now: Time)
    requires LawfulAll(db, plan.writes) && IsLogin(db, plan)
    requires var b := ApplyAll(db, plan.writes); forall h :: h in b.sessions ==> b.sessions[h].user in b.users
    ensures plan.reply.LoggedIn? && forall t :: TokensGood(ApplyAll(db, plan.writes), plan.reply, now, t)
  {
    var front, at :| EndsInLogin(db, plan, front, at);
    now := at;
    var p := plan.reply.session;
    var pair := SessionWrites(p.user, p.workspace, plan.reply.access, plan.reply.refresh, now);
    LawfulSuffix(db, front, pair);
    ApplyAllConcat(db, front, pair);
    forall t
      ensures TokensGood(ApplyAll(db, plan.writes), plan.reply, now, t)
    {
      StoredTokensWork(ApplyAll(db, front), plan.reply, now, t);
    }
  }

  // ---------------------------------------------------------------- keys

  /** The token names the key `id` at every time before the key's dates, and nothing after. */
  ghost predicate NamesKey(db: Db, token: string, id: Id)
    requires Resolves(db)
  {
    id in db.keys && forall t :: LiveKey(db, token, t) == if KeyDead(db.keys[id], t) then None else Some(id)
  }

  lemma HashNamesKey(db: Db, token: string, id: Id)
    requires Resolves(db) && Digest(Trim(token)) in db.keysByHash && db.keysByHash[Digest(Trim(token))] == id
        && Trim(token) != ""
    ensures NamesKey(db, token, id)
  {
  }

  lemma InsertedKeyWorks(db: Db, id: Id, k: ApiKey, token: string)
    requires Lawful(db, InsertKey(id, k)) && k.hash == Digest(token) && GoodToken(token)
    requires Resolves(Apply(db, InsertKey(id, k)))
    ensures NamesKey(Apply(db, InsertKey(id, k)), token, id) && Apply(db, InsertKey(id, k)).keys[id] == k
  {
    TrimFixes(token);
    HashNamesKey(Apply(db, InsertKey(id, k)), token, id);
  }

  /** The key a creation asks for. */
  predicate AskedFor(k: ApiKey, op: Op)
    requires op.CreateKey?
  {
    && k.user == Trim(op.user) && Some(k.workspace) == op.context && k.name == Trim(op.name)
    && k.expiresAt == op.expiresAt && k.revokedAt == None && k.lastUsedAt == None
    && Some(k.scopes) == Authorization.NormalizedScopes(op.scopes)
       && k.meters == Authorization.NormalizedMeters(op.meters)
  }

  lemma CreatePlanInserts(db: Db, op: Op, env: Env)
    requires op.CreateKey? && CreateKeyPlan(db, op, env).reply.KeyIssued?
    ensures var plan := CreateKeyPlan(db, op, env);
      && |plan.writes| == 1 && plan.writes[0].InsertKey? && plan.reply == KeyIssued(env.names(0), env.names(1))
      && plan.writes[0].id == env.names(0) && plan.writes[0].key.hash == Digest(env.names(1))
         && AskedFor(plan.writes[0].key, op)
  {
  }

  /**
   * From creation to authentication: a new key's token names it until the expiry asked for, with the rights
   * asked for.
   */
  lemma IssuedKeyWorks(db: Db, op: Op, env: Env)
    requires Inv(db) && Fresh(db.issued, env) && op.CreateKey? && CreateKeyPlan(db, op, env).reply.KeyIssued?
    ensures LawfulAll(db, CreateKeyPlan(db, op, env).writes)
        && Resolves(ApplyAll(db, CreateKeyPlan(db, op, env).writes))
    ensures var r, b := CreateKeyPlan(db, op, env).reply, ApplyAll(db, CreateKeyPlan(db, op, env).writes);
      NamesKey(b, r.token, r.id) && AskedFor(b.keys[r.id], op)
  {
    CreateKeyLawful(db, op, env);
    ApplyAllEvolves(db, CreateKeyPlan(db, op, env).writes);
    CreatedKeyWorks(db, op, env);
  }

  lemma CreatedKeyWorks(db: Db, op: Op, env: Env)
    requires Fresh(db.issued, env) && op.CreateKey? && CreateKeyPlan(db, op, env).reply.KeyIssued?
    requires LawfulAll(db, CreateKeyPlan(db, op, env).writes)
        && Resolves(ApplyAll(db, CreateKeyPlan(db, op, env).writes))
    ensures var r, b := CreateKeyPlan(db, op, env).reply, ApplyAll(db, CreateKeyPlan(db, op, env).writes);
      NamesKey(b, r.token, r.id) && AskedFor(b.keys[r.id], op)
  {
    CreatePlanInserts(db, op, env);
    var ws := CreateKeyPlan(db, op, env).writes;
    assert ws == [ws[0]];
    OneWriteLawful(db, ws[0]);
    InsertedKeyWorks(db, ws[0].id, ws[0].key, env.names(1));
  }

  /** After a rotation at `at`: both tokens name their keys, which share the expiry, and only the former is dated. */
  ghost predicate HandsOver(db: Db, r: Reply, former: string, k: Id, expiry: Option<Time>, at: Time)
    requires Resolves(db) && r.KeyIssued?
  {
    && NamesKey(db, r.token, r.id) && NamesKey(db, former, k)
    && db.keys[r.id].expiresAt == db.keys[k].expiresAt == expiry
    && db.keys[r.id].revokedAt == None && db.keys[k].revokedAt == Some(at)
  }

  lemma ReplacedKeyWorks(db: Db, source: Id, at: Time, id: Id, k: ApiKey, token: string, former: string)
    requires Lawful(db, RotateKey(source, at, id, k)) && k.hash == Digest(token) && GoodToken(token)
    requires Resolves(Apply(db, RotateKey(source, at, id, k))) && source in db.issued
    requires var h := Digest(Trim(former));
      h.token != "" && h.token in db.issued && h in db.keysByHash && db.keysByHash[h] == source
    ensures HandsOver(Apply(db, RotateKey(source, at, id, k)), KeyIssued(id, token), former, source,
        db.keys[source].expiresAt, at)
  {
    var b := Apply(db, RotateKey(source, at, id, k));
    TrimFixes(token);
    HashNamesKey(b, token, id);
    HashNamesKey(b, former, source);
  }

  lemma RotatePlanReplaces(db: Db, op: Op, env: Env)
    requires op.RotateApiKey? && RotatePlan(db, op, env).reply.KeyIssued?
    ensures Trim(op.key) in db.keys
    ensures RotatePlan(db, op, env).reply == KeyIssued(env.names(0), env.names(1))
    ensures RotatePlan(db, op, env).writes
         == [RotateKey(Trim(op.key), env.clock(0) + op.grace, env.names(0),
             Replacement(Trim(op.key), db.keys[Trim(op.key)], env.names(1), env.clock(0)))]
  {
  }

  /**
   * A rotation hands over: the new token works at once, the former one to the end of the grace period, and
   * both end with the expiry the key had all along.
   */
  lemma RotationHandsOver(db: Db, op: Op, env: Env, former: string)
    requires Inv(db) && Fresh(db.issued, env) && op.RotateApiKey? && RotatePlan(db, op, env).reply.KeyIssued?
    requires Digest(Trim(former)) in db.keysByHash && db.keysByHash[Digest(Trim(former))] == Trim(op.key)
        && Trim(former) != ""
    ensures LawfulAll(db, RotatePlan(db, op, env).writes) && Resolves(ApplyAll(db, RotatePlan(db, op, env).writes))
    ensures Trim(op.key) in db.keys
    ensures HandsOver(ApplyAll(db, RotatePlan(db, op, env).writes), RotatePlan(db, op, env).reply, former,
                      Trim(op.key), db.keys[Trim(op.key)].expiresAt, env.clock(0) + op.grace)
  {
    RotateLawful(db, op, env);
    ApplyAllEvolves(db, RotatePlan(db, op, env).writes);
    KeyNamesAreIssued(db, Digest(Trim(former)));
    RotatedKeyWorks(db, op, env, former);
  }

  lemma RotatedKeyWorks(db: Db, op: Op, env: Env, former: string)
    requires Fresh(db.issued, env) && op.RotateApiKey? && RotatePlan(db, op, env).reply.KeyIssued?
    requires LawfulAll(db, RotatePlan(db, op, env).writes) && Resolves(ApplyAll(db, RotatePlan(db, op, env).writes))
    requires Trim(op.key) in db.issued
    requires var h := Digest(Trim(former));
      h.token != "" && h.token in db.issued && h in db.keysByHash && db.keysByHash[h] == Trim(op.key)
    ensures Trim(op.key) in db.keys
    ensures HandsOver(ApplyAll(db, RotatePlan(db, op, env).writes), RotatePlan(db, op, env).reply, former,
                      Trim(op.key), db.keys[Trim(op.key)].expiresAt, env.clock(0) + op.grace)
  {
    RotatePlanReplaces(db, op, env);
    var w := RotatePlan(db, op, env).writes[0];
    OneWriteLawful(db, w);
    ReplacedKeyWorks(db, w.source, w.at, w.id, w.key, env.names(1), former);
  }

  lemma KeyNamesAreIssued(db: Db, h: Digest)
    requires Inv(db) && h in db.keysByHash
    ensures h.token in db.issued && db.keysByHash[h] in db.keys && db.keysByHash[h] in db.issued
  {
  }

  /** A deletion works at once. */
  lemma DeletionIsImmediate(db: Db, op: Op, env: Env)
    requires op.DeleteKey? && DeleteKeyPlan(db, op, env).reply == Done
    ensures LawfulAll(db, DeleteKeyPlan(db, op, env).writes)
    ensures var b := ApplyAll(db, DeleteKeyPlan(db, op, env).writes);
      Trim(op.key) in b.keys && forall t :: env.clock(0) <= t ==> KeyDead(b.keys[Trim(op.key)], t)
  {
    DeleteKeyLawful(db, op, env);
    OneWriteLawful(db, DeleteKeyPlan(db, op, env).writes[0]);
  }

  // ---------------------------------------------------------------- invitations

  /** The token leads to the invitation `id`, untouched since it was made at `now` with the caller's wishes. */
  ghost predicate NamesInvitation(db: Db, token: string, id: Id, p: Principal, email: string, role: string, now: Time) {
    && Trim(token) != "" && Digest(Trim(token)) in db.invitationsByHash
       && db.invitationsByHash[Digest(Trim(token))] == id
    && id in db.invitations
    && var i := db.invitations[id];
      && i.workspace == p.workspace && Some(i.email) == NormalizeEmail(email)
         && Some(i.role) == ParseInvitableRole(role)
      && forall t :: StatusAt(i, t) == Pending <==> t < now + INVITATION_TTL
  }

  lemma NewcomerIsInvited(db: Db, p: Principal, e: string, r: Role, env: Env)
    requires Fresh(db.issued, env) && InviteNewcomer(db, p, e, r, env).reply.InvitationIssued?
    requires LawfulAll(db, InviteNewcomer(db, p, e, r, env).writes)
    ensures var reply, b := InviteNewcomer(db, p, e, r, env).reply,
        ApplyAll(db, InviteNewcomer(db, p, e, r, env).writes);
      && reply.token == env.names(1) && Trim(reply.token) == reply.token != ""
      && Digest(reply.token) in b.invitationsByHash && b.invitationsByHash[Digest(reply.token)] == reply.id
         && reply.id in b.invitations
      && b.invitations[reply.id] == NewInvitation(p, e, r, env.names(1), env.clock(2))
  {
    var ws := InviteNewcomer(db, p, e, r, env).writes;
    TrimFixes(env.names(1));
    if |ws| == 1 {
      assert ws == [ws[0]] && [ws[0]][1..] == [];
    } else {
      assert ws == [ws[0]] + [ws[1]] && ws[1..] == [ws[1]] && [ws[1]][1..] == [];
      TwoApplied(db, ws[0], ws[1]);
      assert ws == [ws[0], ws[1]];
    }
  }

  lemma TwoApplied(db: Db, v: Write, w: Write)
    requires LawfulAll(db, [v, w])
    ensures Lawful(db, v) && Lawful(Apply(db, v), w) && ApplyAll(db, [v, w]) == Apply(Apply(db, v), w)
  {
    assert [v, w][1..] == [w];
    assert LawfulAll(Apply(db, v), [w]);
    TwoWritesLawful(db, v, w);
  }

  /** The answer to an invitation names it, and it is pending for exactly a week from its making. */
  lemma InvitationLastsAWeek(db: Db, p: Principal, email: string, role: string, env: Env)
    requires Inv(db) && Fresh(db.issued, env) && InvitePlan(db, p, email, role, env).reply.InvitationIssued?
    ensures LawfulAll(db, InvitePlan(db, p, email, role, env).writes)
    ensures var r := InvitePlan(db, p, email, role, env).reply;
      NamesInvitation(ApplyAll(db, InvitePlan(db, p, email, role, env).writes), r.token, r.id, p, email, role,
          env.clock(2))
  {
    InviteLawful(db, p, email, role, env);
    NewcomerIsInvited(db, p, NormalizeEmail(email).value, ParseInvitableRole(role).value, env);
  }

  /**
   * From invitation to membership: presented while nothing else has touched it, the token admits its bearer, in
   * the role offered, if and only if both clock readings lie within the week and the bearer has the invited
   * address, exists and is no member yet.
   */
  lemma InvitationAdmitsExactly(db: Db, token: string, id: Id, p: Principal, email: string, role: string, now: Time,
      q: Principal, env: Env)
    requires Resolves(db) && NamesInvitation(db, token, id, p, email, role, now)
    ensures var r := AcceptPlan(db, q, token, env).reply;
      r.LoggedIn? <==>
        && env.clock(0) < now + INVITATION_TTL && env.clock(1) < now + INVITATION_TTL
        && EqualFold(NormalizeEmail(email).value, q.email) && q.user in db.users && (p.workspace, q.user) !in db.members
    ensures var r := AcceptPlan(db, q, token, env).reply;
      r.LoggedIn? ==>
        && r.session.user == q.user && r.session.workspace == p.workspace
        && r.session.role == ParseInvitableRole(role)
  {
    var i := db.invitations[id];
    assert StatusAt(i, env.clock(0)) == Pending <==> env.clock(0) < now + INVITATION_TTL;
    assert StatusAt(i, env.clock(1)) == Pending <==> env.clock(1) < now + INVITATION_TTL;
  }

  // ---------------------------------------------------------------- registration

  /** Longer than everything issued. */
  lemma {:induction false} LongerThanAll(issued: set<string>) returns (n: nat)
    ensures forall t :: t in issued ==> |t| < n
    decreases |issued|
  {
    n := 0;
    if issued != {} {
      var t :| t in issued;
      n := LongerThanAll(issued - {t});
      if n <= |t| {
        n := |t| + 1;
      }
    }
  }

  /** Whatever has been issued, names can be had that are as new and as different as the service's random ones. */
  lemma FreshNamesExist(issued: set<string>, clock: nat -> Time, fails: nat -> bool) returns (names: nat -> string)
    ensures Fresh(issued, Env(clock, names, fails))
  {
    var n := LongerThanAll(issued);
    names := (i: nat) => seq(n + i + 1, _ => 'a');
    forall i: nat, j: nat | names(i) == names(j)
      ensures i == j
    {
      assert |names(i)| == n + i + 1 && |names(j)| == n + j + 1;
    }
    forall i: nat
      ensures names(i) !in issued
    {
      assert |names(i)| == n + i + 1;
    }
  }

  /** The first registration is a run from the empty tables, after which its user owns a workspace. */
  lemma FirstUserOwns(email: string, password: string, env: Env)
    requires Fresh({}, env) && NormalizeEmail(email).Some? && |password| >= MIN_PASSWORD
    ensures var s := Step(CreateUser(email, password), env, 3, false);
      && Run(EMPTY, [s]) && ReplyOf(EMPTY, s) == Registered(env.names(0), env.names(1))
      && HasOwner(After(EMPTY, s).members, env.names(1))
  {
    var s := Step(CreateUser(email, password), env, 3, false);
    EmptyInv();
    assert StepOk(EMPTY, s);
    assert [s][1..] == [];
    UnfailedStep(EMPTY, s);
    RegistrationFounds(email, password, env);
  }

  lemma RegistrationFounds(email: string, password: string, env: Env)
    requires LawfulAll(EMPTY, CreateUserPlan(EMPTY, email, password, env).writes)
    requires CreateUserPlan(EMPTY, email, password, env).reply.Registered?
    ensures HasOwner(ApplyAll(EMPTY, CreateUserPlan(EMPTY, email, password, env).writes).members, env.names(1))
  {
    var u, w := env.names(0), env.names(1);
    var v := InsertUser(u, User(NormalizeEmail(email).value, Hashed(password), env.clock(0)));
    var rest := FoundingWrites(u, w, env.clock(2));
    assert CreateUserPlan(EMPTY, email, password, env).writes == [v] + rest;
    assert ([v] + rest)[1..] == rest;
    var one := Apply(EMPTY, v);
    TwoApplied(one, rest[0], rest[1]);
    assert rest == [rest[0], rest[1]];
    assert (w, u) in ApplyAll(one, rest).members && ApplyAll(one, rest).members[(w, u)].role == Owner;
  }
}
