/** Whole-run properties of access and refresh tokens and of the principals they stand for. */
module AuthSessions {
  import opened Text
  import opened AuthTypes
  import opened Options
  import opened AuthTables
  import opened AuthHistory
  import opened AuthPlans
  import opened AuthLawful
  import opened AuthRuns
  import Runs

  /** The step refreshes the token and reports success. */
  ghost predicate Refreshes(db: Db, s: Step, h: Digest) {
    StepOk(db, s) && s.op.RefreshSession? && Digest(Trim(s.op.token)) == h && ReplyOf(db, s).LoggedIn?
  }

  /** The token was issued and its session is gone. */
  ghost predicate Spent(db: Db, h: Digest) {
    h.token in db.issued && h !in db.sessions
  }

  lemma RefreshSessionsAfter(db: Db, p: Principal, h: Digest, env: Env)
    requires Fresh(db.issued, env) && h in db.sessions && p.user in db.users && p.workspace in db.workspaces
    ensures var ws := [DeleteSession(h)] + SessionWrites(p.user, p.workspace, env.names(0), env.names(1), env.clock(1));
      && LawfulAll(db, ws)
      && ApplyAll(db, ws).sessions == (db.sessions - {h})
           [Digest(env.names(0)) := Session(p.user, p.workspace, Access, env.clock(1) + ACCESS_TTL, env.clock(1))]
           [Digest(env.names(1)) := Session(p.user, p.workspace, Refresh, env.clock(1) + REFRESH_TTL, env.clock(1))]
      && ApplyAll(db, ws).issued == db.issued + {env.names(0), env.names(1)}
  {
    var pair := SessionWrites(p.user, p.workspace, env.names(0), env.names(1), env.clock(1));
    OneWriteLawful(db, DeleteSession(h));
    var next := Apply(db, DeleteSession(h));
    assert next.issued == db.issued;
    SessionWritesLawful(next, p.user, p.workspace, env.names(0), env.names(1), env.clock(1));
    TwoWritesLawful(next, pair[0], pair[1]);
    assert pair == [pair[0], pair[1]];
    ApplyAllConcat(db, [DeleteSession(h)], pair);
  }

  /**
   * The refresh session of `h` has given way to exactly one access and one refresh session of the same user and
   * workspace.
   */
  ghost predicate Replaced(before: map<Digest, Session>, after: map<Digest, Session>, h: Digest, access: string,
      refresh: string, now: Time) {
    && h in before && before[h].kind == Refresh && access != refresh
    && Digest(access) !in before && Digest(refresh) !in before
    && after == (before - {h})
         [Digest(access) := Session(before[h].user, before[h].workspace, Access, now + ACCESS_TTL, now)]
         [Digest(refresh) := Session(before[h].user, before[h].workspace, Refresh, now + REFRESH_TTL, now)]
  }

  lemma RefreshPlanOf(db: Db, token: string, env: Env)
    requires Inv(db) && RefreshPlan(db, token, env).reply.LoggedIn?
    ensures var h := Digest(Trim(token));
      && h in db.sessions && h.token in db.issued && db.sessions[h].kind == Refresh
         && env.clock(0) < db.sessions[h].expiresAt
      && db.sessions[h].user in db.users && db.sessions[h].workspace in db.workspaces
    ensures var was := db.sessions[Digest(Trim(token))]; var r := RefreshPlan(db, token, env).reply;
      && r.access == env.names(0) && r.refresh == env.names(1) && r.session.user == was.user
         && r.session.workspace == was.workspace
      && RefreshPlan(db, token, env).writes
         == [DeleteSession(Digest(Trim(token)))] + SessionWrites(was.user, was.workspace, env.names(0), env.names(1),
             env.clock(1))
  {
  }

  lemma NewTokensAreNew(db: Db, env: Env)
    requires Inv(db) && Fresh(db.issued, env)
    ensures env.names(0) != env.names(1) && Digest(env.names(0)) !in db.sessions && Digest(env.names(1)) !in db.sessions
  {
  }

  lemma RefreshEffect(db: Db, token: string, env: Env)
    requires Inv(db) && Fresh(db.issued, env) && RefreshPlan(db, token, env).reply.LoggedIn?
    ensures LawfulAll(db, RefreshPlan(db, token, env).writes)
    ensures var h := Digest(Trim(token)); var r := RefreshPlan(db, token, env).reply;
        var b := ApplyAll(db, RefreshPlan(db, token, env).writes);
      Spent(b, h) && Replaced(db.sessions, b.sessions, h, r.access, r.refresh, env.clock(1))
  {
    RefreshPlanOf(db, token, env);
    NewTokensAreNew(db, env);
    RefreshSessionsAfter(db, RefreshPlan(db, token, env).reply.session, Digest(Trim(token)), env);
  }

  /**
   * A successful refresh replaces the live refresh session by exactly one access and one refresh session,
   * for the same user and workspace, and spends the old token.
   */
  lemma RefreshReplaces(db: Db, s: Step, h: Digest)
    requires Refreshes(db, s, h)
    ensures Replaced(db.sessions, After(db, s).sessions, h, ReplyOf(db, s).access, ReplyOf(db, s).refresh,
        s.env.clock(1))
    ensures s.env.clock(0) < db.sessions[h].expiresAt && Spent(After(db, s), h)
  {
    RefreshPlanOf(db, s.op.token, s.env);
    RefreshEffect(db, s.op.token, s.env);
    UnfailedStep(db, s);
  }

  lemma SpentStaysSpent(db: Db, s: Step, h: Digest)
    requires StepOk(db, s) && Spent(db, h)
    ensures Spent(After(db, s), h)
  {
    StepEvolves(db, s);
  }

  lemma SpentIsRefused(db: Db, s: Step, h: Digest)
    requires Spent(db, h)
    ensures !Refreshes(db, s, h)
  {
  }

  /** Each refresh token succeeds at most once over any run. */
  lemma RefreshTokensAreSingleUse(db: Db, steps: seq<Step>, i: nat, j: nat, h: Digest)
    requires Run(db, steps) && i < j < |steps| && Refreshes(StateAt(db, steps, i), steps[i], h)
    ensures !Refreshes(StateAt(db, steps, j), steps[j], h)
  {
    var refreshes := (a: Db, s: Step) => Refreshes(a, s, h);
    var mark := (a: Db) => Spent(a, h);
    forall a, s | StepOk(a, s) && refreshes(a, s)
      ensures mark(After(a, s))
    {
      RefreshReplaces(a, s, h);
    }
    forall a, s | StepOk(a, s) && mark(a)
      ensures mark(After(a, s)) && !refreshes(a, s)
    {
      SpentStaysSpent(a, s, h);
      SpentIsRefused(a, s, h);
    }
    Runs.Excludes(StepOk, After, refreshes, refreshes, mark, db, steps, i, j);
    assert !refreshes(StateAt(db, steps, j), steps[j]);
  }

  lemma TokenNamesSession(db: Db, token: string, kind: TokenKind, now: Time)
    requires Inv(db) && TokenPrincipal(db, token, kind, now).Some?
    ensures var h := Digest(Trim(token)); h.token in db.issued && h in db.sessions && db.sessions[h].kind == kind
  {
  }

  /**
   * Access and refresh tokens are never interchangeable: a token that has ever been good for one use is
   * not good for the other in the same or any later state, at any clock reading.
   */
  lemma TokenKindsNeverMix(db: Db, steps: seq<Step>, i: nat, j: nat, token: string, kind: TokenKind, other: TokenKind,
      t: Time, t': Time)
    requires Inv(db) && Run(db, steps) && i <= j <= |steps| && kind != other
    requires forall h :: h in StateAt(db, steps, i).sessions ==>
      StateAt(db, steps, i).sessions[h].user in StateAt(db, steps, i).users
    requires TokenPrincipal(StateAt(db, steps, i), token, kind, t).Some?
    ensures forall h :: h in StateAt(db, steps, j).sessions ==>
      StateAt(db, steps, j).sessions[h].user in StateAt(db, steps, j).users
    ensures TokenPrincipal(StateAt(db, steps, j), token, other, t').None?
  {
    RunKeepsInv(db, steps, i);
    RunKeepsInv(db, steps, j);
    var a, b := StateAt(db, steps, i), StateAt(db, steps, j);
    TokenNamesSession(a, token, kind, t);
    SessionHistory(db, steps, i, j, Digest(Trim(token)));
    if TokenPrincipal(b, token, other, t').Some? {
      TokenNamesSession(b, token, other, t');
      assert false;
    }
  }

  lemma TokenPrincipalIsAuthentic(db: Db, token: string, kind: TokenKind, now: Time)
    requires Inv(db) && TokenPrincipal(db, token, kind, now).Some?
    ensures var p := TokenPrincipal(db, token, kind, now).value; p.user in db.users && Authentic(db, p)
  {
  }

  lemma KeyPrincipalIsAuthentic(db: Db, token: string, due: bool, env: Env, p: Principal)
    requires Resolves(db) && AuthenticateKeyPlan(db, token, due, env).reply == Authenticated(p)
    ensures p.user in db.users && Authentic(db, p)
  {
  }

  /** The principal a token or an API key authenticates to carries its user's own email. */
  lemma AuthenticatedIsAuthentic(db: Db, s: Step, p: Principal)
    requires StepOk(db, s) && (s.op.Authenticate? || s.op.AuthenticateKey?) && ReplyOf(db, s) == Authenticated(p)
    ensures p.user in db.users && Authentic(db, p)
  {
    if s.op.Authenticate? {
      TokenPrincipalIsAuthentic(db, s.op.token, Access, s.env.clock(0));
    } else {
      KeyPrincipalIsAuthentic(db, s.op.token, s.op.due, s.env, p);
    }
  }

  /** A principal that carries its user's own email does so in every later state. */
  lemma AuthenticStays(db: Db, steps: seq<Step>, i: nat, j: nat, p: Principal)
    requires Run(db, steps) && i <= j <= |steps|
    requires p.user in StateAt(db, steps, i).users && Authentic(StateAt(db, steps, i), p)
    ensures p.user in StateAt(db, steps, j).users && Authentic(StateAt(db, steps, j), p)
  {
    UserHistory(db, steps, i, j, p.user);
  }

  ghost predicate Authenticates(db: Db, s: Step, p: Principal) {
    StepOk(db, s) && (s.op.Authenticate? || s.op.AuthenticateKey?) && ReplyOf(db, s) == Authenticated(p)
  }

  /**
   * The principal a session or an API key authenticates to carries its user's own email in that and every
   * later state, which is what runs ask of callers.
   */
  lemma PrincipalsStayAuthentic(db: Db, steps: seq<Step>, i: nat, j: nat, p: Principal)
    requires Run(db, steps) && i <= j <= |steps| && i < |steps| && Authenticates(StateAt(db, steps, i), steps[i], p)
    ensures p.user in StateAt(db, steps, j).users && Authentic(StateAt(db, steps, j), p)
  {
    AuthenticatedIsAuthentic(StateAt(db, steps, i), steps[i], p);
    AuthenticStays(db, steps, i, j, p);
  }
}
