/**
 * Exactly when each operation succeeds, and for whom: the answers of complete calls, told from the tables and
 * the arguments alone.
 */
module AuthAnswers {
  import opened Text
  import opened AuthTypes
  import opened Options
  import opened AuthTables
  import opened AuthHistory
  import opened AuthPlans
  import opened AuthLawful
  import opened AuthRuns
  import opened AuthGuards
  import opened WorkspaceChoice
  import Authorization
  import Runs

  // ---------------------------------------------------------------- registration and passwords

  predicate HasAddress(db: Db, u: Id, email: string) {
    u in db.users && Some(db.users[u].email) == NormalizeEmail(email)
  }

  ghost predicate Known(db: Db, email: string) {
    exists u :: HasAddress(db, u, email)
  }

  lemma KnownByIndex(db: Db, email: string)
    requires UsersInv(db.users, db.usersByEmail, db.issued)
    ensures Known(db, email) <==> NormalizeEmail(email).Some? && NormalizeEmail(email).value in db.usersByEmail
    ensures Known(db, email) ==> HasAddress(db, db.usersByEmail[NormalizeEmail(email).value], email)
    ensures forall u :: HasAddress(db, u, email) ==> u == db.usersByEmail[NormalizeEmail(email).value]
  {
    var e := NormalizeEmail(email);
    if e.Some? && e.value in db.usersByEmail {
      assert HasAddress(db, db.usersByEmail[e.value], email);
    }
  }

  /** Registration takes an address that is new and a long enough password. */
  ghost predicate RegistrationAnswer(db: Db, email: string, password: string, r: Reply) {
    && (r.Registered? <==> NormalizeEmail(email).Some? && |password| >= 8 && !Known(db, email))
    && (r == Failed(Conflict) <==> |password| >= 8 && Known(db, email))
    && (r.Registered? || r == Failed(Conflict) || r == Failed(InvalidInput))
  }

  lemma RegistrationReply(db: Db, email: string, password: string, env: Env)
    requires UsersInv(db.users, db.usersByEmail, db.issued)
    ensures RegistrationAnswer(db, email, password, CreateUserPlan(db, email, password, env).reply)
  {
    KnownByIndex(db, email);
  }

  /** A new user with the password, who owns a workspace. */
  predicate RegisteredAs(db: Db, u: Id, w: Id, email: string, password: string) {
    && HasPassword(db, u, email, password)
    && (w, u) in db.members && db.members[(w, u)].role == Owner
  }

  lemma UserThenWorkspace(db: Db, v: Write, w: Id, now: Time)
    requires v.InsertUser? && Lawful(db, v) && w !in db.issued && w != v.id && w != "" && IsTrimmed(w)
    requires forall k :: k in db.members ==> k.0 in db.issued
    ensures var ws := [v] + FoundingWrites(v.id, w, now);
      && LawfulAll(db, ws) && ApplyAll(db, ws).users == db.users[v.id := v.user]
      && ApplyAll(db, ws).members == db.members[(w, v.id) := Membership(Owner, now, Founding)]
  {
    OneWriteLawful(db, v);
    FoundingWritesLawful(Apply(db, v), v.id, w, now);
    ApplyAllConcat(db, [v], FoundingWrites(v.id, w, now));
  }

  lemma RegistrationStores(db: Db, email: string, password: string, env: Env)
    requires Fresh(db.issued, env) && CreateUserPlan(db, email, password, env).reply.Registered?
    requires forall k :: k in db.members ==> k.0 in db.issued
    ensures LawfulAll(db, CreateUserPlan(db, email, password, env).writes)
    ensures var plan := CreateUserPlan(db, email, password, env); var b := ApplyAll(db, plan.writes);
      && RegisteredAs(b, plan.reply.user, plan.reply.workspace, email, password)
      && b.users == db.users[plan.reply.user := b.users[plan.reply.user]]
  {
    var v := InsertUser(env.names(0), User(NormalizeEmail(email).value, Hashed(password), env.clock(0)));
    UserThenWorkspace(db, v, env.names(1), env.clock(2));
  }

  /** A registration that is reported has stored the address and the password, and changed no other user. */
  lemma {:induction false} RegistrationExactly(db: Db, s: Step)
    requires StepOk(db, s) && s.op.CreateUser? && !s.failed
    ensures RegistrationAnswer(db, s.op.email, s.op.password, ReplyOf(db, s))
    ensures var r, b := ReplyOf(db, s), After(db, s);
      r.Registered? ==>
        && RegisteredAs(b, r.user, r.workspace, s.op.email, s.op.password)
        && r.user !in db.users && b.users == db.users[r.user := b.users[r.user]]
  {
    RegistrationReply(db, s.op.email, s.op.password, s.env);
    UnfailedStep(db, s);
    NewWorkspaceIsNew(db, s.env);
    MembersInIssued(db);
    if ReplyOf(db, s).Registered? {
      RegistrationStores(db, s.op.email, s.op.password, s.env);
    }
  }

  /** The session of a login: the user's own, in the default workspace or in a new one of the user's own. */
  ghost predicate AtHome(db: Db, u: Id, p: Principal) {
    && p.kind == SessionKind && p.user == u && u in db.users && p.email == db.users[u].email && p.role.Some?
    && if IsDefault(db.members, u, p.workspace) then p.role.value == db.members[(p.workspace, u)].role
       else p.role.value == Owner && p.workspace !in db.workspaces && forall w :: (w, u) !in db.members
  }

  lemma HomeReply(db: Db, u: Id, env: Env)
    requires Resolves(db) && u in db.users && env.names(1) !in db.workspaces
    requires forall k :: k in db.members ==> k.0 in db.workspaces
    ensures LoginHome(db, u, env).reply.LoggedIn? && AtHome(db, u, LoginHome(db, u, env).reply.session)
  {
    match DefaultWorkspace(db.members, u)
    case Some(w) => DefaultIsOne(db.members, u, w);
    case None => NoDefaultNoMembership(db.members, u);
  }

  lemma DefaultIsOne(members: map<(Id, Id), Membership>, u: Id, w: Id)
    requires DefaultWorkspace(members, u) == Some(w)
    ensures IsDefault(members, u, w)
  {
  }

  lemma NoDefaultNoMembership(members: map<(Id, Id), Membership>, u: Id)
    requires DefaultWorkspace(members, u).None?
    ensures forall w :: (w, u) !in members
  {
    if exists w :: (w, u) in members {
      DefaultExists(members, u);
    }
  }

  /** Login takes the address and the password of one user, and logs that user in. */
  ghost predicate LoginAnswer(db: Db, email: string, password: string, r: Reply) {
    && (r == Failed(Unauthorized) <==> forall u :: !HasPassword(db, u, email, password))
    && (r != Failed(Unauthorized) ==>
          r.LoggedIn? && HasPassword(db, r.session.user, email, password) && AtHome(db, r.session.user, r.session))
  }

  lemma LoginReply(db: Db, email: string, password: string, env: Env)
    requires Inv(db) && env.names(1) !in db.workspaces
    requires forall k :: k in db.members ==> k.0 in db.workspaces
    ensures LoginAnswer(db, email, password, LoginPlan(db, email, password, env).reply)
  {
    KnownByIndex(db, email);
    forall u | HasPassword(db, u, email, password)
      ensures HasAddress(db, u, email)
    {
    }
    if Known(db, email) {
      var u := db.usersByEmail[NormalizeEmail(email).value];
      HomeReply(db, u, env);
      assert HasPassword(db, u, email, password) <==> db.users[u].secret == Hashed(password);
    } else {
      assert forall u :: HasPassword(db, u, email, password) ==> HasAddress(db, u, email);
    }
  }

  /** Nobody logs in without the password, and everybody does with it. */
  lemma LoginExactly(db: Db, s: Step)
    requires StepOk(db, s) && s.op.Login? && !s.failed
    ensures LoginAnswer(db, s.op.email, s.op.password, ReplyOf(db, s))
  {
    NewWorkspaceIsNew(db, s.env);
    MembersInIssued(db);
    LoginReply(db, s.op.email, s.op.password, s.env);
  }

  /** The step registers the user. */
  ghost predicate Registers(db: Db, s: Step, u: Id) {
    StepOk(db, s) && s.op.CreateUser? && ReplyOf(db, s).Registered? && ReplyOf(db, s).user == u
  }

  /** The step logs the user in, or refuses to log anyone in. */
  ghost predicate LogsIn(db: Db, s: Step, u: Id) {
    StepOk(db, s) && ReplyOf(db, s).LoggedIn? && ReplyOf(db, s).session.user == u
  }

  ghost predicate Refused(db: Db, s: Step) {
    StepOk(db, s) && ReplyOf(db, s) == Failed(Unauthorized)
  }

  lemma PasswordDecides(db: Db, s: Step, u: Id, email: string, password: string)
    requires StepOk(db, s) && s.op.Login? && !s.failed && HasPassword(db, u, email, password)
    requires NormalizeEmail(s.op.email) == NormalizeEmail(email)
    ensures if s.op.password == password then LogsIn(db, s, u) else Refused(db, s)
  {
    LoginExactly(db, s);
    OneUserPerAddress(db, u, email, password);
    assert HasPassword(db, u, s.op.email, s.op.password) <==> s.op.password == password;
  }

  lemma RegisteringStores(db: Db, s: Step, u: Id)
    requires Registers(db, s, u)
    ensures HasPassword(After(db, s), u, s.op.email, s.op.password)
  {
    RegistrationExactly(db, s);
  }

  lemma StepKeepsPassword(db: Db, s: Step, u: Id, email: string, password: string)
    requires StepOk(db, s) && HasPassword(db, u, email, password)
    ensures HasPassword(After(db, s), u, email, password)
  {
    StepEvolves(db, s);
  }

  lemma PasswordLasts(db: Db, steps: seq<Step>, i: nat, j: nat, u: Id, email: string, password: string)
    requires Run(db, steps) && i < j <= |steps| && Registers(StateAt(db, steps, i), steps[i], u)
    requires steps[i].op == CreateUser(email, password)
    ensures HasPassword(StateAt(db, steps, j), u, email, password)
  {
    var first := (a: Db, s: Step) => Registers(a, s, u) && s.op == CreateUser(email, password);
    var mark := (a: Db) => HasPassword(a, u, email, password);
    forall a, s | StepOk(a, s) && first(a, s)
      ensures mark(After(a, s))
    {
      RegisteringStores(a, s, u);
    }
    forall a, s | StepOk(a, s) && mark(a)
      ensures mark(After(a, s))
    {
      StepKeepsPassword(a, s, u, email, password);
    }
    Runs.Lasts(StepOk, After, first, mark, db, steps, i, j);
  }

  /**
   * From registration to login: in every later state of a run the registered address lets in exactly those who
   * give the password of the registration, and as the user registered.
   */
  lemma {:induction false} RegisteredPasswordLogsIn(db: Db, steps: seq<Step>, i: nat, j: nat, u: Id)
    requires Run(db, steps) && i < j < |steps| && Registers(StateAt(db, steps, i), steps[i], u)
    requires steps[j].op.Login? && !steps[j].failed
    requires NormalizeEmail(steps[j].op.email) == NormalizeEmail(steps[i].op.email)
    ensures if steps[j].op.password == steps[i].op.password then LogsIn(StateAt(db, steps, j), steps[j], u)
      else Refused(StateAt(db, steps, j), steps[j])
  {
    RunStep(db, steps, j);
    PasswordLasts(db, steps, i, j, u, steps[i].op.email, steps[i].op.password);
    PasswordDecides(StateAt(db, steps, j), steps[j], u, steps[i].op.email, steps[i].op.password);
  }

  lemma OneUserPerAddress(db: Db, u: Id, email: string, password: string)
    requires Inv(db) && HasPassword(db, u, email, password)
    ensures forall v, e, p ::
      HasPassword(db, v, e, p) && NormalizeEmail(e) == NormalizeEmail(email) ==> v == u && p == password
  {
  }

  // ---------------------------------------------------------------- identity providers

  /** The provider's name for the caller: known, or new and vouched for with an address that may be used. */
  ghost predicate Vouched(db: Db, op: Op)
    requires op.ExternalLogin?
  {
    var k := (Lower(Trim(op.provider)), Trim(op.subject));
    && k.0 != "" && k.1 != ""
    && (k in db.identities
        || (op.verified && NormalizeEmail(op.email).Some? && (Known(db, op.email) || !op.closed)))
  }

  /** The user a provider's name leads to: the one it is tied to, the one with the address, or a new one. */
  ghost predicate Identified(db: Db, op: Op, u: Id)
    requires op.ExternalLogin?
  {
    var k := (Lower(Trim(op.provider)), Trim(op.subject));
    if k in db.identities then u == db.identities[k]
    else if Known(db, op.email) then HasAddress(db, u, op.email)
    else u !in db.users
  }

  ghost predicate ExternalAnswer(db: Db, op: Op, r: Reply)
    requires op.ExternalLogin?
  {
    var k := (Lower(Trim(op.provider)), Trim(op.subject));
    && (r.LoggedIn? <==> Vouched(db, op))
    && (r == Failed(Forbidden) <==>
        && k.0 != "" && k.1 != "" && k !in db.identities && op.verified && NormalizeEmail(op.email).Some?
        && !Known(db, op.email) && op.closed)
    && (r.LoggedIn? || r == Failed(Forbidden) || r == Failed(Unauthorized))
    && (r.LoggedIn? ==> Identified(db, op, r.session.user))
  }

  lemma ExternalReply(db: Db, op: Op, env: Env)
    requires op.ExternalLogin? && Resolves(db) && UsersInv(db.users, db.usersByEmail, db.issued)
    requires env.names(1) !in db.workspaces && env.names(0) !in db.users
    requires forall k :: k in db.members ==> k.0 in db.workspaces
    ensures ExternalAnswer(db, op, PlanOf(db, op, env).reply)
  {
    KnownByIndex(db, op.email);
    var k, e := (Lower(Trim(op.provider)), Trim(op.subject)), NormalizeEmail(op.email);
    if k in db.identities {
      HomeReply(db, db.identities[k], env);
    } else if Known(db, op.email) {
      HomeReply(db, db.usersByEmail[e.value], env);
    }
  }

  /** A provider's name logs in exactly when it is vouched for, and as the user it leads to. */
  lemma ExternalLoginExactly(db: Db, s: Step)
    requires StepOk(db, s) && s.op.ExternalLogin? && !s.failed
    ensures ExternalAnswer(db, s.op, ReplyOf(db, s))
  {
    NewWorkspaceIsNew(db, s.env);
    MembersInIssued(db);
    ExternalReply(db, s.op, s.env);
  }

  predicate TiesIdentities(v: Write) {
    v.InsertIdentity?
  }

  lemma {:induction false} IdentitiesUntouched(db: Db, ws: seq<Write>)
    requires LawfulAll(db, ws) && forall i :: 0 <= i < |ws| ==> !TiesIdentities(ws[i])
    ensures ApplyAll(db, ws).identities == db.identities
    decreases |ws|
  {
    if ws != [] {
      assert !TiesIdentities(ws[0]);
      assert Apply(db, ws[0]).identities == db.identities;
      IdentitiesUntouched(Apply(db, ws[0]), ws[1..]);
    }
  }

  lemma HomeTiesNothing(db: Db, u: Id, email: string, env: Env)
    ensures forall i :: 0 <= i < |LoginFounding(u, email, env).writes| ==>
      !TiesIdentities(LoginFounding(u, email, env).writes[i])
    ensures u in db.users ==> forall i :: 0 <= i < |LoginHome(db, u, env).writes| ==>
      !TiesIdentities(LoginHome(db, u, env).writes[i])
  {
  }

  lemma TiedOnce(db: Db, v: Write, ws: seq<Write>)
    requires LawfulAll(db, [v] + ws) && v.InsertIdentity? && forall i :: 0 <= i < |ws| ==> !TiesIdentities(ws[i])
    ensures ApplyAll(db, [v] + ws).identities == db.identities[(v.provider, v.subject) := v.owner]
  {
    assert ([v] + ws)[0] == v && ([v] + ws)[1..] == ws;
    IdentitiesUntouched(Apply(db, v), ws);
  }

  lemma TiedSecond(db: Db, u: Write, v: Write, ws: seq<Write>)
    requires LawfulAll(db, [u, v] + ws) && u.InsertUser? && v.InsertIdentity?
    requires forall i :: 0 <= i < |ws| ==> !TiesIdentities(ws[i])
    ensures ApplyAll(db, [u, v] + ws).identities == db.identities[(v.provider, v.subject) := v.owner]
  {
    assert ([u, v] + ws)[0] == u && ([u, v] + ws)[1..] == [v] + ws;
    TiedOnce(Apply(db, u), v, ws);
  }

  lemma LinkedTies(db: Db, provider: string, subject: string, u: Id, env: Env)
    requires u in db.users && LawfulAll(db, [InsertIdentity(provider, subject, u)] + LoginHome(db, u, env).writes)
    ensures ApplyAll(db, [InsertIdentity(provider, subject, u)] + LoginHome(db, u, env).writes).identities
         == db.identities[(provider, subject) := u]
  {
    HomeTiesNothing(db, u, "", env);
    TiedOnce(db, InsertIdentity(provider, subject, u), LoginHome(db, u, env).writes);
  }

  lemma FirstTies(db: Db, v: Write, w: Write, e: string, env: Env)
    requires v.InsertUser? && w.InsertIdentity? && w.owner == env.names(0)
    requires LawfulAll(db, [v, w] + LoginFounding(env.names(0), e, env).writes)
    ensures ApplyAll(db, [v, w] + LoginFounding(env.names(0), e, env).writes).identities
         == db.identities[(w.provider, w.subject) := env.names(0)]
  {
    HomeTiesNothing(db, env.names(0), e, env);
    TiedSecond(db, v, w, LoginFounding(env.names(0), e, env).writes);
  }

  lemma AgainTies(db: Db, k: (string, string), env: Env)
    requires k in db.identities && db.identities[k] in db.users
    requires LawfulAll(db, LoginHome(db, db.identities[k], env).writes)
    ensures ApplyAll(db, LoginHome(db, db.identities[k], env).writes).identities
         == db.identities[k := db.identities[k]]
  {
    HomeTiesNothing(db, db.identities[k], "", env);
    IdentitiesUntouched(db, LoginHome(db, db.identities[k], env).writes);
    assert db.identities == db.identities[k := db.identities[k]];
  }

  ghost predicate EveryoneHasAHome(db: Db, env: Env) {
    forall u :: u in db.users ==> LoginHome(db, u, env).reply.LoggedIn? && LoginHome(db, u, env).reply.session.user == u
  }

  lemma ExternalTies(db: Db, op: Op, env: Env)
    requires op.ExternalLogin? && Resolves(db) && LawfulAll(db, PlanOf(db, op, env).writes)
    requires PlanOf(db, op, env).reply.LoggedIn? && EveryoneHasAHome(db, env)
    ensures ApplyAll(db, PlanOf(db, op, env).writes).identities
         == db.identities[(Lower(Trim(op.provider)), Trim(op.subject)) := PlanOf(db, op, env).reply.session.user]
  {
    var k := (Lower(Trim(op.provider)), Trim(op.subject));
    if k in db.identities {
      AgainTies(db, k, env);
    } else {
      var e := NormalizeEmail(op.email).value;
      if e in db.usersByEmail {
        LinkedTies(db, k.0, k.1, db.usersByEmail[e], env);
      } else {
        FirstTies(db, InsertUser(env.names(0), User(e, NoPassword, env.clock(0))),
          InsertIdentity(k.0, k.1, env.names(0)), e, env);
      }
    }
  }

  /** From then on the provider's name leads to that user: no other name is tied, and this one to nobody else. */
  lemma ExternalLoginTies(db: Db, s: Step)
    requires StepOk(db, s) && s.op.ExternalLogin? && ReplyOf(db, s).LoggedIn?
    ensures After(db, s).identities
         == db.identities[(Lower(Trim(s.op.provider)), Trim(s.op.subject)) := ReplyOf(db, s).session.user]
  {
    NewWorkspaceIsNew(db, s.env);
    MembersInIssued(db);
    UnfailedStep(db, s);
    forall u | u in db.users
      ensures LoginHome(db, u, s.env).reply.LoggedIn? && LoginHome(db, u, s.env).reply.session.user == u
    {
      HomeReply(db, u, s.env);
    }
    ExternalTies(db, s.op, s.env);
  }

  // ---------------------------------------------------------------- tokens

  /** A live session of the kind stands behind the token, of a user who is still a member. */
  predicate Stands(db: Db, token: string, kind: TokenKind, now: Time) {
    var h := Digest(Trim(token));
    && Trim(token) != "" && h in db.sessions && db.sessions[h].kind == kind && now < db.sessions[h].expiresAt
    && (db.sessions[h].workspace, db.sessions[h].user) in db.members
  }

  /** The principal is the user of the session, in the role the user has now. */
  predicate SpeaksFor(db: Db, p: Principal, u: Id, w: Id) {
    && u in db.users && (w, u) in db.members
    && p.kind == SessionKind && p.user == u && p.workspace == w && p.email == db.users[u].email
    && p.role == Some(db.members[(w, u)].role)
  }

  predicate TokenAnswer(db: Db, token: string, kind: TokenKind, now: Time, p: Option<Principal>) {
    && (p.Some? <==> Stands(db, token, kind, now))
    && (p.Some? ==>
        var session := db.sessions[Digest(Trim(token))];
          SpeaksFor(db, p.value, session.user, session.workspace))
  }

  lemma TokenReply(db: Db, token: string, kind: TokenKind, now: Time)
    requires Resolves(db)
    ensures TokenAnswer(db, token, kind, now, TokenPrincipal(db, token, kind, now))
  {
  }

  /** An access token is accepted exactly while its session stands; nothing is written. */
  lemma AuthenticationExactly(db: Db, s: Step)
    requires StepOk(db, s) && s.op.Authenticate? && !s.failed
    ensures var r := ReplyOf(db, s);
      && (r.Authenticated? || r == Failed(Unauthorized))
      && TokenAnswer(db, s.op.token, Access, s.env.clock(0), if r.Authenticated? then Some(r.principal) else None)
    ensures After(db, s) == db
  {
    TokenReply(db, s.op.token, Access, s.env.clock(0));
    UnfailedStep(db, s);
  }

  /** A refresh token is accepted exactly while its session stands. */
  lemma RefreshExactly(db: Db, s: Step)
    requires StepOk(db, s) && s.op.RefreshSession? && !s.failed
    ensures var r := ReplyOf(db, s);
      && (r.LoggedIn? || r == Failed(Unauthorized))
      && TokenAnswer(db, s.op.token, Refresh, s.env.clock(0), if r.LoggedIn? then Some(r.session) else None)
  {
    TokenReply(db, s.op.token, Refresh, s.env.clock(0));
  }

  lemma EndApplied(db: Db, op: Op, env: Env)
    requires Resolves(db) && op.EndSession? && LawfulAll(db, PlanOf(db, op, env).writes)
    ensures PlanOf(db, op, env).reply == Done
    ensures ApplyAll(db, PlanOf(db, op, env).writes)
         == if Trim(op.token) == "" then db else db.(sessions := db.sessions - {Digest(Trim(op.token))})
  {
    if Trim(op.token) != "" {
      OneWriteLawful(db, DeleteSession(Digest(Trim(op.token))));
      assert db.issued + {} == db.issued;
    }
  }

  /** Ending a session always succeeds and takes away that session alone. */
  lemma EndSessionExactly(db: Db, s: Step)
    requires StepOk(db, s) && s.op.EndSession? && !s.failed
    ensures ReplyOf(db, s) == Done
    ensures After(db, s)
         == if Trim(s.op.token) == "" then db else db.(sessions := db.sessions - {Digest(Trim(s.op.token))})
  {
    UnfailedStep(db, s);
    EndApplied(db, s.op, s.env);
  }

  /** The token has a session, and the step ends it. */
  ghost predicate Ends(db: Db, s: Step, h: Digest) {
    && StepOk(db, s) && s.op.EndSession? && !s.failed && Digest(Trim(s.op.token)) == h && h.token != ""
    && h in db.sessions
  }

  /** Someone is let in by the token. */
  ghost predicate Accepted(db: Db, s: Step, h: Digest) {
    && StepOk(db, s) && (s.op.Authenticate? || s.op.RefreshSession?) && Digest(Trim(s.op.token)) == h
    && !ReplyOf(db, s).Failed?
  }

  ghost predicate Gone(db: Db, h: Digest) {
    h.token in db.issued && h !in db.sessions
  }

  lemma EndingLeavesGone(db: Db, s: Step, h: Digest)
    requires Ends(db, s, h)
    ensures Gone(After(db, s), h)
  {
    EndSessionExactly(db, s);
  }

  lemma GoneStays(db: Db, s: Step, h: Digest)
    requires StepOk(db, s) && Gone(db, h)
    ensures Gone(After(db, s), h)
  {
    StepEvolves(db, s);
  }

  lemma GoneIsRefused(db: Db, s: Step, h: Digest)
    requires Gone(db, h)
    ensures !Accepted(db, s, h)
  {
  }

  /** Once its session is ended, a token never lets anyone in again. */
  lemma EndedForGood(db: Db, steps: seq<Step>, i: nat, j: nat, h: Digest)
    requires Run(db, steps) && i < j < |steps| && Ends(StateAt(db, steps, i), steps[i], h)
    ensures !Accepted(StateAt(db, steps, j), steps[j], h)
  {
    var first := (a: Db, s: Step) => Ends(a, s, h);
    var second := (a: Db, s: Step) => Accepted(a, s, h);
    var mark := (a: Db) => Gone(a, h);
    forall a, s | StepOk(a, s) && first(a, s)
      ensures mark(After(a, s))
    {
      EndingLeavesGone(a, s, h);
    }
    forall a, s | StepOk(a, s) && mark(a)
      ensures mark(After(a, s)) && !second(a, s)
    {
      GoneStays(a, s, h);
      GoneIsRefused(a, s, h);
    }
    Runs.Excludes(StepOk, After, first, second, mark, db, steps, i, j);
  }

  /** A switch takes a user who is a member there, and yields a session there. */
  predicate SwitchAnswer(db: Db, user: string, workspace: string, r: Reply) {
    var u, w := Trim(user), Trim(workspace);
    && (r.LoggedIn? <==> u != "" && w != "" && u in db.users && (w, u) in db.members)
    && (r == Failed(InvalidInput) <==> u == "" || w == "")
    && (r == Failed(NotFound) <==> u != "" && w != "" && u !in db.users)
    && (r == Failed(Forbidden) <==> u != "" && w != "" && u in db.users && (w, u) !in db.members)
    && (r.LoggedIn? ==> SpeaksFor(db, r.session, u, w))
  }

  lemma SwitchExactly(db: Db, s: Step)
    requires StepOk(db, s) && s.op.SwitchWorkspace? && !s.failed
    ensures SwitchAnswer(db, s.op.user, s.op.workspace, ReplyOf(db, s))
  {
  }

  // ---------------------------------------------------------------- keys

  /** The token is that of the key, which is neither revoked nor expired. */
  predicate Opens(db: Db, id: Id, token: string, now: Time) {
    && Trim(token) != "" && id in db.keys && db.keys[id].hash == Digest(Trim(token))
    && (db.keys[id].revokedAt.None? || now < db.keys[id].revokedAt.value)
    && (db.keys[id].expiresAt.None? || now < db.keys[id].expiresAt.value)
  }

  /** The principal is the key's user, with the rights and dates of the key. */
  predicate ActsWith(db: Db, p: Principal, k: ApiKey) {
    && k.user in db.users && (k.workspace, k.user) in db.members
    && p.kind == ApiKeyKind && p.user == k.user && p.workspace == k.workspace && p.email == db.users[k.user].email
    && p.role == Some(db.members[(k.workspace, k.user)].role)
    && p.scopes == k.scopes && p.meters == k.meters && p.expiresAt == k.expiresAt && p.revokedAt == k.revokedAt
  }

  /** A key lets in exactly while it is live and its user a member, and with its own rights. */
  ghost predicate KeyAnswer(db: Db, token: string, now: Time, r: Reply) {
    && (r.Authenticated? || r == Failed(Unauthorized))
    && (r.Authenticated? ==> exists id :: Opens(db, id, token, now) && ActsWith(db, r.principal, db.keys[id]))
    && (r.Failed? ==>
          forall id :: Opens(db, id, token, now) ==> (db.keys[id].workspace, db.keys[id].user) !in db.members)
  }

  lemma KeyReply(db: Db, token: string, due: bool, env: Env)
    requires Resolves(db) && KeysInv(db.keys, db.keysByHash, db.workspaces, db.users, db.issued)
    ensures KeyAnswer(db, token, env.clock(0), AuthenticateKeyPlan(db, token, due, env).reply)
  {
    var live := LiveKey(db, token, env.clock(0));
    if live.Some? {
      assert Opens(db, live.value, token, env.clock(0));
    }
  }

  lemma KeyAuthenticationExactly(db: Db, s: Step)
    requires StepOk(db, s) && s.op.AuthenticateKey? && !s.failed
    ensures KeyAnswer(db, s.op.token, s.env.clock(0), ReplyOf(db, s))
  {
    KeyReply(db, s.op.token, s.op.due, s.env);
  }

  /** The last use of the key is recorded if that is due, and nothing else is. */
  predicate UseRecorded(before: Db, after: Db, id: Id, due: bool, now: Time) {
    && id in before.keys
    && after == if due then before.(keys := before.keys[id := before.keys[id].(lastUsedAt := Some(now))]) else before
  }

  lemma UseWritten(db: Db, token: string, due: bool, env: Env, id: Id)
    requires Resolves(db) && KeysInv(db.keys, db.keysByHash, db.workspaces, db.users, db.issued)
    requires LawfulAll(db, AuthenticateKeyPlan(db, token, due, env).writes) && Opens(db, id, token, env.clock(0))
    ensures UseRecorded(db, ApplyAll(db, AuthenticateKeyPlan(db, token, due, env).writes), id, due, env.clock(0))
  {
    assert LiveKey(db, token, env.clock(0)) == Some(id);
    if due {
      OneWriteLawful(db, TouchKey(id, env.clock(0)));
      assert db.issued + {} == db.issued;
    }
  }

  lemma UsePlanWritten(db: Db, op: Op, env: Env, id: Id)
    requires Inv(db) && op.AuthenticateKey? && LawfulAll(db, PlanOf(db, op, env).writes)
    requires Opens(db, id, op.token, env.clock(0))
    ensures UseRecorded(db, ApplyAll(db, PlanOf(db, op, env).writes), id, op.due, env.clock(0))
  {
    UseWritten(db, op.token, op.due, env, id);
  }

  /** A use of a live key is recorded when it is due. */
  lemma KeyUseIsRecorded(db: Db, s: Step, id: Id)
    requires StepOk(db, s) && s.op.AuthenticateKey? && !s.failed && Opens(db, id, s.op.token, s.env.clock(0))
    ensures UseRecorded(db, After(db, s), id, s.op.due, s.env.clock(0))
  {
    UnfailedStep(db, s);
    UsePlanWritten(db, s.op, s.env, id);
  }

  /** The caller's own key, seen from its workspace. */
  predicate Owns(db: Db, user: string, context: Option<Id>, key: string) {
    && Trim(user) != "" && Trim(key) != "" && Trim(key) in db.keys
    && db.keys[Trim(key)].user == Trim(user) && context == Some(db.keys[Trim(key)].workspace)
  }

  /** A creation takes a user, a workspace, a name, supported scopes and an expiry to come. */
  predicate CreationAnswer(db: Db, op: Op, now: Time, r: Reply)
    requires op.CreateKey?
  {
    var valid := Trim(op.name) != "" && Authorization.NormalizedScopes(op.scopes).Some?
        && (op.expiresAt.None? || now < op.expiresAt.value);
    && (r.KeyIssued? <==>
        && Trim(op.user) in db.users && Trim(op.user) != "" && op.context.Some? && op.context.value in db.workspaces
        && valid)
    && (r == Failed(Unauthorized) <==> Trim(op.user) != "" && op.context.None?)
    && (r == Failed(InvalidInput) <==> Trim(op.user) == "" || (op.context.Some? && !valid))
    && (r.KeyIssued? || r in {Failed(Unauthorized), Failed(InvalidInput), Failed(Internal)})
  }

  lemma KeyCreationExactly(db: Db, s: Step)
    requires StepOk(db, s) && s.op.CreateKey? && !s.failed
    ensures CreationAnswer(db, s.op, s.env.clock(0), ReplyOf(db, s))
  {
  }

  /** A rotation takes a live key of one's own without a date, and a grace period of a day at most. */
  predicate RotationAnswer(db: Db, op: Op, now: Time, r: Reply)
    requires op.RotateApiKey?
  {
    var own := Owns(db, op.user, op.context, op.key);
    var apt := Trim(op.user) != "" && Trim(op.key) != "" && 0 <= op.grace <= DAY;
    && (r.KeyIssued? <==>
        && own && apt && db.keys[Trim(op.key)].revokedAt.None?
        && (db.keys[Trim(op.key)].expiresAt.None? || now < db.keys[Trim(op.key)].expiresAt.value))
    && (r == Failed(Conflict) <==>
        && own && apt
        && (db.keys[Trim(op.key)].revokedAt.Some?
            || (db.keys[Trim(op.key)].expiresAt.Some? && db.keys[Trim(op.key)].expiresAt.value <= now)))
    && (r == Failed(InvalidInput) <==> !apt)
    && (r == Failed(Unauthorized) <==> apt && op.context.None?)
    && (r == Failed(NotFound) <==> apt && op.context.Some? && !own)
  }

  lemma RotationReply(db: Db, op: Op, env: Env)
    requires op.RotateApiKey?
    ensures RotationAnswer(db, op, env.clock(0), RotatePlan(db, op, env).reply)
  {
  }

  lemma RotationExactly(db: Db, s: Step)
    requires StepOk(db, s) && s.op.RotateApiKey? && !s.failed
    ensures RotationAnswer(db, s.op, s.env.clock(0), ReplyOf(db, s))
  {
    RotationReply(db, s.op, s.env);
  }

  /** A deletion takes a key of one's own that is not revoked yet, and revokes it at once. */
  predicate DeletionAnswer(db: Db, op: Op, now: Time, r: Reply)
    requires op.DeleteKey?
  {
    var own, named := Owns(db, op.user, op.context, op.key), Trim(op.user) != "" && Trim(op.key) != "";
    && (r == Done <==>
        own && (db.keys[Trim(op.key)].revokedAt.None? || now < db.keys[Trim(op.key)].revokedAt.value))
    && (r == Failed(InvalidInput) <==> !named)
    && (r == Failed(Unauthorized) <==> named && op.context.None?)
    && (r == Done || r in {Failed(InvalidInput), Failed(Unauthorized), Failed(NotFound)})
  }

  lemma DeletionReply(db: Db, op: Op, env: Env)
    requires op.DeleteKey?
    ensures DeletionAnswer(db, op, env.clock(0), DeleteKeyPlan(db, op, env).reply)
  {
  }

  lemma KeyDeletionExactly(db: Db, s: Step)
    requires StepOk(db, s) && s.op.DeleteKey? && !s.failed
    ensures DeletionAnswer(db, s.op, s.env.clock(0), ReplyOf(db, s))
  {
    DeletionReply(db, s.op, s.env);
  }

  // ---------------------------------------------------------------- invitations

  /** Inviting takes an owner or administrator, an address, and a role that can be offered. */
  predicate InvitingAnswer(p: Principal, address: Option<string>, offered: Option<Role>, r: Reply) {
    && (r == Failed(Forbidden) <==> !OwnerOrAdmin(p))
    && (r == Failed(InvalidInput) <==> OwnerOrAdmin(p) && (address.None? || offered.None?))
  }

  lemma NewcomerReply(db: Db, p: Principal, e: string, r: Role, env: Env)
    ensures var reply := InviteNewcomer(db, p, e, r, env).reply;
      reply != Failed(Forbidden) && reply != Failed(InvalidInput)
  {
  }

  /** Only the roles of administrators and viewers can be offered. */
  lemma OfferedExactly(role: string)
    ensures ParseInvitableRole(role)
         == if ParseRole(role) == Some(Admin) || ParseRole(role) == Some(Viewer) then ParseRole(role) else None
  {
  }

  lemma InvitingReply(db: Db, p: Principal, email: string, role: string, env: Env)
    ensures InvitingAnswer(p, NormalizeEmail(email), ParseInvitableRole(role),
        InvitePlan(db, p, email, role, env).reply)
  {
    var e, r := NormalizeEmail(email), ParseInvitableRole(role);
    if e.Some? && r.Some? {
      NewcomerReply(db, p, e.value, r.value, env);
    }
  }

  lemma InvitingPlan(db: Db, op: Op, env: Env)
    requires Resolves(db) && op.Invite?
    ensures InvitingAnswer(op.principal, NormalizeEmail(op.email), ParseInvitableRole(op.role),
        PlanOf(db, op, env).reply)
  {
    match op
    case Invite(p, email, role) => InvitingReply(db, p, email, role, env);
  }

  lemma InvitingTakes(db: Db, s: Step)
    requires StepOk(db, s) && s.op.Invite? && !s.failed
    ensures InvitingAnswer(s.op.principal, NormalizeEmail(s.op.email), ParseInvitableRole(s.op.role), ReplyOf(db, s))
  {
    InvitingPlan(db, s.op, s.env);
  }

  /** The invitation is open, and of the workspace; it may have expired. */
  predicate Withdrawable(db: Db, id: Id, w: Id) {
    && id in db.invitations && db.invitations[id].workspace == w
    && db.invitations[id].acceptedAt.None? && db.invitations[id].revokedAt.None?
  }

  predicate WithdrawalAnswer(db: Db, p: Principal, id: string, r: Reply) {
    && (r == Done <==> OwnerOrAdmin(p) && Withdrawable(db, Trim(id), p.workspace))
    && (r == Failed(Forbidden) <==> !OwnerOrAdmin(p))
    && (r == Failed(NotFound) <==> OwnerOrAdmin(p) && !Withdrawable(db, Trim(id), p.workspace))
  }

  /** What is reported done is done: the invitation is revoked. Nothing else has changed. */
  predicate Withdrawn(before: Db, after: Db, id: Id, now: Time, r: Reply) {
    if r == Done then
      && id in before.invitations
      && after == before.(invitations := before.invitations[id := before.invitations[id].(revokedAt := Some(now))])
    else after == before
  }

  lemma WithdrawalReply(db: Db, p: Principal, id: string, env: Env)
    ensures WithdrawalAnswer(db, p, id, RevokePlan(db, p, id, env).reply)
  {
  }

  lemma WithdrawalApplied(db: Db, p: Principal, id: string, env: Env)
    requires LawfulAll(db, RevokePlan(db, p, id, env).writes)
    ensures Withdrawn(db, ApplyAll(db, RevokePlan(db, p, id, env).writes), Trim(id), env.clock(0),
        RevokePlan(db, p, id, env).reply)
  {
    if RevokePlan(db, p, id, env).reply == Done {
      OneWriteLawful(db, RevokeInvitation(Trim(id), env.clock(0)));
      assert db.issued + {} == db.issued;
    }
  }

  lemma WithdrawalPlan(db: Db, op: Op, env: Env)
    requires Inv(db) && op.Revoke? && LawfulAll(db, PlanOf(db, op, env).writes)
    ensures WithdrawalAnswer(db, op.principal, op.id, PlanOf(db, op, env).reply)
    ensures Withdrawn(db, ApplyAll(db, PlanOf(db, op, env).writes), Trim(op.id), env.clock(0),
        PlanOf(db, op, env).reply)
  {
    WithdrawalReply(db, op.principal, op.id, env);
    WithdrawalApplied(db, op.principal, op.id, env);
  }

  /** Owners and administrators withdraw exactly the open invitations of their own workspace. */
  lemma WithdrawalExactly(db: Db, s: Step)
    requires StepOk(db, s) && s.op.Revoke? && !s.failed
    ensures WithdrawalAnswer(db, s.op.principal, s.op.id, ReplyOf(db, s))
    ensures Withdrawn(db, After(db, s), Trim(s.op.id), s.env.clock(0), ReplyOf(db, s))
  {
    UnfailedStep(db, s);
    WithdrawalPlan(db, s.op, s.env);
  }
}
