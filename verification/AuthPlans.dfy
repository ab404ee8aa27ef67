/**
 * What each service operation does, decided at once: the writes it commits, in order, and its reply.
 * The service itself interleaves reads, checks and writes; a failing repository call cuts it short.
 */
module AuthPlans {
  import opened Text
  import opened AuthTypes
  import opened Options
  import opened AuthTables
  import opened AuthHistory
  import opened WorkspaceChoice
  import Authorization

  /**
   * Everything an operation takes from outside: the clock reading, the random name and the repository
   * failure at each of its call sites.
   */
  datatype Env = Env(clock: nat -> Time, names: nat -> string, fails: nat -> bool)

  /** Random names are new, different from each other, and carry no white space at their ends. */
  ghost predicate Fresh(issued: set<string>, env: Env) {
    && (forall i :: env.names(i) !in issued && env.names(i) != "" && IsTrimmed(env.names(i)))
    && (forall i, j :: env.names(i) == env.names(j) ==> i == j)
  }

  ghost predicate Faulty(env: Env) {
    exists i :: env.fails(i)
  }

  datatype Op =
    | CreateUser(email: string, password: string)
    | Login(email: string, password: string)
    | ExternalLogin(provider: string, subject: string, email: string, verified: bool, closed: bool)
    | Authenticate(token: string)
    | AuthenticateKey(token: string, due: bool)
    | RefreshSession(token: string)
    | EndSession(token: string)
    | SwitchWorkspace(user: string, workspace: string)
    | CreateKey(user: string, context: Option<Id>, name: string, scopes: seq<string>, meters: seq<string>,
        expiresAt: Option<Time>)
    | RotateApiKey(user: string, context: Option<Id>, key: string, grace: Time)
    | DeleteKey(user: string, context: Option<Id>, key: string)
    | Invite(principal: Principal, email: string, role: string)
    | Accept(principal: Principal, token: string)
    | Revoke(principal: Principal, id: string)
    | UpdateMember(principal: Principal, user: string, role: string)
    | RemoveMember(principal: Principal, user: string)

  datatype Plan = Plan(writes: seq<Write>, reply: Reply)

  function Refuse(e: Error): Plan {
    Plan([], Failed(e))
  }

  // ---------------------------------------------------------------- sessions

  function SessionOf(u: Id, email: string, w: Id, role: Role): Principal {
    Principal(SessionKind, u, email, w, Some(role), [], [], None, None)
  }

  /** The two sessions every login stores. */
  function SessionWrites(u: Id, w: Id, access: string, refresh: string, now: Time): seq<Write> {
    [InsertSession(access, Session(u, w, Access, now + ACCESS_TTL, now)),
     InsertSession(refresh, Session(u, w, Refresh, now + REFRESH_TTL, now))]
  }

  /** `createLoginResultForWorkspace` */
  function LoginInto(db: Db, u: Id, w: Id, access: string, refresh: string, now: Time): Plan
    requires u in db.users
  {
    if (w, u) !in db.members then Refuse(Forbidden)
    else Plan(SessionWrites(u, w, access, refresh, now),
              LoggedIn(access, refresh, SessionOf(u, db.users[u].email, w, db.members[(w, u)].role)))
  }

  /** A workspace of one's own. */
  function FoundingWrites(u: Id, w: Id, now: Time): seq<Write> {
    [InsertWorkspace(w, u), InsertFounder(w, u, now)]
  }

  /** `createLoginResult`: into the default workspace, which is founded on the way if there is none. */
  ghost function LoginHome(db: Db, u: Id, env: Env): Plan
    requires u in db.users
  {
    match DefaultWorkspace(db.members, u)
    case Some(w) => LoginInto(db, u, w, env.names(2), env.names(3), env.clock(3))
    case None => LoginFounding(u, db.users[u].email, env)
  }

  function LoginFounding(u: Id, email: string, env: Env): Plan {
    var w := env.names(1);
    Plan(FoundingWrites(u, w, env.clock(2)) + SessionWrites(u, w, env.names(2), env.names(3), env.clock(3)),
         LoggedIn(env.names(2), env.names(3), SessionOf(u, email, w, Owner)))
  }

  function CreateUserPlan(db: Db, email: string, password: string, env: Env): Plan {
    match NormalizeEmail(email)
    case None => Refuse(InvalidInput)
    case Some(e) =>
      if |password| < MIN_PASSWORD then Refuse(InvalidInput)
      else if e in db.usersByEmail then Refuse(Conflict)
      else
        var u, w := env.names(0), env.names(1);
        Plan([InsertUser(u, User(e, Hashed(password), env.clock(0)))] + FoundingWrites(u, w, env.clock(2)),
            Registered(u, w))
  }

  ghost function LoginPlan(db: Db, email: string, password: string, env: Env): Plan
    requires Resolves(db)
  {
    match NormalizeEmail(email)
    case None => Refuse(Unauthorized)
    case Some(e) =>
      if e !in db.usersByEmail then Refuse(Unauthorized)
      else
        var u := db.usersByEmail[e];
        if db.users[u].secret != Hashed(password) then Refuse(Unauthorized) else LoginHome(db, u, env)
  }

  ghost function ExternalLoginPlan(db: Db, provider: string, subject: string, email: string, verified: bool,
      closed: bool, env: Env): Plan
    requires Resolves(db)
  {
    var p, s := Lower(Trim(provider)), Trim(subject);
    if p == "" || s == "" then Refuse(Unauthorized)
    else if (p, s) in db.identities then LoginHome(db, db.identities[(p, s)], env)
    else if !verified then Refuse(Unauthorized)
    else match NormalizeEmail(email)
      case None => Refuse(Unauthorized)
      case Some(e) =>
        if e in db.usersByEmail then
          var plan := LoginHome(db, db.usersByEmail[e], env);
          plan.(writes := [InsertIdentity(p, s, db.usersByEmail[e])] + plan.writes)
        else if closed then Refuse(Forbidden)
        else
          var u := env.names(0);
          var plan := LoginFounding(u, e, env);
          plan.(writes := [InsertUser(u, User(e, NoPassword, env.clock(0))), InsertIdentity(p, s, u)] + plan.writes)
  }

  /** `authenticateToken`: the session behind a token of the wanted kind, unexpired and still backed by a membership. */
  function TokenPrincipal(db: Db, token: string, kind: TokenKind, now: Time): Option<Principal>
    requires forall h :: h in db.sessions ==> db.sessions[h].user in db.users
  {
    var h := Digest(Trim(token));
    if h.token == "" || h !in db.sessions then None
    else
      var s := db.sessions[h];
      if s.kind != kind || s.expiresAt <= now || (s.workspace, s.user) !in db.members then None
      else Some(SessionOf(s.user, db.users[s.user].email, s.workspace, db.members[(s.workspace, s.user)].role))
  }

  ghost function AuthenticatePlan(db: Db, token: string, kind: TokenKind, env: Env): Plan
    requires Resolves(db)
  {
    match TokenPrincipal(db, token, kind, env.clock(0))
    case None => Refuse(Unauthorized)
    case Some(p) => Plan([], Authenticated(p))
  }

  ghost function RefreshPlan(db: Db, token: string, env: Env): Plan
    requires Resolves(db)
  {
    match TokenPrincipal(db, token, Refresh, env.clock(0))
    case None => Refuse(Unauthorized)
    case Some(p) =>
      Plan([DeleteSession(Digest(Trim(token)))]
          + SessionWrites(p.user, p.workspace, env.names(0), env.names(1), env.clock(1)),
           LoggedIn(env.names(0), env.names(1), p))
  }

  function EndSessionPlan(token: string): Plan {
    Plan(if Trim(token) == "" then [] else [DeleteSession(Digest(Trim(token)))], Done)
  }

  function SwitchPlan(db: Db, user: string, workspace: string, env: Env): Plan {
    var u, w := Trim(user), Trim(workspace);
    if u == "" || w == "" then Refuse(InvalidInput)
    else if u !in db.users then Refuse(NotFound)
    else LoginInto(db, u, w, env.names(2), env.names(3), env.clock(3))
  }

  // ---------------------------------------------------------------- API keys

  function KeyPrincipal(db: Db, k: ApiKey): Principal
    requires k.user in db.users && (k.workspace, k.user) in db.members
  {
    Principal(ApiKeyKind, k.user, db.users[k.user].email, k.workspace, Some(db.members[(k.workspace, k.user)].role),
              k.scopes, k.meters, k.expiresAt, k.revokedAt)
  }

  /** The key a token names, while neither revoked nor expired. */
  function LiveKey(db: Db, token: string, now: Time): Option<Id>
    requires forall h :: h in db.keysByHash ==> db.keysByHash[h] in db.keys
  {
    var h := Digest(Trim(token));
    if h.token == "" || h !in db.keysByHash || KeyDead(db.keys[db.keysByHash[h]], now) then None
    else Some(db.keysByHash[h])
  }

  /** `due`: the usage tracker asks for the key's last use to be recorded. */
  ghost function AuthenticateKeyPlan(db: Db, token: string, due: bool, env: Env): Plan
    requires Resolves(db)
  {
    match LiveKey(db, token, env.clock(0))
    case None => Refuse(Unauthorized)
    case Some(id) =>
      var k := db.keys[id];
      Plan(if due then [TouchKey(id, env.clock(0))] else [],
           if (k.workspace, k.user) in db.members then Authenticated(KeyPrincipal(db, k)) else Failed(Unauthorized))
  }

  function CreateKeyPlan(db: Db, op: Op, env: Env): Plan
    requires op.CreateKey?
  {
    var u, name, scopes := Trim(op.user), Trim(op.name), Authorization.NormalizedScopes(op.scopes);
    if u == "" then Refuse(InvalidInput)
    else if op.context.None? then Refuse(Unauthorized)
    else if name == "" || scopes.None? || Due(op.expiresAt, env.clock(0)) then Refuse(InvalidInput)
    else if u !in db.users || op.context.value !in db.workspaces then Refuse(Internal)
    else
      var k := ApiKey(u, op.context.value, name, Digest(env.names(1)), scopes.value,
                      Authorization.NormalizedMeters(op.meters), op.expiresAt, None, env.clock(1), None, None);
      Plan([InsertKey(env.names(0), k)], KeyIssued(env.names(0), env.names(1)))
  }

  /** The key as its user sees it from a workspace. */
  predicate OwnKey(db: Db, user: Id, workspace: Id, id: Id) {
    id in db.keys && db.keys[id].user == user && db.keys[id].workspace == workspace
  }

  function Replacement(source: Id, k: ApiKey, token: string, now: Time): ApiKey {
    k.(hash := Digest(token), revokedAt := None, createdAt := now, lastUsedAt := None, rotatedFrom := Some(source))
  }

  function RotatePlan(db: Db, op: Op, env: Env): Plan
    requires op.RotateApiKey?
  {
    var u, id, now := Trim(op.user), Trim(op.key), env.clock(0);
    if u == "" || id == "" || op.grace < 0 || op.grace > MAX_ROTATION_GRACE then Refuse(InvalidInput)
    else if op.context.None? then Refuse(Unauthorized)
    else if !OwnKey(db, u, op.context.value, id) then Refuse(NotFound)
    else if Due(db.keys[id].expiresAt, now) || db.keys[id].revokedAt.Some? then Refuse(Conflict)
    else Plan([RotateKey(id, now + op.grace, env.names(0), Replacement(id, db.keys[id], env.names(1), now))],
              KeyIssued(env.names(0), env.names(1)))
  }

  function DeleteKeyPlan(db: Db, op: Op, env: Env): Plan
    requires op.DeleteKey?
  {
    var u, id, now := Trim(op.user), Trim(op.key), env.clock(0);
    if u == "" || id == "" then Refuse(InvalidInput)
    else if op.context.None? then Refuse(Unauthorized)
    else if !OwnKey(db, u, op.context.value, id) then Refuse(NotFound)
    else if Due(db.keys[id].revokedAt, now) then Refuse(NotFound)
    else Plan([RevokeKey(id, now)], Done)
  }

  // ---------------------------------------------------------------- workspaces

  predicate Administers(p: Principal) {
    p.role == Some(Owner) || p.role == Some(Admin)
  }

  /** The invitation still open for an address; the invariant leaves room for one. */
  ghost function OpenFor(db: Db, w: Id, email: string): Option<Id> {
    if i :|
         && i in db.invitations && db.invitations[i].Open()
         && db.invitations[i].workspace == w && db.invitations[i].email == email
    then Some(i) else None
  }

  function NewInvitation(p: Principal, email: string, role: Role, token: string, now: Time): Invitation {
    Invitation(p.workspace, email, role, Digest(token), p.user, now + INVITATION_TTL, None, None, None, now)
  }

  /** The invitation part proper, for a normal address that belongs to no member. */
  ghost function InviteNewcomer(db: Db, p: Principal, e: string, r: Role, env: Env): Plan {
    var open := OpenFor(db, p.workspace, e);
    if open.Some? && env.clock(0) < db.invitations[open.value].expiresAt then Refuse(Conflict)
    else
      var cleared := if open.Some? then [RevokeInvitation(open.value, env.clock(1))] else [];
      if p.workspace !in db.workspaces || p.user !in db.users then Plan(cleared, Failed(Internal))
      else Plan(cleared + [InsertInvitation(env.names(0), NewInvitation(p, e, r, env.names(1), env.clock(2)))],
                InvitationIssued(env.names(0), env.names(1)))
  }

  ghost function InvitePlan(db: Db, p: Principal, email: string, role: string, env: Env): Plan {
    if !Administers(p) then Refuse(Forbidden)
    else match (NormalizeEmail(email), ParseInvitableRole(role))
      case (None, _) => Refuse(InvalidInput)
      case (_, None) => Refuse(InvalidInput)
      case (Some(e), Some(r)) =>
        if e in db.usersByEmail && (p.workspace, db.usersByEmail[e]) in db.members then Refuse(Conflict)
        else InviteNewcomer(db, p, e, r, env)
  }

  ghost function AcceptPlan(db: Db, p: Principal, token: string, env: Env): Plan
    requires Resolves(db)
  {
    var h := Digest(Trim(token));
    if h.token == "" then Refuse(InvalidInput)
    else if h !in db.invitationsByHash then Refuse(NotFound)
    else
      var id := db.invitationsByHash[h];
      var i := db.invitations[id];
      if StatusAt(i, env.clock(0)) != Pending then Refuse(Conflict)
      else if !EqualFold(i.email, p.email) then Refuse(Forbidden)
      else if (i.workspace, p.user) in db.members then Refuse(Conflict)
      else if p.user !in db.users then Refuse(Internal)
      else if StatusAt(i, env.clock(1)) != Pending then Refuse(Conflict)
      else Plan([AcceptInvitation(id, p.user, env.clock(1))]
          + SessionWrites(p.user, i.workspace, env.names(2), env.names(3), env.clock(3)),
                LoggedIn(env.names(2), env.names(3), SessionOf(p.user, db.users[p.user].email, i.workspace, i.role)))
  }

  function RevokePlan(db: Db, p: Principal, id: string, env: Env): Plan {
    var i := Trim(id);
    if !Administers(p) then Refuse(Forbidden)
    else if i in db.invitations && db.invitations[i].workspace == p.workspace && db.invitations[i].Open()
      then Plan([RevokeInvitation(i, env.clock(0))], Done)
    else Refuse(NotFound)
  }

  function Owners(members: map<(Id, Id), Membership>, w: Id): set<(Id, Id)> {
    set k | k in members && k.0 == w && members[k].role == Owner
  }

  /** The check reads the trimmed id, the write uses the id as given. */
  function UpdateMemberPlan(db: Db, p: Principal, user: string, role: string): Plan {
    if p.role != Some(Owner) then Refuse(Forbidden)
    else match ParseRole(role)
      case None => Refuse(InvalidInput)
      case Some(r) =>
        var k := (p.workspace, Trim(user));
        if k !in db.members then Refuse(NotFound)
        else if db.members[k].role == Owner && r != Owner && |Owners(db.members, p.workspace)| <= 1
            then Refuse(Conflict)
        else if (p.workspace, user) !in db.members then Refuse(NotFound)
        else Plan([SetRole(p.workspace, user, r)], Done)
  }

  function RemoveMemberPlan(db: Db, p: Principal, user: string): Plan {
    var k := (p.workspace, Trim(user));
    if p.role != Some(Owner) then Refuse(Forbidden)
    else if k !in db.members then Refuse(NotFound)
    else if db.members[k].role == Owner && |Owners(db.members, p.workspace)| <= 1 then Refuse(Conflict)
    else if (p.workspace, user) !in db.members then Refuse(NotFound)
    else Plan([DeleteMember(p.workspace, user)], Done)
  }

  ghost function PlanOf(db: Db, op: Op, env: Env): Plan
    requires Resolves(db)
  {
    match op
    case CreateUser(email, password) => CreateUserPlan(db, email, password, env)
    case Login(email, password) => LoginPlan(db, email, password, env)
    case ExternalLogin(provider, subject, email, verified, closed) =>
      ExternalLoginPlan(db, provider, subject, email, verified, closed, env)
    case Authenticate(token) => AuthenticatePlan(db, token, Access, env)
    case AuthenticateKey(token, due) => AuthenticateKeyPlan(db, token, due, env)
    case RefreshSession(token) => RefreshPlan(db, token, env)
    case EndSession(token) => EndSessionPlan(token)
    case SwitchWorkspace(user, workspace) => SwitchPlan(db, user, workspace, env)
    case CreateKey(_, _, _, _, _, _) => CreateKeyPlan(db, op, env)
    case RotateApiKey(_, _, _, _) => RotatePlan(db, op, env)
    case DeleteKey(_, _, _) => DeleteKeyPlan(db, op, env)
    case Invite(p, email, role) => InvitePlan(db, p, email, role, env)
    case Accept(p, token) => AcceptPlan(db, p, token, env)
    case Revoke(p, id) => RevokePlan(db, p, id, env)
    case UpdateMember(p, user, role) => UpdateMemberPlan(db, p, user, role)
    case RemoveMember(p, user) => RemoveMemberPlan(db, p, user)
  }
}
