/** The records behind the workspace, session and API-key service. */
module AuthTypes {
  import opened Options
  import opened Text

  /** Instants and durations in nanoseconds. */
  type Time = int

  type Id = string

  const SECOND: Time := 1_000_000_000
  const MINUTE: Time := 60 * SECOND
  const DAY: Time := 24 * 60 * MINUTE
  const ACCESS_TTL: Time := 15 * MINUTE
  const REFRESH_TTL: Time := 30 * DAY
  const INVITATION_TTL: Time := 7 * DAY
  const MAX_ROTATION_GRACE: Time := DAY
  const MIN_PASSWORD := 8

  /** What `HashToken` yields: an injective image of the token. */
  datatype Digest = Digest(token: string)

  /** A stored password: none for users known only through an identity provider. */
  datatype Secret = NoPassword | Hashed(password: string)

  datatype Role = Owner | Admin | Viewer

  datatype TokenKind = Access | Refresh

  datatype User = User(email: string, secret: Secret, createdAt: Time)

  /** Where a membership comes from. A history variable: the service never reads it. */
  datatype Origin = Founding | Invited(invitation: Id)

  datatype Membership = Membership(role: Role, createdAt: Time, origin: Origin)

  datatype Invitation = Invitation(
    workspace: Id, email: string, role: Role, hash: Digest, invitedBy: Id, expiresAt: Time,
    acceptedAt: Option<Time>, acceptedBy: Option<Id>, revokedAt: Option<Time>, createdAt: Time)
  {
    /** Neither accepted nor revoked; it may still have expired. */
    predicate Open() {
      acceptedAt.None? && revokedAt.None?
    }
  }

  datatype InvitationStatus = Accepted | Revoked | Expired | Pending

  function StatusAt(i: Invitation, now: Time): InvitationStatus {
    if i.acceptedAt.Some? then Accepted
    else if i.revokedAt.Some? then Revoked
    else if i.expiresAt <= now then Expired
    else Pending
  }

  datatype Session = Session(user: Id, workspace: Id, kind: TokenKind, expiresAt: Time, createdAt: Time)

  /** `rotatedFrom` is the related id of the key's "created" event. */
  datatype ApiKey = ApiKey(
    user: Id, workspace: Id, name: string, hash: Digest, scopes: seq<string>, meters: seq<string>,
    expiresAt: Option<Time>, revokedAt: Option<Time>, createdAt: Time, lastUsedAt: Option<Time>,
    rotatedFrom: Option<Id>)

  /** An optional deadline that has passed. */
  predicate Due(deadline: Option<Time>, now: Time) {
    deadline.Some? && deadline.value <= now
  }

  /** Refused by authentication because of its own dates. */
  predicate KeyDead(k: ApiKey, now: Time) {
    Due(k.revokedAt, now) || Due(k.expiresAt, now)
  }

  datatype PrincipalKind = SessionKind | ApiKeyKind

  /** Who a request speaks for. A role of `None` stands for text that is no known role. */
  datatype Principal = Principal(
    kind: PrincipalKind, user: Id, email: string, workspace: Id, role: Option<Role>,
    scopes: seq<string>, meters: seq<string>, expiresAt: Option<Time>, revokedAt: Option<Time>)

  datatype Error = Unauthorized | Forbidden | NotFound | Conflict | InvalidInput | Internal

  datatype Reply =
    | Failed(error: Error)
    | Done
    | Registered(user: Id, workspace: Id)
    | LoggedIn(access: string, refresh: string, session: Principal)
    | Authenticated(principal: Principal)
    | KeyIssued(id: Id, token: string)
    | InvitationIssued(id: Id, token: string)

  /** The reply lets its receiver act in workspace `w` as user `u`. */
  predicate Grants(r: Reply, w: Id, u: Id) {
    match r
    case LoggedIn(_, _, p) => p.workspace == w && p.user == u
    case Authenticated(p) => p.workspace == w && p.user == u
    case _ => false
  }

  /** `normalizeEmail`: trimmed, lower case, and with an at sign. */
  function NormalizeEmail(email: string): (r: Option<string>)
    ensures r.Some? ==> IsNormalEmail(r.value)
  {
    var e := Lower(Trim(email));
    if e == "" || '@' !in e then None else Some(e)
  }

  predicate IsNormalEmail(email: string) {
    forall i :: 0 <= i < |email| ==> !('A' <= email[i] <= 'Z')
  }

  function ParseRole(role: string): Option<Role> {
    var r := Lower(Trim(role));
    if r == "owner" then Some(Owner)
    else if r == "admin" then Some(Admin)
    else if r == "viewer" then Some(Viewer)
    else None
  }

  /** `normalizeInvitableRole`: ownership cannot be given by invitation. */
  function ParseInvitableRole(role: string): (r: Option<Role>)
    ensures r != Some(Owner)
  {
    var r := ParseRole(role);
    if r == Some(Owner) then None else r
  }
}
