/**
 * The repository behind the auth service: its tables, the writes it commits, the invariant every
 * lawful write keeps, and the relation between an earlier and any later state.
 */
module AuthTables {
  import opened Text
  import opened AuthTypes
  import opened Options

  /**
   * `usersByEmail`, `invitationsByHash` and `keysByHash` are the unique indexes of the schema.
   * `workspaces` maps a workspace to the user it was created for, and `issued` collects every
   * random id and token ever handed out; both are history variables.
   */
  datatype Db = Db(
    users: map<Id, User>, usersByEmail: map<string, Id>,
    identities: map<(string, string), Id>,
    workspaces: map<Id, Id>,
    members: map<(Id, Id), Membership>,
    invitations: map<Id, Invitation>, invitationsByHash: map<Digest, Id>,
    sessions: map<Digest, Session>,
    keys: map<Id, ApiKey>, keysByHash: map<Digest, Id>,
    issued: set<string>)

  const EMPTY := Db(map[], map[], map[], map[], map[], map[], map[], map[], map[], map[], {})

  /** One committed statement or transaction of the repository. */
  datatype Write =
    | InsertUser(id: Id, user: User)
    | InsertIdentity(provider: string, subject: string, owner: Id)
    | InsertWorkspace(workspace: Id, founder: Id)
    | InsertFounder(workspace: Id, founder: Id, at: Time)
    | SetRole(workspace: Id, member: Id, role: Role)
    | DeleteMember(workspace: Id, member: Id)
    | InsertInvitation(id: Id, invitation: Invitation)
    | AcceptInvitation(id: Id, member: Id, at: Time)
    | RevokeInvitation(id: Id, at: Time)
    | InsertSession(token: string, session: Session)
    | DeleteSession(hash: Digest)
    | InsertKey(id: Id, key: ApiKey)
    | TouchKey(id: Id, at: Time)
    | RotateKey(source: Id, at: Time, id: Id, key: ApiKey)
    | RevokeKey(id: Id, at: Time)

  /** Some user other than `u` owns the workspace. */
  predicate OtherOwner(members: map<(Id, Id), Membership>, w: Id, u: Id) {
    exists k :: k in members && k.0 == w && k.1 != u && members[k].role == Owner
  }

  predicate OpenInvitation(invitations: map<Id, Invitation>, w: Id, email: string) {
    exists i :: i in invitations && invitations[i].Open() && invitations[i].workspace == w
        && invitations[i].email == email
  }

  /** The rights a key carries, which rotation copies. */
  predicate SameGrant(a: ApiKey, b: ApiKey) {
    a.user == b.user && a.workspace == b.workspace && a.scopes == b.scopes && a.meters == b.meters
        && a.expiresAt == b.expiresAt
  }

  /**
   * The conditions under which the service commits a write: the WHERE clause, the unique and
   * foreign keys of the schema, and what the service has checked beforehand.
   */
  predicate Lawful(db: Db, w: Write) {
    match w
    case InsertUser(id, user) =>
      id !in db.issued && IsTrimmed(id) && user.email !in db.usersByEmail && IsNormalEmail(user.email)
    case InsertIdentity(provider, subject, owner) =>
      (provider, subject) !in db.identities && owner in db.users
    case InsertWorkspace(workspace, founder) =>
      workspace !in db.issued && workspace != "" && IsTrimmed(workspace) && founder in db.users
    case InsertFounder(workspace, founder, _) =>
      workspace in db.workspaces && db.workspaces[workspace] == founder && (workspace, founder) !in db.members
    case SetRole(workspace, member, role) =>
      (workspace, member) in db.members
      && (db.members[(workspace, member)].role == Owner && role != Owner ==> OtherOwner(db.members, workspace, member))
    case DeleteMember(workspace, member) =>
      (workspace, member) in db.members
      && (db.members[(workspace, member)].role == Owner ==> OtherOwner(db.members, workspace, member))
    case InsertInvitation(id, i) =>
      id !in db.issued && i.hash.token !in db.issued && i.workspace in db.workspaces
      && IsNormalEmail(i.email) && i.role != Owner && i.Open() && i.acceptedBy.None?
      && !OpenInvitation(db.invitations, i.workspace, i.email)
    case AcceptInvitation(id, member, at) =>
      id in db.invitations && StatusAt(db.invitations[id], at) == Pending
      && member in db.users && db.users[member].email == db.invitations[id].email
      && (db.invitations[id].workspace, member) !in db.members
    case RevokeInvitation(id, _) =>
      id in db.invitations && db.invitations[id].Open()
    case InsertSession(token, s) =>
      token !in db.issued && s.user in db.users && s.workspace in db.workspaces
    case DeleteSession(_) => true
    case InsertKey(id, k) =>
      id !in db.issued && k.hash.token !in db.issued && k.user in db.users && k.workspace in db.workspaces
      && k.revokedAt.None? && k.rotatedFrom.None?
    case TouchKey(id, _) => id in db.keys
    case RotateKey(source, at, id, k) =>
      source in db.keys && db.keys[source].revokedAt.None?
      && id !in db.issued && k.hash.token !in db.issued
      && SameGrant(db.keys[source], k) && k.revokedAt.None? && k.rotatedFrom == Some(source)
      && at <= k.createdAt + MAX_ROTATION_GRACE
    case RevokeKey(id, at) =>
      id in db.keys && (db.keys[id].revokedAt.None? || at < db.keys[id].revokedAt.value)
  }

  /** The effect of a write whose row conditions hold, table by table. */
  function Apply(db: Db, w: Write): Db
    requires Lawful(db, w)
  {
    Db(UsersAfter(db, w), EmailsAfter(db, w), IdentitiesAfter(db, w), WorkspacesAfter(db, w), MembersAfter(db, w),
       InvitationsAfter(db, w), InvitationHashesAfter(db, w), SessionsAfter(db, w), KeysAfter(db, w),
       KeyHashesAfter(db, w), db.issued + NewNames(w))
  }

  function NewNames(w: Write): set<string> {
    match w
    case InsertUser(id, _) => {id}
    case InsertWorkspace(workspace, _) => {workspace}
    case InsertInvitation(id, i) => {id, i.hash.token}
    case InsertSession(token, _) => {token}
    case InsertKey(id, k) => {id, k.hash.token}
    case RotateKey(_, _, id, k) => {id, k.hash.token}
    case _ => {}
  }

  function UsersAfter(db: Db, w: Write): map<Id, User> {
    match w
    case InsertUser(id, user) => db.users[id := user]
    case _ => db.users
  }

  function EmailsAfter(db: Db, w: Write): map<string, Id> {
    match w
    case InsertUser(id, user) => db.usersByEmail[user.email := id]
    case _ => db.usersByEmail
  }

  function IdentitiesAfter(db: Db, w: Write): map<(string, string), Id> {
    match w
    case InsertIdentity(provider, subject, owner) => db.identities[(provider, subject) := owner]
    case _ => db.identities
  }

  function WorkspacesAfter(db: Db, w: Write): map<Id, Id> {
    match w
    case InsertWorkspace(workspace, founder) => db.workspaces[workspace := founder]
    case _ => db.workspaces
  }

  function MembersAfter(db: Db, w: Write): map<(Id, Id), Membership>
    requires Lawful(db, w)
  {
    match w
    case InsertFounder(workspace, founder, at) =>
      db.members[(workspace, founder) := Membership(Owner, at, Founding)]
    case SetRole(workspace, member, role) =>
      db.members[(workspace, member) := db.members[(workspace, member)].(role := role)]
    case DeleteMember(workspace, member) => db.members - {(workspace, member)}
    case AcceptInvitation(id, member, at) =>
      var i := db.invitations[id];
      db.members[(i.workspace, member) := Membership(i.role, at, Invited(id))]
    case _ => db.members
  }

  function InvitationsAfter(db: Db, w: Write): map<Id, Invitation>
    requires Lawful(db, w)
  {
    match w
    case InsertInvitation(id, i) => db.invitations[id := i]
    case AcceptInvitation(id, member, at) =>
      db.invitations[id := db.invitations[id].(acceptedAt := Some(at), acceptedBy := Some(member))]
    case RevokeInvitation(id, at) => db.invitations[id := db.invitations[id].(revokedAt := Some(at))]
    case _ => db.invitations
  }

  function InvitationHashesAfter(db: Db, w: Write): map<Digest, Id> {
    match w
    case InsertInvitation(id, i) => db.invitationsByHash[i.hash := id]
    case _ => db.invitationsByHash
  }

  function SessionsAfter(db: Db, w: Write): map<Digest, Session> {
    match w
    case InsertSession(token, s) => db.sessions[Digest(token) := s]
    case DeleteSession(hash) => db.sessions - {hash}
    case _ => db.sessions
  }

  function KeysAfter(db: Db, w: Write): map<Id, ApiKey>
    requires Lawful(db, w)
  {
    match w
    case InsertKey(id, k) => db.keys[id := k]
    case TouchKey(id, at) => db.keys[id := db.keys[id].(lastUsedAt := Some(at))]
    case RotateKey(source, at, id, k) => db.keys[source := db.keys[source].(revokedAt := Some(at))][id := k]
    case RevokeKey(id, at) => db.keys[id := db.keys[id].(revokedAt := Some(at))]
    case _ => db.keys
  }

  function KeyHashesAfter(db: Db, w: Write): map<Digest, Id> {
    match w
    case InsertKey(id, k) => db.keysByHash[k.hash := id]
    case RotateKey(_, _, id, k) => db.keysByHash[k.hash := id]
    case _ => db.keysByHash
  }

  // ---------------------------------------------------------------- invariant

  ghost predicate UsersInv(users: map<Id, User>, byEmail: map<string, Id>, issued: set<string>) {
    && (forall u :: u in users ==>
          u in issued && IsTrimmed(u) && IsNormalEmail(users[u].email)
          && users[u].email in byEmail && byEmail[users[u].email] == u)
    && (forall e :: e in byEmail ==> byEmail[e] in users && users[byEmail[e]].email == e)
  }

  ghost predicate WorkspacesInv(workspaces: map<Id, Id>, users: map<Id, User>, issued: set<string>) {
    forall w :: w in workspaces ==> w in issued && w != "" && IsTrimmed(w) && workspaces[w] in users
  }

  /** A membership is the founder's, or was admitted by an invitation accepted by that very user. */
  predicate Provenance(k: (Id, Id), m: Membership, workspaces: map<Id, Id>, users: map<Id, User>,
      invitations: map<Id, Invitation>) {
    && k.0 in workspaces && k.1 in users
    && match m.origin
       case Founding => workspaces[k.0] == k.1
       case Invited(i) =>
         && i in invitations && invitations[i].workspace == k.0
         && invitations[i].acceptedBy == Some(k.1) && invitations[i].acceptedAt == Some(m.createdAt)
         && invitations[i].email == users[k.1].email
  }

  ghost predicate MembersInv(members: map<(Id, Id), Membership>, workspaces: map<Id, Id>, users: map<Id, User>,
      invitations: map<Id, Invitation>) {
    forall k :: k in members ==> Provenance(k, members[k], workspaces, users, invitations)
  }

  predicate InvitationInv(i: Invitation, workspaces: map<Id, Id>, issued: set<string>) {
    && i.workspace in workspaces && IsNormalEmail(i.email) && i.role != Owner && i.hash.token in issued
    && (i.acceptedAt.Some? <==> i.acceptedBy.Some?)
    && (i.acceptedAt.None? || i.revokedAt.None?)
  }

  /** At most one open invitation per workspace and address. */
  ghost predicate OneOpenInvitation(invitations: map<Id, Invitation>) {
    forall i, j :: Rivals(invitations, i, j) ==> i == j
  }

  /** Both are open for the same address in the same workspace. */
  predicate Rivals(invitations: map<Id, Invitation>, i: Id, j: Id) {
    && i in invitations && j in invitations && invitations[i].Open() && invitations[j].Open()
    && invitations[i].workspace == invitations[j].workspace && invitations[i].email == invitations[j].email
  }

  ghost predicate InvitationsInv(invitations: map<Id, Invitation>, byHash: map<Digest, Id>, workspaces: map<Id, Id>,
      issued: set<string>) {
    && (forall i :: i in invitations ==>
          i in issued && InvitationInv(invitations[i], workspaces, issued)
          && invitations[i].hash in byHash && byHash[invitations[i].hash] == i)
    && (forall h :: h in byHash ==> byHash[h] in invitations && invitations[byHash[h]].hash == h)
  }

  ghost predicate SessionsInv(sessions: map<Digest, Session>, workspaces: map<Id, Id>, users: map<Id, User>,
      issued: set<string>) {
    forall h :: h in sessions ==> h.token in issued && sessions[h].user in users && sessions[h].workspace in workspaces
  }

  /** The predecessor of a rotated key is scheduled for revocation within the grace period. */
  predicate LineageLink(parent: ApiKey, child: ApiKey) {
    SameGrant(parent, child) && parent.revokedAt.Some? && parent.revokedAt.value <= child.createdAt + MAX_ROTATION_GRACE
  }

  predicate Linked(keys: map<Id, ApiKey>, k: Id) {
    k in keys && keys[k].rotatedFrom.Some? ==>
      keys[k].rotatedFrom.value in keys && LineageLink(keys[keys[k].rotatedFrom.value], keys[k])
  }

  predicate Siblings(keys: map<Id, ApiKey>, j: Id, k: Id) {
    j in keys && k in keys && keys[j].rotatedFrom.Some? && keys[j].rotatedFrom == keys[k].rotatedFrom
  }

  ghost predicate LineageInv(keys: map<Id, ApiKey>) {
    (forall k :: Linked(keys, k)) && (forall j, k :: Siblings(keys, j, k) ==> j == k)
  }

  ghost predicate KeysInv(keys: map<Id, ApiKey>, byHash: map<Digest, Id>, workspaces: map<Id, Id>,
      users: map<Id, User>, issued: set<string>) {
    && (forall k :: k in keys ==>
          k in issued && keys[k].hash.token in issued && keys[k].user in users && keys[k].workspace in workspaces
          && keys[k].hash in byHash && byHash[keys[k].hash] == k)
    && (forall h :: h in byHash ==> byHash[h] in keys && keys[byHash[h]].hash == h)
  }

  ghost predicate IdentitiesInv(identities: map<(string, string), Id>, users: map<Id, User>) {
    forall k :: k in identities ==> identities[k] in users
  }

  /** Every reference a lookup follows leads to a row. */
  ghost predicate Resolves(db: Db) {
    && (forall e :: e in db.usersByEmail ==> db.usersByEmail[e] in db.users)
    && (forall k :: k in db.identities ==> db.identities[k] in db.users)
    && (forall k :: k in db.members ==> k.1 in db.users)
    && (forall h :: h in db.invitationsByHash ==> db.invitationsByHash[h] in db.invitations)
    && (forall h :: h in db.sessions ==> db.sessions[h].user in db.users)
    && (forall h :: h in db.keysByHash ==> db.keysByHash[h] in db.keys)
    && (forall k :: k in db.keys ==> db.keys[k].user in db.users)
  }

  ghost predicate Inv(db: Db) {
    && Resolves(db)
    && UsersInv(db.users, db.usersByEmail, db.issued)
    && IdentitiesInv(db.identities, db.users)
    && WorkspacesInv(db.workspaces, db.users, db.issued)
    && MembersInv(db.members, db.workspaces, db.users, db.invitations)
    && InvitationsInv(db.invitations, db.invitationsByHash, db.workspaces, db.issued)
       && OneOpenInvitation(db.invitations)
    && SessionsInv(db.sessions, db.workspaces, db.users, db.issued)
    && KeysInv(db.keys, db.keysByHash, db.workspaces, db.users, db.issued)
    && LineageInv(db.keys)
  }

  lemma EmptyInv()
    ensures Inv(EMPTY)
  {
  }

  lemma ApplyKeepsUsers(db: Db, w: Write)
    requires Lawful(db, w) && UsersInv(db.users, db.usersByEmail, db.issued)
    ensures UsersInv(UsersAfter(db, w), EmailsAfter(db, w), db.issued + NewNames(w))
  {
  }

  lemma ApplyKeepsWorkspaces(db: Db, w: Write)
    requires Lawful(db, w) && IdentitiesInv(db.identities, db.users)
        && WorkspacesInv(db.workspaces, db.users, db.issued)
    ensures IdentitiesInv(IdentitiesAfter(db, w), UsersAfter(db, w))
    ensures WorkspacesInv(WorkspacesAfter(db, w), UsersAfter(db, w), db.issued + NewNames(w))
  {
  }

  lemma ApplyKeepsMembers(db: Db, w: Write)
    requires Lawful(db, w) && MembersInv(db.members, db.workspaces, db.users, db.invitations)
    requires forall u :: u in db.users ==> u in db.issued
    requires WorkspacesInv(db.workspaces, db.users, db.issued)
    requires forall i :: i in db.invitations ==> i in db.issued && db.invitations[i].workspace in db.workspaces
    ensures MembersInv(MembersAfter(db, w), WorkspacesAfter(db, w), UsersAfter(db, w), InvitationsAfter(db, w))
  {
    var ms := MembersAfter(db, w);
    forall k | k in ms
      ensures Provenance(k, ms[k], WorkspacesAfter(db, w), UsersAfter(db, w), InvitationsAfter(db, w))
    {
      if k in db.members {
        assert Provenance(k, db.members[k], db.workspaces, db.users, db.invitations);
      }
    }
  }

  lemma ApplyKeepsInvitations(db: Db, w: Write)
    requires Lawful(db, w) && InvitationsInv(db.invitations, db.invitationsByHash, db.workspaces, db.issued)
    ensures InvitationsInv(InvitationsAfter(db, w), InvitationHashesAfter(db, w), WorkspacesAfter(db, w),
        db.issued + NewNames(w))
  {
    var ns, hs, issued := InvitationsAfter(db, w), InvitationHashesAfter(db, w), db.issued + NewNames(w);
    forall i | i in ns
      ensures i in issued && InvitationInv(ns[i], WorkspacesAfter(db, w), issued) && ns[i].hash in hs
          && hs[ns[i].hash] == i
    {
      if i in db.invitations {
        assert ns[i].hash == db.invitations[i].hash;
        assert InvitationInv(db.invitations[i], db.workspaces, db.issued);
      }
    }
    assert forall h :: h in hs ==> hs[h] in ns && ns[hs[h]].hash == h;
  }

  lemma ApplyKeepsOneOpen(db: Db, w: Write)
    requires Lawful(db, w) && OneOpenInvitation(db.invitations)
    ensures OneOpenInvitation(InvitationsAfter(db, w))
  {
    var ns := InvitationsAfter(db, w);
    forall i, j | Rivals(ns, i, j)
      ensures i == j
    {
      assert !(w.InsertInvitation? && w.id in {i, j}) ==> Rivals(db.invitations, i, j);
    }
  }

  lemma ApplyKeepsSessions(db: Db, w: Write)
    requires Lawful(db, w) && SessionsInv(db.sessions, db.workspaces, db.users, db.issued)
    ensures SessionsInv(SessionsAfter(db, w), WorkspacesAfter(db, w), UsersAfter(db, w), db.issued + NewNames(w))
  {
  }

  lemma ApplyKeepsKeys(db: Db, w: Write)
    requires Lawful(db, w) && KeysInv(db.keys, db.keysByHash, db.workspaces, db.users, db.issued)
    ensures KeysInv(KeysAfter(db, w), KeyHashesAfter(db, w), WorkspacesAfter(db, w), UsersAfter(db, w),
        db.issued + NewNames(w))
  {
  }

  /** A key that already had a successor would carry a revocation time, so rotation cannot branch. */
  lemma RotateKeepsLineage(db: Db, source: Id, at: Time, id: Id, key: ApiKey)
    requires Lawful(db, RotateKey(source, at, id, key)) && LineageInv(db.keys)
    requires id !in db.keys
    ensures LineageInv(KeysAfter(db, RotateKey(source, at, id, key)))
  {
    var ks := KeysAfter(db, RotateKey(source, at, id, key));
    forall k
      ensures Linked(ks, k)
      ensures k in db.keys ==> ks[k].rotatedFrom == db.keys[k].rotatedFrom != Some(source)
    {
      assert Linked(db.keys, k);
    }
    forall j, k | Siblings(ks, j, k)
      ensures j == k
    {
      assert j != id && k != id ==> Siblings(db.keys, j, k);
    }
  }

  /** Writes to single keys that leave origins, rights and dates of replaced keys alone. */
  lemma OtherWritesKeepLineage(db: Db, w: Write)
    requires Lawful(db, w) && !w.RotateKey? && LineageInv(db.keys)
    requires forall k :: k in db.keys ==> k in db.issued
    ensures LineageInv(KeysAfter(db, w))
  {
    var ks := KeysAfter(db, w);
    forall k
      ensures Linked(ks, k)
    {
      assert Linked(db.keys, k);
    }
    forall j, k | Siblings(ks, j, k)
      ensures j == k
    {
      assert Siblings(db.keys, j, k);
    }
  }

  lemma ApplyKeepsLineage(db: Db, w: Write)
    requires Lawful(db, w) && LineageInv(db.keys)
    requires forall k :: k in db.keys ==> k in db.issued
    ensures LineageInv(KeysAfter(db, w))
  {
    if w.RotateKey? {
      RotateKeepsLineage(db, w.source, w.at, w.id, w.key);
    } else {
      OtherWritesKeepLineage(db, w);
    }
  }

  /** Every lawful write keeps the invariant. */
  lemma ApplyKeepsInv(db: Db, w: Write)
    requires Inv(db) && Lawful(db, w)
    ensures Inv(Apply(db, w))
  {
    ApplyKeepsUsers(db, w);
    ApplyKeepsWorkspaces(db, w);
    ApplyKeepsMembers(db, w);
    ApplyKeepsInvitations(db, w);
    ApplyKeepsOneOpen(db, w);
    ApplyKeepsSessions(db, w);
    ApplyKeepsKeys(db, w);
    ApplyKeepsLineage(db, w);
    PartsResolve(Apply(db, w));
  }

  lemma PartsResolve(db: Db)
    requires UsersInv(db.users, db.usersByEmail, db.issued) && IdentitiesInv(db.identities, db.users)
    requires MembersInv(db.members, db.workspaces, db.users, db.invitations)
    requires InvitationsInv(db.invitations, db.invitationsByHash, db.workspaces, db.issued)
    requires SessionsInv(db.sessions, db.workspaces, db.users, db.issued)
    requires KeysInv(db.keys, db.keysByHash, db.workspaces, db.users, db.issued)
    ensures Resolves(db)
  {
  }
}
