/** What any later state of the auth tables has in common with an earlier one. */
module AuthHistory {
  import opened AuthTypes
  import opened Options
  import opened AuthTables

  ghost predicate HasOwner(members: map<(Id, Id), Membership>, w: Id) {
    exists k :: k in members && k.0 == w && members[k].role == Owner
  }

  /** Rows are never dropped or rewritten. */
  ghost predicate Grows<K, V>(a: map<K, V>, b: map<K, V>) {
    forall k :: k in a ==> k in b && b[k] == a[k]
  }

  /** Everything but acceptance and revocation is fixed, and both are final. */
  predicate InvitationAdvances(a: Invitation, b: Invitation) {
    && b == a.(acceptedAt := b.acceptedAt, acceptedBy := b.acceptedBy, revokedAt := b.revokedAt)
    && (!a.Open() ==> b == a)
  }

  ghost predicate InvitationsAdvance(a: map<Id, Invitation>, b: map<Id, Invitation>) {
    forall i :: i in a ==> i in b && InvitationAdvances(a[i], b[i])
  }

  /** Everything but use and revocation is fixed, and a revocation date only moves closer. */
  predicate KeyAdvances(a: ApiKey, b: ApiKey) {
    && b == a.(revokedAt := b.revokedAt, lastUsedAt := b.lastUsedAt)
    && (a.revokedAt.Some? ==> b.revokedAt.Some? && b.revokedAt.value <= a.revokedAt.value)
  }

  ghost predicate KeysAdvance(a: map<Id, ApiKey>, b: map<Id, ApiKey>) {
    forall k :: k in a ==> k in b && KeyAdvances(a[k], b[k])
  }

  /** A token that was ever issued has the session it had, or none. */
  ghost predicate SessionsDecay(issued: set<string>, a: map<Digest, Session>, b: map<Digest, Session>) {
    forall h :: h in b && h.token in issued ==> h in a && a[h] == b[h]
  }

  ghost predicate OwnersStay(a: map<(Id, Id), Membership>, b: map<(Id, Id), Membership>) {
    forall w :: HasOwner(a, w) ==> HasOwner(b, w)
  }

  ghost predicate Evolves(a: Db, b: Db) {
    && Grows(a.users, b.users) && Grows(a.workspaces, b.workspaces) && a.issued <= b.issued
    && InvitationsAdvance(a.invitations, b.invitations)
    && KeysAdvance(a.keys, b.keys)
    && SessionsDecay(a.issued, a.sessions, b.sessions)
    && OwnersStay(a.members, b.members)
  }

  lemma EvolvesReflexive(a: Db)
    ensures Evolves(a, a)
  {
  }

  lemma EvolvesTransitive(a: Db, b: Db, c: Db)
    requires Evolves(a, b) && Evolves(b, c)
    ensures Evolves(a, c)
  {
  }

  lemma ApplyKeepsOwners(db: Db, w: Write)
    requires Lawful(db, w)
    ensures OwnersStay(db.members, MembersAfter(db, w))
  {
    var ms := MembersAfter(db, w);
    forall x | HasOwner(db.members, x)
      ensures HasOwner(ms, x)
    {
      var k :| k in db.members && k.0 == x && db.members[k].role == Owner;
      match w
      case SetRole(workspace, member, _) =>
        if k == (workspace, member) && ms[k].role != Owner {
          var o :| o in db.members && o.0 == workspace && o.1 != member && db.members[o].role == Owner;
          assert o in ms && ms[o].role == Owner;
        }
      case DeleteMember(workspace, member) =>
        if k == (workspace, member) {
          var o :| o in db.members && o.0 == workspace && o.1 != member && db.members[o].role == Owner;
          assert o in ms && ms[o].role == Owner;
        }
      case _ => assert k in ms && ms[k].role == Owner;
    }
  }

  lemma ApplyAdvancesInvitations(db: Db, w: Write)
    requires Lawful(db, w) && forall i :: i in db.invitations ==> i in db.issued
    ensures InvitationsAdvance(db.invitations, InvitationsAfter(db, w))
  {
  }

  lemma ApplyAdvancesKeys(db: Db, w: Write)
    requires Lawful(db, w) && forall k :: k in db.keys ==> k in db.issued
    ensures KeysAdvance(db.keys, KeysAfter(db, w))
  {
  }

  lemma ApplyGrowsRows(db: Db, w: Write)
    requires Lawful(db, w)
    requires forall u :: u in db.users ==> u in db.issued
    requires forall x :: x in db.workspaces ==> x in db.issued
    ensures Grows(db.users, UsersAfter(db, w)) && Grows(db.workspaces, WorkspacesAfter(db, w))
    ensures SessionsDecay(db.issued, db.sessions, SessionsAfter(db, w))
  {
  }

  /** One lawful write moves history forward. */
  lemma ApplyEvolves(db: Db, w: Write)
    requires Lawful(db, w) && Inv(db)
    ensures Evolves(db, Apply(db, w))
  {
    ApplyKeepsOwners(db, w);
    ApplyAdvancesInvitations(db, w);
    ApplyAdvancesKeys(db, w);
    ApplyGrowsRows(db, w);
  }

  // ---------------------------------------------------------------- sequences of writes

  ghost predicate LawfulAll(db: Db, ws: seq<Write>)
    decreases |ws|
  {
    ws == [] || (Lawful(db, ws[0]) && LawfulAll(Apply(db, ws[0]), ws[1..]))
  }

  ghost function ApplyAll(db: Db, ws: seq<Write>): Db
    requires LawfulAll(db, ws)
    decreases |ws|
  {
    if ws == [] then db else ApplyAll(Apply(db, ws[0]), ws[1..])
  }

  lemma {:induction false} LawfulPrefix(db: Db, ws: seq<Write>, k: nat)
    requires LawfulAll(db, ws) && k <= |ws|
    ensures LawfulAll(db, ws[..k])
    decreases k
  {
    if k > 0 {
      LawfulPrefix(Apply(db, ws[0]), ws[1..], k - 1);
      assert ws[1..][..k - 1] == ws[..k][1..];
    }
  }

  lemma {:induction false} ApplyAllConcat(db: Db, ws: seq<Write>, vs: seq<Write>)
    requires LawfulAll(db, ws) && LawfulAll(ApplyAll(db, ws), vs)
    ensures LawfulAll(db, ws + vs) && ApplyAll(db, ws + vs) == ApplyAll(ApplyAll(db, ws), vs)
    decreases |ws|
  {
    if ws == [] {
      assert ws + vs == vs;
    } else {
      var all, next := ws + vs, Apply(db, ws[0]);
      assert all[0] == ws[0] && all[1..] == ws[1..] + vs;
      ApplyAllConcat(next, ws[1..], vs);
      assert LawfulAll(next, all[1..]);
    }
  }

  lemma ApplyAllOne(db: Db, ws: seq<Write>, w: Write)
    requires LawfulAll(db, ws) && Lawful(ApplyAll(db, ws), w)
    ensures LawfulAll(db, ws + [w]) && ApplyAll(db, ws + [w]) == Apply(ApplyAll(db, ws), w)
  {
    ApplyAllConcat(db, ws, [w]);
  }

  /** Any sequence of lawful writes keeps the invariant and moves history forward. */
  lemma {:induction false} ApplyAllEvolves(db: Db, ws: seq<Write>)
    requires Inv(db) && LawfulAll(db, ws)
    ensures Inv(ApplyAll(db, ws)) && Evolves(db, ApplyAll(db, ws))
    decreases |ws|
  {
    if ws != [] {
      var next := Apply(db, ws[0]);
      ApplyKeepsInv(db, ws[0]);
      ApplyEvolves(db, ws[0]);
      ApplyAllEvolves(next, ws[1..]);
      EvolvesTransitive(db, next, ApplyAll(db, ws));
    }
  }
}
