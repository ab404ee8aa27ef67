/** The workspace a login lands in: best role first, then oldest membership, then smallest id. */
module WorkspaceChoice {
  import opened Text
  import opened AuthTypes
  import opened Options

  function Rank(r: Role): nat {
    match r
    case Owner => 0
    case Admin => 1
    case Viewer => 2
  }

  /** The ORDER BY of the default-workspace query. */
  predicate Earlier(a: Membership, x: Id, b: Membership, y: Id) {
    Rank(a.role) < Rank(b.role) ||
    (a.role == b.role && (a.createdAt < b.createdAt || (a.createdAt == b.createdAt && TextBefore(x, y))))
  }

  lemma EarlierOrder(a: Membership, x: Id, b: Membership, y: Id)
    requires x != y
    ensures Earlier(a, x, b, y) <==> !Earlier(b, y, a, x)
  {
    TextOrder(x, y);
  }

  lemma EarlierTransitive(a: Membership, x: Id, b: Membership, y: Id, c: Membership, z: Id)
    requires Earlier(a, x, b, y) && Earlier(b, y, c, z)
    ensures Earlier(a, x, c, z)
  {
    if TextBefore(x, y) && TextBefore(y, z) {
      TextTransitive(x, y, z);
    }
  }

  ghost predicate IsDefault(members: map<(Id, Id), Membership>, u: Id, w: Id) {
    (w, u) in members
    && forall x :: (x, u) in members && x != w ==> Earlier(members[(w, u)], w, members[(x, u)], x)
  }

  ghost function DefaultWorkspace(members: map<(Id, Id), Membership>, u: Id): Option<Id> {
    if exists w :: IsDefault(members, u, w) then (var w :| IsDefault(members, u, w); Some(w)) else None
  }

  /** The query has one answer, and it has one whenever the user belongs anywhere. */
  lemma DefaultIs(members: map<(Id, Id), Membership>, u: Id, w: Id)
    requires IsDefault(members, u, w)
    ensures DefaultWorkspace(members, u) == Some(w)
  {
    var v := DefaultWorkspace(members, u).value;
    if v != w {
      EarlierOrder(members[(w, u)], w, members[(v, u)], v);
      assert false;
    }
  }

  lemma {:induction false} FirstOf(members: map<(Id, Id), Membership>, u: Id, ws: set<Id>) returns (best: Id)
    requires ws != {} && forall x :: x in ws ==> (x, u) in members
    ensures best in ws
    ensures forall x :: x in ws && x != best ==> Earlier(members[(best, u)], best, members[(x, u)], x)
    decreases ws
  {
    var w :| w in ws;
    best := w;
    if ws != {w} {
      var rest := FirstOf(members, u, ws - {w});
      EarlierOrder(members[(w, u)], w, members[(rest, u)], rest);
      if Earlier(members[(rest, u)], rest, members[(w, u)], w) {
        best := rest;
      } else {
        forall x | x in ws && x != w && x != rest
          ensures Earlier(members[(w, u)], w, members[(x, u)], x)
        {
          EarlierTransitive(members[(w, u)], w, members[(rest, u)], rest, members[(x, u)], x);
        }
      }
    }
  }

  /** Whoever belongs anywhere has a default workspace. */
  lemma DefaultExists(members: map<(Id, Id), Membership>, u: Id)
    requires exists w :: (w, u) in members
    ensures exists w :: IsDefault(members, u, w)
  {
    var ws := set k | k in members && k.1 == u :: k.0;
    assert forall k :: k in members && k.1 == u ==> k.0 in ws;
    var w :| (w, u) in members;
    assert (w, u).0 in ws;
    var best := FirstOf(members, u, ws);
    forall x | (x, u) in members && x != best
      ensures Earlier(members[(best, u)], best, members[(x, u)], x)
    {
      assert (x, u).0 in ws;
    }
    assert IsDefault(members, u, best);
  }

  /**
   * Owned workspaces come before administered ones, and those before the rest; among workspaces of equal role the
   * oldest membership comes first, and among equally old ones the id that is first in the alphabet.
   */
  predicate Preferred(m: Membership, w: Id, n: Membership, x: Id) {
    && (n.role == Owner ==> m.role == Owner)
    && (n.role == Admin ==> m.role != Viewer)
    && (n.role == m.role ==> m.createdAt <= n.createdAt)
    && (n.role == m.role && n.createdAt == m.createdAt && x != w ==> TextBefore(w, x))
  }

  /** The default workspace is preferred to every other one, and it is the only one that is. */
  lemma DefaultIsPreferred(members: map<(Id, Id), Membership>, u: Id, w: Id)
    ensures IsDefault(members, u, w) <==>
      (w, u) in members && forall x :: (x, u) in members ==> Preferred(members[(w, u)], w, members[(x, u)], x)
  {
    if (w, u) in members {
      forall x | (x, u) in members && x != w
        ensures Earlier(members[(w, u)], w, members[(x, u)], x) <==>
          Preferred(members[(w, u)], w, members[(x, u)], x)
      {
      }
    }
  }

  method FindDefaultWorkspace(members: map<(Id, Id), Membership>, u: Id) returns (r: Option<Id>)
    ensures r == DefaultWorkspace(members, u)
    ensures r.None? <==> forall k :: k in members ==> k.1 != u
    ensures r.Some? ==>
      (r.value, u) in members
      && forall x :: (x, u) in members ==> Preferred(members[(r.value, u)], r.value, members[(x, u)], x)
  {
    var rest := set k | k in members && k.1 == u :: k.0;
    assert forall x :: x in rest ==> (x, u) in members;
    assert forall k :: k in members && k.1 == u ==> k.0 in rest;
    if rest == {} {
      return None;
    }
    var best :| best in rest;
    rest := rest - {best};
    while rest != {}
      invariant (best, u) in members && best !in rest
      invariant forall x :: x in rest ==> (x, u) in members
      invariant forall x :: (x, u) in members && x !in rest && x != best ==>
        Earlier(members[(best, u)], best, members[(x, u)], x)
      decreases rest
    {
      var x :| x in rest;
      rest := rest - {x};
      EarlierOrder(members[(best, u)], best, members[(x, u)], x);
      if Earlier(members[(x, u)], x, members[(best, u)], best) {
        forall y | (y, u) in members && y !in rest && y != x && y != best
          ensures Earlier(members[(x, u)], x, members[(y, u)], y)
        {
          EarlierTransitive(members[(x, u)], x, members[(best, u)], best, members[(y, u)], y);
        }
        best := x;
      }
    }
    DefaultIs(members, u, best);
    DefaultIsPreferred(members, u, best);
    return Some(best);
  }
}
