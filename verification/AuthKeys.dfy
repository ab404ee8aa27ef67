/** Whole-run properties of API keys: rotation lineages, revocation and authority. */
module AuthKeys {
  import opened Text
  import opened AuthTypes
  import opened Options
  import opened AuthTables
  import opened AuthHistory
  import opened AuthPlans
  import opened AuthLawful
  import opened AuthRuns
  import opened Authorization
  import Runs

  predicate StartsWithRotation(ws: seq<Write>, source: Id) {
    ws != [] && ws[0].RotateKey? && ws[0].source == source
  }

  /** The step commits a rotation of key `source`. */
  ghost predicate Rotates(db: Db, s: Step, source: Id) {
    StepOk(db, s) && StartsWithRotation(Committed(db, s), source)
  }

  ghost predicate Revocable(db: Db, id: Id) {
    id in db.keys && db.keys[id].revokedAt.Some?
  }

  lemma OneRotationMarks(db: Db, w: Write)
    requires Lawful(db, w) && w.RotateKey? && forall k :: k in db.keys ==> k in db.issued
    ensures !Revocable(db, w.source) && Revocable(Apply(db, w), w.source)
  {
  }

  lemma FirstRotationMarks(db: Db, ws: seq<Write>, source: Id)
    requires Inv(db) && LawfulAll(db, ws) && StartsWithRotation(ws, source)
    ensures !Revocable(db, source) && Revocable(ApplyAll(db, ws), source)
  {
    OneRotationMarks(db, ws[0]);
    ApplyKeepsInv(db, ws[0]);
    WritesAdvanceKey(Apply(db, ws[0]), ws[1..], source);
  }

  lemma RotationMarks(db: Db, s: Step, source: Id)
    requires Rotates(db, s, source)
    ensures !Revocable(db, source) && Revocable(After(db, s), source)
  {
    CommittedLawful(db, s);
    FirstRotationMarks(db, Committed(db, s), source);
  }

  lemma StepAdvancesKey(db: Db, s: Step, id: Id)
    requires StepOk(db, s) && id in db.keys
    ensures id in After(db, s).keys && KeyAdvances(db.keys[id], After(db, s).keys[id])
  {
    CommittedLawful(db, s);
    WritesAdvanceKey(db, Committed(db, s), id);
  }

  lemma MarkedIsNotRotated(db: Db, s: Step, source: Id)
    requires Revocable(db, source)
    ensures !Rotates(db, s, source)
  {
    if Rotates(db, s, source) {
      RotationMarks(db, s, source);
      assert false;
    }
  }

  /** Each key is rotated at most once. */
  lemma RotatedOnce(db: Db, steps: seq<Step>, i: nat, j: nat, source: Id)
    requires Run(db, steps) && i < j < |steps| && Rotates(StateAt(db, steps, i), steps[i], source)
    ensures !Rotates(StateAt(db, steps, j), steps[j], source)
  {
    var rotates := (a: Db, s: Step) => Rotates(a, s, source);
    var mark := (a: Db) => Revocable(a, source);
    forall a, s | StepOk(a, s) && rotates(a, s)
      ensures mark(After(a, s))
    {
      RotationMarks(a, s, source);
    }
    forall a, s | StepOk(a, s) && mark(a)
      ensures mark(After(a, s)) && !rotates(a, s)
    {
      StepAdvancesKey(a, s, source);
      MarkedIsNotRotated(a, s, source);
    }
    Runs.Excludes(StepOk, After, rotates, rotates, mark, db, steps, i, j);
    assert !rotates(StateAt(db, steps, j), steps[j]);
  }

  /** Each key of the sequence replaced the one before it. */
  predicate Chain(keys: map<Id, ApiKey>, ids: seq<Id>) {
    && (forall i :: 0 <= i < |ids| ==> ids[i] in keys)
    && (forall i :: 0 < i < |ids| ==> keys[ids[i]].rotatedFrom == Some(ids[i - 1]))
  }

  /** Two chains of replacements that start at the same key run along the same keys. */
  lemma {:induction false} ChainsAgree(keys: map<Id, ApiKey>, xs: seq<Id>, ys: seq<Id>)
    requires LineageInv(keys) && Chain(keys, xs) && Chain(keys, ys)
    requires 0 < |xs| <= |ys| && xs[0] == ys[0]
    ensures xs == ys[..|xs|]
  {
    if |xs| > 1 {
      var n := |xs| - 1;
      assert Chain(keys, xs[..n]);
      ChainsAgree(keys, xs[..n], ys);
      assert xs[n - 1] == xs[..n][n - 1] == ys[n - 1];
      assert Siblings(keys, xs[n], ys[n]);
    }
    assert xs == xs[..|xs| - 1] + [xs[|xs| - 1]];
  }

  /** All but the last key of a chain carry a revocation date. */
  lemma ReplacedKeysAreDated(keys: map<Id, ApiKey>, ids: seq<Id>, i: nat)
    requires LineageInv(keys) && Chain(keys, ids) && i + 1 < |ids|
    ensures keys[ids[i]].revokedAt.Some?
  {
    assert Linked(keys, ids[i + 1]);
  }

  /** Lineages never branch: in any reachable state a lineage has at most one key without a revocation date. */
  lemma OneUndatedKeyPerLineage(db: Db, steps: seq<Step>, n: nat, xs: seq<Id>, ys: seq<Id>)
    requires Inv(db) && Run(db, steps) && n <= |steps|
    requires var ks := StateAt(db, steps, n).keys;
      Chain(ks, xs) && Chain(ks, ys) && xs != [] && ys != [] && xs[0] == ys[0]
      && ks[xs[|xs| - 1]].revokedAt.None? && ks[ys[|ys| - 1]].revokedAt.None?
    ensures xs[|xs| - 1] == ys[|ys| - 1]
  {
    RunKeepsInv(db, steps, n);
    LastKeysAgree(StateAt(db, steps, n).keys, xs, ys);
  }

  lemma LastKeysAgree(keys: map<Id, ApiKey>, xs: seq<Id>, ys: seq<Id>)
    requires LineageInv(keys) && Chain(keys, xs) && Chain(keys, ys) && xs != [] && ys != [] && xs[0] == ys[0]
    requires keys[xs[|xs| - 1]].revokedAt.None? && keys[ys[|ys| - 1]].revokedAt.None?
    ensures xs == ys
  {
    if |xs| <= |ys| {
      ChainsAgree(keys, xs, ys);
      if |xs| < |ys| {
        ReplacedKeysAreDated(keys, ys, |xs| - 1);
      }
    } else {
      ChainsAgree(keys, ys, xs);
      ReplacedKeysAreDated(keys, xs, |ys| - 1);
    }
  }

  /** Twenty-four hours after its replacement was made, a rotated key is refused, at that and every later time. */
  lemma RotatedKeyDies(db: Db, steps: seq<Step>, n: nat, parent: Id, child: Id, t: Time)
    requires Inv(db) && Run(db, steps) && n <= |steps|
    requires var ks := StateAt(db, steps, n).keys;
      parent in ks && child in ks && ks[child].rotatedFrom == Some(parent) && ks[child].createdAt + DAY <= t
    ensures KeyDead(StateAt(db, steps, n).keys[parent], t)
  {
    RunKeepsInv(db, steps, n);
    LinkDies(StateAt(db, steps, n).keys, parent, child, t);
  }

  lemma LinkDies(keys: map<Id, ApiKey>, parent: Id, child: Id, t: Time)
    requires LineageInv(keys) && parent in keys && child in keys
    requires keys[child].rotatedFrom == Some(parent) && keys[child].createdAt + DAY <= t
    ensures KeyDead(keys[parent], t)
  {
    assert Linked(keys, child);
  }

  /** Presenting the key's token is refused. */
  lemma DeadKeyIsRefused(db: Db, token: string, due: bool, env: Env, id: Id)
    requires Resolves(db) && KeysInv(db.keys, db.keysByHash, db.workspaces, db.users, db.issued)
    requires id in db.keys && db.keys[id].hash == Digest(Trim(token)) && KeyDead(db.keys[id], env.clock(0))
    ensures AuthenticateKeyPlan(db, token, due, env) == Refuse(Unauthorized)
  {
  }

  /**
   * A key that has been revoked or has expired by time `t` is refused by every authentication that any
   * later step of the run makes at that time or later.
   */
  lemma DeadKeysStayDead(db: Db, steps: seq<Step>, i: nat, j: nat, id: Id, t: Time)
    requires Run(db, steps) && i <= j < |steps|
    requires id in StateAt(db, steps, i).keys && KeyDead(StateAt(db, steps, i).keys[id], t)
    requires steps[j].op.AuthenticateKey? && StateAt(db, steps, i).keys[id].hash == Digest(Trim(steps[j].op.token))
    requires t <= steps[j].env.clock(0)
    ensures StepOk(StateAt(db, steps, j), steps[j])
    ensures ReplyOf(StateAt(db, steps, j), steps[j]) in {Failed(Unauthorized), Failed(Internal)}
    ensures Committed(StateAt(db, steps, j), steps[j]) == []
  {
    KeyHistory(db, steps, i, j, id);
    RunStep(db, steps, j);
    DeadKeyStep(StateAt(db, steps, j), steps[j], id);
  }

  lemma DeadKeyStep(db: Db, s: Step, id: Id)
    requires StepOk(db, s) && s.op.AuthenticateKey? && id in db.keys
    requires db.keys[id].hash == Digest(Trim(s.op.token)) && KeyDead(db.keys[id], s.env.clock(0))
    ensures ReplyOf(db, s) in {Failed(Unauthorized), Failed(Internal)} && Committed(db, s) == []
  {
    DeadKeyIsRefused(db, s.op.token, s.op.due, s.env, id);
    RefusedStep(db, s, Unauthorized);
  }

  lemma RefusedStep(db: Db, s: Step, e: Error)
    requires StepOk(db, s) && PlanOf(db, s.op, s.env) == Refuse(e)
    ensures ReplyOf(db, s) in {Failed(e), Failed(Internal)} && Committed(db, s) == []
  {
  }

  lemma {:induction false} ChainSharesGrant(keys: map<Id, ApiKey>, ids: seq<Id>, i: nat)
    requires LineageInv(keys) && Chain(keys, ids) && i < |ids|
    ensures SameGrant(keys[ids[0]], keys[ids[i]])
  {
    if i > 0 {
      ChainSharesGrant(keys, ids, i - 1);
      assert Linked(keys, ids[i]);
    }
  }

  /** Rotation preserves authority: while both are live, any two keys of a lineage get the same verdicts. */
  lemma RotationPreservesAuthority(db: Db, ids: seq<Id>, i: nat, j: nat, action: string, resource: Resource, now: Time)
    requires Inv(db) && Chain(db.keys, ids) && i < |ids| && j < |ids|
    requires !KeyDead(db.keys[ids[i]], now) && !KeyDead(db.keys[ids[j]], now)
    requires (db.keys[ids[i]].workspace, db.keys[ids[i]].user) in db.members
    ensures db.keys[ids[i]].user in db.users && db.keys[ids[j]].user in db.users
    ensures (db.keys[ids[j]].workspace, db.keys[ids[j]].user) in db.members
    ensures Can(KeyPrincipal(db, db.keys[ids[i]]), action, resource, now)
        <==> Can(KeyPrincipal(db, db.keys[ids[j]]), action, resource, now)
  {
    ChainSharesGrant(db.keys, ids, i);
    ChainSharesGrant(db.keys, ids, j);
    var a, b := db.keys[ids[i]], db.keys[ids[j]];
    assert SameGrant(a, b);
    CanIgnoresLiveDates(KeyPrincipal(db, a), KeyPrincipal(db, b), action, resource, now);
  }
}
