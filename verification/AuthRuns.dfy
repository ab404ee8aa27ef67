/**
 * Runs of the auth service: any sequence of operations by any callers, each possibly cut short by a
 * failing repository call after some of its writes.
 */
module AuthRuns {
  import opened Text
  import opened AuthTypes
  import opened Options
  import opened AuthTables
  import opened AuthHistory
  import opened AuthPlans
  import opened AuthLawful
  import opened WorkspaceChoice
  import Runs

  /** `kept` writes of the plan are committed; `failed` says that the caller sees an internal error. */
  datatype Step = Step(op: Op, env: Env, kept: nat, failed: bool)

  ghost predicate StepOk(db: Db, s: Step) {
    && Inv(db) && Fresh(db.issued, s.env) && AuthenticOp(db, s.op)
    && s.kept <= |PlanOf(db, s.op, s.env).writes|
    && (!s.failed ==> s.kept == |PlanOf(db, s.op, s.env).writes|)
  }

  ghost function Committed(db: Db, s: Step): seq<Write>
    requires StepOk(db, s)
  {
    PlanOf(db, s.op, s.env).writes[..s.kept]
  }

  ghost function ReplyOf(db: Db, s: Step): Reply
    requires StepOk(db, s)
  {
    if s.failed then Failed(Internal) else PlanOf(db, s.op, s.env).reply
  }

  lemma CommittedLawful(db: Db, s: Step)
    requires StepOk(db, s)
    ensures LawfulAll(db, Committed(db, s))
  {
    PlansAreLawful(db, s.op, s.env);
    LawfulPrefix(db, PlanOf(db, s.op, s.env).writes, s.kept);
  }

  ghost function After(db: Db, s: Step): Db {
    if StepOk(db, s) then
      CommittedLawful(db, s);
      ApplyAll(db, Committed(db, s))
    else db
  }

  lemma UnfailedStep(db: Db, s: Step)
    requires StepOk(db, s) && !s.failed
    ensures LawfulAll(db, PlanOf(db, s.op, s.env).writes)
    ensures After(db, s) == ApplyAll(db, PlanOf(db, s.op, s.env).writes)
  {
    PlansAreLawful(db, s.op, s.env);
    assert Committed(db, s) == PlanOf(db, s.op, s.env).writes;
  }

  lemma StepEvolves(db: Db, s: Step)
    requires StepOk(db, s)
    ensures Inv(After(db, s)) && Evolves(db, After(db, s))
  {
    CommittedLawful(db, s);
    ApplyAllEvolves(db, Committed(db, s));
  }

  ghost predicate Run(db: Db, steps: seq<Step>) {
    Runs.Valid(StepOk, After, db, steps)
  }

  /**
   * A step that is open to the world in any tables whatever: new names, callers who carry their own address,
   * and, where every lookup finds its row, a part of the plan that is all of it unless a call failed.
   */
  ghost predicate Possible(db: Db, s: Step) {
    && Fresh(db.issued, s.env) && AuthenticOp(db, s.op)
    && (Resolves(db) ==>
          && s.kept <= |PlanOf(db, s.op, s.env).writes|
          && (!s.failed ==> s.kept == |PlanOf(db, s.op, s.env).writes|))
  }

  lemma PossibleIsOk(db: Db, s: Step)
    requires Inv(db) && Possible(db, s)
    ensures StepOk(db, s)
  {
  }

  /**
   * From tables that meet the invariant, such as the empty ones, every sequence of possible steps is a run:
   * the invariant is established on the way, not assumed.
   */
  lemma {:induction false} EveryPossibleRunIsARun(db: Db, steps: seq<Step>)
    requires Inv(db) && Runs.Valid(Possible, After, db, steps)
    ensures Run(db, steps)
    decreases |steps|
  {
    if steps != [] {
      PossibleIsOk(db, steps[0]);
      StepEvolves(db, steps[0]);
      EveryPossibleRunIsARun(After(db, steps[0]), steps[1..]);
    }
  }

  /** The tables after the first `n` steps. */
  ghost function StateAt(db: Db, steps: seq<Step>, n: nat): Db
    requires n <= |steps|
  {
    Runs.At(After, db, steps, n)
  }

  /** Every state of a run is followed by a step that is possible in it. */
  lemma RunStep(db: Db, steps: seq<Step>, n: nat)
    requires Run(db, steps) && n < |steps|
    ensures StepOk(StateAt(db, steps, n), steps[n])
    ensures StateAt(db, steps, n + 1) == After(StateAt(db, steps, n), steps[n])
  {
    Runs.StepAt(StepOk, After, db, steps, n);
  }

  /** The invariant holds in every reachable state. */
  lemma RunKeepsInv(db: Db, steps: seq<Step>, n: nat)
    requires Inv(db) && Run(db, steps) && n <= |steps|
    ensures Inv(StateAt(db, steps, n))
  {
    forall a, s | Inv(a) && StepOk(a, s)
      ensures Inv(After(a, s))
    {
      StepEvolves(a, s);
    }
    Runs.Invariant(StepOk, After, Inv, db, steps, n);
  }

  /** History only moves forward. */
  lemma RunEvolves(db: Db, steps: seq<Step>, i: nat, j: nat)
    requires Run(db, steps) && i <= j <= |steps|
    ensures Evolves(StateAt(db, steps, i), StateAt(db, steps, j))
  {
    forall a, s | StepOk(a, s)
      ensures Evolves(a, After(a, s))
    {
      StepEvolves(a, s);
    }
    forall a, b, c | Evolves(a, b) && Evolves(b, c)
      ensures Evolves(a, c)
    {
      EvolvesTransitive(a, b, c);
    }
    forall a
      ensures Evolves(a, a)
    {
      EvolvesReflexive(a);
    }
    Runs.Ordered(StepOk, After, Evolves, db, steps, i, j);
  }

  // ---------------------------------------------------------------- single rows over time

  lemma WritesAdvanceInvitation(db: Db, ws: seq<Write>, id: Id)
    requires Inv(db) && LawfulAll(db, ws) && id in db.invitations
    ensures var b := ApplyAll(db, ws); id in b.invitations && InvitationAdvances(db.invitations[id], b.invitations[id])
  {
    ApplyAllEvolves(db, ws);
  }

  lemma InvitationHistory(db: Db, steps: seq<Step>, i: nat, j: nat, id: Id)
    requires Run(db, steps) && i <= j <= |steps| && id in StateAt(db, steps, i).invitations
    ensures id in StateAt(db, steps, j).invitations
    ensures InvitationAdvances(StateAt(db, steps, i).invitations[id], StateAt(db, steps, j).invitations[id])
  {
    RunEvolves(db, steps, i, j);
  }

  lemma WritesAdvanceKey(db: Db, ws: seq<Write>, id: Id)
    requires Inv(db) && LawfulAll(db, ws) && id in db.keys
    ensures var b := ApplyAll(db, ws); id in b.keys && KeyAdvances(db.keys[id], b.keys[id])
  {
    ApplyAllEvolves(db, ws);
  }

  lemma KeyHistory(db: Db, steps: seq<Step>, i: nat, j: nat, id: Id)
    requires Run(db, steps) && i <= j <= |steps| && id in StateAt(db, steps, i).keys
    ensures id in StateAt(db, steps, j).keys
    ensures KeyAdvances(StateAt(db, steps, i).keys[id], StateAt(db, steps, j).keys[id])
  {
    RunEvolves(db, steps, i, j);
  }

  lemma SessionHistory(db: Db, steps: seq<Step>, i: nat, j: nat, h: Digest)
    requires Run(db, steps) && i <= j <= |steps| && h.token in StateAt(db, steps, i).issued
    ensures h in StateAt(db, steps, j).sessions ==>
      h in StateAt(db, steps, i).sessions && StateAt(db, steps, i).sessions[h] == StateAt(db, steps, j).sessions[h]
    ensures h.token in StateAt(db, steps, j).issued
  {
    RunEvolves(db, steps, i, j);
  }

  lemma UserHistory(db: Db, steps: seq<Step>, i: nat, j: nat, u: Id)
    requires Run(db, steps) && i <= j <= |steps| && u in StateAt(db, steps, i).users
    ensures u in StateAt(db, steps, j).users && StateAt(db, steps, j).users[u] == StateAt(db, steps, i).users[u]
  {
    RunEvolves(db, steps, i, j);
  }

  // ---------------------------------------------------------------- ownership

  /** A workspace that has ever had an owner has one in every later state. */
  lemma OwnersNeverVanish(db: Db, steps: seq<Step>, w: Id, i: nat, j: nat)
    requires Run(db, steps) && i <= j <= |steps|
    requires HasOwner(StateAt(db, steps, i).members, w)
    ensures HasOwner(StateAt(db, steps, j).members, w)
  {
    RunEvolves(db, steps, i, j);
  }

  // ---------------------------------------------------------------- membership

  predicate WritesMembers(w: Write) {
    w.InsertFounder? || w.SetRole? || w.DeleteMember? || w.AcceptInvitation?
  }

  lemma {:induction false} MembersUntouched(db: Db, ws: seq<Write>)
    requires LawfulAll(db, ws) && forall i :: 0 <= i < |ws| ==> !WritesMembers(ws[i])
    ensures ApplyAll(db, ws).members == db.members
    decreases |ws|
  {
    if ws != [] {
      assert Apply(db, ws[0]).members == db.members;
      MembersUntouched(Apply(db, ws[0]), ws[1..]);
    }
  }

  /** The write makes `u` a member of `w`. */
  predicate Admission(db: Db, v: Write, w: Id, u: Id) {
    (v.InsertFounder? && v.workspace == w && v.founder == u)
    || (v.AcceptInvitation? && v.member == u && v.id in db.invitations && db.invitations[v.id].workspace == w)
  }

  /** The step commits the acceptance, by `u`, of an invitation to `w`. */
  ghost predicate Admits(db: Db, s: Step, w: Id, u: Id)
    requires StepOk(db, s)
  {
    exists i :: 0 <= i < |Committed(db, s)| && Committed(db, s)[i].AcceptInvitation?
        && Admission(db, Committed(db, s)[i], w, u)
  }

  lemma NonMembersStayOut(db: Db, v: Write, w: Id, u: Id)
    requires Lawful(db, v) && (w, u) !in db.members && !Admission(db, v, w, u)
    ensures (w, u) !in MembersAfter(db, v)
  {
  }

  /** Only the plan's own new workspace is founded, and an acceptance comes first. */
  predicate MemberWritesShape(ws: seq<Write>, home: Id) {
    forall i :: 0 <= i < |ws| ==>
      (ws[i].InsertFounder? ==> ws[i].workspace == home) && (ws[i].AcceptInvitation? ==> i == 0)
  }

  lemma HomeShape(db: Db, u: Id, env: Env)
    requires u in db.users
    ensures forall i :: 0 <= i < |LoginHome(db, u, env).writes| ==>
      var v := LoginHome(db, u, env).writes[i];
          (v.InsertFounder? ==> v.workspace == env.names(1)) && !v.AcceptInvitation?
  {
  }

  lemma ExternalShape(db: Db, provider: string, subject: string, email: string, verified: bool, closed: bool, env: Env)
    requires Resolves(db)
    ensures MemberWritesShape(ExternalLoginPlan(db, provider, subject, email, verified, closed, env).writes,
        env.names(1))
  {
    var p, s := Lower(Trim(provider)), Trim(subject);
    if (p, s) in db.identities {
      HomeShape(db, db.identities[(p, s)], env);
    } else if NormalizeEmail(email).Some? && NormalizeEmail(email).value in db.usersByEmail {
      HomeShape(db, db.usersByEmail[NormalizeEmail(email).value], env);
    }
  }

  lemma InviteShape(db: Db, p: Principal, email: string, role: string, env: Env)
    ensures MemberWritesShape(InvitePlan(db, p, email, role, env).writes, env.names(1))
  {
  }

  lemma AcceptShape(db: Db, p: Principal, token: string, env: Env)
    requires Resolves(db)
    ensures MemberWritesShape(AcceptPlan(db, p, token, env).writes, env.names(1))
  {
  }

  lemma RefreshShape(db: Db, token: string, env: Env)
    requires Resolves(db)
    ensures MemberWritesShape(RefreshPlan(db, token, env).writes, env.names(1))
  {
  }

  lemma KeyShape(db: Db, op: Op, env: Env)
    requires Resolves(db) && (op.CreateKey? || op.RotateApiKey? || op.DeleteKey? || op.AuthenticateKey?)
    ensures MemberWritesShape(PlanOf(db, op, env).writes, env.names(1))
  {
  }

  lemma CreateUserShape(db: Db, email: string, password: string, env: Env)
    ensures MemberWritesShape(CreateUserPlan(db, email, password, env).writes, env.names(1))
  {
  }

  lemma LoginShape(db: Db, email: string, password: string, env: Env)
    requires Resolves(db)
    ensures MemberWritesShape(LoginPlan(db, email, password, env).writes, env.names(1))
  {
    var e := NormalizeEmail(email);
    if e.Some? && e.value in db.usersByEmail {
      HomeShape(db, db.usersByEmail[e.value], env);
    }
  }

  lemma SwitchShape(db: Db, user: string, workspace: string, env: Env)
    ensures MemberWritesShape(SwitchPlan(db, user, workspace, env).writes, env.names(1))
  {
  }

  lemma MemberPlanShape(db: Db, p: Principal, user: string, role: string, env: Env)
    ensures MemberWritesShape(UpdateMemberPlan(db, p, user, role).writes, env.names(1))
    ensures MemberWritesShape(RemoveMemberPlan(db, p, user).writes, env.names(1))
    ensures MemberWritesShape(RevokePlan(db, p, user, env).writes, env.names(1))
  {
  }

  lemma PlanShape(db: Db, op: Op, env: Env)
    requires Resolves(db)
    ensures MemberWritesShape(PlanOf(db, op, env).writes, env.names(1))
  {
    match op
    case CreateUser(email, password) => CreateUserShape(db, email, password, env);
    case Login(email, password) => LoginShape(db, email, password, env);
    case ExternalLogin(provider, subject, email, verified, closed) =>
      ExternalShape(db, provider, subject, email, verified, closed, env);
    case RefreshSession(token) => RefreshShape(db, token, env);
    case Invite(p, email, role) => InviteShape(db, p, email, role, env);
    case Accept(p, token) => AcceptShape(db, p, token, env);
    case CreateKey(_, _, _, _, _, _) => KeyShape(db, op, env);
    case RotateApiKey(_, _, _, _) => KeyShape(db, op, env);
    case DeleteKey(_, _, _) => KeyShape(db, op, env);
    case AuthenticateKey(_, _) => KeyShape(db, op, env);
    case SwitchWorkspace(user, workspace) => SwitchShape(db, user, workspace, env);
    case UpdateMember(p, user, role) => MemberPlanShape(db, p, user, role, env);
    case RemoveMember(p, user) => MemberPlanShape(db, p, user, "", env);
    case Revoke(p, id) => MemberPlanShape(db, p, id, "", env);
    case Authenticate(_) =>
    case EndSession(_) =>
  }

  lemma {:induction false} NonMembersStayOutAll(db: Db, ws: seq<Write>, home: Id, w: Id, u: Id)
    requires LawfulAll(db, ws) && (w, u) !in db.members && w != home
    requires forall i :: 0 <= i < |ws| ==>
      (ws[i].InsertFounder? ==> ws[i].workspace == home) && !ws[i].AcceptInvitation?
    ensures (w, u) !in ApplyAll(db, ws).members
    decreases |ws|
  {
    if ws != [] {
      NonMembersStayOut(db, ws[0], w, u);
      NonMembersStayOutAll(Apply(db, ws[0]), ws[1..], home, w, u);
    }
  }

  /** Whoever is no member of a standing workspace becomes one only by accepting an invitation to it. */
  lemma OnlyAcceptanceAdmits(db: Db, s: Step, w: Id, u: Id)
    requires StepOk(db, s) && w in db.workspaces && (w, u) !in db.members && !Admits(db, s, w, u)
    ensures (w, u) !in After(db, s).members
  {
    var ws, home := Committed(db, s), s.env.names(1);
    CommittedLawful(db, s);
    PlanShape(db, s.op, s.env);
    assert w in db.issued && home !in db.issued;
    if ws != [] {
      assert !Admission(db, ws[0], w, u);
      NonMembersStayOut(db, ws[0], w, u);
      NonMembersStayOutAll(Apply(db, ws[0]), ws[1..], home, w, u);
    }
  }

  // ---------------------------------------------------------------- grants

  predicate Founds(v: Write, w: Id, u: Id) {
    v.InsertFounder? && v.workspace == w && v.founder == u
  }

  /** Nothing in `ws` removes a member, and `u` is in `w` already or is admitted by `ws`. */
  ghost predicate Backing(db: Db, ws: seq<Write>, w: Id, u: Id) {
    && (forall i :: 0 <= i < |ws| ==> !ws[i].DeleteMember?)
    && ((w, u) in db.members
        || (exists i :: 0 <= i < |ws| && Founds(ws[i], w, u))
        || (ws != [] && ws[0].AcceptInvitation? && Admission(db, ws[0], w, u)))
  }

  lemma {:induction false} BackingAdmits(db: Db, ws: seq<Write>, w: Id, u: Id)
    requires LawfulAll(db, ws) && Backing(db, ws, w, u)
    ensures (w, u) in ApplyAll(db, ws).members
    decreases |ws|
  {
    if ws != [] {
      var next := Apply(db, ws[0]);
      assert !ws[0].DeleteMember?;
      if (w, u) in db.members || Admission(db, ws[0], w, u) {
        assert (w, u) in next.members;
      } else {
        var i :| 0 <= i < |ws| && Founds(ws[i], w, u);
        assert Founds(ws[1..][i - 1], w, u);
      }
      BackingAdmits(next, ws[1..], w, u);
    }
  }

  lemma HomeBacked(db: Db, u0: Id, env: Env, w: Id, u: Id)
    requires u0 in db.users && Grants(LoginHome(db, u0, env).reply, w, u)
    ensures Backing(db, LoginHome(db, u0, env).writes, w, u)
  {
    match DefaultWorkspace(db.members, u0)
    case Some(_) =>
    case None => FoundingBacked(db, u0, db.users[u0].email, env);
  }

  lemma FoundingBacked(db: Db, u: Id, email: string, env: Env)
    ensures Backing(db, LoginFounding(u, email, env).writes, env.names(1), u)
  {
    assert Founds(LoginFounding(u, email, env).writes[1], env.names(1), u);
  }

  lemma BackingExtends(db: Db, front: seq<Write>, ws: seq<Write>, w: Id, u: Id)
    requires Backing(db, ws, w, u) && !(ws != [] && ws[0].AcceptInvitation?)
    requires forall i :: 0 <= i < |front| ==> !front[i].DeleteMember?
    ensures Backing(db, front + ws, w, u)
  {
    if (w, u) !in db.members {
      var i :| 0 <= i < |ws| && Founds(ws[i], w, u);
      assert Founds((front + ws)[|front| + i], w, u);
    }
  }

  lemma ExternalBacked(db: Db, provider: string, subject: string, email: string, verified: bool, closed: bool,
      env: Env, w: Id, u: Id)
    requires Resolves(db) && Grants(ExternalLoginPlan(db, provider, subject, email, verified, closed, env).reply, w, u)
    ensures Backing(db, ExternalLoginPlan(db, provider, subject, email, verified, closed, env).writes, w, u)
  {
    var p, s := Lower(Trim(provider)), Trim(subject);
    if (p, s) in db.identities {
      HomeBacked(db, db.identities[(p, s)], env, w, u);
    } else {
      var e := NormalizeEmail(email).value;
      if e in db.usersByEmail {
        var u0 := db.usersByEmail[e];
        HomeBacked(db, u0, env, w, u);
        HomeShape(db, u0, env);
        BackingExtends(db, [InsertIdentity(p, s, u0)], LoginHome(db, u0, env).writes, w, u);
      } else {
        var u0 := env.names(0);
        FoundingBacked(db, u0, e, env);
        BackingExtends(db, [InsertUser(u0, User(e, NoPassword, env.clock(0))), InsertIdentity(p, s, u0)],
                       LoginFounding(u0, e, env).writes, w, u);
      }
    }
  }

  lemma AcceptBacked(db: Db, p: Principal, token: string, env: Env, w: Id, u: Id)
    requires Resolves(db) && Grants(AcceptPlan(db, p, token, env).reply, w, u)
    ensures Backing(db, AcceptPlan(db, p, token, env).writes, w, u)
  {
    var ws := AcceptPlan(db, p, token, env).writes;
    var v := ws[0];
    assert |ws| == 3 && v.AcceptInvitation? && ws[1].InsertSession? && ws[2].InsertSession?;
    assert v.id in db.invitations && v.member == u && db.invitations[v.id].workspace == w;
  }

  lemma RefreshBacked(db: Db, token: string, env: Env, w: Id, u: Id)
    requires Resolves(db) && Grants(RefreshPlan(db, token, env).reply, w, u)
    ensures Backing(db, RefreshPlan(db, token, env).writes, w, u)
  {
  }

  lemma TokenBacked(db: Db, op: Op, env: Env, w: Id, u: Id)
    requires Resolves(db) && (op.Authenticate? || op.AuthenticateKey?) && Grants(PlanOf(db, op, env).reply, w, u)
    ensures Backing(db, PlanOf(db, op, env).writes, w, u)
  {
  }

  lemma SwitchBacked(db: Db, user: string, workspace: string, env: Env, w: Id, u: Id)
    requires Grants(SwitchPlan(db, user, workspace, env).reply, w, u)
    ensures Backing(db, SwitchPlan(db, user, workspace, env).writes, w, u)
  {
  }

  lemma KeyPlansNeverGrant(db: Db, op: Op, env: Env, w: Id, u: Id)
    requires Resolves(db)
    ensures op.CreateKey? ==> !Grants(CreateKeyPlan(db, op, env).reply, w, u)
    ensures op.RotateApiKey? ==> !Grants(RotatePlan(db, op, env).reply, w, u)
    ensures op.DeleteKey? ==> !Grants(DeleteKeyPlan(db, op, env).reply, w, u)
  {
  }

  lemma CreateUserNeverGrants(db: Db, email: string, password: string, env: Env, w: Id, u: Id)
    ensures !Grants(CreateUserPlan(db, email, password, env).reply, w, u)
  {
  }

  lemma InviteNeverGrants(db: Db, p: Principal, email: string, role: string, env: Env, w: Id, u: Id)
    ensures !Grants(InvitePlan(db, p, email, role, env).reply, w, u)
  {
  }

  lemma MemberPlansNeverGrant(db: Db, p: Principal, user: string, role: string, env: Env, w: Id, u: Id)
    ensures !Grants(UpdateMemberPlan(db, p, user, role).reply, w, u)
    ensures !Grants(RemoveMemberPlan(db, p, user).reply, w, u)
    ensures !Grants(RevokePlan(db, p, user, env).reply, w, u)
  {
  }

  lemma PlanBacked(db: Db, op: Op, env: Env, w: Id, u: Id)
    requires Resolves(db) && Grants(PlanOf(db, op, env).reply, w, u)
    ensures Backing(db, PlanOf(db, op, env).writes, w, u)
  {
    match op
    case Login(email, _) => HomeBacked(db, db.usersByEmail[NormalizeEmail(email).value], env, w, u);
    case ExternalLogin(provider, subject, email, verified, closed) =>
      ExternalBacked(db, provider, subject, email, verified, closed, env, w, u);
    case RefreshSession(token) => RefreshBacked(db, token, env, w, u);
    case Accept(p, token) => AcceptBacked(db, p, token, env, w, u);
    case SwitchWorkspace(user, workspace) => SwitchBacked(db, user, workspace, env, w, u);
    case Authenticate(_) => TokenBacked(db, op, env, w, u);
    case AuthenticateKey(_, _) => TokenBacked(db, op, env, w, u);
    case UpdateMember(p, user, role) => MemberPlansNeverGrant(db, p, user, role, env, w, u);
    case RemoveMember(p, user) => MemberPlansNeverGrant(db, p, user, "", env, w, u);
    case Revoke(p, id) => MemberPlansNeverGrant(db, p, id, "", env, w, u);
    case EndSession(_) =>
    case CreateUser(email, password) => CreateUserNeverGrants(db, email, password, env, w, u);
    case Invite(p, email, role) => InviteNeverGrants(db, p, email, role, env, w, u);
    case _ => KeyPlansNeverGrant(db, op, env, w, u);
  }

  /** Whatever lets its receiver act in a workspace is backed by a membership at that moment. */
  lemma GrantsNeedMembership(db: Db, s: Step, w: Id, u: Id)
    requires StepOk(db, s) && Grants(ReplyOf(db, s), w, u)
    ensures (w, u) in After(db, s).members
  {
    PlanBacked(db, s.op, s.env, w, u);
    var ws := PlanOf(db, s.op, s.env).writes;
    assert ws[..s.kept] == ws;
    CommittedLawful(db, s);
    BackingAdmits(db, ws, w, u);
  }

  ghost predicate AdmitsIn(db: Db, s: Step, w: Id, u: Id) {
    StepOk(db, s) && Admits(db, s, w, u)
  }

  ghost predicate GrantsIn(db: Db, s: Step, w: Id, u: Id) {
    StepOk(db, s) && Grants(ReplyOf(db, s), w, u)
  }

  ghost predicate Outside(db: Db, w: Id, u: Id) {
    w in db.workspaces && (w, u) !in db.members
  }

  lemma OutsideStep(db: Db, s: Step, w: Id, u: Id)
    requires StepOk(db, s) && Outside(db, w, u) && !AdmitsIn(db, s, w, u)
    ensures Outside(After(db, s), w, u) && !GrantsIn(db, s, w, u)
  {
    OnlyAcceptanceAdmits(db, s, w, u);
    StepEvolves(db, s);
    if Grants(ReplyOf(db, s), w, u) {
      GrantsNeedMembership(db, s, w, u);
    }
  }

  /**
   * Removal is effective everywhere: a user outside a standing workspace stays outside, and no access
   * token, refresh token, API key, login or switch lets it in, up to the first step in which it accepts
   * an invitation to that workspace.
   */
  lemma RemovalIsEffective(db: Db, steps: seq<Step>, w: Id, u: Id, n: nat)
    requires Run(db, steps) && n <= |steps| && Outside(db, w, u)
    requires forall i :: 0 <= i < n ==> !AdmitsIn(StateAt(db, steps, i), steps[i], w, u)
    ensures Outside(StateAt(db, steps, n), w, u)
    ensures forall i :: 0 <= i < n ==> !GrantsIn(StateAt(db, steps, i), steps[i], w, u)
  {
    var inv := (a: Db) => Outside(a, w, u);
    var quiet := (a: Db, s: Step) => !AdmitsIn(a, s, w, u);
    var good := (a: Db, s: Step) => !GrantsIn(a, s, w, u);
    forall a, s | inv(a) && StepOk(a, s) && quiet(a, s)
      ensures inv(After(a, s)) && good(a, s)
    {
      OutsideStep(a, s, w, u);
    }
    Runs.WhileQuiet(StepOk, After, inv, quiet, good, db, steps, n);
    assert forall i :: 0 <= i < n ==> good(StateAt(db, steps, i), steps[i]);
  }

  /** A removal that is reported done has removed the member. */
  lemma RemovalRemoves(db: Db, s: Step)
    requires StepOk(db, s) && s.op.RemoveMember? && ReplyOf(db, s) == Done
    ensures s.op.principal.workspace in After(db, s).workspaces
    ensures After(db, s).members == db.members - {(s.op.principal.workspace, s.op.user)}
    ensures (s.op.principal.workspace, s.op.user) in db.members
  {
    var w := DeleteMember(s.op.principal.workspace, s.op.user);
    assert Committed(db, s) == [w];
    CommittedLawful(db, s);
    OneWriteLawful(db, w);
    MembersInIssued(db);
  }
}
