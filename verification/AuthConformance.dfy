/** The service object stays inside the runs about which the auth properties are proved. */
module AuthConformance {
  import opened AuthTypes
  import opened AuthTables
  import opened AuthHistory
  import opened AuthPlans
  import opened AuthLawful
  import AuthAnswers
  import AuthGuards
  import AuthRuns
  import AuthService

  /** What a served call did to the tables, and what it answered, is one step of a run. */
  lemma ServedIsStep(before: Db, after: Db, op: Op, env: Env, log: seq<Write>, r: Reply) returns (s: AuthRuns.Step)
    requires Inv(before) && Fresh(before.issued, env) && AuthenticOp(before, op)
    requires AuthService.Served(before, after, PlanOf(before, op, env), log, r, env)
    ensures s.op == op && s.env == env
    ensures AuthRuns.StepOk(before, s)
    ensures AuthRuns.After(before, s) == after && AuthRuns.ReplyOf(before, s) == r
  {
    var plan := PlanOf(before, op, env);
    s := AuthRuns.Step(op, env, |log|, r != plan.reply || log != plan.writes);
    assert plan.writes[..|log|] == log;
  }

  /** Every statement that a served call has committed was warranted by what its caller had shown. */
  lemma ServedIsWarranted(before: Db, after: Db, op: Op, env: Env, log: seq<Write>, r: Reply)
    requires Inv(before) && Fresh(before.issued, env) && AuthenticOp(before, op)
    requires AuthService.Served(before, after, PlanOf(before, op, env), log, r, env)
    ensures AuthGuards.AllWarranted(before, op, env, log)
  {
    AuthGuards.PlansAreWarranted(before, op, env);
    AuthGuards.PrefixWarranted(before, op, env, PlanOf(before, op, env).writes, log);
  }

  /** A served login is that of the user with the address and the password. */
  lemma ServedLoginTakesPassword(before: Db, after: Db, op: Op, env: Env, log: seq<Write>, r: Reply)
    requires Inv(before) && Fresh(before.issued, env) && AuthenticOp(before, op) && op.Login?
    requires AuthService.Served(before, after, PlanOf(before, op, env), log, r, env) && r.LoggedIn?
    ensures AuthGuards.HasPassword(before, r.session.user, op.email, op.password)
  {
    var s := ServedIsStep(before, after, op, env, log, r);
    AuthAnswers.LoginExactly(before, s);
  }
}
