/** Authorization decisions: the inline policy table, roles, key dates, scopes and meters. */
module Authorization {
  import opened Text
  import opened Sequences
  import opened AuthTypes
  import opened Options

  /** The six families of the policy table, each with one resource type and a read and a write action. */
  datatype Family = Usage | Meters | Alerts | Exports | Plans | System {
    function Resource(): string {
      match this
      case Usage => "usage" case Meters => "meter" case Alerts => "alert"
      case Exports => "export" case Plans => "plan" case System => "system"
    }

    function Name(): (r: string)
      ensures ':' !in r
    {
      match this
      case Usage => "usage" case Meters => "meters" case Alerts => "alerts"
      case Exports => "exports" case Plans => "plans" case System => "system"
    }
  }

  function Scoped(f: Family, verb: string): string {
    f.Name() + ":" + verb
  }

  const DEFAULT_SCOPES :=
    [Scoped(Usage, "write"), Scoped(Usage, "read"), Scoped(Meters, "read"), Scoped(Meters, "write"),
        Scoped(Plans, "read")]

  predicate AllowedScope(s: string) {
    s == "*" || exists f: Family :: s == Scoped(f, "read") || s == Scoped(f, "write") || s == Scoped(f, "*")
  }

  /**
   * The policy table: a session may attempt anything; a key may read and write each family's
   * actions on that family's resource type.
   */
  predicate Enforce(kind: PrincipalKind, obj: string, act: string) {
    || kind == SessionKind
    || exists f: Family :: obj == f.Resource() && (act == Scoped(f, "read") || act == Scoped(f, "write"))
  }

  /** The part of `s` before the first colon, if there is one. */
  function BeforeColon(s: string): (r: Option<string>)
    ensures r.Some? ==> |r.value| < |s| && s[..|r.value|] == r.value && s[|r.value|] == ':' && ':' !in r.value
    ensures r.None? ==> ':' !in s
  {
    if s == "" then None
    else if s[0] == ':' then Some("")
    else match BeforeColon(s[1..])
      case None => None
      case Some(rest) => Some([s[0]] + rest)
  }

  predicate ScopeCovers(scope: string, action: string) {
    scope == "*" || scope == action || (BeforeColon(action).Some? && scope == BeforeColon(action).value + ":*")
  }

  predicate ScopeAllows(scopes: seq<string>, action: string) {
    exists i :: 0 <= i < |scopes| && ScopeCovers(scopes[i], action)
  }

  predicate MeterAllows(meters: seq<string>, meter: string) {
    meters == [] || (Trim(meter) != "" && exists i :: 0 <= i < |meters| && (meters[i] == "*" || meters[i] == meter))
  }

  predicate RoleAllows(role: Option<Role>, action: string) {
    match role
    case None => false
    case Some(Viewer) => EndsWith(action, ":read")
    case Some(_) => true
  }

  datatype Resource = Resource(kind: string, meter: string)

  /** `Can` with an engine that answers: allowed, or refused with a forbidden error. */
  predicate Can(p: Principal, action: string, resource: Resource, now: Time) {
    && Enforce(p.kind, resource.kind, action)
    && RoleAllows(p.role, action)
    && (p.kind == ApiKeyKind ==>
          && !Due(p.revokedAt, now) && !Due(p.expiresAt, now)
          && ScopeAllows(p.scopes, action) && MeterAllows(p.meters, resource.meter))
  }

  method AnyScopeCovers(scopes: seq<string>, action: string) returns (r: bool)
    ensures r == ScopeAllows(scopes, action)
  {
    for i := 0 to |scopes|
      invariant forall j :: 0 <= j < i ==> !ScopeCovers(scopes[j], action)
    {
      if ScopeCovers(scopes[i], action) {
        return true;
      }
    }
    return false;
  }

  // ---------------------------------------------------------------- what a decision means

  /** The twelve rows of the policy table that concern keys. */
  predicate InTable(obj: string, act: string) {
    || (obj == "usage" && (act == "usage:read" || act == "usage:write"))
    || (obj == "meter" && (act == "meters:read" || act == "meters:write"))
    || (obj == "alert" && (act == "alerts:read" || act == "alerts:write"))
    || (obj == "export" && (act == "exports:read" || act == "exports:write"))
    || (obj == "plan" && (act == "plans:read" || act == "plans:write"))
    || (obj == "system" && (act == "system:read" || act == "system:write"))
  }

  lemma ScopedNames()
    ensures Scoped(Usage, "read") == "usage:read" && Scoped(Usage, "write") == "usage:write"
    ensures Scoped(Meters, "read") == "meters:read" && Scoped(Meters, "write") == "meters:write"
    ensures Scoped(Alerts, "read") == "alerts:read" && Scoped(Alerts, "write") == "alerts:write"
    ensures Scoped(Exports, "read") == "exports:read" && Scoped(Exports, "write") == "exports:write"
    ensures Scoped(Plans, "read") == "plans:read" && Scoped(Plans, "write") == "plans:write"
    ensures Scoped(System, "read") == "system:read" && Scoped(System, "write") == "system:write"
  {
  }

  /** The table lets keys attempt its twelve rows and nothing else. */
  lemma TableExactly(obj: string, act: string)
    ensures Enforce(ApiKeyKind, obj, act) <==> InTable(obj, act)
  {
    ScopedNames();
    if InTable(obj, act) {
      var f := FamilyOf(obj, act);
      assert obj == f.Resource() && (act == Scoped(f, "read") || act == Scoped(f, "write"));
    }
  }

  predicate Listed(s: string) {
    || s == "*" || s == "usage:*" || s == "meters:*" || s == "alerts:*" || s == "exports:*" || s == "plans:*"
    || s == "system:*"
  }

  lemma ScopedIsInTable(f: Family, verb: string)
    requires verb == "read" || verb == "write"
    ensures InTable(f.Resource(), Scoped(f, verb))
  {
    TableExactly(f.Resource(), Scoped(f, verb));
  }

  lemma AllowedIsListed(s: string)
    requires AllowedScope(s)
    ensures Listed(s) || exists obj :: InTable(obj, s)
  {
    StarNames();
    if f: Family :| s == Scoped(f, "read") || s == Scoped(f, "write") {
      ScopedIsInTable(f, if s == Scoped(f, "read") then "read" else "write");
      assert InTable(f.Resource(), s);
    }
  }

  lemma ListedIsAllowed(s: string)
    requires Listed(s)
    ensures AllowedScope(s)
  {
    StarNames();
  }

  /** A key may be given the table's actions, the star of a family, or the star. */
  lemma AllowedScopesExactly(s: string)
    ensures AllowedScope(s) <==> Listed(s) || exists obj :: InTable(obj, s)
  {
    if AllowedScope(s) {
      AllowedIsListed(s);
    }
    if Listed(s) {
      ListedIsAllowed(s);
    }
    if obj :| InTable(obj, s) {
      var f := FamilyOf(obj, s);
      assert s == Scoped(f, "read") || s == Scoped(f, "write");
    }
  }

  lemma StarNames()
    ensures Scoped(Usage, "*") == "usage:*"
    ensures Scoped(Meters, "*") == "meters:*"
    ensures Scoped(Alerts, "*") == "alerts:*"
    ensures Scoped(Exports, "*") == "exports:*"
    ensures Scoped(Plans, "*") == "plans:*"
    ensures Scoped(System, "*") == "system:*"
  {
  }

  lemma FamilyOf(obj: string, act: string) returns (f: Family)
    requires InTable(obj, act)
    ensures obj == f.Resource() && (act == Scoped(f, "read") || act == Scoped(f, "write"))
  {
    ScopedNames();
    f := match obj[0]
      case 'u' => Usage
      case 'm' => Meters
      case 'a' => Alerts
      case 'e' => Exports
      case 'p' => Plans
      case _ => System;
  }

  /** The scope is the star, the action, or the star of the action's family. */
  ghost predicate Covering(scope: string, action: string) {
    || scope == "*" || scope == action
    || exists i :: 0 <= i < |action| && action[i] == ':' && ':' !in action[..i] && scope == action[..i] + ":*"
  }

  lemma CoveringExactly(scope: string, action: string)
    ensures ScopeCovers(scope, action) <==> Covering(scope, action)
  {
    var front := BeforeColon(action);
    if front.Some? {
      assert action[..|front.value|] == front.value && action[|front.value|] == ':';
    }
    if i :| 0 <= i < |action| && action[i] == ':' && ':' !in action[..i] && scope == action[..i] + ":*" {
      assert i <= |front.value| && |front.value| <= i;
    }
  }

  /** Owners and administrators may do anything, viewers may read. */
  predicate RoleMay(role: Option<Role>, action: string) {
    role == Some(Owner) || role == Some(Admin) || (role == Some(Viewer) && EndsWith(action, ":read"))
  }

  ghost predicate Covered(scopes: seq<string>, action: string) {
    exists i :: 0 <= i < |scopes| && Covering(scopes[i], action)
  }

  /** Named, starred, or not restricted at all; a blank meter passes only then. */
  predicate Metered(meters: seq<string>, meter: string) {
    meters == [] || (Trim(meter) != "" && (meter in meters || "*" in meters))
  }

  /** What stands in the way of a key: its user's role, its dates, its scopes or its meters. */
  ghost predicate Hindered(p: Principal, action: string, meter: string, now: Time) {
    || !RoleMay(p.role, action)
    || (p.revokedAt.Some? && p.revokedAt.value <= now)
    || (p.expiresAt.Some? && p.expiresAt.value <= now)
    || !Covered(p.scopes, action)
    || !Metered(p.meters, meter)
  }

  lemma ScopesCoverExactly(scopes: seq<string>, action: string)
    ensures ScopeAllows(scopes, action) <==> Covered(scopes, action)
  {
    forall i | 0 <= i < |scopes|
      ensures ScopeCovers(scopes[i], action) <==> Covering(scopes[i], action)
    {
      CoveringExactly(scopes[i], action);
    }
  }

  lemma MetersNameExactly(meters: seq<string>, meter: string)
    ensures MeterAllows(meters, meter) <==> Metered(meters, meter)
  {
  }

  lemma RoleMayExactly(role: Option<Role>, action: string)
    ensures RoleAllows(role, action) <==> RoleMay(role, action)
  {
    match role {
      case None =>
      case Some(Owner) =>
      case Some(Admin) =>
      case Some(Viewer) =>
    }
  }

  lemma KeyMayExactly(p: Principal, action: string, resource: Resource, now: Time)
    requires p.kind == ApiKeyKind
    ensures Can(p, action, resource, now) <==>
      InTable(resource.kind, action) && !Hindered(p, action, resource.meter, now)
  {
    TableExactly(resource.kind, action);
    ScopesCoverExactly(p.scopes, action);
    MetersNameExactly(p.meters, resource.meter);
    RoleMayExactly(p.role, action);
  }

  /** The policy engine behind the authorizer: none at all, one that fails, or one that answers. */
  datatype Engine = Absent | Failing(error: Error) | Answering

  /**
   * The decision, branch by branch in the order the authorizer takes them. Without an engine it lets everything
   * pass; an error of the engine is passed on.
   */
  method Decide(engine: Engine, p: Principal, action: string, resource: Resource, now: Time)
      returns (denied: Option<Error>)
    ensures engine.Absent? ==> denied == None
    ensures engine.Failing? ==> denied == Some(engine.error)
    ensures engine.Answering? ==> denied == if Can(p, action, resource, now) then None else Some(Forbidden)
    ensures engine.Answering? && p.kind == SessionKind ==>
      (denied == None <==> RoleMay(p.role, action))
    ensures engine.Answering? && p.kind == ApiKeyKind ==>
      (denied == None <==> InTable(resource.kind, action) && !Hindered(p, action, resource.meter, now))
  {
    if p.kind == ApiKeyKind {
      KeyMayExactly(p, action, resource, now);
    }
    if engine.Absent? {
      return None;
    }
    if engine.Failing? {
      return Some(engine.error);
    }
    if !Enforce(p.kind, resource.kind, action) {
      return Some(Forbidden);
    }
    if p.kind == SessionKind {
      match p.role
      case Some(Owner) => return None;
      case Some(Admin) => return None;
      case Some(Viewer) =>
        if EndsWith(action, ":read") { return None; }
        return Some(Forbidden);
      case None => return Some(Forbidden);
    }
    match p.role {
      case Some(Viewer) =>
        if !EndsWith(action, ":read") { return Some(Forbidden); }
      case Some(_) =>
      case None => return Some(Forbidden);
    }
    if Due(p.revokedAt, now) || Due(p.expiresAt, now) {
      return Some(Forbidden);
    }
    var scoped := AnyScopeCovers(p.scopes, action);
    if !scoped {
      return Some(Forbidden);
    }
    if !MeterAllows(p.meters, resource.meter) {
      return Some(Forbidden);
    }
    return None;
  }

  /** Adding scopes never takes a permission away. */
  lemma CanMonotoneInScopes(p: Principal, scopes: seq<string>, action: string, resource: Resource, now: Time)
    requires Can(p, action, resource, now) && forall s :: s in p.scopes ==> s in scopes
    ensures Can(p.(scopes := scopes), action, resource, now)
  {
    if p.kind == ApiKeyKind {
      var i :| 0 <= i < |p.scopes| && ScopeCovers(p.scopes[i], action);
      assert p.scopes[i] in scopes;
      var j :| 0 <= j < |scopes| && scopes[j] == p.scopes[i];
      assert ScopeCovers(scopes[j], action);
    }
  }

  /** Whatever a viewer may do, an admin or owner may do. */
  lemma CanMonotoneInRole(p: Principal, role: Role, action: string, resource: Resource, now: Time)
    requires p.role == Some(Viewer) && Can(p, action, resource, now)
    ensures Can(p.(role := Some(role)), action, resource, now)
  {
  }

  /** The dates of a key matter only through whether they have passed. */
  lemma CanIgnoresLiveDates(p: Principal, q: Principal, action: string, resource: Resource, now: Time)
    requires p == q.(expiresAt := p.expiresAt, revokedAt := p.revokedAt)
    requires !Due(p.revokedAt, now) && !Due(p.expiresAt, now) && !Due(q.revokedAt, now) && !Due(q.expiresAt, now)
    ensures Can(p, action, resource, now) <==> Can(q, action, resource, now)
  {
  }

  lemma BeforeColonOf(name: string, verb: string)
    requires ':' !in name
    ensures BeforeColon(name + ":" + verb) == Some(name)
  {
    var s := name + ":" + verb;
    var r := BeforeColon(s);
    assert forall i :: 0 <= i < |name| ==> s[i] == name[i] && s[i] != ':';
    assert s[|name|] == ':' && s[..|name|] == name;
    assert r.Some? && |r.value| >= |name|;
    assert forall i :: 0 <= i < |r.value| ==> s[i] == r.value[i];
  }

  lemma NamesDiffer(f: Family, g: Family)
    ensures f != g ==> f.Name()[0] != g.Name()[0]
  {
  }

  /** A scope covers an action of family `g` exactly when it is "*", the action, or `g`'s wildcard. */
  lemma CoversFamily(scope: string, g: Family, verb: string)
    ensures ScopeCovers(scope, Scoped(g, verb)) <==> scope == "*" || scope == Scoped(g, verb) || scope == Scoped(g, "*")
  {
    BeforeColonOf(g.Name(), verb);
    assert g.Name() + ":*" == Scoped(g, "*");
  }

  lemma AllowsOne(a: string, action: string)
    ensures ScopeAllows([a], action) <==> ScopeCovers(a, action)
  {
    if ScopeCovers(a, action) {
      assert ScopeCovers([a][0], action);
    }
  }

  lemma AllowsTwo(a: string, b: string, action: string)
    ensures ScopeAllows([a, b], action) <==> ScopeCovers(a, action) || ScopeCovers(b, action)
  {
    if ScopeCovers(a, action) {
      assert ScopeCovers([a, b][0], action);
    }
    if ScopeCovers(b, action) {
      assert ScopeCovers([a, b][1], action);
    }
  }

  lemma OtherFamilyNeverCovers(f: Family, g: Family, v: string, verb: string)
    requires f != g
    ensures !ScopeCovers(Scoped(f, v), Scoped(g, verb))
  {
    CoversFamily(Scoped(f, v), g, verb);
    NamesDiffer(f, g);
    assert Scoped(f, v)[0] == f.Name()[0] && Scoped(g, verb)[0] == g.Name()[0] && Scoped(g, "*")[0] == g.Name()[0];
    assert |Scoped(f, v)| > 1;
  }

  /** On every action the table lets keys perform, a family wildcard means exactly read plus write. */
  lemma WildcardIsReadAndWrite(f: Family, resource: string, action: string)
    requires Enforce(ApiKeyKind, resource, action)
    ensures ScopeAllows([Scoped(f, "*")], action) <==> ScopeAllows([Scoped(f, "read"), Scoped(f, "write")], action)
  {
    var g: Family :| resource == g.Resource() && (action == Scoped(g, "read") || action == Scoped(g, "write"));
    var verb := if action == Scoped(g, "read") then "read" else "write";
    AllowsOne(Scoped(f, "*"), action);
    AllowsTwo(Scoped(f, "read"), Scoped(f, "write"), action);
    if f == g {
      CoversFamily(Scoped(f, "*"), g, verb);
      CoversFamily(Scoped(f, verb), g, verb);
    } else {
      OtherFamilyNeverCovers(f, g, "*", verb);
      OtherFamilyNeverCovers(f, g, "read", verb);
      OtherFamilyNeverCovers(f, g, "write", verb);
    }
  }

  // ---------------------------------------------------------------- normalisation

  function Texts(values: seq<string>): set<string>
    decreases |values|
  {
    if values == [] then {} else Texts(values[..|values| - 1]) + {values[|values| - 1]}
  }

  lemma {:induction false} TextsExactly(values: seq<string>, v: string)
    ensures v in Texts(values) <==> v in values
    decreases |values|
  {
    if values != [] {
      TextsExactly(values[..|values| - 1], v);
      assert values == values[..|values| - 1] + [values[|values| - 1]];
    }
  }

  lemma TextsAppend(values: seq<string>, v: string)
    ensures Texts(values + [v]) == Texts(values) + {v}
  {
    assert (values + [v])[..|values|] == values;
  }

  /** First occurrences of the non-empty images, in order. */
  function FirstOccurrences(values: seq<string>): seq<string>
    decreases |values|
  {
    if values == [] then []
    else
      var front, last := FirstOccurrences(values[..|values| - 1]), values[|values| - 1];
      if last == "" || last in Texts(front) then front else front + [last]
  }

  /** Exactly the non-empty values survive, each once. */
  lemma {:induction false} FirstOccurrencesAreExact(values: seq<string>)
    ensures forall v :: v in FirstOccurrences(values) <==> v in values && v != ""
    ensures forall i, j :: 0 <= i < j < |FirstOccurrences(values)| ==>
      FirstOccurrences(values)[i] != FirstOccurrences(values)[j]
    decreases |values|
  {
    if values != [] {
      var front, last := values[..|values| - 1], values[|values| - 1];
      FirstOccurrencesAreExact(front);
      TextsExactly(FirstOccurrences(front), last);
      assert values == front + [last];
    }
  }

  function Cleaned(values: seq<string>, clean: string -> string): (r: seq<string>)
    ensures |r| == |values|
    ensures forall i :: 0 <= i < |values| ==> r[i] == clean(values[i])
  {
    seq(|values|, i requires 0 <= i < |values| => clean(values[i]))
  }

  predicate Supported(values: seq<string>, allowed: string -> bool) {
    forall i :: 0 <= i < |values| ==> values[i] == "" || allowed(values[i])
  }

  function Kept(values: seq<string>, clean: string -> string, allowed: string -> bool): Option<seq<string>> {
    var texts := Cleaned(values, clean);
    if Supported(texts, allowed) && FirstOccurrences(texts) != [] then Some(FirstOccurrences(texts)) else None
  }

  function CleanScope(s: string): string {
    Lower(Trim(s))
  }

  /** The scopes a request stands for. */
  function Asked(input: seq<string>): seq<string> {
    if input == [] then DEFAULT_SCOPES else input
  }

  /** `normalizeAPIKeyScopes` as a decision: unsupported or blank-only input is refused. */
  function NormalizedScopes(input: seq<string>): Option<seq<string>> {
    Kept(Asked(input), CleanScope, AllowedScope)
  }

  /** A request is refused exactly when it names something unsupported, or nothing but blanks. */
  lemma ScopesRefusedExactly(input: seq<string>)
    ensures NormalizedScopes(input).None? <==>
      || (exists i :: 0 <= i < |Asked(input)| && CleanScope(Asked(input)[i]) != ""
            && !AllowedScope(CleanScope(Asked(input)[i])))
      || (forall i :: 0 <= i < |Asked(input)| ==> CleanScope(Asked(input)[i]) == "")
  {
    var asked := Asked(input);
    var clean := Cleaned(asked, CleanScope);
    FirstOccurrencesAreExact(clean);
    if FirstOccurrences(clean) == [] {
      forall i | 0 <= i < |asked|
        ensures CleanScope(asked[i]) == ""
      {
        assert clean[i] in clean;
      }
    } else {
      assert FirstOccurrences(clean)[0] in FirstOccurrences(clean);
    }
  }

  /** Takes a text up unless it is blank or known. */
  method Include(ghost earlier: seq<string>, seen: set<string>, kept: seq<string>, text: string)
      returns (seen': set<string>, kept': seq<string>)
    requires kept == FirstOccurrences(earlier) && seen == Texts(kept)
    ensures kept' == FirstOccurrences(earlier + [text]) && seen' == Texts(kept')
  {
    assert (earlier + [text])[..|earlier|] == earlier;
    if text == "" || text in seen {
      return seen, kept;
    }
    TextsAppend(kept, text);
    return seen + {text}, kept + [text];
  }

  lemma FirstOccurrencesOfAll(clean: seq<string>)
    ensures FirstOccurrences(clean[..|clean|]) == FirstOccurrences(clean)
  {
    assert clean[..|clean|] == clean;
  }

  method Keep(values: seq<string>, clean: string -> string, allowed: string -> bool) returns (r: Option<seq<string>>)
    ensures r == Kept(values, clean, allowed)
  {
    ghost var texts := Cleaned(values, clean);
    var seen, scopes := {}, [];
    for i := 0 to |values|
      invariant scopes == FirstOccurrences(texts[..i]) && seen == Texts(scopes)
      invariant Supported(texts[..i], allowed)
    {
      OneLonger(texts, i);
      var scope := clean(values[i]);
      if scope != "" && !allowed(scope) {
        assert texts[i] == scope;
        return None;
      }
      seen, scopes := Include(texts[..i], seen, scopes, scope);
    }
    FirstOccurrencesOfAll(texts);
    if |scopes| == 0 {
      return None;
    }
    return Some(scopes);
  }

  /** Who asks for no scopes asks for these: usage and meters to read and write, and plans to read. */
  lemma DefaultScopesArePlain()
    ensures DEFAULT_SCOPES == ["usage:write", "usage:read", "meters:read", "meters:write", "plans:read"]
  {
    ScopedNames();
  }

  method NormalizeAPIKeyScopes(input: seq<string>) returns (r: Option<seq<string>>)
    ensures r == NormalizedScopes(input)
  {
    var values := input;
    if |values| == 0 {
      values := DEFAULT_SCOPES;
    }
    assert values == Asked(input);
    r := Keep(values, CleanScope, AllowedScope);
  }

  /** Meter names keep their case. */
  function NormalizedMeters(input: seq<string>): seq<string> {
    FirstOccurrences(Cleaned(input, Trim))
  }

  method KeepAll(values: seq<string>, clean: string -> string) returns (kept: seq<string>)
    ensures kept == FirstOccurrences(Cleaned(values, clean))
  {
    ghost var texts := Cleaned(values, clean);
    var seen: set<string> := {};
    kept := [];
    for i := 0 to |values|
      invariant kept == FirstOccurrences(texts[..i]) && seen == Texts(kept)
    {
      OneLonger(texts, i);
      seen, kept := Include(texts[..i], seen, kept, clean(values[i]));
    }
    FirstOccurrencesOfAll(texts);
  }

  method NormalizeAllowedMeters(input: seq<string>) returns (meters: seq<string>)
    ensures meters == NormalizedMeters(input)
  {
    meters := KeepAll(input, Trim);
  }

  /** The stored scopes grant exactly what the accepted, cleaned request named. */
  lemma NormalizedScopesGrant(input: seq<string>, action: string)
    requires NormalizedScopes(input).Some? && action != ""
    ensures ScopeAllows(NormalizedScopes(input).value, action)
       <==> exists i ::
              0 <= i < |Asked(input)| && CleanScope(Asked(input)[i]) != ""
              && ScopeCovers(CleanScope(Asked(input)[i]), action)
  {
    var asked := Asked(input);
    var clean, kept := Cleaned(asked, CleanScope), NormalizedScopes(input).value;
    FirstOccurrencesAreExact(clean);
    if ScopeAllows(kept, action) {
      var i :| 0 <= i < |kept| && ScopeCovers(kept[i], action);
      assert kept[i] in clean;
      var j :| 0 <= j < |clean| && clean[j] == kept[i];
      assert CleanScope(asked[j]) != "" && ScopeCovers(CleanScope(asked[j]), action);
    }
    if i :| 0 <= i < |asked| && CleanScope(asked[i]) != "" && ScopeCovers(CleanScope(asked[i]), action) {
      assert clean[i] in kept;
      var j :| 0 <= j < |kept| && kept[j] == clean[i];
      assert ScopeCovers(kept[j], action);
    }
  }
}
