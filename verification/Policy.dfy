/** Authorization: role permissions, then attribute policies of which one denial overrides all else. */
module Policy {
  import opened Basics
  import opened Text

  /** A value of a policy expression or of the environment; `printed` is how Go prints another value. */
  datatype Value =
    | Str(text: string)
    | Names(names: seq<string>)
    | Items(items: seq<Value>)
    | Nil
    | OtherValue(printed: string)

  datatype Rule = Rule(operators: map<string, Value>) | NotARule

  type Expr = map<string, Rule>
  type Scope = map<string, Value>
  type Env = map<string, Scope>

  datatype Session = Session(userId: string, role: string, workspaceId: string)

  datatype Resource =
    Resource(workspaceId: string, ownerUserId: string, scope: string, resourceType: string, shareStatus: string)

  datatype Context = Context(riskLevel: string, operationType: string, requestSource: string, abacRequired: bool)

  datatype Policy =
    Policy(id: string, deny: bool, enabled: bool, subject: Expr, resource: Expr, action: Expr, context: Expr)

  // ---- values -----------------------------------------------------------------------------------------

  function Joined(parts: seq<string>): string {
    if parts == [] then ""
    else if |parts| == 1 then parts[0]
    else parts[0] + " " + Joined(parts[1..])
  }

  function Printed(v: Value): string {
    match v
    case Str(s) => s
    case Names(names) => "[" + Joined(names) + "]"
    case Items(items) => "[" + Joined(PrintedAll(items)) + "]"
    case Nil => "<nil>"
    case OtherValue(s) => s
  }

  function PrintedAll(items: seq<Value>): seq<string> {
    if items == [] then [] else [Printed(items[0])] + PrintedAll(items[1..])
  }

  /** The text a value is compared as; a list is compared as its printed form. */
  function Compared(v: Value): string {
    if v.Str? then v.text else Trim(Printed(v))
  }

  function AsList(v: Value): seq<Value> {
    match v
    case Items(items) => items
    case Names(names) => seq(|names|, i requires 0 <= i < |names| => Str(names[i]))
    case _ => []
  }

  function FirstDot(s: string): Option<nat> {
    if s == "" then None
    else if s[0] == '.' then Some(0)
    else
      match FirstDot(s[1..])
      case None => None
      case Some(k) => Some(k + 1)
  }

  lemma {:induction false} FirstDotIs(s: string, k: nat)
    requires k < |s| && s[k] == '.' && forall i :: 0 <= i < k ==> s[i] != '.'
    ensures FirstDot(s) == Some(k)
  {
    if k > 0 {
      FirstDotIs(s[1..], k - 1);
    }
  }

  /** `$group.name` stands for that value of the environment, if there is one. */
  function Reference(s: string, env: Env): Option<Value> {
    if s == "" || s[0] != '$' then None
    else
      match FirstDot(s[1..])
      case None => None
      case Some(k) =>
        if k >= |s| - 1 || '.' in s[k + 2..] then None
        else
          var group, name := s[1..k + 1], s[k + 2..];
          if group in env && name in env[group] then Some(env[group][name]) else None
  }

  function Resolve(v: Value, env: Env): Value {
    match v
    case Str(s) => (match Reference(s, env) case Some(value) => value case None => v)
    case Items(items) => Items(ResolveAll(items, env))
    case _ => v
  }

  function ResolveAll(items: seq<Value>, env: Env): seq<Value> {
    if items == [] then [] else [Resolve(items[0], env)] + ResolveAll(items[1..], env)
  }

  predicate Contains(text: string, part: string) {
    part <= text || (text != "" && Contains(text[1..], part))
  }

  predicate Listed(v: Value, values: seq<Value>) {
    exists i :: 0 <= i < |values| && Compared(values[i]) == Compared(v)
  }

  predicate MatchOperator(operator: string, actual: Value, expected: Value) {
    if operator == "eq" then Compared(actual) == Compared(expected)
    else if operator == "neq" then Compared(actual) != Compared(expected)
    else if operator == "in" then
      if AsList(actual) != [] then exists i :: 0 <= i < |AsList(actual)| && Listed(AsList(actual)[i], AsList(expected))
      else Listed(actual, AsList(expected))
    else if operator == "contains" then
      || (exists i :: 0 <= i < |AsList(actual)| && Compared(AsList(actual)[i]) == Compared(expected))
      || (Compared(actual) != "" && Contains(Compared(actual), Compared(expected)))
    else false
  }

  function At(scope: Scope, field: string): Value {
    if field in scope then scope[field] else Nil
  }

  /** One field of an expression holds: it has a rule, and every operator of the rule matches. */
  ghost predicate FieldHolds(rule: Rule, actual: Value, env: Env) {
    rule.Rule? && forall op :: op in rule.operators ==> MatchOperator(op, actual, Resolve(rule.operators[op], env))
  }

  ghost predicate Holds(expr: Expr, scope: Scope, env: Env) {
    forall field :: field in expr ==> FieldHolds(expr[field], At(scope, field), env)
  }

  function Subject(s: Session): Scope {
    map["user_id" := Str(s.userId), "roles" := Names([s.role]), "workspace_id" := Str(s.workspaceId)]
  }

  function EnvOf(s: Session, r: Resource, action: string, c: Context): Env {
    map["subject" := Subject(s),
        "resource" := map["workspace_id" := Str(r.workspaceId), "owner_user_id" := Str(r.ownerUserId),
                          "scope" := Str(r.scope), "resource_type" := Str(r.resourceType),
                          "share_status" := Str(r.shareStatus)],
        "action" := map["name" := Str(action)],
        "context" := map["risk_level" := Str(c.riskLevel), "operation_type" := Str(c.operationType),
                         "request_source" := Str(c.requestSource)]]
  }

  ghost predicate Matches(p: Policy, env: Env)
    requires "subject" in env && "resource" in env && "action" in env && "context" in env
  {
    && Holds(p.subject, env["subject"], env) && Holds(p.resource, env["resource"], env)
    && Holds(p.action, env["action"], env) && Holds(p.context, env["context"], env)
  }

  // ---- the loops ----------------------------------------------------------------------------------------

  /** Tries the operators of a rule in whatever order the map yields them. */
  method RuleHolds(operators: map<string, Value>, actual: Value, env: Env) returns (ok: bool)
    ensures ok == FieldHolds(Rule(operators), actual, env)
  {
    var todo := operators.Keys;
    while todo != {}
      invariant todo <= operators.Keys
      invariant forall op :: op in operators && op !in todo ==> MatchOperator(op, actual, Resolve(operators[op], env))
    {
      var op :| op in todo;
      todo := todo - {op};
      if !MatchOperator(op, actual, Resolve(operators[op], env)) {
        return false;
      }
    }
    ok := true;
  }

  /** Tries the fields of an expression in whatever order the map yields them. */
  method EvaluateExpression(expr: Expr, scope: Scope, env: Env) returns (ok: bool)
    ensures ok == Holds(expr, scope, env)
  {
    var todo := expr.Keys;
    while todo != {}
      invariant todo <= expr.Keys
      invariant forall field :: field in expr && field !in todo ==> FieldHolds(expr[field], At(scope, field), env)
    {
      var field :| field in todo;
      todo := todo - {field};
      match expr[field] {
        case NotARule => return false;
        case Rule(operators) =>
          var holds := RuleHolds(operators, At(scope, field), env);
          if !holds {
            return false;
          }
      }
    }
    ok := true;
  }

  method MatchPolicy(p: Policy, env: Env) returns (ok: bool)
    requires "subject" in env && "resource" in env && "action" in env && "context" in env
    ensures ok == Matches(p, env)
  {
    ok := EvaluateExpression(p.subject, env["subject"], env);
    if ok {
      ok := EvaluateExpression(p.resource, env["resource"], env);
    }
    if ok {
      ok := EvaluateExpression(p.action, env["action"], env);
    }
    if ok {
      ok := EvaluateExpression(p.context, env["context"], env);
    }
  }

  // ---- decisions ----------------------------------------------------------------------------------------

  /** `permissions` and `policies` are None when they can not be loaded. */
  datatype Store = NoStore | Store(permissions: Option<seq<string>>, policies: Option<seq<Policy>>)

  datatype Reason =
    | NoSession | WorkspaceMismatch | RoleForbidden | NoPermission | PolicyDenies(id: string) | NoPolicyAllows

  datatype Decision = Granted | Denied(reason: Reason) | LoadFailed

  datatype ActionSpec = ActionSpec(risk: string, operation: string, abacRequired: bool)

  datatype Request = Request(
    session: Option<Session>,
    workspaceId: string,
    action: string,
    spec: Option<ActionSpec>,
    resource: Resource,
    input: Context,
    allowedRoles: seq<string>)

  const LOCAL := "ws_local"

  function FirstNonBlank(values: seq<string>): string {
    if values == [] then "" else if Trim(values[0]) != "" then values[0] else FirstNonBlank(values[1..])
  }

  predicate Permitted(permissions: seq<string>, target: string) {
    target == "" || "*" in permissions || target in permissions
  }

  function Workspace(q: Request, s: Session): string {
    if Trim(q.workspaceId) != "" then Trim(q.workspaceId) else Trim(s.workspaceId)
  }

  function TargetWorkspace(q: Request, s: Session): string {
    if Workspace(q, s) != "" then Workspace(q, s)
    else if Trim(q.resource.workspaceId) != "" then Trim(q.resource.workspaceId)
    else Trim(s.workspaceId)
  }

  function ContextFor(q: Request): Context {
    var risk := if q.spec.Some? then q.spec.value.risk else "";
    var operation := if q.spec.Some? then q.spec.value.operation else "";
    Context(FirstNonBlank([q.input.riskLevel, risk, "low"]), FirstNonBlank([q.input.operationType, operation, "read"]),
            FirstNonBlank([q.input.requestSource, "api"]),
            q.input.abacRequired || (q.spec.Some? && q.spec.value.abacRequired) || q.input.operationType == "write")
  }

  function EnvFor(q: Request, s: Session): (env: Env)
    ensures "subject" in env && "resource" in env && "action" in env && "context" in env
  {
    var workspaceId := FirstNonBlank([q.resource.workspaceId, Workspace(q, s)]);
    EnvOf(s, q.resource.(workspaceId := workspaceId), q.action, ContextFor(q))
  }

  /** An enabled policy that matches the request. */
  ghost predicate Applies(p: Policy, q: Request, s: Session) {
    p.enabled && Matches(p, EnvFor(q, s))
  }

  /** Some enabled matching policy allows and none denies. */
  ghost predicate PoliciesAllow(policies: seq<Policy>, q: Request, s: Session) {
    && (exists p :: p in policies && !p.deny && Applies(p, q, s))
    && (forall p :: p in policies && p.deny ==> !Applies(p, q, s))
  }

  /** What comes before the policies: nothing if they are asked. */
  function BeforePolicies(q: Request, store: Store): Option<Decision> {
    match q.session
    case None => Some(Denied(NoSession))
    case Some(s) =>
      var workspace := Workspace(q, s);
      if workspace != "" && s.workspaceId != LOCAL && s.workspaceId != workspace then Some(Denied(WorkspaceMismatch))
      else if q.allowedRoles != [] && s.role !in q.allowedRoles then Some(Denied(RoleForbidden))
      else if s.workspaceId == LOCAL then
        (if TargetWorkspace(q, s) != "" && TargetWorkspace(q, s) != LOCAL then Some(Denied(WorkspaceMismatch))
         else Some(Granted))
      else if store.NoStore? then Some(Granted)
      else if store.permissions.None? then Some(LoadFailed)
      else if !Permitted(store.permissions.value, q.action) then Some(Denied(NoPermission))
      else if !ContextFor(q).abacRequired then Some(Granted)
      else if store.policies.None? then Some(LoadFailed)
      else None
  }

  // ---- who may do what, told by membership --------------------------------------------------------------

  /** The session is of the workspace the request is about: a local one of the local workspace alone, another
      of the named workspace, or of its own when none is named. */
  ghost predicate OwnWorkspace(q: Request, s: Session) {
    var named := Trim(q.workspaceId);
    if s.workspaceId == "ws_local" then named == "" || named == "ws_local"
    else if named != "" then s.workspaceId == named
    else Trim(s.workspaceId) == "" || Tight(s.workspaceId)
  }

  ghost predicate RoleAllowed(q: Request, s: Session) {
    q.allowedRoles == [] || exists i :: 0 <= i < |q.allowedRoles| && q.allowedRoles[i] == s.role
  }

  /** The role has the permission for the action, or for everything. */
  ghost predicate HasPermission(permissions: seq<string>, action: string) {
    action == "" || exists i :: 0 <= i < |permissions| && (permissions[i] == "*" || permissions[i] == action)
  }

  /** Writes, and actions or requests that say so, need a policy that allows them. */
  ghost predicate NeedsPolicy(q: Request) {
    || q.input.abacRequired || q.input.operationType == "write"
    || match q.spec case None => false case Some(spec) => spec.abacRequired
  }

  /** Exactly these requests are granted. */
  ghost predicate MayPass(q: Request, store: Store) {
    match q.session
    case None => false
    case Some(s) =>
      && OwnWorkspace(q, s) && RoleAllowed(q, s)
      && (s.workspaceId == "ws_local" || store.NoStore?
          || (&& store.permissions.Some? && HasPermission(store.permissions.value, q.action)
              && (NeedsPolicy(q) ==> store.policies.Some? && PoliciesAllow(store.policies.value, q, s))))
  }

  /** What is answered when something has to be loaded that can not be. */
  ghost predicate MissesSomething(q: Request, store: Store) {
    match q.session
    case None => false
    case Some(s) =>
      && OwnWorkspace(q, s) && RoleAllowed(q, s) && s.workspaceId != "ws_local" && store.Store?
      && (store.permissions.None?
          || (HasPermission(store.permissions.value, q.action) && NeedsPolicy(q) && store.policies.None?))
  }

  /** Why a request is refused: the first of these that holds. */
  ghost predicate RefusedFor(q: Request, store: Store, reason: Reason) {
    match q.session
    case None => reason == NoSession
    case Some(s) =>
      match reason
      case NoSession => false
      case WorkspaceMismatch =>
        !OwnWorkspace(q, s) && (s.workspaceId == "ws_local" ==> RoleAllowed(q, s))
      case RoleForbidden => !RoleAllowed(q, s) && (s.workspaceId != "ws_local" ==> OwnWorkspace(q, s))
      case NoPermission =>
        && OwnWorkspace(q, s) && RoleAllowed(q, s) && s.workspaceId != "ws_local" && store.Store?
        && store.permissions.Some? && !HasPermission(store.permissions.value, q.action)
      case PolicyDenies(id) => PoliciesDecide(q, store, s) && FirstDenial(store.policies.value, q, s, id)
      case NoPolicyAllows =>
        PoliciesDecide(q, store, s) && forall p :: p in store.policies.value ==> !Applies(p, q, s)
  }

  /** Nothing else refuses the request, and it needs a policy. */
  ghost predicate PoliciesDecide(q: Request, store: Store, s: Session) {
    && OwnWorkspace(q, s) && RoleAllowed(q, s) && s.workspaceId != "ws_local" && store.Store?
    && store.permissions.Some? && HasPermission(store.permissions.value, q.action) && NeedsPolicy(q)
    && store.policies.Some?
  }

  /** The first policy in the list that applies and denies has this id. */
  ghost predicate FirstDenial(policies: seq<Policy>, q: Request, s: Session, id: string) {
    exists k :: 0 <= k < |policies| && policies[k].deny && Applies(policies[k], q, s) && policies[k].id == id
                && forall i :: 0 <= i < k && policies[i].deny ==> !Applies(policies[i], q, s)
  }

  ghost predicate Justified(q: Request, store: Store, decision: Decision) {
    match decision
    case Granted => MayPass(q, store)
    case LoadFailed => MissesSomething(q, store)
    case Denied(reason) => RefusedFor(q, store, reason)
  }

  lemma WorkspaceExactly(q: Request, s: Session)
    ensures s.workspaceId != LOCAL ==>
      (OwnWorkspace(q, s) <==> Workspace(q, s) == "" || s.workspaceId == Workspace(q, s))
    ensures s.workspaceId == LOCAL ==>
      (OwnWorkspace(q, s) <==> TargetWorkspace(q, s) == "" || TargetWorkspace(q, s) == LOCAL)
  {
    TightIsTrimmed(LOCAL);
    TrimIsTight(s.workspaceId);
    if Tight(s.workspaceId) {
      TightIsTrimmed(s.workspaceId);
    }
  }

  /** What is decided before the policies is justified, and the policies are asked exactly when they decide. */
  lemma {:induction false} BeforePoliciesJustified(q: Request, store: Store)
    ensures match BeforePolicies(q, store)
      case Some(decision) => Justified(q, store, decision)
      case None =>
        && q.session.Some? && store.Store? && store.permissions.Some? && store.policies.Some?
        && (MayPass(q, store) <==> PoliciesAllow(store.policies.value, q, q.session.value))
        && !MissesSomething(q, store)
        && (forall id ::
              RefusedFor(q, store, PolicyDenies(id)) <==> FirstDenial(store.policies.value, q, q.session.value, id))
        && (RefusedFor(q, store, NoPolicyAllows) <==>
              (forall p :: p in store.policies.value ==> !Applies(p, q, q.session.value)))
  {
    hide Applies, Trim;
    if q.session.Some? {
      WorkspaceExactly(q, q.session.value);
    }
  }

  /** No request that is refused or can not be decided may pass. */
  lemma OneReason(q: Request, store: Store)
    ensures MayPass(q, store) ==> !MissesSomething(q, store) && forall reason :: !RefusedFor(q, store, reason)
  {
    hide OwnWorkspace, RoleAllowed, HasPermission, Applies;
    if MayPass(q, store) {
      forall reason
        ensures !RefusedFor(q, store, reason)
      {
      }
    }
  }

  /** More permissions never take a grant away. */
  lemma MorePermissions(q: Request, permissions: seq<string>, more: seq<string>, policies: Option<seq<Policy>>)
    requires forall p :: p in permissions ==> p in more
    ensures MayPass(q, Store(Some(permissions), policies)) ==> MayPass(q, Store(Some(more), policies))
  {
    if i :| 0 <= i < |permissions| && (permissions[i] == "*" || permissions[i] == q.action) {
      assert permissions[i] in more;
    }
  }

  class Authorizer {
    var audit: seq<Decision>

    constructor ()
      ensures audit == []
    {
      audit := [];
    }

    /** The policy loop: the first denial that matches ends it. */
    method AskPolicies(policies: seq<Policy>, q: Request, s: Session) returns (decision: Decision)
      ensures decision == Granted <==> PoliciesAllow(policies, q, s)
      ensures !decision.LoadFailed?
      ensures decision.Denied? && decision.reason.PolicyDenies? ==> FirstDenial(policies, q, s, decision.reason.id)
      ensures decision == Denied(NoPolicyAllows) <==> forall p :: p in policies ==> !Applies(p, q, s)
      ensures decision.Denied? ==> decision.reason.PolicyDenies? || decision.reason.NoPolicyAllows?
    {
      var allowMatched := false;
      var env := EnvFor(q, s);
      for i := 0 to |policies|
        invariant forall p :: p in policies[..i] && p.deny ==> !Applies(p, q, s)
        invariant forall k :: 0 <= k < i && policies[k].deny ==> !Applies(policies[k], q, s)
        invariant allowMatched <==> exists p :: p in policies[..i] && !p.deny && Applies(p, q, s)
      {
        var p := policies[i];
        assert policies[..i + 1] == policies[..i] + [p];
        if !p.enabled {
          continue;
        }
        var matched := MatchPolicy(p, env);
        if !matched {
          continue;
        }
        assert Applies(p, q, s) && p in policies;
        if p.deny {
          return Denied(PolicyDenies(p.id));
        }
        allowMatched := true;
      }
      assert policies[..|policies|] == policies;
      decision := if allowMatched then Granted else Denied(NoPolicyAllows);
    }

    /** Every decision but a failure to load is audited, once. */
    method Authorize(q: Request, store: Store) returns (decision: Decision)
      modifies this
      ensures BeforePolicies(q, store).Some? ==> decision == BeforePolicies(q, store).value
      ensures Justified(q, store, decision) && (decision == Granted <==> MayPass(q, store))
      ensures audit == if decision.LoadFailed? then old(audit) else old(audit) + [decision]
    {
      decision := Decide(q, store);
      if !decision.LoadFailed? {
        audit := audit + [decision];
      }
    }

    method Decide(q: Request, store: Store) returns (decision: Decision)
      ensures BeforePolicies(q, store).Some? ==> decision == BeforePolicies(q, store).value
      ensures Justified(q, store, decision) && (decision == Granted <==> MayPass(q, store))
    {
      BeforePoliciesJustified(q, store);
      OneReason(q, store);
      if q.session.None? {
        return Denied(NoSession);
      }
      var s := q.session.value;
      var workspace := Workspace(q, s);
      if workspace != "" && s.workspaceId != LOCAL && s.workspaceId != workspace {
        return Denied(WorkspaceMismatch);
      }
      if q.allowedRoles != [] && s.role !in q.allowedRoles {
        return Denied(RoleForbidden);
      }
      if s.workspaceId == LOCAL {
        var target := TargetWorkspace(q, s);
        if target != "" && target != LOCAL {
          return Denied(WorkspaceMismatch);
        }
        return Granted;
      }
      if store.NoStore? {
        return Granted;
      }
      if store.permissions.None? {
        return LoadFailed;
      }
      if !Permitted(store.permissions.value, q.action) {
        return Denied(NoPermission);
      }
      if !ContextFor(q).abacRequired {
        return Granted;
      }
      if store.policies.None? {
        return LoadFailed;
      }
      decision := AskPolicies(store.policies.value, q, s);
    }
  }

  // ---- laws -----------------------------------------------------------------------------------------------

  /** The order of the policies, and repetitions, do not matter. */
  lemma {:induction false} PolicyOrderDoesNotMatter(a: seq<Policy>, b: seq<Policy>, q: Request, s: Session)
    requires forall p :: p in a <==> p in b
    ensures PoliciesAllow(a, q, s) <==> PoliciesAllow(b, q, s)
  {
    if PoliciesAllow(a, q, s) {
      var p :| p in a && !p.deny && Applies(p, q, s);
      assert p in b;
    }
    if PoliciesAllow(b, q, s) {
      var p :| p in b && !p.deny && Applies(p, q, s);
      assert p in a;
    }
  }

  /** Adding policies that deny, at any place, never grants a request; adding policies that allow never
      takes a grant away. */
  lemma {:induction false} AddingPolicies(before: seq<Policy>, added: Policy, after: seq<Policy>,
      q: Request, s: Session)
    ensures added.deny && PoliciesAllow(before + [added] + after, q, s) ==> PoliciesAllow(before + after, q, s)
    ensures !added.deny && PoliciesAllow(before + after, q, s) ==> PoliciesAllow(before + [added] + after, q, s)
  {
    var less, more := before + after, before + [added] + after;
    assert forall p :: p in more <==> p in less || p == added;
    if added.deny && PoliciesAllow(more, q, s) {
      var p :| p in more && !p.deny && Applies(p, q, s);
      assert p in less;
    }
    if !added.deny && PoliciesAllow(less, q, s) {
      var p :| p in less && !p.deny && Applies(p, q, s);
      assert p in more;
    }
  }

  /** Denial overrides: one enabled matching policy that denies is enough, whatever the others say. */
  lemma OneDenialIsEnough(policies: seq<Policy>, p: Policy, q: Request, s: Session)
    requires p in policies && p.deny && Applies(p, q, s)
    ensures !PoliciesAllow(policies, q, s)
  {
  }

  /** One that allows is enough where none denies, and where none applies nothing is allowed. */
  lemma OneAllowanceIsEnough(policies: seq<Policy>, p: Policy, q: Request, s: Session)
    requires p in policies && !p.deny && Applies(p, q, s)
    requires forall other :: other in policies && Applies(other, q, s) ==> !other.deny
    ensures PoliciesAllow(policies, q, s) && !PoliciesAllow([], q, s)
  {
    hide Applies;
  }

  /** `eq` and `neq` on the list of roles compare its printed form, so a role's own name never equals it. */
  lemma {:induction false} RolesComparePrinted(role: string, expected: string)
    ensures MatchOperator("eq", Names([role]), Str(expected)) <==> expected == "[" + role + "]"
    ensures MatchOperator("neq", Names([role]), Str(expected)) <==> expected != "[" + role + "]"
  {
    var printed := "[" + role + "]";
    assert Printed(Names([role])) == printed;
    TightIsTrimmed(printed);
  }

  const HIGH_RISKS := Items([Str("high"), Str("critical")])

  /** The shipped policy that should keep everyone but admins from high-risk administration. */
  function DenyNonAdmins(id: string, actions: Value): Policy {
    Policy(id, true, true,
           map["roles" := Rule(map["neq" := Str("admin")])],
           map["workspace_id" := Rule(map["eq" := Str("$subject.workspace_id")])],
           map["name" := Rule(map["in" := actions])],
           map["risk_level" := Rule(map["in" := HIGH_RISKS])])
  }

  lemma ReferenceFinds(group: string, name: string, env: Env)
    requires '.' !in group && '.' !in name && group in env && name in env[group]
    ensures Reference("$" + group + "." + name, env) == Some(env[group][name])
  {
    var s := "$" + group + "." + name;
    assert s[1..] == group + "." + name;
    FirstDotIs(s[1..], |group|);
    assert s[1..|group| + 1] == group && s[|group| + 2..] == name;
  }

  lemma SubjectWorkspace(s: Session, r: Resource, action: string, c: Context)
    ensures Resolve(Str("$subject.workspace_id"), EnvOf(s, r, action, c)) == Str(s.workspaceId)
  {
    assert "$subject.workspace_id" == "$" + "subject" + "." + "workspace_id";
    ReferenceFinds("subject", "workspace_id", EnvOf(s, r, action, c));
  }

  lemma HighRisks(env: Env, risk: string)
    ensures MatchOperator("in", Str(risk), Resolve(HIGH_RISKS, env)) <==> risk == "high" || risk == "critical"
  {
    var items := [Str("high"), Str("critical")];
    assert items[1..] == [Str("critical")] && [Str("critical")][1..] == [];
    assert ResolveAll([Str("critical")], env) == [Str("critical")];
    assert ResolveAll(items, env) == items;
    assert Compared(items[0]) == "high" && Compared(items[1]) == "critical";
  }

  /** An expression of one field with one operator. */
  lemma OneRuleMeans(field: string, op: string, expected: Value, scope: Scope, env: Env)
    ensures Holds(map[field := Rule(map[op := expected])], scope, env)
      <==> MatchOperator(op, At(scope, field), Resolve(expected, env))
  {
    var expr := map[field := Rule(map[op := expected])];
    assert field in expr && op in expr[field].operators;
  }

  /** The action is among those the policy is about. */
  predicate AboutAction(actions: Value, q: Request, s: Session) {
    MatchOperator("in", Str(q.action), Resolve(actions, EnvFor(q, s)))
  }

  /** The policy applies exactly to the listed actions of high risk in the session's own workspace. The
      role does not come into it, so it keeps admins out as well. */
  lemma {:induction false} DenyNonAdminsAppliesExactly(id: string, actions: Value, q: Request, s: Session)
    ensures Applies(DenyNonAdmins(id, actions), q, s)
      <==> && AboutAction(actions, q, s)
           && (ContextFor(q).riskLevel == "high" || ContextFor(q).riskLevel == "critical")
           && FirstNonBlank([q.resource.workspaceId, Workspace(q, s)]) == s.workspaceId
  {
    hide MatchOperator, Trim, FirstNonBlank, Holds;
    var r := q.resource.(workspaceId := FirstNonBlank([q.resource.workspaceId, Workspace(q, s)]));
    DenySubjectHolds(s, EnvFor(q, s));
    DenyResourceMeans(s, r, q.action, ContextFor(q));
    OneRuleMeans("name", "in", actions, map["name" := Str(q.action)], EnvFor(q, s));
    DenyContextMeans(ContextFor(q), EnvFor(q, s));
  }

  /** Where it is in force, no such request is granted to anyone. */
  lemma {:induction false} DenyNonAdminsDeniesAdmins(policies: seq<Policy>, id: string, actions: Value, q: Request,
                                                     s: Session)
    requires DenyNonAdmins(id, actions) in policies
    requires AboutAction(actions, q, s)
    requires ContextFor(q).riskLevel == "high" || ContextFor(q).riskLevel == "critical"
    requires FirstNonBlank([q.resource.workspaceId, Workspace(q, s)]) == s.workspaceId
    ensures !PoliciesAllow(policies, q, s)
  {
    DenyNonAdminsAppliesExactly(id, actions, q, s);
    OneDenialIsEnough(policies, DenyNonAdmins(id, actions), q, s);
  }

  lemma DenySubjectHolds(s: Session, env: Env)
    ensures Holds(map["roles" := Rule(map["neq" := Str("admin")])], Subject(s), env)
  {
    RolesComparePrinted(s.role, "admin");
    PlainText("admin", env);
    OneRuleMeans("roles", "neq", Str("admin"), Subject(s), env);
  }

  lemma DenyResourceMeans(s: Session, r: Resource, action: string, c: Context)
    ensures var env := EnvOf(s, r, action, c);
      (Holds(map["workspace_id" := Rule(map["eq" := Str("$subject.workspace_id")])], env["resource"], env)
       <==> r.workspaceId == s.workspaceId)
  {
    var env := EnvOf(s, r, action, c);
    SubjectWorkspace(s, r, action, c);
    OneRuleMeans("workspace_id", "eq", Str("$subject.workspace_id"), env["resource"], env);
  }

  lemma DenyContextMeans(c: Context, env: Env)
    requires "context" in env && "risk_level" in env["context"] && env["context"]["risk_level"] == Str(c.riskLevel)
    ensures Holds(map["risk_level" := Rule(map["in" := HIGH_RISKS])], env["context"], env)
      <==> c.riskLevel == "high" || c.riskLevel == "critical"
  {
    HighRisks(env, c.riskLevel);
    OneRuleMeans("risk_level", "in", HIGH_RISKS, env["context"], env);
  }

  lemma PlainText(text: string, env: Env)
    requires text == "" || text[0] != '$'
    ensures Resolve(Str(text), env) == Str(text)
  {
  }

  // ---- what policies can say --------------------------------------------------------------------------------

  ghost predicate Within(text: string, part: string) {
    exists i :: 0 <= i <= |text| && part <= text[i..]
  }

  lemma {:induction false} ContainsExactly(text: string, part: string)
    ensures Contains(text, part) <==> Within(text, part)
  {
    if part <= text {
      assert text[0..] == text;
    } else if text != "" {
      ContainsExactly(text[1..], part);
      if i :| 0 <= i <= |text[1..]| && part <= text[1..][i..] {
        assert text[i + 1..] == text[1..][i..];
      }
      if i :| 0 <= i <= |text| && part <= text[i..] {
        assert i > 0 && text[1..][i - 1..] == text[i..];
      }
    }
  }

  /** The operators on plain texts and lists of them. */
  lemma {:induction false} OperatorsMean(a: string, b: string, names: seq<string>, more: seq<string>)
    ensures MatchOperator("eq", Str(a), Str(b)) <==> a == b
    ensures MatchOperator("neq", Str(a), Str(b)) <==> a != b
    ensures MatchOperator("in", Str(a), Names(names)) <==> a in names
    ensures names != [] ==> (MatchOperator("in", Names(names), Names(more)) <==> exists x :: x in names && x in more)
    ensures MatchOperator("contains", Str(a), Str(b)) <==> a != "" && Within(a, b)
    ensures MatchOperator("contains", Names(names), Str(b)) <==> b in names || Within("[" + Joined(names) + "]", b)
  {
    hide Contains, Joined, Printed, Trim, Listed;
    ContainsExactly(a, b);
    ListedNames(Str(a), names);
    if names != [] {
      NamesIn(names, more);
    }
    NamesContain(names, b);
  }

  lemma NamesIn(names: seq<string>, more: seq<string>)
    requires names != []
    ensures MatchOperator("in", Names(names), Names(more)) <==> exists x :: x in names && x in more
  {
    hide Contains, Joined, Printed, Trim, Listed;
    var list := AsList(Names(names));
    assert |list| == |names| && list != [];
    forall i | 0 <= i < |names|
      ensures Listed(list[i], AsList(Names(more))) <==> names[i] in more
    {
      ListedNames(Str(names[i]), more);
    }
  }

  lemma NamesContain(names: seq<string>, b: string)
    ensures MatchOperator("contains", Names(names), Str(b)) <==> b in names || Within("[" + Joined(names) + "]", b)
  {
    hide Contains, Joined, Trim, Within;
    var printed := "[" + Joined(names) + "]";
    TightIsTrimmed(printed);
    ContainsExactly(printed, b);
    assert Compared(Names(names)) == printed;
    var list := AsList(Names(names));
    assert forall i :: 0 <= i < |names| ==> Compared(list[i]) == names[i];
  }

  lemma ListedNames(v: Value, names: seq<string>)
    requires v.Str?
    ensures Listed(v, AsList(Names(names))) <==> v.text in names
  {
    var list := AsList(Names(names));
    assert forall i :: 0 <= i < |names| ==> list[i] == Str(names[i]);
    if v.text in names {
      var i :| 0 <= i < |names| && names[i] == v.text;
      assert Compared(list[i]) == Compared(v);
    }
  }

  /** Lists are joined by single blanks, inside brackets. */
  lemma {:induction false} JoinedAppended(a: seq<string>, b: seq<string>)
    requires a != [] && b != []
    ensures Joined(a + b) == Joined(a) + " " + Joined(b)
  {
    assert (a + b)[1..] == a[1..] + b;
    if |a| > 1 {
      JoinedAppended(a[1..], b);
    } else {
      assert a[1..] == [];
      assert a[1..] + b == b;
    }
  }

  lemma PrintedForms(a: string, b: string)
    ensures Printed(Str(a)) == a && Printed(Nil) == "<nil>" && Printed(Names([])) == Printed(Items([])) == "[]"
    ensures Printed(Names([a])) == Printed(Items([Str(a)])) == "[" + a + "]"
    ensures Printed(Names([a, b])) == Printed(Items([Str(a), Str(b)])) == "[" + a + " " + b + "]"
  {
    assert [a, b] == [a] + [b];
    JoinedAppended([a], [b]);
    assert [Str(b)][1..] == [];
    assert [Str(a), Str(b)][1..] == [Str(b)];
    assert PrintedAll([Str(b)]) == [b];
    assert PrintedAll([Str(a), Str(b)]) == [a, b];
    assert [Str(a)][1..] == [];
    assert PrintedAll([Str(a)]) == [a];
  }

  /** References inside a list are resolved one by one, in place; other values stand for themselves. */
  lemma {:induction false} ListsResolve(items: seq<Value>, env: Env)
    ensures |ResolveAll(items, env)| == |items|
    ensures forall i :: 0 <= i < |items| ==> ResolveAll(items, env)[i] == Resolve(items[i], env)
    ensures Resolve(Items(items), env) == Items(ResolveAll(items, env))
    ensures forall v: Value :: v.Names? || v.Nil? || v.OtherValue? ==> Resolve(v, env) == v
  {
    if items != [] {
      ListsResolve(items[1..], env);
    }
  }

  /** Any other operator fails, and a field that is not there is compared as its printed form. */
  lemma OtherOperatorsFail(op: string, actual: Value, expected: Value)
    requires op != "eq" && op != "neq" && op != "in" && op != "contains"
    ensures !MatchOperator(op, actual, expected)
    ensures Compared(At(map[], op)) == "<nil>"
  {
    TightIsTrimmed("<nil>");
  }

  /** A text that is no reference, or to something that is not there, stands for itself. */
  lemma NoReference(s: string, env: Env)
    requires Reference(s, env).Some?
    ensures s != "" && s[0] == '$' && exists group: string, name: string ::
      s == "$" + group + "." + name && '.' !in group && '.' !in name
      && group in env && name in env[group] && Reference(s, env) == Some(env[group][name])
  {
    var k := FirstDot(s[1..]).value;
    FirstDotFound(s[1..]);
    var group, name := s[1..k + 1], s[k + 2..];
    assert s == "$" + group + "." + name;
    assert forall i :: 0 <= i < |group| ==> group[i] == s[1..][i];
  }

  lemma {:induction false} FirstDotFound(s: string)
    ensures match FirstDot(s)
      case None => '.' !in s
      case Some(k) => k < |s| && s[k] == '.' && forall i :: 0 <= i < k ==> s[i] != '.'
  {
    if s != "" && s[0] != '.' {
      FirstDotFound(s[1..]);
      assert forall i :: 1 <= i < |s| ==> s[i] == s[1..][i - 1];
    }
  }

  ghost predicate FirstOf(value: string, first: string, second: string, third: string) {
    value == if Trim(first) != "" then first else if Trim(second) != "" then second else third
  }

  /** What policies can refer to: the session, the resource, the action and what is known of the request. */
  lemma EnvironmentTells(q: Request, s: Session)
    ensures var env := EnvFor(q, s);
      var c := ContextFor(q);
      && env["subject"] == map["user_id" := Str(s.userId), "roles" := Names([s.role]),
                               "workspace_id" := Str(s.workspaceId)]
      && env["action"] == map["name" := Str(q.action)]
      && env["context"] == map["risk_level" := Str(c.riskLevel), "operation_type" := Str(c.operationType),
                               "request_source" := Str(c.requestSource)]
      && env["resource"].Keys == {"workspace_id", "owner_user_id", "scope", "resource_type", "share_status"}
      && env["resource"]["owner_user_id"] == Str(q.resource.ownerUserId)
      && env["resource"]["scope"] == Str(q.resource.scope)
      && env["resource"]["resource_type"] == Str(q.resource.resourceType)
      && env["resource"]["share_status"] == Str(q.resource.shareStatus)
      && (Trim(q.resource.workspaceId) != "" ==> env["resource"]["workspace_id"] == Str(q.resource.workspaceId))
  {
    hide Trim, ContextFor;
    if Trim(q.resource.workspaceId) != "" {
      FirstNonBlankOfTwo(q.resource.workspaceId, Workspace(q, s));
    }
  }

  /** Risk and operation are those of the request, else those of the action, else low and read. */
  lemma ContextTells(q: Request)
    ensures var c := ContextFor(q);
      && FirstOf(c.riskLevel, q.input.riskLevel, if q.spec.Some? then q.spec.value.risk else "", "low")
      && FirstOf(c.operationType, q.input.operationType, if q.spec.Some? then q.spec.value.operation else "", "read")
      && FirstOf(c.requestSource, q.input.requestSource, "", "api")
      && (c.abacRequired <==> NeedsPolicy(q))
  {
    TightIsTrimmed("low");
    TightIsTrimmed("read");
    TightIsTrimmed("api");
    assert Trim("") == "";
    hide Trim;
    FirstNonBlankOfThree(q.input.riskLevel, if q.spec.Some? then q.spec.value.risk else "", "low");
    FirstNonBlankOfThree(q.input.operationType, if q.spec.Some? then q.spec.value.operation else "", "read");
    FirstNonBlankOfTwo(q.input.requestSource, "api");
  }

  lemma FirstNonBlankOfTwo(a: string, b: string)
    ensures FirstNonBlank([a, b]) == if Trim(a) != "" then a else if Trim(b) != "" then b else ""
  {
    assert [a, b][1..] == [b] && [b][1..] == [];
    assert FirstNonBlank([b]) == if Trim(b) != "" then b else FirstNonBlank([]);
  }

  lemma FirstNonBlankOfThree(a: string, b: string, c: string)
    ensures FirstNonBlank([a, b, c]) ==
      if Trim(a) != "" then a else if Trim(b) != "" then b else if Trim(c) != "" then c else ""
  {
    assert [a, b, c][1..] == [b, c];
    FirstNonBlankOfTwo(b, c);
  }

  /** A policy applies only where all its four parts hold: here one that names a user, an owner, an action and
      a risk. */
  lemma {:induction false} FourPartsHold(p: Policy, user: string, owner: string, action: string, risk: string,
                                         q: Request, s: Session)
    requires Plain(user) && Plain(owner) && Plain(action) && Plain(risk)
    requires p.subject == map["user_id" := Rule(map["eq" := Str(user)])]
    requires p.resource == map["owner_user_id" := Rule(map["eq" := Str(owner)])]
    requires p.action == map["name" := Rule(map["eq" := Str(action)])]
    requires p.context == map["risk_level" := Rule(map["eq" := Str(risk)])]
    ensures Applies(p, q, s) <==>
      p.enabled && s.userId == user && q.resource.ownerUserId == owner && q.action == action
      && ContextFor(q).riskLevel == risk
  {
    var env := EnvFor(q, s);
    EnvironmentTells(q, s);
    OneRuleMeans("user_id", "eq", Str(user), env["subject"], env);
    OneRuleMeans("owner_user_id", "eq", Str(owner), env["resource"], env);
    OneRuleMeans("name", "eq", Str(action), env["action"], env);
    OneRuleMeans("risk_level", "eq", Str(risk), env["context"], env);
    PlainText(user, env);
    PlainText(owner, env);
    PlainText(action, env);
    PlainText(risk, env);
  }

  predicate Plain(text: string) {
    text == "" || text[0] != '$'
  }
}
