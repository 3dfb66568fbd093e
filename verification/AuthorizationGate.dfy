/**
 The authorization gate: from an authenticated context and the caller's grants to the
 decision that permission handlers act on.  A context that already carries a decision, as
 after the interceptor, is checked again instead of resolved again.
 */
module AuthorizationGate {
  import opened Grants
  import opened Options
  import opened Text
  import Ulid

  datatype ProcedureClass = Public | AltAuth | PermissionGated | OtherClass

  datatype Policy = Policy(kind: ProcedureClass, permission: Permission)

  type Policies = map<string, Policy>

  /** A token principal carries the permissions of its token. */
  datatype Principal = Principal(subject: string, audit: string, token: Option<set<Permission>>)

  datatype Decision = Decision(subject: string, audit: string, required: Permission, reaches: Reaches)

  datatype Context = Context(principal: Option<Principal>, decision: Option<Decision>)

  datatype Answer = Allowed(context: Context) | Denied | Unauthenticated | Unavailable

  /** The deployment: the permission catalog, the procedure policies, and the grants the store
      lists for a subject, nothing for one that is missing or disabled. */
  datatype Deployment = Deployment(catalog: Catalog, policies: Policies, grantsOf: string -> Option<seq<Grant>>)

  predicate ValidPolicy(catalog: Catalog, procedure: string, policy: Policy) {
    && TrimSpace(procedure) != "" && procedure != "" && procedure[0] == '/'
    && match policy.kind
       case PermissionGated => policy.permission in catalog
       case OtherClass => false
       case _ => policy.permission == ""
  }

  predicate ValidSubject(subject: string) { PathId(subject) && subject == Ulid.Upper(subject) }

  predicate TokenAllows(p: Principal, permission: Permission) {
    p.token.Some? ==> permission in p.token.value
  }

  /** A decision made earlier is only good for the same caller and permission. */
  predicate Reusable(catalog: Catalog, d: Decision, p: Principal, permission: Permission) {
    && d.subject == p.subject && d.audit == p.audit && d.required == permission
    && permission in d.reaches && ValidReach(catalog, permission, d.reaches[permission])
  }

  ghost function Resolution(env: Deployment, subject: string): Option<Reaches> {
    match env.grantsOf(subject) case None => None case Some(grants) => EffectiveReaches(env.catalog, grants)
  }

  ghost function Gate(env: Deployment, context: Context, procedure: string): Answer {
    if procedure !in env.policies then Denied
    else
      var policy := env.policies[procedure];
      if !ValidPolicy(env.catalog, procedure, policy) then Unavailable
      else if policy.kind != PermissionGated then Allowed(context)
      else if context.principal.None? || !ValidSubject(context.principal.value.subject) then Unauthenticated
      else
        var p := context.principal.value;
        if !TokenAllows(p, policy.permission) then Denied
        else if context.decision.Some? then
          if Reusable(env.catalog, context.decision.value, p, policy.permission) then Allowed(context) else Unavailable
        else
          match Resolution(env, p.subject)
          case None => Unavailable
          case Some(reaches) =>
            if policy.permission !in reaches then Denied
            else if !ValidReach(env.catalog, policy.permission, reaches[policy.permission]) then Unavailable
            else Allowed(context.(decision := Some(Decision(p.subject, p.audit, policy.permission, reaches))))
  }

  method AuthorizeContext(env: Deployment, context: Context, procedure: string) returns (answer: Answer)
    ensures answer == Gate(env, context, procedure)
  {
    if procedure !in env.policies {
      return Denied;
    }
    var policy := env.policies[procedure];
    if !ValidPolicy(env.catalog, procedure, policy) {
      return Unavailable;
    }
    match policy.kind {
      case Public => return Allowed(context);
      case AltAuth => return Allowed(context);
      case PermissionGated =>
      case OtherClass => return Unavailable;
    }
    if context.principal.None? || !ValidSubject(context.principal.value.subject) {
      return Unauthenticated;
    }
    var p := context.principal.value;
    if !TokenAllows(p, policy.permission) {
      return Denied;
    }
    if context.decision.Some? {
      if !Reusable(env.catalog, context.decision.value, p, policy.permission) {
        return Unavailable;
      }
      return Allowed(context);
    }
    var grants := env.grantsOf(p.subject);
    if grants.None? {
      return Unavailable;
    }
    var effective := Resolve(env.catalog, grants.value);
    if effective.None? {
      return Unavailable;
    }
    var reaches := effective.value.1;
    assert Resolution(env, p.subject) == Some(reaches) by {
      SummaryUnique(reaches, EffectiveReaches(env.catalog, grants.value).value,
                    Contributions(env.catalog, NormalizeAll(env.catalog, grants.value).value));
    }
    if policy.permission !in reaches {
      return Denied;
    }
    if !ValidReach(env.catalog, policy.permission, reaches[policy.permission]) {
      return Unavailable;
    }
    return Allowed(context.(decision := Some(Decision(p.subject, p.audit, policy.permission, reaches))));
  }

  /** A decision in the context was made by this gate from the caller's grants. */
  ghost predicate Genuine(env: Deployment, context: Context) {
    context.decision.Some? ==>
      && context.principal.Some? && context.decision.value.subject == context.principal.value.subject
      && env.grantsOf(context.decision.value.subject).Some?
      && Resolved(env.catalog, env.grantsOf(context.decision.value.subject).value, context.decision.value.reaches)
  }

  /** The gate keeps contexts genuine, starting from one without a decision. */
  lemma GateKeepsGenuine(env: Deployment, context: Context, procedure: string)
    requires Genuine(env, context) && Gate(env, context, procedure).Allowed?
    ensures Genuine(env, Gate(env, context, procedure).context)
  {
  }

  /** The caller holds a grant that gives the permission, and a token, if used, covers it. */
  ghost predicate Holds(env: Deployment, p: Principal, permission: Permission) {
    && TokenAllows(p, permission) && env.grantsOf(p.subject).Some?
    && NormalizeAll(env.catalog, env.grantsOf(p.subject).value).Some?
    && exists g, scope :: g in env.grantsOf(p.subject).value && Gives(env.catalog, g, permission, scope)
  }

  /** A gated procedure is allowed to exactly the callers that hold its permission. */
  lemma AllowedExactlyToHolders(env: Deployment, context: Context, procedure: string)
    requires procedure in env.policies && ValidPolicy(env.catalog, procedure, env.policies[procedure])
    requires env.policies[procedure].kind == PermissionGated
    requires context.principal.Some? && ValidSubject(context.principal.value.subject) && context.decision == None
    ensures Gate(env, context, procedure).Allowed? <==> Holds(env, context.principal.value, env.policies[procedure].permission)
  {
    var p, permission := context.principal.value, env.policies[procedure].permission;
    var grants := env.grantsOf(p.subject);
    if grants.Some? && EffectiveReaches(env.catalog, grants.value).Some? {
      var reaches := EffectiveReaches(env.catalog, grants.value).value;
      PermissionFromGrant(env.catalog, grants.value, reaches, permission);
      if permission in reaches {
        ResolvedReachIsValid(env.catalog, grants.value, reaches, permission);
      }
    }
  }

  /** Asking again in the same request changes nothing. */
  lemma GateIdempotent(env: Deployment, context: Context, procedure: string)
    requires Gate(env, context, procedure).Allowed?
    ensures Gate(env, Gate(env, context, procedure).context, procedure) == Gate(env, context, procedure)
  {
    var policy, after := env.policies[procedure], Gate(env, context, procedure).context;
    if policy.kind == PermissionGated {
      assert after.principal == context.principal;
      assert Reusable(env.catalog, after.decision.value, after.principal.value, policy.permission);
    }
  }

  /** What a gated procedure's decision says. */
  lemma DecisionMeans(env: Deployment, context: Context, procedure: string)
    requires Genuine(env, context) && Gate(env, context, procedure).Allowed?
    requires env.policies[procedure].kind == PermissionGated
    ensures context.principal.Some?
    ensures var p, permission := context.principal.value, env.policies[procedure].permission;
            var after := Gate(env, context, procedure).context;
            && after.principal == context.principal && after.decision.Some?
            && TokenAllows(p, permission)
            && after.decision.value.subject == p.subject && after.decision.value.required == permission
            && permission in after.decision.value.reaches
            && env.grantsOf(p.subject).Some?
            && Resolved(env.catalog, env.grantsOf(p.subject).value, after.decision.value.reaches)
  {
    GateKeepsGenuine(env, context, procedure);
  }
}
