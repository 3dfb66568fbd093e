/**
 The management request pipeline: what has to be decided before create, update and delete
 append an event.  The decision is the authorization gate's, made from the caller's grants;
 calls into a domain and into the event store are given by their answers.
 */
module CrudKernel {
  import opened AuthorizationGate
  import opened Options
  import opened Text
  import Grants
  import StringOrder
  import Ulid

  datatype Operation = Create | Get | List | Update | Delete

  datatype Relation =
    | Unset | Global | DeviceGroup | UserGroup | User | Device | UserOwned | TransitiveDefinition | Assignment
    | Unknown(code: nat)

  /** The object predicate passed to every domain read. */
  datatype ObjectScope = ObjectScope(global: bool, deviceGroups: seq<string>, userGroups: seq<string>, selfId: string)

  /** An answer of a domain callback. */
  datatype Reply = Yes | Invalid | Missing | Failed

  datatype ReadDenial = AsNotFound | AsDenied | OtherDenial

  /** One management domain: its metadata, which callbacks it has, and its scope function. */
  datatype Domain = Domain(
    name: string, permission: Grants.Permission, objectMessage: string,
    requests: map<Operation, string>, procedures: map<Operation, string>,
    projectorEvents: seq<string>, searchableColumns: seq<string>,
    relation: Relation, readDenial: ReadDenial,
    scopeOf: Grants.Reach -> Option<ObjectScope>,
    hasGet: bool, hasList: bool, hasCreateEvent: bool, hasUpdateEvent: bool, hasCredentialEvent: bool,
    hasDeleteEvent: bool, hasValidateScope: bool, hasAlreadyExists: bool)

  /** A request: whether it is of the right message type and valid, its id and its version. */
  datatype Request = Request(valid: bool, id: Option<string>, version: Option<nat>)

  /** What the callees answer during one call. */
  datatype World = World(
    get: (string, ObjectScope) -> Reply, validateScope: ObjectScope -> Reply, event: Reply, append: Reply)

  datatype Status = Done | InvalidArgument | NotFound | Refused | Unready | StoreError | Panic

  /** What a call did, in order. */
  datatype Effect = Looked(id: string) | CheckedScope | AppendedNew | AppendedAt(version: nat)

  const MAX_VERSION := 0x7fff_ffff_ffff_ffff

  // ---------------------------------------------------------------------
  // Registration
  // ---------------------------------------------------------------------

  predicate CreateNeedsValidation(r: Relation) { r == UserOwned || r == Assignment }

  predicate Mutates(op: Operation) { op == Create || op == Update || op == Delete }

  predicate BlankOrRepeated(values: seq<string>) {
    || (exists i :: 0 <= i < |values| && TrimSpace(values[i]) == "")
    || (exists i, j :: 0 <= i < j < |values| && values[i] == values[j])
  }

  predicate Complete(d: Domain) {
    && TrimSpace(d.name) != "" && d.permission != "" && d.objectMessage != ""
    && d.requests != map[] && |d.requests| == |d.procedures| && d.searchableColumns != []
    && d.relation != Unset
    && ((exists op :: op in d.requests && Mutates(op)) ==> d.projectorEvents != [])
    && (Create in d.requests ==>
          d.hasAlreadyExists && d.hasCreateEvent && d.hasGet && (CreateNeedsValidation(d.relation) ==> d.hasValidateScope))
    && (Get in d.requests ==> d.hasGet)
    && (List in d.requests ==> d.hasList)
    && (Update in d.requests ==> (d.hasUpdateEvent != d.hasCredentialEvent) && d.hasGet)
    && (Delete in d.requests ==> d.hasDeleteEvent)
  }

  predicate DenialFits(d: Domain) {
    var denies := Get in d.requests && (d.permission == "executions.read" || d.permission == "logs.read");
    d.readDenial != OtherDenial && (d.readDenial == AsDenied <==> denies)
  }

  /** Each operation has a request message and a procedure gated by the domain's permission. */
  predicate Gated(policies: Policies, d: Domain) {
    forall op :: op in d.requests || op in d.procedures ==>
      && op in d.requests && op in d.procedures && d.requests[op] != "" && d.procedures[op] != ""
      && d.procedures[op] in policies && policies[d.procedures[op]] == Policy(PermissionGated, d.permission)
  }

  /** What the kernel accepts at start-up. */
  predicate Registered(env: Deployment, d: Domain) {
    && Complete(d) && d.permission in env.catalog && DenialFits(d) && Gated(env.policies, d)
    && !BlankOrRepeated(d.projectorEvents) && !BlankOrRepeated(d.searchableColumns)
  }

  // ---------------------------------------------------------------------
  // The pipeline
  // ---------------------------------------------------------------------

  predicate Prepared(d: Domain, procedure: string, op: Operation, r: Request) {
    op in d.procedures && d.procedures[op] == procedure && r.valid
  }

  predicate ScopeAllows(relation: Relation, op: Operation, id: string, s: ObjectScope) {
    s.global ||
    match relation
    case DeviceGroup => id in s.deviceGroups
    case UserGroup => id in s.userGroups
    case User => s.selfId == id || (op != Create && s.userGroups != [])
    case Device => op != Create && s.deviceGroups != []
    case UserOwned => s.selfId != "" || s.userGroups != []
    case TransitiveDefinition =>
      !(op == Create || op == Update || op == Delete)
      && (s.selfId != "" || s.deviceGroups != [] || s.userGroups != [])
    case Assignment => s.selfId != "" || s.deviceGroups != [] || s.userGroups != []
    case _ => false
  }

  /** The scope of a decision for this domain, with the caller as self where self is in reach. */
  function ScopeOf(d: Domain, decision: Option<Decision>): Option<ObjectScope> {
    if decision.None? || decision.value.required != d.permission || d.permission !in decision.value.reaches then None
    else
      var reach := decision.value.reaches[d.permission];
      var scope := d.scopeOf(reach);
      if scope.None? then None
      else Some(if reach.self then scope.value.(selfId := decision.value.subject) else scope.value)
  }

  ghost function ScopeFor(env: Deployment, d: Domain, context: Context, procedure: string): Option<ObjectScope> {
    match Gate(env, context, procedure)
    case Allowed(after) => ScopeOf(d, after.decision)
    case _ => None
  }

  method Authorize(env: Deployment, d: Domain, op: Operation, id: string, context: Context, procedure: string)
    returns (scope: Option<ObjectScope>, status: Status)
    ensures scope.Some? <==>
              && ScopeFor(env, d, context, procedure).Some?
              && (id != "" ==> ScopeAllows(d.relation, op, id, ScopeFor(env, d, context, procedure).value))
    ensures scope.Some? ==> scope == ScopeFor(env, d, context, procedure)
    ensures scope.None? ==> status == NotFound || status == Unready || status == Refused
  {
    var answer := AuthorizeContext(env, context, procedure);
    if !answer.Allowed? {
      return None, Refused;
    }
    status := Unready;
    scope := ScopeOf(d, answer.context.decision);
    if scope.Some? && id != "" && !ScopeAllows(d.relation, op, id, scope.value) {
      return None, NotFound;
    }
  }

  function StoreStatus(a: Reply): Status {
    match a case Yes => Done case Missing => NotFound case _ => StoreError
  }

  function DomainStatus(a: Reply): Status {
    match a case Yes => Done case Invalid => InvalidArgument case Missing => NotFound case Failed => Unready
  }

  function EventStatus(a: Reply): Status {
    match a case Yes => Done case Invalid => InvalidArgument case _ => Unready
  }

  /** Some relations are settled only by reading the object through the caller's scope. */
  predicate NeedsLook(relation: Relation, id: string, s: ObjectScope) {
    && !s.global
    && (relation == User || relation == Device || relation == UserOwned || relation == Assignment)
    && !(relation == User && s.selfId == id)
  }

  method RequireTarget(d: Domain, id: string, s: ObjectScope, w: World) returns (status: Status, effects: seq<Effect>)
    ensures effects == if NeedsLook(d.relation, id, s) && d.hasGet then [Looked(id)] else []
    ensures status == if !NeedsLook(d.relation, id, s) then Done
                      else if !d.hasGet then Panic else StoreStatus(w.get(id, s))
  {
    if s.global || (d.relation == User && s.selfId == id)
       || (d.relation != User && d.relation != Device && d.relation != UserOwned && d.relation != Assignment)
    {
      return Done, [];
    }
    if !d.hasGet {
      return Panic, [];
    }
    return StoreStatus(w.get(id, s)), [Looked(id)];
  }

  method ValidateMutation(d: Domain, s: ObjectScope, w: World) returns (status: Status, effects: seq<Effect>)
    ensures effects == if d.hasValidateScope then [CheckedScope] else []
    ensures status == if d.hasValidateScope then DomainStatus(w.validateScope(s)) else Done
  {
    if !d.hasValidateScope {
      return Done, [];
    }
    return DomainStatus(w.validateScope(s)), [CheckedScope];
  }

  // ---------------------------------------------------------------------
  // Entitlement, by relation
  // ---------------------------------------------------------------------

  /** Who may change object id: global reach, direct reach, oneself, or whoever sees it
      through an indirect scope. */
  predicate MayChange(d: Domain, id: string, s: ObjectScope, w: World) {
    var seen := d.hasGet && w.get(id, s) == Yes;
    s.global ||
    match d.relation
    case DeviceGroup => id in s.deviceGroups
    case UserGroup => id in s.userGroups
    case User => s.selfId == id || (s.userGroups != [] && seen)
    case Device => s.deviceGroups != [] && seen
    case UserOwned => (s.selfId != "" || s.userGroups != []) && seen
    case Assignment => (s.selfId != "" || s.deviceGroups != [] || s.userGroups != []) && seen
    case _ => false
  }

  /** Who may create object id: global reach, direct reach, oneself, or whoever the domain's
      own validation lets. */
  predicate MayCreate(d: Domain, id: string, s: ObjectScope, w: World) {
    s.global ||
    match d.relation
    case DeviceGroup => id in s.deviceGroups
    case UserGroup => id in s.userGroups
    case User => s.selfId == id
    case UserOwned =>
      (s.selfId != "" || s.userGroups != []) && d.hasValidateScope && w.validateScope(s) == Yes
    case Assignment =>
      (s.selfId != "" || s.deviceGroups != [] || s.userGroups != []) && d.hasValidateScope && w.validateScope(s) == Yes
    case _ => false
  }

  predicate ScopeAccepted(d: Domain, s: ObjectScope, w: World) { d.hasValidateScope ==> w.validateScope(s) == Yes }

  /** A well-formed versioned request for which there is a decision with a scope. */
  ghost predicate Decided(env: Deployment, d: Domain, procedure: string, op: Operation, r: Request, context: Context) {
    && Prepared(d, procedure, op, r) && r.id.Some?
    && (op != Create ==> r.version.Some? && r.version.value <= MAX_VERSION)
    && ScopeFor(env, d, context, procedure).Some?
  }

  /** The checks made with a scope, one by one. */
  predicate Passes(d: Domain, op: Operation, id: string, s: ObjectScope, w: World) {
    && (id != "" ==> ScopeAllows(d.relation, op, id, s))
    && (op != Create && NeedsLook(d.relation, id, s) ==> d.hasGet && w.get(id, s) == Yes)
    && (op != Delete ==> ScopeAccepted(d, s, w))
    && w.event == Yes
  }

  /** When the code appends. */
  ghost predicate Appends(env: Deployment, d: Domain, procedure: string, op: Operation, r: Request, context: Context, w: World) {
    && Decided(env, d, procedure, op, r, context)
    && Passes(d, op, r.id.value, ScopeFor(env, d, context, procedure).value, w)
  }

  /** A read through the caller's scope comes before the append wherever the relation needs one. */
  predicate LookedFirst(d: Domain, id: string, s: ObjectScope, effects: seq<Effect>) {
    NeedsLook(d.relation, id, s) ==> effects != [] && effects[0] == Looked(id)
  }

  /** What create does once there is a scope. */
  method CreateWith(d: Domain, id: string, s: ObjectScope, w: World) returns (status: Status, effects: seq<Effect>)
    requires id != "" ==> ScopeAllows(d.relation, Create, id, s)
    ensures AppendedNew in effects <==> Passes(d, Create, id, s, w)
    ensures AppendedNew in effects && d.hasValidateScope ==> effects == [CheckedScope, AppendedNew]
    ensures status != Panic && forall v :: AppendedAt(v) !in effects
  {
    status, effects := ValidateMutation(d, s, w);
    if status != Done {
      return;
    }
    if w.event != Yes {
      return EventStatus(w.event), effects;
    }
    effects := effects + [AppendedNew];
    if w.append != Yes {
      return StoreStatus(w.append), effects;
    }
    return StoreStatus(w.get(id, s)), effects;
  }

  method DoCreate(env: Deployment, d: Domain, procedure: string, r: Request, context: Context, w: World)
    returns (status: Status, effects: seq<Effect>)
    ensures AppendedNew in effects <==> Appends(env, d, procedure, Create, r, context, w)
    ensures AppendedNew in effects && d.hasValidateScope ==> effects == [CheckedScope, AppendedNew]
    ensures status != Panic && forall v :: AppendedAt(v) !in effects
  {
    status, effects := Unready, [];
    if !(Create in d.procedures && d.procedures[Create] == procedure) {
      return;
    }
    if !r.valid || r.id.None? {
      return InvalidArgument, [];
    }
    var scope, refused := Authorize(env, d, Create, r.id.value, context, procedure);
    if scope.None? {
      return refused, [];
    }
    status, effects := CreateWith(d, r.id.value, scope.value, w);
  }

  /** What update does once there is a scope.  Registration asks a domain with an update for a
      get. */
  method UpdateWith(d: Domain, id: string, version: nat, s: ObjectScope, w: World)
    returns (status: Status, effects: seq<Effect>)
    requires id != "" ==> ScopeAllows(d.relation, Update, id, s)
    ensures (exists v :: AppendedAt(v) in effects) <==> Passes(d, Update, id, s, w)
    ensures Passes(d, Update, id, s, w) ==> AppendedAt(version) in effects && LookedFirst(d, id, s, effects)
    ensures AppendedNew !in effects && (d.hasGet ==> status != Panic)
  {
    var more;
    status, effects := RequireTarget(d, id, s, w);
    if status != Done {
      return;
    }
    status, more := ValidateMutation(d, s, w);
    effects := effects + more;
    if status != Done {
      return;
    }
    if w.event != Yes {
      return EventStatus(w.event), effects;
    }
    effects := effects + [AppendedAt(version)];
    if w.append != Yes {
      return StoreStatus(w.append), effects;
    }
    if !d.hasGet {
      return Panic, effects;
    }
    return StoreStatus(w.get(id, s)), effects;
  }

  method DoUpdate(env: Deployment, d: Domain, procedure: string, r: Request, context: Context, w: World)
    returns (status: Status, effects: seq<Effect>)
    ensures (exists v :: AppendedAt(v) in effects) <==> Appends(env, d, procedure, Update, r, context, w)
    ensures Appends(env, d, procedure, Update, r, context, w) ==>
              AppendedAt(r.version.value) in effects
              && LookedFirst(d, r.id.value, ScopeFor(env, d, context, procedure).value, effects)
    ensures AppendedNew !in effects && (Registered(env, d) ==> status != Panic)
  {
    status, effects := Unready, [];
    if !(Update in d.procedures && d.procedures[Update] == procedure) {
      return;
    }
    if !r.valid || r.id.None? || r.version.None? || r.version.value > MAX_VERSION {
      return InvalidArgument, [];
    }
    var scope, refused := Authorize(env, d, Update, r.id.value, context, procedure);
    if scope.None? {
      return refused, [];
    }
    status, effects := UpdateWith(d, r.id.value, r.version.value, scope.value, w);
  }

  /** Registration does not ask a domain with a delete for a get; without one, a scoped delete
      that has to look at its target cannot. */
  ghost predicate PanicsOnDelete(env: Deployment, d: Domain, procedure: string, r: Request, context: Context) {
    && !d.hasGet && Decided(env, d, procedure, Delete, r, context)
    && var id, s := r.id.value, ScopeFor(env, d, context, procedure).value;
       (id != "" ==> ScopeAllows(d.relation, Delete, id, s)) && NeedsLook(d.relation, id, s)
  }

  /** What delete does once there is a scope. */
  method DeleteWith(d: Domain, id: string, version: nat, s: ObjectScope, w: World)
    returns (status: Status, effects: seq<Effect>)
    requires id != "" ==> ScopeAllows(d.relation, Delete, id, s)
    ensures (exists v :: AppendedAt(v) in effects) <==> Passes(d, Delete, id, s, w)
    ensures Passes(d, Delete, id, s, w) ==> AppendedAt(version) in effects && LookedFirst(d, id, s, effects)
    ensures AppendedNew !in effects
    ensures status == Panic <==> !d.hasGet && NeedsLook(d.relation, id, s)
  {
    status, effects := RequireTarget(d, id, s, w);
    if status != Done {
      return;
    }
    if w.event != Yes {
      return EventStatus(w.event), effects;
    }
    effects := effects + [AppendedAt(version)];
    return StoreStatus(w.append), effects;
  }

  method DoDelete(env: Deployment, d: Domain, procedure: string, r: Request, context: Context, w: World)
    returns (status: Status, effects: seq<Effect>)
    ensures (exists v :: AppendedAt(v) in effects) <==> Appends(env, d, procedure, Delete, r, context, w)
    ensures Appends(env, d, procedure, Delete, r, context, w) ==>
              AppendedAt(r.version.value) in effects
              && LookedFirst(d, r.id.value, ScopeFor(env, d, context, procedure).value, effects)
    ensures AppendedNew !in effects
    ensures status == Panic <==> PanicsOnDelete(env, d, procedure, r, context)
  {
    status, effects := Unready, [];
    if !(Delete in d.procedures && d.procedures[Delete] == procedure) {
      return;
    }
    if !r.valid || r.id.None? || r.version.None? || r.version.value > MAX_VERSION {
      return InvalidArgument, [];
    }
    var scope, refused := Authorize(env, d, Delete, r.id.value, context, procedure);
    if scope.None? {
      return refused, [];
    }
    status, effects := DeleteWith(d, r.id.value, r.version.value, scope.value, w);
  }

  // ---------------------------------------------------------------------
  // The checks amount to the entitlement
  // ---------------------------------------------------------------------

  predicate Entitled(d: Domain, op: Operation, id: string, s: ObjectScope, w: World) {
    if op == Create then MayCreate(d, id, s, w) else MayChange(d, id, s, w)
  }

  lemma PassesExactlyIfEntitled(d: Domain, op: Operation, id: string, s: ObjectScope, w: World)
    requires Complete(d) && Mutates(op) && op in d.requests && id != ""
    ensures Passes(d, op, id, s, w) <==>
              Entitled(d, op, id, s, w) && (op != Delete ==> ScopeAccepted(d, s, w)) && w.event == Yes
  {
  }

  /** A decided request that names an object is appended exactly if the caller is entitled to
      it, the domain's own validation agrees and there is an event. */
  lemma AppendsExactlyIfEntitled(env: Deployment, d: Domain, procedure: string, op: Operation, r: Request, context: Context, w: World)
    requires Registered(env, d) && Mutates(op) && Decided(env, d, procedure, op, r, context) && r.id.value != ""
    ensures var s := ScopeFor(env, d, context, procedure).value;
            Appends(env, d, procedure, op, r, context, w) <==>
              Entitled(d, op, r.id.value, s, w) && (op != Delete ==> ScopeAccepted(d, s, w)) && w.event == Yes
  {
    assert op in d.requests;
    PassesExactlyIfEntitled(d, op, r.id.value, ScopeFor(env, d, context, procedure).value, w);
  }

  // ---------------------------------------------------------------------
  // And the entitlement goes back to a grant
  // ---------------------------------------------------------------------

  /** A domain's scope is no wider than the reach it is made from. */
  ghost predicate Narrows(d: Domain) {
    forall reach :: d.scopeOf(reach).Some? ==>
      var s := d.scopeOf(reach).value;
      && (s.global ==> reach.global) && s.selfId == ""
      && (forall id :: id in s.deviceGroups ==> id in reach.deviceGroups)
      && (forall id :: id in s.userGroups ==> id in reach.userGroups)
  }

  function GlobalScope(reach: Grants.Reach): Option<ObjectScope> {
    if !reach.global then None else Some(ObjectScope(true, [], [], ""))
  }

  function ResourceScope(reach: Grants.Reach): Option<ObjectScope> {
    Some(ObjectScope(reach.global, reach.deviceGroups, reach.userGroups, ""))
  }

  function DeviceScope(reach: Grants.Reach): Option<ObjectScope> {
    Some(ObjectScope(reach.global, reach.deviceGroups, [], ""))
  }

  function UserScope(reach: Grants.Reach): Option<ObjectScope> {
    Some(ObjectScope(reach.global, [], reach.userGroups, ""))
  }

  /** All scope functions in use narrow. */
  lemma ScopesInUseNarrow(d: Domain)
    requires d.scopeOf == GlobalScope || d.scopeOf == ResourceScope || d.scopeOf == DeviceScope || d.scopeOf == UserScope
    ensures Narrows(d)
  {
  }

  /** What grant scope covers object id for a caller by itself. */
  predicate CoversDirectly(relation: Relation, scope: Grants.Scope, id: string, caller: string) {
    || scope.kind.Global?
    || (relation == DeviceGroup && scope.kind.DeviceGroups? && id in scope.ids)
    || (relation == UserGroup && scope.kind.UserGroups? && id in scope.ids)
    || (relation == User && scope.kind.Self? && id == caller)
  }

  /** The object was read through the caller's scope, or the domain's validation of a create
      accepted it. */
  predicate SettledOtherwise(d: Domain, op: Operation, id: string, s: ObjectScope, w: World) {
    if op == Create then CreateNeedsValidation(d.relation) && d.hasValidateScope && w.validateScope(s) == Yes
    else NeedsLook(d.relation, id, s) && w.get(id, s) == Yes
  }

  lemma DirectGrant(env: Deployment, d: Domain, decision: Decision, id: string, s: ObjectScope)
    returns (g: Grants.Grant, scope: Grants.Scope)
    requires Narrows(d) && ScopeOf(d, Some(decision)) == Some(s)
    requires env.grantsOf(decision.subject).Some?
    requires Grants.Resolved(env.catalog, env.grantsOf(decision.subject).value, decision.reaches)
    requires || s.global || (d.relation == DeviceGroup && id in s.deviceGroups)
             || (d.relation == UserGroup && id in s.userGroups) || (d.relation == User && s.selfId == id && id != "")
    ensures g in env.grantsOf(decision.subject).value && Grants.Gives(env.catalog, g, d.permission, scope)
    ensures CoversDirectly(d.relation, scope, id, decision.subject)
  {
    var grants := env.grantsOf(decision.subject).value;
    assert d.scopeOf(decision.reaches[d.permission]).Some?;
    var kind := if s.global then Grants.Global else if d.relation == DeviceGroup then Grants.DeviceGroups
                else if d.relation == UserGroup then Grants.UserGroups else Grants.Self;
    g, scope := Grants.ReachFromGrant(env.catalog, grants, decision.reaches, d.permission, kind, id);
  }

  /** Every append of a named object goes back to a grant of the caller that gives the domain's
      permission, and within a token's permissions: the grant covers the object by itself, or a
      read of the object through the caller's scope succeeded before, or the domain's own
      validation accepted the creation. */
  lemma AppendNeedsGrant(env: Deployment, d: Domain, procedure: string, op: Operation, r: Request, context: Context, w: World)
    returns (g: Grants.Grant, scope: Grants.Scope)
    requires Registered(env, d) && Narrows(d) && Genuine(env, context) && Mutates(op)
    requires Appends(env, d, procedure, op, r, context, w) && r.id.value != ""
    ensures context.principal.Some? && TokenAllows(context.principal.value, d.permission)
    ensures var caller := context.principal.value.subject;
            && env.grantsOf(caller).Some? && g in env.grantsOf(caller).value
            && Grants.Gives(env.catalog, g, d.permission, scope)
            && (|| CoversDirectly(d.relation, scope, r.id.value, caller)
                || SettledOtherwise(d, op, r.id.value, ScopeFor(env, d, context, procedure).value, w))
  {
    assert op in d.requests && d.procedures[op] == procedure;
    DecisionMeans(env, context, procedure);
    var decision := Gate(env, context, procedure).context.decision.value;
    var id, s := r.id.value, ScopeFor(env, d, context, procedure).value;
    if || s.global || (d.relation == DeviceGroup && id in s.deviceGroups)
       || (d.relation == UserGroup && id in s.userGroups) || (d.relation == User && s.selfId == id)
    {
      g, scope := DirectGrant(env, d, decision, id, s);
    } else {
      var grants := env.grantsOf(decision.subject).value;
      Grants.PermissionFromGrant(env.catalog, grants, decision.reaches, d.permission);
      g, scope :| g in grants && Grants.Gives(env.catalog, g, d.permission, scope);
    }
  }

  // ---------------------------------------------------------------------
  // Where it fails: empty ids, and a delete without a get
  // ---------------------------------------------------------------------

  const ID: string := seq(26, _ => '0')

  const MANAGE: Grants.Permission := "devices.manage"

  const CALLER := Context(Some(Principal(ID, "audit", None)), None)

  /** One grant of one permission for one device group. */
  const GRANT := Grants.Grant(ID, Grants.User, ID, ID, [MANAGE], Grants.Scope(Grants.DeviceGroups, [ID]))

  const SITE := Deployment(
    map[MANAGE := Grants.Confinable], map["/do" := Policy(PermissionGated, MANAGE)],
    (subject: string) => if subject == ID then Some([GRANT]) else None)

  lemma GrantIsNormal()
    ensures Grants.NormalizeGrant(SITE.catalog, GRANT) == Some(GRANT)
  {
    assert Ulid.Upper(ID) == ID;
    assert Grants.CanonicalIds([ID]) == [ID];
    assert StringOrder.Sort([ID]) == [ID] && StringOrder.Sort([MANAGE]) == [MANAGE];
  }

  /** The caller of the site passes the gate with that device group and nothing else in reach. */
  lemma CallerReachesGroup()
    ensures Gate(SITE, CALLER, "/do").Allowed?
    ensures var decision := Gate(SITE, CALLER, "/do").context.decision;
            && decision.Some? && decision.value.required == MANAGE && MANAGE in decision.value.reaches
            && var reach := decision.value.reaches[MANAGE];
               !reach.global && !reach.self && reach.deviceGroups != [] && "" !in reach.deviceGroups
  {
    GrantIsNormal();
    NotBlank("/do");
    Grants.NormalizeAllExactly(SITE.catalog, [GRANT]);
    assert Grants.Gives(SITE.catalog, GRANT, MANAGE, GRANT.scope);
    assert GRANT in SITE.grantsOf(ID).value;
    assert Ulid.Upper(ID) == ID;
    AllowedExactlyToHolders(SITE, CALLER, "/do");
    DecisionMeans(SITE, CALLER, "/do");
    OnlyGroup(Gate(SITE, CALLER, "/do").context.decision.value.reaches);
  }

  lemma OnlyGroup(reaches: Grants.Reaches)
    requires Grants.Resolved(SITE.catalog, [GRANT], reaches) && MANAGE in reaches
    ensures !reaches[MANAGE].global && !reaches[MANAGE].self
    ensures reaches[MANAGE].deviceGroups != [] && "" !in reaches[MANAGE].deviceGroups
  {
    GrantIsNormal();
    var g, scope, reach := GRANT, GRANT.scope, reaches[MANAGE];
    if reach.global {
      g, scope := Grants.ReachFromGrant(SITE.catalog, [GRANT], reaches, MANAGE, Grants.Global, "");
    } else if reach.self {
      g, scope := Grants.ReachFromGrant(SITE.catalog, [GRANT], reaches, MANAGE, Grants.Self, "");
    } else if reach.userGroups != [] {
      g, scope := Grants.ReachFromGrant(SITE.catalog, [GRANT], reaches, MANAGE, Grants.UserGroups, reach.userGroups[0]);
    }
    assert scope == GRANT.scope;
    Grants.ResolvedReachIsValid(SITE.catalog, [GRANT], reaches, MANAGE);
  }

  ghost predicate Guarded(id: string, op: Operation) {
    forall env: Deployment, d: Domain, procedure: string, r: Request, context: Context, w: World ::
      Registered(env, d) && r.id == Some(id) && Appends(env, d, procedure, op, r, context, w) ==>
        Entitled(d, op, id, ScopeFor(env, d, context, procedure).value, w)
  }

  /** A domain of the site with one operation. */
  function SiteDomain(op: Operation, relation: Relation, hasGet: bool): Domain {
    Domain("things", MANAGE, "thing", map[op := "request"], map[op := "/do"], ["event"], ["name"], relation, AsNotFound,
           DeviceScope, hasGet, true, true, true, false, true, false, true)
  }

  lemma SiteDomainIsRegistered(op: Operation, relation: Relation, hasGet: bool)
    requires Mutates(op) && (op != Delete ==> hasGet)
    requires relation != Unset && !CreateNeedsValidation(relation)
    ensures Registered(SITE, SiteDomain(op, relation, hasGet))
  {
    SiteDomainIsComplete(op, relation, hasGet);
    SiteDomainIsGated(op, relation, hasGet);
    OneIsFine("event");
    OneIsFine("name");
  }

  lemma OneIsFine(value: string)
    requires value != "" && !IsSpace(value[0])
    ensures !BlankOrRepeated([value])
  {
    NotBlank(value);
  }

  lemma SiteDomainIsGated(op: Operation, relation: Relation, hasGet: bool)
    ensures Gated(SITE.policies, SiteDomain(op, relation, hasGet))
  {
  }

  lemma SiteDomainIsComplete(op: Operation, relation: Relation, hasGet: bool)
    requires Mutates(op) && (op != Delete ==> hasGet)
    requires relation != Unset && !CreateNeedsValidation(relation)
    ensures Complete(SiteDomain(op, relation, hasGet))
  {
    NotBlank("things");
    assert op in SiteDomain(op, relation, hasGet).requests;
  }

  /** The caller's scope in any domain of the site. */
  lemma CallerScope(op: Operation, relation: Relation, hasGet: bool)
    ensures var s := ScopeFor(SITE, SiteDomain(op, relation, hasGet), CALLER, "/do");
            s.Some? && !s.value.global && s.value.deviceGroups != [] && "" !in s.value.deviceGroups
  {
    CallerReachesGroup();
  }

  lemma EmptyIdPasses(op: Operation, s: ObjectScope, w: World)
    requires !s.global && "" !in s.deviceGroups && w.event == Yes
    ensures var d := SiteDomain(op, DeviceGroup, true); Passes(d, op, "", s, w) && !Entitled(d, op, "", s, w)
  {
  }

  lemma Unguarded(env: Deployment, d: Domain, procedure: string, op: Operation, r: Request, context: Context, w: World)
    requires Registered(env, d) && r.id == Some("") && Appends(env, d, procedure, op, r, context, w)
    requires !Entitled(d, op, "", ScopeFor(env, d, context, procedure).value, w)
    ensures !Guarded("", op)
  {
  }

  lemma EmptyIdIsUnguarded(op: Operation)
    requires Mutates(op)
    ensures !Guarded("", op)
  {
    var d, w := SiteDomain(op, DeviceGroup, true), World((i, s) => Missing, s => Missing, Yes, Yes);
    SiteDomainIsRegistered(op, DeviceGroup, true);
    CallerScope(op, DeviceGroup, true);
    EmptyIdPasses(op, ScopeFor(SITE, d, CALLER, "/do").value, w);
    Unguarded(SITE, d, "/do", op, Request(true, Some(""), Some(0)), CALLER, w);
  }

  /** No append without entitlement, for every accepted domain and whatever the callees
      answer: this holds of an id exactly if it is not empty.  The kernel leaves it to request
      validation to keep empty ids out. */
  lemma GuardedExactlyIfNamed(id: string, op: Operation)
    requires Mutates(op)
    ensures Guarded(id, op) <==> id != ""
  {
    if id == "" {
      EmptyIdIsUnguarded(op);
    } else {
      forall env: Deployment, d: Domain, procedure: string, r: Request, context: Context, w: World |
        Registered(env, d) && r.id == Some(id) && Appends(env, d, procedure, op, r, context, w)
        ensures Entitled(d, op, id, ScopeFor(env, d, context, procedure).value, w)
      {
        AppendsExactlyIfEntitled(env, d, procedure, op, r, context, w);
      }
    }
  }

  /** A domain accepted with a delete and without a get: a caller confined to a device group
      makes its delete panic. */
  lemma AcceptedDeleteCanPanic(id: string, version: nat)
    requires version <= MAX_VERSION
    ensures var d := SiteDomain(Delete, Device, false);
            && Registered(SITE, d)
            && PanicsOnDelete(SITE, d, "/do", Request(true, Some(id), Some(version)), CALLER)
  {
    SiteDomainIsRegistered(Delete, Device, false);
    CallerScope(Delete, Device, false);
  }
}
