/**
 The agent's confirm-until-acknowledged protocol. A credential is stored
 durably together with the trust bundles it adopted and, per bundle, a
 confirmation that the control plane has not acknowledged yet. Enrollments and
 renewals load a copy, send confirmations, clear them in the store and replace
 the credential; each remote call, each store operation and a crash is one step.
 */
module TrustConfirmation {
  import opened Options
  import opened TrustContinuity

  datatype Class = AgentClass | GatewayClass

  datatype Claim = Claim(generation: nat, revision: nat)

  datatype Credential = Credential(
    certificate: Der,
    issuer: Der,
    gatewayRoot: Der,
    agent: Bundle,
    gateway: Bundle,
    pendingAgent: Option<Claim>,
    pendingGateway: Option<Claim>)

  function Trust(c: Credential, class_: Class): Bundle {
    if class_ == AgentClass then c.agent else c.gateway
  }

  function Pending(c: Credential, class_: Class): Option<Claim> {
    if class_ == AgentClass then c.pendingAgent else c.pendingGateway
  }

  function Cleared(c: Credential, class_: Class): Credential {
    if class_ == AgentClass then c.(pendingAgent := None) else c.(pendingGateway := None)
  }

  function ClaimFor(b: Bundle): Option<Claim> {
    Some(Claim(b.generation, b.revision))
  }

  // ---------------------------------------------------------------------
  // Building credentials
  // ---------------------------------------------------------------------

  /** A response of the control plane that carries both trust bundles. */
  datatype Response = Response(certificate: Der, agent: Bundle, gateway: Bundle)

  /** The first published root that signed the certificate. */
  function IssuingRoot(pki: Pki, certificate: Der, roots: seq<Der>): Option<Der> {
    if roots == [] then None
    else if pki.issued(roots[0], certificate) then Some(roots[0])
    else IssuingRoot(pki, certificate, roots[1..])
  }

  lemma {:induction false} IssuingRootSound(pki: Pki, certificate: Der, roots: seq<Der>)
    ensures match IssuingRoot(pki, certificate, roots)
            case None => forall r :: r in roots ==> !pki.issued(r, certificate)
            case Some(r) => r in roots && pki.issued(r, certificate)
  {
    if roots != [] {
      IssuingRootSound(pki, certificate, roots[1..]);
      assert forall r :: r in roots <==> r == roots[0] || r in roots[1..];
    }
  }

  ghost predicate Separated(pki: Pki, agent: Bundle, gateway: Bundle) {
    forall a, g :: a in agent.roots && g in gateway.roots ==> pki.distinct(a, g)
  }

  /** The checks a response passes before anything is stored. */
  ghost predicate Adoptable(pki: Pki, agent: Bundle, gateway: Bundle, r: Response, now: Time) {
    && Accepts(pki, agent, r.agent, now) && Accepts(pki, gateway, r.gateway, now)
    && Separated(pki, r.agent, r.gateway)
    && IssuingRoot(pki, r.certificate, r.agent.roots).Some?
  }

  function Enrolled(pki: Pki, r: Response): Credential
    requires IssuingRoot(pki, r.certificate, r.agent.roots).Some? && |r.gateway.roots| > 0
  {
    Credential(r.certificate, IssuingRoot(pki, r.certificate, r.agent.roots).value, r.gateway.roots[0],
               r.agent, r.gateway, ClaimFor(r.agent), ClaimFor(r.gateway))
  }

  /** A credential of a control plane that publishes no trust bundles. */
  function Legacy(certificate: Der, issuer: Der, gatewayRoot: Der): Credential {
    Credential(certificate, issuer, gatewayRoot, ABSENT, ABSENT, None, None)
  }

  /** A renewal always re-confirms the agent bundle, because the confirmation is
      bound to the certificate, and the gateway bundle only when it changed. */
  function Renewed(pki: Pki, current: Credential, r: Response): Credential
    requires IssuingRoot(pki, r.certificate, r.agent.roots).Some? && |r.gateway.roots| > 0
  {
    Enrolled(pki, r).(pendingGateway := if r.gateway == current.gateway then None else ClaimFor(r.gateway))
  }

  /** What the store's content is checked for on every load. */
  ghost predicate Loadable(pki: Pki, c: Credential, now: Time) {
    if c.agent.generation == 0 && c.agent.roots == [] && c.gateway.generation == 0 && c.gateway.roots == []
    then c.pendingAgent == None && c.pendingGateway == None
    else
      && WellFormed(pki, c.agent, now) && WellFormed(pki, c.gateway, now)
      && c.issuer in c.agent.roots && c.gatewayRoot in c.gateway.roots
      && Separated(pki, c.agent, c.gateway)
  }

  // ---------------------------------------------------------------------
  // The state machine
  // ---------------------------------------------------------------------

  datatype Stage = Confirming(class_: Class) | Clearing(class_: Class) | Requesting

  /** One running Enroll or Renew call with its in-memory copy. */
  datatype Activity = Activity(renewal: bool, replaced: bool, local: Credential, at: Stage, failed: bool)

  datatype Ack = Ack(class_: Class, generation: nat, revision: nat)

  datatype State = State(durable: Option<Credential>, confirmed: set<Ack>, activities: map<nat, Activity>)

  const INITIAL := State(None, {}, map[])

  datatype ReplyOutcome = Refused | LostReply | Acknowledged
  datatype StoreOutcome = Stored | Unwritten | WrittenUnreported

  datatype Step =
    | Enroll(id: nat, response: Response, pin: Option<nat>, now: Time, stored: StoreOutcome)
    | EnrollLegacy(certificate: Der, issuer: Der, gatewayRoot: Der)
    | Resume(id: nat, now: Time)
    | Renew(id: nat, now: Time)
    | Skip(id: nat)
    | Confirm(id: nat, reply: ReplyOutcome)
    | Clear(id: nat, stored: StoreOutcome)
    | Replace(id: nat, response: Response, now: Time, stored: StoreOutcome)
    | ReplaceLegacy(id: nat, certificate: Der, stored: StoreOutcome)
    | Abandon(id: nat)
    | Crash

  predicate Running(s: State, id: nat) { id in s.activities }

  ghost predicate Enabled(pki: Pki, s: State, step: Step) {
    match step
    case Enroll(id, r, pin, now, _) =>
      && s.durable == None && !Running(s, id) && Adoptable(pki, ABSENT, ABSENT, r, now)
      && (pin.Some? ==> pki.fingerprint(r.agent.roots[0]) == pin.value)
    case EnrollLegacy(_, _, _) => s.durable == None
    case Resume(id, now) =>
      && s.durable.Some? && !Running(s, id) && Loadable(pki, s.durable.value, now)
      && (s.durable.value.pendingAgent.Some? || s.durable.value.pendingGateway.Some?)
    case Renew(id, now) =>
      && s.durable.Some? && !Running(s, id) && Loadable(pki, s.durable.value, now)
      && forall j :: j in s.activities ==> !s.activities[j].renewal
    case Skip(id) =>
      Running(s, id) && var a := s.activities[id]; a.at.Confirming? && Pending(a.local, a.at.class_) == None
    case Confirm(id, _) =>
      Running(s, id) && var a := s.activities[id]; a.at.Confirming? && Pending(a.local, a.at.class_).Some?
    case Clear(id, _) => Running(s, id) && s.activities[id].at.Clearing?
    case Replace(id, r, now, _) =>
      && Running(s, id) && s.activities[id].at.Requesting?
      && var c := s.activities[id].local; Adoptable(pki, c.agent, c.gateway, r, now)
    case ReplaceLegacy(id, _, _) =>
      && Running(s, id) && s.activities[id].at.Requesting?
      && var c := s.activities[id].local; c.agent.generation == 0 && c.gateway.generation == 0
    case Abandon(id) => Running(s, id)
    case Crash => true
  }

  function Start(s: State, id: nat, renewal: bool, c: Credential): State {
    s.(activities := s.activities[id := Activity(renewal, false, c, Confirming(AgentClass), false)])
  }

  function Finish(s: State, id: nat): State {
    s.(activities := s.activities - {id})
  }

  /** After one class comes the other; after both, a renewal without any failure
      goes on to request a certificate and everything else returns. */
  function Proceed(s: State, id: nat, a: Activity, done: Class): State {
    if done == AgentClass then s.(activities := s.activities[id := a.(at := Confirming(GatewayClass))])
    else if a.renewal && !a.replaced && !a.failed then s.(activities := s.activities[id := a.(at := Requesting)])
    else Finish(s, id)
  }

  function Write(s: State, c: Credential, stored: StoreOutcome): State {
    if stored == Unwritten then s else s.(durable := Some(c))
  }

  function Version(class_: Class, b: Bundle): Ack {
    Ack(class_, b.generation, b.revision)
  }

  ghost function Apply(pki: Pki, s: State, step: Step): State
    requires Enabled(pki, s, step)
  {
    match step
    case Enroll(id, r, _, _, stored) =>
      var c := Enrolled(pki, r);
      if stored == Stored then Start(Write(s, c, stored), id, false, c) else Write(s, c, stored)
    case EnrollLegacy(certificate, issuer, gatewayRoot) =>
      s.(durable := Some(Legacy(certificate, issuer, gatewayRoot)))
    case Resume(id, _) => Start(s, id, false, s.durable.value)
    case Renew(id, _) => Start(s, id, true, s.durable.value)
    case Skip(id) => Proceed(s, id, s.activities[id], s.activities[id].at.class_)
    case Confirm(id, reply) =>
      var a := s.activities[id];
      var claim := Pending(a.local, a.at.class_).value;
      var t := if reply == Refused then s
               else s.(confirmed := s.confirmed + {Ack(a.at.class_, claim.generation, claim.revision)});
      if reply == Acknowledged then t.(activities := t.activities[id := a.(at := Clearing(a.at.class_))])
      else Proceed(t, id, a.(failed := true), a.at.class_)
    case Clear(id, stored) =>
      var a := s.activities[id];
      var c := Cleared(a.local, a.at.class_);
      Proceed(Write(s, c, stored), id,
              if stored == Stored then a.(local := c) else a.(failed := true), a.at.class_)
    case Replace(id, r, _, stored) =>
      var c := Renewed(pki, s.activities[id].local, r);
      var t := Write(s, c, stored);
      if stored == Stored
      then t.(activities := s.activities[id := Activity(true, true, c, Confirming(AgentClass), false)])
      else Finish(t, id)
    case ReplaceLegacy(id, certificate, stored) =>
      var c := s.activities[id].local;
      Finish(Write(s, Legacy(certificate, c.issuer, c.gatewayRoot), stored), id)
    case Abandon(id) => Finish(s, id)
    case Crash => s.(activities := map[])
  }

  ghost predicate Next(pki: Pki, s: State, t: State) {
    exists step :: Enabled(pki, s, step) && t == Apply(pki, s, step)
  }

  ghost predicate Run(pki: Pki, run: seq<State>) {
    && |run| > 0 && run[0] == INITIAL
    && forall i :: 0 < i < |run| ==> Next(pki, run[i-1], run[i])
  }

  // ---------------------------------------------------------------------
  // Nothing counts as confirmed before the control plane said so
  // ---------------------------------------------------------------------

  /** An adopted bundle is either still marked pending, with exactly its own
      version, or has been acknowledged. */
  predicate HonestFor(c: Credential, confirmed: set<Ack>, class_: Class) {
    match Pending(c, class_)
    case None => Trust(c, class_).generation != 0 ==> Version(class_, Trust(c, class_)) in confirmed
    case Some(claim) => Trust(c, class_).generation != 0 && Some(claim) == ClaimFor(Trust(c, class_))
  }

  predicate Honest(c: Credential, confirmed: set<Ack>) {
    HonestFor(c, confirmed, AgentClass) && HonestFor(c, confirmed, GatewayClass)
  }

  /** What an activity knows at its current point. */
  predicate Consistent(a: Activity, confirmed: set<Ack>) {
    && Honest(a.local, confirmed)
    && (a.at.Clearing? ==>
          Pending(a.local, a.at.class_).Some? && Version(a.at.class_, Trust(a.local, a.at.class_)) in confirmed)
    && ((a.at == Confirming(GatewayClass) || a.at == Clearing(GatewayClass)) && !a.failed ==> a.local.pendingAgent == None)
    && (a.at.Requesting? ==> a.local.pendingAgent == None && a.local.pendingGateway == None)
  }

  ghost predicate Safe(s: State) {
    && (s.durable.Some? ==> Honest(s.durable.value, s.confirmed))
    && forall id :: id in s.activities ==> Consistent(s.activities[id], s.confirmed)
  }

  lemma ConfirmedGrows(s: State, more: set<Ack>)
    requires Safe(s) && s.confirmed <= more
    ensures Safe(s.(confirmed := more))
  {
  }

  lemma ProceedSafe(s: State, id: nat, a: Activity, done: Class)
    requires Safe(s) && Honest(a.local, s.confirmed)
    requires !a.failed ==> Pending(a.local, done) == None && (done == GatewayClass ==> a.local.pendingAgent == None)
    ensures Safe(Proceed(s, id, a, done))
  {
  }

  lemma ConfirmSafe(pki: Pki, s: State, id: nat, reply: ReplyOutcome)
    requires Safe(s) && Enabled(pki, s, Confirm(id, reply))
    ensures Safe(Apply(pki, s, Confirm(id, reply)))
  {
    var a := s.activities[id];
    var claim := Pending(a.local, a.at.class_).value;
    var t := s;
    if reply != Refused {
      t := s.(confirmed := s.confirmed + {Ack(a.at.class_, claim.generation, claim.revision)});
      ConfirmedGrows(s, t.confirmed);
      assert Consistent(t.activities[id], t.confirmed);
    }
    if reply != Acknowledged {
      ProceedSafe(t, id, a.(failed := true), a.at.class_);
    }
  }

  lemma ClearSafe(pki: Pki, s: State, id: nat, stored: StoreOutcome)
    requires Safe(s) && Enabled(pki, s, Clear(id, stored))
    ensures Safe(Apply(pki, s, Clear(id, stored)))
  {
    var a := s.activities[id];
    var c := Cleared(a.local, a.at.class_);
    assert Consistent(a, s.confirmed) && Honest(c, s.confirmed);
    ProceedSafe(Write(s, c, stored), id, if stored == Stored then a.(local := c) else a.(failed := true), a.at.class_);
  }

  lemma SafePreserved(pki: Pki, s: State, step: Step)
    requires Safe(s) && Enabled(pki, s, step)
    ensures Safe(Apply(pki, s, step))
  {
    match step
    case Skip(id) => ProceedSafe(s, id, s.activities[id], s.activities[id].at.class_);
    case Confirm(id, reply) => ConfirmSafe(pki, s, id, reply);
    case Clear(id, stored) => ClearSafe(pki, s, id, stored);
    case Replace(id, r, now, stored) => ReplaceSafe(pki, s, step);
    case _ =>
  }

  lemma ReplaceSafe(pki: Pki, s: State, step: Step)
    requires Safe(s) && Enabled(pki, s, step) && step.Replace?
    ensures Safe(Apply(pki, s, step))
  {
    assert Consistent(s.activities[step.id], s.confirmed);
    assert Honest(Renewed(pki, s.activities[step.id].local, step.response), s.confirmed);
  }

  lemma {:induction false} RunSafe(pki: Pki, run: seq<State>, i: nat)
    requires Run(pki, run) && i < |run|
    ensures Safe(run[i])
  {
    if i > 0 {
      RunSafe(pki, run, i - 1);
      assert Next(pki, run[i-1], run[i]);
      var step :| Enabled(pki, run[i-1], step) && run[i] == Apply(pki, run[i-1], step);
      SafePreserved(pki, run[i-1], step);
    }
  }

  /** In every interleaving of enrollments and renewals, with crashes, lost
      replies and failed or half-reported writes anywhere: an adopted bundle
      that is not marked pending has been acknowledged. */
  lemma UnmarkedMeansConfirmed(pki: Pki, run: seq<State>, i: nat, class_: Class)
    requires Run(pki, run) && i < |run| && run[i].durable.Some?
    requires Trust(run[i].durable.value, class_).generation != 0
    requires Pending(run[i].durable.value, class_) == None
    ensures Version(class_, Trust(run[i].durable.value, class_)) in run[i].confirmed
  {
    RunSafe(pki, run, i);
  }

  // ---------------------------------------------------------------------
  // Whatever is stored is sound
  // ---------------------------------------------------------------------

  /** It passed the load checks when it was adopted, and its issuer signed its certificate. */
  ghost predicate Sound(pki: Pki, c: Credential) {
    (exists t :: Loadable(pki, c, t)) && (c.agent.generation != 0 ==> pki.issued(c.issuer, c.certificate))
  }

  ghost predicate AllSound(pki: Pki, s: State) {
    && (s.durable.Some? ==> Sound(pki, s.durable.value))
    && (forall id :: id in s.activities ==> s.durable.Some? && Sound(pki, s.activities[id].local))
  }

  lemma SoundBundles(pki: Pki, c: Credential)
    requires Sound(pki, c)
    ensures c.agent.generation == 0 <==> c.gateway.generation == 0
    ensures c.agent.generation != 0 ==>
              && Anchored(pki, c.agent, c.agent) && Anchored(pki, c.gateway, c.gateway)
              && c.issuer in c.agent.roots && Separated(pki, c.agent, c.gateway)
  {
    var t :| Loadable(pki, c, t);
    if c.agent.generation != 0 {
      WellFormedAnchored(pki, c.agent, t);
      WellFormedAnchored(pki, c.gateway, t);
    }
  }

  /** What enrollment and renewal store passes the load checks at that time. */
  lemma AdoptedIsSound(pki: Pki, c: Credential, r: Response, now: Time)
    requires Adoptable(pki, c.agent, c.gateway, r, now)
    ensures Loadable(pki, Enrolled(pki, r), now) && Sound(pki, Enrolled(pki, r))
    ensures Loadable(pki, Renewed(pki, c, r), now) && Sound(pki, Renewed(pki, c, r))
  {
    IssuingRootSound(pki, r.certificate, r.agent.roots);
    assert Loadable(pki, Enrolled(pki, r), now) && Loadable(pki, Renewed(pki, c, r), now);
  }

  lemma ClearedIsSound(pki: Pki, c: Credential, class_: Class)
    requires Sound(pki, c)
    ensures Sound(pki, Cleared(c, class_))
  {
    var t :| Loadable(pki, c, t);
    assert Loadable(pki, Cleared(c, class_), t);
  }

  lemma LegacyIsSound(pki: Pki, certificate: Der, issuer: Der, gatewayRoot: Der)
    ensures Sound(pki, Legacy(certificate, issuer, gatewayRoot))
  {
    assert Loadable(pki, Legacy(certificate, issuer, gatewayRoot), 0);
  }

  /** From s to t no credential appears, in the store or in a call, but c. */
  ghost predicate OnlyNew(s: State, t: State, c: Option<Credential>) {
    && (t.durable == s.durable || (c.Some? && t.durable == c))
    && (forall id :: id in t.activities ==>
          && t.durable.Some?
          && (|| Some(t.activities[id].local) == c || Some(t.activities[id].local) == s.durable
              || (id in s.activities && t.activities[id].local == s.activities[id].local)))
  }

  lemma OnlyNewSound(pki: Pki, s: State, t: State, c: Option<Credential>)
    requires AllSound(pki, s) && OnlyNew(s, t, c) && (c.Some? ==> Sound(pki, c.value))
    ensures AllSound(pki, t)
  {
  }

  /** The credential a step builds. */
  ghost function Built(pki: Pki, s: State, step: Step): Option<Credential>
    requires Enabled(pki, s, step)
  {
    match step
    case Enroll(_, r, _, _, _) => Some(Enrolled(pki, r))
    case EnrollLegacy(certificate, issuer, gatewayRoot) => Some(Legacy(certificate, issuer, gatewayRoot))
    case Clear(id, _) => Some(Cleared(s.activities[id].local, s.activities[id].at.class_))
    case Replace(id, r, _, _) => Some(Renewed(pki, s.activities[id].local, r))
    case ReplaceLegacy(id, certificate, _) =>
      Some(Legacy(certificate, s.activities[id].local.issuer, s.activities[id].local.gatewayRoot))
    case _ => None
  }

  lemma OnlyBuilt(pki: Pki, s: State, step: Step)
    requires Enabled(pki, s, step) && (s.activities != map[] ==> s.durable.Some?)
    ensures OnlyNew(s, Apply(pki, s, step), Built(pki, s, step))
  {
  }

  lemma BuiltIsSound(pki: Pki, s: State, step: Step)
    requires AllSound(pki, s) && Enabled(pki, s, step) && Built(pki, s, step).Some?
    ensures Sound(pki, Built(pki, s, step).value)
  {
    match step
    case Enroll(_, r, _, now, _) => AdoptedIsSound(pki, Legacy([], [], []), r, now);
    case EnrollLegacy(certificate, issuer, gatewayRoot) => LegacyIsSound(pki, certificate, issuer, gatewayRoot);
    case Clear(id, _) => ClearedIsSound(pki, s.activities[id].local, s.activities[id].at.class_);
    case Replace(id, r, now, _) => AdoptedIsSound(pki, s.activities[id].local, r, now);
    case ReplaceLegacy(id, certificate, _) =>
      LegacyIsSound(pki, certificate, s.activities[id].local.issuer, s.activities[id].local.gatewayRoot);
    case _ =>
  }

  lemma AllSoundPreserved(pki: Pki, s: State, step: Step)
    requires AllSound(pki, s) && Enabled(pki, s, step)
    ensures AllSound(pki, Apply(pki, s, step))
  {
    if Built(pki, s, step).Some? {
      BuiltIsSound(pki, s, step);
    }
    OnlyBuilt(pki, s, step);
    OnlyNewSound(pki, s, Apply(pki, s, step), Built(pki, s, step));
  }

  // ---------------------------------------------------------------------
  // When the stored trust only advances
  // ---------------------------------------------------------------------

  /** A run with the steps that made it. */
  ghost predicate Trace(pki: Pki, run: seq<State>, steps: seq<Step>) {
    && |run| == |steps| + 1 && run[0] == INITIAL
    && forall i :: 0 <= i < |steps| ==> Enabled(pki, run[i], steps[i]) && run[i+1] == Apply(pki, run[i], steps[i])
  }

  lemma TraceIsRun(pki: Pki, run: seq<State>, steps: seq<Step>)
    requires Trace(pki, run, steps)
    ensures Run(pki, run)
  {
    forall i | 0 < i < |run| ensures Next(pki, run[i-1], run[i]) {
      assert Enabled(pki, run[i-1], steps[i-1]) && run[i] == Apply(pki, run[i-1], steps[i-1]);
    }
  }

  lemma {:induction false} TraceSound(pki: Pki, run: seq<State>, steps: seq<Step>, i: nat)
    requires Trace(pki, run, steps) && i < |run|
    ensures AllSound(pki, run[i])
  {
    if i > 0 {
      TraceSound(pki, run, steps, i - 1);
      assert Enabled(pki, run[i-1], steps[i-1]);
      AllSoundPreserved(pki, run[i-1], steps[i-1]);
    }
  }

  predicate SameBundles(c: Credential, d: Credential) {
    c.agent == d.agent && c.gateway == d.gateway
  }

  /** An acknowledged confirmation is cleared by a call whose copy no longer has the bundles
      that are stored.  The call could see this by loading the store first. */
  predicate StaleClear(s: State, step: Step) {
    && step.Clear? && step.stored != Unwritten && step.id in s.activities && s.durable.Some?
    && !SameBundles(s.activities[step.id].local, s.durable.value)
  }

  ghost predicate NoStaleClear(run: seq<State>, steps: seq<Step>, n: nat)
    requires n <= |steps| && |steps| < |run|
  {
    forall i :: 0 <= i < n ==> !StaleClear(run[i], steps[i])
  }

  /** How the stored credential may change. */
  ghost predicate CredentialKept(pki: Pki, before: Option<Credential>, after: Option<Credential>) {
    before.Some? ==>
      && after.Some?
      && TrustKept(pki, before.value.agent, after.value.agent)
      && TrustKept(pki, before.value.gateway, after.value.gateway)
  }

  /** Renewals exclude each other and their copy has the stored bundles. */
  predicate RenewalsFresh(s: State) {
    && (forall i, j :: i in s.activities && j in s.activities && s.activities[i].renewal && s.activities[j].renewal ==> i == j)
    && (forall i :: i in s.activities && s.activities[i].at.Requesting? ==> s.activities[i].renewal)
    && (forall i :: i in s.activities && s.activities[i].renewal ==>
          s.durable.Some? && SameBundles(s.activities[i].local, s.durable.value))
  }

  lemma SameBundlesKept(pki: Pki, c: Credential, d: Credential)
    requires Sound(pki, c) && SameBundles(c, d)
    ensures CredentialKept(pki, Some(c), Some(d))
  {
    SoundBundles(pki, c);
  }

  lemma ClearFresh(pki: Pki, s: State, step: Step)
    requires RenewalsFresh(s) && Enabled(pki, s, step) && step.Clear? && !StaleClear(s, step) && s.durable.Some?
    ensures RenewalsFresh(Apply(pki, s, step))
    ensures Apply(pki, s, step).durable.Some? && SameBundles(s.durable.value, Apply(pki, s, step).durable.value)
  {
    var c := Cleared(s.activities[step.id].local, s.activities[step.id].at.class_);
    assert SameBundles(c, s.activities[step.id].local);
  }

  lemma ClearKeeps(pki: Pki, s: State, step: Step)
    requires AllSound(pki, s) && RenewalsFresh(s) && Enabled(pki, s, step) && step.Clear? && !StaleClear(s, step)
    ensures RenewalsFresh(Apply(pki, s, step))
    ensures CredentialKept(pki, s.durable, Apply(pki, s, step).durable)
  {
    ClearFresh(pki, s, step);
    SameBundlesKept(pki, s.durable.value, Apply(pki, s, step).durable.value);
  }

  lemma ReplaceKeeps(pki: Pki, s: State, step: Step)
    requires AllSound(pki, s) && RenewalsFresh(s) && Enabled(pki, s, step) && step.Replace?
    ensures RenewalsFresh(Apply(pki, s, step))
    ensures CredentialKept(pki, s.durable, Apply(pki, s, step).durable)
  {
    ReplaceFresh(pki, s, step);
    var c := s.activities[step.id].local;
    if step.stored == Unwritten {
      SameBundlesKept(pki, s.durable.value, s.durable.value);
    } else {
      AdoptedKeeps(pki, s.durable.value, c, step.response, step.now);
    }
  }

  lemma AdoptedKeeps(pki: Pki, stored: Credential, c: Credential, r: Response, now: Time)
    requires Sound(pki, c) && SameBundles(c, stored) && Adoptable(pki, c.agent, c.gateway, r, now)
    ensures CredentialKept(pki, Some(stored), Some(Renewed(pki, c, r)))
  {
    SoundBundles(pki, c);
    AcceptKeepsTrust(pki, c.agent, r.agent, now);
    AcceptKeepsTrust(pki, c.gateway, r.gateway, now);
  }

  lemma ReplaceFresh(pki: Pki, s: State, step: Step)
    requires RenewalsFresh(s) && Enabled(pki, s, step) && step.Replace? && s.durable.Some?
    ensures RenewalsFresh(Apply(pki, s, step))
  {
    assert s.activities[step.id].renewal;
  }

  lemma LegacyKeeps(pki: Pki, s: State, step: Step)
    requires AllSound(pki, s) && RenewalsFresh(s) && Enabled(pki, s, step) && step.ReplaceLegacy?
    ensures RenewalsFresh(Apply(pki, s, step))
    ensures CredentialKept(pki, s.durable, Apply(pki, s, step).durable)
  {
  }

  /** Enrolling happens on an empty store; the other steps do not write. */
  lemma QuietKeeps(pki: Pki, s: State, step: Step)
    requires AllSound(pki, s) && Enabled(pki, s, step) && !step.Clear? && !step.Replace? && !step.ReplaceLegacy?
    ensures CredentialKept(pki, s.durable, Apply(pki, s, step).durable)
  {
    if s.durable.Some? {
      SameBundlesKept(pki, s.durable.value, s.durable.value);
      assert Apply(pki, s, step).durable == s.durable;
    }
  }

  lemma StartFresh(pki: Pki, s: State, step: Step)
    requires AllSound(pki, s) && RenewalsFresh(s) && Enabled(pki, s, step)
    requires step.Enroll? || step.EnrollLegacy? || step.Resume? || step.Renew?
    ensures RenewalsFresh(Apply(pki, s, step))
  {
  }

  lemma GoOnFresh(pki: Pki, s: State, step: Step)
    requires RenewalsFresh(s) && Enabled(pki, s, step)
    requires step.Skip? || step.Confirm? || step.Abandon? || step.Crash?
    ensures RenewalsFresh(Apply(pki, s, step))
  {
    if step.Skip? {
      ProceedFresh(s, step.id, s.activities[step.id], s.activities[step.id].at.class_);
    } else if step.Confirm? && step.reply != Acknowledged {
      var a := s.activities[step.id];
      var t := if step.reply == Refused then s
               else s.(confirmed := s.confirmed + {Ack(a.at.class_, Pending(a.local, a.at.class_).value.generation,
                                                       Pending(a.local, a.at.class_).value.revision)});
      ProceedFresh(t, step.id, a.(failed := true), a.at.class_);
    }
  }

  lemma ProceedFresh(s: State, id: nat, a: Activity, done: Class)
    requires RenewalsFresh(s) && id in s.activities && a.renewal == s.activities[id].renewal
    requires a.local == s.activities[id].local
    ensures RenewalsFresh(Proceed(s, id, a, done))
  {
  }

  lemma {:induction false} FreshTrace(pki: Pki, run: seq<State>, steps: seq<Step>, n: nat)
    requires Trace(pki, run, steps) && n <= |steps| && NoStaleClear(run, steps, n)
    ensures RenewalsFresh(run[n]) && (n > 0 ==> CredentialKept(pki, run[n-1].durable, run[n].durable))
  {
    if n > 0 {
      FreshTrace(pki, run, steps, n - 1);
      TraceSound(pki, run, steps, n - 1);
      var s, step := run[n-1], steps[n-1];
      assert Enabled(pki, s, step) && !StaleClear(s, step);
      if step.Clear? {
        ClearKeeps(pki, s, step);
      } else if step.Replace? {
        ReplaceKeeps(pki, s, step);
      } else if step.ReplaceLegacy? {
        LegacyKeeps(pki, s, step);
      } else {
        QuietKeeps(pki, s, step);
        if step.Skip? || step.Confirm? || step.Abandon? || step.Crash? {
          GoOnFresh(pki, s, step);
        } else {
          StartFresh(pki, s, step);
        }
      }
    }
  }

  lemma {:induction false} CredentialChains(pki: Pki, run: seq<State>, i: nat, j: nat)
    requires i <= j < |run| && CredentialKept(pki, run[i].durable, run[i].durable)
    requires forall k :: 0 < k <= j ==> CredentialKept(pki, run[k-1].durable, run[k].durable)
    ensures CredentialKept(pki, run[i].durable, run[j].durable)
  {
    if i < j {
      CredentialChains(pki, run, i, j - 1);
      if run[i].durable.Some? {
        var b, c, d := run[i].durable.value, run[j-1].durable.value, run[j].durable.value;
        TrustKeptTransitive(pki, b.agent, c.agent, d.agent);
        TrustKeptTransitive(pki, b.gateway, c.gateway, d.gateway);
      }
    }
  }

  lemma FreshAdvances(pki: Pki, run: seq<State>, steps: seq<Step>, i: nat, j: nat)
    requires Trace(pki, run, steps) && i <= j <= |steps| && NoStaleClear(run, steps, j)
    ensures CredentialKept(pki, run[i].durable, run[j].durable)
  {
    TraceSound(pki, run, steps, i);
    if run[i].durable.Some? {
      SameBundlesKept(pki, run[i].durable.value, run[i].durable.value);
    }
    forall k | 0 < k <= j ensures CredentialKept(pki, run[k-1].durable, run[k].durable) {
      FreshTrace(pki, run, steps, k);
    }
    CredentialChains(pki, run, i, j);
  }

  /** The bundles of every copy were stored at some point m. */
  ghost predicate Loaded(run: seq<State>, n: nat, c: Credential, m: nat) {
    m <= n < |run| && run[m].durable.Some? && SameBundles(c, run[m].durable.value)
  }

  /** A copy with other bundles than before is the stored credential. */
  lemma NewCopyIsStored(pki: Pki, s: State, step: Step, id: nat)
    requires Enabled(pki, s, step) && id in Apply(pki, s, step).activities
    requires !(id in s.activities && SameBundles(Apply(pki, s, step).activities[id].local, s.activities[id].local))
    ensures var t := Apply(pki, s, step); t.durable.Some? && SameBundles(t.activities[id].local, t.durable.value)
  {
  }

  lemma {:induction false} CopiesWereStored(pki: Pki, run: seq<State>, steps: seq<Step>, n: nat, id: nat) returns (m: nat)
    requires Trace(pki, run, steps) && n <= |steps| && id in run[n].activities
    ensures Loaded(run, n, run[n].activities[id].local, m)
  {
    m := n;
    if n > 0 {
      assert Enabled(pki, run[n-1], steps[n-1]) && run[n] == Apply(pki, run[n-1], steps[n-1]);
      if id in run[n-1].activities && SameBundles(run[n].activities[id].local, run[n-1].activities[id].local) {
        m := CopiesWereStored(pki, run, steps, n - 1, id);
      } else {
        NewCopyIsStored(pki, run[n-1], steps[n-1], id);
      }
    }
  }

  /** A stale clear puts an older bundle back. */
  lemma StaleClearRollsBack(pki: Pki, run: seq<State>, steps: seq<Step>, n: nat)
    requires Trace(pki, run, steps) && n < |steps| && NoStaleClear(run, steps, n) && StaleClear(run[n], steps[n])
    ensures !CredentialKept(pki, run[n].durable, run[n+1].durable)
  {
    var id := steps[n].id;
    assert Enabled(pki, run[n], steps[n]) && run[n+1] == Apply(pki, run[n], steps[n]);
    var m := CopiesWereStored(pki, run, steps, n, id);
    FreshAdvances(pki, run, steps, m, n);
    TraceIsRun(pki, run, steps);
    RunSafe(pki, run, n);
    TraceSound(pki, run, steps, n);
    var c, d := run[n].activities[id].local, run[n].durable.value;
    assert Consistent(run[n].activities[id], run[n].confirmed);
    SoundBundles(pki, c);
    SoundBundles(pki, d);
    assert SameBundles(run[n+1].durable.value, c);
  }

  /** In every interleaving, with crashes and failed writes anywhere: adopted bundles are never
      dropped, rolled back or given a version twice, and all later roots descend from the first
      root, if and only if no call clears a confirmation over bundles other than its own. */
  lemma StoredTrustOnlyAdvances(pki: Pki, run: seq<State>, steps: seq<Step>)
    requires Trace(pki, run, steps)
    ensures NoStaleClear(run, steps, |steps|) <==>
            forall i, j :: 0 <= i <= j < |run| ==> CredentialKept(pki, run[i].durable, run[j].durable)
  {
    if NoStaleClear(run, steps, |steps|) {
      forall i, j | 0 <= i <= j < |run| ensures CredentialKept(pki, run[i].durable, run[j].durable) {
        FreshAdvances(pki, run, steps, i, j);
      }
    } else {
      var n := FirstStaleClear(run, steps, |steps|);
      StaleClearRollsBack(pki, run, steps, n);
    }
  }

  lemma {:induction false} FirstStaleClear(run: seq<State>, steps: seq<Step>, n: nat) returns (i: nat)
    requires n <= |steps| && |steps| < |run| && !NoStaleClear(run, steps, n)
    ensures i < n && NoStaleClear(run, steps, i) && StaleClear(run[i], steps[i])
  {
    if NoStaleClear(run, steps, n - 1) {
      i := n - 1;
    } else {
      i := FirstStaleClear(run, steps, n - 1);
    }
  }

  /** If the enrollment of a run pinned a fingerprint and no clear was stale, the issuer of
      whatever certificate is in use descends from a root with that fingerprint; and in any
      case it signed the certificate, and agent and gateway roots are apart. */
  lemma IssuerDescendsFromPinnedRoot(pki: Pki, run: seq<State>, steps: seq<Step>, i: nat, j: nat)
    requires Trace(pki, run, steps) && i < j < |run| && run[j].durable.Some?
    ensures var c := run[j].durable.value;
            c.agent.generation != 0 ==> pki.issued(c.issuer, c.certificate) && Separated(pki, c.agent, c.gateway)
    ensures steps[i].Enroll? && steps[i].stored != Unwritten && steps[i].pin.Some? && NoStaleClear(run, steps, j) ==>
              exists root :: pki.fingerprint(root) == steps[i].pin.value && Reaches(pki, root, run[j].durable.value.issuer)
  {
    TraceSound(pki, run, steps, j);
    SoundBundles(pki, run[j].durable.value);
    if steps[i].Enroll? && steps[i].stored != Unwritten && steps[i].pin.Some? && NoStaleClear(run, steps, j) {
      assert Enabled(pki, run[i], steps[i]) && run[i+1] == Apply(pki, run[i], steps[i]);
      FreshAdvances(pki, run, steps, i + 1, j);
      var root := run[i+1].durable.value.agent.roots[0];
      assert pki.fingerprint(root) == steps[i].pin.value && Reaches(pki, root, run[j].durable.value.issuer);
    }
  }

  // ---------------------------------------------------------------------
  // When a renewal overwrites only what is acknowledged
  // ---------------------------------------------------------------------

  /** The stored bundle of the class is not marked pending, or has the version of the copy. */
  predicate SafeToOverwrite(stored: Credential, copy: Credential, class_: Class) {
    Pending(stored, class_) == None || Version(class_, Trust(stored, class_)) == Version(class_, Trust(copy, class_))
  }

  lemma OverwriteIsConfirmed(stored: Credential, a: Activity, class_: Class, confirmed: set<Ack>)
    requires a.at.Requesting? && Honest(stored, confirmed) && Consistent(a, confirmed)
    requires Trust(stored, class_).generation != 0 && SafeToOverwrite(stored, a.local, class_)
    ensures Version(class_, Trust(stored, class_)) in confirmed
  {
  }

  /** A renewal that is about to write can tell from its copy and the store that it overwrites
      nothing unacknowledged, if and only if each class is safe to overwrite: otherwise what it
      sees also fits a control plane that has not acknowledged the stored bundle. */
  lemma OverwriteGuaranteedExactly(stored: Credential, a: Activity, class_: Class, some: set<Ack>)
    requires a.at.Requesting? && Honest(stored, some) && Consistent(a, some) && Trust(stored, class_).generation != 0
    ensures SafeToOverwrite(stored, a.local, class_) <==>
            forall confirmed :: Honest(stored, confirmed) && Consistent(a, confirmed) ==>
              Version(class_, Trust(stored, class_)) in confirmed
  {
    if SafeToOverwrite(stored, a.local, class_) {
      forall confirmed | Honest(stored, confirmed) && Consistent(a, confirmed)
        ensures Version(class_, Trust(stored, class_)) in confirmed
      {
        OverwriteIsConfirmed(stored, a, class_, confirmed);
      }
    } else {
      var confirmed := some - {Version(class_, Trust(stored, class_))};
      assert Honest(stored, confirmed) && Consistent(a, confirmed);
    }
  }

  /** In every interleaving, a renewal overwrites only acknowledged bundles where it is safe. */
  lemma RenewalOverwritesOnlyConfirmed(pki: Pki, run: seq<State>, i: nat, step: Step, class_: Class)
    requires Run(pki, run) && i < |run| && run[i].durable.Some?
    requires (step.Replace? || step.ReplaceLegacy?) && Enabled(pki, run[i], step)
    requires SafeToOverwrite(run[i].durable.value, run[i].activities[step.id].local, class_)
    ensures Trust(run[i].durable.value, class_).generation != 0
            ==> Version(class_, Trust(run[i].durable.value, class_)) in run[i].confirmed
  {
    RunSafe(pki, run, i);
    assert Consistent(run[i].activities[step.id], run[i].confirmed);
    if Trust(run[i].durable.value, class_).generation != 0 {
      OverwriteIsConfirmed(run[i].durable.value, run[i].activities[step.id], class_, run[i].confirmed);
    }
  }

  /** It is always safe as long as no clear was stale. */
  lemma FreshRenewalIsSafe(pki: Pki, run: seq<State>, steps: seq<Step>, i: nat, step: Step, class_: Class)
    requires Trace(pki, run, steps) && i <= |steps| && NoStaleClear(run, steps, i)
    requires (step.Replace? || step.ReplaceLegacy?) && Enabled(pki, run[i], step)
    ensures run[i].durable.Some? && SafeToOverwrite(run[i].durable.value, run[i].activities[step.id].local, class_)
  {
    FreshTrace(pki, run, steps, i);
  }

  // ---------------------------------------------------------------------
  // Overlapping calls that do harm
  // ---------------------------------------------------------------------

  function Last(run: seq<State>): State
    requires |run| > 0
  {
    run[|run|-1]
  }

  lemma Extend(pki: Pki, run: seq<State>, step: Step) returns (longer: seq<State>)
    requires Run(pki, run) && Enabled(pki, Last(run), step)
    ensures Run(pki, longer) && longer == run + [Apply(pki, Last(run), step)]
  {
    longer := run + [Apply(pki, Last(run), step)];
    forall i | 0 < i < |longer| ensures Next(pki, longer[i-1], longer[i]) {
      if i < |run| {
        assert Next(pki, run[i-1], run[i]);
      }
    }
  }

  function Acks(c: Credential): set<Ack> {
    {Version(AgentClass, c.agent), Version(GatewayClass, c.gateway)}
  }

  /** A call with both confirmations pending sends and clears them: its copy is stored. */
  lemma ConfirmBoth(pki: Pki, run: seq<State>, id: nat) returns (longer: seq<State>)
    requires Run(pki, run) && id in Last(run).activities
    requires var a := Last(run).activities[id];
             && a.at == Confirming(AgentClass) && !a.failed && !a.replaced
             && a.local.pendingAgent == ClaimFor(a.local.agent) && a.local.pendingGateway == ClaimFor(a.local.gateway)
    ensures Run(pki, longer) && run <= longer
    ensures var s, a := Last(run), Last(run).activities[id];
            var c := a.local.(pendingAgent := None, pendingGateway := None);
            && Last(longer).durable == Some(c) && Last(longer).confirmed == s.confirmed + Acks(c)
            && Last(longer).activities == if a.renewal then s.activities[id := a.(local := c, at := Requesting)]
                                          else s.activities - {id}
  {
    longer := Extend(pki, run, Confirm(id, Acknowledged));
    longer := Extend(pki, longer, Clear(id, Stored));
    longer := Extend(pki, longer, Confirm(id, Acknowledged));
    longer := Extend(pki, longer, Clear(id, Stored));
    var s, a := Last(run), Last(run).activities[id];
    var c := a.local.(pendingAgent := None, pendingGateway := None);
    assert Last(longer).confirmed == s.confirmed + Acks(c);
    assert Last(longer).activities == if a.renewal then s.activities[id := a.(local := c, at := Requesting)]
                                      else s.activities - {id};
  }

  /** Enrollment 0 stores the first response and renewal 1, while 0 is still running,
      acknowledges it and replaces it by the second. */
  lemma RenewDuringEnroll(pki: Pki, first: Response, second: Response, now: Time) returns (run: seq<State>)
    requires Adoptable(pki, ABSENT, ABSENT, first, now) && Adoptable(pki, first.agent, first.gateway, second, now)
    ensures Run(pki, run)
    ensures var c, d := Enrolled(pki, first), Renewed(pki, Enrolled(pki, first), second);
            && Last(run).durable == Some(d) && Last(run).confirmed == Acks(c)
            && Last(run).activities == map[0 := Activity(false, false, c, Confirming(AgentClass), false),
                                           1 := Activity(true, true, d, Confirming(AgentClass), false)]
  {
    var c, d := Enrolled(pki, first), Renewed(pki, Enrolled(pki, first), second);
    AdoptedIsSound(pki, Legacy([], [], []), first, now);
    run := Extend(pki, [INITIAL], Enroll(0, first, None, now, Stored));
    run := Extend(pki, run, Renew(1, now));
    assert Last(run).activities[1] == Activity(true, false, c, Confirming(AgentClass), false);
    run := ConfirmBoth(pki, run, 1);
    run := Extend(pki, run, Replace(1, second, now, Stored));
    assert Last(run).activities == map[0 := Activity(false, false, c, Confirming(AgentClass), false),
                                       1 := Activity(true, true, d, Confirming(AgentClass), false)];
  }

  /** A stale clear is real: Enroll does not take the lock that Renew holds, and an enrollment
      that is still confirming writes its own copy over a renewal's newer bundle. */
  lemma OverlapCanRollBack(pki: Pki, first: Response, second: Response, now: Time) returns (run: seq<State>, i: nat)
    requires Adoptable(pki, ABSENT, ABSENT, first, now)
    requires Adoptable(pki, first.agent, first.gateway, second, now) && Older(first.agent, second.agent)
    ensures Run(pki, run) && i < |run| && run[i].durable.Some? && Last(run).durable.Some?
    ensures Older(Last(run).durable.value.agent, run[i].durable.value.agent)
  {
    run := RenewDuringEnroll(pki, first, second, now);
    i := |run| - 1;
    run := ConfirmBoth(pki, run, 0);
  }

  /** And with it a renewal can overwrite a bundle that was never acknowledged.  The renewal
      above ends before it confirms; call 3 loads its bundle; enrollment 0 puts the first one
      back; renewal 2 loads that; call 3 clears its agent confirmation, which puts the second
      bundle back with its gateway version unacknowledged; now renewal 2 may write. */
  lemma OverlapOverwritesUnconfirmed(pki: Pki, first: Response, second: Response, now: Time) returns (run: seq<State>)
    requires Adoptable(pki, ABSENT, ABSENT, first, now) && Adoptable(pki, first.agent, first.gateway, second, now)
    requires Older(first.gateway, second.gateway)
    ensures Run(pki, run) && Enabled(pki, Last(run), Replace(2, second, now, Stored)) && Last(run).durable.Some?
    ensures Last(run).durable.value.gateway == second.gateway && second.gateway.generation != 0
    ensures Version(GatewayClass, second.gateway) !in Last(run).confirmed
  {
    var c, d := Enrolled(pki, first), Renewed(pki, Enrolled(pki, first), second);
    AdoptedIsSound(pki, Legacy([], [], []), first, now);
    AdoptedIsSound(pki, c, second, now);
    run := RenewDuringEnroll(pki, first, second, now);
    run := FirstPutBack(pki, run, c, d, now);
    run := RenewBack(pki, run, c, d, now);
  }

  lemma FirstPutBack(pki: Pki, run: seq<State>, c: Credential, d: Credential, now: Time) returns (longer: seq<State>)
    requires Run(pki, run) && Loadable(pki, d, now) && d.pendingAgent.Some?
    requires c.pendingAgent == ClaimFor(c.agent) && c.pendingGateway == ClaimFor(c.gateway)
    requires Last(run).durable == Some(d) && Last(run).confirmed == Acks(c)
    requires Last(run).activities == map[0 := Activity(false, false, c, Confirming(AgentClass), false),
                                         1 := Activity(true, true, d, Confirming(AgentClass), false)]
    ensures Run(pki, longer) && Last(longer).durable == Some(c.(pendingAgent := None, pendingGateway := None))
    ensures Last(longer).confirmed == Acks(c)
    ensures Last(longer).activities == map[3 := Activity(false, false, d, Confirming(AgentClass), false)]
  {
    longer := Extend(pki, run, Abandon(1));
    longer := Extend(pki, longer, Resume(3, now));
    longer := ConfirmBoth(pki, longer, 0);
  }

  lemma RenewBack(pki: Pki, run: seq<State>, c: Credential, d: Credential, now: Time) returns (longer: seq<State>)
    requires Run(pki, run) && Loadable(pki, c, now) && c.agent.generation != 0
    requires d.pendingAgent == ClaimFor(d.agent) && d.pendingGateway == ClaimFor(d.gateway) && Older(c.gateway, d.gateway)
    requires Last(run).durable == Some(c.(pendingAgent := None, pendingGateway := None))
    requires Last(run).confirmed == Acks(c)
    requires Last(run).activities == map[3 := Activity(false, false, d, Confirming(AgentClass), false)]
    ensures Run(pki, longer) && Last(longer).durable == Some(d.(pendingAgent := None))
    ensures 2 in Last(longer).activities && Last(longer).activities[2].at == Requesting
    ensures SameBundles(Last(longer).activities[2].local, c)
    ensures Version(GatewayClass, d.gateway) !in Last(longer).confirmed
  {
    longer := Extend(pki, run, Renew(2, now));
    longer := Extend(pki, longer, Skip(2));
    longer := Extend(pki, longer, Skip(2));
    longer := Extend(pki, longer, Confirm(3, Acknowledged));
    longer := Extend(pki, longer, Clear(3, Stored));
  }

  // ---------------------------------------------------------------------
  // The confirmation loop as it runs inside one call
  // ---------------------------------------------------------------------

  /** The same up to pending marks. */
  predicate SameTrust(c: Credential, d: Credential) {
    c.(pendingAgent := None, pendingGateway := None) == d.(pendingAgent := None, pendingGateway := None)
  }

  class Device {
    var durable: Credential
    var confirmed: set<Ack>

    constructor (c: Credential)
      ensures durable == c && confirmed == {}
    {
      durable, confirmed := c, {};
    }

    /** One round of the loop: send, and on acknowledgement clear in the store. */
    method ConfirmClass(bundle: Credential, c: Class, reply: ReplyOutcome, stored: StoreOutcome)
      returns (left: Credential, ok: bool)
      requires Honest(bundle, confirmed) && Honest(durable, confirmed)
      modifies this
      ensures Honest(durable, confirmed) && Honest(left, confirmed) && old(confirmed) <= confirmed
      ensures durable == old(durable) || SameTrust(durable, bundle)
      ensures ok == (Pending(bundle, c) == None || (reply == Acknowledged && stored == Stored))
      ensures left == if ok then Cleared(bundle, c) else bundle
    {
      left, ok := bundle, true;
      var claim := Pending(bundle, c);
      if claim.Some? {
        if reply != Refused {
          confirmed := confirmed + {Ack(c, claim.value.generation, claim.value.revision)};
        }
        if reply != Acknowledged {
          return bundle, false;
        }
        if stored != Unwritten {
          durable := Cleared(bundle, c);
        }
        if stored != Stored {
          return bundle, false;
        }
        left := Cleared(bundle, c);
      }
    }

    /** Sends what is pending, class by class, and clears each acknowledged
        confirmation in the store; an outcome is what the call meets per class. */
    method SendPendingConfirmations(bundle: Credential, reply: Class -> ReplyOutcome, stored: Class -> StoreOutcome)
      returns (left: Credential, ok: bool)
      requires Honest(bundle, confirmed) && Honest(durable, confirmed)
      modifies this
      ensures Honest(durable, confirmed) && Honest(left, confirmed) && old(confirmed) <= confirmed
      ensures SameTrust(left, bundle) && (durable == old(durable) || SameTrust(durable, bundle))
      ensures ok <==> forall c :: Pending(bundle, c).Some? ==> reply(c) == Acknowledged && stored(c) == Stored
      ensures forall c ::
                Pending(left, c) == if reply(c) == Acknowledged && stored(c) == Stored then None else Pending(bundle, c)
    {
      left, ok := bundle, true;
      var i := 0;
      while i < 2
        invariant 0 <= i <= 2
        invariant Honest(durable, confirmed) && Honest(left, confirmed) && old(confirmed) <= confirmed
        invariant SameTrust(left, bundle) && (durable == old(durable) || SameTrust(durable, bundle))
        invariant ok <==> forall c :: Order(c) < i && Pending(bundle, c).Some? ==> reply(c) == Acknowledged && stored(c) == Stored
        invariant forall c :: Pending(left, c) ==
                    if Order(c) < i && reply(c) == Acknowledged && stored(c) == Stored then None else Pending(bundle, c)
      {
        var c := if i == 0 then AgentClass else GatewayClass;
        var cleared;
        left, cleared := ConfirmClass(left, c, reply(c), stored(c));
        ok := ok && cleared;
        i := i + 1;
      }
    }
  }

  function Order(c: Class): nat {
    if c == AgentClass then 0 else 1
  }
}
