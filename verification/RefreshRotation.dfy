/**
 Refresh-token rotation with reuse detection (section 4.14.2 of RFC 9700).
 A token family is an event stream with an optimistic version check; any number
 of Rotate calls read and append concurrently, and every read and every append
 is one step.
 */
module RefreshRotation {
  import opened Options

  type Hash = nat
  type FamilyId = nat

  // ---------------------------------------------------------------------
  // The event store: streams and their projection
  // ---------------------------------------------------------------------

  datatype Family = Family(version: nat, active: Hash, revoked: bool)

  datatype Token = Token(family: FamilyId, superseded: bool)

  datatype Store = Store(families: map<FamilyId, Family>, tokens: map<Hash, Token>)

  datatype Event =
    | Started(family: FamilyId, token: Hash)
    | Rotated(family: FamilyId, previous: Hash, next: Hash)
    | Revoked(family: FamilyId, replayed: Hash)

  function StreamVersion(s: Store, f: FamilyId): nat {
    if f in s.families then s.families[f].version else 0
  }

  /** The projectors' own checks; one that fails rolls the append back. */
  predicate Projectable(s: Store, e: Event) {
    match e
    case Started(f, t) => f !in s.families && t !in s.tokens
    case Rotated(f, p, n) =>
      && f in s.families && !s.families[f].revoked && s.families[f].active == p
      && p in s.tokens && s.tokens[p] == Token(f, false) && n !in s.tokens
    case Revoked(f, r) =>
      f in s.families && !s.families[f].revoked && r in s.tokens && s.tokens[r] == Token(f, true)
  }

  function Project(s: Store, e: Event): Store
    requires Projectable(s, e)
  {
    match e
    case Started(f, t) => Store(s.families[f := Family(1, t, false)], s.tokens[t := Token(f, false)])
    case Rotated(f, p, n) =>
      Store(s.families[f := Family(s.families[f].version + 1, n, false)],
            s.tokens[p := Token(f, true)][n := Token(f, false)])
    case Revoked(f, _) =>
      s.(families := s.families[f := s.families[f].(version := s.families[f].version + 1, revoked := true)])
  }

  datatype Appended = Committed(store: Store) | Conflict | Failed

  function Append(s: Store, e: Event, expected: nat): Appended {
    if StreamVersion(s, e.family) != expected then Conflict
    else if Projectable(s, e) then Committed(Project(s, e))
    else Failed
  }

  /** What a read by token hash returns. */
  datatype View = View(family: FamilyId, version: nat, active: Hash, revoked: bool, superseded: bool)

  function Read(s: Store, h: Hash): Option<View> {
    if h in s.tokens && s.tokens[h].family in s.families then
      var f := s.families[s.tokens[h].family];
      Some(View(s.tokens[h].family, f.version, f.active, f.revoked, s.tokens[h].superseded))
    else None
  }

  // ---------------------------------------------------------------------
  // Rotate calls
  // ---------------------------------------------------------------------

  const REVOCATION_ATTEMPTS := 8

  /** `Replay` is the rejection of a token found superseded or lost in the race. */
  datatype Reason = NotFound | NotEligible | FamilyRevoked | Replay

  datatype Progress =
    | Reading
    | Rotating(view: View)
    | Rereading(attempt: nat, since: nat)
    | Revoking(view: View, attempt: nat, since: nat)
    | Succeeded(next: Hash)
    | Rejected(reason: Reason)
    | Unavailable(contention: bool, since: nat)

  datatype Call = Call(presented: Hash, at: Progress)

  datatype State = State(store: Store, calls: map<nat, Call>)

  const INITIAL := State(Store(map[], map[]), map[])

  /** `eligible` stands for everything Rotate checks besides the family itself:
      signature, subject, session version, enabled user and expiry. */
  datatype Step =
    | StartSession(family: FamilyId, token: Hash)
    | Begin(call: nat, presented: Hash)
    | ReadFamily(call: nat, eligible: bool)
    | AppendRotation(call: nat, next: Hash)
    | LoseReply(call: nat, next: Hash)
    | Reread(call: nat)
    | AppendRevocation(call: nat)
    | LoseRevocationReply(call: nat)
    | GiveUp(call: nat)

  predicate At(s: State, c: nat) { c in s.calls }

  predicate Enabled(s: State, step: Step) {
    match step
    case StartSession(f, t) => Append(s.store, Started(f, t), 0).Committed?
    case Begin(c, _) => !At(s, c)
    case ReadFamily(c, _) => At(s, c) && s.calls[c].at.Reading?
    case AppendRotation(c, n) => At(s, c) && s.calls[c].at.Rotating? && n != s.calls[c].presented
    case LoseReply(c, n) =>
      && At(s, c) && s.calls[c].at.Rotating?
      && Append(s.store, Rotated(s.calls[c].at.view.family, s.calls[c].presented, n), s.calls[c].at.view.version).Committed?
    case Reread(c) => At(s, c) && s.calls[c].at.Rereading?
    case AppendRevocation(c) => At(s, c) && s.calls[c].at.Revoking?
    case LoseRevocationReply(c) =>
      && At(s, c) && s.calls[c].at.Revoking?
      && Append(s.store, Revoked(s.calls[c].at.view.family, s.calls[c].presented), s.calls[c].at.view.version).Committed?
    case GiveUp(c) =>
      At(s, c) && !s.calls[c].at.Succeeded? && !s.calls[c].at.Rejected? && !s.calls[c].at.Unavailable?
  }

  function Move(s: State, c: nat, at: Progress): State
    requires At(s, c)
  {
    s.(calls := s.calls[c := s.calls[c].(at := at)])
  }

  function Decide(h: Hash, read: Option<View>, eligible: bool): Progress {
    match read
    case None => Rejected(NotFound)
    case Some(v) =>
      if v.superseded && !v.revoked then Rereading(0, v.version)
      else if v.revoked then Rejected(if v.superseded then Replay else FamilyRevoked)
      else if !eligible || v.active != h then Rejected(NotEligible)
      else Rotating(v)
  }

  function Recheck(read: Option<View>, attempt: nat, since: nat): Progress {
    match read
    case None => Rejected(Replay)
    case Some(v) => if v.revoked || !v.superseded then Rejected(Replay) else Revoking(v, attempt, since)
  }

  function Apply(s: State, step: Step): State
    requires Enabled(s, step)
  {
    match step
    case StartSession(f, t) => s.(store := Project(s.store, Started(f, t)))
    case Begin(c, h) => s.(calls := s.calls[c := Call(h, Reading)])
    case ReadFamily(c, eligible) =>
      var h := s.calls[c].presented;
      Move(s, c, Decide(h, Read(s.store, h), eligible))
    case AppendRotation(c, n) =>
      var v := s.calls[c].at.view;
      (match Append(s.store, Rotated(v.family, s.calls[c].presented, n), v.version)
       case Committed(store) => Move(s.(store := store), c, Succeeded(n))
       case Conflict => Move(s, c, Rereading(0, v.version))
       case Failed => Move(s, c, Unavailable(false, 0)))
    case LoseReply(c, n) =>
      var v := s.calls[c].at.view;
      Move(s.(store := Project(s.store, Rotated(v.family, s.calls[c].presented, n))), c, Unavailable(false, 0))
    case Reread(c) =>
      Move(s, c, Recheck(Read(s.store, s.calls[c].presented), s.calls[c].at.attempt, s.calls[c].at.since))
    case AppendRevocation(c) =>
      var Revoking(v, attempt, since) := s.calls[c].at;
      (match Append(s.store, Revoked(v.family, s.calls[c].presented), v.version)
       case Committed(store) => Move(s.(store := store), c, Rejected(Replay))
       case Conflict =>
         Move(s, c, if attempt + 1 < REVOCATION_ATTEMPTS then Rereading(attempt + 1, since) else Unavailable(true, since))
       case Failed => Move(s, c, Unavailable(false, 0)))
    case LoseRevocationReply(c) =>
      Move(s.(store := Project(s.store, Revoked(s.calls[c].at.view.family, s.calls[c].presented))), c, Unavailable(false, 0))
    case GiveUp(c) => Move(s, c, Unavailable(false, 0))
  }

  ghost predicate Next(s: State, t: State) {
    exists step :: Enabled(s, step) && t == Apply(s, step)
  }

  ghost predicate Run(run: seq<State>) {
    && |run| > 0 && run[0] == INITIAL
    && forall i :: 0 < i < |run| ==> Next(run[i-1], run[i])
  }

  // ---------------------------------------------------------------------
  // What every reachable state satisfies
  // ---------------------------------------------------------------------

  /** The active token of a family is its one token that is not superseded. */
  ghost predicate Coherent(s: Store) {
    && (forall h :: h in s.tokens ==> s.tokens[h].family in s.families)
    && (forall h :: h in s.tokens ==> (s.tokens[h].superseded <==> s.families[s.tokens[h].family].active != h))
    && (forall f :: f in s.families ==>
          s.families[f].version > 0 && s.families[f].active in s.tokens && s.tokens[s.families[f].active].family == f)
  }

  /** How the store may have changed since a token was read. */
  ghost predicate Evolved(s: Store, t: Store) {
    && (forall h :: h in s.tokens ==>
          h in t.tokens && t.tokens[h].family == s.tokens[h].family && (s.tokens[h].superseded ==> t.tokens[h].superseded))
    && (forall f :: f in s.families ==>
          && f in t.families && s.families[f].version <= t.families[f].version
          && (s.families[f].revoked ==> t.families[f].revoked)
          && (s.families[f].version == t.families[f].version ==> s.families[f] == t.families[f])
          && (s.families[f].version < t.families[f].version ==>
                t.families[f].revoked || (s.families[f].active in t.tokens && t.tokens[s.families[f].active].superseded)))
  }

  predicate Known(s: Store, h: Hash) {
    h in s.tokens && s.tokens[h].family in s.families
  }

  function FamilyOf(s: Store, h: Hash): Family
    requires Known(s, h)
  {
    s.families[s.tokens[h].family]
  }

  /** The presented token has been superseded, or its family revoked already. */
  predicate Spent(s: Store, h: Hash) {
    Known(s, h) && (s.tokens[h].superseded || FamilyOf(s, h).revoked)
  }

  ghost predicate Tracks(s: Store, c: Call) {
    match c.at
    case Rotating(v) =>
      && Known(s, c.presented) && v.family == s.tokens[c.presented].family
      && v.version <= FamilyOf(s, c.presented).version
      && (v.version < FamilyOf(s, c.presented).version ==> Spent(s, c.presented))
    case Rereading(n, since) =>
      Spent(s, c.presented) && n < REVOCATION_ATTEMPTS && FamilyOf(s, c.presented).version >= since + n
    case Revoking(v, n, since) =>
      && Spent(s, c.presented) && s.tokens[c.presented].superseded && n < REVOCATION_ATTEMPTS
      && v.family == s.tokens[c.presented].family
      && v.version <= FamilyOf(s, c.presented).version && v.version >= since + n
    case Succeeded(n) => Known(s, c.presented) && s.tokens[c.presented].superseded
    case Rejected(Replay) => Known(s, c.presented) && FamilyOf(s, c.presented).revoked
    case Unavailable(true, since) => Known(s, c.presented) && FamilyOf(s, c.presented).version >= since + REVOCATION_ATTEMPTS
    case _ => true
  }

  ghost predicate OneWinner(s: State) {
    forall c, d :: c in s.calls && d in s.calls && c != d && s.calls[c].at.Succeeded? && s.calls[d].at.Succeeded?
      ==> s.calls[c].presented != s.calls[d].presented
  }

  ghost predicate Invariant(s: State) {
    && Coherent(s.store) && OneWinner(s)
    && forall c :: c in s.calls ==> Tracks(s.store, s.calls[c])
  }

  lemma ProjectCoherent(s: Store, e: Event)
    requires Coherent(s) && Projectable(s, e)
    ensures Coherent(Project(s, e))
  {
    var t := Project(s, e);
    match e
    case Started(f, h) =>
      assert forall g :: g in s.families ==> s.families[g].active != h;
    case Rotated(f, p, n) =>
      assert forall g :: g in s.families ==> s.families[g].active != n;
      forall h | h in t.tokens
        ensures t.tokens[h].family in t.families
        ensures t.tokens[h].superseded <==> t.families[t.tokens[h].family].active != h
      {
        if h != p && h != n && s.tokens[h].family == f {
          assert s.families[f].active == p;
        }
      }
      forall g | g in t.families && g != f ensures t.families[g].active in t.tokens && t.tokens[t.families[g].active].family == g {
        assert s.tokens[s.families[g].active].family == g;
      }
    case Revoked(f, r) =>
  }

  lemma ProjectEvolves(s: Store, e: Event)
    requires Coherent(s) && Projectable(s, e)
    ensures Coherent(Project(s, e)) && Evolved(s, Project(s, e))
  {
    ProjectCoherent(s, e);
    if e.Rotated? {
      RotatedEvolves(s, e);
    }
  }

  lemma RotatedEvolves(s: Store, e: Event)
    requires Coherent(s) && Projectable(s, e) && e.Rotated?
    ensures Evolved(s, Project(s, e))
  {
    var t := Project(s, e);
    assert t.tokens[e.previous].superseded;
  }

  lemma StepEvolves(s: State, step: Step)
    requires Coherent(s.store) && Enabled(s, step)
    ensures Coherent(Apply(s, step).store) && Evolved(s.store, Apply(s, step).store)
  {
    match step
    case StartSession(f, t) => ProjectEvolves(s.store, Started(f, t));
    case AppendRotation(c, n) =>
      var e := Rotated(s.calls[c].at.view.family, s.calls[c].presented, n);
      if Projectable(s.store, e) { ProjectEvolves(s.store, e); }
    case LoseReply(c, n) =>
      ProjectEvolves(s.store, Rotated(s.calls[c].at.view.family, s.calls[c].presented, n));
    case AppendRevocation(c) =>
      var e := Revoked(s.calls[c].at.view.family, s.calls[c].presented);
      if Projectable(s.store, e) { ProjectEvolves(s.store, e); }
    case LoseRevocationReply(c) =>
      ProjectEvolves(s.store, Revoked(s.calls[c].at.view.family, s.calls[c].presented));
    case _ =>
  }

  /** What a call has learnt stays true however the store evolves. */
  lemma TracksStable(s: Store, t: Store, c: Call)
    requires Coherent(s) && Coherent(t) && Evolved(s, t) && Tracks(s, c)
    ensures Tracks(t, c)
  {
  }

  lemma TracksOwnStep(s: State, step: Step)
    requires Invariant(s) && Enabled(s, step) && !step.StartSession?
    ensures Tracks(Apply(s, step).store, Apply(s, step).calls[step.call])
  {
    if step.AppendRotation? || step.AppendRevocation? {
      TracksOwnAppend(s, step);
    }
  }

  lemma TracksOwnAppend(s: State, step: Step)
    requires Invariant(s) && Enabled(s, step) && (step.AppendRotation? || step.AppendRevocation?)
    ensures Tracks(Apply(s, step).store, Apply(s, step).calls[step.call])
  {
    assert Tracks(s.store, s.calls[step.call]);
  }

  lemma OneWinnerPreserved(s: State, step: Step)
    requires Invariant(s) && Enabled(s, step)
    ensures OneWinner(Apply(s, step))
  {
    if step.AppendRotation? {
      var v := s.calls[step.call].at.view;
      var h := s.calls[step.call].presented;
      if Append(s.store, Rotated(v.family, h, step.next), v.version).Committed? {
        assert !s.store.tokens[h].superseded;
        assert forall d :: d in s.calls && s.calls[d].at.Succeeded? ==> Tracks(s.store, s.calls[d]);
      }
    }
  }

  lemma InvariantPreserved(s: State, step: Step)
    requires Invariant(s) && Enabled(s, step)
    ensures Invariant(Apply(s, step))
  {
    StepEvolves(s, step);
    OneWinnerPreserved(s, step);
    var t := Apply(s, step);
    if !step.StartSession? {
      TracksOwnStep(s, step);
    }
    forall c | c in t.calls ensures Tracks(t.store, t.calls[c]) {
      if step.StartSession? || c != step.call {
        TracksStable(s.store, t.store, s.calls[c]);
      }
    }
  }

  lemma {:induction false} RunInvariant(run: seq<State>, i: nat)
    requires Run(run) && i < |run|
    ensures Invariant(run[i])
  {
    if i > 0 {
      RunInvariant(run, i - 1);
      assert Next(run[i-1], run[i]);
      var step :| Enabled(run[i-1], step) && run[i] == Apply(run[i-1], step);
      InvariantPreserved(run[i-1], step);
    }
  }

  // ---------------------------------------------------------------------
  // The guarantees
  // ---------------------------------------------------------------------

  /** A refresh token is rotated successfully at most once, by one call. */
  lemma RotatedAtMostOnce(run: seq<State>, i: nat, c: nat, d: nat)
    requires Run(run) && i < |run| && c in run[i].calls && d in run[i].calls
    requires run[i].calls[c].at.Succeeded? && run[i].calls[d].at.Succeeded?
    requires run[i].calls[c].presented == run[i].calls[d].presented
    ensures c == d
  {
    RunInvariant(run, i);
  }

  /** A call that found its token superseded, or lost the append race for it,
      and answers with the rejection leaves the whole family revoked. */
  lemma ReplayRevokesFamily(run: seq<State>, i: nat, c: nat)
    requires Run(run) && i < |run| && c in run[i].calls && run[i].calls[c].at == Rejected(Replay)
    ensures Known(run[i].store, run[i].calls[c].presented) && FamilyOf(run[i].store, run[i].calls[c].presented).revoked
  {
    RunInvariant(run, i);
    assert Tracks(run[i].store, run[i].calls[c]);
  }

  /** Losing the race, or finding the token superseded, is never answered by a
      plain rejection: from then on the call revokes, is rejected for replay, or
      reports that it reached no durable conclusion. */
  predicate Detecting(at: Progress) {
    at.Rereading? || at.Revoking? || at == Rejected(Replay) || at.Unavailable?
  }

  /** From s to t the call read a superseded token, or finished its append for a token that
      was spent by then. */
  predicate Detects(s: State, t: State, c: nat) {
    && c in s.calls && c in t.calls && Known(s.store, s.calls[c].presented)
    && (|| (s.calls[c].at.Reading? && !t.calls[c].at.Reading? && s.store.tokens[s.calls[c].presented].superseded)
        || (s.calls[c].at.Rotating? && !t.calls[c].at.Rotating? && Spent(s.store, s.calls[c].presented)))
  }

  ghost predicate KeepsDetecting(s: State, t: State, c: nat) {
    c in s.calls && Detecting(s.calls[c].at) ==> c in t.calls && Detecting(t.calls[c].at)
  }

  lemma DetectionStep(s: State, step: Step, c: nat)
    requires Invariant(s) && Enabled(s, step)
    ensures KeepsDetecting(s, Apply(s, step), c)
    ensures Detects(s, Apply(s, step), c) ==> Detecting(Apply(s, step).calls[c].at)
  {
    assert c in s.calls ==> Tracks(s.store, s.calls[c]);
  }

  lemma {:induction false} DetectingChain(run: seq<State>, i: nat, j: nat, c: nat)
    requires i <= j < |run| && forall k :: 0 < k < |run| ==> KeepsDetecting(run[k-1], run[k], c)
    ensures KeepsDetecting(run[i], run[j], c)
  {
    if i < j {
      DetectingChain(run, i, j - 1, c);
    }
  }

  /** A call that once found its token superseded, or lost the race for it, never succeeds:
      in every later state it revokes, is rejected for replay, or has reached no durable
      conclusion. */
  lemma DetectionIsFinal(run: seq<State>, i: nat, j: nat, c: nat)
    requires Run(run) && 0 < i <= j < |run| && Detects(run[i-1], run[i], c)
    ensures c in run[j].calls && Detecting(run[j].calls[c].at) && !run[j].calls[c].at.Succeeded?
  {
    forall k | 0 < k < |run|
      ensures KeepsDetecting(run[k-1], run[k], c)
      ensures Detects(run[k-1], run[k], c) ==> Detecting(run[k].calls[c].at)
    {
      RunInvariant(run, k - 1);
      assert Next(run[k-1], run[k]);
      var step :| Enabled(run[k-1], step) && run[k] == Apply(run[k-1], step);
      DetectionStep(run[k-1], step, c);
    }
    DetectingChain(run, i, j, c);
  }

  /** No call succeeds on a family that is revoked at that moment. */
  lemma SuccessNeedsLiveFamily(s: State, step: Step, c: nat)
    requires Invariant(s) && Enabled(s, step) && c in s.calls
    requires !s.calls[c].at.Succeeded? && Apply(s, step).calls[c].at.Succeeded?
    ensures Known(s.store, s.calls[c].presented) && !FamilyOf(s.store, s.calls[c].presented).revoked
    ensures FamilyOf(s.store, s.calls[c].presented).active == s.calls[c].presented
  {
  }

  lemma WonBeforeRevocation(s: State, step: Step, c: nat)
    requires Invariant(s) && Enabled(s, step) && c in Apply(s, step).calls && Apply(s, step).calls[c].at.Succeeded?
    requires var h := Apply(s, step).calls[c].presented; Known(s.store, h) && FamilyOf(s.store, h).revoked
    ensures c in s.calls && s.calls[c] == Apply(s, step).calls[c]
  {
    if c in s.calls && !s.calls[c].at.Succeeded? {
      SuccessNeedsLiveFamily(s, step, c);
    }
  }

  predicate Dead(s: State, h: Hash) {
    Known(s.store, h) && FamilyOf(s.store, h).revoked
  }

  /** Between the two states a dead token stayed dead and won nothing. */
  ghost predicate StaysDead(s: State, t: State, h: Hash) {
    Dead(s, h) ==>
      && Dead(t, h)
      && forall c :: c in t.calls && t.calls[c].at.Succeeded? && t.calls[c].presented == h
           ==> c in s.calls && s.calls[c] == t.calls[c]
  }

  lemma StaysDeadStep(s: State, step: Step, h: Hash)
    requires Invariant(s) && Enabled(s, step)
    ensures StaysDead(s, Apply(s, step), h)
  {
    StepEvolves(s, step);
    var t := Apply(s, step);
    if Dead(s, h) {
      forall c | c in t.calls && t.calls[c].at.Succeeded? && t.calls[c].presented == h
        ensures c in s.calls && s.calls[c] == t.calls[c]
      {
        WonBeforeRevocation(s, step, c);
      }
    }
  }

  lemma {:induction false} StaysDeadChain(run: seq<State>, i: nat, j: nat, h: Hash)
    requires i <= j < |run| && forall k :: 0 < k < |run| ==> StaysDead(run[k-1], run[k], h)
    ensures StaysDead(run[i], run[j], h)
  {
    if i < j {
      StaysDeadChain(run, i, j - 1, h);
    }
  }

  /** Once a family is revoked it stays revoked, and no call ever again rotates
      any of its tokens. */
  lemma RevocationIsFinal(run: seq<State>, i: nat, j: nat, h: Hash)
    requires Run(run) && i <= j < |run|
    ensures StaysDead(run[i], run[j], h)
  {
    forall k | 0 < k < |run| ensures StaysDead(run[k-1], run[k], h) {
      RunInvariant(run, k - 1);
      assert Next(run[k-1], run[k]);
      var step :| Enabled(run[k-1], step) && run[k] == Apply(run[k-1], step);
      StaysDeadStep(run[k-1], step, h);
    }
    StaysDeadChain(run, i, j, h);
  }

  /** A call gives up for contention only after the family has moved on by at
      least as many events as it made attempts. */
  lemma ContentionIsReal(run: seq<State>, i: nat, c: nat)
    requires Run(run) && i < |run| && c in run[i].calls
    requires run[i].calls[c].at.Unavailable? && run[i].calls[c].at.contention
    ensures Known(run[i].store, run[i].calls[c].presented)
    ensures FamilyOf(run[i].store, run[i].calls[c].presented).version >= run[i].calls[c].at.since + REVOCATION_ATTEMPTS
  {
    RunInvariant(run, i);
    assert Tracks(run[i].store, run[i].calls[c]);
  }
}
