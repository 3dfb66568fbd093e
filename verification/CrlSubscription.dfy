/**
 One CRL subscription as a concurrent protocol.

 Publishers merge a state into `pending`, signal a one-slot `wake` channel and
 rendezvous on `flush`; one goroutine moves states between `pending`, its local
 variable and a one-slot `updates` buffer that it may take back; a consumer
 empties that buffer. Every shared-memory or channel operation is one step, and
 the statements below range over all interleavings of those steps.
 */
module CrlSubscription {
  import opened Options
  import opened CrlState

  // ---------------------------------------------------------------------
  // The state machine
  // ---------------------------------------------------------------------

  /** Where the subscription goroutine stands. `ack` names the publisher whose
      flush is being served, if any. */
  datatype Goroutine =
    | AtTake
    | Idle
    | Sending(crl: SignedCrl)
    | Requeuing(crl: SignedCrl, ack: Option<nat>)
    | Reclaiming(ack: Option<nat>)
    | RequeuingBuffered(crl: SignedCrl, ack: Option<nat>)
    | Acknowledging(publisher: nat)
    | Stopped

  datatype Progress = Merging | Signalling | Flushing | Awaiting | Finished

  /** One `enqueue` call; `sync` marks the ones made by `enqueueAndSync`. */
  datatype Publisher = Publisher(crl: SignedCrl, sync: bool, at: Progress)

  /** `log` and `received` are histories: every state merged so far by a
      publisher, and every state the consumer has read, oldest first. */
  datatype State = State(
    pending: map<Key, SignedCrl>,
    wake: bool,
    goroutine: Goroutine,
    updates: Option<SignedCrl>,
    cancelled: bool,
    publishers: seq<Publisher>,
    acknowledged: set<nat>,
    log: seq<SignedCrl>,
    received: seq<SignedCrl>)

  datatype Step =
    | Arrive(crl: SignedCrl, sync: bool)
    | MergeIn(publisher: nat)
    | Signal(publisher: nat)
    | Take(key: Key)
    | TakeNothing
    | Send
    | Wake
    | Flush(publisher: nat)
    | Requeue
    | Reclaim
    | RequeueBuffered
    | CloseAck
    | SeeAck(publisher: nat)
    | Receive
    | Leave(publisher: nat)
    | Cancel
    | Stop

  function Advance(s: State, p: nat, at: Progress): State
    requires p < |s.publishers|
  {
    s.(publishers := s.publishers[p := s.publishers[p].(at := at)])
  }

  predicate At(s: State, p: nat, at: Progress) {
    p < |s.publishers| && s.publishers[p].at == at
  }

  predicate Enabled(s: State, step: Step) {
    match step
    case Arrive(_, _) => true
    case MergeIn(p) => At(s, p, Merging)
    case Signal(p) => At(s, p, Signalling)
    case Take(k) => s.goroutine == AtTake && IsFirst(s.pending, k)
    case TakeNothing => s.goroutine == AtTake && s.pending == map[]
    case Send => s.goroutine.Sending? && s.updates == None
    case Wake => s.wake && (s.goroutine == Idle || s.goroutine.Sending?)
    case Flush(p) => At(s, p, Flushing) && (s.goroutine == Idle || s.goroutine.Sending?)
    case Requeue => s.goroutine.Requeuing?
    case Reclaim => s.goroutine.Reclaiming?
    case RequeueBuffered => s.goroutine.RequeuingBuffered?
    case CloseAck => s.goroutine.Acknowledging?
    case SeeAck(p) => At(s, p, Awaiting) && p in s.acknowledged
    case Receive => s.updates.Some?
    case Leave(p) => At(s, p, Flushing) || At(s, p, Awaiting)
    case Cancel => !s.cancelled
    case Stop => s.cancelled && (s.goroutine == Idle || s.goroutine.Sending?)
  }

  /** Both select branches that leave the loop early put back what is held
      before they look at the buffer. */
  function PutBack(g: Goroutine, ack: Option<nat>): Goroutine
    requires g == Idle || g.Sending?
  {
    if g.Sending? then Requeuing(g.crl, ack) else Reclaiming(ack)
  }

  function AfterReclaim(ack: Option<nat>): Goroutine {
    match ack case None => AtTake case Some(p) => Acknowledging(p)
  }

  function Apply(s: State, step: Step): State
    requires Enabled(s, step)
  {
    match step
    case Arrive(crl, sync) => s.(publishers := s.publishers + [Publisher(crl, sync, Merging)])
    case MergeIn(p) =>
      var crl := s.publishers[p].crl;
      Advance(s, p, Signalling).(pending := Merge(s.pending, crl), log := s.log + [crl])
    case Signal(p) =>
      Advance(s, p, if s.publishers[p].sync then Flushing else Finished).(wake := true)
    case Take(k) =>
      s.(goroutine := Sending(s.pending[k]), pending := s.pending - {k}, wake := false)
    case TakeNothing => s.(goroutine := Idle)
    case Send => s.(goroutine := AtTake, updates := Some(s.goroutine.crl))
    case Wake => s.(goroutine := PutBack(s.goroutine, None), wake := false)
    case Flush(p) => Advance(s, p, Awaiting).(goroutine := PutBack(s.goroutine, Some(p)))
    case Requeue =>
      s.(goroutine := Reclaiming(s.goroutine.ack), pending := Merge(s.pending, s.goroutine.crl))
    case Reclaim =>
      if s.updates.Some?
      then s.(goroutine := RequeuingBuffered(s.updates.value, s.goroutine.ack), updates := None)
      else s.(goroutine := AfterReclaim(s.goroutine.ack))
    case RequeueBuffered =>
      s.(goroutine := AfterReclaim(s.goroutine.ack), pending := Merge(s.pending, s.goroutine.crl))
    case CloseAck =>
      s.(goroutine := AtTake, acknowledged := s.acknowledged + {s.goroutine.publisher})
    case SeeAck(p) => Advance(s, p, Finished)
    case Receive => s.(received := s.received + [s.updates.value], updates := None)
    case Leave(p) => Advance(s, p, Finished)
    case Cancel => s.(cancelled := true)
    case Stop => s.(goroutine := Stopped)
  }

  const INITIAL := State(map[], false, AtTake, None, false, [], {}, [], [])

  ghost predicate Next(s: State, t: State) {
    exists step :: Enabled(s, step) && t == Apply(s, step)
  }

  ghost predicate Run(run: seq<State>) {
    && |run| > 0
    && run[0] == INITIAL
    && forall i :: 0 < i < |run| ==> Next(run[i-1], run[i])
  }

  // ---------------------------------------------------------------------
  // What every reachable state satisfies
  // ---------------------------------------------------------------------

  /** The state the goroutine holds in a local variable. */
  function Hand(g: Goroutine): Option<SignedCrl> {
    if g.Sending? || g.Requeuing? || g.RequeuingBuffered? then Some(g.crl) else None
  }

  /** Still on its way to the consumer. */
  predicate Held(s: State, crl: SignedCrl) {
    || (crl.key in s.pending && s.pending[crl.key] == crl)
    || Hand(s.goroutine) == Some(crl)
    || s.updates == Some(crl)
  }

  /** Some state at least as new as `crl` is on its way or has arrived. */
  ghost predicate Covered(s: State, crl: SignedCrl) {
    exists d :: Supersedes(d, crl) && (Held(s, d) || d in s.received)
  }

  /** What is still on its way of key k is newer than everything received of it. */
  ghost predicate ReceivedFirst(s: State, k: Key) {
    forall r, h :: r in s.received && Held(s, h) && r.key == k && h.key == k ==> r.sequence < h.sequence
  }

  function Of(c: Option<SignedCrl>, k: Key): Option<SignedCrl> {
    if c.Some? && c.value.key == k then c else None
  }

  predicate Precedes(c: Option<SignedCrl>, d: Option<SignedCrl>) {
    c.Some? && d.Some? ==> c.value.sequence < d.value.sequence
  }

  function Lookup(pending: map<Key, SignedCrl>, k: Key): Option<SignedCrl> {
    if k in pending then Some(pending[k]) else None
  }

  /** Along the path buffered, in hand, pending, sequences of key k rise. */
  predicate PathRises(s: State, k: Key) {
    && Precedes(Of(s.updates, k), Of(Hand(s.goroutine), k))
    && Precedes(Of(s.updates, k), Lookup(s.pending, k))
    && Precedes(Of(Hand(s.goroutine), k), Lookup(s.pending, k))
  }

  ghost predicate Sorted(s: State, k: Key) {
    InOrderOf(s.received, k) && ReceivedFirst(s, k) && PathRises(s, k)
  }

  /** Nothing older than an acknowledged publication of key k is left on its way. */
  ghost predicate Barriers(s: State, k: Key) {
    forall p, h :: p in s.acknowledged && p < |s.publishers| && Held(s, h) && h.key == k && s.publishers[p].crl.key == k
      ==> h.sequence >= s.publishers[p].crl.sequence
  }

  predicate Serving(g: Goroutine, p: nat) {
    || ((g.Requeuing? || g.Reclaiming? || g.RequeuingBuffered?) && g.ack == Some(p))
    || g == Acknowledging(p)
  }

  /** Whatever is on its way or received was enqueued. */
  ghost predicate Holdings(s: State) {
    && Keyed(s.pending)
    && (s.goroutine.RequeuingBuffered? || s.goroutine.Acknowledging? ==> s.updates == None)
    && (s.goroutine == Stopped ==> s.cancelled)
    && (forall c :: Held(s, c) || c in s.received ==> c in s.log)
  }

  /** A publisher waits for an acknowledgement only while one is there or being prepared. */
  ghost predicate Bookkeeping(s: State) {
    && (forall p :: 0 <= p < |s.publishers| && s.publishers[p].at != Merging ==> s.publishers[p].crl in s.log)
    && (forall p: nat :: Serving(s.goroutine, p) || p in s.acknowledged ==> p < |s.publishers| && s.publishers[p].at != Merging)
    && (forall p :: At(s, p, Awaiting) ==> p in s.acknowledged || Serving(s.goroutine, p))
  }

  ghost predicate Structure(s: State) { Holdings(s) && Bookkeeping(s) }

  /** An idle goroutine with work pending has been, or is about to be, woken. */
  ghost predicate WakeupPending(s: State) {
    s.goroutine == Idle && s.pending != map[] ==> s.wake || exists p :: At(s, p, Signalling)
  }

  ghost predicate NothingLost(s: State) {
    s.goroutine != Stopped ==> forall c :: c in s.log ==> Covered(s, c)
  }

  ghost predicate Invariant(s: State) {
    && Structure(s)
    && WakeupPending(s)
    && NothingLost(s)
    && forall k :: Ordered(s, k)
  }

  /** What enqueueing key k oldest first gives, whatever happens to other keys. */
  ghost predicate Ordered(s: State, k: Key) {
    InOrderOf(s.log, k) ==> Sorted(s, k) && Barriers(s, k)
  }

  /** A step puts nothing on its way to the consumer but what was already on its
      way or what a publisher merges; the consumer reads only what was on its way. */
  lemma NothingInvented(s: State, step: Step, c: SignedCrl)
    requires Keyed(s.pending) && Enabled(s, step)
    ensures Held(Apply(s, step), c) ==> Held(s, c) || (step.MergeIn? && c == s.publishers[step.publisher].crl)
    ensures c in Apply(s, step).received ==> c in s.received || s.updates == Some(c)
  {
  }

  /** A live goroutine drops a state only in favour of one at least as new. */
  lemma NothingDropped(s: State, step: Step, c: SignedCrl) returns (d: SignedCrl)
    requires Keyed(s.pending) && Enabled(s, step) && step != Stop
    requires Held(s, c) || c in s.received
    ensures Supersedes(d, c) && (Held(Apply(s, step), d) || d in Apply(s, step).received)
  {
    var t := Apply(s, step);
    d := if Held(t, c) || c in t.received then c else t.pending[c.key];
  }

  lemma HoldingsPreserved(s: State, step: Step)
    requires Holdings(s) && Enabled(s, step)
    ensures Holdings(Apply(s, step))
  {
    var t := Apply(s, step);
    forall c | Held(t, c) || c in t.received ensures c in t.log {
      NothingInvented(s, step, c);
      assert c in s.log ==> c in t.log;
    }
  }

  /** The bookkeeping of one publisher. */
  predicate Kept(s: State, p: nat) {
    && (p < |s.publishers| && s.publishers[p].at != Merging ==> s.publishers[p].crl in s.log)
    && (Serving(s.goroutine, p) || p in s.acknowledged ==> p < |s.publishers| && s.publishers[p].at != Merging)
    && (At(s, p, Awaiting) ==> p in s.acknowledged || Serving(s.goroutine, p))
  }

  /** A publisher's own step, or another one's. */
  lemma KeptByPublisher(s: State, step: Step, p: nat)
    requires Kept(s, p) && Enabled(s, step) && (ByPublisher(step) || step.Arrive?)
    ensures Kept(Apply(s, step), p)
  {
    assert p < |s.publishers| && s.publishers[p].crl in s.log ==> s.publishers[p].crl in Apply(s, step).log;
  }

  lemma KeptByGoroutine(s: State, step: Step, p: nat)
    requires Kept(s, p) && Enabled(s, step) && !ByPublisher(step) && !step.Arrive?
    ensures Kept(Apply(s, step), p)
  {
  }

  lemma KeptEverywhere(s: State)
    requires forall p: nat :: Kept(s, p)
    ensures Bookkeeping(s)
  {
    forall p: nat ensures At(s, p, Awaiting) ==> p in s.acknowledged || Serving(s.goroutine, p) {
      assert Kept(s, p);
    }
    forall p: nat | p < |s.publishers| && s.publishers[p].at != Merging ensures s.publishers[p].crl in s.log {
      assert Kept(s, p);
    }
    forall p: nat | Serving(s.goroutine, p) || p in s.acknowledged
      ensures p < |s.publishers| && s.publishers[p].at != Merging
    {
      assert Kept(s, p);
    }
  }

  lemma BookkeepingPreserved(s: State, step: Step)
    requires Bookkeeping(s) && Enabled(s, step)
    ensures Bookkeeping(Apply(s, step))
  {
    forall p: nat ensures Kept(Apply(s, step), p) {
      if ByPublisher(step) || step.Arrive? {
        KeptByPublisher(s, step, p);
      } else {
        KeptByGoroutine(s, step, p);
      }
    }
    KeptEverywhere(Apply(s, step));
  }

  lemma WakeupPreserved(s: State, step: Step)
    requires Structure(s) && WakeupPending(s) && Enabled(s, step)
    ensures WakeupPending(Apply(s, step))
  {
    var t := Apply(s, step);
    if step.MergeIn? {
      assert At(t, step.publisher, Signalling);
    } else if s.goroutine == Idle && s.pending != map[] && !s.wake {
      var p :| At(s, p, Signalling);
      assert t.wake || At(t, p, Signalling);
    }
  }

  lemma NothingLostPreserved(s: State, step: Step)
    requires Structure(s) && NothingLost(s) && Enabled(s, step)
    ensures NothingLost(Apply(s, step))
  {
    var t := Apply(s, step);
    if t.goroutine != Stopped {
      forall c | c in t.log ensures Covered(t, c) {
        if c in s.log {
          var d :| Supersedes(d, c) && (Held(s, d) || d in s.received);
          var e := NothingDropped(s, step, d);
        } else {
          assert Supersedes(t.pending[c.key], c) && Held(t, t.pending[c.key]);
        }
      }
    }
  }

  /** What a publisher merges of key k is newer than all of it that it could meet. */
  ghost predicate MergesNewest(s: State, step: Step, k: Key)
    requires Enabled(s, step)
  {
    step.MergeIn? && s.publishers[step.publisher].crl.key == k ==>
      forall d :: d in s.log && d.key == k ==> d.sequence < s.publishers[step.publisher].crl.sequence
  }

  lemma InOrderStep(s: State, step: Step, k: Key)
    requires Enabled(s, step) && InOrderOf(Apply(s, step).log, k)
    ensures InOrderOf(s.log, k) && MergesNewest(s, step, k)
  {
    var log := Apply(s, step).log;
    assert forall i :: 0 <= i < |s.log| ==> s.log[i] == log[i];
    if step.MergeIn? && s.publishers[step.publisher].crl.key == k {
      var c := s.publishers[step.publisher].crl;
      forall d | d in s.log && d.key == k ensures d.sequence < c.sequence {
        var i :| 0 <= i < |s.log| && s.log[i] == d;
        assert log[i] == d && log[|s.log|] == c;
      }
    }
  }

  lemma PathRisesPreserved(s: State, step: Step, k: Key)
    requires Holdings(s) && PathRises(s, k) && Enabled(s, step) && MergesNewest(s, step, k)
    ensures PathRises(Apply(s, step), k)
  {
    if step.MergeIn? {
      PathRisesMerging(s, step, k);
    } else {
      PathRisesMoving(s, step, k);
    }
  }

  lemma PathRisesMerging(s: State, step: Step, k: Key)
    requires Holdings(s) && PathRises(s, k) && Enabled(s, step) && MergesNewest(s, step, k) && step.MergeIn?
    ensures PathRises(Apply(s, step), k)
  {
    assert Hand(s.goroutine).Some? ==> Held(s, Hand(s.goroutine).value);
    assert s.updates.Some? ==> Held(s, s.updates.value);
  }

  /** A state only moves along the path, or is put back where it is older than what is pending. */
  lemma PathRisesMoving(s: State, step: Step, k: Key)
    requires Keyed(s.pending) && (s.goroutine.RequeuingBuffered? || s.goroutine.Acknowledging? ==> s.updates == None)
    requires PathRises(s, k) && Enabled(s, step) && !step.MergeIn?
    ensures PathRises(Apply(s, step), k)
  {
  }

  lemma ReceivedFirstPreserved(s: State, step: Step, k: Key)
    requires Holdings(s) && Sorted(s, k) && Enabled(s, step) && MergesNewest(s, step, k)
    ensures InOrderOf(Apply(s, step).received, k) && ReceivedFirst(Apply(s, step), k)
  {
    var t := Apply(s, step);
    if step.Receive? {
      assert Held(s, s.updates.value);
    }
    forall r, h | r in t.received && Held(t, h) && r.key == k && h.key == k ensures r.sequence < h.sequence {
      NothingInvented(s, step, h);
      NothingInvented(s, step, r);
      if r !in s.received {
        assert Hand(s.goroutine) == Some(h) || s.pending[h.key] == h;
      }
    }
  }

  /** When an acknowledgement is sent, only `pending` holds states, and what it
      holds of a key is the newest merged so far. */
  lemma AcknowledgedIsNewest(s: State, c: SignedCrl, h: SignedCrl)
    requires Holdings(s) && NothingLost(s) && ReceivedFirst(s, c.key) && s.goroutine.Acknowledging?
    requires c in s.log && Held(s, h) && h.key == c.key
    ensures h.sequence >= c.sequence
  {
    var d :| Supersedes(d, c) && (Held(s, d) || d in s.received);
  }

  lemma BarriersPreserved(s: State, step: Step, k: Key)
    requires Structure(s) && Barriers(s, k) && Enabled(s, step) && MergesNewest(s, step, k)
    requires step.CloseAck? ==> NothingLost(s) && ReceivedFirst(s, k)
    ensures Barriers(Apply(s, step), k)
  {
    var t := Apply(s, step);
    forall p, h | p in t.acknowledged && p < |t.publishers| && Held(t, h) && h.key == k && t.publishers[p].crl.key == k
      ensures h.sequence >= t.publishers[p].crl.sequence
    {
      BarrierKept(s, step, p, h, k);
    }
  }

  lemma BarrierKept(s: State, step: Step, p: nat, h: SignedCrl, k: Key)
    requires Structure(s) && Barriers(s, k) && Enabled(s, step) && MergesNewest(s, step, k)
    requires step.CloseAck? ==> NothingLost(s) && ReceivedFirst(s, k)
    requires p in Apply(s, step).acknowledged && p < |Apply(s, step).publishers|
    requires Held(Apply(s, step), h) && h.key == k && Apply(s, step).publishers[p].crl.key == k
    ensures h.sequence >= Apply(s, step).publishers[p].crl.sequence
  {
    NothingInvented(s, step, h);
    assert p < |s.publishers| && Apply(s, step).publishers[p].crl == s.publishers[p].crl;
    if p !in s.acknowledged {
      AcknowledgedIsNewest(s, s.publishers[p].crl, h);
    }
  }

  lemma OrderedPreserved(s: State, step: Step, k: Key)
    requires Structure(s) && NothingLost(s) && Ordered(s, k) && Enabled(s, step)
    ensures Ordered(Apply(s, step), k)
  {
    if InOrderOf(Apply(s, step).log, k) {
      InOrderStep(s, step, k);
      PathRisesPreserved(s, step, k);
      ReceivedFirstPreserved(s, step, k);
      BarriersPreserved(s, step, k);
    }
  }

  lemma InvariantPreserved(s: State, step: Step)
    requires Invariant(s) && Enabled(s, step)
    ensures Invariant(Apply(s, step))
  {
    HoldingsPreserved(s, step);
    BookkeepingPreserved(s, step);
    WakeupPreserved(s, step);
    NothingLostPreserved(s, step);
    forall k ensures Ordered(Apply(s, step), k) {
      OrderedPreserved(s, step, k);
    }
  }

  lemma {:induction false} RunInvariant(run: seq<State>, i: nat)
    requires Run(run) && i < |run|
    ensures Invariant(run[i])
  {
    if i > 0 {
      RunInvariant(run, i - 1);
      assert Next(run[i-1], run[i]);
      var step :| Enabled(run[i-1], step) && run[i] == Apply(run[i-1], step);
      InvariantPreserved(run[i-1], step);
    }
  }

  // ---------------------------------------------------------------------
  // Safety over whole runs
  // ---------------------------------------------------------------------

  ghost predicate IsNewest(log: seq<SignedCrl>, c: SignedCrl) {
    c in log && forall d :: d in log && d.key == c.key ==> d.sequence <= c.sequence
  }

  /** The newest sequence ever enqueued for a key is always pending, in hand,
      buffered or received, until the subscription is torn down. */
  lemma NewestNeverLost(run: seq<State>, i: nat, c: SignedCrl)
    requires Run(run) && i < |run| && run[i].goroutine != Stopped
    requires IsNewest(run[i].log, c)
    ensures exists d: SignedCrl :: d.key == c.key && d.sequence == c.sequence && (Held(run[i], d) || d in run[i].received)
  {
    RunInvariant(run, i);
    var d :| Supersedes(d, c) && (Held(run[i], d) || d in run[i].received);
  }

  /** If the states of a key are enqueued oldest first, the consumer receives strictly
      rising sequences of it, however often states are put back and in whatever order
      other keys are enqueued. */
  lemma ReceivedInOrder(run: seq<State>, i: nat, k: Key)
    requires Run(run) && i < |run| && InOrderOf(run[i].log, k)
    ensures InOrderOf(run[i].received, k)
  {
    RunInvariant(run, i);
    assert Ordered(run[i], k);
  }

  /** Histories, acknowledgements and publishers only accumulate. */
  ghost predicate Grows(s: State, t: State) {
    && s.log <= t.log && s.received <= t.received && s.acknowledged <= t.acknowledged
    && |s.publishers| <= |t.publishers|
    && forall p :: 0 <= p < |s.publishers| ==> t.publishers[p].crl == s.publishers[p].crl
  }

  /** What is newly received was on its way. */
  ghost predicate Delivers(s: State, t: State) {
    Grows(s, t) && forall m :: |s.received| <= m < |t.received| ==> Held(s, t.received[m])
  }

  lemma StepDelivers(s: State, step: Step)
    requires Enabled(s, step)
    ensures Delivers(s, Apply(s, step))
  {
  }

  lemma GrowsTransitive(s: State, t: State, u: State)
    requires Grows(s, t) && Grows(t, u)
    ensures Grows(s, u)
  {
  }

  lemma {:induction false} GrowthChains(run: seq<State>, i: nat, j: nat)
    requires i <= j < |run| && forall k :: 0 < k < |run| ==> Grows(run[k-1], run[k])
    ensures Grows(run[i], run[j])
  {
    if i < j {
      GrowthChains(run, i, j - 1);
      GrowsTransitive(run[i], run[j-1], run[j]);
    }
  }

  lemma RunDelivers(run: seq<State>)
    requires Run(run)
    ensures forall k :: 0 < k < |run| ==> Delivers(run[k-1], run[k])
  {
    forall k | 0 < k < |run| ensures Delivers(run[k-1], run[k]) {
      assert Next(run[k-1], run[k]);
      var step :| Enabled(run[k-1], step) && run[k] == Apply(run[k-1], step);
      StepDelivers(run[k-1], step);
    }
  }

  /** s has acknowledged p; what t receives after a state with barriers respects that. */
  lemma DeliveredBehindBarrier(a: State, s: State, t: State, p: nat, m: nat)
    requires Grows(a, s) && Delivers(s, t) && p < |a.publishers| && Barriers(s, a.publishers[p].crl.key)
    requires p in a.acknowledged && p < |a.publishers| && |s.received| <= m < |t.received|
    requires t.received[m].key == a.publishers[p].crl.key
    ensures t.received[m].sequence >= a.publishers[p].crl.sequence
  {
  }

  lemma {:induction false} BarrierChains(run: seq<State>, i: nat, j: nat, p: nat, m: nat)
    requires i <= j < |run| && forall k :: 0 < k < |run| ==> Delivers(run[k-1], run[k])
    requires p in run[i].acknowledged && p < |run[i].publishers|
    requires forall k :: 0 <= k <= j ==> Barriers(run[k], run[i].publishers[p].crl.key)
    requires |run[i].received| <= m < |run[j].received|
    requires run[j].received[m].key == run[i].publishers[p].crl.key
    ensures run[j].received[m].sequence >= run[i].publishers[p].crl.sequence
  {
    if m < |run[j-1].received| {
      BarrierChains(run, i, j - 1, p, m);
    } else {
      GrowthChains(run, i, j - 1);
      DeliveredBehindBarrier(run[i], run[j-1], run[j], p, m);
    }
  }

  /** Once a publisher has been acknowledged, the consumer never again receives
      an older state of that key, provided that this key is enqueued oldest first. */
  lemma FlushBarrier(run: seq<State>, i: nat, j: nat, p: nat, m: nat)
    requires Run(run) && i <= j < |run|
    requires p in run[i].acknowledged && p < |run[i].publishers|
    requires InOrderOf(run[j].log, run[i].publishers[p].crl.key)
    requires |run[i].received| <= m < |run[j].received|
    requires run[j].received[m].key == run[i].publishers[p].crl.key
    ensures run[j].received[m].sequence >= run[i].publishers[p].crl.sequence
  {
    var key := run[i].publishers[p].crl.key;
    RunDelivers(run);
    forall k | 0 <= k <= j ensures Barriers(run[k], key) {
      GrowthChains(run, k, j);
      InOrderPrefix(run[k].log, run[j].log, key);
      RunInvariant(run, k);
      assert Ordered(run[k], key);
    }
    BarrierChains(run, i, j, p, m);
  }

  lemma InOrderPrefix(log: seq<SignedCrl>, longer: seq<SignedCrl>, k: Key)
    requires log <= longer && InOrderOf(longer, k)
    ensures InOrderOf(log, k)
  {
  }

  // ---------------------------------------------------------------------
  // Progress
  // ---------------------------------------------------------------------

  /** Steps that new publications, context expiry or teardown are responsible for. */
  predicate External(step: Step) {
    step.Arrive? || step.Leave? || step.Cancel? || step.Stop?
  }

  ghost predicate CanProceed(s: State) {
    exists step :: !External(step) && Enabled(s, step)
  }

  /** Every publisher has returned and the consumer has the newest of every key. */
  ghost predicate Settled(s: State) {
    && s.goroutine == Idle && s.pending == map[] && s.updates == None
    && (forall p :: 0 <= p < |s.publishers| ==> s.publishers[p].at == Finished)
    && (forall c :: c in s.log ==> exists d :: Supersedes(d, c) && d in s.received)
  }

  /** On every path of publisher, goroutine and consumer steps, whichever of the
      enabled ones is scheduled, a settled state is reached. A publisher giving
      up because its own context ends is allowed but never needed. */
  least predicate Settles(s: State) {
    Settled(s) || (CanProceed(s) && forall step :: (!External(step) || step.Leave?) && Enabled(s, step) ==> Settles(Apply(s, step)))
  }

  /** Progress that does not need the consumer to read. */
  ghost predicate CanProceedUnread(s: State) {
    exists step :: !External(step) && step != Receive && Enabled(s, step)
  }

  predicate AllReturned(s: State) {
    forall p :: 0 <= p < |s.publishers| ==> s.publishers[p].at == Finished
  }

  /** On every path of publisher, goroutine and consumer steps, all publishers return.  The
      consumer may read at any point or never: some other step is always enabled until then. */
  least predicate Releases(s: State) {
    AllReturned(s) || (CanProceedUnread(s) && forall step :: (!External(step) || step.Leave?) && Enabled(s, step) ==> Releases(Apply(s, step)))
  }

  lemma BusyCanProceed(s: State)
    requires !s.goroutine.Idle? && !s.goroutine.Sending? && !s.goroutine.Stopped?
    ensures CanProceedUnread(s)
  {
    var step := match s.goroutine
      case Requeuing(_, _) => Requeue
      case Reclaiming(_) => Reclaim
      case RequeuingBuffered(_, _) => RequeueBuffered
      case Acknowledging(_) => CloseAck
      case _ => TakeNothing;
    if s.goroutine == AtTake && s.pending != map[] {
      var k := FirstExists(s.pending);
      step := Take(k);
    }
    assert !External(step) && step != Receive && Enabled(s, step);
  }

  /** A slow consumer holds no one: in a live subscription where only a read by the consumer
      could still happen, every publisher has returned. */
  lemma UnreadHoldsNoPublisher(s: State)
    requires Structure(s) && !s.cancelled && !CanProceedUnread(s)
    ensures (s.goroutine == Idle || s.goroutine.Sending?) && !s.wake && AllReturned(s)
  {
    if !s.goroutine.Idle? && !s.goroutine.Sending? {
      BusyCanProceed(s);
    }
    assert !Enabled(s, Wake);
    forall p: nat | p < |s.publishers| ensures s.publishers[p].at == Finished {
      assert !Enabled(s, MergeIn(p)) && !Enabled(s, Signal(p)) && !Enabled(s, Flush(p)) && !Enabled(s, SeeAck(p));
      assert At(s, p, Awaiting) ==> p in s.acknowledged;
    }
  }

  /** A live subscription in which no one, the consumer included, can take a step has
      settled: there is no lost wake-up and nothing is left undelivered. */
  lemma StuckIsSettled(s: State)
    requires Structure(s) && WakeupPending(s) && NothingLost(s) && !s.cancelled && !CanProceed(s)
    ensures Settled(s)
  {
    UnreadHoldsNoPublisher(s);
    assert !Enabled(s, Receive) && !Enabled(s, Send);
    assert forall p :: !At(s, p, Signalling);
    assert s.pending == map[];
    forall c | c in s.log ensures exists d :: Supersedes(d, c) && d in s.received {
      var d :| Supersedes(d, c) && (Held(s, d) || d in s.received);
    }
  }

  function Remaining(at: Progress): nat {
    match at case Merging => 4 case Signalling => 3 case Flushing => 2 case Awaiting => 1 case Finished => 0
  }

  function TotalRemaining(ps: seq<Publisher>): nat {
    if ps == [] then 0 else TotalRemaining(ps[..|ps|-1]) + Remaining(ps[|ps|-1].at)
  }

  lemma {:induction false} TotalRemainingUpdate(ps: seq<Publisher>, p: nat, q: Publisher)
    requires p < |ps|
    ensures TotalRemaining(ps[p := q]) == TotalRemaining(ps) - Remaining(ps[p].at) + Remaining(q.at)
  {
    if p == |ps| - 1 {
      assert ps[p := q][..|ps|-1] == ps[..|ps|-1];
    } else {
      assert ps[p := q][..|ps|-1] == ps[..|ps|-1][p := q];
      TotalRemainingUpdate(ps[..|ps|-1], p, q);
    }
  }

  function Phase(g: Goroutine): nat {
    match g
    case Requeuing(_, _) => 4
    case Reclaiming(_) => 3
    case RequeuingBuffered(_, _) => 2
    case Acknowledging(_) => 1
    case _ => 0
  }

  function Weight(s: State): nat {
    3 * |s.pending| + (if s.goroutine.Sending? then 3 else 0)
    + (if s.updates.Some? then 1 else 0) + (if s.goroutine == AtTake then 1 else 0)
  }

  predicate ByPublisher(step: Step) {
    step.MergeIn? || step.Signal? || step.Flush? || step.SeeAck? || step.Leave?
  }

  lemma PublisherDescends(s: State, step: Step)
    requires Enabled(s, step) && ByPublisher(step)
    ensures TotalRemaining(Apply(s, step).publishers) < TotalRemaining(s.publishers)
  {
    var p := step.publisher;
    TotalRemainingUpdate(s.publishers, p, Apply(s, step).publishers[p]);
  }

  lemma TakeDescends(s: State, k: Key)
    requires Enabled(s, Take(k))
    ensures Weight(Apply(s, Take(k))) < Weight(s)
  {
    assert Apply(s, Take(k)).pending.Keys == s.pending.Keys - {k};
  }

  /** Every step but an arrival uses up a bounded resource: publisher progress,
      then the wake token, then the put-back phase, then undelivered states. */
  lemma StepDescends(s: State, step: Step)
    requires Enabled(s, step) && (!External(step) || step.Leave?)
    ensures var t := Apply(s, step);
            var a, b := TotalRemaining(t.publishers), TotalRemaining(s.publishers);
            a < b || (a == b && (
              (s.wake && !t.wake) || (s.wake == t.wake && (
                Phase(t.goroutine) < Phase(s.goroutine) ||
                (Phase(t.goroutine) == Phase(s.goroutine) && Weight(t) < Weight(s))))))
  {
    if ByPublisher(step) {
      PublisherDescends(s, step);
    } else if step.Take? {
      TakeDescends(s, step.key);
    }
  }

  /** Once publications stop, every publisher returns, whatever the scheduler does and
      whether or not the consumer ever reads. */
  lemma {:induction false} AlwaysReleases(s: State)
    requires Structure(s) && !s.cancelled
    ensures Releases(s)
    decreases TotalRemaining(s.publishers), if s.wake then 1 else 0, Phase(s.goroutine), Weight(s)
  {
    if !CanProceedUnread(s) {
      UnreadHoldsNoPublisher(s);
    } else {
      forall step | (!External(step) || step.Leave?) && Enabled(s, step) ensures Releases(Apply(s, step)) {
        HoldingsPreserved(s, step);
        BookkeepingPreserved(s, step);
        StepDescends(s, step);
        AlwaysReleases(Apply(s, step));
      }
    }
  }

  lemma RunReleases(run: seq<State>, i: nat)
    requires Run(run) && i < |run| && !run[i].cancelled
    ensures Releases(run[i])
  {
    RunInvariant(run, i);
    AlwaysReleases(run[i]);
  }

  /** With a consumer whose reads are scheduled like every other step, once publications
      stop the newest state of every key is delivered as well. */
  lemma {:induction false} AlwaysSettles(s: State)
    requires Invariant(s) && !s.cancelled
    ensures Settles(s)
    decreases TotalRemaining(s.publishers), if s.wake then 1 else 0, Phase(s.goroutine), Weight(s)
  {
    if !CanProceed(s) {
      StuckIsSettled(s);
    } else {
      forall step | (!External(step) || step.Leave?) && Enabled(s, step) ensures Settles(Apply(s, step)) {
        InvariantPreserved(s, step);
        StepDescends(s, step);
        AlwaysSettles(Apply(s, step));
      }
    }
  }

  lemma RunSettles(run: seq<State>, i: nat)
    requires Run(run) && i < |run| && !run[i].cancelled
    ensures Settles(run[i])
  {
    RunInvariant(run, i);
    AlwaysSettles(run[i]);
  }

  // ---------------------------------------------------------------------
  // Overlapping publications
  // ---------------------------------------------------------------------

  function Last(run: seq<State>): State
    requires |run| > 0
  {
    run[|run|-1]
  }

  lemma Extend(run: seq<State>, step: Step) returns (longer: seq<State>)
    requires Run(run) && Enabled(Last(run), step)
    ensures Run(longer) && Last(longer) == Apply(Last(run), step)
  {
    longer := run + [Apply(Last(run), step)];
    forall i | 0 < i < |longer| ensures Next(longer[i-1], longer[i]) {
      if i < |run| {
        assert Next(run[i-1], run[i]);
      }
    }
  }

  predicate Rests(s: State) {
    s.goroutine == AtTake && s.pending == map[] && s.updates == None && !s.wake
  }

  lemma DeliverOne(run: seq<State>, c: SignedCrl) returns (longer: seq<State>)
    requires Run(run) && Rests(Last(run))
    ensures Run(longer) && Rests(Last(longer))
    ensures Last(longer).log == Last(run).log + [c] && Last(longer).received == Last(run).received + [c]
  {
    var p := |Last(run).publishers|;
    longer := Extend(run, Arrive(c, false));
    longer := Extend(longer, MergeIn(p));
    longer := Extend(longer, Signal(p));
    assert Last(longer).pending == map[c.key := c];
    longer := Extend(longer, Take(c.key));
    longer := Extend(longer, Send);
    longer := Extend(longer, Receive);
  }

  /** Any sequence of publications can be delivered one by one as it is enqueued. */
  lemma {:induction false} EagerRun(log: seq<SignedCrl>) returns (run: seq<State>)
    ensures Run(run) && Rests(Last(run)) && Last(run).log == log && Last(run).received == log
  {
    if log == [] {
      run := [INITIAL];
    } else {
      var n := |log| - 1;
      run := EagerRun(log[..n]);
      run := DeliverOne(run, log[n]);
      assert log == log[..n] + [log[n]];
    }
  }

  /** The delivery order of a key is guaranteed by exactly the enqueue logs in which that
      key rises; nothing is asked of other keys. */
  lemma InOrderIffGuaranteed(log: seq<SignedCrl>, k: Key)
    ensures InOrderOf(log, k) <==> forall run :: Run(run) && Last(run).log == log ==> InOrderOf(Last(run).received, k)
  {
    if InOrderOf(log, k) {
      forall run | Run(run) && Last(run).log == log ensures InOrderOf(Last(run).received, k) {
        ReceivedInOrder(run, |run| - 1, k);
      }
    } else {
      var run := EagerRun(log);
      assert Run(run) && Last(run).log == log && !InOrderOf(Last(run).received, k);
    }
  }

  // ---------------------------------------------------------------------
  // The lock-protected operations the steps stand for
  // ---------------------------------------------------------------------

  /** The operations below act on the shared fields as the steps do. */
  lemma OperationsAreSteps(s: State, p: nat, k: Key)
    ensures At(s, p, Merging) ==>
              var t := Apply(Apply(s, MergeIn(p)), Signal(p));
              t.pending == Merge(s.pending, s.publishers[p].crl) && t.wake && t.updates == s.updates
    ensures Enabled(s, Take(k)) ==>
              var t := Apply(s, Take(k));
              Hand(t.goroutine) == Some(s.pending[k]) && t.pending == s.pending - {k} && !t.wake && t.updates == s.updates
    ensures Enabled(s, TakeNothing) ==>
              var t := Apply(s, TakeNothing);
              Hand(t.goroutine) == None && t.pending == s.pending && t.wake == s.wake && t.updates == s.updates
    ensures Enabled(s, Reclaim) ==>
              var t := if s.updates.None? then Apply(s, Reclaim) else Apply(Apply(s, Reclaim), RequeueBuffered);
              && t.updates == None && t.wake == s.wake
              && t.pending == match s.updates case None => s.pending case Some(crl) => Merge(s.pending, crl)
  {
    if At(s, p, Merging) {
      assert At(Apply(s, MergeIn(p)), p, Signalling);
    }
  }

  class Subscription {
    var pending: map<Key, SignedCrl>
    var wake: bool
    var updates: Option<SignedCrl>

    constructor ()
      ensures pending == map[] && !wake && updates == None
    {
      pending, wake, updates := map[], false, None;
    }

    /** The key holds the newer of the two, the old one on a tie; other keys are untouched. */
    method MergeLocked(crl: SignedCrl)
      modifies this`pending
      ensures pending == Merge(old(pending), crl)
      ensures crl.key in pending && pending[crl.key].sequence >= crl.sequence
      ensures pending[crl.key] == crl || (crl.key in old(pending) && pending[crl.key] == old(pending)[crl.key])
      ensures crl.key in old(pending) && old(pending)[crl.key].sequence >= crl.sequence ==> pending == old(pending)
      ensures pending - {crl.key} == old(pending) - {crl.key}
    {
      if crl.key in pending {
        if crl.sequence > pending[crl.key].sequence {
          pending := pending[crl.key := crl];
        }
      } else {
        pending := pending[crl.key := crl];
      }
    }

    method Enqueue(crl: SignedCrl)
      modifies this`pending, this`wake
      ensures pending == Merge(old(pending), crl) && wake
    {
      MergeLocked(crl);
      wake := true;
    }

    method ReclaimBuffered()
      modifies this`pending, this`updates
      ensures updates == None
      ensures pending == match old(updates) case None => old(pending) case Some(crl) => Merge(old(pending), crl)
    {
      if updates.Some? {
        var crl := updates.value;
        updates := None;
        MergeLocked(crl);
      }
    }

    /** Remove and return the entry of the smallest issuer and drop the wake token. */
    method Take() returns (crl: Option<SignedCrl>)
      modifies this`pending, this`wake
      ensures old(pending) == map[] ==> crl == None && pending == old(pending) && wake == old(wake)
      ensures old(pending) != map[] ==>
                && crl.Some? && !wake
                && exists k :: IsFirst(old(pending), k) && crl.value == old(pending)[k] && pending == old(pending) - {k}
    {
      if pending == map[] {
        return None;
      }
      var first :| first in pending;
      var rest := pending.Keys - {first};
      while rest != {}
        invariant rest <= pending.Keys && first in pending
        invariant forall k :: k in pending.Keys - rest ==> first.issuer <= k.issuer
        decreases |rest|
      {
        var k :| k in rest;
        if k.issuer < first.issuer {
          first := k;
        }
        rest := rest - {k};
      }
      assert IsFirst(pending, first);
      crl := Some(pending[first]);
      pending := pending - {first};
      wake := false;
    }
  }
}
