/**
 What the distributor keeps under its lock: the per-key `latest` map, the connected
 subscribers with what has been enqueued to them, and the fan-outs that are not finished.
 It changes by the critical sections of Subscribe and Publish, by single enqueues of a
 fan-out, and by subscribers leaving.
 */
module CrlBoard {
  import opened CrlState

  // ---------------------------------------------------------------------
  // The critical sections
  // ---------------------------------------------------------------------

  /** Subscribe's loop over the durable states it read: raise or insert entries
      until one is found to have forked; what was raised before stays raised. */
  function Adopt(latest: map<Key, SignedCrl>, current: seq<SignedCrl>): (map<Key, SignedCrl>, bool)
    decreases current
  {
    if current == [] then (latest, true)
    else
      var c := current[0];
      if c.key !in latest || latest[c.key].sequence < c.sequence then Adopt(latest[c.key := c], current[1..])
      else if latest[c.key].sequence > c.sequence || latest[c.key] == c then Adopt(latest, current[1..])
      else (latest, false)
  }

  /** Entries only rise, strictly and to states that were read. */
  ghost predicate RisesTo(latest: map<Key, SignedCrl>, later: map<Key, SignedCrl>, from: set<SignedCrl>) {
    && (forall k :: k in latest ==>
          k in later && (later[k] == latest[k] || (later[k].sequence > latest[k].sequence && later[k] in from)))
    && (forall k :: k in later && k !in latest ==> later[k] in from)
  }

  ghost predicate Reflects(latest: map<Key, SignedCrl>, c: SignedCrl) {
    c.key in latest && (latest[c.key] == c || latest[c.key].sequence > c.sequence)
  }

  /** Adoption succeeds exactly when every state read ends up matched or
      superseded; a fork is the only way to fail. */
  lemma {:induction false} AdoptExact(latest: map<Key, SignedCrl>, current: seq<SignedCrl>)
    requires Keyed(latest)
    ensures var (later, ok) := Adopt(latest, current);
            && Keyed(later)
            && RisesTo(latest, later, set c | c in current)
            && (ok <==> forall c :: c in current ==> Reflects(later, c))
    decreases current
  {
    if current != [] {
      var c := current[0];
      var (later, ok) := Adopt(latest, current);
      assert forall d :: d in current <==> d == c || d in current[1..];
      if c.key !in latest || latest[c.key].sequence < c.sequence {
        AdoptExact(latest[c.key := c], current[1..]);
        assert c.key in latest[c.key := c];
      } else if latest[c.key].sequence > c.sequence || latest[c.key] == c {
        AdoptExact(latest, current[1..]);
      } else {
        assert !Reflects(latest, c);
      }
    }
  }

  /** `queued` is everything enqueued to the subscription, oldest first. */
  datatype Subscriber = Subscriber(kind: CertificateClass, queued: seq<SignedCrl>)

  function ClassState(latest: map<Key, SignedCrl>, kind: CertificateClass): set<SignedCrl> {
    set k | k in latest && k.kind == kind :: latest[k]
  }

  /** What a new subscription is seeded with: the states of its class by issuer. */
  ghost predicate IsSeed(latest: map<Key, SignedCrl>, kind: CertificateClass, seed: seq<SignedCrl>) {
    && (forall c :: c in seed <==> c in ClassState(latest, kind))
    && (forall i, j :: 0 <= i < j < |seed| ==> seed[i].key.issuer < seed[j].key.issuer)
  }

  /** The subscribers a publication of this class is fanned out to. */
  function Listeners(subscribers: map<nat, Subscriber>, kind: CertificateClass): set<nat> {
    set i | i in subscribers && subscribers[i].kind == kind
  }

  datatype Decision = Raise | Same | Stale

  function Decide(latest: map<Key, SignedCrl>, c: SignedCrl): Decision {
    if c.key !in latest || latest[c.key].sequence < c.sequence then Raise
    else if latest[c.key] == c then Same
    else Stale
  }

  // ---------------------------------------------------------------------
  // The board and its events
  // ---------------------------------------------------------------------

  datatype FanOut = FanOut(crl: SignedCrl, owed: set<nat>)

  /** Which operation last changed an entry; a Subscribe is named by the
      subscriber number it was about to hand out. */
  datatype Writer = ByPublish | BySubscribe(id: nat)

  /** `writer` is a history: the last writer of each entry. */
  datatype Board = Board(
    latest: map<Key, SignedCrl>,
    nextId: nat,
    subscribers: map<nat, Subscriber>,
    fanOuts: seq<FanOut>,
    writer: map<Key, Writer>)

  const EMPTY := Board(map[], 0, map[], [], map[])

  datatype Event =
    | Fork(current: seq<SignedCrl>)
    | Connect(kind: CertificateClass, current: seq<SignedCrl>, seed: seq<SignedCrl>)
    | Accept(crl: SignedCrl)
    | Enqueue(fanOut: nat, id: nat)
    | Leave(id: nat)

  ghost predicate Possible(b: Board, e: Event) {
    match e
    case Fork(current) => !Adopt(b.latest, current).1
    case Connect(kind, current, seed) =>
      Adopt(b.latest, current).1 && IsSeed(Adopt(b.latest, current).0, kind, seed)
    case Accept(crl) => Decide(b.latest, crl) == Raise
    case Enqueue(f, id) => f < |b.fanOuts| && id in b.fanOuts[f].owed
    case Leave(id) => id in b.subscribers
  }

  function Relabel(b: Board, later: map<Key, SignedCrl>, author: Writer): map<Key, Writer> {
    map k | k in later :: if k in b.latest && k in b.writer && later[k] == b.latest[k] then b.writer[k] else author
  }

  /** A fork leaves what was raised before it was found. */
  ghost function Act(b: Board, e: Event): Board
    requires Possible(b, e)
  {
    match e
    case Fork(current) =>
      var later := Adopt(b.latest, current).0;
      b.(latest := later, writer := Relabel(b, later, BySubscribe(b.nextId + 1)))
    case Connect(kind, current, seed) =>
      var later, id := Adopt(b.latest, current).0, b.nextId + 1;
      b.(latest := later, writer := Relabel(b, later, BySubscribe(id)),
         nextId := id, subscribers := b.subscribers[id := Subscriber(kind, seed)])
    case Accept(crl) =>
      var later := b.latest[crl.key := crl];
      b.(latest := later, writer := Relabel(b, later, ByPublish),
         fanOuts := b.fanOuts + [FanOut(crl, Listeners(b.subscribers, crl.key.kind))])
    case Enqueue(f, id) =>
      var fan := b.fanOuts[f];
      var t := b.(fanOuts := b.fanOuts[f := fan.(owed := fan.owed - {id})]);
      if id !in b.subscribers then t
      else t.(subscribers := b.subscribers[id := b.subscribers[id].(queued := b.subscribers[id].queued + [fan.crl])])
    case Leave(id) => b.(subscribers := b.subscribers - {id})
  }

  /** One event, or none. */
  ghost predicate Next(b: Board, c: Board) {
    b == c || exists e :: Possible(b, e) && c == Act(b, e)
  }

  ghost predicate Run(run: seq<Board>) {
    && |run| > 0 && run[0] == EMPTY
    && forall i :: 0 < i < |run| ==> Next(run[i-1], run[i])
  }

  // ---------------------------------------------------------------------
  // Which subscribers learn of `latest`
  // ---------------------------------------------------------------------

  /** The entry was last written by a Publish, or by a Subscribe no later than
      the subscriber's own. */
  predicate Told(b: Board, i: nat, k: Key) {
    k in b.writer && (b.writer[k] == ByPublish || b.writer[k].id <= i)
  }

  /** The state has been given to the subscriber or is about to be. */
  ghost predicate Offered(b: Board, i: nat, c: SignedCrl)
    requires i in b.subscribers
  {
    c in b.subscribers[i].queued || exists f :: OwedBy(b, f, i, c)
  }

  predicate OwedBy(b: Board, f: nat, i: nat, c: SignedCrl) {
    f < |b.fanOuts| && b.fanOuts[f].crl == c && i in b.fanOuts[f].owed
  }

  ghost predicate OffersKnown(b: Board) {
    forall i, c :: i in b.subscribers && Offered(b, i, c) ==>
      && c.key in b.latest
      && (c == b.latest[c.key] || c.sequence < b.latest[c.key].sequence)
      && (c == b.latest[c.key] ==> Told(b, i, c.key))
  }

  ghost predicate ToldAreInformed(b: Board) {
    forall i, k :: i in b.subscribers && k in b.latest && k.kind == b.subscribers[i].kind && Told(b, i, k)
      ==> Offered(b, i, b.latest[k])
  }

  ghost predicate Labelled(b: Board) {
    && Keyed(b.latest) && b.writer.Keys == b.latest.Keys
    && (forall k :: k in b.writer && b.writer[k].BySubscribe? ==> b.writer[k].id <= b.nextId + 1)
  }

  ghost predicate Addressed(b: Board) {
    && (forall i :: i in b.subscribers ==> i <= b.nextId)
    && (forall f, i :: 0 <= f < |b.fanOuts| && i in b.fanOuts[f].owed ==> i <= b.nextId)
    && (forall f, i :: 0 <= f < |b.fanOuts| && i in b.fanOuts[f].owed && i in b.subscribers ==>
          b.subscribers[i].kind == b.fanOuts[f].crl.key.kind)
  }

  ghost predicate Numbered(b: Board) { Labelled(b) && Addressed(b) }

  lemma RelabelStep(b: Board, later: map<Key, SignedCrl>, author: Writer)
    requires b.writer.Keys == b.latest.Keys
    ensures var w := Relabel(b, later, author);
            && w.Keys == later.Keys
            && forall k :: k in later ==>
                 w[k] == if k in b.latest && later[k] == b.latest[k] then b.writer[k] else author
  {
  }

  lemma NumberedPreserved(b: Board, e: Event)
    requires Numbered(b) && Possible(b, e)
    ensures Numbered(Act(b, e))
  {
    LabelledPreserved(b, e);
    AddressedPreserved(b, e);
  }

  lemma AddressedPreserved(b: Board, e: Event)
    requires Addressed(b) && Possible(b, e)
    ensures Addressed(Act(b, e))
  {
  }

  lemma LabelledPreserved(b: Board, e: Event)
    requires Labelled(b) && Possible(b, e)
    ensures Labelled(Act(b, e))
  {
    if e.Fork? || e.Connect? {
      AdoptExact(b.latest, e.current);
      RelabelStep(b, Adopt(b.latest, e.current).0, BySubscribe(b.nextId + 1));
    } else if e.Accept? {
      RelabelStep(b, b.latest[e.crl.key := e.crl], ByPublish);
    }
  }

  /** The states an event brings along. */
  function Brought(e: Event): set<SignedCrl> {
    match e
    case Accept(crl) => {crl}
    case Fork(current) => set c | c in current
    case Connect(_, current, _) => set c | c in current
    case _ => {}
  }

  /** Entries only rise. */
  lemma EventRises(b: Board, e: Event)
    requires Numbered(b) && Possible(b, e)
    ensures RisesTo(b.latest, Act(b, e).latest, Brought(e))
  {
    if e.Fork? || e.Connect? {
      AdoptExact(b.latest, e.current);
    }
  }

  /** An offer survives every event that leaves its subscriber connected. */
  lemma OfferSurvives(b: Board, e: Event, i: nat, c: SignedCrl)
    requires Possible(b, e) && i in b.subscribers && i in Act(b, e).subscribers && Offered(b, i, c) && i <= b.nextId
    ensures Offered(Act(b, e), i, c)
  {
    var t := Act(b, e);
    if c !in b.subscribers[i].queued {
      var f: nat :| OwedBy(b, f, i, c);
      assert OwedBy(t, f, i, c) || c in t.subscribers[i].queued;
    }
  }

  /** Only Subscribe and Publish make offers, and only of the current entry. */
  lemma OfferOrigin(b: Board, e: Event, i: nat, c: SignedCrl)
    requires Possible(b, e) && Numbered(b)
    requires i in Act(b, e).subscribers && Offered(Act(b, e), i, c)
    ensures (i in b.subscribers && Offered(b, i, c)) ||
            (e == Accept(c) && i in b.subscribers) ||
            (e.Connect? && i == b.nextId + 1 && c in ClassState(Act(b, e).latest, e.kind))
  {
    var t := Act(b, e);
    if c !in t.subscribers[i].queued {
      var f: nat :| OwedBy(t, f, i, c);
      assert f < |b.fanOuts| ==> OwedBy(b, f, i, c);
    } else if e.Enqueue? {
      assert c in b.subscribers[i].queued || OwedBy(b, e.fanOut, i, c);
    }
  }

  lemma OffersKnownPreserved(b: Board, e: Event)
    requires Numbered(b) && OffersKnown(b) && Possible(b, e)
    ensures OffersKnown(Act(b, e))
  {
    EventRises(b, e);
    NumberedPreserved(b, e);
    var t := Act(b, e);
    forall i, c | i in t.subscribers && Offered(t, i, c)
      ensures c.key in t.latest && (c == t.latest[c.key] || c.sequence < t.latest[c.key].sequence)
      ensures c == t.latest[c.key] ==> Told(t, i, c.key)
    {
      OfferOrigin(b, e, i, c);
    }
  }

  lemma ToldIsInformed(b: Board, e: Event, i: nat, k: Key)
    requires Numbered(b) && ToldAreInformed(b) && Possible(b, e)
    requires i in Act(b, e).subscribers && k in Act(b, e).latest
    requires k.kind == Act(b, e).subscribers[i].kind && Told(Act(b, e), i, k)
    ensures Offered(Act(b, e), i, Act(b, e).latest[k])
  {
    EventRises(b, e);
    var t := Act(b, e);
    if i in b.subscribers {
      if k in b.latest && b.latest[k] == t.latest[k] {
        assert Told(b, i, k) && Offered(b, i, b.latest[k]);
        OfferSurvives(b, e, i, b.latest[k]);
      } else if e.Accept? {
        assert OwedBy(t, |b.fanOuts|, i, e.crl);
      }
    } else {
      assert t.latest[k] in ClassState(t.latest, k.kind);
    }
  }

  lemma ToldAreInformedPreserved(b: Board, e: Event)
    requires Numbered(b) && ToldAreInformed(b) && Possible(b, e)
    ensures ToldAreInformed(Act(b, e))
  {
    var t := Act(b, e);
    forall i, k | i in t.subscribers && k in t.latest && k.kind == t.subscribers[i].kind && Told(t, i, k)
      ensures Offered(t, i, t.latest[k])
    {
      ToldIsInformed(b, e, i, k);
    }
  }

  ghost predicate Informed(b: Board) {
    Numbered(b) && OffersKnown(b) && ToldAreInformed(b)
  }

  lemma {:induction false} RunInformed(run: seq<Board>, n: nat)
    requires Run(run) && n < |run|
    ensures Informed(run[n])
  {
    if n > 0 {
      RunInformed(run, n - 1);
      assert Next(run[n-1], run[n]);
      if run[n] != run[n-1] {
        var e :| Possible(run[n-1], e) && run[n] == Act(run[n-1], e);
        NumberedPreserved(run[n-1], e);
        OffersKnownPreserved(run[n-1], e);
        ToldAreInformedPreserved(run[n-1], e);
      }
    }
  }

  // ---------------------------------------------------------------------
  // In which order a subscriber learns of it
  // ---------------------------------------------------------------------

  /** Fan-out f is of key k and still owes a connected subscriber. */
  ghost predicate Unfinished(b: Board, f: nat, k: Key) {
    f < |b.fanOuts| && b.fanOuts[f].crl.key == k && exists i :: i in b.fanOuts[f].owed && i in b.subscribers
  }

  /** Some fan-out of key k is not finished. */
  ghost predicate Owing(b: Board, k: Key) {
    exists f: nat :: Unfinished(b, f, k)
  }

  ghost predicate AcceptsOf(b: Board, c: Board, k: Key) {
    |c.fanOuts| > |b.fanOuts| && c.fanOuts[|b.fanOuts|].crl.key == k
  }

  /** No Publish of key k is accepted while an earlier fan-out of k is unfinished. */
  ghost predicate NoOverlap(run: seq<Board>, k: Key) {
    forall i :: 0 < i < |run| && AcceptsOf(run[i-1], run[i], k) ==> !Owing(run[i-1], k)
  }

  ghost predicate Newer(queued: seq<SignedCrl>, crl: SignedCrl) {
    forall c :: c in queued && c.key == crl.key ==> c.sequence < crl.sequence
  }

  /** What is owed of key k is newer than what its receiver has of it. */
  ghost predicate OwedIsNewer(b: Board, k: Key) {
    forall f: nat, i :: Unfinished(b, f, k) && i in b.fanOuts[f].owed && i in b.subscribers ==>
      Newer(b.subscribers[i].queued, b.fanOuts[f].crl)
  }

  ghost predicate OneAtATime(b: Board, k: Key) {
    forall f: nat, g: nat :: Unfinished(b, f, k) && Unfinished(b, g, k) ==> f == g
  }

  ghost predicate QueuesRise(b: Board, k: Key) {
    forall i :: i in b.subscribers ==> InOrderOf(b.subscribers[i].queued, k)
  }

  ghost predicate InLine(b: Board, k: Key) {
    QueuesRise(b, k) && OwedIsNewer(b, k) && OneAtATime(b, k)
  }

  lemma SeedRises(latest: map<Key, SignedCrl>, kind: CertificateClass, seed: seq<SignedCrl>, k: Key)
    requires IsSeed(latest, kind, seed)
    ensures InOrderOf(seed, k)
  {
  }

  lemma AppendRises(queued: seq<SignedCrl>, crl: SignedCrl, k: Key)
    requires InOrderOf(queued, k) && (crl.key == k ==> Newer(queued, crl))
    ensures InOrderOf(queued + [crl], k)
  {
  }

  lemma EnqueueInLine(b: Board, e: Event, k: Key)
    requires InLine(b, k) && e.Enqueue? && Possible(b, e)
    ensures InLine(Act(b, e), k)
  {
    var t := Act(b, e);
    var crl := b.fanOuts[e.fanOut].crl;
    if e.id in b.subscribers {
      assert crl.key == k ==> Unfinished(b, e.fanOut, k);
      AppendRises(b.subscribers[e.id].queued, crl, k);
    }
    forall g: nat | Unfinished(t, g, k) ensures Unfinished(b, g, k) && t.fanOuts[g].owed <= b.fanOuts[g].owed {
    }
    forall g: nat, j | Unfinished(t, g, k) && j in t.fanOuts[g].owed && j in t.subscribers
      ensures Newer(t.subscribers[j].queued, t.fanOuts[g].crl)
    {
      assert j in b.fanOuts[g].owed && j in b.subscribers;
      assert Unfinished(b, g, k) && Newer(b.subscribers[j].queued, b.fanOuts[g].crl);
      assert j == e.id && crl.key == k ==> g == e.fanOut;
    }
  }

  lemma AcceptInLine(b: Board, e: Event, k: Key)
    requires InLine(b, k) && OffersKnown(b) && e.Accept? && Possible(b, e) && (e.crl.key == k ==> !Owing(b, k))
    ensures InLine(Act(b, e), k)
  {
    var t := Act(b, e);
    forall g: nat | Unfinished(t, g, k) ensures Unfinished(b, g, k) || (g == |b.fanOuts| && e.crl.key == k) {
      assert g < |b.fanOuts| ==> t.fanOuts[g] == b.fanOuts[g];
    }
    forall i | i in b.subscribers ensures Newer(b.subscribers[i].queued, e.crl) {
      forall c | c in b.subscribers[i].queued && c.key == e.crl.key ensures c.sequence < e.crl.sequence {
        assert Offered(b, i, c);
      }
    }
  }

  lemma ConnectInLine(b: Board, e: Event, k: Key)
    requires InLine(b, k) && Numbered(b) && e.Connect? && Possible(b, e)
    ensures InLine(Act(b, e), k)
  {
    var t := Act(b, e);
    SeedRises(t.latest, e.kind, e.seed, k);
    forall g: nat | Unfinished(t, g, k) ensures Unfinished(b, g, k) && t.fanOuts[g] == b.fanOuts[g] {
    }
    forall g: nat, j | Unfinished(t, g, k) && j in t.fanOuts[g].owed && j in t.subscribers
      ensures Newer(t.subscribers[j].queued, t.fanOuts[g].crl)
    {
      assert Unfinished(b, g, k) && j <= b.nextId;
    }
  }

  lemma InLineStep(b: Board, e: Event, k: Key)
    requires InLine(b, k) && Numbered(b) && OffersKnown(b) && Possible(b, e)
    requires AcceptsOf(b, Act(b, e), k) ==> !Owing(b, k)
    ensures InLine(Act(b, e), k)
  {
    match e {
      case Enqueue(_, _) => EnqueueInLine(b, e, k);
      case Accept(_) => AcceptInLine(b, e, k);
      case Connect(_, _, _) => ConnectInLine(b, e, k);
      case _ =>
        forall g: nat | Unfinished(Act(b, e), g, k) ensures Unfinished(b, g, k) {
        }
    }
  }

  /** If publications of a key do not overlap, every subscriber is given its states oldest
      first, the ones it was seeded with included. */
  lemma {:induction false} NoOverlapQueuesRise(run: seq<Board>, n: nat, k: Key)
    requires Run(run) && n < |run| && NoOverlap(run, k)
    ensures InLine(run[n], k)
  {
    if n > 0 {
      NoOverlapQueuesRise(run, n - 1, k);
      RunInformed(run, n - 1);
      assert Next(run[n-1], run[n]);
      if run[n] != run[n-1] {
        var e :| Possible(run[n-1], e) && run[n] == Act(run[n-1], e);
        InLineStep(run[n-1], e, k);
      }
    }
  }

  /** And only then: if a Publish is accepted while an earlier fan-out of its key is
      unfinished, the two enqueues can come newest first. */
  lemma OverlapReorders(b: Board, crl: SignedCrl) returns (f: nat, i: nat, given: Board, reordered: Board)
    requires Informed(b) && Possible(b, Accept(crl)) && Owing(b, crl.key)
    ensures Possible(Act(b, Accept(crl)), Enqueue(|b.fanOuts|, i)) && given == Act(Act(b, Accept(crl)), Enqueue(|b.fanOuts|, i))
    ensures Possible(given, Enqueue(f, i)) && reordered == Act(given, Enqueue(f, i))
    ensures i in reordered.subscribers && !InOrderOf(reordered.subscribers[i].queued, crl.key)
  {
    f :| Unfinished(b, f, crl.key);
    i :| i in b.fanOuts[f].owed && i in b.subscribers;
    var accepted := Act(b, Accept(crl));
    assert accepted.fanOuts[|b.fanOuts|] == FanOut(crl, Listeners(b.subscribers, crl.key.kind));
    given := Act(accepted, Enqueue(|b.fanOuts|, i));
    assert given.fanOuts[f] == b.fanOuts[f];
    reordered := Act(given, Enqueue(f, i));
    var q := b.subscribers[i].queued;
    var older := b.fanOuts[f].crl;
    assert Offered(b, i, older) by {
      assert OwedBy(b, f, i, older);
    }
    assert reordered.subscribers[i].queued == q + [crl] + [older];
    assert (q + [crl] + [older])[|q|] == crl && (q + [crl] + [older])[|q| + 1] == older;
  }
}
