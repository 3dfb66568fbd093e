/**
 The distributor above the subscriptions.  Subscribe and Publish first read the durable
 source, which changes on its own, then maintain the per-key `latest` map under one lock;
 Publish fans out after releasing it.
 */
module CrlDistributor {
  import opened Options
  import opened CrlBoard
  import opened CrlState
  import Subscription = CrlSubscription

  // ---------------------------------------------------------------------
  // Validation
  // ---------------------------------------------------------------------

  /** What parsing the DER yields; `number` is absent for a list without a CRL
      number extension (section 5.2.3 of RFC 5280). */
  datatype ParsedList = ParsedList(raw: seq<int>, number: Option<int>, thisUpdate: int)

  type Parser = seq<int> -> Option<ParsedList>

  const NO_SOURCE := Source("", "", 0)
  const ZERO_TIME := 0

  predicate Valid(parse: Parser, crl: SignedCrl) {
    && (crl.key.kind == Agent || crl.key.kind == Gateway)
    && crl.sequence > 0 && |crl.der| != 0 && crl.issuedAt != ZERO_TIME
    && (crl.source == NO_SOURCE ||
        (crl.source.streamType != "" && crl.source.streamId != "" && crl.source.streamVersion > 0))
    && parse(crl.der).Some?
    && var list := parse(crl.der).value;
       && list.raw == crl.der
       && list.number == Some(crl.sequence) && crl.sequence < 0x8000_0000_0000_0000
       && list.thisUpdate == crl.issuedAt
  }

  // ---------------------------------------------------------------------
  // Subscribe and Publish
  // ---------------------------------------------------------------------

  datatype Verdict = Malformed | NotDurable | MalformedDurable | Differs | AlreadyCurrent | NotNewer | Accepted

  /** Publish of a state for which the durable source returned `found`. */
  function Judge(parse: Parser, latest: map<Key, SignedCrl>, c: SignedCrl, found: Option<SignedCrl>): Verdict {
    if !Valid(parse, c) then Malformed
    else if found.None? || found.value.sequence == 0 then NotDurable
    else if !Valid(parse, found.value) then MalformedDurable
    else if found.value != c then Differs
    else match Decide(latest, c) case Raise => Accepted case Same => AlreadyCurrent case Stale => NotNewer
  }

  class Distributor {
    var latest: map<Key, SignedCrl>
    var nextId: nat
    var subscribers: map<nat, Subscriber>

    constructor ()
      ensures latest == map[] && nextId == 0 && subscribers == map[]
    {
      latest, nextId, subscribers := map[], 0, map[];
    }

    /** Subscribe from the answer of the durable source on. */
    method Subscribe(parse: Parser, kind: CertificateClass, current: seq<SignedCrl>) returns (ok: bool)
      requires Keyed(latest)
      modifies this
      ensures Keyed(latest)
      ensures (forall c :: c in current ==> Valid(parse, c)) ==> (latest, ok) == Adopt(old(latest), current)
      ensures !(forall c :: c in current ==> Valid(parse, c)) ==> !ok && latest == old(latest)
      ensures ok ==> && nextId == old(nextId) + 1 && nextId in subscribers
                     && subscribers == old(subscribers)[nextId := subscribers[nextId]]
                     && subscribers[nextId].kind == kind && IsSeed(latest, kind, subscribers[nextId].queued)
      ensures !ok ==> nextId == old(nextId) && subscribers == old(subscribers)
    {
      for index := 0 to |current|
        invariant forall c :: c in current[..index] ==> Valid(parse, c)
        invariant unchanged(this)
      {
        if !Valid(parse, current[index]) {
          assert current[index] in current;
          return false;
        }
        assert current[..index + 1] == current[..index] + [current[index]];
      }
      assert current[..|current|] == current;
      AdoptExact(latest, current);
      ok := AdoptAll(current);
      if !ok {
        return;
      }
      var seed := Seed(latest, kind);
      nextId := nextId + 1;
      subscribers := subscribers[nextId := Subscriber(kind, seed)];
    }

    method AdoptAll(current: seq<SignedCrl>) returns (ok: bool)
      modifies this`latest
      ensures (latest, ok) == Adopt(old(latest), current)
    {
      var index := 0;
      while index < |current|
        invariant 0 <= index <= |current|
        invariant Adopt(old(latest), current) == Adopt(latest, current[index..])
      {
        var state := current[index];
        assert current[index..][1..] == current[index+1..];
        if state.key in latest {
          var held := latest[state.key];
          if held.sequence > state.sequence {
          } else if held.sequence == state.sequence {
            if held != state {
              return false;
            }
          } else {
            latest := latest[state.key := state];
          }
        } else {
          latest := latest[state.key := state];
        }
        index := index + 1;
      }
      return true;
    }

    /** Publish up to the release of the lock; `found` is what the durable source returned
        for the key and `targets` is the fan-out list. */
    method Publish(parse: Parser, state: SignedCrl, found: Option<SignedCrl>) returns (verdict: Verdict, targets: set<nat>)
      modifies this`latest
      ensures verdict == Judge(parse, old(latest), state, found)
      ensures verdict == Accepted ==>
                && found == Some(state) && Valid(parse, state)
                && (state.key in old(latest) ==> old(latest)[state.key].sequence < state.sequence)
                && latest == old(latest)[state.key := state] && targets == Listeners(subscribers, state.key.kind)
      ensures verdict != Accepted ==> latest == old(latest) && targets == {}
    {
      targets := {};
      if !Valid(parse, state) {
        return Malformed, targets;
      }
      if found.None? || found.value.sequence == 0 {
        return NotDurable, targets;
      }
      if !Valid(parse, found.value) {
        return MalformedDurable, targets;
      }
      if found.value != state {
        return Differs, targets;
      }
      if state.key in latest {
        if latest[state.key] == state {
          return AlreadyCurrent, targets;
        }
        if state.sequence <= latest[state.key].sequence {
          return NotNewer, targets;
        }
      }
      latest := latest[state.key := state];
      return Accepted, Listeners(subscribers, state.key.kind);
    }
  }

  /** The states of a class, smallest issuer first. */
  method Seed(latest: map<Key, SignedCrl>, kind: CertificateClass) returns (seed: seq<SignedCrl>)
    requires Keyed(latest)
    ensures IsSeed(latest, kind, seed)
  {
    seed := [];
    var rest := set k | k in latest && k.kind == kind;
    while rest != {}
      invariant rest <= latest.Keys && forall k :: k in rest ==> k.kind == kind
      invariant forall k :: k in latest && k.kind == kind ==> k in rest || latest[k] in seed
      invariant forall c :: c in seed ==> c.key in latest && latest[c.key] == c && c.key.kind == kind && c.key !in rest
      invariant forall i, k :: 0 <= i < |seed| && k in rest ==> seed[i].key.issuer < k.issuer
      invariant forall i, j :: 0 <= i < j < |seed| ==> seed[i].key.issuer < seed[j].key.issuer
      decreases rest
    {
      var first := Smallest(rest);
      assert forall k :: k in rest && k != first ==> first.issuer < k.issuer;
      seed := seed + [latest[first]];
      rest := rest - {first};
    }
  }

  method Smallest(keys: set<Key>) returns (first: Key)
    requires keys != {}
    ensures first in keys && forall k :: k in keys ==> first.issuer <= k.issuer
  {
    first :| first in keys;
    var rest := keys - {first};
    while rest != {}
      invariant rest <= keys && first in keys
      invariant forall k :: k in keys - rest ==> first.issuer <= k.issuer
      decreases rest
    {
      var k :| k in rest;
      if k.issuer < first.issuer {
        first := k;
      }
      rest := rest - {k};
    }
  }

  // ---------------------------------------------------------------------
  // Runs of the whole distributor
  // ---------------------------------------------------------------------

  /** A call between its read of the durable source and the lock. */
  datatype Call =
    | Publishing(crl: SignedCrl, found: Option<SignedCrl>)
    | Subscribing(kind: CertificateClass, current: seq<SignedCrl>)

  /** `returned` is a history: every state the durable source has returned. */
  datatype State = State(durable: map<Key, SignedCrl>, calls: map<nat, Call>, board: Board, returned: set<SignedCrl>)

  const INITIAL := State(map[], map[], EMPTY, {})

  /** `Commit` is the durable store changing, in whatever way. */
  datatype Step =
    | Commit(crl: SignedCrl)
    | PublishRead(call: nat, crl: SignedCrl)
    | PublishLock(call: nat)
    | SubscribeRead(call: nat, kind: CertificateClass, current: seq<SignedCrl>)
    | SubscribeLock(call: nat, seed: seq<SignedCrl>)
    | Abandon(call: nat)
    | Give(fanOut: nat, id: nat)
    | Disconnect(id: nat)

  function Durable(s: State, k: Key): Option<SignedCrl> {
    if k in s.durable then Some(s.durable[k]) else None
  }

  ghost predicate AllValid(parse: Parser, current: seq<SignedCrl>) {
    forall c :: c in current ==> Valid(parse, c)
  }

  /** What a step does to the board, if anything. */
  ghost function EventOf(parse: Parser, s: State, step: Step): Option<Event> {
    match step
    case PublishLock(id) =>
      if id in s.calls && s.calls[id].Publishing?
         && Judge(parse, s.board.latest, s.calls[id].crl, s.calls[id].found) == Accepted
      then Some(Accept(s.calls[id].crl)) else None
    case SubscribeLock(id, seed) =>
      if id in s.calls && s.calls[id].Subscribing? && AllValid(parse, s.calls[id].current) then
        if Adopt(s.board.latest, s.calls[id].current).1
        then Some(Connect(s.calls[id].kind, s.calls[id].current, seed)) else Some(Fork(s.calls[id].current))
      else None
    case Give(f, id) => Some(Enqueue(f, id))
    case Disconnect(id) => Some(Leave(id))
    case _ => None
  }

  ghost predicate Enabled(parse: Parser, s: State, step: Step) {
    && (EventOf(parse, s, step).Some? ==> Possible(s.board, EventOf(parse, s, step).value))
    && match step
       case PublishRead(id, _) => id !in s.calls
       case PublishLock(id) => id in s.calls && s.calls[id].Publishing?
       case SubscribeRead(id, _, current) => id !in s.calls && forall c :: c in current ==> Durable(s, c.key) == Some(c)
       case SubscribeLock(id, _) => id in s.calls && s.calls[id].Subscribing?
       case Abandon(id) => id in s.calls
       case _ => true
  }

  /** An invalid publication is refused before the source is asked. */
  ghost function Outside(parse: Parser, s: State, step: Step): State {
    match step
    case Commit(crl) => s.(durable := s.durable[crl.key := crl])
    case PublishRead(id, crl) =>
      if !Valid(parse, crl) then s
      else
        var found := Durable(s, crl.key);
        s.(calls := s.calls[id := Publishing(crl, found)],
           returned := s.returned + if found.Some? then {found.value} else {})
    case SubscribeRead(id, kind, current) =>
      s.(calls := s.calls[id := Subscribing(kind, current)], returned := s.returned + set c | c in current)
    case PublishLock(id) => s.(calls := s.calls - {id})
    case SubscribeLock(id, _) => s.(calls := s.calls - {id})
    case Abandon(id) => s.(calls := s.calls - {id})
    case _ => s
  }

  ghost function Apply(parse: Parser, s: State, step: Step): State
    requires Enabled(parse, s, step)
  {
    var e := EventOf(parse, s, step);
    Outside(parse, s, step).(board := if e.Some? then Act(s.board, e.value) else s.board)
  }

  ghost predicate Moves(parse: Parser, s: State, t: State) {
    exists step :: Enabled(parse, s, step) && t == Apply(parse, s, step)
  }

  ghost predicate History(parse: Parser, run: seq<State>) {
    && |run| > 0 && run[0] == INITIAL
    && forall i :: 0 < i < |run| ==> Moves(parse, run[i-1], run[i])
  }

  ghost function Boards(run: seq<State>): (boards: seq<Board>)
    ensures |boards| == |run| && forall i :: 0 <= i < |run| ==> boards[i] == run[i].board
  {
    seq(|run|, i requires 0 <= i < |run| => run[i].board)
  }

  /** What happens under the lock is a run of the board. */
  lemma BoardsRun(parse: Parser, run: seq<State>)
    requires History(parse, run)
    ensures CrlBoard.Run(Boards(run))
  {
    var boards := Boards(run);
    forall i | 0 < i < |boards| ensures Next(boards[i-1], boards[i]) {
      assert Moves(parse, run[i-1], run[i]);
      var step :| Enabled(parse, run[i-1], step) && run[i] == Apply(parse, run[i-1], step);
      if EventOf(parse, run[i-1], step).Some? {
        assert Possible(boards[i-1], EventOf(parse, run[i-1], step).value);
      }
    }
  }

  // ---------------------------------------------------------------------
  // `latest` over a run
  // ---------------------------------------------------------------------

  ghost predicate CallSourced(c: Call, returned: set<SignedCrl>) {
    match c
    case Publishing(_, found) => found.Some? ==> found.value in returned
    case Subscribing(_, current) => forall c :: c in current ==> c in returned
  }

  /** The source keeps states by key, and calls in flight carry its answers. */
  ghost predicate Honest(s: State) {
    Keyed(s.durable) && forall id :: id in s.calls ==> CallSourced(s.calls[id], s.returned)
  }

  /** Entries are valid answers of the source. */
  ghost predicate Sourced(parse: Parser, latest: map<Key, SignedCrl>, returned: set<SignedCrl>) {
    forall k :: k in latest ==> Valid(parse, latest[k]) && latest[k] in returned
  }

  lemma HonestStep(parse: Parser, s: State, step: Step)
    requires Honest(s) && Enabled(parse, s, step)
    ensures Honest(Apply(parse, s, step)) && s.returned <= Apply(parse, s, step).returned
  {
  }

  /** A publication is accepted, and a state adopted, only if the source returned it. */
  lemma BroughtIsSourced(parse: Parser, s: State, step: Step, c: SignedCrl)
    requires Honest(s) && Enabled(parse, s, step)
    requires EventOf(parse, s, step).Some? && c in Brought(EventOf(parse, s, step).value)
    ensures Valid(parse, c) && c in s.returned
  {
    assert CallSourced(s.calls[step.call], s.returned);
  }

  lemma RisesSourced(parse: Parser, latest: map<Key, SignedCrl>, later: map<Key, SignedCrl>, from: set<SignedCrl>,
                     returned: set<SignedCrl>)
    requires Sourced(parse, latest, returned) && RisesTo(latest, later, from)
    requires forall c :: c in from ==> Valid(parse, c) && c in returned
    ensures Sourced(parse, later, returned) && RisesTo(latest, later, returned)
  {
  }

  lemma SourcedStep(parse: Parser, s: State, step: Step)
    requires Honest(s) && Sourced(parse, s.board.latest, s.returned) && Numbered(s.board) && Enabled(parse, s, step)
    ensures Sourced(parse, Apply(parse, s, step).board.latest, s.returned)
    ensures RisesTo(s.board.latest, Apply(parse, s, step).board.latest, s.returned)
  {
    var e := EventOf(parse, s, step);
    if e.Some? {
      EventRises(s.board, e.value);
      forall c | c in Brought(e.value) ensures Valid(parse, c) && c in s.returned {
        BroughtIsSourced(parse, s, step, c);
      }
      RisesSourced(parse, s.board.latest, Act(s.board, e.value).latest, Brought(e.value), s.returned);
    }
  }

  lemma {:induction false} RunSourced(parse: Parser, run: seq<State>, i: nat)
    requires History(parse, run) && i < |run|
    ensures Honest(run[i]) && Sourced(parse, run[i].board.latest, run[i].returned)
    ensures i > 0 ==> RisesTo(run[i-1].board.latest, run[i].board.latest, run[i-1].returned)
  {
    if i > 0 {
      RunSourced(parse, run, i - 1);
      assert Numbered(run[i-1].board) by {
        BoardsRun(parse, run);
        RunInformed(Boards(run), i - 1);
      }
      assert Moves(parse, run[i-1], run[i]);
      var step :| Enabled(parse, run[i-1], step) && run[i] == Apply(parse, run[i-1], step);
      HonestStep(parse, run[i-1], step);
      SourcedStep(parse, run[i-1], step);
    }
  }

  ghost predicate WasDurable(run: seq<State>, i: nat, c: SignedCrl) {
    exists j :: 0 <= j <= i && j < |run| && Durable(run[j], c.key) == Some(c)
  }

  /** Answers come from what is durable at the moment of the read. */
  lemma ReturnedStep(parse: Parser, s: State, step: Step, c: SignedCrl)
    requires Keyed(s.durable) && Enabled(parse, s, step) && c in Apply(parse, s, step).returned
    ensures c in s.returned || Durable(s, c.key) == Some(c)
  {
  }

  lemma {:induction false} ReturnedWasDurable(parse: Parser, run: seq<State>, i: nat, c: SignedCrl)
    requires History(parse, run) && i < |run| && c in run[i].returned
    ensures WasDurable(run, i, c)
  {
    if i > 0 {
      assert Keyed(run[i-1].durable) by {
        RunSourced(parse, run, i - 1);
      }
      assert Moves(parse, run[i-1], run[i]);
      var step :| Enabled(parse, run[i-1], step) && run[i] == Apply(parse, run[i-1], step);
      ReturnedStep(parse, run[i-1], step, c);
      if c in run[i-1].returned {
        ReturnedWasDurable(parse, run, i - 1, c);
      }
      var j :| 0 <= j <= i && j < |run| && Durable(run[j], c.key) == Some(c);
    }
  }

  /** Every entry is valid and is what the durable source held, and returned, at some earlier
      point of the run, whatever the source has done since. */
  lemma LatestIsSourced(parse: Parser, run: seq<State>, i: nat, k: Key)
    requires History(parse, run) && i < |run| && k in run[i].board.latest
    ensures Valid(parse, run[i].board.latest[k]) && run[i].board.latest[k].key == k
    ensures WasDurable(run, i, run[i].board.latest[k])
  {
    RunSourced(parse, run, i);
    BoardsRun(parse, run);
    RunInformed(Boards(run), i);
    ReturnedWasDurable(parse, run, i, run[i].board.latest[k]);
  }

  /** Entries never disappear or decrease, and two entries a key ever had with
      the same sequence are the same state. */
  lemma LatestMonotone(parse: Parser, run: seq<State>, i: nat, j: nat, k: Key)
    requires History(parse, run) && i <= j < |run| && k in run[i].board.latest
    ensures k in run[j].board.latest
    ensures var before, after := run[i].board.latest[k], run[j].board.latest[k];
            after == before || after.sequence > before.sequence
  {
    forall m | 0 < m < |run| ensures RisesTo(run[m-1].board.latest, run[m].board.latest, run[m-1].returned) {
      RunSourced(parse, run, m);
    }
    RisesChain(run, i, j, k);
  }

  lemma {:induction false} RisesChain(run: seq<State>, i: nat, j: nat, k: Key)
    requires i <= j < |run| && k in run[i].board.latest
    requires forall m :: 0 < m < |run| ==> RisesTo(run[m-1].board.latest, run[m].board.latest, run[m-1].returned)
    ensures k in run[j].board.latest
    ensures var before, after := run[i].board.latest[k], run[j].board.latest[k];
            after == before || after.sequence > before.sequence
  {
    if i < j {
      RisesChain(run, i, j - 1, k);
    }
  }

  // ---------------------------------------------------------------------
  // Which subscribers learn of it, and in which order
  // ---------------------------------------------------------------------

  /** A connected subscriber has, or is owed, the current entry of a key of its
      class exactly when that entry was last raised by a Publish or by a
      Subscribe no later than its own. A later Subscribe that raises the entry
      leaves it uninformed. */
  lemma InformedExactly(parse: Parser, run: seq<State>, n: nat, i: nat, k: Key)
    requires History(parse, run) && n < |run| && i in run[n].board.subscribers && k in run[n].board.latest
    requires k.kind == run[n].board.subscribers[i].kind
    ensures Offered(run[n].board, i, run[n].board.latest[k]) <==> Told(run[n].board, i, k)
  {
    BoardsRun(parse, run);
    RunInformed(Boards(run), n);
  }

  /** Once no fan-out owes it anything and its subscription has settled, a connected subscriber
      has received the current entry of a key of its class exactly when it was told of it, and
      has then received nothing newer of that key. */
  lemma SettledHasReceived(parse: Parser, run: seq<State>, n: nat, i: nat, k: Key, subscription: seq<Subscription.State>)
    requires History(parse, run) && n < |run| && i in run[n].board.subscribers && k in run[n].board.latest
    requires k.kind == run[n].board.subscribers[i].kind && forall f, c :: !OwedBy(run[n].board, f, i, c)
    requires Subscription.Run(subscription) && Subscription.Settled(Subscription.Last(subscription))
    requires Subscription.Last(subscription).log == run[n].board.subscribers[i].queued
    ensures run[n].board.latest[k] in Subscription.Last(subscription).received <==> Told(run[n].board, i, k)
    ensures forall c :: c in Subscription.Last(subscription).received && c.key == k ==>
              c.sequence <= run[n].board.latest[k].sequence
  {
    assert Informed(run[n].board) by {
      BoardsRun(parse, run);
      RunInformed(Boards(run), n);
    }
    ReceivedWasGiven(subscription);
    CaughtUp(run[n].board, i, k, Subscription.Last(subscription).received);
  }

  lemma ReceivedWasGiven(subscription: seq<Subscription.State>)
    requires Subscription.Run(subscription)
    ensures forall c :: c in Subscription.Last(subscription).received ==> c in Subscription.Last(subscription).log
  {
    Subscription.RunInvariant(subscription, |subscription| - 1);
  }

  lemma CaughtUp(b: Board, i: nat, k: Key, received: seq<SignedCrl>)
    requires Informed(b) && i in b.subscribers && k in b.latest && k.kind == b.subscribers[i].kind
    requires forall f, c :: !OwedBy(b, f, i, c)
    requires forall c :: c in received ==> c in b.subscribers[i].queued
    requires forall c :: c in b.subscribers[i].queued ==> exists d :: Supersedes(d, c) && d in received
    ensures b.latest[k] in received <==> Told(b, i, k)
    ensures forall c :: c in received && c.key == k ==> c.sequence <= b.latest[k].sequence
  {
    assert forall c :: c in received ==> Offered(b, i, c);
    if Told(b, i, k) {
      assert Offered(b, i, b.latest[k]);
      var d :| Supersedes(d, b.latest[k]) && d in received;
      assert Offered(b, i, d);
    }
  }

  /** If publications of a key do not overlap, every subscriber is given its states oldest
      first, the ones it was seeded with included, and its consumer receives them so. */
  lemma NoOverlapDeliversInOrder(parse: Parser, run: seq<State>, n: nat, i: nat, k: Key, subscription: seq<Subscription.State>)
    requires History(parse, run) && n < |run| && NoOverlap(Boards(run), k) && i in run[n].board.subscribers
    requires Subscription.Run(subscription) && Subscription.Last(subscription).log == run[n].board.subscribers[i].queued
    ensures InOrderOf(run[n].board.subscribers[i].queued, k)
    ensures InOrderOf(Subscription.Last(subscription).received, k)
  {
    BoardsRun(parse, run);
    NoOverlapQueuesRise(Boards(run), n, k);
    Subscription.ReceivedInOrder(subscription, |subscription| - 1, k);
  }

  function Last(run: seq<State>): State
    requires |run| > 0
  {
    run[|run|-1]
  }

  lemma Extend(parse: Parser, run: seq<State>, step: Step) returns (longer: seq<State>)
    requires History(parse, run) && Enabled(parse, Last(run), step)
    ensures History(parse, longer) && Last(longer) == Apply(parse, Last(run), step)
    ensures run <= longer && |longer| == |run| + 1
  {
    longer := run + [Apply(parse, Last(run), step)];
    forall i | 0 < i < |longer| ensures Moves(parse, longer[i-1], longer[i]) {
      if i < |run| {
        assert Moves(parse, run[i-1], run[i]);
      }
    }
  }

  /** Without that the order is not guaranteed: whenever a Publish is accepted while an earlier
      fan-out of its key still owes a subscriber, the run can go on so that this subscriber is
      given the newer state first. */
  lemma OverlapCanReorder(parse: Parser, run: seq<State>, call: nat) returns (i: nat, longer: seq<State>)
    requires History(parse, run) && Enabled(parse, Last(run), PublishLock(call))
    requires EventOf(parse, Last(run), PublishLock(call)).Some?
    requires Owing(Last(run).board, Last(run).calls[call].crl.key)
    ensures History(parse, longer) && run <= longer
    ensures i in Last(longer).board.subscribers
    ensures !InOrderOf(Last(longer).board.subscribers[i].queued, Last(run).calls[call].crl.key)
  {
    var b, crl := Last(run).board, Last(run).calls[call].crl;
    assert Informed(b) by {
      BoardsRun(parse, run);
      RunInformed(Boards(run), |run| - 1);
    }
    var f, given, reordered;
    f, i, given, reordered := OverlapReorders(b, crl);
    longer := Extend(parse, run, PublishLock(call));
    longer := Extend(parse, longer, Give(|b.fanOuts|, i));
    longer := Extend(parse, longer, Give(f, i));
  }

  /** The source commits a state, and a call reads and publishes it. */
  lemma PublishCommitted(parse: Parser, run: seq<State>, crl: SignedCrl) returns (longer: seq<State>)
    requires History(parse, run) && Valid(parse, crl) && Last(run).calls == map[]
    requires Decide(Last(run).board.latest, crl) == Raise
    ensures History(parse, longer) && Enabled(parse, Last(longer), PublishLock(0))
    ensures Last(longer).calls == map[0 := Publishing(crl, Some(crl))] && Last(longer).board == Last(run).board
    ensures EventOf(parse, Last(longer), PublishLock(0)) == Some(Accept(crl))
  {
    longer := Extend(parse, run, Commit(crl));
    longer := Extend(parse, longer, PublishRead(0, crl));
  }

  lemma AdoptOne(latest: map<Key, SignedCrl>, crl: SignedCrl)
    requires latest.Keys <= {crl.key} && Decide(latest, crl) == Raise
    ensures Adopt(latest, [crl]) == (map[crl.key := crl], true)
    ensures IsSeed(map[crl.key := crl], crl.key.kind, [crl])
  {
    var later := latest[crl.key := crl];
    assert Adopt(later, [crl][1..]) == (later, true);
    assert later == map[crl.key := crl];
    assert ClassState(later, crl.key.kind) == {crl};
  }

  lemma ConnectCommitted(parse: Parser, run: seq<State>, crl: SignedCrl) returns (longer: seq<State>)
    requires History(parse, run) && Valid(parse, crl) && Last(run).calls == map[]
    requires Last(run).board.latest.Keys <= {crl.key} && Decide(Last(run).board.latest, crl) == Raise
    ensures History(parse, longer) && Last(longer).calls == map[]
    ensures Possible(Last(run).board, Connect(crl.key.kind, [crl], [crl]))
    ensures Last(longer).board == Act(Last(run).board, Connect(crl.key.kind, [crl], [crl]))
    ensures Last(longer).board.latest == map[crl.key := crl]
  {
    var b := Last(run).board;
    longer := Extend(parse, run, Commit(crl));
    longer := Extend(parse, longer, SubscribeRead(0, crl.key.kind, [crl]));
    AdoptOne(b.latest, crl);
    longer := Extend(parse, longer, SubscribeLock(0, [crl]));
  }

  /** Overlap is real: three states of one key, the first seeded, the other two published so
      that the subscriber is given the newest before the one in between. */
  lemma OverlapHappens(parse: Parser, seeded: SignedCrl, older: SignedCrl, newer: SignedCrl) returns (i: nat, run: seq<State>)
    requires Valid(parse, seeded) && Valid(parse, older) && Valid(parse, newer)
    requires seeded.key == older.key == newer.key && seeded.sequence < older.sequence < newer.sequence
    ensures History(parse, run) && i in Last(run).board.subscribers
    ensures !InOrderOf(Last(run).board.subscribers[i].queued, newer.key)
  {
    run := [INITIAL];
    run := ConnectCommitted(parse, run, seeded);
    run := PublishCommitted(parse, run, older);
    run := Extend(parse, run, PublishLock(0));
    assert Last(run).board.fanOuts[0] == FanOut(older, Listeners(Last(run).board.subscribers, older.key.kind));
    run := PublishCommitted(parse, run, newer);
    assert Unfinished(Last(run).board, 0, newer.key) by {
      assert 1 in Last(run).board.fanOuts[0].owed && 1 in Last(run).board.subscribers;
    }
    i, run := OverlapCanReorder(parse, run, 0);
  }

  /** The uninformed case is real: the second Subscribe reads a newer durable
      state than the first was given, and publishing that state afterwards is
      answered as already current, so the first subscriber never hears of it. */
  lemma LaterSubscribeLeavesEarlierBehind(parse: Parser, older: SignedCrl, newer: SignedCrl) returns (run: seq<State>)
    requires Valid(parse, older) && Valid(parse, newer)
    requires older.key == newer.key && older.sequence < newer.sequence
    ensures History(parse, run)
    ensures var b := Last(run).board;
            && 1 in b.subscribers && newer.key.kind == b.subscribers[1].kind
            && b.latest == map[newer.key := newer] && b.fanOuts == []
            && newer !in b.subscribers[1].queued
            && Judge(parse, b.latest, newer, Durable(Last(run), newer.key)) == AlreadyCurrent
  {
    run := [INITIAL];
    run := ConnectCommitted(parse, run, older);
    run := ConnectCommitted(parse, run, newer);
    run := Extend(parse, run, Commit(newer));
  }
}
