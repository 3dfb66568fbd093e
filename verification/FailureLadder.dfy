/**
 The authentication failure ladder.  It keeps a bounded number of bounded buckets and still
 decides every attempt as the complete list of recorded failures would.
 */
module FailureLadder {
  import opened Octets
  import opened Options
  import opened SlidingWindow

  const CAPACITY := 4096

  const MINUTE: Time := 60_000_000_000

  datatype Limit = Limit(attempts: int, window: Time)

  datatype Policy = Policy(perIp: Limit, perAccount: Limit)

  /** The client address is its canonical text; utf8 is whether the bytes of the account key are
      well-formed UTF-8. */
  datatype Attempt = Attempt(
    procedure: string, clientIp: Option<seq<Byte>>, account: seq<Byte>, utf8: bool, succeeded: bool)

  datatype Dimension = Ip | Account

  datatype Key = Key(procedure: string, value: seq<Byte>, dimension: Dimension)

  datatype Bucket = Bucket(attempts: seq<Time>, window: Time)

  type Policies = map<string, Policy>

  type Buckets = map<Key, Bucket>

  /** Every failure ever recorded under a key. */
  type History = map<Key, seq<Time>>

  predicate ValidLimit(limit: Limit) { limit.attempts > 0 && limit.window > 0 }

  predicate ValidPolicies(policies: Policies) {
    && policies != map[] && "" !in policies
    && forall p :: p in policies ==> ValidLimit(policies[p].perIp) && ValidLimit(policies[p].perAccount)
  }

  predicate ValidAttempt(a: Attempt) {
    a.procedure != "" && a.clientIp.Some? && a.account != [] && |a.account| <= 512 && a.utf8 && 0 !in a.account
  }

  function IpKey(a: Attempt): Key
    requires a.clientIp.Some?
  {
    Key(a.procedure, a.clientIp.value, Ip)
  }

  function AccountKey(a: Attempt): Key { Key(a.procedure, a.account, Account) }

  function LimitOf(policies: Policies, k: Key): Limit
    requires k.procedure in policies
  {
    if k.dimension == Ip then policies[k.procedure].perIp else policies[k.procedure].perAccount
  }

  function Kept(buckets: Buckets, k: Key): seq<Time> {
    if k in buckets then buckets[k].attempts else []
  }

  function Past(history: History, k: Key): seq<Time> {
    if k in history then history[k] else []
  }

  function Remember(history: History, k: Key, now: Time): History {
    history[k := Past(history, k) + [now]]
  }

  /** Fewer failures in the window than the limit, by the complete record. */
  predicate Below(policies: Policies, history: History, k: Key, now: Time)
    requires k.procedure in policies
  {
    CountAfter(Past(history, k), now - LimitOf(policies, k).window) < LimitOf(policies, k).attempts
  }

  /** The keys that still have a failure in their window. */
  function LiveKeys(policies: Policies, history: History, now: Time): set<Key> {
    set k | k in history && k.procedure in policies
            && CountAfter(history[k], now - LimitOf(policies, k).window) > 0
  }

  // ---------------------------------------------------------------------
  // Buckets against the complete record
  // ---------------------------------------------------------------------

  predicate Bounded(policies: Policies, buckets: Buckets) {
    forall k :: k in buckets ==>
      && k.procedure in policies
      && 0 < |buckets[k].attempts| <= LimitOf(policies, k).attempts
      && buckets[k].window == LimitOf(policies, k).window
  }

  /** kept is as good as the complete record past for every decision from now on. */
  predicate Faithful(kept: seq<Time>, past: seq<Time>, limit: Limit, now: Time) {
    && ValidLimit(limit) && Sorted(past)
    && (forall i :: 0 <= i < |past| ==> past[i] <= now)
    && Represents(kept, past, limit.attempts, now - limit.window)
  }

  /** Nothing expired is kept. */
  predicate Fresh(kept: seq<Time>, limit: Limit, now: Time) {
    forall t :: t in kept ==> t > now - limit.window
  }

  lemma FaithfulLater(kept: seq<Time>, past: seq<Time>, limit: Limit, earlier: Time, now: Time)
    requires Faithful(kept, past, limit, earlier) && earlier <= now
    ensures Faithful(kept, past, limit, now)
  {
  }

  lemma FaithfulPruned(kept: seq<Time>, current: seq<Time>, past: seq<Time>, limit: Limit, now: Time)
    requires Faithful(kept, past, limit, now) && current == Current(kept, now - limit.window)
    ensures Faithful(current, past, limit, now)
  {
    CurrentRepresents(kept, past, limit.attempts, now - limit.window, now - limit.window);
  }

  lemma KeptSorted(kept: seq<Time>, past: seq<Time>, limit: Limit, now: Time)
    requires Faithful(kept, past, limit, now)
    ensures Sorted(kept)
  {
    var n := |past| - |kept|;
    assert forall i :: 0 <= i < |kept| ==> kept[i] == past[n + i];
  }

  lemma FreshPruned(kept: seq<Time>, limit: Limit, now: Time)
    requires Sorted(kept)
    ensures Fresh(Current(kept, now - limit.window), limit, now)
  {
    var cutoff := now - limit.window;
    var k := FirstCurrent(kept, cutoff);
    forall t | t in kept[k..] ensures t > cutoff {
      var i :| 0 <= i < |kept[k..]| && kept[k..][i] == t;
      assert kept[k] <= kept[k + i];
    }
  }

  lemma FaithfulRecorded(kept: seq<Time>, past: seq<Time>, limit: Limit, now: Time)
    requires Faithful(kept, past, limit, now)
    ensures Faithful(Record(kept, now, limit.attempts), past + [now], limit, now)
  {
    RecordRepresents(kept, past, limit.attempts, now - limit.window, now);
  }

  ghost predicate Tracks(policies: Policies, buckets: Buckets, history: History, now: Time, k: Key) {
    k.procedure in policies ==> Faithful(Kept(buckets, k), Past(history, k), LimitOf(policies, k), now)
  }

  ghost predicate TracksAll(policies: Policies, buckets: Buckets, history: History, now: Time) {
    forall k :: Tracks(policies, buckets, history, now, k)
  }

  lemma TracksLater(policies: Policies, buckets: Buckets, history: History, earlier: Time, now: Time)
    requires TracksAll(policies, buckets, history, earlier) && earlier <= now
    ensures TracksAll(policies, buckets, history, now)
  {
    forall k ensures Tracks(policies, buckets, history, now, k) {
      assert Tracks(policies, buckets, history, earlier, k);
      if k.procedure in policies {
        FaithfulLater(Kept(buckets, k), Past(history, k), LimitOf(policies, k), earlier, now);
      }
    }
  }

  /** A bucket holds as many times as the limit exactly if the complete record is at the limit. */
  lemma DecidesByRecord(policies: Policies, buckets: Buckets, history: History, now: Time, k: Key)
    requires k.procedure in policies && Tracks(policies, buckets, history, now, k)
    requires Fresh(Kept(buckets, k), LimitOf(policies, k), now)
    ensures |Kept(buckets, k)| < LimitOf(policies, k).attempts <==> Below(policies, history, k, now)
    ensures Kept(buckets, k) != [] <==> k in LiveKeys(policies, history, now)
  {
    var limit := LimitOf(policies, k);
    FullExactly(Kept(buckets, k), Past(history, k), limit.attempts, now - limit.window);
  }

  /** A key with a failure in its window has a bucket, pruned or not. */
  lemma LiveHasBucket(policies: Policies, buckets: Buckets, history: History, now: Time, k: Key)
    requires Tracks(policies, buckets, history, now, k) && k in LiveKeys(policies, history, now)
    ensures k in buckets
  {
    if k !in buckets {
      var limit := LimitOf(policies, k);
      FullExactly([], Past(history, k), limit.attempts, now - limit.window);
    }
  }

  lemma RecordTracks(policies: Policies, buckets: Buckets, history: History, now: Time, k: Key, bucket: Bucket)
    requires k.procedure in policies && TracksAll(policies, buckets, history, now)
    requires Tracks(policies, buckets, history, now, k)
    requires bucket.attempts == Record(Kept(buckets, k), now, LimitOf(policies, k).attempts)
    ensures TracksAll(policies, buckets[k := bucket], Remember(history, k, now), now)
  {
    var b, h := buckets[k := bucket], Remember(history, k, now);
    forall o ensures Tracks(policies, b, h, now, o) {
      assert Tracks(policies, buckets, history, now, o);
      if o == k {
        FaithfulRecorded(Kept(buckets, k), Past(history, k), LimitOf(policies, k), now);
      }
    }
  }

  lemma EmptyTracks(policies: Policies, now: Time)
    requires ValidPolicies(policies)
    ensures TracksAll(policies, map[], map[], now)
  {
    forall k ensures Tracks(policies, map[], map[], now, k) {
      if k.procedure in policies {
        assert Represents([], [], LimitOf(policies, k).attempts, now - LimitOf(policies, k).window);
      }
    }
  }

  /** The expired times under k are gone. */
  predicate PrunedTo(policies: Policies, before: Buckets, after: Buckets, now: Time, k: Key) {
    k.procedure in policies ==>
      Kept(after, k) == Current(Kept(before, k), now - LimitOf(policies, k).window)
  }

  lemma PrunedTracks(policies: Policies, before: Buckets, after: Buckets, history: History, now: Time, k: Key)
    requires Tracks(policies, before, history, now, k) && PrunedTo(policies, before, after, now, k)
    ensures Tracks(policies, after, history, now, k)
  {
    if k.procedure in policies {
      FaithfulPruned(Kept(before, k), Kept(after, k), Past(history, k), LimitOf(policies, k), now);
    }
  }

  lemma PrunedIsFresh(policies: Policies, before: Buckets, after: Buckets, now: Time, k: Key)
    requires k.procedure in policies && Sorted(Kept(before, k)) && PrunedTo(policies, before, after, now, k)
    ensures Fresh(Kept(after, k), LimitOf(policies, k), now)
  {
    FreshPruned(Kept(before, k), LimitOf(policies, k), now);
  }

  lemma PrunedKeyIsFresh(policies: Policies, before: Buckets, after: Buckets, history: History, now: Time, k: Key)
    requires Tracks(policies, before, history, now, k) && PrunedTo(policies, before, after, now, k)
    ensures k.procedure in policies ==> Fresh(Kept(after, k), LimitOf(policies, k), now)
  {
    if k.procedure in policies {
      KeptSorted(Kept(before, k), Past(history, k), LimitOf(policies, k), now);
      PrunedIsFresh(policies, before, after, now, k);
    }
  }

  ghost predicate SameBut(before: Buckets, after: Buckets, key: Key) {
    forall k :: k != key ==> (k in before <==> k in after) && (k in before ==> before[k] == after[k])
  }

  lemma PrunedOneTracks(policies: Policies, before: Buckets, after: Buckets, history: History, now: Time, k: Key)
    requires TracksAll(policies, before, history, now) && k.procedure in policies
    requires PrunedTo(policies, before, after, now, k) && SameBut(before, after, k)
    ensures TracksAll(policies, after, history, now)
    ensures Fresh(Kept(after, k), LimitOf(policies, k), now)
  {
    assert Tracks(policies, before, history, now, k);
    PrunedTracks(policies, before, after, history, now, k);
    PrunedKeyIsFresh(policies, before, after, history, now, k);
    OthersTrack(policies, before, after, history, now, k);
  }

  lemma OthersTrack(policies: Policies, before: Buckets, after: Buckets, history: History, now: Time, k: Key)
    requires TracksAll(policies, before, history, now)
    requires Tracks(policies, after, history, now, k) && SameBut(before, after, k)
    ensures TracksAll(policies, after, history, now)
  {
    forall o ensures Tracks(policies, after, history, now, o) {
      assert Tracks(policies, before, history, now, o);
    }
  }

  lemma Elsewhere(before: Buckets, after: Buckets, history: History, key: Key, o: Key, now: Time)
    requires SameBut(before, after, key) && o != key
    ensures Kept(after, o) == Kept(before, o)
    ensures Past(Remember(history, key, now), o) == Past(history, o)
  {
  }

  lemma AddTwo<T>(s: set<T>, a: T, b: T)
    ensures s + {a} + {b} == s + {a, b}
  {
  }

  lemma {:induction false} SubsetSize<T>(a: set<T>, b: set<T>)
    requires a <= b
    ensures |a| <= |b|
  {
    if a != {} {
      var x :| x in a;
      SubsetSize(a - {x}, b - {x});
    }
  }

  /** The unpruned buckets fit only if the live keys do. */
  lemma RoomNeeded(policies: Policies, buckets: Buckets, history: History, now: Time, more: set<Key>)
    requires TracksAll(policies, buckets, history, now)
    ensures |LiveKeys(policies, history, now) + more| <= |buckets.Keys + more|
  {
    var live := LiveKeys(policies, history, now);
    forall k | k in live ensures k in buckets {
      assert Tracks(policies, buckets, history, now, k);
      LiveHasBucket(policies, buckets, history, now, k);
    }
    SubsetSize(live + more, buckets.Keys + more);
  }

  predicate AllFresh(policies: Policies, buckets: Buckets, now: Time) {
    forall k :: k in buckets ==> k.procedure in policies && Fresh(Kept(buckets, k), LimitOf(policies, k), now)
  }

  /** Once everything is pruned, the buckets are those of the live keys. */
  lemma PrunedIsLive(policies: Policies, buckets: Buckets, history: History, now: Time)
    requires Bounded(policies, buckets) && TracksAll(policies, buckets, history, now)
    requires AllFresh(policies, buckets, now)
    ensures buckets.Keys == LiveKeys(policies, history, now)
  {
    forall k ensures k in buckets <==> k in LiveKeys(policies, history, now) {
      assert Tracks(policies, buckets, history, now, k);
      if k in buckets {
        DecidesByRecord(policies, buckets, history, now, k);
      } else if k in LiveKeys(policies, history, now) {
        LiveHasBucket(policies, buckets, history, now, k);
      }
    }
  }

  /** The sweep so far: keys are still to come and as they were, the others are done. */
  ghost predicate PruneProgress(policies: Policies, start: Buckets, buckets: Buckets, keys: set<Key>, now: Time) {
    && keys <= buckets.Keys <= start.Keys
    && Bounded(policies, buckets)
    && (forall k :: k in keys ==> buckets[k] == start[k])
    && (forall k :: k !in keys ==> PrunedTo(policies, start, buckets, now, k))
  }

  lemma ProgressStep(policies: Policies, start: Buckets, before: Buckets, after: Buckets, keys: set<Key>, key: Key, now: Time)
    requires PruneProgress(policies, start, before, keys, now) && key in keys
    requires Bounded(policies, after) && after.Keys <= before.Keys
    requires PrunedTo(policies, before, after, now, key) && SameBut(before, after, key)
    ensures PruneProgress(policies, start, after, keys - {key}, now)
  {
    forall k | k !in keys - {key} ensures PrunedTo(policies, start, after, now, k) {
      if k == key {
        assert Kept(before, k) == Kept(start, k);
      } else {
        assert PrunedTo(policies, start, before, now, k);
        assert Kept(after, k) == Kept(before, k);
      }
    }
  }

  /** The state of one ladder, with the complete record and the times it was asked at. */
  class Ladder {
    const policies: Policies
    var buckets: Buckets
    var nextSweep: Option<Time>
    ghost var history: History
    ghost var clock: seq<Time>

    ghost predicate Valid()
      reads this
    {
      && ValidPolicies(policies)
      && Bounded(policies, buckets) && |buckets| <= CAPACITY
      && (clock == [] ==> history == map[] && buckets == map[])
      && (clock != [] && Sorted(clock) ==> TracksAll(policies, buckets, history, clock[|clock|-1]))
    }

    constructor (policies: Policies)
      requires ValidPolicies(policies)
      ensures Valid() && this.policies == policies
      ensures buckets == map[] && nextSweep == None && history == map[] && clock == []
    {
      this.policies := policies;
      buckets, nextSweep, history, clock := map[], None, map[], [];
    }

    method Prune(now: Time)
      requires Bounded(policies, buckets)
      modifies this`buckets
      ensures Bounded(policies, buckets)
      ensures buckets.Keys <= old(buckets).Keys
      ensures forall k :: PrunedTo(policies, old(buckets), buckets, now, k)
    {
      var keys := buckets.Keys;
      while keys != {}
        invariant PruneProgress(policies, old(buckets), buckets, keys, now)
        decreases keys
      {
        var key :| key in keys;
        ghost var was := buckets;
        PruneKey(key, buckets[key].window, now);
        ProgressStep(policies, old(buckets), was, buckets, keys, key, now);
        keys := keys - {key};
      }
    }

    method PruneKey(key: Key, window: Time, now: Time)
      requires Bounded(policies, buckets) && key.procedure in policies && window == LimitOf(policies, key).window
      modifies this`buckets
      ensures Bounded(policies, buckets)
      ensures buckets.Keys <= old(buckets).Keys
      ensures PrunedTo(policies, old(buckets), buckets, now, key)
      ensures SameBut(old(buckets), buckets, key)
    {
      if key in buckets {
        var current := DropExpired(buckets[key].attempts, now - window);
        if |current| == 0 {
          buckets := buckets - {key};
        } else {
          buckets := buckets[key := Bucket(current, window)];
        }
      }
    }

    method NewBucketCount(a: Key, b: Key) returns (count: nat)
      requires a != b
      ensures count + |buckets| == |buckets.Keys + {a, b}|
    {
      count := 0;
      if a !in buckets {
        count := count + 1;
      }
      if b !in buckets {
        count := count + 1;
      }
      assert buckets.Keys + {a, b} == buckets.Keys + ({a} - buckets.Keys) + ({b} - buckets.Keys);
    }

    method RecordFailure(key: Key, limit: Limit, now: Time) returns (ok: bool)
      requires Bounded(policies, buckets) && key.procedure in policies
      requires ValidLimit(limit) && limit == LimitOf(policies, key)
      modifies this`buckets
      ensures Bounded(policies, buckets)
      ensures ok <==> |Kept(old(buckets), key)| < limit.attempts
      ensures |Kept(old(buckets), key)| <= limit.attempts
      ensures buckets == old(buckets)[key := Bucket(Record(Kept(old(buckets), key), now, limit.attempts), limit.window)]
    {
      var attempts := if key in buckets then buckets[key].attempts else [];
      ok := |attempts| < limit.attempts;
      if !ok {
        attempts := attempts[1..] + [now];
      } else {
        attempts := attempts + [now];
      }
      buckets := buckets[key := Bucket(attempts, limit.window)];
    }
  
    /** Sweeping at most once a minute. */
    method SweepWhenDue(now: Time)
      requires Bounded(policies, buckets)
      modifies this`buckets, this`nextSweep
      ensures Bounded(policies, buckets) && buckets.Keys <= old(buckets).Keys
      ensures TracksAll(policies, old(buckets), history, now) ==> TracksAll(policies, buckets, history, now)
    {
      if nextSweep.None? || now >= nextSweep.value {
        Sweep(now);
        nextSweep := Some(now + MINUTE);
      }
    }

    method PruneKeys(ip: Key, account: Key, now: Time)
      requires Bounded(policies, buckets)
      requires ip != account && ip.procedure in policies && account.procedure in policies
      modifies this`buckets
      ensures Bounded(policies, buckets) && buckets.Keys <= old(buckets).Keys
      ensures TracksAll(policies, old(buckets), history, now) ==>
                && TracksAll(policies, buckets, history, now)
                && Fresh(Kept(buckets, ip), LimitOf(policies, ip), now)
                && Fresh(Kept(buckets, account), LimitOf(policies, account), now)
    {
      PruneKeyTracking(ip, now);
      ghost var pruned := buckets;
      PruneKeyTracking(account, now);
      assert Kept(buckets, ip) == Kept(pruned, ip);
    }

    method PruneKeyTracking(key: Key, now: Time)
      requires Bounded(policies, buckets) && key.procedure in policies
      modifies this`buckets
      ensures Bounded(policies, buckets) && buckets.Keys <= old(buckets).Keys
      ensures SameBut(old(buckets), buckets, key)
      ensures TracksAll(policies, old(buckets), history, now) ==>
                && TracksAll(policies, buckets, history, now)
                && Fresh(Kept(buckets, key), LimitOf(policies, key), now)
    {
      PruneKey(key, LimitOf(policies, key).window, now);
      if TracksAll(policies, old(buckets), history, now) {
        PrunedOneTracks(policies, old(buckets), buckets, history, now, key);
      }
    }

    method Sweep(now: Time)
      requires Bounded(policies, buckets)
      modifies this`buckets
      ensures Bounded(policies, buckets) && buckets.Keys <= old(buckets).Keys
      ensures TracksAll(policies, old(buckets), history, now) ==>
                && TracksAll(policies, buckets, history, now)
                && AllFresh(policies, buckets, now)
                && buckets.Keys == LiveKeys(policies, history, now)
    {
      Prune(now);
      if TracksAll(policies, old(buckets), history, now) {
        forall k
          ensures Tracks(policies, buckets, history, now, k)
          ensures k in buckets ==> k.procedure in policies && Fresh(Kept(buckets, k), LimitOf(policies, k), now)
        {
          assert Tracks(policies, old(buckets), history, now, k);
          PrunedTracks(policies, old(buckets), buckets, history, now, k);
          PrunedKeyIsFresh(policies, old(buckets), buckets, history, now, k);
        }
        PrunedIsLive(policies, buckets, history, now);
      }
    }
  
    /** Room for the two keys: found as the buckets are, or after a sweep, or not at all. */
    method MakeRoom(ip: Key, account: Key, now: Time) returns (room: bool)
      requires Bounded(policies, buckets) && |buckets| <= CAPACITY
      requires ip != account && ip.procedure in policies && account.procedure in policies
      modifies this`buckets
      ensures Bounded(policies, buckets) && buckets.Keys <= old(buckets).Keys
      ensures room ==> |buckets.Keys + {ip, account}| <= CAPACITY
      ensures TracksAll(policies, old(buckets), history, now)
              && Fresh(Kept(old(buckets), ip), LimitOf(policies, ip), now)
              && Fresh(Kept(old(buckets), account), LimitOf(policies, account), now) ==>
                && TracksAll(policies, buckets, history, now)
                && Fresh(Kept(buckets, ip), LimitOf(policies, ip), now)
                && Fresh(Kept(buckets, account), LimitOf(policies, account), now)
                && (room <==> |LiveKeys(policies, history, now) + {ip, account}| <= CAPACITY)
    {
      ghost var exact := TracksAll(policies, buckets, history, now);
      room := true;
      var count := NewBucketCount(ip, account);
      if count + |buckets| > CAPACITY {
        Sweep(now);
        count := NewBucketCount(ip, account);
        room := count + |buckets| <= CAPACITY;
      } else if exact {
        RoomNeeded(policies, buckets, history, now, {ip, account});
      }
    }

    /** Both buckets take the failure; each says whether it was still below its limit. */
    method RecordBoth(ip: Key, account: Key, now: Time) returns (allowed: bool)
      requires ValidPolicies(policies) && Bounded(policies, buckets)
      requires ip != account && ip.procedure in policies && account.procedure in policies
      requires |buckets.Keys + {ip, account}| <= CAPACITY
      modifies this`buckets, this`history
      ensures Bounded(policies, buckets) && |buckets| <= CAPACITY
      ensures history == Remember(Remember(old(history), ip, now), account, now)
      ensures TracksAll(policies, old(buckets), old(history), now)
              && Fresh(Kept(old(buckets), ip), LimitOf(policies, ip), now)
              && Fresh(Kept(old(buckets), account), LimitOf(policies, account), now) ==>
                && TracksAll(policies, buckets, history, now)
                && (allowed <==> Below(policies, old(history), ip, now) && Below(policies, old(history), account, now))
    {
      var below := RecordOne(ip, now);
      Elsewhere(old(buckets), buckets, old(history), ip, account, now);
      var belowToo := RecordOne(account, now);
      allowed := below && belowToo;
      AddTwo(old(buckets).Keys, ip, account);
    }

    method RecordOne(key: Key, now: Time) returns (ok: bool)
      requires ValidPolicies(policies) && Bounded(policies, buckets) && key.procedure in policies
      modifies this`buckets, this`history
      ensures Bounded(policies, buckets) && SameBut(old(buckets), buckets, key)
      ensures key in buckets && buckets.Keys == old(buckets).Keys + {key} && history == Remember(old(history), key, now)
      ensures TracksAll(policies, old(buckets), old(history), now)
              && Fresh(Kept(old(buckets), key), LimitOf(policies, key), now) ==>
                && TracksAll(policies, buckets, history, now)
                && (ok <==> Below(policies, old(history), key, now))
    {
      ok := RecordFailure(key, LimitOf(policies, key), now);
      history := Remember(history, key, now);
      if TracksAll(policies, old(buckets), old(history), now)
         && Fresh(Kept(old(buckets), key), LimitOf(policies, key), now)
      {
        assert Tracks(policies, old(buckets), old(history), now, key);
        DecidesByRecord(policies, old(buckets), old(history), now, key);
        RecordTracks(policies, old(buckets), old(history), now, key, buckets[key]);
      }
    }

    /** Attempts that are malformed or of an unknown procedure are refused and successful
        ones let through, both without a trace.  A failure is asked of the complete record:
        with a clock that does not run backwards it is recorded exactly if there is room for
        the live keys and its own two, and allowed exactly if it is recorded and both of its
        keys were below their limits.  The bounds hold whatever the clock does. */
    method Allow(attempt: Attempt, now: Time) returns (allowed: bool)
      requires Valid()
      modifies this
      ensures Valid()
      ensures attempt.procedure !in policies || !ValidAttempt(attempt) ==> !allowed && unchanged(this)
      ensures attempt.procedure in policies && ValidAttempt(attempt) && attempt.succeeded ==>
                allowed && unchanged(this)
      ensures attempt.procedure in policies && ValidAttempt(attempt) && !attempt.succeeded ==>
                var ip, account := IpKey(attempt), AccountKey(attempt);
                var room := |LiveKeys(policies, old(history), now) + {ip, account}| <= CAPACITY;
                && clock == old(clock) + [now]
                && (Sorted(clock) ==>
                      && history == (if room then Remember(Remember(old(history), ip, now), account, now)
                                     else old(history))
                      && (allowed <==> room && Below(policies, old(history), ip, now)
                                            && Below(policies, old(history), account, now)))
    {
      if attempt.procedure !in policies || !ValidAttempt(attempt) {
        return false;
      }
      if attempt.succeeded {
        return true;
      }
      allowed := CountFailure(IpKey(attempt), AccountKey(attempt), now);
    }

    /** A failed attempt under its two keys. */
    method CountFailure(ip: Key, account: Key, now: Time) returns (allowed: bool)
      requires Valid() && ip != account && ip.procedure in policies && account.procedure in policies
      modifies this
      ensures Valid() && clock == old(clock) + [now]
      ensures Sorted(clock) ==>
                var room := |LiveKeys(policies, old(history), now) + {ip, account}| <= CAPACITY;
                && history == (if room then Remember(Remember(old(history), ip, now), account, now)
                               else old(history))
                && (allowed <==> room && Below(policies, old(history), ip, now)
                                      && Below(policies, old(history), account, now))
    {
      if Sorted(clock + [now]) {
        Catchup(policies, buckets, history, clock, now);
      }
      clock := clock + [now];
      var room := Prepare(ip, account, now);
      if !room {
        return false;
      }
      allowed := RecordBoth(ip, account, now);
    }

    /** Pruning and sweeping before a failure is recorded. */
    method Prepare(ip: Key, account: Key, now: Time) returns (room: bool)
      requires Bounded(policies, buckets) && |buckets| <= CAPACITY
      requires ip != account && ip.procedure in policies && account.procedure in policies
      modifies this`buckets, this`nextSweep
      ensures Bounded(policies, buckets) && |buckets| <= CAPACITY
      ensures room ==> |buckets.Keys + {ip, account}| <= CAPACITY
      ensures TracksAll(policies, old(buckets), history, now) ==>
                && TracksAll(policies, buckets, history, now)
                && Fresh(Kept(buckets, ip), LimitOf(policies, ip), now)
                && Fresh(Kept(buckets, account), LimitOf(policies, account), now)
                && (room <==> |LiveKeys(policies, history, now) + {ip, account}| <= CAPACITY)
    {
      SweepWhenDue(now);
      PruneKeys(ip, account, now);
      SubsetSize(buckets.Keys, old(buckets).Keys);
      room := MakeRoom(ip, account, now);
      SubsetSize(buckets.Keys, old(buckets).Keys);
    }
  }

  lemma Catchup(policies: Policies, buckets: Buckets, history: History, clock: seq<Time>, now: Time)
    requires ValidPolicies(policies) && Sorted(clock + [now])
    requires clock == [] ==> history == map[] && buckets == map[]
    requires clock != [] && Sorted(clock) ==> TracksAll(policies, buckets, history, clock[|clock|-1])
    ensures TracksAll(policies, buckets, history, now)
  {
    if clock == [] {
      EmptyTracks(policies, now);
    } else {
      assert forall i :: 0 <= i < |clock| ==> clock[i] == (clock + [now])[i];
      assert (clock + [now])[|clock|] == now;
      TracksLater(policies, buckets, history, clock[|clock|-1], now);
    }
  }
}
