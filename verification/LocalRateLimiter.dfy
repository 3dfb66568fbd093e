/** The limiter of the agent's local enrollment socket: five attempts in any sliding minute. */
module LocalRateLimiter {
  import opened SlidingWindow

  const ATTEMPTS := 5

  const MINUTE: Time := 60_000_000_000

  /** How many admissions lie in the minute that ends at t. */
  function WithinMinute(admitted: seq<Time>, t: Time): int {
    CountAfter(admitted, t - MINUTE) - CountAfter(admitted, t)
  }

  /** Each admission is at least a minute after the fifth one before it. */
  ghost predicate Spaced(admitted: seq<Time>) {
    forall i, j :: 0 <= i < j < |admitted| && j == i + ATTEMPTS ==> admitted[i] + MINUTE <= admitted[j]
  }

  lemma CountIsTail(s: seq<Time>, cutoff: Time)
    requires Sorted(s)
    ensures CountAfter(s, cutoff) == |s| - FirstCurrent(s, cutoff)
  {
    CountSplit(s, FirstCurrent(s, cutoff), cutoff);
  }

  lemma AtMostFive(admitted: seq<Time>, t: Time)
    requires Sorted(admitted) && Spaced(admitted)
    ensures WithinMinute(admitted, t) <= ATTEMPTS
  {
    CountIsTail(admitted, t - MINUTE);
    CountIsTail(admitted, t);
    var first := FirstCurrent(admitted, t - MINUTE);
    if first + ATTEMPTS < |admitted| {
      assert admitted[first] + MINUTE <= admitted[first + ATTEMPTS];
    }
  }

  /** The list is exactly what the complete record holds after the cutoff. */
  predicate Lists(attempts: seq<Time>, admitted: seq<Time>, cutoff: Time) {
    && |attempts| <= |admitted| && attempts == admitted[|admitted| - |attempts|..]
    && forall i :: 0 <= i < |admitted| - |attempts| ==> admitted[i] <= cutoff
  }

  lemma ListedCurrent(attempts: seq<Time>, admitted: seq<Time>, earlier: Time, cutoff: Time)
    requires Sorted(admitted) && earlier <= cutoff && Lists(attempts, admitted, earlier)
    ensures Lists(Current(attempts, cutoff), admitted, cutoff)
    ensures CountAfter(admitted, cutoff) == |Current(attempts, cutoff)|
  {
    var dropped, k := |admitted| - |attempts|, FirstCurrent(attempts, cutoff);
    SplitsAt(attempts, admitted, dropped, k, cutoff);
    assert Current(attempts, cutoff) == admitted[dropped + k..];
    CountSplit(admitted, dropped + k, cutoff);
  }

  lemma SplitsAt(attempts: seq<Time>, admitted: seq<Time>, dropped: nat, k: nat, cutoff: Time)
    requires Sorted(admitted) && dropped <= |admitted| && attempts == admitted[dropped..] && k <= |attempts|
    requires forall i :: 0 <= i < dropped ==> admitted[i] <= cutoff
    requires forall i :: 0 <= i < k ==> attempts[i] <= cutoff
    requires k < |attempts| ==> attempts[k] > cutoff
    ensures forall i :: 0 <= i < dropped + k ==> admitted[i] <= cutoff
    ensures forall i :: dropped + k <= i < |admitted| ==> admitted[i] > cutoff
  {
    assert forall i :: dropped <= i < |admitted| ==> admitted[i] == attempts[i - dropped];
  }

  /** What the list is worth when the clock has not run backwards. */
  ghost predicate Exact(attempts: seq<Time>, admitted: seq<Time>, now: Time) {
    && Sorted(admitted) && Spaced(admitted)
    && (forall i :: 0 <= i < |admitted| ==> admitted[i] <= now)
    && Lists(attempts, admitted, now - MINUTE)
  }

  lemma AdmitKeeps(attempts: seq<Time>, admitted: seq<Time>, now: Time)
    requires Exact(attempts, admitted, now) && |attempts| < ATTEMPTS
    ensures Exact(attempts + [now], admitted + [now], now)
  {
  }

  lemma ExactLater(attempts: seq<Time>, admitted: seq<Time>, clock: seq<Time>, now: Time)
    requires Sorted(clock + [now])
    requires clock == [] ==> attempts == [] && admitted == []
    requires clock != [] && Sorted(clock) ==> Exact(attempts, admitted, clock[|clock|-1])
    ensures Exact(Current(attempts, now - MINUTE), admitted, now)
    ensures CountAfter(admitted, now - MINUTE) == |Current(attempts, now - MINUTE)|
  {
    assert forall i :: 0 <= i < |clock| ==> clock[i] == (clock + [now])[i];
    assert (clock + [now])[|clock|] == now;
    ListedCurrent(attempts, admitted, if clock == [] then now - MINUTE else clock[|clock|-1] - MINUTE, now - MINUTE);
  }

  /** What every state of the limiter satisfies. */
  ghost predicate Good(attempts: seq<Time>, admitted: seq<Time>, clock: seq<Time>) {
    && |attempts| <= ATTEMPTS
    && (clock == [] ==> attempts == [] && admitted == [])
    && (clock != [] && Sorted(clock) ==> Exact(attempts, admitted, clock[|clock|-1]))
  }

  /** The decision by the complete record, where the clock has not run backwards. */
  ghost predicate Decision(admitted: seq<Time>, clock: seq<Time>, now: Time, allowed: bool) {
    Sorted(clock + [now]) ==> (allowed <==> CountAfter(admitted, now - MINUTE) < ATTEMPTS)
  }

  /** The state after a call. */
  function After(s: seq<Time>, now: Time, allowed: bool): seq<Time> { if allowed then s + [now] else s }

  lemma Step(attempts: seq<Time>, live: seq<Time>, admitted: seq<Time>, clock: seq<Time>, now: Time)
    requires Good(attempts, admitted, clock) && live == Current(attempts, now - MINUTE)
    ensures var allowed := |live| < ATTEMPTS;
            && Good(After(live, now, allowed), After(admitted, now, allowed), clock + [now])
            && Decision(admitted, clock, now, allowed)
  {
    if Sorted(clock + [now]) {
      ExactLater(attempts, admitted, clock, now);
      if |live| < ATTEMPTS {
        AdmitKeeps(live, admitted, now);
      }
    }
  }

  class Limiter {
    var attempts: seq<Time>
    ghost var admitted: seq<Time>
    ghost var clock: seq<Time>

    ghost predicate Valid()
      reads this
    {
      Good(attempts, admitted, clock)
    }

    constructor ()
      ensures Valid() && admitted == [] && clock == []
    {
      attempts, admitted, clock := [], [], [];
    }

    method Allow(now: Time) returns (allowed: bool)
      requires Valid()
      modifies this
      ensures Valid() && clock == old(clock) + [now]
      ensures admitted == After(old(admitted), now, allowed)
      ensures Decision(old(admitted), old(clock), now, allowed)
    {
      var live := DropExpired(attempts, now - MINUTE);
      allowed := |live| < ATTEMPTS;
      Step(attempts, live, admitted, clock, now);
      admitted := After(admitted, now, allowed);
      clock := clock + [now];
      attempts := live;
      if allowed {
        attempts := attempts + [now];
      }
    }
  }

  /** No sliding minute of a run with a clock that does not run backwards holds more than five
      admissions. */
  lemma NeverMoreThanFive(attempts: seq<Time>, admitted: seq<Time>, clock: seq<Time>, t: Time)
    requires Good(attempts, admitted, clock) && Sorted(clock)
    ensures WithinMinute(admitted, t) <= ATTEMPTS
  {
    AtMostFive(admitted, t);
  }
}
