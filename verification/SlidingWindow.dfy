/**
 Bounded sliding-window counting: what may be forgotten about past times without changing
 any later decision.
 */
module SlidingWindow {
  type Time = int

  predicate Sorted(s: seq<Time>) {
    forall i, j :: 0 <= i < j < |s| ==> s[i] <= s[j]
  }

  /** How many recorded times lie after the cutoff. */
  function CountAfter(history: seq<Time>, cutoff: Time): (n: nat)
    ensures n <= |history|
  {
    if history == [] then 0
    else CountAfter(history[..|history|-1], cutoff) + if history[|history|-1] > cutoff then 1 else 0
  }

  /** The index of the first time after the cutoff. */
  function FirstCurrent(s: seq<Time>, cutoff: Time): (k: nat)
    ensures k <= |s|
    ensures forall i :: 0 <= i < k ==> s[i] <= cutoff
    ensures k < |s| ==> s[k] > cutoff
  {
    if s == [] || s[0] > cutoff then 0
    else
      var k := FirstCurrent(s[1..], cutoff);
      assert forall i :: 0 < i < k + 1 ==> s[i] == s[1..][i - 1];
      k + 1
  }

  /** What is left once the expired times in front are dropped. */
  function Current(s: seq<Time>, cutoff: Time): (r: seq<Time>)
    ensures |r| <= |s| && r == s[|s| - |r|..]
  {
    s[FirstCurrent(s, cutoff)..]
  }

  /** A new time, at the cost of the oldest one if there is no room. */
  function Record(s: seq<Time>, now: Time, capacity: nat): (r: seq<Time>)
    requires 0 < capacity && |s| <= capacity
    ensures 0 < |r| <= capacity
  {
    if |s| >= capacity then s[1..] + [now] else s + [now]
  }

  /** kept is a tail of the history, and what it lacks is either expired or older than
      enough entries that it no longer matters. */
  predicate Represents(kept: seq<Time>, history: seq<Time>, capacity: nat, cutoff: Time) {
    && |kept| <= |history| && |kept| <= capacity
    && kept == history[|history| - |kept|..]
    && (|kept| == capacity || forall i :: 0 <= i < |history| - |kept| ==> history[i] <= cutoff)
  }

  lemma {:induction false} CountSplit(history: seq<Time>, k: nat, cutoff: Time)
    requires k <= |history|
    requires forall i :: 0 <= i < k ==> history[i] <= cutoff
    requires forall i :: k <= i < |history| ==> history[i] > cutoff
    ensures CountAfter(history, cutoff) == |history| - k
  {
    if history != [] {
      var init := history[..|history|-1];
      CountSplit(init, if k == |history| then k - 1 else k, cutoff);
    }
  }

  lemma {:induction false} CountAtLeast(history: seq<Time>, k: nat, cutoff: Time)
    requires k <= |history|
    requires forall i :: k <= i < |history| ==> history[i] > cutoff
    ensures CountAfter(history, cutoff) >= |history| - k
  {
    if k < |history| {
      CountAtLeast(history[..|history|-1], k, cutoff);
    }
  }

  /** Dropping expired entries keeps the representation, now for the later cutoff. */
  lemma CurrentRepresents(kept: seq<Time>, history: seq<Time>, capacity: nat, cutoff: Time, later: Time)
    requires Sorted(history) && cutoff <= later
    requires Represents(kept, history, capacity, cutoff)
    ensures Represents(Current(kept, later), history, capacity, later)
    ensures forall t :: t in Current(kept, later) ==> t > later
  {
    var k := FirstCurrent(kept, later);
    var n := |history| - |kept| + k;
    assert Current(kept, later) == history[n..];
    if k > 0 {
      assert history[n - 1] == kept[k - 1] <= later;
      assert forall i :: 0 <= i < n ==> history[i] <= history[n - 1];
    }
    assert k < |kept| ==> history[n] == kept[k] > later;
    assert forall i :: n <= i < |history| ==> history[i] >= history[n];
  }

  /** The bounded list is full exactly if the whole history holds that many in the window. */
  lemma FullExactly(kept: seq<Time>, history: seq<Time>, capacity: nat, cutoff: Time)
    requires Represents(kept, history, capacity, cutoff)
    requires forall t :: t in kept ==> t > cutoff
    ensures |kept| >= capacity <==> CountAfter(history, cutoff) >= capacity
    ensures kept == [] && capacity > 0 ==> CountAfter(history, cutoff) == 0
    ensures kept != [] ==> CountAfter(history, cutoff) > 0
  {
    var k := |history| - |kept|;
    assert forall i :: k <= i < |history| ==> history[i] == kept[i - k] && kept[i - k] in kept;
    CountAtLeast(history, k, cutoff);
    if |kept| < capacity {
      CountSplit(history, k, cutoff);
    }
  }

  lemma RecordRepresents(kept: seq<Time>, history: seq<Time>, capacity: nat, cutoff: Time, now: Time)
    requires 0 < capacity && Represents(kept, history, capacity, cutoff)
    ensures Represents(Record(kept, now, capacity), history + [now], capacity, cutoff)
  {
  }

  method DropExpired(attempts: seq<Time>, cutoff: Time) returns (live: seq<Time>)
    ensures live == Current(attempts, cutoff)
  {
    var firstLive := 0;
    while firstLive < |attempts| && attempts[firstLive] <= cutoff
      invariant 0 <= firstLive <= |attempts|
      invariant forall i :: 0 <= i < firstLive ==> attempts[i] <= cutoff
    {
      firstLive := firstLive + 1;
    }
    return attempts[firstLive..];
  }
}
