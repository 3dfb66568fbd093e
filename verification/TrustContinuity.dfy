/**
 Continuity of the certificate authorities an agent trusts. A trust bundle is a
 versioned set of one or two roots; a new bundle is judged against the one that
 is stored. Certificates are byte strings; parsing, profiles and signatures are
 the uninterpreted judgements of a `Pki`.
 */
module TrustContinuity {

  type Der = seq<int>
  type Time = int

  /** `root(r, t)`: r is an acceptable self-signed root at time t.
      `proof(a, b, p, t)`: p is a's certificate over b's key, acceptable at t.
      `distinct(a, b)`: different certificates with different keys.
      `issued(a, c)`: certificate c is signed by root a.
      `fingerprint(a)`: the hash an enrollment pins. */
  datatype Pki = Pki(
    root: (Der, Time) -> bool,
    proof: (Der, Der, Der, Time) -> bool,
    distinct: (Der, Der) -> bool,
    issued: (Der, Der) -> bool,
    fingerprint: Der -> nat)

  /** Generation 0 stands for "no bundle adopted". */
  datatype Bundle = Bundle(generation: nat, revision: nat, roots: seq<Der>, transition: Der)

  const ABSENT := Bundle(0, 0, [], [])

  datatype Verdict =
    | Accept
    | ZeroGeneration
    | ZeroRevision
    | RootCount
    | BadRoot(index: nat)
    | DuplicateRoot
    | UnexpectedProof
    | MissingProof
    | BadProof
    | GenerationRollback
    | RevisionRollback
    | VersionReused
    | NothingToTransitionFrom
    | NoTransition
    | NotNormalized

  // ---------------------------------------------------------------------
  // What acceptance means
  // ---------------------------------------------------------------------

  ghost predicate WellFormed(pki: Pki, b: Bundle, now: Time) {
    && b.generation > 0 && b.revision > 0
    && (|b.roots| == 1 || |b.roots| == 2)
    && (forall r :: r in b.roots ==> pki.root(r, now))
    && (|b.roots| == 1 ==> b.transition == [])
    && (|b.roots| == 2 ==>
          b.roots[0] != b.roots[1] && b.transition != [] && pki.proof(b.roots[0], b.roots[1], b.transition, now))
  }

  predicate Older(b: Bundle, c: Bundle) {
    b.generation < c.generation || (b.generation == c.generation && b.revision < c.revision)
  }

  /** The three ways a bundle may follow a stored one. */
  predicate Follows(b: Bundle, c: Bundle) {
    || c == b
    || (b.generation < c.generation && |b.roots| > 0 && |c.roots| == 2 && c.roots[0] == b.roots[|b.roots|-1])
    || (b.generation == c.generation && b.revision < c.revision && |c.roots| == 1 && c.roots[0] in b.roots)
  }

  /** The checks in the order the source performs them, with their first failure. */
  method ValidateTrustBundle(pki: Pki, current: Bundle, next: Bundle, now: Time) returns (verdict: Verdict)
    ensures verdict == Accept <==> WellFormed(pki, next, now) && (current.generation == 0 || Follows(current, next))
    ensures verdict == GenerationRollback <==>
              WellFormed(pki, next, now) && current.generation != 0 && next.generation < current.generation
    ensures verdict == RevisionRollback <==>
              && WellFormed(pki, next, now) && current.generation != 0
              && next.generation == current.generation && next.revision < current.revision
    ensures verdict == VersionReused <==>
              && WellFormed(pki, next, now) && current.generation != 0 && next != current
              && next.generation == current.generation && next.revision == current.revision
  {
    if next.generation == 0 { return ZeroGeneration; }
    if next.revision == 0 { return ZeroRevision; }
    if |next.roots| < 1 || |next.roots| > 2 { return RootCount; }
    var index := 0;
    while index < |next.roots|
      invariant 0 <= index <= |next.roots|
      invariant forall i :: 0 <= i < index ==> pki.root(next.roots[i], now)
      invariant forall i, j :: 0 <= i < j < index ==> next.roots[i] != next.roots[j]
    {
      if !pki.root(next.roots[index], now) { return BadRoot(index); }
      var earlier := 0;
      while earlier < index
        invariant 0 <= earlier <= index
        invariant forall i :: 0 <= i < earlier ==> next.roots[i] != next.roots[index]
      {
        if next.roots[earlier] == next.roots[index] { return DuplicateRoot; }
        earlier := earlier + 1;
      }
      index := index + 1;
    }
    if |next.roots| == 1 && |next.transition| != 0 { return UnexpectedProof; }
    if |next.roots| == 2 {
      if |next.transition| == 0 { return MissingProof; }
      if !pki.proof(next.roots[0], next.roots[1], next.transition, now) { return BadProof; }
    }
    assert WellFormed(pki, next, now);
    if current.generation == 0 { return Accept; }
    if next.generation < current.generation { return GenerationRollback; }
    if next.generation == current.generation && next.revision < current.revision { return RevisionRollback; }
    if next.generation == current.generation && next.revision == current.revision {
      var same := EqualStored(current, next);
      if !same { return VersionReused; }
      return Accept;
    }
    if next.generation > current.generation {
      if |current.roots| == 0 { return NothingToTransitionFrom; }
      if |next.roots| != 2 || next.roots[0] != current.roots[|current.roots|-1] { return NoTransition; }
      return Accept;
    }
    if |next.roots| != 1 || next.roots[0] !in current.roots { return NotNormalized; }
    return Accept;
  }

  method EqualStored(first: Bundle, second: Bundle) returns (same: bool)
    ensures same <==> first == second
  {
    if first.generation != second.generation || first.revision != second.revision ||
       first.transition != second.transition || |first.roots| != |second.roots| {
      return false;
    }
    for index := 0 to |first.roots|
      invariant first.roots[..index] == second.roots[..index]
    {
      if first.roots[index] != second.roots[index] { return false; }
    }
    assert first.roots[..|first.roots|] == first.roots;
    assert second.roots[..|first.roots|] == second.roots;
    return true;
  }

  ghost predicate Accepts(pki: Pki, current: Bundle, next: Bundle, now: Time) {
    WellFormed(pki, next, now) && (current.generation == 0 || Follows(current, next))
  }

  // ---------------------------------------------------------------------
  // Chains of transition proofs
  // ---------------------------------------------------------------------

  ghost predicate Linked(pki: Pki, a: Der, b: Der) {
    exists p, t :: pki.proof(a, b, p, t)
  }

  ghost predicate Chain(pki: Pki, path: seq<Der>) {
    |path| > 0 && forall i :: 0 < i < |path| ==> Linked(pki, path[i-1], path[i])
  }

  ghost predicate Reaches(pki: Pki, a: Der, b: Der) {
    exists path :: Chain(pki, path) && path[0] == a && path[|path|-1] == b
  }

  lemma ReachesSelf(pki: Pki, a: Der)
    ensures Reaches(pki, a, a)
  {
    assert Chain(pki, [a]);
  }

  lemma ReachesOneStep(pki: Pki, a: Der, b: Der)
    requires Linked(pki, a, b)
    ensures Reaches(pki, a, b)
  {
    assert Chain(pki, [a, b]);
  }

  lemma ReachesTransitive(pki: Pki, a: Der, b: Der, c: Der)
    requires Reaches(pki, a, b) && Reaches(pki, b, c)
    ensures Reaches(pki, a, c)
  {
    var p :| Chain(pki, p) && p[0] == a && p[|p|-1] == b;
    var q :| Chain(pki, q) && q[0] == b && q[|q|-1] == c;
    var path := p + q[1..];
    forall i | 0 < i < |path| ensures Linked(pki, path[i-1], path[i]) {
      if i < |p| {
        assert Linked(pki, p[i-1], p[i]);
      } else {
        assert Linked(pki, q[i-|p|], q[i-|p|+1]);
      }
    }
    assert Chain(pki, path);
  }

  /** Every root of `c` is linked to the first root of `b`. */
  ghost predicate Anchored(pki: Pki, b: Bundle, c: Bundle) {
    |b.roots| > 0 && |c.roots| > 0 && forall r :: r in c.roots ==> Reaches(pki, b.roots[0], r)
  }

  /** What may have happened to a bundle that was adopted: nothing, or it gave
      way to a newer version whose roots all descend from its first root. */
  ghost predicate TrustKept(pki: Pki, b: Bundle, c: Bundle) {
    b.generation != 0 ==> c.generation != 0 && Anchored(pki, b, c) && (c == b || Older(b, c))
  }

  lemma WellFormedAnchored(pki: Pki, b: Bundle, now: Time)
    requires WellFormed(pki, b, now)
    ensures Anchored(pki, b, b)
  {
    ReachesSelf(pki, b.roots[0]);
    if |b.roots| == 2 {
      assert Linked(pki, b.roots[0], b.roots[1]);
      ReachesOneStep(pki, b.roots[0], b.roots[1]);
    }
  }

  lemma AcceptKeepsTrust(pki: Pki, b: Bundle, c: Bundle, now: Time)
    requires Anchored(pki, b, b) || b.generation == 0
    requires Accepts(pki, b, c, now)
    ensures TrustKept(pki, b, c) && Anchored(pki, c, c)
  {
    WellFormedAnchored(pki, c, now);
    if b.generation != 0 && c != b {
      forall r | r in c.roots ensures Reaches(pki, b.roots[0], r) {
        assert c.roots[0] in b.roots;
        assert Reaches(pki, c.roots[0], r);
        ReachesTransitive(pki, b.roots[0], c.roots[0], r);
      }
    }
  }

  lemma TrustKeptTransitive(pki: Pki, b: Bundle, c: Bundle, d: Bundle)
    requires TrustKept(pki, b, c) && TrustKept(pki, c, d)
    ensures TrustKept(pki, b, d)
  {
    if b.generation != 0 {
      forall r | r in d.roots ensures Reaches(pki, b.roots[0], r) {
        assert c.roots[0] in c.roots;
        ReachesTransitive(pki, b.roots[0], c.roots[0], r);
      }
    }
  }

  // ---------------------------------------------------------------------
  // Accepted histories
  // ---------------------------------------------------------------------

  /** Bundle i was accepted at time i against its predecessor, the first one
      against no bundle at all. */
  ghost predicate AcceptedHistory(pki: Pki, history: seq<Bundle>, times: seq<Time>) {
    && |history| == |times|
    && forall i :: 0 <= i < |history| ==> Accepts(pki, Previous(history, i), history[i], times[i])
  }

  function Previous(history: seq<Bundle>, i: int): Bundle
    requires 0 <= i < |history|
  {
    if i == 0 then ABSENT else history[i-1]
  }

  lemma {:induction false} TrustChains(pki: Pki, history: seq<Bundle>, i: nat, j: nat)
    requires i <= j < |history| && Anchored(pki, history[i], history[i])
    requires forall k :: 0 < k < |history| ==> TrustKept(pki, history[k-1], history[k])
    ensures TrustKept(pki, history[i], history[j])
  {
    if i < j {
      TrustChains(pki, history, i, j - 1);
      TrustKeptTransitive(pki, history[i], history[j-1], history[j]);
    }
  }

  lemma HistoryKeepsTrust(pki: Pki, history: seq<Bundle>, times: seq<Time>, i: nat, j: nat)
    requires AcceptedHistory(pki, history, times) && i <= j < |history|
    ensures TrustKept(pki, history[i], history[j])
  {
    forall k | 0 <= k < |history| ensures Anchored(pki, history[k], history[k]) {
      assert Accepts(pki, Previous(history, k), history[k], times[k]);
      WellFormedAnchored(pki, history[k], times[k]);
    }
    forall k | 0 < k < |history| ensures TrustKept(pki, history[k-1], history[k]) {
      assert Accepts(pki, Previous(history, k), history[k], times[k]);
      AcceptKeepsTrust(pki, history[k-1], history[k], times[k]);
    }
    TrustChains(pki, history, i, j);
  }

  /** Every root ever trusted descends, proof by proof, from the first root of
      the first adopted bundle: the root an enrollment fingerprint pins. */
  lemma ChainOfTrust(pki: Pki, history: seq<Bundle>, times: seq<Time>, j: nat, r: Der)
    requires AcceptedHistory(pki, history, times) && j < |history| && r in history[j].roots
    ensures |history[0].roots| > 0 && Reaches(pki, history[0].roots[0], r)
  {
    HistoryKeepsTrust(pki, history, times, 0, j);
    assert Accepts(pki, Previous(history, 0), history[0], times[0]);
  }

  /** Versions never decrease, and a version is never used for two bundles. */
  lemma VersionsNeverReused(pki: Pki, history: seq<Bundle>, times: seq<Time>, i: nat, j: nat)
    requires AcceptedHistory(pki, history, times) && i <= j < |history|
    ensures !Older(history[j], history[i])
    ensures history[i].generation == history[j].generation && history[i].revision == history[j].revision
            ==> history[i] == history[j]
  {
    HistoryKeepsTrust(pki, history, times, i, j);
    assert Accepts(pki, Previous(history, i), history[i], times[i]);
  }
}
