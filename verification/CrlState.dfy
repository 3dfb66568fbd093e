/**
 Signed certificate revocation lists as the control plane stores them, and the
 newest-wins merge that both the distributor and its subscriptions rely on.
 */
module CrlState {
  import opened Options

  datatype CertificateClass = Agent | Gateway | Other(name: string)

  /** The issuer is the 32-byte SHA-256 fingerprint read as a big-endian number,
      so numeric order is the byte-wise order the source sorts by. */
  datatype Key = Key(kind: CertificateClass, issuer: nat)

  datatype Source = Source(streamType: string, streamId: string, streamVersion: int)

  datatype SignedCrl = SignedCrl(key: Key, sequence: int, source: Source, issuedAt: int, der: seq<int>)

  /** Keep the newer of the held and the offered state of one key. */
  function Merge(pending: map<Key, SignedCrl>, crl: SignedCrl): map<Key, SignedCrl> {
    if crl.key !in pending || pending[crl.key].sequence < crl.sequence
    then pending[crl.key := crl]
    else pending
  }

  /** What `take` may hand out: an entry whose issuer no other entry precedes. */
  predicate IsFirst(pending: map<Key, SignedCrl>, key: Key) {
    key in pending && forall k :: k in pending ==> key.issuer <= k.issuer
  }

  ghost predicate Keyed(pending: map<Key, SignedCrl>) {
    forall k :: k in pending ==> pending[k].key == k
  }

  /** A non-empty pending map always has an entry to take. */
  lemma {:induction false} FirstExists(pending: map<Key, SignedCrl>) returns (first: Key)
    requires pending != map[]
    ensures IsFirst(pending, first)
  {
    var done: set<Key> := {};
    first :| first in pending;
    while done != pending.Keys
      invariant done <= pending.Keys
      invariant first in pending
      invariant forall k :: k in done ==> first.issuer <= k.issuer
      decreases |pending.Keys - done|
    {
      var k :| k in pending.Keys - done;
      assert pending.Keys - (done + {k}) == (pending.Keys - done) - {k};
      if k.issuer < first.issuer {
        first := k;
      }
      done := done + {k};
    }
  }

  /** States of key k come oldest first. */
  ghost predicate InOrderOf(log: seq<SignedCrl>, k: Key) {
    forall i, j :: 0 <= i < j < |log| && log[i].key == k && log[j].key == k ==> log[i].sequence < log[j].sequence
  }

  predicate Supersedes(newer: SignedCrl, older: SignedCrl) {
    newer.key == older.key && newer.sequence >= older.sequence
  }

  function MergeAll(pending: map<Key, SignedCrl>, offered: seq<SignedCrl>): map<Key, SignedCrl> {
    if offered == [] then pending else Merge(MergeAll(pending, offered[..|offered|-1]), offered[|offered|-1])
  }

  /** However states are merged, each key ends up with one of the newest that were offered or
      held, and nothing else is there. */
  lemma {:induction false} MergeKeepsNewest(pending: map<Key, SignedCrl>, offered: seq<SignedCrl>)
    requires Keyed(pending)
    ensures var merged := MergeAll(pending, offered);
            && Keyed(merged)
            && (forall c :: c in offered || c in pending.Values ==> c.key in merged && Supersedes(merged[c.key], c))
            && (forall k :: k in merged ==> merged[k] in offered || merged[k] in pending.Values)
  {
    if offered != [] {
      var init, last := offered[..|offered|-1], offered[|offered|-1];
      MergeKeepsNewest(pending, init);
      assert offered == init + [last];
    }
  }

  /** The order of offers does not decide how new the result is. */
  lemma MergeOrderIrrelevant(pending: map<Key, SignedCrl>, a: seq<SignedCrl>, b: seq<SignedCrl>, k: Key)
    requires Keyed(pending) && forall c :: c in a <==> c in b
    ensures k in MergeAll(pending, a) <==> k in MergeAll(pending, b)
    ensures k in MergeAll(pending, a) ==> MergeAll(pending, a)[k].sequence == MergeAll(pending, b)[k].sequence
  {
    MergeKeepsNewest(pending, a);
    MergeKeepsNewest(pending, b);
  }
}
