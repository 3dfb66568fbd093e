# Power-manage: a Dafny model of its protocols and file transformations

This project models the parts of power-manage where the behaviour is hardest to see from any
one function, and proves properties of them for every input, every interleaving or every run.
`dafny verify dfyconfig.toml` checks everything.

The form follows the source. Code that updates fields or buffers is a class or a method with
loops, proved against a specification function. Concurrent protocols are state machines over
their steps, and theorems range over all runs. Pure decisions are functions and lemmas.

- **Revocation lists to subscribers** (`CrlState`, `CrlSubscription`, `CrlBoard`,
  `CrlDistributor`): the coalescing queue of one subscription, with its goroutine, wake token,
  one-slot buffer and flush handshake; and the distributor that keeps the latest signed list per
  key. Its calls read the durable source, which changes on its own, in one step and act under
  the lock in another; `CrlBoard` is what the lock protects.
- **Trust of an agent** (`TrustContinuity`, `TrustConfirmation`): when a trust bundle may follow
  another one, and the enroll, renew and confirm protocol with crashes, lost replies and failed
  or half-reported writes.
- **Refresh tokens** (`RefreshRotation`): all interleavings of Rotate against a store with
  version-checked appends and the projectors of the refresh-family stream.
- **Pattern vetting** (`Redos`, `RedosTree`): the flat scanner against regular-expression trees.
- **Policy files** (`Rollback`, `PolicyFile`, `ManagedBlock`): compensated execution, the
  five-step file transaction, and managed blocks inside a file.
- **Identifiers and signing inputs** (`Octets`, `Ulid`, `Framing`, `Preimages`).
- **Rate limits** (`SlidingWindow`, `FailureLadder`, `LocalRateLimiter`).
- **Authorization** (`StringOrder`, `Grants`, `AuthorizationGate`, `CrudKernel`): from a caller's
  grants through the gate's decision to the event a management request appends.
- **pacman.conf** (`Text`, `Document`, `PacmanConf`) and two **graph closures** (`Closures`).

Judgements the model does not look into (X.509 parsing and signatures, CRL parsing, scope
callbacks of a domain) are function values that every theorem quantifies over. Clocks, entropy,
file-system outcomes, remote replies and schedules are parameters or steps that can go any way
the source can meet.

Results where the code does something other than one would first expect:

- Two overlapping publications of one key can be enqueued newest first, because the fan-out runs
  after the distributor's lock is released (`CrlDistributor.OverlapHappens`, and
  `OverlapCanReorder` for every overlap). Without overlap every subscriber is given the key
  oldest first and receives it so (`NoOverlapDeliversInOrder`). For one subscription the
  delivery order of a key is guaranteed by exactly the enqueue orders in which that key rises
  (`CrlSubscription.InOrderIffGuaranteed`).
- A later Subscribe that raises the stored entry leaves earlier subscribers uninformed
  (`CrlDistributor.InformedExactly` and the run in `LaterSubscribeLeavesEarlierBehind`).
- Enroll does not take the lock that Renew holds. Stored trust only advances if and only if no
  call clears a confirmation over bundles other than its own
  (`TrustConfirmation.StoredTrustOnlyAdvances`); overlapping calls can do that and put an older
  bundle back (`OverlapCanRollBack`), and then a renewal can overwrite a bundle that was never
  acknowledged (`OverlapOverwritesUnconfirmed`).
- A repeat bound of 2^63 or more over a group with an unbounded quantifier is not seen by the
  pattern vetter although its documentation rules such patterns out
  (`RedosTree.RejectedExactlyByRule`, `OversizedRepeatSlips`).
- The CRUD kernel skips its scope check for an empty object id and relies on request validation
  (`CrudKernel.GuardedExactlyIfNamed`). A domain accepted with delete but without get makes a
  scoped delete call a nil function (`CrudKernel.DoDelete` says exactly when,
  `AcceptedDeleteCanPanic` gives an accepted domain).
- A directive inserted into pacman.conf lands in the options section if and only if the first
  line that contains the section's name is its header; a comment in front of it misplaces the
  directive (`PacmanConf.InsertedDirectiveSection`, `CommentMisplacesDirective`).

## Model

| member | source | states |
|---|---|---|
| CrlState.FirstExists | server/internal/control/crl.go:340-360 | a non-empty pending map has an entry that take picks, one whose issuer no other entry's precedes |
| CrlState.MergeKeepsNewest | server/internal/control/crl.go:332-338 | however states are merged, each key ends up with one of the newest that were held or offered, and nothing else is there |
| CrlState.MergeOrderIrrelevant | server/internal/control/crl.go:332-338 | the order of offers does not decide how new the result is |
| CrlSubscription.NothingInvented | server/internal/control/crl.go:244-360 | a step puts nothing on its way but what was there or what a publisher merges; the consumer reads only what was buffered |
| CrlSubscription.NothingDropped | server/internal/control/crl.go:318-338 | requeue, reclaim and merge drop a state only for one of the same key at least as new |
| CrlSubscription.HoldingsPreserved | server/internal/control/crl.go:244-360 | every step keeps: what is pending, in hand, buffered or received was enqueued, and the buffer is empty while an acknowledgement is prepared |
| CrlSubscription.BookkeepingPreserved | server/internal/control/crl.go:262-317 | every step keeps: a publisher awaits an acknowledgement only while one is there or being prepared for it |
| CrlSubscription.WakeupPreserved | server/internal/control/crl.go:262-299 | every step keeps: an idle goroutine with work pending has a wake token or a publisher about to signal |
| CrlSubscription.NothingLostPreserved | server/internal/control/crl.go:244-360 | every step of a live subscription keeps: each enqueued state is matched or superseded by one on its way or received |
| CrlSubscription.PathRisesPreserved | server/internal/control/crl.go:318-338 | along buffer, hand and pending, sequences of a key that is enqueued oldest first rise, despite requeue and reclaim |
| CrlSubscription.ReceivedFirstPreserved | server/internal/control/crl.go:262-290 | what is on its way stays newer than everything received of its key, and what is received of it stays rising |
| CrlSubscription.BarriersPreserved | server/internal/control/crl.go:301-330 | nothing older than an acknowledged publication of a key is left on its way |
| CrlSubscription.OrderedPreserved | server/internal/control/crl.go:262-338 | for each key by itself, order on the way, order received and barriers are kept as long as that key is enqueued oldest first |
| CrlSubscription.InvariantPreserved | server/internal/control/crl.go:244-360 | all of the above together are kept by every step |
| CrlSubscription.NewestNeverLost | server/internal/control/crl.go:244-360 | in every run the highest sequence enqueued for a key is pending, in hand, buffered or received until teardown |
| CrlSubscription.ReceivedInOrder | server/internal/control/crl.go:262-338 | if a key is enqueued oldest first, the consumer receives strictly rising sequences of it, whatever happens to other keys |
| CrlSubscription.FlushBarrier | server/internal/control/crl.go:301-330 | if a key is enqueued oldest first, the consumer never receives an older state of it after an acknowledged flush |
| CrlSubscription.BusyCanProceed | server/internal/control/crl.go:262-360 | a goroutine in the middle of its loop always has an enabled step that does not wait for the consumer |
| CrlSubscription.UnreadHoldsNoPublisher | server/internal/control/crl.go:301-330 | where only a read by the consumer could still happen, every publisher has returned |
| CrlSubscription.StuckIsSettled | server/internal/control/crl.go:262-330 | a live subscription without enabled steps has no waiting publisher and has delivered the newest of every key |
| CrlSubscription.StepDescends | server/internal/control/crl.go:262-360 | every step but an arrival uses up a bounded resource |
| CrlSubscription.AlwaysReleases | server/internal/control/crl.go:291-330 | once publications stop, every publisher returns under every schedule, whether or not the consumer ever reads |
| CrlSubscription.RunReleases | server/internal/control/crl.go:291-330 | the same from every point of every run that is not torn down |
| CrlSubscription.AlwaysSettles | server/internal/control/crl.go:244-330 | with a consumer that goes on reading, the newest state of every key is delivered as well |
| CrlSubscription.RunSettles | server/internal/control/crl.go:244-330 | that from every point of every run that is not torn down |
| CrlSubscription.InOrderIffGuaranteed | server/internal/control/crl.go:203-206 | the delivery order of a key is guaranteed by an enqueue log if and only if that key rises in it |
| CrlSubscription.OperationsAreSteps | server/internal/control/crl.go:291-360 | the steps of the protocol act on the shared fields as the operations below do |
| CrlSubscription.Subscription.constructor | server/internal/control/crl.go:115-125 | a new subscription is empty |
| CrlSubscription.Subscription.MergeLocked | server/internal/control/crl.go:332-338 | the key holds the newer of the two, the old one on a tie, and no other key changes |
| CrlSubscription.Subscription.Enqueue | server/internal/control/crl.go:291-299 | the state is merged and the wake token is set |
| CrlSubscription.Subscription.ReclaimBuffered | server/internal/control/crl.go:324-330 | what is buffered goes back into pending |
| CrlSubscription.Subscription.Take | server/internal/control/crl.go:340-360 | the first entry leaves pending and the wake token is drained; nothing changes when pending is empty |
| CrlBoard.AdoptExact | server/internal/control/crl.go:84-113 | adopting durable states only raises entries, and succeeds if and only if every state read ends up matched or superseded |
| CrlBoard.RunInformed | server/internal/control/crl.go:70-208 | in every run a connected subscriber has or is owed an entry exactly if it was told of it, and nothing newer than the entries is on offer |
| CrlBoard.NoOverlapQueuesRise | server/internal/control/crl.go:203-206 | if publications of a key do not overlap, every subscriber is given that key oldest first, its seed included |
| CrlBoard.OverlapReorders | server/internal/control/crl.go:203-206 | whenever a state is accepted while an earlier fan-out of its key owes a subscriber, the two enqueues can come newest first |
| CrlDistributor.Distributor.Subscribe | server/internal/control/crl.go:79-136 | an invalid state changes nothing; valid ones are adopted; on success the subscriber is seeded with exactly the entries of its class, on failure none is added |
| CrlDistributor.Distributor.Publish | server/internal/control/crl.go:149-202 | accepted exactly if valid, equal to the valid durable state and newer than the entry; then the entry is this state and the targets are the listeners of its class, otherwise nothing changes |
| CrlDistributor.SourcedStep | server/internal/control/crl.go:79-202 | a step leaves an entry as it is or raises it to a valid state that the source has returned to the call |
| CrlDistributor.LatestIsSourced | server/internal/control/crl.go:79-202 | in every run, with the source changing in any way, each entry is valid and was what the source held when a call read it |
| CrlDistributor.LatestMonotone | server/internal/control/crl.go:84-198 | over a run entries never disappear or decrease, and equal sequences mean equal entries |
| CrlDistributor.InformedExactly | server/internal/control/crl.go:70-208 | a subscriber has or is owed the current entry if and only if it was last raised by a Publish or by a Subscribe no later than its own |
| CrlDistributor.SettledHasReceived | server/internal/control/crl.go:70-338 | with nothing owed and a settled subscription, a connected subscriber has received the current entry of a key if and only if it was told of it, and nothing newer of that key |
| CrlDistributor.NoOverlapDeliversInOrder | server/internal/control/crl.go:70-338 | if publications of a key do not overlap, every subscriber is given the key oldest first and its consumer receives it so |
| CrlDistributor.OverlapCanReorder | server/internal/control/crl.go:186-206 | every run with an overlap can go on so that a subscriber is given the newer state first |
| CrlDistributor.OverlapHappens | server/internal/control/crl.go:186-206 | a run with such an overlap, for any three valid states of one key |
| CrlDistributor.LaterSubscribeLeavesEarlierBehind | server/internal/control/crl.go:84-136 | a run in which the first subscriber never hears of the newer state |
| TrustContinuity.ValidateTrustBundle | agent/internal/enroll/continuity.go:64-130 | accepts if and only if the bundle is well formed and follows the current one; the two rollback verdicts and the reuse verdict are given for exactly the well-formed bundles they name |
| TrustContinuity.EqualStored | agent/internal/enroll/continuity.go:409-420 | true if and only if the bundles are equal |
| TrustContinuity.AcceptKeepsTrust | agent/internal/enroll/continuity.go:64-130 | an accepted bundle is anchored and reachable from the one before |
| TrustContinuity.HistoryKeepsTrust | agent/internal/enroll/continuity.go:64-130 | trust is kept between any two bundles of an accepted history |
| TrustContinuity.ChainOfTrust | agent/internal/enroll/continuity.go:64-130 | every root ever trusted descends by transition proofs from the first root of the first bundle |
| TrustContinuity.VersionsNeverReused | agent/internal/enroll/continuity.go:100-130 | versions never decrease and equal versions mean equal bundles |
| TrustConfirmation.IssuingRootSound | agent/internal/enroll/continuity.go:223-235 | the root found issued the certificate; none is found only if none did |
| TrustConfirmation.SafePreserved | agent/internal/enroll/continuity.go:277-312 | every step, crash and failed write included, keeps: an adopted bundle is marked pending with its own version or has been acknowledged |
| TrustConfirmation.UnmarkedMeansConfirmed | agent/internal/enroll/client.go:84-194 | in every interleaving an adopted bundle without a pending mark has been acknowledged by the remote |
| TrustConfirmation.AdoptedIsSound | agent/internal/enroll/client.go:155-192 | what enrollment or renewal stores passes the checks made on load, well-formedness included, and its issuer signed it |
| TrustConfirmation.AllSoundPreserved | agent/internal/enroll/client.go:228-332 | every step keeps stored and in-memory credentials loadable |
| TrustConfirmation.StoredTrustOnlyAdvances | agent/internal/enroll/client.go:228-332 | in every interleaving, through crashes and failed writes: stored trust is never dropped, rolled back or reused, if and only if no call clears a confirmation over bundles other than its own |
| TrustConfirmation.IssuerDescendsFromPinnedRoot | agent/internal/enroll/client.go:273-306 | the issuer in use signed the certificate and agent and gateway roots are apart; without a stale clear it descends from a root with the pinned fingerprint |
| TrustConfirmation.OverwriteGuaranteedExactly | agent/internal/enroll/client.go:238-332 | what a renewal sees of store and copy guarantees that it overwrites nothing unacknowledged, if and only if the stored bundle is unmarked or has the version of its copy; otherwise some set of acknowledgements that fits what it sees lacks the stored one (not every such set need belong to a run) |
| TrustConfirmation.RenewalOverwritesOnlyConfirmed | agent/internal/enroll/client.go:238-332 | in every interleaving, where that condition holds, a renewal overwrites only what the remote has acknowledged |
| TrustConfirmation.FreshRenewalIsSafe | agent/internal/enroll/client.go:238-332 | the condition holds as long as no clear was stale |
| TrustConfirmation.OverlapCanRollBack | agent/internal/enroll/client.go:84-103 | a run of overlapping Enroll and Renew that puts an older bundle back |
| TrustConfirmation.OverlapOverwritesUnconfirmed | agent/internal/enroll/client.go:84-103 | a run after which a renewal may overwrite a bundle that was never acknowledged |
| TrustConfirmation.Device.ConfirmClass | agent/internal/enroll/continuity.go:277-312 | one round of the loop: honest before, honest after, cleared exactly on acknowledgement and a reported write |
| TrustConfirmation.Device.SendPendingConfirmations | agent/internal/enroll/continuity.go:277-312 | succeeds if and only if every pending class was acknowledged and cleared; failed classes stay pending |
| RefreshRotation.ProjectCoherent | server/internal/store/refresh_families.go:244-410 | a projected event keeps every token in its family and the active one unsuperseded |
| RefreshRotation.ProjectEvolves | server/internal/store/refresh_families.go:244-410 | families only advance: versions rise, superseded and revoked stay |
| RefreshRotation.InvariantPreserved | server/internal/auth/refresh.go:128-191 | every step of every call keeps what each call knows about the store |
| RefreshRotation.RotatedAtMostOnce | server/internal/auth/refresh.go:128-191 | in every interleaving one token is rotated successfully by at most one call |
| RefreshRotation.ReplayRevokesFamily | server/internal/auth/refresh.go:222-259 | a call that answers with the replay rejection leaves the family revoked |
| RefreshRotation.DetectionIsFinal | server/internal/auth/refresh.go:128-191 | in every run, a call that once read a superseded token or came too late with its append never succeeds later |
| RefreshRotation.SuccessNeedsLiveFamily | server/internal/auth/refresh.go:160-191 | a call succeeds only on a live family whose active token it presented |
| RefreshRotation.RevocationIsFinal | server/internal/auth/refresh.go:222-259 | once revoked, a family stays revoked and no call rotates any of its tokens |
| RefreshRotation.ContentionIsReal | server/internal/auth/refresh.go:222-259 | giving up for contention means the family advanced at least once per attempt |
| Redos.SkipClass | sdk/redos/redos.go:197-224 | the index loop stops where the character class ends |
| Redos.PathologicalReason | sdk/redos/redos.go:77-191 | the two index loops give the reason of the token-by-token reading |
| Redos.WalkOne | sdk/redos/redos.go:111-191 | one turn of the group loop has the effect of one token |
| RedosTree.QuantifierToken | sdk/redos/redos.go:232-281 | for every printed quantifier the brace parsers see what it is |
| RedosTree.WalkGroup | sdk/redos/redos.go:112-191 | scanning a printed group leaves the flags and the verdict of its tree |
| RedosTree.ScannerMeetsTree | sdk/redos/redos.go:77-191 | for every tree, the scanner's reason for its text is the tree's own |
| RedosTree.RejectedExactlyByRule | sdk/redos/redos.go:77-281 | a tree breaks the documented rules if and only if its text is rejected or it holds a repeat by two or more, over a group with an unbounded quantifier, with a bound of 2^63 or more |
| RedosTree.OversizedRepeatSlips | sdk/redos/redos.go:232-263 | a pattern that breaks the rules and is not rejected |
| Rollback.Compensate | sdk/rollback/rollback.go:40-47 | completed steps are undone last first, past failures, which are all reported |
| Rollback.Run | sdk/rollback/rollback.go:24-51 | a list with a step that lacks its name or a function does nothing and names the first such step; otherwise the run is the recursive execution |
| Rollback.AllOrNothing | sdk/rollback/rollback.go:24-51 | for any compensating steps and any failure: all done, or as if not started, unless a failed compensation is reported |
| PolicyFile.StepsCompensate | sdk/fsafe/policy_linux.go:172-244 | each of the five steps establishes the next stage or leaves something its predecessors can undo |
| PolicyFile.TransactionOutcome | sdk/fsafe/policy_linux.go:172-244 | for every fate of every operation: the desired state, or an undone one |
| PolicyFile.ApplyPolicyFile | sdk/fsafe/policy_linux.go:147-249 | a request that cannot be rendered touches nothing; success leaves exactly the rendered state, on which the same request is unchanged; a failure leaves the state as read, with a candidate left exactly if its writer did not clean up |
| PolicyFile.RenderedSettles | sdk/fsafe/policy_linux.go:359-386 | a rendered state is one on which the same request changes nothing |
| ManagedBlock.MarkerSpans | sdk/fsafe/policy_linux.go:413-432 | the offset loop finds exactly the lines equal to the marker |
| ManagedBlock.ValidIsUsable | sdk/fsafe/policy_linux.go:388-411 | accepted markers are distinct single non-empty lines |
| ManagedBlock.WriteBlock | sdk/fsafe/policy_linux.go:434-472 | exactly one begin line before one end line, the block between them, every byte outside kept |
| ManagedBlock.WriteIdempotent | sdk/fsafe/policy_linux.go:434-459 | writing the same block again changes nothing |
| ManagedBlock.RemoveAfterWrite | sdk/fsafe/policy_linux.go:434-459 | removal after insertion gives the original up to one final newline; after replacement, what removing the old block would have |
| ManagedBlock.RemoveIsComplete | sdk/fsafe/policy_linux.go:434-459 | after removal no marker line is left and removing again changes nothing |
| ManagedBlock.RenderIdempotent | sdk/fsafe/policy_linux.go:359-386 | rendering any desired state over its own result changes nothing |
| Ulid.SpellingOrder | sdk/ulidx/ulidx.go:47-61 | spellings sort as their 128-bit numbers, and are equal only for equal numbers |
| Ulid.UlidExactly | contract/identity/identity.go:34-49 | the spellings of 128-bit numbers are exactly the 26-symbol strings that start with 0 to 7 |
| Ulid.IsCanonicalULID | contract/identity/identity.go:35-49 | accepts exactly the spellings of 128-bit numbers |
| Ulid.ULIDPathID | sdk/validate/names.go:220-241 | accepts exactly the strings whose upper-case form is such a spelling |
| Ulid.CanonicalIsUpperPathId | contract/identity/identity.go:35-49 | the strict validator is the case-insensitive one plus upper case |
| Ulid.FiveBits | sdk/ulidx/ulidx.go:49-59 | the inner loop shifts in the next five bits of the padded value |
| Ulid.Encode | sdk/ulidx/ulidx.go:47-61 | the bit loops spell the big-endian value of the sixteen bytes |
| Ulid.StampTime | sdk/ulidx/ulidx.go:35-40 | the first six bytes are the time, most significant first |
| Ulid.NewWithReader | sdk/ulidx/ulidx.go:27-45 | the spelling of time and entropy, or nothing without a source, outside 48 bits or when entropy runs out |
| Ulid.MintedIsUlid | sdk/ulidx/ulidx.go:27-61 | every minted identifier is canonical |
| Ulid.SortsByTime | sdk/ulidx/ulidx.go:27-61 | an earlier millisecond sorts first whatever the entropy |
| Ulid.MintedApart | sdk/ulidx/ulidx.go:27-61 | identifiers are equal if and only if time and entropy are |
| Framing.FixedSelfDelimiting | contract/sign/sign.go:236-241 | an eight-byte length cannot be read as another length |
| Framing.UvarintSelfDelimiting | sdk/crypto/crypto.go:45-58 | a varint length cannot be read as another length |
| Framing.FramesInjective | contract/sign/sign.go:226-241 | equal framed bytes come from equal lists of parts, their number included |
| Framing.FramePreimage | sdk/crypto/crypto.go:45-58 | the loop frames the domain and then every part |
| Framing.PreimageUnique | sdk/crypto/crypto.go:40-58 | two inputs share a preimage if and only if domain and parts are equal |
| Preimages.TimeBytesInjective | contract/sign/sign.go:243-248 | the twelve timestamp bytes determine seconds and nanoseconds, negative ones included |
| Preimages.SigningInputDeterminesAll | contract/sign/sign.go:205-248 | equal signing inputs mean the same kind and equal covered fields, across commands, results and trust states |
| Preimages.KindByte | contract/sign/trust_state.go:16-18 | the domains of the three kinds differ in their fourteenth byte |
| Preimages.Buffer.Lp | contract/sign/sign.go:236-241 | one more framed part |
| Preimages.CommandPreimage | contract/sign/sign.go:212-234 | the framed covered fields; nothing for an unknown type, empty payload, missing timestamp or malformed target |
| Preimages.ResultPreimage | contract/sign/result.go:96-117 | the same for results |
| Preimages.TrustStatePreimage | contract/sign/trust_state.go:37-42 | framed exactly if the claim passes the strict validation |
| Preimages.FrameTrustState | contract/sign/trust_state.go:142-157 | the framed covered fields, every root in order |
| SlidingWindow.DropExpired | server/internal/auth/ratelimit.go:194-200 | drops exactly the expired times in front |
| SlidingWindow.CurrentRepresents | server/internal/auth/ratelimit.go:167-200 | dropping expired times keeps a bounded list as good as the complete record |
| SlidingWindow.FullExactly | server/internal/auth/ratelimit.go:131-141 | the bounded list is full if and only if the complete record is at the limit in the window |
| FailureLadder.DecidesByRecord | server/internal/auth/ratelimit.go:131-145 | a bucket is below its limit if and only if the complete record is, and non-empty if and only if the key is live |
| FailureLadder.RoomNeeded | server/internal/auth/ratelimit.go:124-129 | if the buckets as they are fit, the live keys do |
| FailureLadder.PrunedIsLive | server/internal/auth/ratelimit.go:183-192 | after a sweep the buckets are exactly those of the live keys |
| FailureLadder.Ladder.constructor | server/internal/auth/ratelimit.go:67-83 | a new ladder is empty and keeps the policies |
| FailureLadder.Ladder.Prune | server/internal/auth/ratelimit.go:183-192 | expired times of every key are gone, nothing else changes |
| FailureLadder.Ladder.NewBucketCount | server/internal/auth/ratelimit.go:157-165 | how many buckets the two keys would add |
| FailureLadder.Ladder.RecordFailure | server/internal/auth/ratelimit.go:132-144 | the bucket takes the time, at the cost of its oldest when full |
| FailureLadder.Ladder.Allow | server/internal/auth/ratelimit.go:91-146 | with a clock that does not run backwards every decision is that of the complete record, capacity included; at most 4096 buckets and the limit's number of entries whatever the clock does |
| LocalRateLimiter.Step | agent/internal/enroll/relay.go:271-287 | one call decides by the complete record of admissions and keeps the list exact |
| LocalRateLimiter.Limiter.Allow | agent/internal/enroll/relay.go:271-287 | the new list, the new record and the decision |
| LocalRateLimiter.NeverMoreThanFive | agent/internal/enroll/relay.go:271-287 | no sliding minute holds more than five admissions |
| Grants.GrantNormal | server/internal/authz/grants.go:117-184 | a normalised grant has known permissions and sorted, distinct, canonical scope ids, present exactly for group scopes |
| Grants.UnionIsUnion | server/internal/authz/grants.go:277-281 | sorting and compacting gives the sorted union without repetition |
| Grants.SummarizesStep | server/internal/authz/grants.go:206-231 | one permission of one grant adds exactly its contribution |
| Grants.ApplyGrant | server/internal/authz/grants.go:204-233 | the inner loop: active and stripped permissions, and the reaches with this grant's contributions |
| Grants.Resolve | server/internal/authz/grants.go:187-235 | fails exactly on an invalid grant; otherwise accesses in id order and the declarative union of all contributions |
| Grants.NormalizeAllExactly | server/internal/authz/grants.go:187-203 | a list is accepted exactly if each grant is, and gives exactly their normal forms |
| Grants.OrderIndependent | server/internal/authz/grants.go:186-235 | order and repetition of the grants handed in do not matter, for failure as for the result |
| Grants.MoreGrantsReachMore | server/internal/authz/grants.go:186-235 | more grants handed in never shrink a reach |
| Grants.GlobalOnlyThroughGlobal | server/internal/authz/grants.go:207-216 | a global-only permission is there if and only if a global grant gives it, and then everywhere |
| Grants.ReachFromGrant | server/internal/authz/grants.go:186-235 | global reach, a group or self is in a reach only through a grant handed in that gives it |
| Grants.PermissionFromGrant | server/internal/authz/grants.go:186-235 | a permission is resolved if and only if some grant gives it |
| Grants.ResolvedReachIsValid | server/internal/auth/authorization.go:309-345 | every resolved reach passes the gate's validation |
| AuthorizationGate.AuthorizeContext | server/internal/auth/authorization.go:139-201 | the gate over resolved grants: cached decision, token permissions and reach validation included |
| AuthorizationGate.AllowedExactlyToHolders | server/internal/auth/authorization.go:162-201 | a gated procedure is allowed to exactly the callers whose token and grants give its permission |
| AuthorizationGate.GateIdempotent | server/internal/auth/authorization.go:172-183 | asking again within a request changes nothing |
| AuthorizationGate.DecisionMeans | server/internal/auth/authorization.go:139-201 | the decision a handler sees is the caller's, for this permission, and is what their grants resolve to |
| CrudKernel.Authorize | server/internal/control/crud_kernel.go:375-407 | a scope comes out exactly if the gate allows the call with the domain's permission and the scope allows the object |
| CrudKernel.DoCreate | server/internal/control/crud_kernel.go:150-191 | appends exactly if all checks pass, after the domain's own validation |
| CrudKernel.DoUpdate | server/internal/control/crud_kernel.go:251-307 | appends exactly if all checks pass, at the expected version and after the scoped read |
| CrudKernel.DoDelete | server/internal/control/crud_kernel.go:309-349 | the same for delete, and exactly when it meets a missing get |
| CrudKernel.AppendsExactlyIfEntitled | server/internal/control/crud_kernel.go:409-490 | for a named object the checks amount to the entitlement table by relation |
| CrudKernel.AppendNeedsGrant | server/internal/control/crud_kernel.go:375-490 | every append of a named object goes back to a grant of the caller that gives the permission and covers the object itself, or to a read through the scope that succeeded before it, or to the accepted validation of a create |
| CrudKernel.ScopesInUseNarrow | server/internal/control/action_work_domains.go:522-528 | the scope functions in use, this one and those of identity_domains.go:56-61 and 398-403 and device_domain.go:39-44, give nothing beyond the reach |
| CrudKernel.GuardedExactlyIfNamed | server/internal/control/crud_kernel.go:403-405 | no accepted domain appends without entitlement, if and only if the id is not empty |
| CrudKernel.SiteDomainIsRegistered | server/internal/control/crud_kernel.go:492-587 | domains with one mutation that registration accepts, catalog and procedure policies included |
| CrudKernel.AcceptedDeleteCanPanic | server/internal/control/crud_kernel.go:524-526 | an accepted domain and a caller confined to a device group whose delete calls a missing get |
| PacmanConf.ScanIsLines | sdk/pkg/exec.go:219-224 | splitting the text without its final newline gives the lines of the text |
| PacmanConf.HasPacmanOptionsSection | sdk/pkg/pacman.go:591-600 | true exactly if some line is the section header |
| PacmanConf.GetIgnoredPackages | sdk/pkg/pacman.go:602-616 | the names of all directive lines in order |
| PacmanConf.UnheldIsEmpty | sdk/pkg/pacman.go:602-639 | a line the writer does not recognise holds nothing for the reader |
| PacmanConf.DirectiveReadsBack | sdk/pkg/pacman.go:602-634 | the written directive reads back as its names |
| PacmanConf.InsertIsLine | sdk/pkg/pacman.go:641-651 | the insertion by text offset is the insertion of a line behind the first one with the section name |
| PacmanConf.BuildIgnorePkgConf | sdk/pkg/pacman.go:620-653 | the line loop and the insertion compute the rewritten file |
| PacmanConf.ReadsBack | sdk/pkg/pacman.go:602-653 | reading the rewritten file gives exactly the names written |
| PacmanConf.OthersSurvive | sdk/pkg/pacman.go:620-653 | all other lines survive in order |
| PacmanConf.OptionsSurvive | sdk/pkg/pacman.go:579-600 | the rewritten file still has its section |
| PacmanConf.InsertedDirectiveSection | sdk/pkg/pacman.go:641-651 | an inserted directive is in the options section if and only if the first line that contains its name is its header |
| PacmanConf.ReplacedDirectiveSection | sdk/pkg/pacman.go:624-639 | a directive put in place of the first one is in the options section if and only if that one was |
| PacmanConf.CommentMisplacesDirective | sdk/pkg/pacman.go:641-651 | any comment that mentions the section in front of its header takes the directive out of the section |
| PacmanConf.MentionInComment | sdk/pkg/pacman.go:641-651 | such a comment |
| PacmanConf.Pin | sdk/pkg/pacman.go:470-497 | refused exactly for a bad name or a missing section; otherwise set union, with the old list in front |
| PacmanConf.Unpin | sdk/pkg/pacman.go:501-519 | refused exactly for a bad name or a missing section; otherwise set difference in order |
| Closures.ClosureIsReachable | contract/archtest/descwalk.go:122-170 | the least closed set is what chains of edges lead to |
| Closures.Walker.Visit | contract/archtest/descwalk.go:137-158 | depth-first search adds exactly the closure of the message and ends, cycles included |
| Closures.ReachableMessages | contract/archtest/descwalk.go:130-170 | the least set with the audited inputs and outputs, closed under audited field types |
| Closures.Enqueue | sdk/guardtest/arch.go:220-230 | exactly the new in-repository imports are marked, and each is queued once |
| Closures.ImportClosure | sdk/guardtest/arch.go:201-239 | the sorted packages reachable by one or more imports; an error if and only if a linked package is unreadable |

## Left out

- X.509, PEM and JSON encodings, hashing and signature verification: function values or not modelled; equality of hashes in the policy transaction is equality of contents.
- CrlSubscription.Subscription.Take: the removal from the map and the draining of the wake token are one atomic step.
- CrlDistributor.Distributor.Publish: starts with the answer of the durable source; the read itself is a step of the state machine. Wiring errors and the wording of rejections are not modelled.
- StartSession, token minting and timing floors of the refresh service; the revocation backoff is only its attempt bound.
- Redos.PathologicalReason: as a regular-expression judgement it is characterised on printed trees; literal braces, `\Q...\E` and malformed classes are outside the tree grammar.
- PolicyFile.ApplyPolicyFile: file modes, path checks and the reading of the file are not modelled.
- Preimages.CommandPreimage: signing, verification and the time windows of commands are not modelled; each registered domain is its family, type and version joined.
- FailureLadder.Ladder.Allow: locking, slice aliasing and the canonical text of an address are not modelled; UTF-8 validity of an account is a given.
- Grants.Resolve: role names and the permission catalog's own text are not modelled; every catalog is covered, and ties of equal grant ids keep their order.
- AuthorizationGate.AuthorizeContext: how a principal is authenticated and how the store joins direct and group grants are not modelled; the grants listed for a subject are given.
- CrudKernel.AppendNeedsGrant: a cached decision is taken to be one that the gate put there.
- CrudKernel.DoUpdate: message contents, result validation and list paging are not modelled.
- PacmanConf.Pin: where the directive ends up is stated by the section lemmas; the reads and writes of the file by external commands are not modelled.
- Closures.ReachableMessages: files and services are flattened to the list of methods.
- Connect handlers, domain tables, package managers other than the pacman.conf pair, client-address resolution and name grammars: they would only add easy members.
