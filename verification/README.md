# A verified model of the Kademlia node and its package registry

This project models a Kademlia DHT node written in Go (`src/kademlia`) and the signed, hash-linked
package registry on top of it, and proves what the two promise: that a lookup's local stopping rule
finds the nodes that are globally nearest, that a stored value is found again from every other node,
that a contact leaves a routing table only after silence, that package histories are append-only
under every interleaving, and what a fork proves about a package owner.

Check it with `dafny verify dfyconfig.toml` (Dafny 4.11).

## How the model is built

- Identifiers are 32 bytes compared as big-endian numbers (`Ids`). `Dist` is the XOR distance as a
  number. Its two views, bits and numbers, are connected by proof.
- "The k nearest" is a set defined by rank (`Nearest.Top`): the members with fewer than k nearer
  members. Sorting, table selection, reply lists, lookups, stores and handoff are all related to it.
- Objects that the source updates in place are classes: `Buckets.Bucket`, `Routing.RoutingTable`,
  `Handlers.ValueStore`, `Handoff.HandoffQueue`, `SimulatedNetwork.Network`,
  `PackageRegistry.Registry`. Their methods are proved against functions on plain values.
- What goroutines may interleave is a state machine over atomic steps, one per lock acquisition or
  channel operation: `Eviction`, `Rpc` and `RegistryProtocol`. Their steps use the same functions
  that specify the class methods, and the theorems are about whole runs.
- A lookup is one method with the candidate map and rounds of the source. Replies are an oracle, one
  per peer, since each peer is asked at most once; they may arrive in any order and be anything.
  `mayStop` says whether somebody cancels the call; without it no result may blame cancellation.
- SHA-256, the JSON codec, Ed25519, address parsing and the clock are parameters. Nothing is assumed
  of them except where a theorem says so: `Publication.Sound` (a signature verifies under the key of
  its signer, RFC 8032; the new record reads back from its encoding), `Publication.NoCollision` (two
  given key texts have two hashes), `Forks.Unforged` (verified pointers are the owner's) and
  `Chain.Agrees` (each hash names one content among everything that is ever stored, see
  `Chain.CollisionFreeContents`).

The modules, bottom up: `Ids`, `Nearest`, `Contacts`; `Buckets`, `Routing`, `Eviction`, `Refresh`;
`FindRpc`, `Lookup`, `ExactLookup`, `Handlers`, `StoreRetrieve`, `TableNetwork`; `Handoff`, `SimulatedNetwork`,
`Rpc`; `Records`, `Chain`, `Histories`, `PackageRegistry`, `Packages`, `RegistryProtocol`, `Forks`,
`Publication`.

## Main results

- `TableNetwork.LookupOverTables`, `ExactLookup.LookupMatchesOracle`: with well-filled buckets the
  lookup equals the exhaustive oracle of the experiments.
- `StoreRetrieve.StoreThenRetrieve`: after a completed store anywhere, every other node reads those bytes.
- `Lookup.Run`, `Lookup.ResultCovers`: fixpoint, single probing, nearest-first rounds and termination
  for arbitrary replies.
- `Eviction.EvictedOnlyAfterSilence`, `SendNeverBlocks`: stale timeouts remove nobody; a send made
  under a mutex always has room.
- `RegistryProtocol.AppendOnly`: every later head continues every earlier head, over all runs.
- `Forks.ForkAccountability`: of two histories, exactly one of "comparable", "the owner signed two
  records with one predecessor" and "one record is stored under two hashes" holds. The third case
  is real, `Forks.ForkWithoutEvidence` gives the input, but it convicts the owner too:
  `Forks.ForkConvicts` shows that the owner then signed a statement naming the second spelling.
  `Forks.ReplicasComparable` draws the conclusion for whole runs from what the owner signs.
- `Publication.PublishAndDeliver`: what a non-forced Publish sends out continues the history that
  Latest found and becomes the head of every replica that holds no head, or one in that history,
  and can find the records. The libraries' part is named in `Publication.Founded`; two key texts
  that may meet under one key are assumed not to collide (`Publication.NoCollision`).
- `Publication.PublishThenInstall`: from there on the replica installs exactly the data that was
  published, as long as no answer disputes the history and the blob can be found.
- `PackageRegistry.Registry.Latest`, `LatestSucceeds`: the returned head's history contains every
  observed head, each failure is explained by what was observed, and agreeing replicas suffice.
- `Chain.ChainIff`: which lists of records are the history of a head, in terms of fields only.
- `SimulatedNetwork.NoCrossDelivery`, `SendAndReceive`: over every run no packet reaches an endpoint it
  was not sent to, and one that is not lost gets through.
- `Rpc.TokenConditionExact`: replies answer their own requests through exactly the slots that serve
  one request value only.

## Model

| member | source | states |
|---|---|---|
| Ids.Less | src/kademlia/kademliaid.go:44-51 | the byte loop with early return decides the order of the two 256-bit big-endian numbers |
| Ids.Equals | src/kademlia/kademliaid.go:54-61 | the byte loop decides equality, of identifiers and of numbers |
| Ids.CalcDistance | src/kademlia/kademliaid.go:65-71 | the array filled byte by byte is the XOR and, read as a number, the distance |
| Ids.DistInjective | src/kademlia/kademliaid.go:65-71 | for a fixed target distinct identifiers have distinct distances |
| Ids.FirstDiffDecides | src/kademlia/kademliaid.go:44-71 | of two identifiers the nearer is the one that agrees with the target on the first bit where they differ |
| Ids.BucketRange | src/kademlia/routingtable.go:67-78 | bucket i holds exactly the distances d with 2^(255-i) <= d < 2^(256-i) |
| Ids.GetBucketIndex | src/kademlia/routingtable.go:67-78 | the nested bit scan returns that bucket, and 255 for self |
| Ids.BucketNearer | src/kademlia/routingtable.go:67-78 | if g is nearer to the target than x, so is everything in the bucket of x that g falls into |
| Nearest.NearestListUnique | src/kademlia/contact.go:44-74 | a strictly sorted list of the k nearest is unique |
| Nearest.PrefixIsNearest | src/kademlia/contact.go:50-57 | sorting everything and keeping a prefix gives the k nearest, defined independently by rank |
| Nearest.TopRestored | src/kademlia/store.go:35-42 | the k nearest of the others plus oneself contain exactly the k nearest of all |
| Contacts.Validated | src/kademlia/contact.go:90-103 | a contact is accepted exactly when its identifier is the hash of its canonical address, and then carries that address |
| Contacts.SortByDistance | src/kademlia/contact.go:55-74 | sorting permutes the contacts into ascending distance |
| Contacts.ClosestPrefix | src/kademlia/contact.go:44-57 | sort then prefix gives exactly the nearest `count` contacts in order |
| Buckets.Bucket.AddContact | src/kademlia/bucket.go:31-53 | the new list, version counter and stamps; a full bucket is left alone |
| Buckets.Bucket.Remove | src/kademlia/bucket.go:75-84 | the contact and its stamp go, the order of the others stays |
| Buckets.AddedKeepsInv | src/kademlia/bucket.go:31-53 | identifiers stay distinct and equal the stamped ones, stamps strictly decrease front to back, size stays within capacity, every contact stays in its own bucket |
| Buckets.RemovedKeepsInv | src/kademlia/bucket.go:75-84 | removal keeps the same invariant and leaves room |
| Buckets.AddedStamps | src/kademlia/bucket.go:31-53 | an accepted contact gets a stamp above every earlier one, no other stamp changes |
| Buckets.WithoutAt | src/kademlia/bucket.go:75-84 | dropping an identifier from a list of distinct contacts cuts out its one position |
| Buckets.AddedEnters | src/kademlia/bucket.go:31-53 | field by field: a known contact, or one for which there is room, stands in front with the next stamp and the others follow in their order; otherwise nothing changes |
| Buckets.RemovedDrops | src/kademlia/bucket.go:75-84 | field by field: a stamped contact is cut out of the list and the stamps, the others stay in their order; an unknown one changes nothing |
| Routing.RoutingTable.AddContact | src/kademlia/routingtable.go:30-39 | a known contact, or one for which its bucket has room, enters that bucket at the front; nothing else changes |
| Routing.RoutingTable.Observe | src/kademlia/routing_maintenance.go:18-39 | add or refresh at the front; when the bucket is full and no probe runs, probe the listed contact with the least stamp and set only that bucket's flag; self is ignored |
| Routing.RoutingTable.ProbeCurrent | src/kademlia/routing_maintenance.go:41-45 | true exactly while the probed contact still has the captured stamp |
| Routing.RoutingTable.FinishProbe | src/kademlia/routing_maintenance.go:47-65 | the flag is cleared; only a timeout does more: with the captured stamp the old contact goes and the replacement enters at the front, with another stamp neither, without the old contact the replacement enters if known or if there is room |
| Routing.RoutingTable.ContactVersion | src/kademlia/routing_maintenance.go:67-71 | the stamp of an identifier, 0 when unknown |
| Routing.RoutingTable.RemoveUnresponsive | src/kademlia/routing_maintenance.go:75-85 | a contact is removed exactly when its stamp is still the captured nonzero one |
| Routing.RoutingTable.MarkLookup | src/kademlia/routing_maintenance.go:87-91 | resets the lookup time of the target's bucket only |
| Routing.RoutingTable.StaleBuckets | src/kademlia/routing_maintenance.go:93-103 | exactly the buckets not looked up for a period, in ascending order |
| Routing.RoutingTable.FindClosestContacts | src/kademlia/routingtable.go:43-64 | the unique sorted list of the nearest known contacts; empty without a target or for a count that is not positive |
| Routing.LayoutIrrelevant | src/kademlia/routingtable.go:43-64 | tables that know the same contacts give the same selection, however these lie in buckets |
| Routing.KnownIsStamped | src/kademlia/routing_maintenance.go:18-71 | an identifier is selectable exactly when its own bucket holds a stamp for it |
| Routing.ObservedKeeps | src/kademlia/routing_maintenance.go:18-39 | observation keeps the table invariant and sets a probing flag exactly when it returns a probe |
| Routing.FinishedKeeps | src/kademlia/routing_maintenance.go:47-65 | finishing a probe keeps the invariant and clears exactly its bucket's flag |
| Routing.ObservedProbes | src/kademlia/routing_maintenance.go:18-39 | the specified observation, field by field: a probe is asked exactly of an unknown contact other than self, for a full bucket without a running probe, and its old contact is listed there with a stamp that every other listed one exceeds |
| Routing.FinishedEnds | src/kademlia/routing_maintenance.go:47-65 | the specified end of a probe, field by field, for each of its branches |
| Routing.UnresponsiveSilences | src/kademlia/routing_maintenance.go:75-85 | the specified removal, field by field |
| Eviction.NextInv | src/kademlia/maintenance.go:125-153 | every step keeps: one outstanding probe per bucket, and the flag says exactly whether |
| Eviction.OutstandingBounded | src/kademlia/maintenance.go:125-153 | probes held by observers, queued and with the worker total at most 256 |
| Eviction.SendNeverBlocks | src/kademlia/network.go:221-232 | whoever holds a probe finds room in the channel, although the send may happen under the network mutex |
| Eviction.OnlyOldEvicted | src/kademlia/routing_maintenance.go:47-65 | a finished probe never removes any contact but the one it was sent to |
| Eviction.EqualStampsMeanSilence | src/kademlia/bucket.go:31-53 | over any run, equal stamps at two moments mean no accepted communication in between |
| Eviction.EvictedOnlyAfterSilence | src/kademlia/network.go:137-184 | over any run, a contact leaves the table only by a timeout of a call or probe begun earlier, and nothing was heard from it since |
| Refresh.TargetInBucket | src/kademlia/routing_maintenance.go:107-122 | for every self, index and random bytes the target lies in that bucket and is not self |
| Refresh.TargetsCoverBucket | src/kademlia/routing_maintenance.go:107-122 | every identifier of a bucket is the target for some random bytes |
| Refresh.MaskedBit | src/kademlia/routing_maintenance.go:115-121 | the byte masks, with the wrap-around at bit 7, fix the prefix, set one bit and keep the random rest |
| Refresh.MaskInPlace | src/kademlia/routing_maintenance.go:115-120 | the loop and the two masks in the array of random bytes compute the masked distance |
| Refresh.RandomBucketTarget | src/kademlia/routing_maintenance.go:107-122 | the target made from the random bytes lies in the bucket; invalid indices and failing randomness are errors |
| Refresh.RefreshBucket | src/kademlia/maintenance.go:69-79 | successful and failed lookups both reset their bucket's time and no other; the replies' own effect on the table is not part of this |
| Refresh.JoinRefresh | src/kademlia/maintenance.go:36-49 | of the pass that follows the bootstrap: it refreshes exactly the buckets farther than the closest contact, down to the first failure |
| Refresh.RefreshStale | src/kademlia/maintenance.go:53-67 | of the pass inside the maintenance gate: it resets exactly the buckets that were stale, up to the first failure; an isolated node does nothing |
| FindRpc.FilterContacts | src/kademlia/find_node.go:41-54 | one invalid contact rejects the reply; self and duplicates are skipped |
| FindRpc.FirstSeenFacts | src/kademlia/find_node.go:41-54 | the kept contacts are distinct, valid, not self, and cover every reported identifier |
| FindRpc.SendFindContactMessage | src/kademlia/find_node.go:22-55 | a reply is taken exactly when it has a contact list of at most K contacts, all valid; it reports them filtered |
| FindRpc.SendFindDataMessage | src/kademlia/find_value.go:21-69 | a value is taken exactly when it comes without contacts, hashes to the key and fits the limit; contacts exactly when they come without a value, are at most K and all valid |
| Lookup.Shortlist | src/kademlia/lookup.go:94-105 | the K nearest candidates that have not failed |
| Lookup.TakeBatch | src/kademlia/lookup.go:107-116 | at most Alpha unqueried shortlist members become pending, the first ones of the shortlist, all of them if fewer |
| Lookup.BatchIsNearest | src/kademlia/lookup.go:98-116 | for a sorted shortlist they are the Alpha nearest of its unqueried members |
| Lookup.Drain | src/kademlia/lookup.go:134-164 | in every arrival order each member of the batch is asked once and ends responded or failed; a reported value ends the lookup |
| Lookup.RoundSettles | src/kademlia/lookup.go:107-164 | each round strictly decreases the number of identifiers that are not settled, even when replies add contacts |
| Lookup.Run | src/kademlia/lookup.go:59-169 | the lookup terminates; for every result no peer was probed twice, and each round probed exactly the Alpha nearest contacts not yet probed among the K closest live ones; it concludes only with the K closest live contacts all responded, with a value from the last round, or with nobody left; it blames cancellation only when there was one |
| Lookup.ResultCovers | src/kademlia/lookup.go:42-45 | for arbitrary replies: distinct responders, never self, nearest first, min(K, n) of them, and every reported contact is in the result, failed, or farther than all K |
| ExactLookup.ReplyNamesOrFills | src/kademlia/find_node.go:59-79 | a well-filled node names every nearer node, or names K contacts that are all nearer than itself |
| ExactLookup.StoppingRuleIsGlobal | src/kademlia/lookup.go:42-45 | if each of the K nearest discovered has been absorbed, these are the K nearest of the network |
| ExactLookup.LookupIsExact | src/kademlia/lookup.go:59-169 | with well-filled buckets, honest peers and a nonempty origin table, a lookup returns exactly the K nearest nodes other than the origin, in order |
| ExactLookup.NearestNodes | experiments/runner.go:214-225 | the exhaustive oracle: all nodes but the source, sorted, first k |
| ExactLookup.LookupMatchesOracle | experiments/runner.go:214-225 | the lookup's answer is the oracle's answer |
| Handlers.ValueStore.Put | src/kademlia/datastore.go:30-42 | oversized values are refused, then mismatching ones; anything else is stored under its hash |
| Handlers.ValueStore.Get | src/kademlia/datastore.go:46-51 | a stored value, empty or not, is told from a missing one and hashes to its key |
| Handlers.FindNodePayload | src/kademlia/find_node.go:59-79 | the K nearest known contacts without the requester, in order |
| Handlers.FindValuePayload | src/kademlia/find_value.go:73-99 | the stored value, otherwise such a list |
| Handlers.WireRoundTrip | src/kademlia/find_node.go:41-79 | a list of valid distinct contacts survives encoding and the receiver's filter unchanged |
| Handlers.ValueRoundTrip | src/kademlia/find_value.go:21-99 | what a holder answers is accepted as found by the caller, what another node answers as its contacts |
| StoreRetrieve.NearestWithSelf | src/kademlia/store.go:35-42 | the targets are the nearest among the lookup result and the writer itself |
| StoreRetrieve.Cluster.WriteTargets | src/kademlia/store.go:44-77 | no failure means that every target holds the value; nobody else is written to; without interruption the counts are those of the targets that acknowledge |
| StoreRetrieve.Cluster.Store | src/kademlia/store.go:18-83 | success means that all targets hold the value; after success or a partial write no other node has been written to, and without interruption the partial count is the number of targets that acknowledge; the error cases are told apart |
| StoreRetrieve.Cluster.LookupData | src/kademlia/lookup_data.go:23-49 | a stopped node or cancelled call looks nowhere; otherwise a checked local value first, then the conclusion of a value lookup |
| StoreRetrieve.TargetsAreNearest | src/kademlia/store.go:30-42 | in a healthy network the targets are the K nearest nodes of all, the writer included |
| StoreRetrieve.ReaderFinds | src/kademlia/lookup_data.go:38-49 | a reader without the value cannot miss it once the K nearest nodes hold it |
| StoreRetrieve.StoreThenRetrieve | src/kademlia/store.go:30-77 | after a completed store at one node, LookupData at any other returns those bytes; undisturbed stores complete |
| TableNetwork.Seeds | src/kademlia/lookup.go:85-88 | the lookup starts from the origin's whole table, which names only other nodes |
| TableNetwork.TablesAreHealthy | src/kademlia/find_node.go:59-79 | well-filled tables, the handlers over them and the local stores give the hypotheses of the lookup and store theorems |
| TableNetwork.LookupOverTables | src/kademlia/lookup.go:59-169 | over fixed well-filled tables and responsive peers an undisturbed lookup returns exactly the K nearest nodes other than the origin |
| Handoff.HandoffEligible | src/kademlia/handoff.go:120-144 | true exactly when no known node but the joiner is nearer to the key than self and the joiner is among the k nearest, despite repeated contacts |
| Handoff.ExactlyOneSender | src/kademlia/handoff.go:79-83 | over one shared view exactly one existing node sends when the joiner qualifies, and none otherwise |
| Handoff.HandoffQueue.Observe | src/kademlia/handoff.go:37-62 | a recent peer moves to the front of the recency list and nothing else changes; a full inbox leaves a new one unmarked; otherwise it is queued, pending and the newest entry, and only the oldest entry may fall out |
| Handoff.ObservedNotes | src/kademlia/handoff.go:37-62 | the specified observation, field by field |
| Handoff.HandoffQueue.Take | src/kademlia/handoff.go:64-71 | the worker takes the oldest peer, which stays pending |
| Handoff.HandoffQueue.Finish | src/kademlia/handoff.go:71-75 | only after the transfer is the peer forgotten |
| Handoff.ObservedKeepsInv | src/kademlia/handoff.go:37-62 | pending is exactly the queued peers and the one in transfer, none twice; `recent` and `order` stay in bijection within 4096 entries |
| SimulatedNetwork.Network.Listen | src/kademlia/simulated_network.go:60-79 | an address in use is refused, a free one gets a new open endpoint with nothing in it; no timer changes |
| SimulatedNetwork.Network.Send | src/kademlia/simulated_network.go:87-128 | refused, dropped, delivered or scheduled exactly by size, closing, loss, route and room: at latency 0 the packet is appended to the inbox of the endpoint registered there, otherwise exactly one new timer is armed with it; no other endpoint changes; the channel send has room |
| SimulatedNetwork.Network.Fire | src/kademlia/simulated_network.go:117-125 | a timer appends its packet to the inbox of the endpoint chosen at sending time, without blocking, unless that has closed; the timer is gone |
| SimulatedNetwork.Network.Receive | src/kademlia/simulated_network.go:130-132 | the oldest packet is taken, the others stay, and it was sent to this endpoint |
| SimulatedNetwork.Network.Close | src/kademlia/simulated_network.go:134-149 | the address is freed, the timers are cleared, callbacks already waiting may still run; closing again changes nothing |
| SimulatedNetwork.SendAndReceive | src/kademlia/simulated_network.go:87-132 | a datagram that is not lost is received as it was sent, at once or when its timer has fired |
| SimulatedNetwork.FiredRoom | src/kademlia/simulated_network.go:105-125 | a callback for an open endpoint finds room, because its timer has kept it |
| SimulatedNetwork.SentKeeps | src/kademlia/simulated_network.go:87-128 | sending keeps inbox plus timers within 256 for every endpoint, timers and registrations consistent, and every packet recorded where it goes |
| SimulatedNetwork.ShutKeeps | src/kademlia/simulated_network.go:134-149 | closing keeps the same, whichever callbacks are already waiting |
| SimulatedNetwork.NoCrossDelivery | src/kademlia/simulated_network.go:60-149 | over every run, each inbox holds only packets accepted for that very endpoint; a closed endpoint gets nothing more, so none of its packets reaches a replacement on its address |
| Rpc.RunGood | src/kademlia/network.go:122-310 | over every run, requests in flight were registered, replies of nodes answer requests they were sent, buffered replies come from the called address |
| Rpc.ReplyAnswersRequest | src/kademlia/network.go:119-241 | a reply was computed by the called node for a request of this caller, token and type, and for this very request when the slot (caller, token, address, type) served one request value only; at most RPCRetries + 1 transmissions |
| Rpc.ReusedToken | src/kademlia/network.go:196-206 | for any slot and any two different requests, a run in which the late reply to the first is taken for the reply to the second: tokens are fresh among pending calls only |
| Rpc.TokenConditionExact | src/kademlia/network.go:188-241 | over all runs, a slot that serves a set of requests never mistakes a reply if and only if the set has at most one member |
| Records.CheckName | src/kademlia/registry.go:59-69 | decides the name rule, written out: 1 to 253 lower-case letters, digits, dots, hyphens and underscores |
| Records.Verify | src/kademlia/registry.go:77-108 | the checks in their order with the error of the first that fails, written out on the fields: kind, names, version, the 32-byte owner key and its signature over the digest of the record without signature, size, empty and canonical hash fields |
| Records.DigestCoversRecord | src/kademlia/registry.go:70-76 | records with one signed digest differ at most in their signature, if their bare encodings read back and do not collide |
| Records.KeyNamesPackage | src/kademlia/registry.go:56-58 | the keys of two packages with valid names are equal exactly when they are one package, unless the hashes of their two texts collide |
| Chain.WalkShape | src/kademlia/registry.go:112-154 | links name each other down to the zero hash, stay in one package, verify, and decrease strictly |
| Chain.ChainShape | src/kademlia/registry.go:112-154 | a chain starts at the head's hash and version, has at most version steps, and repeats no hash |
| Chain.ChainIff | src/kademlia/registry.go:112-154 | a list is the history of a head exactly when it consists of findable, owner-signed records of that package, linked by hash from the head's record and version down to the zero hash with falling versions: nothing else makes a walk fail or succeed |
| Chain.ChainSigned | src/kademlia/registry.go:81-85 | the head and every record of a history carry the domain owner's signature over their digest |
| Chain.WalkSuffix | src/kademlia/registry.go:120-149 | the history of any record of a chain is the rest of that chain |
| Chain.ChainAgrees | src/kademlia/registry.go:110-111 | whoever walks, and whenever, a success is always the same history |
| Chain.CollisionFreeContents | src/kademlia/registry.go:128-145 | contents without a hash collision make every checked lookup agree |
| Chain.FollowChain | src/kademlia/registry.go:112-154 | succeeds exactly with the specified chain unless cancelled, so the cycle check rejects nothing else; afterwards the whole history can be walked in the local store alone (nobody else writes to the store meanwhile) |
| Histories.OnChainIffSuffix | src/kademlia/registry.go:242-256 | a verified head is found on a chain at its own version exactly when its history is a suffix of that chain |
| Histories.DecideIsSuffix | src/kademlia/registry.go:166-181 | the hash and version test under the lock accepts exactly when the current history is a suffix of the new one, and is a no-op exactly when they are equal |
| Histories.OneHashPerVersion | src/kademlia/registry.go:242-256 | two heads on one chain with one version have one hash |
| PackageRegistry.Registry.Commit | src/kademlia/registry.go:163-185 | the loop under the lock: without a current head it commits, an identical one is a success without change, a newer one is committed exactly when its history contains the current hash, anything else is refused |
| PackageRegistry.CommitGrew | src/kademlia/registry.go:156-186 | a commit keeps every history as a suffix and files the head under its own key |
| PackageRegistry.Registry.Accept | src/kademlia/registry.go:158-186 | of an accept that nothing interleaves with: it succeeds exactly when the head can be walked and continues the current one, unless cancelled; what it accepts is signed by the owner; errors change no head; histories only grow, stay locally served and consist of what the lookups found |
| PackageRegistry.Registry.HeadAt | src/kademlia/registry.go:187-196 | searching the snapshot for a key finds the head filed under it |
| PackageRegistry.Registry.HandleUpdate | src/kademlia/registry_rpc.go:88-131 | of an update that nothing interleaves with: an acknowledgment means the key is the head's own and the head is held; a rejection changes no head, carries the current one and has a cause |
| PackageRegistry.Registry.Send | src/kademlia/registry_rpc.go:42-60 | succeeds exactly for an acknowledgment of the same bytes, which changes nothing here; a newer head of the same package is caught up with unless cancelled or unacceptable, and no other |
| PackageRegistry.Newest | src/kademlia/registry.go:236-237 | any head of the greatest version, for every order the unstable sort may leave ties in |
| PackageRegistry.CheckObserved | src/kademlia/registry.go:242-256 | passes exactly when every head verifies and lies on the chain at its own version |
| PackageRegistry.Registry.Latest | src/kademlia/registry.go:200-261 | of a call that no other accept interleaves with: on success all observed heads lie on the returned history and it is accepted; every error says what was observed; agreeing replicas and no cancellation make it succeed |
| PackageRegistry.LatestSucceeds | src/kademlia/registry.go:198-261 | a head is seen, no answer names another package, each seen head verifies and lies on the history of every newest one, nothing is cancelled: then no error is left |
| PackageRegistry.ReconciledAgree | src/kademlia/registry.go:198-199 | heads that conflict in ancestry, or share a version with different hashes, cannot both have been observed by a successful Latest |
| Packages.Distribute | src/kademlia/registry_rpc.go:61-87 | targets are the K nearest of the result and self; it succeeds exactly when each peer acknowledged the same bytes and this node, if a target, could adopt the head, unless cancelled; then each target has it |
| Packages.Publish | src/kademlia/registry.go:268-319 | what is signed and sent, field by field: the hash of the data, the selected predecessor, the signatures; from which observation of the named package; without force only an advance of the reconciled head by the owner's key; each error has its cause, and agreeing replicas give a base |
| Packages.NewRecordsFields | src/kademlia/registry.go:71-76 | record and pointer as built carry exactly the given fields, the hash of the data and of the record, and signatures over their digests without signature |
| Packages.SelectPrevious | src/kademlia/registry.go:276-299 | the predecessor that the options select; it fails only for a wanted number that no record of the base has, without a base, or when stopped |
| Packages.FindVersion | src/kademlia/registry.go:333-338 | the newest record, or the first with the number, which is the only one on a decreasing chain |
| Packages.History | src/kademlia/registry.go:320-327 | the chain of a reconciled head; it fails exactly as Latest does, or by a cancellation after it; agreeing replicas make it succeed |
| Packages.Install | src/kademlia/registry.go:328-339 | the bytes returned are the blob of the wanted version, of which there is one, and hash to it; each failure has its cause: no history as History says, no such version, no blob, or stopped |
| RegistryProtocol.LockedGrew | src/kademlia/registry.go:163-185 | a commit continues the head it finds, however old the walk that led to it |
| RegistryProtocol.StepGrew | src/kademlia/registry_rpc.go:42-131 | every step of every node keeps the invariant and continues all heads |
| RegistryProtocol.AppendOnly | src/kademlia/registry.go:156-186 | over every interleaving of accepts, updates, duplicates, catch-ups and handoffs, an earlier head's history is a suffix of every later one for that key |
| RegistryProtocol.HeadsWereSent | src/kademlia/registry_rpc.go:42-131 | over every run, each head a replica holds was carried by a message |
| Forks.ForkAccountability | src/kademlia/registry.go:112-186 | of two histories exactly one holds: comparable, two distinct owner-signed records with one predecessor, one record under two hashes |
| Forks.EveryLinkNamed | src/kademlia/registry.go:112-154 | the hash of every link of a history is named by something the owner signed: the head or the record in front of it |
| Forks.ForkConvicts | src/kademlia/registry.go:112-186 | every fork leaves owner-signed evidence: two distinct records with one predecessor, or a statement naming a spelling other than the record's own encoding |
| Forks.OnePartingPoint | src/kademlia/registry.go:120-149 | two histories part at one point only |
| Forks.SamePreviousSameRest | src/kademlia/registry.go:120-149 | records with one predecessor have one history behind them |
| Forks.ForkWithoutEvidence | src/kademlia/registry.go:132-145 | the concrete fork that leaves no two records with one predecessor |
| Forks.NeverApart | src/kademlia/registry.go:156-157 | an owner who signs one record per predecessor and names records by their own encoding never has incomparable histories, whatever others store |
| Forks.ReplicasComparable | src/kademlia/registry.go:156-186 | for such an owner any two heads held anywhere, at any times of a run, are comparable, whatever others store or send |
| Publication.RecordsVerify | src/kademlia/registry.go:77-107 | the new record and pointer pass verification |
| Publication.PublishedHistory | src/kademlia/registry.go:300-319 | under the hypotheses that PublishMakes derives from Publish, the published history is the new record in front of the history of the head Latest returned |
| Publication.PublicationAcceptable | src/kademlia/registry.go:158-186 | under the same hypotheses a replica refuses exactly when its head is not in the published history; without a head or with one in the base's history it commits |
| Publication.Deliver | src/kademlia/registry.go:158-186 | under the same hypotheses accepting the publication at such a replica makes it the head there |
| Records.KeyTextInjective | src/kademlia/registry.go:56-69 | names contain no separator, so the text behind a key says which domain and package it is |
| Publication.BaseNamesPackage | src/kademlia/registry.go:204-237 | the head Latest returned names the package it was asked for, unless the local head was filed by a hash collision |
| Publication.PublishMakes | src/kademlia/registry.go:268-319 | what a non-forced Publish returns meets the hypotheses of the publication theorems |
| Publication.PublishNamesOwnSpelling | src/kademlia/registry.go:312-317 | what Publish signs names records by the hash of their own encoding if the head it continues does |
| Publication.PublishAndDeliver | src/kademlia/registry.go:158-319 | from the call of Publish to a replica: the head sent out continues the history of the head Latest returned, and a replica that holds no head, or one in that history, and finds the records then holds it unless cancelled |
| Publication.LegibleAgrees | src/kademlia/registry.go:200-261 | when every head that a reader sees belongs to the published history, and the published head is among them, its replicas agree as LatestSucceeds asks |
| Publication.ReadHistory | src/kademlia/registry.go:320-327 | whichever head such a reader's Latest returned, its history is the published one |
| Publication.InstallPublished | src/kademlia/registry.go:328-339 | such a reader that can find the blob installs, as latest or by number, bytes with the hash of the published data, hence the data when the hash names one content |
| Publication.PublishThenInstall | src/kademlia/registry.go:158-339 | the whole way: published without force, accepted by a ready replica, installed there, giving the data that was published |

## Left out

- Buckets.Bucket.AddContact: stamps are unbounded numbers; the 64-bit counter's wrap-around is not modelled.
- Routing.RoutingTable.FindClosestContacts: lock waiting and defensive copies of contacts are not modelled, since values cannot be aliased here.
- ExactLookup.LookupIsExact: tables may differ from reply to reply but each must be well-filled at its reply; the origin's own starting contacts are those at the beginning.
- StoreRetrieve.StoreThenRetrieve: store_rpc.go is reduced to "an acknowledgment means the receiver's put succeeded"; replication.go is not modelled.
- Chain.FollowChain: other goroutines may add values to the local store during a walk; the model's store only gains what the walk puts there.
- PackageRegistry.Registry.Accept: commits of other goroutines between its walk and its lock are covered by RegistryProtocol, not by this method, which runs alone.
- PackageRegistry.Registry.HandleUpdate: commits of other goroutines between its accept and its snapshot are likewise left to RegistryProtocol.
- PackageRegistry.Registry.Latest: concurrent accepts between its snapshot and its own accept are covered by RegistryProtocol, not by this method, which runs alone; there a refusal by the ancestry check is possible too.
- Publication.PublishThenInstall: what other nodes answer to the installing replica is a hypothesis; readers other than that replica are covered by InstallPublished. A forced Publish is outside these theorems.
- Publication.Deliver: the pointer's size is a hypothesis because Publish checks only the record's size before sending the pointer.
- Handoff.HandoffEligible: the transfer loop around it, which sends each eligible value and head, is not modelled.
- Rpc.ReplyAnswersRequest: timers and cancellation are the free choice of steps; unpredictability of tokens against guessing is not a property of the model.
- Refresh.RefreshBucket: what the replies of its lookup do to the table is not part of it; they act through the steps of Eviction.
- Refresh.RefreshStale: the same holds for its lookups; waiting at the maintenance gate is not modelled.
- Packages.Publish: the two Store calls are reduced to whether each value was stored; that they also write to this node's own store is not modelled.
- Refresh.JoinRefresh: the bootstrap ping, the lookups themselves and changes of the table by their replies are not part of this pass; the gate that serializes maintenance is the sequential execution of the methods.
- Nil arguments, unknown request types, UDP sockets, DNS, command line, logging, plots and statistics.
- Describe and ParsePackage, which only format and split text.
- The internals of JSON, hexadecimal text, SHA-256 and Ed25519; hash text is modelled by the identifier it denotes or its defect.
- Availability and agreement across partitions, which the source itself disclaims.
