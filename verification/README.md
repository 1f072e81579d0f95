# Verification of rustyrouter's services

A Dafny model of the services that hold protocol state in rustyrouter, a router that runs as
PID 1, with proofs of what they keep over every run.

| file | part of the router |
|---|---|
| `LeaseTable.dfy`, `DhcpServer.dfy`, `Ipv4Net.dfy` | the LAN DHCP server: lease table with its address index, four message handlers, subnet arithmetic |
| `DnsPending.dfy` | the DNS forwarder's pending-query protocol, as interleaved atomic steps of query tasks, receiver and timeouts |
| `DnsCache.dfy` | the DNS response cache, against an append-only log |
| `DnsForwarder.dfy`, `DnsAnswers.dfy` | the two together: where every reply to a client comes from, and when it answers the question asked |
| `LeaseRenewal.dfy`, `UnansweredRenewal.dfy` | the WAN client's renewal loop: T1, T2, retry intervals, rounds, and how it ends when nobody answers |
| `BoundPhase.dfy` | the WAN client's bound phase around that loop: sleeping, renewing, binding again, withdrawing |
| `DhcpClient.dfy`, `SubnetMask.dfy` | the WAN client's published lease and the interface it configures; masks and prefix lengths |
| `Router.dfy` | the WAN client and the DNS forwarder together: which upstream each query goes to |
| `RawFrame.dfy` | the Ethernet/IPv4/UDP frame builder, its checksum, and the parser |
| `Wildcard.dfy`, `ModuleLoader.dfy` | the modprobe glob matcher and the dependency-ordered module loader |
| `Common.dfy` | value types, a monotone clock, finite-set facts |

How the environment enters the model:

- Time is a parameter. `Clock.Now` returns any reading not below the last one; a scan that reads the
  clock for every entry is specified by the readings before and after it. Runs are sequences of events
  or steps that carry the readings, scan results, random transaction IDs, netlink outcomes and load
  outcomes the code does not decide, and a legality predicate says which of them the code allows.
- Objects the source updates in place are classes (`LeaseTable`, `Server`, `ResponseCache`,
  `PendingQueries`, `Client`, `Loader`) and loops are methods. Each is proved equal to a function on
  values, and the theorems are about runs of those functions.
- The DNS and DHCP packet parsers are external code. The DNS parser is an arbitrary pair of functions;
  DHCP messages are records.

Where the code does less than its documentation says, the model follows the code:

- The index of allocated addresses is not "if and only if there is a live entry"
  (src/services/dhcp_server.rs:37-39). `IndexLosesLiveAddress` is a legal run that removes a live
  address from it; `InsertKeepsSync` and `RemoveKeepsSync` say exactly when it stays exact;
  `IndexIsUnobservable` shows that the rebuild before the only read makes the difference unobservable.
- A known client is re-offered its address whether or not its lease is live
  (src/services/dhcp_server.rs:426-428). `OfferIsExclusiveUnlessRetaken` says exactly when that offer
  conflicts, and `LapsedClientIsOfferedTakenAddress` gives a case.
- A cleanup in the DNS forwarder removes by transaction ID alone and can remove another task's entry
  (`CleanupCanTakeAnothersEntry`); `NoTaskIsStranded` shows that the other task is woken all the same.
- Elapsed seconds are cut to 32 bits (src/services/dhcp_client.rs:248). With exact timers and no answer, a
  lease is withdrawn within a minute of its end exactly if it is below 2^32 - 56 seconds
  (`WithdrawnInTimeIffBelowWrap`); for the others, the infinite lease included, the reading wraps, the rounds
  begin again and the loop never ends. The same bound decides whether the rounds are bounded
  (`RoundsBoundedIffBelowWrap`) and whether at most one is silent (`OneSilentRoundIffBelowWrap`).
- The forwarder checks a datagram's sender and ID, not its question. `MisansweredIffRival` says exactly when a
  task can be given another question's answer, and `LateAnswerIsServed` is a run in which that answer is
  served and cached. `EveryReplyAnswersUnlessRival` and `RivalAnswerIsServed` say the same of replies.
- A failed configuration of the WAN interface leaves the lease published, and the same ACK later skips
  configuring (`FailedConfigurationIsNeverRetried`). `AgreementIffCallsSucceed` says exactly when a turn
  keeps published lease and interface in agreement, and `PublishedIffConfigures` when the published lease
  stays the one the client is bound under, which is the one DNS queries follow (`QueriesFollowLease`, and
  `MisdirectedQueryRun` for the failing case).

## Model

| member | source | states |
|---|---|---|
| `Ipv4Nets.Network` | src/services/dhcp_server.rs:191-195 | the network address is an aligned block start around the interface address, and the whole block stays within 32 bits |
| `Ipv4Nets.Addresses` | src/services/dhcp_server.rs:549 | the addresses the subnet contains, 2^(32-prefix) of them |
| `Ipv4Nets.HostsOfSubnet` | src/services/dhcp_server.rs:106 | an address is in the subnet when it shares the prefix bits; below a prefix length of 31 the hosts are the subnet's addresses without the first and the last, otherwise all of them |
| `LeaseTables.FirstFreeIsLeast` | src/services/dhcp_server.rs:106-107 | the pool scan finds the least address that is neither the server nor held, and finds none only when every address in range is one or the other |
| `LeaseTables.RemoveKeepsSync` | src/services/dhcp_server.rs:71-75 | after a removal an exact index is exact if and only if no other client's entry had the same address |
| `LeaseTables.InsertKeepsSync` | src/services/dhcp_server.rs:60-67 | after an insertion an exact index is exact if and only if the client kept its address or nobody else's entry has the one it gave up |
| `LeaseTables.LeaseTable.constructor` | src/services/dhcp_server.rs:47-52 | a new table is empty |
| `LeaseTables.LeaseTable.Get` | src/services/dhcp_server.rs:55-57 | the client's entry, expired or not |
| `LeaseTables.LeaseTable.Insert` | src/services/dhcp_server.rs:60-67 | the client's entry is replaced; the index loses exactly the client's old address and gains the new one |
| `LeaseTables.LeaseTable.Remove` | src/services/dhcp_server.rs:71-75 | the client's entry goes, and its address from the index, and it is returned |
| `LeaseTables.LeaseTable.IsIpTakenByOther` | src/services/dhcp_server.rs:83-87 | true only for another client's entry live after the scan began; false only when all such entries have expired by its end |
| `LeaseTables.LeaseTable.EvictExpired` | src/services/dhcp_server.rs:93-96 | survivors are unchanged and were live when the scan began, the others have expired by its end, and the index is exact again |
| `LeaseTables.LeaseTable.NextAvailableIp` | src/services/dhcp_server.rs:100-108 | eviction, then the first free host by an exact index |
| `DhcpServer.OneLiveHolderAlways` | src/services/dhcp_server.rs:60-108 | after every run from the empty table, now and later, no two clients hold unexpired leases on one address; every entry is in the subnet and not the server; every indexed address has an entry |
| `DhcpServer.RequestVerdict` | src/services/dhcp_server.rs:471-537 | from any state, a REQUEST is about the address it names, else the client's own, and with neither there is no reply; an ACK gives just that address for 3600 s, in the subnet, not the server's and with no other live holder; a NAK is for an address unfit or live with another, and changes nothing |
| `DhcpServer.RequestIsGranted` | src/services/dhcp_server.rs:498-513 | a fit address free as the scan begins is always acknowledged, an unfit one or one taken past the scan always refused |
| `DhcpServer.ReleaseVerdict` | src/services/dhcp_server.rs:315-331 | DECLINE and RELEASE take the sender's entry away, and no other, without a reply |
| `DhcpServer.EncodedRepliesAreSent` | src/services/dhcp_server.rs:444-451 | a reply is sent exactly if it encodes |
| `DhcpServer.OfferIsExclusiveUnlessRetaken` | src/services/dhcp_server.rs:427-442 | the offered address is recorded for the client, and is the client's own while its lease is live; another live client has it if and only if the client's lease has lapsed and its old address is another's |
| `DhcpServer.LapsedClientIsOfferedTakenAddress` | src/services/dhcp_server.rs:427-428 | a run after which a lapsed client is offered an address another client holds |
| `DhcpServer.LiveLeaseIsStable` | src/services/dhcp_server.rs:71-96 | until it expires, no interleaving of other clients' messages, nor the client's own DISCOVERs, changes a lease |
| `DhcpServer.LiveLeaseIsHonoured` | src/services/dhcp_server.rs:485-513 | a REQUEST for the live lease, named or implied, is acknowledged |
| `DhcpServer.HeldAddressIsRenewable` | src/services/dhcp_server.rs:485-553 | both over whole histories: a lease held after any run, and left alone by its holder, is acknowledged on request before it expires |
| `DhcpServer.IndexIsUnobservable` | src/services/dhcp_server.rs:93-108 | the indexed table and one that scans the map have the same legal runs, replies and maps, whatever the index holds |
| `DhcpServer.SyncKeptWhileUnshared` | src/services/dhcp_server.rs:60-75 | while no two entries share an address every handler keeps an exact index exact |
| `DhcpServer.IndexLosesLiveAddress` | src/services/dhcp_server.rs:37-39 | a legal run in which an expired and a live entry share an address and the index then loses it; a scan of that index would hand it out again |
| `DhcpServer.KnownClientIsReoffered` | src/services/dhcp_server.rs:426-428 | a client with an entry, expired or not, is offered its address, and nothing changes |
| `DhcpServer.DiscoverOffersLeastFree` | src/services/dhcp_server.rs:430-441 | an unknown client is offered the least host that is neither the server nor held after eviction, for 3600 s, and gets no answer only if there is none |
| `DhcpServer.RoomMeansOffer` | src/services/dhcp_server.rs:100-108 | with fewer surviving entries than hosts besides the server, an offer is made |
| `DhcpServer.LiveLeasesFitSubnet` | src/services/dhcp_server.rs:549 | in every run the clients with live leases number fewer than the subnet's addresses |
| `DhcpServer.Server.constructor` | src/services/dhcp_server.rs:203-223 | the server starts with an empty table and its interface address |
| `DhcpServer.Server.HandleDiscover` | src/services/dhcp_server.rs:414-469 | table, clock and reply are those of a legal DISCOVER event |
| `DhcpServer.Server.ValidateRequestedIp` | src/services/dhcp_server.rs:543-553 | passes just the in-subnet, non-server addresses the conflict scan does not find taken |
| `DhcpServer.Server.HandleRequest` | src/services/dhcp_server.rs:471-537 | table, clock and reply are those of a legal REQUEST event |
| `DhcpServer.Server.HandleDecline` | src/services/dhcp_server.rs:315-322 | table is that of a DECLINE event |
| `DhcpServer.Server.HandleRelease` | src/services/dhcp_server.rs:324-331 | table is that of a RELEASE event |
| `DnsPending.PatchXid` | src/services/dns_forwarder.rs:295-298 | the ID is replaced and every other byte kept |
| `DnsPending.StepsAreEnabled` | src/services/dns_forwarder.rs:276-318 | exactly when each step can be taken |
| `DnsPending.RegisterEffect` | src/services/dns_forwarder.rs:269-293 | a query of at least 12 bytes is entered under the last ID drawn whenever fewer than 4096 are pending, and any other returns nothing; nothing else changes |
| `DnsPending.SendEffect` | src/services/dns_forwarder.rs:295-308 | the query goes to its upstream as the client sent it but for the ID, or its task cleans up |
| `DnsPending.WaitingEffect` | src/services/dns_forwarder.rs:310-327 | a response returns under the client's ID; a timeout and a closed channel lead to the cleanup |
| `DnsPending.DatagramEffect` | src/services/dns_forwarder.rs:87-109 | a short datagram or one under an unknown ID is ignored; any other takes the entry under its ID away, and is delivered exactly if it comes from the entry's upstream to a task still listening |
| `DnsPending.StepKeepsInv` | src/services/dns_forwarder.rs:78-111 | every step of every task, the receiver and the timeouts keeps the invariant: cap, ownership of entries, sending ends in one place, deliveries, results |
| `DnsPending.EntriesAreOwned` | src/services/dns_forwarder.rs:278-293 | in every interleaving at most 4096 entries, each owned by one unreturned task under the ID it registered and with its upstream, no two by the same task |
| `DnsPending.DeliveriesAreGenuine` | src/services/dns_forwarder.rs:92-109 | in every interleaving a task is delivered at most one response, with its own ID and from its own upstream |
| `DnsPending.NoTaskIsStranded` | src/services/dns_forwarder.rs:94-109 | in every interleaving a waiting task without an entry has a filled or closed channel, or the receiver is about to use it |
| `DnsPending.EveryTaskCanReturn` | src/services/dns_forwarder.rs:310-318 | from any state a task returns by at most three steps of its own |
| `DnsPending.CleanupEffect` | src/services/dns_forwarder.rs:311-318 | exactly what a cleanup changes: its own task returns, the entry under its ID goes, and that entry's owner, whoever it is, has its channel closed |
| `DnsPending.CleanupCanTakeAnothersEntry` | src/services/dns_forwarder.rs:315 | a run in which a cleanup removes another task's entry after its ID was drawn again |
| `DnsPending.ResultsAreDelivered` | src/services/dns_forwarder.rs:320-327 | a returned response is the one delivered to its own query, under the client's own ID |
| `DnsPending.ManyFreeXids` | src/services/dns_forwarder.rs:280-283 | below the cap at least 61441 IDs are free |
| `DnsPending.DistinctDrawsReachFree` | src/services/dns_forwarder.rs:283-285 | below the cap 4096 pairwise distinct draws include a free ID |
| `DnsPending.PendingQueries.Register` | src/services/dns_forwarder.rs:269-293 | refused exactly for a short query or at the cap of 4096; otherwise the first free ID drawn is entered, leaving the map the protocol's step leaves, and while every draw is taken it goes on drawing |
| `DnsPending.PendingQueries.Remove` | src/services/dns_forwarder.rs:94-97 | removal by ID alone |
| `DnsCache.KeyDeterminesQuestion` | src/services/dns_forwarder.rs:196-204 | equal keys mean equal name, type and class, though names may hold colons |
| `DnsCache.MinTtl` | src/services/dns_forwarder.rs:230-235 | the least of the answers' TTLs |
| `DnsCache.CachedForLeastTtl` | src/services/dns_forwarder.rs:223-240 | which responses are cached, and for how long: the least answer TTL up to 3600 s, or 30 s without answers |
| `DnsCache.OnlyInsertionsAreLogged` | src/services/dns_forwarder.rs:218-244 | the log grows by exactly the cacheable responses inserted |
| `DnsCache.ApplyKeepsRefines` | src/services/dns_forwarder.rs:206-244 | lookups, inserts and prunes keep the cache a refinement of the log |
| `DnsCache.LookupIsVisible` | src/services/dns_forwarder.rs:206-216 | a lookup returns exactly the key's latest insertion if unexpired, else nothing |
| `DnsCache.LookupServesLatest` | src/services/dns_forwarder.rs:206-216 | the last insertion for a key is served until its expiry and not after |
| `DnsCache.LookupServesOnlyInserted` | src/services/dns_forwarder.rs:206-216 | and nothing else is ever served |
| `DnsCache.CacheRefinesLog` | src/services/dns_forwarder.rs:206-244 | in every run all lookups answer as the append-only log does |
| `DnsCache.PruningIsUnobservable` | src/services/dns_forwarder.rs:115-121 | leaving the prunes out of a run changes no lookup's answer |
| `DnsCache.HitsAreFresh` | src/services/dns_forwarder.rs:209 | a hit is served before insertion plus 3600 s and plus every answer's TTL, or plus 30 s when there are no answers |
| `DnsCache.ServedIffFresh` | src/services/dns_forwarder.rs:206-240 | a key's last insertion is served if and only if it is younger than 3600 s and than every answer's TTL, or than 30 s when there are no answers |
| `DnsCache.ResponseCache.LookupCache` | src/services/dns_forwarder.rs:206-216 | answer and remaining entries, an expired entry being deleted |
| `DnsCache.ResponseCache.InsertCache` | src/services/dns_forwarder.rs:218-244 | which responses are stored, and until when |
| `DnsCache.ResponseCache.PruneExpired` | src/services/dns_forwarder.rs:118-120 | exactly the unexpired entries remain |
| `DnsForwarder.HitIsSourced` | src/services/dns_forwarder.rs:179-184 | a hit is answered under the query's ID with the bytes of a datagram delivered for the same key |
| `DnsForwarder.StepsAreEnabled` | src/services/dns_forwarder.rs:161-194 | exactly when each step of a query, and a prune, can be taken |
| `DnsForwarder.HitEffect` | src/services/dns_forwarder.rs:179-184 | a query whose key's last insertion is unexpired is about to be answered with it, under its own ID |
| `DnsForwarder.MissEffect` | src/services/dns_forwarder.rs:186-188 | any other goes on to be forwarded |
| `DnsForwarder.CachedQueryIsAnswered` | src/services/dns_forwarder.rs:179-184 | a cached answer is sent by the lookup and the sending alone, nothing being forwarded |
| `DnsForwarder.PruneEffect` | src/services/dns_forwarder.rs:115-121 | a prune drops exactly what has expired |
| `DnsForwarder.QueryEffects` | src/services/dns_forwarder.rs:161-194 | what arriving, registering, storing, giving up and sending do to a query, the cache and the replies |
| `DnsForwarder.ResultIsSourced` | src/services/dns_forwarder.rs:188-193 | so is a forwarded query |
| `DnsForwarder.StepKeepsInv` | src/services/dns_forwarder.rs:161-194 | every step of every query keeps provenance of log, cache and replies |
| `DnsForwarder.EveryReplyHasProvenance` | src/services/dns_forwarder.rs:161-328 | in every interleaving every reply carries its query's ID, and the rest is a datagram from the upstream, and with the ID, of a task that asked the same question; no query is answered twice, and no response is too short to patch |
| `DnsForwarder.EveryHitIsFresh` | src/services/dns_forwarder.rs:179-184 | in every interleaving a hit serves an insertion of the asked key within its time |
| `DnsAnswers.MisansweredIffRival` | src/services/dns_forwarder.rs:92-103 | with honest upstreams a waiting task can be given an answer to another question exactly when another question has gone to its upstream under its ID |
| `DnsAnswers.HonestSteps` | src/services/dns_forwarder.rs:78-109 | honesty binds upstreams only: any other host may send anything, and an upstream every answer to what it was asked |
| `DnsAnswers.IgnoringIdIsReadingPastIt` | src/services/dns_forwarder.rs:196-204 | the parsers that ignore the ID are exactly those that read past it |
| `DnsAnswers.EveryReplyAnswersUnlessRival` | src/services/dns_forwarder.rs:161-328 | with honest upstreams every reply to every client, cached or not, answers the question asked, unless another question had gone to the same upstream under the ID of the task whose answer it is |
| `DnsAnswers.RivalAnswerIsServed` | src/services/dns_forwarder.rs:92-193 | and then, from any state with such a task waiting and the receiver idle, an honest run serves its client the other question's answer next |
| `DnsAnswers.EveryReplyAnswersItsQuestion` | src/services/dns_forwarder.rs:161-328 | when no two questions were sent to one upstream under one ID, every reply answers its question |
| `DnsAnswers.LateAnswerIsServed` | src/services/dns_forwarder.rs:283-316 | for any two questions, a run with an honest upstream whose late answer to the first is served to the client of the second, and cached for it |
| `Router.PublishedIffConfigures` | src/services/dhcp_client.rs:373-401 | a turn of the client leaves the lease published that it is bound under, or none, exactly when its configuration succeeds |
| `Router.ChoosingEffect` | src/services/dns_forwarder.rs:186 | a query that missed the cache chooses once, from the lease published just then |
| `Router.FallbackIsRead` | src/services/dns_forwarder.rs:246-253 | the first DNS server of the published lease, or 8.8.8.8 |
| `Router.QueriesFollowLease` | src/services/dns_forwarder.rs:246-253 | in every interleaving of client and forwarder, whatever netlink does, each task chooses once, its query goes to the first DNS server of the lease the client was bound under then, or to the fallback, if and only if no lease with another server was published while the client was not bound, and every reply is of a datagram from where the query went |
| `Router.ConfiguredQueriesGoAsPrescribed` | src/services/dns_forwarder.rs:246-253 | when all configurations succeed, all queries and replies are as prescribed |
| `Router.FailedConfigurationMisdirects` | src/services/dhcp_client.rs:373-421 | from a published lease that is the client's own, a turn leaves the prescribed upstream to be read exactly unless it fails to configure a lease with a DNS server other than the fallback |
| `Router.MisdirectedQueryRun` | src/services/dhcp_client.rs:380-399 | for any ACK whose first configuration fails and any query, a run in which the query goes to that ACK's DNS server, which is wrong exactly when there is one other than the fallback |
| `LeaseRenewal.T2IsTruncatedProduct` | src/services/dhcp_client.rs:215 | the truncated product with 0.875 is seven eighths rounded down |
| `LeaseRenewal.RenewLease` | src/services/dhcp_client.rs:236-288 | outcome and rounds of the loop in any environment are those of `RunRounds` |
| `LeaseRenewal.RenewalOutcome` | src/services/dhcp_client.rs:247-287 | it renews, is refused or fails if and only if the first round that hears anything while the lease runs hears an ACK, a NAK or an error, and then; it reports expiry if and only if the lease is over before; otherwise it goes on |
| `LeaseRenewal.LogIsOfRounds` | src/services/dhcp_client.rs:247-271 | its log is of the rounds it listened in, and a client asks in its first round |
| `LeaseRenewal.RoundsAreLegal` | src/services/dhcp_client.rs:247-273 | the environment may delay, answer or fail as it likes, but for listening at least the retry interval in vain |
| `LeaseRenewal.IntervalsShrink` | src/services/dhcp_client.rs:571-588 | within a phase retry intervals never grow |
| `LeaseRenewal.AtMostOneSilentRound` | src/services/dhcp_client.rs:247-287 | however late timers fire, at most one round listens without having just asked, before the seconds wrap |
| `LeaseRenewal.RoundsAreLogarithmic` | src/services/dhcp_client.rs:247-287 | however late timers fire and whatever answers come, a renewal from T1 on of a lease of at most 60 * 2^k seconds listens at most 2k + 2 times, before the seconds wrap |
| `LeaseRenewal.RoundsAtMost51` | src/services/dhcp_client.rs:247-287 | and at most 51 times for any 32-bit lease |
| `LeaseRenewal.LateRenewalIsBounded` | src/services/dhcp_client.rs:247-287 | all three hold without the wrap condition when timers are late by at most a time that, twice, fits with the lease and a minute in 2^32 seconds |
| `UnansweredRenewal.UnansweredRenewalExpires` | src/services/dhcp_client.rs:247-253 | with exact timers and no answer the loop reports expiry, less than 60 s late and within 51 rounds, for every lease below 2^32 - 56 s |
| `UnansweredRenewal.ExpiryInTimeIffBelowWrap` | src/services/dhcp_client.rs:248-249 | it reports expiry in time, or at all, for these leases only |
| `UnansweredRenewal.RoundsBoundedIffBelowWrap` | src/services/dhcp_client.rs:247-287 | 51 rounds, or any larger bound, holds for these leases only |
| `UnansweredRenewal.OneSilentRoundIffBelowWrap` | src/services/dhcp_client.rs:247-287 | at most one of its rounds is silent for these leases only |
| `BoundPhase.RequestsFallInWindow` | src/services/dhcp_client.rs:193-288 | in every run of the bound phase, over all its sleeps, renewals and new leases, every request is decided on at T1 or later of the lease in force, before its end exactly until the lease's age wraps, and till then goes to the server exactly when that is known and T2 not reached |
| `BoundPhase.NoLeaseOutlivesItsEnd` | src/services/dhcp_client.rs:193-234 | in every run with exact timers, whatever answers come, each lease below 2^32 - 56 s is renewed, withdrawn or, when configuring fails, abandoned less than 60 s after its end |
| `BoundPhase.WithdrawnInTimeIffBelowWrap` | src/services/dhcp_client.rs:198-204 | in the legal, exactly timed runs without an answer, a lease is withdrawn in that time if and only if it is below that bound, and otherwise kept for ever |
| `BoundPhase.BoundPhaseRefinesClient` | src/services/dhcp_client.rs:193-234 | every run of the bound phase is a legal run of the client's turns with the same published lease and interface |
| `BoundPhase.RunBoundPhase` | src/services/dhcp_client.rs:193-234 | phase, lease, interface, binding time and log of the loop in any environment |
| `BoundPhase.EnteringEffect` | src/services/dhcp_client.rs:193-196 | the phase begins with the acknowledged lease exactly if it is configured |
| `BoundPhase.TurnsAreLegal` | src/services/dhcp_client.rs:198-231 | turns may be arbitrarily late, and a sleep lasts at least until T1 |
| `BoundPhase.IdleTurnEffect` | src/services/dhcp_client.rs:198-211 | an overdue lease is withdrawn at once, and before T1 only time passes |
| `BoundPhase.AckedTurnEffect` | src/services/dhcp_client.rs:217-226 | a renewal acknowledged first binds the new lease from its own instant exactly if that is configured, and else abandons it |
| `BoundPhase.LosingTurnEffect` | src/services/dhcp_client.rs:227-230 | a NAK, an error or the end of the lease withdraws it |
| `BoundPhase.RequestsAreLogged` | src/services/dhcp_client.rs:260-271 | the log has exactly the requests made |
| `SubnetMasks.PrefixLenInvertsMask` | src/services/dhcp_client.rs:557-569 | a mask has prefix length p exactly when it is 2^32 - 2^(32-p) |
| `SubnetMasks.RefusedIffNotContiguous` | src/services/dhcp_client.rs:562-567 | a mask is refused exactly when it is no prefix length's mask |
| `DhcpClient.AgreementIffCallsSucceed` | src/services/dhcp_client.rs:373-421 | from agreement, a turn ends in agreement of published lease and interface if and only if the calls it makes succeed; a turn that skips configuring needs none |
| `DhcpClient.PublishedLeaseIsLastAck` | src/services/dhcp_client.rs:99-234 | in every run, whatever netlink does, address, mask, gateway and DNS servers published are those of the last turn's ACK, or none when that turn had none; inside the bound phase they are those bound under |
| `DhcpClient.PublishedLeaseMatchesInterface` | src/services/dhcp_client.rs:99-234 | in every run whose calls succeed, outside the bound phase no lease is published and no address set, and inside it both are the last ACK's |
| `DhcpClient.TurnOnInterface` | src/services/dhcp_client.rs:373-421 | what a turn leaves on the interface, address by address, however its calls go |
| `DhcpClient.TurnsAreApplicable` | src/services/dhcp_client.rs:99-139 | which turns are taken in and outside the bound phase |
| `DhcpClient.FailedConfigurationIsNeverRetried` | src/services/dhcp_client.rs:380-399 | after a failed configuration the same ACK, and every renewal of it, leaves the client bound and published without an address |
| `DhcpClient.Client.constructor` | src/services/utils.rs:8-14 | nothing published at first |
| `DhcpClient.Client.ApplyLeaseConfig` | src/services/dhcp_client.rs:373-401 | publishes what changed, then configures only then |
| `DhcpClient.Client.Deconfigure` | src/services/dhcp_client.rs:403-421 | withdraws the lease and deletes its address |
| `DhcpClient.Client.Run` | src/services/dhcp_client.rs:99-139 | phase, lease and interface after any turns of the main loop and the bound phase |
| `RawFrame.FoldKeepsResidue` | src/packet.rs:63 | folding carries keeps a sum modulo 0xFFFF and never reaches zero from above |
| `RawFrame.HeaderSumsToAllOnes` | src/packet.rs:59-65 | the ten words of every built IPv4 header add up to 0xFFFF |
| `RawFrame.HeaderWordsAddUp` | src/packet.rs:59-65 | the same written out: the ten words sum to a multiple of 0xFFFF |
| `RawFrame.FrameLayout` | src/packet.rs:23-57 | where everything is in a built frame, byte by byte, with both lengths, TTL 64 and protocol 17 |
| `RawFrame.FrameRoundTrip` | src/packet.rs:23-57 | slicing a built frame, padded or not, recovers all fields and the payload, up to 65507 bytes of it |
| `RawFrame.SliceExactly` | src/services/utils.rs:112-124 | what the parser makes of any IPv4 and UDP bytes, headers with options and short packets included |
| `RawFrame.SliceRefuses` | src/services/utils.rs:112-124 | and that it takes no others |
| `RawFrame.DhcpPayloadRoundTrip` | src/services/utils.rs:112-124 | the service on the destination port gets the payload back, any other nothing |
| `RawFrame.Checksum` | src/packet.rs:63 | complement of the one's-complement sum without the checksum word |
| `RawFrame.Assemble` | src/packet.rs:27-67 | the frame written into one buffer, or nothing when the written total length leaves no room for the UDP packet |
| `RawFrame.BuildRawPacket` | src/packet.rs:14-68 | builds the frame exactly for payloads of at most 65507 bytes |
| `Wildcards.WildcardMatch` | src/kmod.rs:243-265 | terminates, and is true exactly when pieces fitting the pattern's characters spell the input |
| `Wildcards.ResolveAlias` | src/kmod.rs:282-298 | the module of the first alias that matches, else the name itself |
| `ModuleLoader.DependenciesComeFirst` | src/kmod.rs:119-228 | whatever loads fail, every attempt follows attempts at all that module's dependencies, when the modules.dep lines of the modules asked for list them to the right |
| `ModuleLoader.OrderedIffRightListed` | src/kmod.rs:173-192 | a module's first load respects the order exactly when its line does so |
| `ModuleLoader.ListedModulesLoadOnce` | src/kmod.rs:119-213 | no module with a modules.dep line is successfully loaded twice |
| `ModuleLoader.LoadedSetIsClosed` | src/kmod.rs:173-205 | when no load fails the loaded set contains its members' dependencies |
| `ModuleLoader.LineOf` | src/kmod.rs:150-166 | a line for the module, and nothing only when there is none |
| `ModuleLoader.LineIsFirst` | src/kmod.rs:150-166 | and the first such line |
| `ModuleLoader.EverythingAskedForIsTried` | src/kmod.rs:119-228 | whatever fails, every name with a line or a file has been loaded or is tried, and so are the dependencies of a listed one not yet loaded at its turn; nothing else is tried; only successes for listed names count as loaded; and all listed names end up loaded when nothing fails |
| `ModuleLoader.Loader.constructor` | src/kmod.rs:9-13 | nothing loaded or attempted |
| `ModuleLoader.Loader.LoadUnlessLoaded` | src/kmod.rs:182-191 | attempts a module not yet loaded and records a success |
| `ModuleLoader.Loader.LoadSingleModule` | src/kmod.rs:100-117 | attempts an unlisted module that has a file, recording nothing |
| `ModuleLoader.Loader.LoadLine` | src/kmod.rs:167-205 | dependencies from right to left, then the module |
| `ModuleLoader.Loader.LoadModuleWithDependencies` | src/kmod.rs:119-213 | loaded set and attempts after the call, with and without modules.dep and a line |
| `ModuleLoader.Loader.LoadRequiredModules` | src/kmod.rs:215-228 | the same over the six required modules, each of which is seen to |

## Left out

- Sockets, netlink messages, nftables and raw file descriptors: I/O over libraries that are not part of this repository; the kernel is the set of addresses on the WAN interface.
- DHCP and DNS wire formats: third-party code. Whether a DHCP reply encodes is up to the environment.
- The filters before the DHCP handlers (opcode, hardware address length, anti-spoofing check) and the reply's destination address: they would only add easy members.
- The default route: a failure to add it is only logged.
- Reading modules.dep and modules.alias as text, stems of paths, decompression and the module system call: lines are given, modules go by their stems, and a load succeeds or fails as the environment decides.
- PID-1 duties, configuration parsing, the SNTP client, delay and jitter of retransmissions while negotiating, logging and build scripts: only shallow properties.
- LeaseRenewal.AtMostOneSilentRound: holds before the 32-bit seconds wrap; LateRenewalIsBounded replaces that by a bound on lateness, and OneSilentRoundIffBelowWrap gives the exact bound for exact timers.
- BoundPhase.RequestsFallInWindow: the instant of a request is the clock reading it is decided on; how long sending takes after that is not bounded.
- BoundPhase.NoLeaseOutlivesItsEnd: for exact timers, and for leases below the bound WithdrawnInTimeIffBelowWrap shows to be exact; a timer may fire arbitrarily late, and so may a withdrawal.
- LeaseRenewal.RoundsAreLogarithmic: holds before the 32-bit seconds wrap, as does RoundsAtMost51; LateRenewalIsBounded has a bound on lateness instead, and RoundsBoundedIffBelowWrap the exact bound for exact timers.
- LeaseRenewal.RoundsAtMost51: as RoundsAreLogarithmic.
- RawFrame.Assemble: writes whole header parts into the buffer; the order of single field writes inside a header is not modelled.
- DnsAnswers.EveryReplyAnswersUnlessRival: rests on upstreams that answer what they were asked, on an unforged sender address, and on a parser that reads the same question whatever the ID.
- DnsAnswers.MisansweredIffRival: is about the next delivery, with the receiver idle; EveryReplyAnswersUnlessRival covers every reply of every run.
- DhcpClient.Client.Run: discovery and request are single events without the timing of their retransmissions, and so is a renewal; BoundPhase has the renewals with their timing.
- Router.QueriesFollowLease: publishing a lease and configuring it are one step; a query that reads the lease between the two is ordered after both.
- Wildcards.ResolveAlias: the alias lines are given; reading the file and splitting them is not modelled.
