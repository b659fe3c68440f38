# Verification of star

star connects players of a game hosted behind NATs: peers register at a server, try to
reach each other directly over QUIC, and fall back to a relay. This project models the
protocols and data structures whose correctness that depends on, and proves what they
promise. `dafny verify dfyconfig.toml` checks everything.

| file | models |
|---|---|
| `p2p_connector.dfy` | two peers punching holes at each other, with accept and dial loops, cancellation and the tie-break by ID |
| `p2p_agreement.dfy` | when the two peers agree, exactly, and runs that show what the connector does not promise |
| `p2p_progress.dfy` | what ends the loops of the connector, with which codes, and that Connect can return |
| `ttlmap.dfy` | the recency-ordered map that evicts from the front, as a list function and as the class on the heap |
| `rate_limit.dfy`, `rate_limiter.dfy` | token buckets in that map, over whole traces of requests; the middleware that updates them in place |
| `registar_setup.dfy` | hosts, joiners, control streams and setups at the server, interleaved step by step |
| `direct_setup.dfy` | the two together: agents that run their connectors on the registar's commands and answer |
| `relay_rendezvous.dfy` | matching the two relay streams of a session, alone and together with the setups |
| `udp_listener.dfy` | the listener that makes connections out of one UDP socket |
| `udp_relay.dfy` | the packet relay with its worker pool and pooled buffers |
| `udp_relay_order.dfy` | when the packet relay keeps the order of packets |
| `queue.dfy` | the growing ring buffer queue |
| `log_feed.dfy` | the log that is replayed and broadcast to subscribers |
| `invite_code.dfy` | invite codes: base32, UTF-8, parsing and printing |
| `discovery.dfy` | the discovery messages, and the client and server loops over an unreliable network |
| `wrappers.dfy` | shared types |

Code that several goroutines run at once is a state machine: an action is one step of one
goroutine, of the network, or of the environment, `Enabled` says when it can happen,
`Run` gives the state after a list of actions, and a state is `Reachable` if some list
leads to it, so a statement about all reachable states is one about every interleaving.
Objects that one caller at a time updates (the map, the limiter, the queue, the log
handler, a key variable) are classes whose methods are proved against functions, and the
properties are proved about these functions on all inputs.

## Where the code and its comments differ

The model follows the code.

- `internal/registar/peer.go:52` says that both sides must fail with ConnectFailed before a
  P2P attempt counts as failed. The joined error satisfies `errors.Is` when either did
  (`FallbackWhenEitherFailed`), so the relay can be tried although the other side has
  delivered its connection (`RelayThoughDelivered`).
- `internal/relay/relay.go:139` says that all routes of an address are removed. The loop
  deletes the same key again, so the routes to the address stay (`AllRemovedExactlyWhen`)
  and packets are delivered along them (`ReverseRouteDelivers`).
- `internal/relay/relay.go:162` says that Close lets all packets that were read be processed. A
  packet that waits for room in the inbox at that moment is abandoned
  (`AllProcessedExactlyWhen`, `AbandonHappens`).
- `internal/platform/udp/listen.go:201-202` says that accepted connections are not closed
  and that the socket is closed when none is left. Two things keep it open nevertheless: a
  connection that is accepted and closed before `dispatch` has stored it (`EarlyCloseLeaks`),
  and one that is stored but not accepted when the listener is closed
  (`BacklogKeepsSocketOpen`). And it is closed under an accepted connection if the listener
  is closed before `dispatch` has stored that one (`ClosedTooSoon`): the closer then holds the
  lock that `dispatch` waits for, and both wait for ever (`DeadlockStays`).
- `internal/registar/auth/key.go:26` refers to Crockford's encoding, which reads I as 1. The
  mapping does so for L only, and a text with I is refused. `Key` is called a 16-byte value
  at line 43 and has five bytes.
- `internal/discovery/discovery.go:17` calls the wire format big-endian; the port in it is
  little-endian.
- `Connect` can return neither a connection nor an error, exactly if its caller's context
  can be cancelled (`NeitherExactly`). The agent puts that nil through the same select as a
  connection, and may send it to the application (`NilHappens`).

## What is false, and exactly when

- Two `Connect` calls always agree iff the run that makes them disagree is impossible: a
  reply that could not be written has not reached the dialler, or the smaller side has no
  ID, or nobody cancels whose cancelling matters. With two addresses at the smaller side
  either caller matters, with one (`private == public`) only the smaller side's:
  `AgreementExactly`, with the run in `Disagreement`.
- A connection that was granted and then abandoned by its dialler can be returned by the
  acceptor: `AbandonedExactly`, with the run in `AbandonedIsReturned`. With an atomic reply
  it happens only if the dialler's caller gave up or one of its loops failed
  (`ReturnedStaysOpen`), and the dialler itself never returns one (`AbandonedGrant`).
- After the listener was closed, the socket is closed exactly when no accepted connection is
  left, unless a stale entry keeps it open (one closed too early, or one stored and not
  accepted) or it was closed too soon, under the connection that is being stored:
  `PromiseKeptExactlyWhen`, with the runs in `EarlyCloseHappens`, `BacklogKeepsSocketOpen` and
  `ClosedTooSoon`. `SocketClosedExactlyWhen` says for every state when it is closed.
- `RemoveAllRoutes` leaves no route that mentions its address iff no other address was
  routed to it: `AllRemovedExactlyWhen`, with the run in `ReverseRouteDelivers`.
- On a clean shutdown every packet that was read has been forwarded or dropped iff none was
  abandoned: `AllProcessedExactlyWhen`, with the run in `AbandonHappens`.
- The relay sends packets in the order in which it read them iff it has one worker at most:
  `KeepsOrderExactlyWhen`, with the run in `Overtaking`.
- Agents can be handed different connections whenever their `Connect` calls can disagree
  (`HandedApart`), but a setup that is counted as P2P has given both the same one
  (`SameConnection`).
- A late relay cleanup removes somebody else's entry iff its own is gone and somebody
  waits: `CleanUpDisplacesExactlyWhen`; at most two arrivals per session rule that out
  (`TwoArrivalsAreSafe`), three do not (`ThirdArrivalIsLost`).
- A key's binary form round-trips iff the key is not zero: `BinaryRoundTripExactlyWhen`.

## Model

| member | source | states |
|---|---|---|
| P2PConnector.LessIsTotal | internal/registar/p2p/connector.go:269 | The string order that breaks the tie is strict and total: of two different IDs exactly one is the larger (which one: LessIsLexicographic) |
| P2PConnector.LessIsLexicographic | internal/registar/p2p/connector.go:269 | That order, stated without its recursion: one string comes first iff the two agree up to some place where it ends, or has the smaller character |
| P2PAgreement.RefusedExactlyWhen | internal/registar/p2p/connector.go:264-289 | In every reachable state, for any two IDs, equal and empty ones included: an answer that was written is 409 iff the acceptor's ID comes first in the lexicographic order, and else 200 |
| P2PConnector.OwnershipStep | internal/registar/p2p/connector.go:117-240 | Every step of either peer keeps the ownership invariant: a loop works only on connections it obtained itself, at most one value crosses `connected`, and every obtained connection is closed, held, handed over, or its loop failed |
| P2PConnector.GrantsStep | internal/registar/p2p/connector.go:264-289 | Every step keeps what is known of granted connections: a 200 goes only to the smaller ID, and a granted connection is handed over, still held, or lost for a recorded reason |
| P2PConnector.LargerOnlyAccepts | internal/registar/p2p/connector.go:204-234 | The peer with the larger ID never has a dialled connection ready: its dials are refused |
| P2PConnector.RunsKeepInvariants | internal/registar/p2p/connector.go:67-240 | Both invariants hold after every list of steps of two peers with different IDs |
| P2PConnector.WinningDirection | internal/registar/p2p/connector.go:100-111 | A returned connection was dialled by the smaller ID and accepted by the larger, was answered with 200, and is open at the side that returns it |
| P2PConnector.SingleSurvivor | internal/registar/p2p/connector.go:80-111 | When Connect returns a connection exactly that one value crossed the channel, and every other connection this side obtained from Dial or Accept is closed by one of its ends |
| P2PConnector.Agreement | internal/registar/p2p/connector.go:67-184 | If both Connect calls return a connection it is the same one and open at both ends, provided a reply write that fails has not reached the dialler or neither caller cancelled |
| P2PConnector.AbandonedGrant | internal/registar/p2p/connector.go:175-182 | With an atomic reply, after a connection was granted and abandoned by its dialler, that dialler returns nothing and the acceptor can return no other connection |
| P2PConnector.NothingWithoutError | internal/registar/p2p/connector.go:112-113 | Connect comes back with neither connection nor error only if its caller's context was cancelled |
| P2PAgreement.AbandonedOnlyWhen | internal/registar/p2p/connector.go:231-238 | In every reachable state, a granted connection is closed at its dialler only if the dialler's caller gave up, one of its loops failed, or it delivered another connection; the last is impossible with an atomic reply |
| P2PAgreement.ReturnedStaysOpen | internal/registar/p2p/connector.go:100-111 | With an atomic reply what the acceptor returned is open at both ends unless the dialler's caller gave up or one of its loops failed |
| P2PAgreement.AbandonedIsReturned | internal/registar/p2p/connector.go:231-238 | A run in which a connection that got its 200 and was then abandoned by its dialler is returned by the acceptor: after a cancellation, or after a failed loop without any |
| P2PAgreement.AbandonedExactly | internal/registar/p2p/connector.go:175-182 | The promise that no abandoned connection is returned holds iff nothing is ever returned, because the smaller side has no ID |
| P2PAgreement.NeitherHappens | internal/registar/p2p/connector.go:112-113 | A run, for either side whose caller can cancel, in which Connect returns neither connection nor error |
| P2PAgreement.NeitherExactly | internal/registar/p2p/connector.go:112-113 | Connect of a side can return neither connection nor error iff its caller's context can be cancelled |
| P2PAgreement.BothReturn | internal/registar/p2p/connector.go:67-111 | A run, for any two peers of which the smaller has an ID, in which both calls return the same connection |
| P2PProgress.LoopEndsExactlyWhen | internal/registar/p2p/connector.go:117-240 | Over all runs: a loop has ended, with an error or without, iff one of the listed actions happened to it, or it is the second dial loop of a peer with one address |
| P2PProgress.ConnectCanReturn | internal/registar/p2p/connector.go:67-115 | From every reachable state in which its caller's context has ended, a loop has failed or a connection crossed the channel, Connect can come back by its own steps alone, without any of the other side |
| P2PProgress.CloseCodes | internal/registar/p2p/connector.go:211-289 | In every reachable state, which codes each end of a connection may have been closed with, given its reply and whether there was an ID |
| P2PProgress.RefusalHappens | internal/registar/p2p/connector.go:204-234 | A run, for any larger side with an ID, in which its dial is answered 409 and both ends are closed as a conflict |
| P2PProgress.NoDatagramsHappens | internal/registar/p2p/connector.go:188-200 | A run in which a connection without datagrams is closed and the loop goes on |
| P2PProgress.ListenerClosedHappens | internal/registar/p2p/connector.go:121-131 | A run, for either side, in which the accept loop ends without error because the listener was closed |
| P2PProgress.BadRequestHappens | internal/registar/p2p/connector.go:264-267 | A run in which a request without an ID ends its connection as a bad request |
| P2PAgreement.FollowedStep | internal/registar/p2p/connector.go:186-240 | Every step keeps, for a smaller side with one address: its dial loop leaves a connection only when the other side ended it or its own group is done |
| P2PAgreement.OneAddressAgrees | internal/registar/p2p/connector.go:94-98 | With one address the two calls agree whatever happens to replies, as long as the smaller side's caller does not cancel |
| P2PAgreement.NoIdNoConnection | internal/registar/p2p/connector.go:264-267 | Without an ID at the smaller side neither call ever returns a connection |
| P2PAgreement.TwoAddressesDisagree | internal/registar/p2p/connector.go:282-289 | With two addresses, a run for either side's cancellation in which the two calls return different connections |
| P2PAgreement.OneAddressDisagrees | internal/registar/p2p/connector.go:282-289 | With one address, such a run for the smaller side's cancellation |
| P2PAgreement.Disagreement | internal/registar/p2p/connector.go:282-289 | Whenever the exact condition fails there is a run in which the two calls return different connections |
| P2PAgreement.AgreementExactly | internal/registar/p2p/connector.go:67-289 | For any two peers with different IDs: all runs agree iff a failed reply write has not reached the dialler, or the smaller side has no ID, or neither caller can cancel, or, if the smaller side has one address only, the smaller side's caller cannot |
| TTLSpec.EvictedWhenTested | internal/platform/ttlmap.go:37-49 | Each entry that the scan removes was expired at the clock reading at which it was tested, and the first one kept was not |
| TTLSpec.ScanIsFilter | internal/platform/ttlmap.go:37-49 | On a list sorted by last use, scanning from the front removes exactly the entries a filter of the whole list would remove at the instant the scan stops |
| TTLSpec.GetOrSetKeeps | internal/platform/ttlmap.go:33-85 | A call keeps the list sorted by access time and free of duplicate keys, and leaves the key last |
| TTLSpec.GetOrSetRefines | internal/platform/ttlmap.go:33-85 | The recency list refines a plain map of key to value and last use: a call forgets exactly the expired keys, creates the value iff the key is absent then, and changes no other key |
| TTLMaps.TTLMap.constructor | internal/platform/ttlmap.go:18-23 | A new map is empty and its list and index agree |
| TTLMaps.TTLMap.DropExpired | internal/platform/ttlmap.go:37-49 | The eviction loop, in place: list and entries lose exactly the evicted prefix and the index stays a bijection onto the rest |
| TTLMaps.TTLMap.MoveToBack | internal/platform/ttlmap.go:70-71 | The touched element gets the new time and becomes the last; all others keep their order and contents |
| TTLMaps.TTLMap.Get | internal/platform/ttlmap.go:62-74 | A hit is found iff the key is listed, moves it to the back and returns its value; a miss changes nothing |
| TTLMaps.TTLMap.Set | internal/platform/ttlmap.go:76-85 | A new key is appended and indexed |
| TTLMaps.TTLMap.Touched | internal/platform/ttlmap.go:51-59 | After the eviction: a listed key is used and its value returned, an absent one is created, and the result is the value of the entry that is now last |
| TTLMaps.TTLMap.GetOrSet | internal/platform/ttlmap.go:33-60 | The method on the heap does what the list function says; `newV` runs iff the key is absent after eviction |
| RateLimits.TTLIsEnough | internal/platform/httpplatform/middleware.go:129-132 | The chosen time-to-live is positive and at least the time in which an empty bucket fills |
| RateLimits.ListedExactlyWhen | internal/platform/httpplatform/middleware.go:128-152 | After any trace of requests an address is listed iff its last request was less than burst times `every` before the latest request of all, or less than `every` if the burst is not above one |
| RateLimits.EvictedHadRefilled | internal/platform/httpplatform/middleware.go:128-152 | An entry that is evicted has a bucket that had filled again, so a new one is the same |
| RateLimits.EvictionIsInvisible | internal/platform/httpplatform/middleware.go:128-152 | On every trace of requests over any addresses the limiter on the evicting map answers exactly as one that never forgets |
| RateLimits.CreditIsTightestWindow | internal/platform/httpplatform/middleware.go:143-151 | A bucket's credit is the least that the admission bound leaves over all windows ending now |
| RateLimits.AdmittedExactlyWhen | internal/platform/httpplatform/middleware.go:128-152 | A request is admitted iff it keeps the bound of burst plus one per `every` on every window that ends with it |
| RateLimits.AdmissionBound | internal/platform/httpplatform/middleware.go:128-152 | In every window of every run, any address has at most burst plus length over `every` admissions, across any evictions |
| RateLimits.RetryAfterIsExact | internal/platform/httpplatform/middleware.go:143-151 | A rejected client that stays silent for the advertised seconds is admitted on its next request, and is rejected if it comes a whole second or more too early, whether or not its entry was evicted |
| RateLimits.RetryAfterPresent | internal/platform/httpplatform/middleware.go:146-149 | The header is absent iff the burst is below one, and is at least one second when present |
| RateLimiters.RateLimiter.Lookup | internal/platform/httpplatform/middleware.go:138-141 | The limiter used is the one listed for the address; a new one is made iff the address is absent after eviction, and every address keeps a limiter of its own |
| RateLimiters.RateLimiter.Reserve | internal/platform/httpplatform/middleware.go:143-151 | Reserving and cancelling amounts to: refill, then take one token if there is one; only this limiter changes |
| RateLimiters.RateLimiter.Handle | internal/platform/httpplatform/middleware.go:137-155 | The middleware on the heap takes exactly the step that the properties above are about, and takes in no older object |
| RateLimiters.RateLimiter.HandleAll | internal/platform/httpplatform/middleware.go:128-157 | A new middleware that handles a list of requests gives exactly the responses of the trace |
| RegistarErrors.FallbackWhenEitherFailed | internal/registar/peer.go:47-89 | The error of initP2P counts as ConnectFailed iff either side answered so, and is nil iff both are |
| RegistarSetup.OneUser | internal/registar/server.go:227-229 | At most one call at a time uses a control stream |
| RegistarSetup.SoundStep | internal/registar/server.go:181-261 | Every step keeps: the host table holds, for each key, the live stream registered under it, the holder of a host's lock is its active setup, and a peer's stream belongs to one setup |
| RegistarSetup.StreamStep | internal/registar/control/controller.go:44-52 | Every step keeps the streams in lockstep: at most one command outstanding while replies can be read, it is the one its user waits for, and positive answers are only given for delivered connections |
| RegistarSetup.SetupStep | internal/registar/peer.go:31-77 | Every step keeps what each setup's calls say about its two agents |
| RegistarSetup.RunsKeepInv | internal/registar/server.go:210-261 | All of these hold after every interleaving of registrations, joins, commands, replies and failures |
| RegistarSetup.SetupOutcome | internal/registar/client.go:294-355 | A setup that ended by P2P has had a connection delivered at both ends (that it is the same one: DirectSetups.SameConnection); one that ended by relay has had a stream of the same session arrive from both ends and delivered there; its host is a stream that registered the setup's key and its peer one that joined with it |
| RegistarSetup.JoinFindsTheHost | internal/registar/server.go:210-220 | For every reachable state and key: a join finds a host iff a stream is registered under the key, and then the new setup carries that key, its host is that stream and its peer the newly added one |
| RegistarSetup.SetupHasRightEnds | internal/registar/server.go:210-236 | In every reachable state, however late, the host of each setup is a stream that registered the setup's key and its peer a stream that registered none (at the join they are the two streams of JoinFindsTheHost) |
| RegistarSetup.OneHostPerKey | internal/registar/server.go:181-192 | Over all runs no two streams are registered under one key, and a taken key is refused |
| RegistarSetup.KeyBecomesFree | internal/registar/server.go:194-203 | From every reachable state a host whose stream breaks can leave the table, after which its key can be registered again |
| RegistarSetup.EndsExactlyAs | internal/registar/server.go:236-260 | How an attempt ends: a success of its kind iff both calls succeeded, a second attempt with a fresh session iff the first failed and an agent answered that it could not connect, else a failure; the lock is released unless there is a second attempt, and PeerConnected is reached iff both succeeded |
| RegistarSetup.SetupCanEnd | internal/registar/server.go:221-261 | No host stays locked: from every reachable state an active setup can come to its end by broken streams alone, without any reply, and then the lock is free |
| RegistarSetup.AgentCanRefuse | internal/registar/client.go:294-355 | An agent is never stuck: whatever command it has it can answer with an error, which delivers nothing and leaves it serving |
| RegistarSetup.RelayHappens | internal/registar/server.go:251-260 | A run, for every key, that is counted as relayed after the first attempt was declined |
| RegistarSetup.OutcomeMeansConfirmed | internal/registar/peer.go:31-77 | A setup that ended by P2P or by relay had both agents answer OK on their streams to the command of that attempt |
| RegistarSetup.CountersAgree | internal/registar/server.go:236-260 | Each counter is the number of setups with that outcome; together they are the setups that reached PeerConnected, each once |
| RegistarSetup.OneOutstanding | internal/registar/server.go:227-229 | A control stream whose replies can be read has at most one command outstanding |
| RegistarSetup.EachReadsItsOwn | internal/registar/control/controller.go:44-52 | Each caller reads the reply to its own command, and the buffered reader it throws away holds no other reply |
| RegistarSetup.SessionPresentedTwice | internal/registar/server.go:251 | A session is presented only by the two agents of the setup that drew it, and at most twice |
| RegistarSetup.NobodyPresentsTwice | internal/registar/client.go:321-344 | Two arrivals for one session come from different agents |
| RegistarSetup.HostIsExclusive | internal/registar/server.go:227-229 | No two setups of one host are active at once |
| RegistarSetup.CleanupTakesItsOwn | internal/registar/server.go:194-203 | The late cleanup of a gone host removes its own table entry and no newer host's |
| RegistarSetup.RelayOnlyAfterDecline | internal/registar/server.go:236-251 | Over all runs, a relay session is only drawn for a setup one of whose agents answered that it could not connect directly |
| RegistarSetup.FallsBackExactlyWhen | internal/registar/server.go:245-251 | When both calls are back, a setup falls back to a relay iff one of its agents answered that it could not connect |
| RegistarSetup.RelayThoughDelivered | internal/registar/peer.go:47-57 | A run, for every host, in which a relay is tried although the host's agent has delivered its direct connection |
| DirectSetups.InvStep | internal/registar/client.go:294-319 | Every step of registar, agents and connectors keeps: what went into `conns` is what that Connect call returned, an OK was written only if the stream's context did not end while Connect ran, and a job whose connection was rejected or nil is never delivered |
| DirectSetups.AnswersAgree | internal/registar/client.go:299-314 | When both agents of a setup have answered OK they were given one and the same connection, the only one of the two Connect calls that is not closed; nothing is assumed about lost replies or cancellation |
| DirectSetups.SameConnection | internal/registar/server.go:236-242 | A setup that is counted as P2P has put the same connection into `conns` at its host, which registered the setup's key, and at its peer, and it is the only one of its two Connect calls that is not closed |
| DirectSetups.NoConnectionLost | internal/registar/client.go:299-318 | What Connect returned was, once the agent is through with the command and was not stopped, either put into `conns`, that very connection, or closed as rejected, never both and never neither |
| DirectSetups.NilMeansCancelled | internal/registar/client.go:311-318 | A handler gets neither a connection nor an error only if its stream's context ended while Connect ran; its command is then never answered with OK and its setup never counted as P2P, whether the nil was sent into `conns` or not |
| DirectSetups.NilHappens | internal/registar/client.go:311-318 | A run, for every host whose stream can end, in which Connect returns nil and that nil goes into its `conns`, and one in which it does not |
| DirectSetups.HandedApart | internal/registar/client.go:311-314 | Whenever the two Connect calls can disagree there is a run in which the two agents are handed different connections, so the answers are needed |
| DirectSetups.DirectHappens | internal/registar/server.go:236-242 | A run, for every pair of peers of which the smaller has an ID, that is counted as P2P |
| RelayRendezvous.InvStep | internal/registar/server.go:291-329 | Every arrival, stream death, close and cleanup keeps the table, pair and handler invariants |
| RelayRendezvous.PairsMatch | internal/registar/server.go:291-312 | Paired streams carry the same session and no stream is in two pairs |
| RelayRendezvous.ReadyClosedOnce | internal/registar/server.go:296 | A `ready` channel is closed at most once, and it is closed iff its stream was paired with one whose handler is through |
| RelayRendezvous.CleanUpDisplacesExactlyWhen | internal/registar/server.go:322-327 | A cleanup removes another waiter iff its own handler is no longer in the table because it was paired or displaced, while somebody waits |
| RelayRendezvous.TwoArrivalsAreSafe | internal/registar/server.go:291-329 | For a session presented at most twice every waiter is in the table or paired, or its stream has died and its cleanup takes only its own entry |
| RelayRendezvous.ThirdArrivalIsLost | internal/registar/server.go:322-327 | For every session a third arrival can be taken out of the table by the first one's late cleanup and left waiting |
| RelayRendezvous.LostForGood | internal/registar/server.go:319-329 | Such a stream waits in every continuation in which it does not die |
| RelayRendezvous.EveryHandlerCanEnd | internal/registar/server.go:291-329 | From every reachable state each handler can come to its end, and one that was paired can without the death of any stream |
| RelayRendezvous.RelayJoinsHostAndPeer | internal/registar/server.go:251-330 | Setups and rendezvous together: whatever is relayed joins the host, which registered the setup's key, and the peer of the one setup that drew the session, and no waiter is displaced |
| UDPListener.ReleaseRemovesOnlyItself | internal/platform/udp/listen.go:149-157 | Closing a connection, however late, never removes a newer connection of the same address |
| UDPListener.TrackingStep | internal/platform/udp/listen.go:123-232 | Every step keeps the table, every connection's place, and the state of the socket |
| UDPListener.QueueStep | internal/platform/udp/listen.go:161-168 | Accept hands out connections in the order of their creation, each once, and never more than the backlog wait |
| UDPListener.TrafficStep | internal/platform/udp/listen.go:123-174 | Every step keeps each datagram in exactly one place: the read loop, one connection, or dropped |
| UDPListener.Demultiplexing | internal/platform/udp/conn.go:69-83 | What was read from a connection followed by what is buffered are datagrams of its own address in order, each once, the first being the one that created it; the unread part fits the buffer |
| UDPListener.NoDatagramTwice | internal/platform/udp/listen.go:123-174 | A datagram reaches at most one connection, and once dispatched it is dropped with an error iff it reached none (when it is dropped: DeliveredUnlessFull, DroppedForAReason) |
| UDPListener.DeliveredUnlessFull | internal/platform/udp/listen.go:128-135 | Whenever a datagram of a known address is dispatched, it is appended to what is unread at the connection of that address iff fewer datagrams than the read buffer holds (512 by default) are unread there, and is dropped otherwise; no other connection changes |
| UDPListener.DroppedForAReason | internal/platform/udp/listen.go:123-174 | Over all runs, each dropped datagram was in the read loop's hands at a moment when its reason was there: the buffer of its address's connection full, the backlog (128 by default) full while the listener was open, or the listener closed |
| UDPListener.DispatchGoesOn | internal/platform/udp/listen.go:123-174 | In every reachable state in which nobody waits for it, dispatch has a next step, and it gives a new connection up iff the listener is closed or the backlog is full |
| UDPListener.DispatchEnds | internal/platform/udp/listen.go:106-120 | From every reachable state in which no closer waits, the read loop gets back to reading by its own steps alone |
| UDPListener.ClosedExactlyWhen | internal/platform/udp/listen.go:203-216 | The listener counts as closed iff Close was called |
| UDPListener.WholeLife | internal/platform/udp/listen.go:106-232 | A run, for every configuration: a connection gets and reads two datagrams, it and the listener are closed, and socket, read loop and lock end with them |
| UDPListener.FirstStays | internal/platform/udp/listen.go:159 | In every continuation, what a connection got is only extended, and the datagram that created it stays the first |
| UDPListener.OneConnPerAddress | internal/platform/udp/listen.go:161-168 | Two connections that are not closed belong to different addresses |
| UDPListener.SocketLifetime | internal/platform/udp/listen.go:203-232 | The socket is closed iff the listener is closed and the table is empty, and it is closed at most once |
| UDPListener.TableIsOpenConns | internal/platform/udp/listen.go:149-167 | The table is exactly the open connections and those closed before they were stored |
| UDPListener.SocketClosedExactlyWhen | internal/platform/udp/listen.go:199-232 | In every reachable state: the socket is closed iff the listener is, no entry of the table is stale (closed before it was stored, or stored and not accepted), and the only accepted connection that may still be open is the one being stored |
| UDPListener.PromiseKeptExactlyWhen | internal/platform/udp/listen.go:199-232 | After the listener was closed, the socket is closed exactly when no accepted connection is left, except in two cases: a stale entry keeps it open for nobody, or it was closed under the one accepted connection that is being stored |
| UDPListener.ClosedUnderOpenConn | internal/platform/udp/listen.go:161-167 | If the socket is closed under an accepted connection, that one is being stored and the closer holds the lock |
| UDPListener.ClosedTooSoon | internal/platform/udp/listen.go:161-167 | A run, for every configuration, in which the socket is closed under an accepted connection that nobody closed |
| UDPListener.DeadlockStays | internal/platform/udp/listen.go:218-232 | A closer that waits for the read loop while the read loop is about to take the lock waits in every continuation: nothing is stored, received or released any more |
| UDPListener.SocketClosedBetweenDatagrams | internal/platform/udp/listen.go:199-232 | Between two datagrams: the socket is closed iff the listener and all accepted connections are, none was closed too early and the accept queue is empty |
| UDPListener.BacklogKeepsSocketOpen | internal/platform/udp/listen.go:199-216 | A run, for every configuration, in which a connection nobody accepted keeps the socket of a closed listener open |
| UDPListener.EarlyCloseLeaks | internal/platform/udp/listen.go:161-168 | A connection closed that early keeps the socket open in every continuation |
| UDPListener.EarlyCloseHappens | internal/platform/udp/listen.go:161-168 | Such a run exists, for every configuration |
| UDPRelay.FlightOfWorker | internal/relay/relay.go:83-104 | A worker's step moves exactly its packet: counted by bytes, by number, by packet or by buffer |
| UDPRelay.RunsKeepInv | internal/relay/relay.go:72-107 | On every run every byte and packet is accounted for, every buffer has one owner, and workers end quietly only when the inbox is closed and drained |
| UDPRelay.Conservation | internal/relay/relay.go:72-107 | When Serve ends without error each packet that entered the inbox was forwarded once or counted dropped, and bytes in are bytes out plus dropped bytes plus those of at most one abandoned packet |
| UDPRelay.BufferExclusive | internal/relay/relay.go:170-193 | At every moment a buffer is idle or used at one place, never both |
| UDPRelay.AllBuffersReturned | internal/relay/relay.go:228-229 | When Serve ends without error every buffer taken was put back exactly once |
| UDPRelay.AllProcessedExactlyWhen | internal/relay/relay.go:161-193 | Close promises that all packets already read are processed: on a run that ends without error each one was forwarded or dropped exactly once iff none was abandoned at the inbox |
| UDPRelay.AbandonHappens | internal/relay/relay.go:184-192 | A run, for any addresses and sizes, that ends without error and in which a packet that was read is abandoned |
| UDPRelay.ShutdownCompletes | internal/relay/relay.go:83-107 | From every reachable state of a closed relay that has not failed, there is a continuation without failures that ends Serve without an error |
| UDPRelay.FailsExactlyWhen | internal/relay/relay.go:72-107 | Over all runs, Serve ends with an error iff a read or a write failed |
| UDPRelay.MayFail | internal/relay/relay.go:171-182 | A read or a write can fail at any moment at which one is made, and the buffer is back in the pool then; an idle buffer can go at any time |
| UDPRelayOrder.RunsKeepOldestFirst | internal/relay/relay.go:73-104 | On every run the inbox is in the order of reading, and whatever was sent or is held by a worker was read before everything that waits |
| UDPRelayOrder.OneWorkerKeepsOrder | internal/relay/relay.go:83-104 | With one worker packets are sent in the order in which they were read |
| UDPRelayOrder.Overtaking | internal/relay/relay.go:83-104 | A run, for any two or more workers, in which the packet that was read second is sent first |
| UDPRelayOrder.KeepsOrderExactlyWhen | internal/relay/relay.go:83-104 | All runs keep the order of packets iff there is one worker at most |
| UDPRelay.RouteInForce | internal/relay/relay.go:122-150 | For every run and any two addresses: packets from one go to the other now iff the last of all calls that decide about the first (an AddRoute with it on either side, RemoveRoute, RemoveAllRoutes) connected the two, or there was none and the route was there at first |
| UDPRelay.DeliversAlongRoutes | internal/relay/relay.go:231-240 | Every packet written was read before, from the address it counts for, and went where the last deciding call before some moment after its reading had led that address; so that route was there at first or somebody connected the two |
| UDPRelay.DroppedWithoutRoute | internal/relay/relay.go:231-238 | Every packet counted dropped was read, and at a moment after that its address had no route |
| UDPRelay.AllRemovedExactlyWhen | internal/relay/relay.go:139-150 | After RemoveAllRoutes no route mentions the address iff no other address was routed to it before |
| UDPRelay.CutOffStays | internal/relay/relay.go:231-240 | Once an address has no route and none of its packets is being sent, nothing from it is sent in any continuation in which nobody connects it again |
| UDPRelay.RemovedUntilReconnected | internal/relay/relay.go:131-137 | RemoveRoute leaves neither of its addresses a route and every other address its own; and if none of an address's packets is being sent at that moment, nothing from it is sent in any continuation until it is connected again |
| UDPRelay.ReverseRouteDelivers | internal/relay/relay.go:139-150 | A run, for any two addresses, in which all routes of one are removed and a packet from the other is delivered to it afterwards |
| UDPRelay.NoFailure | internal/relay/relay.go:240-246 | A failed write always shows as a worker that ended with an error |
| Queues.DropFront | internal/platform/queue.go:28-31 | Clearing the first slot and moving on drops the first element of the sequence and leaves all slots outside the window zero |
| Queues.AddBack | internal/platform/queue.go:42-44 | Writing behind the last element, around the end, appends to the sequence and changes nothing else |
| Queues.CopyingIsAmortized | internal/platform/queue.go:37-56 | Over any pushes and pops all copying is at most the capacity, the capacity at most twice the greatest length so far, hence at most twice the pushes |
| Queues.CapacityIsCopiesPlusGrowths | internal/platform/queue.go:47-56 | The capacity is exactly the elements copied so far plus two per growth |
| Queues.PushesAndPeak | internal/platform/queue.go:22-56 | Over any calls, what is counted as pushes is the number of pushes, and the peak is the greatest length after any of the calls, reached by one of them |
| Queues.Queue.constructor | internal/platform/queue.go:5-9 | The zero value is a queue on an empty slice |
| Queues.Queue.Peek | internal/platform/queue.go:12-19 | The first element, or the zero value and false when empty |
| Queues.Queue.Pop | internal/platform/queue.go:22-34 | Removes and returns the first element; on an empty queue changes nothing |
| Queues.Queue.Push | internal/platform/queue.go:37-45 | Appends, growing if full |
| Queues.Queue.Store | internal/platform/queue.go:42-44 | Writes behind the last element, around the end |
| Queues.Queue.Grow | internal/platform/queue.go:47-56 | The larger buffer holds the same sequence from slot zero, and zeros behind it; exactly the elements held were copied |
| Queues.CopiesOf | internal/platform/queue.go:47-56 | Over any calls on a queue object, the loops of grow together copied at most its capacity, that is at most twice the greatest length and twice the pushes |
| LogFeeds.FeedStep | internal/webserver/sse.go:46-97 | Every call keeps each subscription sound: in order, gap-free up to the first drop, closed iff it ended |
| LogFeeds.HandOff | internal/webserver/sse.go:69-76 | What a subscriber sees is made of the lines that were handled, in order: its history followed by its channel is a gap-free run of them up to the first dropped line; with no drop it is everything since; the first hundred lines are never dropped |
| LogFeeds.LinesAreHandled | internal/webserver/sse.go:46-67 | After any number of calls the log has as many lines as records were handled, and the call after m handled records added its own line at place m |
| LogFeeds.SentExactlyWhen | internal/webserver/sse.go:59-64 | Over all calls: a handled line goes into a channel iff its subscriber is subscribed at that moment and fewer than a hundred lines wait there |
| LogFeeds.SubscribedExactlyWhen | internal/webserver/sse.go:79-97 | A subscription lasts exactly until its own Unsubscribe or the next Reset |
| LogFeeds.BeginsWhereSubscribed | internal/webserver/sse.go:69-76 | A subscription begins at the next handled line, and its history is the last lines before that since the last reset, as many as there are but no more than the capacity |
| LogFeeds.BaseIsLastReset | internal/webserver/sse.go:89-97 | What the history forgets are exactly the lines handled before the last Reset |
| LogFeeds.ReceiveTakesOne | internal/webserver/sse.go:73 | Receiving moves exactly the oldest waiting line, if there is one |
| LogFeeds.OrderedAfterADrop | internal/webserver/sse.go:59-64 | What follows the first drop is an ordered part of the log behind it |
| LogFeeds.ClosedOnce | internal/webserver/sse.go:79-97 | No channel is closed twice or sent to after it was closed, and one is closed iff its subscription ended |
| LogFeeds.EndedFeedsStay | internal/webserver/sse.go:79-97 | No later call touches a subscription that ended |
| LogHandlers.RingBuffer.Add | internal/webserver/sse.go:114-120 | The ring's log becomes the old one with this line appended, the oldest cell being overwritten when full |
| LogHandlers.RingBuffer.Entries | internal/webserver/sse.go:123-131 | The last min(n, capacity) of the n lines since the last reset, in order |
| LogHandlers.RingBuffer.Reset | internal/webserver/sse.go:134-137 | Forgets all lines and keeps the capacity |
| LogHandlers.SSEHandler.Handle | internal/webserver/sse.go:46-67 | If the formatter succeeds its text becomes the log's next line, and every subscribed channel holds it behind what it held iff it held fewer than 100 lines; if it fails no line, channel or history changes |
| LogHandlers.SSEHandler.Subscribe | internal/webserver/sse.go:69-76 | A new, empty, open channel, subscribed; and the last lines since the last reset, as many as there are but no more than the capacity |
| LogHandlers.SSEHandler.Unsubscribe | internal/webserver/sse.go:79-86 | A subscribed channel is unsubscribed and closed, keeping the lines that wait in it; any other is left alone |
| LogHandlers.SSEHandler.Reset | internal/webserver/sse.go:89-97 | Afterwards there is no history and no subscriber, and every channel that was subscribed is closed |
| LogHandlers.SSEHandler.Receive | internal/webserver/sse.go:73 | The subscriber's side: takes the oldest waiting line out of its channel, if there is one |
| Base32.SymbolsAndValues | internal/registar/auth/key.go:27 | Symbols and values are the custom alphabet read either way |
| Base32.PackInvertsSplit | internal/registar/auth/key.go:75 | Joining the eight groups of five bits of five bytes gives the bytes back |
| Base32.SplitInvertsPack | internal/registar/auth/key.go:65 | Splitting the five bytes of eight values gives the values back |
| Base32.PackKeepsTheNumber | internal/registar/auth/key.go:26-27 | The symbols are the digits to base 32 of the number whose digits to base 256 are the bytes (section 6 of RFC 4648) |
| Base32.DecodesToFive | internal/registar/auth/key.go:63-70 | A text decodes to five bytes iff it is eight symbols, with padding and longer texts included |
| InviteCodes.NormaliseCost | internal/registar/auth/key.go:63 | Over all byte texts, valid UTF-8 or not: the ASCII bytes of the normalised text plus the skipped bytes are at most the length, and as many only for ASCII text |
| Utf8.RunesRoundTrip | internal/registar/auth/key.go:63 | Every code point that is not a surrogate is decoded from its own UTF-8 encoding, whatever follows (section 3 of RFC 3629) |
| InviteCodes.DecodesWithinTheBuffer | internal/registar/auth/key.go:64-65 | The five-byte buffer is enough: a complete group is the whole text |
| InviteCodes.AcceptedExactlyWhen | internal/registar/auth/key.go:52-71 | A text is accepted iff it passes the length and dash check and normalises to eight symbols, which is iff its eight other characters each stand for a symbol |
| InviteCodes.ParsesExactlyTo | internal/registar/auth/key.go:31-71 | For every text and key: the text parses to the key iff its eight characters stand, one by one, for the key's groups of five bits; a character stands for a value if it is that letter of the alphabet in either case, an O or o for 0, an L or l for 1 |
| InviteCodes.PrintsExactly | internal/registar/auth/key.go:73-83 | What is printed are the eight letters of the alphabet for the key's groups of five bits, with a dash in the middle |
| InviteCodes.Refusals | internal/registar/auth/key.go:53-61 | A nine-character text with another character in the middle is refused as badly formatted, exactly; one of another length with its length |
| InviteCodes.RefusedExactlyAs | internal/registar/auth/key.go:63-71 | Of the texts of the right shape, exactly those that normalise, line breaks aside, to nothing or to a padded group are refused with the length of what they decode to, and exactly the other unaccepted ones as corrupt |
| InviteCodes.ParseAfterPrint | internal/registar/auth/key.go:52-83 | Parse after print is the identity for every key, and what is printed is canonical |
| InviteCodes.PrintAfterParse | internal/registar/auth/key.go:52-83 | Print after parse is the canonical form of the text, which parses to the same key and is its own canonical form |
| InviteCodes.SameKeyExactlyWhen | internal/registar/auth/key.go:63-71 | Two accepted texts give the same key iff they normalise alike |
| InviteCodes.PrintInjective | internal/registar/auth/key.go:73-83 | Different keys print differently |
| InviteCodes.BinaryRoundTripExactlyWhen | internal/registar/auth/key.go:85-99 | The binary form round-trips iff the key is not zero; the zero key is written as nothing and refused |
| InviteCodes.KeyVar.UnmarshalText | internal/registar/auth/key.go:52-71 | Writes the parsed key through the receiver on success and leaves it alone on failure |
| InviteCodes.KeyVar.UnmarshalBinary | internal/registar/auth/key.go:85-92 | The same for five raw bytes |
| InviteCodes.KeyVar.Scan | internal/registar/auth/key.go:101-116 | What Value wrote is read back; null leaves the key alone; other types are refused |
| DiscoveryCodec.Uint32RoundTrip | internal/discovery/discovery.go:71 | Reading a big-endian number is the inverse of writing it, both ways |
| DiscoveryCodec.AddrPortRoundTrip | internal/discovery/discovery.go:94-114 | A byte string decodes to an address iff it is that address's encoding: none, IPv4, IPv6, any zone, any port |
| DiscoveryCodec.RequestRoundTrip | internal/discovery/discovery.go:57-79 | A request is decoded for exactly the byte strings that begin with its encoding |
| DiscoveryCodec.ResponseRoundTrip | internal/discovery/discovery.go:88-114 | A response is decoded from exactly its own encoding |
| DiscoveryCodec.WireFormat | internal/discovery/discovery.go:15-31 | The wire format in numbers: STAR, version 1, type 1 or 2, the transaction, the address bytes, the port with its low byte first |
| DiscoveryCodec.KindsAreDistinct | internal/discovery/discovery.go:74-104 | No byte string is both a request and a response |
| DiscoveryCodec.ResponseVar.UnmarshalBinary | internal/discovery/discovery.go:98-114 | Success means the bytes are the encoding of the receiver; on a malformed address the transaction has already been stored, on other failures nothing |
| Discovery.Serve | internal/discovery/discovery.go:191-235 | The server's loop sends exactly one reply per valid request, in order, until it stops or a write fails, and says which of these ended it |
| Discovery.RepliesInOrder | internal/discovery/discovery.go:191-235 | Before it stops the server answers every valid request once and in order: the request after k valid ones gets reply number k, and there are no others |
| Discovery.RepliesAnswer | internal/discovery/discovery.go:212-229 | Every reply answers a received request and names the address it came from |
| Discovery.Check | internal/discovery/discovery.go:152-169 | A datagram yields an address iff it came from the server and its bytes, as the buffer holds them, are the encoding of a response with the client's transaction and that address |
| Discovery.AnswerIsResponse | internal/discovery/discovery.go:98-114 | For every datagram and every address: decoding it as the answer gives that address iff its bytes are the encoding of the response with it, so no two addresses fit one datagram |
| Discovery.Await | internal/discovery/discovery.go:140-175 | The inner loop ends at the first answer, read error or timeout: with the outcome of all remaining events, or after exactly one timeout with the events behind it |
| Discovery.Bind | internal/discovery/discovery.go:118-175 | The client's two loops compute the outcome function and send exactly one request at first and one after each timeout before the end, as far as requests can be sent |
| Discovery.BindsExactlyToTheFirst | internal/discovery/discovery.go:140-173 | Bind returns an address iff some event is the first answer from the server with its transaction, before any read error and before the requests run out |
| Discovery.EndsExactlyAs | internal/discovery/discovery.go:118-175 | Bind fails iff the requests run out before the first event that is an answer or a failed read, or that event is a failed read; it goes on iff there is no such event and a request is left |
| Discovery.FitsExactlyWhen | internal/discovery/discovery.go:128-164 | A reply survives the client's buffer of 1024 bytes iff its zone has at most 984 bytes; with a longer zone another address is decoded |
| Discovery.BindReturnsASource | internal/discovery/discovery.go:118-235 | Over a network that loses, duplicates, reorders, misdirects and injects from other sources, the address Bind returns is one from which the server received a request with that transaction |
| Discovery.LongZonesAreTheLimit | internal/discovery/discovery.go:128-164 | The bound on zones is the limit of that statement, for every transaction and every source with a longer zone |

## Left out

- P2PConnector.Agreement: two parties only, one `Connect` call each, with different IDs and each dialling only the other; a third peer or a second call at the same time is not modelled.
- P2PAgreement.AgreementExactly: IDs are taken as given, their random generation is not modelled; whether a dial can still complete when its context has ended is up to the QUIC library, and the model lets it.
- RateLimits.EvictionIsInvisible: each request is one instant on a non-decreasing clock, `every` is positive and times are integers; the floating-point rounding of the token library, and requests of one address that overlap between Reserve and Cancel, are not modelled.
- RateLimiters.RateLimiter.Handle: limiters are entries of a store that the map refers to by number, not objects of their own, so aliasing between limiter objects is not captured beyond the one-limiter-per-address invariant.
- TTLMaps.TTLMap.GetOrSet: clock readings of one call are a given non-decreasing tape; the mutex makes calls atomic; the linked list is a sequence of item objects.
- DirectSetups.SameConnection: rests on two properties of the QUIC library, which is not part of this model: a stream whose context has ended takes no more writes, and a method called on a nil connection does not return. The two Connect calls of a setup see no connections of other setups, and what the application does with a connection is left to it.
- RegistarSetup.CountersAgree: counters are unbounded, the 64-bit wrap-around is not modelled.
- RegistarSetup.SetupOutcome: a reply is one of OK, connect failed, or error, and reply bodies are not modelled; whether the application takes a delivered connection out of `conns` (`Join`, `Accept`) is left to it.
- RegistarSetup.RunsKeepInv: session IDs are drawn fresh, as an assumption on the random generator; Server.Close, which empties the host table, is not a step.
- RelayRendezvous.RelayJoinsHostAndPeer: the two models are joined through their arrivals, not as one state machine; the forwarding of datagrams after pairing is not modelled.
- UDPListener.Demultiplexing: a Read that gives a shorter buffer than the datagram truncates it, and reads with deadlines and writes are not modelled; data is what dispatch put into the channel.
- UDPListener.SocketLifetime: says nothing about progress; that a closer and the read loop can block each other for ever is stated by `DeadlockStays`.
- UDPRelay.Conservation: counters are unbounded, addresses are opaque, and a short write counts as a failed write.
- LogHandlers.RingBuffer.constructor: needs a positive capacity, because the ring of capacity zero is nil and adding to it panics; the only caller asks for 100.
- LogHandlers.SSEHandler.Handle: the text the formatter writes, and whether it fails after that, are given.
- InviteCodes.AcceptedExactlyWhen: upper case beyond ASCII is any function that leaves the replacement character alone, instead of the Unicode tables.
- Discovery.Bind: the events a socket delivers and the number of requests that can be sent are given; a list of events that ends leaves the client running.
- Discovery.BindReturnsASource: sources have zones of at most 984 bytes, which those of a socket always have; `LongZonesAreTheLimit` shows that the statement needs the bound. What arrives from the server's address was sent by the server (no spoofed source addresses).
- The step machines are values, not objects: fields that goroutines share are updated by atomic steps at the granularity of locks and channel operations, so data races and memory order below that are not modelled.
- The agent's response writer with its default status, headers and body, and the matching of request paths: framing.
- Progress and timing: that an end can always be reached is stated (`ConnectCanReturn`, `SetupCanEnd`, `EveryHandlerCanEnd`, `DispatchEnds`, `ShutdownCompletes`), not that a scheduler reaches it or how long it takes.
- TLS, certificates, tokens and random generation: foreign cryptography.
- QUIC, HTTP/3, HTTP/1 framing and JSON: abstracted to messages and closed-connection events.
- The web interface, templates, command line, configuration, logging and the admin page: presentation and input/output.
- The admin page's table of active hosts and the session authorities per host: they follow the host table without a common lock.
