# A verified model of the ion-cluster control logic

ion-cluster runs a WebRTC SFU on several nodes. A session lives on exactly one node; etcd says
which. This project models, in Dafny, the logic that has to stay right when nodes, threads and
failures interleave, and proves what it promises.

`dafny verify dfyconfig.toml` checks everything.

## What is modelled

**Session ownership** (`SessionMeta`, `Etcd*`, `LocalCoordinator`). `EtcdProtocol` is a transition
system with any number of nodes and any number of threads on each. A thread runs
`getOrCreateSession`, `ensureSession` or `onSessionClosed` one statement at a time; every etcd call
may fail, every wait for an etcd lock may time out, leases expire, and a failed unlock leaves an
orphaned lock. `EtcdEffects` says what one step does to each part of the state, and the invariants
are proved against that:

- `EtcdLocks`, `EtcdLeases`, `EtcdSessions`: mutual exclusion, cancel handles, session map and gauge;
  `EtcdExpiry`: what expiry does to leases and orphaned locks;
- `EtcdHistory`, `EtcdAgreement`: lookups are linearizable with respect to an atomic get-or-create on
  a plain map (`EtcdHistory.Replay`), owners agree, routing takes one hop;
- `EtcdHosting`: no two nodes host one session, and the discipline this needs;
- `EtcdDeletes`: whose entry a close deletes; `EtcdLeftovers`: what failed operations leave behind;
- `EtcdProgress`: no deadlock and no livelock despite opposite lock orders;
- `EtcdPitfalls`: concrete runs for what is *not* promised, one for each clause of the discipline;
- `EtcdCoordinator`: the coordinator as an object whose methods change fields in place, each call
  shown to be a run of one thread of the transition system; `EtcdGuarantees` carries the results
  over to the fields of that object;
- `LocalCoordinator`: the single-node coordinator, and the etcd one measured against it.

**Presence replication** (`PresenceModel`, `PresenceSession`, `PeerLifecycle`, `PeerRooms`,
`Signalling`).
`PresenceModel` is the reference on values. `PresenceSession.Session` is the object: the presence
map and the channels are heap objects, a message holds a reference to a copy of the map, and
`Valid()` ties all of it to the reference. `PeerLifecycle` is the order in which connections drive one
session, `PeerRooms` follows them over sessions that close and are made anew, and `Signalling` is the
handler.

**Client and tools.** `Trickle` (buffering of ICE candidates), `Layout` and `Compositor` (the video
grid over any run of tracks coming and going), `ConfigKeys` (the configuration walk with its shared
slices).

## Assumptions

- An etcd lock is not lost inside its critical section. A failed unlock orphans it until it expires.
- A failed Put or Delete had no effect. A failed KeepAlive is logged and the lookup carries on, as in
  the source.
- Session ids hold no `/`, so that meta keys and lock keys do not meet
  (`SessionMeta.MetaKeyAmongLockKeys` says exactly when they would).
- A session's close callback fires at most once.
- Node ids, random in the source, are places in the cluster, hence distinct.
- `Disciplined` in `EtcdHosting` spells out what single hosting needs beyond the coordinator: leases
  kept alive do not expire, the keep-alive of a live lease starts, and a session object is inserted
  only on the strength of a lookup that no close on that node has overtaken.
- A connection joins successfully at most once and peer ids are not reused.
- Bins can be created and linked, adding or ending a track is one step, and a mixer that is asked to
  release a pad of the other mixer leaves it where it is.

Where code and documentation differ the code is followed. The log text at `pkg/session.go:83` says a
listener with a full queue is removed; the code only drops the message. A presence set of JSON null
stores a null, and only the end of a connection erases. The codec spelt `viode/vp9` in
`pkg/client/gst/compositor.go:65` means that VP9 tracks are refused.

## Properties that do not hold, and when they do

- Hosting is single in every disciplined run (`SingleHost`), and each clause of the discipline is
  needed: `TwoHostsWithoutTicket`, `TwoHostsAfterExpiry` and `TwoHostsWithoutKeepAlive` break one of
  them once and nothing else (`TwoHostsWithoutLookup` needs no failure at all).
- A close may delete another node's entry (`ForeignDelete`): in every run, if and only if the key was
  another node's when the close held the etcd lock before its cancel and has not expired since
  (`DeletesForeignEntryExactly`), which is when the entry is not that of the handle the close finds
  (`DeletesForeignEntryByHandle`). In a disciplined run it never happens.
- A registered session need not be on any node (`RegisteredWithoutSession`): without a join its lease
  is kept alive until it expires (`UnjoinedLookupIsKept`).
- A close is not sure to end its session: if getting its lock or its Delete fails, and only then
  (`OnSessionClosed`), the session stays in the map for good, never to be closed or its leases
  cancelled again (`AbandonedForever`, `SessionLeftBehind`), and the gauge is too high by exactly the
  number of such sessions (`GaugeCountsLeftovers`).
- A kept-alive lease need not have a handle (`HandleOverwritten`): it has one if and only if no later
  lookup of the session on that node stored another (`KeptLeaseHasHandleExactly`).
- Without timeouts the two lock orders deadlock (`OnlyTheTimeoutHelps`); with them everything
  finishes (`OperationsFinish`).
- A peer's presence can outlive its connection. Within one session that is exactly when a presence
  set comes after the connection erased it (`PeersComeAndGo`, `PresenceOutlivesConnection`). Over all
  sessions it is exactly when a set comes after that or after the session joined has closed
  (`PresenceLeftExactly`): such a set makes or reaches another session (`HandlePresenceSet`,
  `SessionClosesUnder`, `PresenceInNewSession`), where the peer stays for good (`LeftForGood`).
- The publisher's candidates can be applied out of order (`OutOfOrder`) or twice (`AppliedTwice`);
  `OrderPreserved` and `AppliedExactlyOnce` say exactly when not.
- The grid can stick out of a canvas whose width the tile width does not divide (`TileSticksOut`);
  `TilesInside` says exactly when it does not.
- A video whose track id is bound again before it ended stays on the canvas for good
  (`OrphanedForever`, `VideoLeftBehind`); pads and callbacks are those of the bound tracks exactly
  without such (`PadsAreBoundExactly`).
- Keys can collide (`DottedNamesCollide`, `SiblingsCollide`): exactly when two paths, cut at their
  dots, spell the same (`KeysDistinctExactly`); without dots, exactly when two fields of one struct
  clash (`KeysDistinctWithoutDots`).

## Model

| member | source | states |
|---|---|---|
| `SessionMeta.MetaKeyAmongLockKeys` | pkg/coordinator_etcd.go:73-75 | a meta key lies among the lock keys of another session if and only if its id extends that id past a slash, so never for ids without one |
| `EtcdLocks.LocksKept` | pkg/coordinator_etcd.go:75-180 | every action keeps mutual exclusion: an etcd lock and a node mutex are held by exactly the thread whose program counter says so |
| `EtcdLeases.LeasesKept` | pkg/coordinator_etcd.go:104-195 | every action, failure and expiry keeps the lease invariants: entries name their key and owner, leases belong to who asked for them, a key stays absent while one lookup creates it, kept entries are under their owner's handle |
| `EtcdLeases.KeptEntriesHaveHandles` | pkg/coordinator_etcd.go:108-135 | in every reachable state an entry under a kept-alive lease has exactly that lease's cancel handle in its owner's map, every stored meta names its key and its owner's endpoint, and a Put finds its key absent |
| `EtcdLeases.SpentForever` | pkg/coordinator_etcd.go:114-119 | a lease that nobody keeps alive and no lookup is about to keep alive is never kept alive again |
| `EtcdLeases.CancelledNeverKept` | pkg/coordinator_etcd.go:182-195 | once a close is past its cancel, its node's entry is kept alive by nobody then or in any continuation, whether or not the Delete succeeds |
| `EtcdExpiry.ExpiredForever` | pkg/coordinator_etcd.go:108-135 | in every run: what is kept alive and what holds an entry is alive; a lease that has expired is never again alive, kept alive or the lease of an entry, and a Put under it cannot succeed, only fail and leave the registry as it is |
| `EtcdHistory.HistoryKept` | pkg/coordinator_etcd.go:62-138 | every action keeps the history linearizable and the registry equal to the replayed reference map |
| `EtcdAgreement.LookupsLinearize` | pkg/coordinator_etcd.go:62-138 | in every run `getOrCreateSession` refines an atomic get-or-create on a map: each success takes effect once, between call and return, with the reference's answer; a failed call never takes effect; the registry is the reference map |
| `EtcdAgreement.ReplayKeeps` | pkg/coordinator_etcd.go:88-102 | what the reference map holds for a key stays until the key is removed |
| `EtcdAgreement.OwnersAgree` | pkg/coordinator_etcd.go:82-137 | two lookups of a session with no removal of its key between them name the same node and endpoint, and Redirect is set exactly for answers given on another node than the owner |
| `EtcdAgreement.LookupAnswers` | pkg/coordinator_etcd.go:82-137 | the step in which a lookup takes effect gives the answer the current registry prescribes for its node |
| `EtcdAgreement.OneHop` | pkg/server.go:72-94 | a redirected request goes on for the same session to its owner's endpoint and is served there; every node at that endpoint serves it if and only if no other node shares the endpoint |
| `EtcdSessions.SessionsKept` | pkg/coordinator_etcd.go:140-202 | every action keeps the session invariants: keys map to objects made for them, an object not yet closed is mapped, a close and its object point at each other, the gauge follows the map |
| `EtcdSessions.GaugeCountsSessions` | pkg/coordinator_etcd.go:140-202 | in every reachable state with the mutex free the gauge is the size of the session map, across all failure exits, and a key being closed still maps to the very session that closed |
| `EtcdHosting.HostsOfRun` | pkg/coordinator_etcd.go:140-202 | every disciplined run keeps the hosting invariants: an open session is owned and kept alive, a close before its cancel still owns its key, an unkept entry is abandoned or being deleted, a valid ticket means ownership |
| `EtcdHosting.SingleHost` | pkg/server_jsonrpc.go:69-119 | in every disciplined run no two nodes host one session, not even during a close, and a Delete removes only the deleting node's own entry |
| `EtcdDeletes.HandleTellsOwner` | pkg/coordinator_etcd.go:182-191 | in every run, before its cancel: the entry is the close's own if and only if the handle it finds in its node's map is that of the entry, kept alive or not |
| `EtcdDeletes.EntryUntilDelete` | pkg/coordinator_etcd.go:176-191 | from its lock to its Delete a close sees one entry: the one found at the lock, there until and only until its lease expires |
| `EtcdDeletes.DeletesForeignEntryExactly` | pkg/coordinator_etcd.go:176-195 | in every run, without any discipline: the Delete removes another node's entry if and only if the key was another node's under the lock before the cancel and its lease has not expired since; it removes no other key |
| `EtcdDeletes.DeletesForeignEntryByHandle` | pkg/coordinator_etcd.go:182-195 | the same told by what the close finds: it deletes another node's entry if and only if there is an entry under the lock that is not that of its handle and that has not expired since |
| `EtcdLeftovers.AbandonedForever` | pkg/coordinator_etcd.go:169-195 | in every run and every continuation: a session whose close failed stays mapped, no close of that id is under way on that node or can start, and every lease kept alive for it, also of a later lookup, is kept until it expires by itself |
| `EtcdLeftovers.GaugeCountsLeftovers` | pkg/coordinator_etcd.go:152-199 | with the mutex free the gauge is the number of hosted sessions plus the number of those whose close failed, so it is right if and only if there are none |
| `EtcdLeftovers.UncancellableForever` | pkg/coordinator_etcd.go:114-122 | a lease whose handle is gone never gets one again, and is kept alive if and only if it was and has not expired |
| `EtcdLeftovers.KeptLeaseHasHandleExactly` | pkg/coordinator_etcd.go:121-135 | in every run: a lease still kept alive can still be cancelled by its node if and only if no lookup of the same session there has stored another handle since; otherwise only expiry ends it, in every continuation |
| `EtcdLeftovers.KeptLeaseEndsExactly` | pkg/coordinator_etcd.go:114-188 | in every run: a lease kept alive under its handle stays kept alive if and only if it does not expire and no close of its session on that node gives it up before another lookup there overwrites the handle |
| `EtcdLeftovers.UnjoinedLookupIsKept` | pkg/server.go:72-78 | a lookup whose caller never joins: as long as nobody gets the session on that node, its lease is kept alive if and only if it has not expired |
| `EtcdProgress.SomeoneSteps` | pkg/coordinator_etcd.go:75-123 | an operation under way can step, or the holder of the mutex it wants can |
| `EtcdProgress.CyclePassesThroughClose` | pkg/coordinator_etcd.go:162-180 | in every reachable state every cycle of waits runs through a close waiting for its etcd lock, whose timeout breaks it |
| `EtcdProgress.StepsAreBounded` | pkg/coordinator_etcd.go:62-202 | without new calls, whatever expires in between, no run holds more statements than the work the threads have left |
| `EtcdProgress.Drain` | pkg/coordinator_etcd.go:62-202 | from every state satisfying the lock invariants the operations under way can be run to their end by their own steps |
| `EtcdProgress.OperationsFinish` | pkg/coordinator_etcd.go:62-202 | in every reachable state the operations under way can finish, and in every run without new calls, expiries included, they take at most ten statements per thread |
| `EtcdExpiry.LocksComeFree` | pkg/coordinator_etcd.go:79-79 | no lock is for ever: from every reachable state, without new calls, all operations can finish and all locks, also those whose unlock failed, can come free |
| `EtcdPitfalls.TwoHostsWithoutLookup` | pkg/coordinator_etcd.go:140-160 | a run in which nothing fails and nothing expires, and two nodes host one session that is not registered at all, since `GetSession` does not ask etcd |
| `EtcdPitfalls.TwoHostsWithoutTicket` | pkg/coordinator_etcd.go:140-160 | a disciplined run, one insertion of a session without a lookup of that node, a disciplined run, and two hosts |
| `EtcdPitfalls.TwoHostsAfterExpiry` | pkg/coordinator_etcd.go:108-135 | a disciplined run, one expiry of a lease that was being kept alive, a disciplined run, and two hosts |
| `EtcdPitfalls.TwoHostsWithoutKeepAlive` | pkg/coordinator_etcd.go:114-119 | a disciplined run, one failed KeepAlive of a live lease, which the lookup only logs, a disciplined run, and two hosts |
| `EtcdPitfalls.HandleOverwritten` | pkg/coordinator_etcd.go:121-135 | a run in which a Put fails and the next lookup overwrites the only handle of a lease that is still kept alive |
| `EtcdPitfalls.SessionLeftBehind` | pkg/coordinator_etcd.go:176-179 | a run in which a close cannot lock and leaves its session in the map, counted by the gauge and hosted by nobody |
| `EtcdPitfalls.RegisteredWithoutSession` | pkg/server.go:72-78 | a run in which nothing fails and a session is registered and kept alive that no node has |
| `EtcdPitfalls.OnlyTheTimeoutHelps` | pkg/coordinator_etcd.go:121-180 | a reachable state with a cycle of waits in which no statement can succeed and only the timeout of the close can step |
| `EtcdPitfalls.ForeignDelete` | pkg/coordinator_etcd.go:190-195 | a run in which a close is about to delete the entry of another node, and can |
| `EtcdCoordinators.EtcdCoordinator.GetOrCreateSession` | pkg/coordinator_etcd.go:62-138 | answer, registry and locks as a function of registry, locks and which calls fail; the registry changes only for an absent session that is answered, the locks only by a failed unlock; the call is a run of one thread that records this very answer |
| `EtcdCoordinators.EtcdCoordinator.EnsureSession` | pkg/coordinator_etcd.go:140-156 | returns the session mapped, or maps a new one and counts it; nothing else changes |
| `EtcdCoordinators.EtcdCoordinator.OnSessionClosed` | pkg/coordinator_etcd.go:162-202 | key, local session and gauge go together, if and only if neither the lock nor the Delete failed; the handle and the keep-alive go as soon as the etcd lock is held, even if the key stays; the session is over either way; the locks are as before but for a failed unlock, which orphans this one |
| `EtcdGuarantees.ObjectFollowsRuns` | pkg/coordinator_etcd.go:20-30 | of the coordinator object after any calls with any failures: the gauge counts the local sessions, kept entries of this node are under its handles, the answers are those of the atomic reference |
| `LocalCoordinators.LocalCoordinator.EnsureSession` | pkg/coordinator.go:70-86 | returns the session mapped, or maps and counts a new one; the map stays the open sessions and the gauge its size |
| `LocalCoordinators.LocalCoordinator.GetOrCreateSession` | pkg/coordinator.go:92-101 | the key is mapped afterwards, and the answer names this node and never redirects |
| `LocalCoordinators.LocalCoordinator.OnSessionClosed` | pkg/coordinator.go:103-109 | exactly the key of the closed session goes, and the gauge still counts the map |
| `LocalCoordinators.LocalKeysAreBoth` | pkg/coordinator.go:70-109 | after every sequence of requests the local session keys are the registry keys and the held keys together |
| `LocalCoordinators.KeysExactly` | pkg/coordinator.go:70-109 | for every sequence of requests: a session is held exactly if it was gotten and not closed since, registered if looked up and not closed since, in the local map if looked up or gotten and not closed since |
| `LocalCoordinators.RunBoth` | pkg/coordinator_etcd.go:62-202 | one etcd node without failures gives the same answers as the local coordinator to every sequence of lookups, `GetSession` and closes, one answer naming this node per lookup in order; the local keys are the registry keys together with the node's local session keys, and each of the three is what the requests say |
| `PresenceModel.RunKeeps` | pkg/session.go:36-86 | every run of updates, adds, removes and reads below 2^64 updates keeps the presence invariant |
| `PresenceModel.MessagesAreSnapshots` | pkg/session.go:36-62 | whatever a listener has read or will read carries exactly the map folded from all updates up to its revision, revisions strictly increase, a queue never exceeds 32, and read plus queued plus dropped are the broadcasts made while registered, each once |
| `PresenceModel.ShownExactly` | pkg/session.go:41-45 | for every list of updates: the folded map shows a peer with a value if and only if the last update about that peer set that value |
| `PresenceModel.PresenceOfRun` | pkg/session.go:40-45 | after every run the map is the fold of the updates among the operations, and the revision their number modulo 2^64 |
| `PresenceModel.MessageShowsLastSet` | pkg/session.go:47-62 | every message received shows a peer with a value if and only if the last update of that peer up to its revision set that value |
| `PresenceModel.UnreadQueue` | pkg/server_jsonrpc.go:121-121 | a listener that reads nothing holds the first 32 messages and loses exactly those from the 33rd on |
| `PresenceModel.NoDropsNoGaps` | pkg/session.go:77-86 | a listener gets the gap-free range of revisions of its registration if and only if nothing was dropped for it |
| `PresenceModel.DrainedIsCurrent` | pkg/session.go:64-86 | a drained listener's last message is the current revision and presence if and only if the latest broadcast was made while it was registered and was not dropped for it |
| `PresenceModel.ListenersOfRun` | pkg/session.go:64-75 | in every run listeners and registered channels correspond one to one, so no two peers share a channel |
| `PresenceSession.Session.SendToAll` | pkg/session.go:77-86 | whatever order the listeners are ranged over, every queue with room gets the message once and every full one stays as it is |
| `PresenceSession.Session.Publish` | pkg/session.go:77-86 | the loop over the heap channels does what the pointwise reference broadcast does, channels no longer registered included |
| `PresenceSession.Session.TakeSnapshot` | pkg/session.go:47-48 | the copy is a new object holding the current presence; every earlier snapshot still holds what it held |
| `PresenceSession.Session.UpdatePresenceMetaForPeer` | pkg/session.go:36-62 | the peer has what it was set to, or nothing if erased, and every other peer has what it had; on the objects this is the update of the reference: the live map changes in place, queued snapshots do not |
| `PresenceSession.SessionShowsLastSet` | pkg/session.go:40-45 | on the object: a peer is shown with a value if and only if the last update of that peer set that value; the revision is the number of updates modulo 2^64 |
| `PresenceSession.Session.BroadcastAddListener` | pkg/session.go:64-69 | the channel takes the place of the one the peer had, whatever channel it is; for a new and empty one, as a join brings, this is the step of the reference |
| `PresenceSession.Session.BroadcastRemoveListener` | pkg/session.go:71-75 | unregisters the peer as the reference does |
| `PresenceSession.Session.Receive` | pkg/server_jsonrpc.go:131-133 | the message taken is the head of the queue, and revision and map are still those of the reference snapshot, whatever was updated since |
| `PeerLifecycle.PeersAlways` | pkg/server_jsonrpc.go:118-141 | every run of joins, presence sets, stops and deliveries keeps the peer invariant |
| `PeerLifecycle.PhasesTold` | pkg/server_jsonrpc.go:118-141 | over every run a connection is joined, leaving or gone exactly as its own join and stop steps say, in that order |
| `PeerLifecycle.PeersComeAndGo` | pkg/server_jsonrpc.go:118-141 | listeners are exactly the joined peers; a gone peer is still present if and only if a presence set came after its erase; otherwise those present have joined or are between the two stop steps, and when all are gone both maps are empty |
| `PeerLifecycle.PresenceOutlivesConnection` | pkg/server_jsonrpc.go:134-138 | a run in which a connection sets its presence after it has erased it and stays present when it is gone |
| `PeerLifecycle.NeverOwnDeparture` | pkg/server_jsonrpc.go:134-138 | from the erase on, in every continuation, the channel of a departed peer has received exactly what it had before: neither its own departure nor anything later |
| `PeerLifecycle.OwnChannel` | pkg/server_jsonrpc.go:121-122 | a channel is only ever registered for the peer whose join made it |
| `PeerRooms.PresenceLeftExactly` | pkg/server_jsonrpc.go:118-204 | over every run of joins, sets, stops and closes of sessions: a set goes to the session joined until that closes and never after; a gone peer is still present in some session if and only if it set its presence after that close or after its own erase; with nobody left and no such set, no session shows anybody |
| `PeerRooms.RoomsAreRuns` | pkg/server_jsonrpc.go:118-141 | over every run each session, open or closed, is what the operations directed at it make of it, so the results about one session hold of all; and its listeners are exactly the connections that joined it and have not taken their stop step |
| `PeerRooms.RoomShowsLastSet` | pkg/session.go:40-45 | for every run, session, peer and value: the session shows the peer with that value if and only if the last step by which the peer reached that session set it |
| `PeerRooms.LeftForGood` | pkg/server_jsonrpc.go:134-138 | a presence in another session than the one joined, or of a connection that is over, is still there after every continuation |
| `PeerRooms.PresenceInNewSession` | pkg/server_jsonrpc.go:189-204 | the run join, close, set, stop: the peer is gone, and present for good in the new session the map has for its id |
| `Signalling.SessionAfter` | pkg/server_jsonrpc.go:118-141 | a run of connection steps leaves the session where the operations it makes leave the presence reference |
| `Signalling.SessionFollowsPeers` | pkg/server_jsonrpc.go:118-141 | on the session object itself: the listeners are the joined peers, a gone peer is present if and only if it was set too late, and with nobody left and no late set both maps are empty |
| `Signalling.Sessions.GetSession` | pkg/coordinator_etcd.go:140-160 | the session of that id, or a new one with nobody in it, mapped; no other entry changes |
| `Signalling.Sessions.Remove` | pkg/coordinator_etcd.go:198-198 | exactly the closed session leaves the map |
| `Signalling.JSONSignal.HandleJoin` | pkg/server_jsonrpc.go:60-143 | answered if and only if parsed, looked up without redirect, accepted and answered by the SFU, and then exactly one join step is taken in the session asked for, with a channel of its own; redirected with the owner's meta if and only if the lookup says so; a session is made if and only if there is none and the SFU gets to ask for it, also when it then fails, and is left without a listener in that case; otherwise nothing changes |
| `Signalling.JSONSignal.HandlePresenceSet` | pkg/server_jsonrpc.go:189-204 | refused if and only if the connection has no session or the request does not parse, and then nothing changes; otherwise exactly one update of the session the node has for that id; a new one is made if and only if there is none, and it shows this peer alone and has no listener; a presence step if it is the session the peer joined |
| `Signalling.JSONSignal.Stop` | pkg/server_jsonrpc.go:134-138 | unregisters first and erases second, after which the peer is in neither map |
| `Signalling.JSONSignal.Listen` | pkg/server_jsonrpc.go:127-141 | with other peers joining, setting their presence and stopping at any point: what goes out is exactly what the reference says this listener reads, in order, and the run ends with the two stop steps, after which the peer is in neither map |
| `Signalling.SessionClosesUnder` | pkg/server_jsonrpc.go:189-204 | on the objects: after join, close, presence set and stop the peer is gone from the session it joined and shown by a new one in its place, where nobody listens |
| `Trickle.SubscriberInOrder` | pkg/client/client.go:207-247 | in every run, told by its events: applied followed by buffered are the candidates that came, in order; nothing is applied before a description was accepted and nothing is buffered after |
| `Trickle.PublisherTold` | pkg/client/client.go:98-136 | in every run what is received are the candidates that came, what is buffered those that came before any description, and the description and the flushes are those of the events |
| `Trickle.PublisherConserves` | pkg/client/client.go:98-136 | in every run, as multisets, applied, pending and buffered together are what was received and the whole buffer once more for every flush begun; nothing is applied before the description is set |
| `Trickle.AppliedExactlyOnce` | pkg/client/client.go:126-132 | between flushes the candidates that came were each applied exactly once if and only if one flush was begun or none came before the description |
| `Trickle.OrderPreserved` | pkg/client/client.go:126-132 | after the flush of the only join, distinct candidates were applied in the order they came if and only if none came between setting the description and the end of the flush, or none before it |
| `Trickle.OutOfOrder` | pkg/client/client.go:126-132 | a run with one join in which a candidate that slips in before the flush is applied ahead of one received earlier |
| `Trickle.AppliedTwice` | pkg/client/client.go:126-132 | a run with two joins in which a candidate is applied twice |
| `Trickle.Client.SignalOnTrickle` | pkg/client/client.go:231-247 | role 0 is the publisher and role 1 the subscriber: hands the candidate to that connection or buffers it, as an event of that side; any other role panics and changes nothing |
| `Trickle.Client.SignalOnNegotiate` | pkg/client/client.go:206-229 | on success the buffer is applied in order and emptied; a description that is refused changes nothing |
| `Trickle.Client.PubNegotiationNeeded` | pkg/client/client.go:176-199 | renegotiation sets the description again and flushes nothing |
| `Trickle.Client.Join` | pkg/client/client.go:98-136 | with trickles arriving at every point of the call: how far it gets before each error, all that came in its course received in order, the buffer flushed but not emptied, and after a first successful join everything that came applied exactly once |
| `Layout.GridFits` | pkg/client/gst/gst.c:216-234 | a grid is chosen if and only if there are at most 16 videos; it has room for all, the next smaller square has not, and it divides the canvas |
| `Layout.LayOut` | pkg/client/gst/gst.c:232-256 | for every canvas, grid and number of pads: each tile has the width and height of its cell, and the running coordinates put pad i where the closed form does |
| `Layout.PixelCovered` | pkg/client/gst/gst.c:232-256 | for every canvas and size of tiles: tile i covers a pixel of a row if and only if i is the pixel's row of tiles times the tiles to a row plus its place in it |
| `Layout.CanvasCovered` | pkg/client/gst/gst.c:232-256 | when the grid divides the canvas and every cell is filled, each pixel of the canvas lies in exactly one tile |
| `Layout.TilesDisjoint` | pkg/client/gst/gst.c:232-256 | no pixel is covered by two tiles, for every canvas and grid |
| `Layout.ColumnsToARow` | pkg/client/gst/gst.c:251-255 | a row holds exactly as many tiles as the grid has columns if and only if the columns divide the width, and never fewer |
| `Layout.TilesInside` | pkg/client/gst/gst.c:232-256 | up to rows times columns tiles lie inside the canvas if and only if the tile width divides the canvas width or one row holds them all |
| `Layout.TileSticksOut` | pkg/client/gst/gst.c:232-256 | on a canvas 11 wide in three columns the fourth tile sticks out |
| `Layout.VideosShown` | pkg/client/gst/gst.c:213-256 | up to 16 videos get the smallest square grid that holds them, and on the 1920 by 1080 canvas video i is at column i mod side and row i div side with the full size of the cell, inside the canvas |
| `Layout.OneVideoFills` | pkg/client/gst/gst.c:213-256 | one video alone covers every pixel of the 1920 by 1080 canvas |
| `Compositor.PadsAreSurvivors` | pkg/client/gst/compositor.go:52-128 | over every run, told by its ops alone and also when ids are reused: an id stands for the last bin made for it unless it ended since; the pads are exactly the video bins not removed, in the order made; callbacks are there for exactly the ids with a video added since their end |
| `Compositor.PadsAreBoundExactly` | pkg/client/gst/compositor.go:81-93 | every pad is that of a bound track if and only if no video id was bound again before it ended or ended as a track of the other kind; and then exactly the bound videos have a callback |
| `Compositor.OrphanedForever` | pkg/client/gst/compositor.go:81-81 | the pad of a video left behind in that way stays on the canvas in every continuation |
| `Compositor.VideoLeftBehind` | pkg/client/gst/compositor.go:81-81 | a video added twice under one id: the first pad is no longer that of any track |
| `Compositor.CanvasShowsVideos` | pkg/client/gst/compositor.go:52-128 | on the pipeline object: its pads are those of exactly the video bins not removed, in the order made, each in its place of the grid |
| `Compositor.CanvasTiles` | pkg/client/gst/gst.c:213-256 | on the pipeline object, in numbers: place and size of every pad on the 1920 by 1080 canvas |
| `Compositor.CanvasShowsBoundVideos` | pkg/client/gst/compositor.go:81-91 | on the pipeline object, with no video left behind: every pad is that of a bound track, and exactly the bound videos have a callback |
| `Compositor.Release` | pkg/client/gst/gst.c:197-204 | exactly the pad of the removed bin goes and the others keep their order |
| `Compositor.SupportedExactly` | pkg/client/gst/compositor.go:58-71 | the five codec names accepted, whatever the kind of track, VP9 under its real name not among them |
| `Compositor.CompositorPipeline.AddInputTrack` | pkg/client/gst/compositor.go:52-93 | bookkeeping follows the reference run and the pads show the grid for their new number; an unknown codec panics with nothing changed |
| `Compositor.CompositorPipeline.EndOfTrack` | pkg/client/gst/compositor.go:112-128 | crashes if and only if the id is not bound; otherwise bookkeeping follows the reference run, also for a bin of the other kind, and the remaining pads show the grid for their number |
| `ConfigKeys.Append` | cmd/root.go:64-67 | the result is the old contents and the new element, in the same array or a new one, and the slice appended to reads as before |
| `ConfigKeys.BindConfigEnvs` | cmd/root.go:52-71 | for every tree and every growth policy of slices exactly the root-to-leaf dotted keys are bound, in field order, and the caller's slice reads as before although the arrays are shared |
| `ConfigKeys.BindField` | cmd/root.go:58-68 | binds the keys of the paths of one field; a tagged leaf is bound under the prefix and exactly its tag |
| `ConfigKeys.PathsOfFieldCalled` | cmd/root.go:58-62 | every path of a field starts with its tag as it stands, or without one with its name letter by letter in lower case and nothing else changed, and goes on with a path of its struct |
| `ConfigKeys.SplitJoin` | cmd/root.go:67-68 | splitting a key gives its path with every name cut at its dots, so the path itself when there are none |
| `ConfigKeys.JoinSplit` | cmd/root.go:67-68 | joining what any key was split into gives the key |
| `ConfigKeys.KeysDistinctExactly` | cmd/root.go:52-71 | for every tree: all keys bound are different if and only if all root-to-leaf paths are once cut at their dots |
| `ConfigKeys.PathsNamed` | cmd/root.go:55-62 | every path starts with the name of a field of the struct and holds only dot-free names |
| `ConfigKeys.PathsDistinctExactly` | cmd/root.go:52-71 | for every tree: a path repeats if and only if somewhere two fields of one struct have the same name and are both leaves, or are both structs with a path in common |
| `ConfigKeys.KeysDistinctWithoutDots` | cmd/root.go:52-71 | with no dot in any name: all keys are different if and only if all paths are, if and only if no two fields of one struct clash in that way |
| `ConfigKeys.KeysDistinct` | cmd/root.go:52-71 | in particular, if no name holds a dot and siblings differ, all keys bound are different |
| `ConfigKeys.DottedNamesCollide` | cmd/root.go:58-68 | two leaves with different paths and the same key, because a tag holds a dot |
| `ConfigKeys.SiblingsCollide` | cmd/root.go:57-68 | two leaves of one struct whose names differ only in case share a key |

## Left out

- Etcd client internals, gRPC and clocks: etcd calls are atomic steps that succeed, fail or time out; the Put at `pkg/coordinator_etcd.go:131`, which has no deadline of its own, also succeeds or fails.
- A failed Put that etcd nevertheless applied, and an etcd lock lost while its holder is still working.
- EtcdHosting.SingleHost: the discipline is sufficient and none of its clauses can be dropped, but which undisciplined runs happen to have one host is not characterised.
- EtcdCoordinators.EtcdCoordinator.GetOrCreateSession: one call at a time on the object, with no expiry during the call; interleavings and expiry are in the transition system.
- EtcdCoordinators.EtcdCoordinator.OnSessionClosed: likewise one call at a time.
- LocalCoordinators.RunBoth: a session nobody has got through `GetSession` does not close.
- PresenceSession.Session.BroadcastAddListener: a channel registered twice or already holding messages is stored as in the source, but the reference and its results are about the new channel each join brings.
- PresenceModel.MessagesAreSnapshots: for fewer than 2^64 updates; after that the revision wraps, as the model of the update does.
- Signalling.JSONSignal.HandleJoin: the lookup's answer and the SFU's own `Join` and `Answer` are outcomes given as parameters, and replies and callbacks are not modelled; a second successful join of one connection is excluded; a join whose session id is empty leaves the handler without a session, as in the source.
- Signalling.JSONSignal.Listen: the reads of other goroutines, which change nothing for this one, are in the runs of `PeerLifecycle` only.
- Trickle.Client.Join: candidates are handled between statements, not inside the check-then-append of a handler, and two joins do not overlap.
- Layout.LayOut: coordinates are unbounded integers, without the overflow of a C `int` for very many pads; more than 16 videos leave rows and columns unset in the source and are outside `GridFor`.
- Compositor.CompositorPipeline.AddInputTrack: codec names arrive in lower case, bin creation and linking succeed, and there are at most 16 videos, beyond which the source lays out with unset rows and columns.
- ConfigKeys.BindConfigEnvs: names are lower-cased in the ASCII range only.
- The environment values and the `sysinfo` part of a presence message, and errors of the deep copy.
- HTTP and websocket serving, proxying of bytes, TLS, metrics and tokens: plumbing around the decisions modelled here.
- WebRTC, SDP, JSON and GStreamer: descriptions, candidates and metadata are opaque values.
- Command-line wiring, the drain loop of the server command and the Kubernetes address lookup: easy facts about single loops.
