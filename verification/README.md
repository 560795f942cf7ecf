# Verified models of toxera's protocol cores

A Dafny 4.11 model of the parts of toxera that are state machines and codecs, with proofs over every
input, every run or every reachable state. `dafny verify dfyconfig.toml` checks all of it.

## What is modelled

**The Tox TCP relay switchboard** (`mintox/tcp_server.go`). `Switchboard` gives the server's shared
state as one value (`Hub`: connections with their id tables, and the registry of confirmed keys) and
every handler as a step on it. `SwitchboardShapes` says what each handler changes,
`SwitchboardInvariants` what each step keeps, `SwitchboardRuns` what holds in every state of every
run, `SwitchboardSymmetry` exactly when links are symmetric, `SwitchboardDown` exactly when a link
that was taken down comes back, `SwitchboardRouting` what all that means for forwarded data.
`SwitchboardLaws` describes every step once more, by the tables and queues before and after it and not
by the handlers: who is told what under which id, where data goes, which entries change.
`SwitchboardServer` is the imperative form: `PeerConnInfo` objects shared between two maps,
connections and the server with the loops of `killAccepted`; each method is proved equal to its step
on values. A goroutine's handler is one atomic step; the scheduler may interleave steps in any order.

The central property is link symmetry: a link (status 2) on one side has its mirror image on the
other, with crossed ids, and all other entries have status 1 and no other id. It is false of the
code. `SymmetricRunsExactly` gives the exact condition over whole runs: links are symmetric in every
state if and only if no step is one of those in `Breaks`, whose guards are read off the state before
the step:

- a confirmation pushes out a holder of the same key that has a link (lines 787-792);
- a connection closes while another open one under its key has a link, or while an open connection
  that is not registered has a link to its key (lines 804-825: the key leaves the registry, and only
  registered connections are reset);
- an open connection that is not the registered one of its key asks for a peer that had asked for
  the key (lines 509-524), unless the registered one has that very link under the same id;
- a link is taken down of which another connection under one of the two keys has a copy
  (lines 541-556).

While the registry is exact (every open connection registered under its key), only the first two can
happen, and exactly as a clash with a linked holder (`BreaksWhileExact`). The registry itself stays
exact until the first clash: `GoodRunsExactly` states that registry exact and links symmetric hold
together in every state if and only if no step is a clash. A clash over a holder without links spoils
the registry and leaves links symmetric (`UnlinkedStrayClose`); from there a later request breaks them
(`LateRequestBreaks`).

A link that was taken down stays down while both ends are open, because a repeated request returns
early (lines 478-484), unless another connection under the key of one end asks for the other
(`DownRunsExactly`, in all runs). In runs without a clash that cannot happen (`DownStaysDown`); after
a stray close it can (`LinkComesBack`).

In Go a send to a connection whose channels are closed panics. No step of any run does so
(`ClosedNeverSentTo`), so the model's queues of closed connections never grow.

**Streams over rotating relayed connections** (`relayhub/socket.go`, `relayhub/relay.go`).
`RelaySender` has the byte budget, progress and the exact number of rotations. `RelayStream` and
`RelayStreamRuns` put connecting sockets, the dispatcher and accepting sockets together in one
machine with free interleaving, dial failures, broken headers, write errors, full queues and close
messages. `RelayLaws` describes writes, closes and dispatches by the bytes on the connections and not by
the counters. `RelaySocketClass` has the objects and loops. New sockets take unused ids; `generateConnID`
provides these, with a clock that never runs backwards, if and only if no three successive calls end at
one clock reading (`IdsDistinctExactly`, `NextIdStarts`).

**The bounded XOR-closest list** (`mintox/priority_list.go`, `mintox/dht.go`): `XorDistance`,
`PriorityList`, `TopK`, `PriorityListClass`.

**The Tox secure channel** (`go-tox-tcpclient`, `mintox/tcp_server.go`, `mintox/crypto_core2.go`):
`Nonce`, `Framing`, `SecureChannel`, `PacketStream`. Cryptography is a record of functions with
laws (commuting Diffie-Hellman, opening undoes sealing, a fixed tag length), shown satisfiable.

**Codecs and arithmetic**: `Varint`, `SocketIds`, `CircuitPb`, `CircuitPbRoundTrip`, `Base58`,
`PeerIds`, `NoiseStream`, `Icmp`, `NodePool`.

Dial outcomes, network errors, random draws, time stamps and hash functions are parameters. A Go
panic is a value (`Panic`, `Crash`, `None` or a false flag, as each function says).

Where code and comments disagree the code is followed: the comment at `mintox/dht.go:684-689` gives
other result codes than `IDClosest` returns (0 when the first key is closer, -1 when the second is,
1 when equal).

Other things the code does that the model keeps and the theorems show: frame lengths 65534 and
65535 overflow the 16-bit size and panic; the 128-byte handshake must arrive in the first read;
`encodePacket` accepts 2048 bytes but `ReadPacket` refuses what exceeds 2032; `replaceItem` leaves
the map with the old item; an unknown field can turn an error behind it into a panic, because the
length check adds the position; a socket id made on a retry cannot be closed by its close message; a
second `Connect` leaves the first connection open for good; a limit below the id header makes `Write` panic, a limit equal to it makes every write accept 0 bytes;
negative status values are encoded as absent; an ICMP echo body shorter than four bytes panics.

## Model

| member | source | states |
|---|---|---|
| SwitchboardInvariants.StepKeepsTables | mintox/tcp_server.go:442-557 | every step, replacements included, keeps each connection's two maps inverse views of one injective peer-to-id map, ids in 16..255, the allotted ids marked exactly, the own key absent |
| SwitchboardInvariants.StepGoodExactly | mintox/tcp_server.go:466-557 | from a state with tables in order, an exact registry and symmetric links a step leads to such a state if and only if it is neither a confirmation over a linked holder nor a stray close |
| SwitchboardInvariants.SetBothKeepsLinks | mintox/tcp_server.go:511-524 | overwriting both halves of a pair keeps that pair and all other links symmetric |
| SwitchboardInvariants.ConfirmLinksExactly | mintox/tcp_server.go:778-794 | a confirmation keeps symmetry if and only if no holder of the key with a link is pushed out |
| SwitchboardInvariants.ConfirmGoodExactly | mintox/tcp_server.go:778-794 | the same for tables, registry and links together |
| SwitchboardInvariants.CloseGoodExactly | mintox/tcp_server.go:795-825 | a close keeps tables, exact registry and symmetric links together if and only if it is not an unconfirmed connection under a registered key |
| SwitchboardInvariants.RequestKeepsGood | mintox/tcp_server.go:466-526 | a routing request keeps tables, registry and link symmetry |
| SwitchboardInvariants.DisconnectKeepsGood | mintox/tcp_server.go:537-557 | a disconnect notification keeps tables, registry and link symmetry |
| SwitchboardInvariants.DataKeepsGood | mintox/tcp_server.go:420-440 | forwarding data changes nothing but queues |
| SwitchboardRuns.TablesInEveryState | mintox/tcp_server.go:442-526 | the id tables are in order in every state of every run |
| SwitchboardRuns.GoodUntilFirstClash | mintox/tcp_server.go:466-557 | all states up to one have an exact registry and symmetric links if and only if no earlier step was a clash |
| SwitchboardRuns.GoodRunsExactly | mintox/tcp_server.go:778-825 | every state of a run has an exact registry and symmetric links if and only if no step of the run is a clash |
| SwitchboardRuns.KeptForever | mintox/tcp_server.go:442-526 | a connection keeps its key and every id it handed out, in all later states |
| SwitchboardRuns.IdsArePermanent | mintox/tcp_server.go:466-484 | in all later states a repeated request only repeats the answer with the id of the first one |
| SwitchboardRuns.ReplacementBreaksSymmetry | mintox/tcp_server.go:787-792 | a reachable state with a one-sided link after a second confirmation of one key |
| SwitchboardRuns.StrayCloseBreaksSymmetry | mintox/tcp_server.go:804-806 | a reachable state with a one-sided link after the close of an unconfirmed connection |
| SwitchboardSymmetry.ConfirmExactly | mintox/tcp_server.go:778-794 | from symmetric links, whatever the registry lacks, a confirmation keeps them symmetric if and only if the holder pushed out has no link |
| SwitchboardSymmetry.CloseExactly | mintox/tcp_server.go:795-825 | a close keeps them symmetric if and only if no other open connection under its key has a link and no unregistered one has a link to its key |
| SwitchboardSymmetry.RequestExactly | mintox/tcp_server.go:466-526 | a routing request keeps them symmetric if and only if it does not link an unregistered connection, or the registered one has that very link |
| SwitchboardSymmetry.DisconnectExactly | mintox/tcp_server.go:537-557 | a disconnect notification keeps them symmetric if and only if no other connection under one of the two keys has a copy of the link |
| SwitchboardSymmetry.StepSymmetricExactly | mintox/tcp_server.go:466-557 | while tables, the surviving half of the registry and links are in order, a step leaves links symmetric if and only if it is none of those four |
| SwitchboardSymmetry.SymmetricUntilFirstBreak | mintox/tcp_server.go:466-557 | all states up to one have symmetric links if and only if no earlier step is a break, clashes included |
| SwitchboardSymmetry.SymmetricRunsExactly | mintox/tcp_server.go:778-825 | every state of a run has symmetric links if and only if no step of the run is a break |
| SwitchboardSymmetry.BreaksWhileExact | mintox/tcp_server.go:778-825 | while the registry is exact the breaks are exactly the clashes with a linked holder |
| SwitchboardSymmetry.UnlinkedStrayClose | mintox/tcp_server.go:804-806 | a reachable state with symmetric links and a registry that is no longer exact, after a stray close over a holder without links |
| SwitchboardSymmetry.LateRequestBreaks | mintox/tcp_server.go:509-524 | from there a request, which is no clash, breaks symmetry |
| SwitchboardSymmetry.StepSparesClosed | mintox/tcp_server.go:396-417 | no step puts a packet into a queue of a connection that is closed before or after it |
| SwitchboardSymmetry.ClosedNeverSentTo | mintox/tcp_server.go:623-675 | over every run the queues of a closed connection never grow, so no send hits a closed channel |
| SwitchboardDown.DownStepExactly | mintox/tcp_server.go:478-557 | while both ends stay open, a link that is down stays down in a step if and only if the step is not a request by another connection under the key of one end for the other end |
| SwitchboardDown.DownRunsExactly | mintox/tcp_server.go:478-557 | the same over every run, clashes included |
| SwitchboardDown.DownStaysDown | mintox/tcp_server.go:478-557 | in runs without a clash a link that was taken down never comes back while both connections stay open |
| SwitchboardDown.LinkComesBack | mintox/tcp_server.go:509-524 | a reachable state, after a stray close, from which a link that was taken down comes back at one end while both are open |
| SwitchboardLaws.EveryStepObeys | mintox/tcp_server.go:240-557 | every step of every run does to every connection exactly what is said of phases, registry, entries, control packets and data: a request takes an unused id and links both ways exactly when the peer has asked; the answer is [1, own id] + key with 0 only for a refusal; both ends of a new link get [2, own id], of a dropped one [3, own id]; data on an id is appended under the receiver's id where the two have ids for each other, up to 2048 bytes and 128 packets; nothing else changes |
| SwitchboardLaws.PanicsExactly | mintox/tcp_server.go:240-290 | a step panics if and only if its packet is empty, too short for its type, or drops an unknown id |
| SwitchboardLaws.RoutesExactly | mintox/tcp_server.go:420-440 | the three lookups lead from id a of n to m and tag b if and only if n has id a for the key of m, m is registered, and m has id b for the key of n |
| SwitchboardLaws.RiseIsTold | mintox/tcp_server.go:511-524 | over every run, whoever gets a link is sent, last in the step, [2, the id of that very entry] |
| SwitchboardLaws.OwnIdsOnly | mintox/tcp_server.go:528-565 | over every run, every control packet names an id of its receiver, in the state that the packet reports |
| SwitchboardLaws.LinkedDataArrives | mintox/tcp_server.go:420-440 | in symmetric states data on a linked id is appended at the other end under the other end's id, if there is room |
| SwitchboardLaws.LinkedDropIsTold | mintox/tcp_server.go:537-565 | in symmetric states the other end of a dropped link falls back and is told under its own id |
| SwitchboardRouting.ReplyExactly | mintox/tcp_server.go:420-440 | where RoutesExactly leads, data reaches the registered connection of that peer; the reply comes back on the same id if and only if the sender is registered |
| SwitchboardRouting.RoutingIsAnInvolution | mintox/tcp_server.go:420-440 | the same in every state of every run |
| SwitchboardRouting.RepliesComeBack | mintox/tcp_server.go:420-440 | in runs without a clash replies to a confirmed sender come back on the original id |
| SwitchboardRouting.DataTouchesOneQueue | mintox/tcp_server.go:420-440 | data is appended, retagged, to at most one queue, the one RoutesExactly names, and dropped when that holds 128 packets or the packet is too long |
| SwitchboardRouting.AtMost240Peers | mintox/tcp_server.go:442-459 | a table in order has at most 240 peers and is full exactly at 240 |
| SwitchboardRouting.AtMost240PeersInEveryState | mintox/tcp_server.go:442-459 | no connection ever holds more than 240 peers |
| SwitchboardServer.SecureConn.NextConnid | mintox/tcp_server.go:449-459 | marks a free id and returns it, 0 exactly when none is free |
| SwitchboardServer.Server.SendCtrlPacket | mintox/tcp_server.go:623-648 | the new state is the step on values; that it is never reached for a closed connection is StepSparesClosed |
| SwitchboardServer.Server.SendDataPacket | mintox/tcp_server.go:651-675 | the new state is the step on values; that it is never reached for a closed connection is StepSparesClosed |
| SwitchboardServer.Server.HandleRoutingRequest | mintox/tcp_server.go:466-526 | objects shared by two maps end in the state of the request step, for the id that was picked |
| SwitchboardServer.Server.HandleDisconnectNotification | mintox/tcp_server.go:537-557 | the new state is the disconnect step; false exactly where the code panics |
| SwitchboardServer.Server.HandleRoutingData | mintox/tcp_server.go:420-440 | the new state is the data step |
| SwitchboardServer.Server.HandlePacket | mintox/tcp_server.go:256-290 | the packet switch is the dispatch step |
| SwitchboardServer.Server.ForgetAll | mintox/tcp_server.go:811-819 | the first loop resets every entry for the key and notes exactly whom to tell |
| SwitchboardServer.Server.TellAll | mintox/tcp_server.go:820-825 | the second loop tells each of them once |
| SwitchboardServer.Server.KillAcceptedOf | mintox/tcp_server.go:810-825 | both loops together are the step on values, whatever the order of the maps |
| SwitchboardServer.Server.StartHandshake | mintox/tcp_server.go:767-777 | adds a connection without key and entries |
| SwitchboardServer.Server.AdoptKey | mintox/tcp_server.go:567-598 | the connection gets its key and waits for its first packet; nothing else changes |
| SwitchboardServer.Server.ConfirmConn | mintox/tcp_server.go:244-255 | the first packet leads to the confirmation step; false exactly where the code panics |
| SwitchboardServer.Server.OnConnConfirmed | mintox/tcp_server.go:778-794 | the holder of the key is closed and replaced |
| SwitchboardServer.Server.DoClose | mintox/tcp_server.go:396-417 | the new state is the close step |
| SwitchboardServer.Server.OnConnClosed | mintox/tcp_server.go:795-808 | the registry entry of the key goes and its peers are told |
| SwitchboardServer.Server.TakeCtrl | mintox/tcp_server.go:298-332 | the write loop takes the oldest control packet off the queue, and no other change |
| SwitchboardServer.Server.TakeData | mintox/tcp_server.go:318-332 | the same for data packets |
| RelaySender.WriteKeepsBudget | relayhub/socket.go:137-188 | a write with any network outcome lets no connection exceed the limit and does not panic |
| RelaySender.BudgetInEveryState | relayhub/socket.go:116-188 | with a limit above the id header, no connection ever carries more than the limit, header included, in any run |
| RelaySender.ProgressExactly | relayhub/socket.go:148-155 | in every reachable state an error-free non-empty write accepts a byte if and only if there is no limit or it exceeds the header; it panics if and only if the limit is positive and below the header |
| RelaySender.RotationCount | relayhub/socket.go:116-188 | error-free non-empty writes of N bytes open exactly ceil(N/(L-h)) connections, rotate once less and fill all but the last, after `Connect` or without it |
| RelayLaws.WriteExactly | relayhub/socket.go:137-188 | in every reachable state, for every outcome of dialing and writing: the connection with room takes as much as the limit leaves, a full one is closed and a new one opened first; result, bytes, closing and counters |
| RelayLaws.FillsOrFinishes | relayhub/socket.go:148-155 | an error-free write accepts all its bytes or leaves a connection that carries exactly the limit |
| RelayLaws.OthersClosedExactly | relayhub/socket.go:116-188 | over every run, only the current connection is open if and only if `Connect` was never called while one was open |
| RelayLaws.CloseEnds | relayhub/socket.go:248-276 | then `Close` leaves every connection closed with its bytes, and sends at most the close message for the id |
| RelaySocketClass.SendAll | relayhub/cmd/budgeted-connect/main.go:85-101 | the sending loop ends; all data lies in order over exactly ceil(N/(L-h)) connections, none over the limit |
| RelayStream.SendGrows | relayhub/socket.go:116-188 | any sending step adds exactly the accepted bytes to the end of its socket's payload stream and never to a closed connection |
| RelayStream.OthersStream | relayhub/socket.go:116-188 | the payload streams of other sockets do not change |
| RelayStreamRuns.DispatchIs | relayhub/relay.go:390-457 | a turn of the dispatcher queues a whole connection at the socket of its id and passes over broken headers and close messages |
| RelayLaws.DispatchExactly | relayhub/relay.go:404-457 | in every reachable state: a connection that opens with an id is queued at that socket or lost when eight wait, a close message signals exactly the socket it is meant for, a broken header changes nothing |
| RelayLaws.LostExactly | relayhub/socket.go:285-291 | over every run, a socket loses a connection in a step if and only if its queue overflows or it is closed |
| RelayStreamRuns.StepKeeps | relayhub/socket.go:190-291 | every step keeps: sockets take their own connections in opening order, each to its end before the next one |
| RelayStreamRuns.NetOkInEveryState | relayhub/socket.go:116-291 | that invariant in every state of every run |
| RelayStreamRuns.ReadsArePrefixOfWrites | relayhub/socket.go:190-235 | for every interleaving, while no connection of an id was lost, the bytes read are a prefix of the bytes accepted, and all of them once everything was dispatched and read to the end |
| RelayStreamRuns.ReadsAreWholePayloads | relayhub/socket.go:285-291 | with drops, the bytes read are complete payloads of some own connections in opening order and a prefix of the current one |
| RelayStreamRuns.NextIdStarts | relayhub/socket.go:18-31 | in every run whose sockets took their ids from successive calls, the next call's id is unused if and only if it differs from those, and always when no three calls end at one clock reading |
| RelayStreamRuns.TruncatedUnread | relayhub/relay.go:925-936 | a header that broke off is never taken for an id |
| RelaySocketClass.RelaySocket.Connect | relayhub/socket.go:116-135 | fields and connections end as the step on values says |
| RelaySocketClass.RelaySocket.Write | relayhub/socket.go:137-164 | fields, connections and result end as the step on values says |
| RelaySocketClass.RelaySocket.RotateWrite | relayhub/socket.go:166-188 | a failed dial leaves `cur` on the closed connection |
| RelaySocketClass.RelaySocket.Close | relayhub/socket.go:248-276 | fields and connections end as the step on values says |
| RelaySocketClass.RelaySocket.AcceptNext | relayhub/socket.go:219-235 | takes the head of the queue or the close signal, either when both are ready |
| RelaySocketClass.RelaySocket.Read | relayhub/socket.go:190-217 | the loop ends; it returns exactly the next unread bytes, as many as buffer and network read allow or all that has arrived, keeps the queue order and the socket invariant, and returns nothing only when closed, signalled or when nothing has arrived |
| RelaySocketClass.RelaySocket.DispatchIncoming | relayhub/socket.go:285-291 | queues behind the others, or drops when eight wait |
| RelaySocketClass.RelayClient.DispatchTurn | relayhub/relay.go:390-457 | socket table and queues end as the dispatch step says |
| SocketIds.PbRoundTrip | relayhub/relay.go:925-936 | a message of up to 4096 bytes comes back whole and the bytes after it are untouched, a longer one is refused |
| SocketIds.ConnIdRoutes | relayhub/relay.go:415-440 | every generated id is routed to its own socket |
| SocketIds.PaddedIdRoutes | relayhub/relay.go:415-418 | white space behind an id does not matter |
| SocketIds.CloseRoutesExactly | relayhub/socket.go:18-31 | a close message reaches its socket if and only if the id is not of the retry form |
| SocketIds.IdSource.GenerateConnID | relayhub/socket.go:18-31 | the retry loop ends and the id differs from the last one |
| SocketIds.ThirdRepeats | relayhub/socket.go:18-31 | three successive calls at one clock reading: the third returns the id of the first |
| SocketIds.IdsDistinctExactly | relayhub/socket.go:18-31 | with a clock that never runs backwards the ids of any number of calls are pairwise distinct if and only if no three successive calls end at one reading |
| XorDistance.IDDistance | mintox/dht.go:708-715 | the byte loop computes the exclusive or |
| XorDistance.IDClosest | mintox/dht.go:690-705 | returns 0, 1 or -1 exactly as the 256-bit distance of the first key is less than, equal to or greater than that of the second |
| XorDistance.XorIsBitwise | mintox/dht.go:708-715 | each bit of the result is set if and only if the two bits differ |
| XorDistance.DistanceIsBitwise | mintox/dht.go:690-715 | bit i of the 256-bit distance is set if and only if bit i of the two keys differs |
| XorDistance.DistanceIsAMetric | mintox/dht.go:690-715 | 0 exactly between equal keys, symmetric, triangle inequality |
| XorDistance.SelfIsClosest | mintox/dht.go:690-705 | nothing is closer to a key than itself |
| XorDistance.DistanceInjective | mintox/dht.go:690-715 | equal distance from one reference forces equal keys |
| XorDistance.ClosestIsAStrictTotalOrder | mintox/dht.go:690-705 | closeness is irreflexive, transitive and total on distinct keys |
| PriorityList.AgeNeverMatters | mintox/dht.go:111-121 | the tie-break by age is never reached for distinct keys |
| PriorityList.ConsistentLengths | mintox/priority_list.go:37-75 | slice and map have one length, so the check in `Put` cannot panic |
| PriorityList.PutKeeps | mintox/priority_list.go:37-83 | `Put` keeps the list duplicate-free, bounded and equal in keys to the map |
| PriorityList.RemoveKeeps | mintox/priority_list.go:130-148 | `Remove` keeps that and takes out exactly the one key |
| PriorityList.HistoryConsistent | mintox/priority_list.go:37-148 | that holds across any history of puts and removes |
| PriorityList.HistorySorted | mintox/priority_list.go:37-148 | with one reference key the list is always strictly increasing in distance |
| TopK.OfflineSorts | mintox/priority_list.go:37-75 | the unbounded list is the sorted enumeration of everything put |
| TopK.OnlineIsPrefixOfOffline | mintox/priority_list.go:37-75 | truncating at each put gives the prefix of sorting everything |
| TopK.OnlineEqualsOffline | mintox/priority_list.go:37-83 | after any puts, in any order and with repeats, the keys are exactly the `max` closest distinct keys ever put, increasing in distance |
| TopK.OrderDoesNotMatter | mintox/priority_list.go:37-83 | two histories with the same set of keys end in the same keys |
| PriorityListClass.PriorityList.Put | mintox/priority_list.go:37-75 | slice and map end as the function on values says |
| PriorityListClass.PriorityList.ReplaceItem | mintox/priority_list.go:76-83 | only the slice entry of the key changes |
| PriorityListClass.PriorityList.Remove | mintox/priority_list.go:130-148 | slice and map end as the function on values says |
| PriorityListClass.PriorityList.SelectRandn | mintox/priority_list.go:190-215 | for all draws, min(k, length) items at pairwise distinct positions of the list |
| PriorityListClass.MapHoldsLatestExactly | mintox/priority_list.go:76-83 | after a put the map holds the new item if and only if the key was new or the item the same |
| PriorityListClass.MapHoldsFirstListHoldsLast | mintox/priority_list.go:37-148 | after any history, for each key in the list, the map holds the item of the first put since the key was last absent and the slice the item of the last put |
| Nonce.IncrAddsOne | go-tox-tcpclient/crypto.go:44-51 | the successor is value plus one modulo 256 to the width |
| Nonce.IncrNonce | go-tox-tcpclient/crypto.go:44-51 | the early-exit loop computes the successor in place |
| Nonce.Incr2le | mintox/crypto_core2.go:53-61 | the full carry loop computes the same successor in place |
| Nonce.Incrn2 | mintox/crypto_core2.go:72-76 | applies it n times |
| Nonce.IncrNAdds | mintox/crypto_core2.go:72-76 | n increments add n modulo 256 to the width |
| Nonce.NoncesDoNotRepeat | mintox/crypto_core2.go:52-76 | no value comes back within 2^192 increments |
| Framing.ParseSplits | mintox/tcp_server.go:205-238 | parsing may stop anywhere and go on from the residue |
| Framing.ParseIsUnstamping | mintox/tcp_server.go:205-238 | parsing yields packets and a rest if and only if the stream is these packets behind their big-endian lengths, each up to 65533 bytes, followed by an incomplete rest |
| Framing.ParseCrashesExactly | mintox/tcp_server.go:205-238 | behind good packets it panics if and only if the next one has 65534 or 65535 bytes or what follows it panics |
| Framing.FrameReader.Feed | mintox/tcp_server.go:205-238 | a chunk is parsed exactly as if glued to the residue, although 0 doubles as "no header yet" |
| Framing.FrameReader.DoReadPacket | mintox/tcp_server.go:205-238 | the loop ends with the packets and the residue of parsing the whole buffer, or panics exactly on lengths above 65533 |
| Framing.FeedsIsParse | mintox/tcp_server.go:165-238 | feeding chunks one by one equals parsing their concatenation |
| Framing.FragmentationIndependence | mintox/tcp_server.go:165-238 | two ways of cutting one stream give the same packets and residue |
| Framing.RunReadLoop | mintox/tcp_server.go:165-238 | the loop over the chunks emits the handshake and the packets of the rest of the stream |
| SecureChannel.HandshakeState.GenerateClientPacket | go-tox-tcpclient/handshake.go:46-71 | the packet layout, field by field |
| SecureChannel.HandshakeState.HandleServerResponse | go-tox-tcpclient/handshake.go:73-101 | the session key and server nonce, or an error, as the function of the reply says |
| SecureChannel.ServerConn.HandleHandshake | mintox/tcp_server.go:567-598 | session fields and reply as the function of the hello says |
| SecureChannel.HandshakeLayout | go-tox-tcpclient/handshake.go:46-71 | the 128 bytes of the client and the 96 bytes of the server, and what opens of them under which nonce |
| SecureChannel.HandshakeAgrees | go-tox-tcpclient/handshake.go:36-101 | for all keys and draws both ends succeed with the key of the two temporary keys as session key and crossed equal nonces |
| PacketStream.EncodePacket | go-tox-tcpclient/packet.go:29-39 | refuses long packets, otherwise frames under the nonce and advances it |
| PacketStream.DecodePacket | go-tox-tcpclient/packet.go:41-51 | a frame that fails to open leaves the nonce unchanged |
| PacketStream.Unpacket | mintox/tcp_server.go:718-724 | the server's nonce advances in any case |
| PacketStream.RunWriteLoop | go-tox-tcpclient/tcpclient.go:280-312 | the bytes written for any queue, and the nonce after |
| PacketStream.RunReadLoopOfClient | go-tox-tcpclient/tcpclient.go:314-339 | the packets delivered from any byte stream, and the nonce after |
| PacketStream.WriterNonce | go-tox-tcpclient/packet.go:29-39 | the nonce has advanced by the number of accepted packets |
| PacketStream.AcceptedExactly | go-tox-tcpclient/packet.go:29-39 | exactly the packets of up to 2048 bytes are accepted |
| PacketStream.ClientToServer | mintox/tcp_server.go:718-724 | however the stream is cut, the server unpacks exactly the accepted packets in order and ends on the client's nonce |
| PacketStream.ChannelAgreement | go-tox-tcpclient/handshake.go:36-101 | handshake and traffic together: the client's packets arrive under the agreed key, nonces equal after each |
| PacketStream.ServerToClient | go-tox-tcpclient/packet.go:62-76 | the client receives exactly the packets before the first one longer than 2032 bytes |
| PacketStream.AllArriveExactly | go-tox-tcpclient/packet.go:62-76 | everything arrives if and only if no packet is longer than 2032 bytes |
| PacketStream.JunkIsHarmless | go-tox-tcpclient/tcpclient.go:314-339 | frames that fail to open in between do not disturb the genuine ones |
| Varint.DecodeEncode | relayhub/varint.go:8-20 | every 64-bit value decodes from its encoding, whatever follows |
| Varint.EncodeIs | relayhub/varint.go:8-12 | groups of seven bits, lowest first, all but the last marked, none idle at the end |
| Varint.DecodeExactly | relayhub/varint.go:14-16 | a value and length come out if and only if a varint of that value, of at most ten groups and 64 bits, stands in front |
| Varint.ProtoVarint | fedkey/keyring.go:727-734 | the hand-written loop yields the same bytes |
| CircuitPb.TokensOfFields | relayhub/circuitpb.go:67-93 | encoded fields are read back as themselves, and the bytes behind them from their end on |
| CircuitPbRoundTrip.PeerRoundTrip | relayhub/circuitpb.go:256-292 | nil and empty ids, and repeated addresses, come back |
| CircuitPbRoundTrip.ReservationRoundTrip | relayhub/circuitpb.go:294-338 | every reservation comes back |
| CircuitPbRoundTrip.LimitRoundTrip | relayhub/circuitpb.go:340-376 | every limit comes back |
| CircuitPbRoundTrip.HopRoundTrip | relayhub/circuitpb.go:378-454 | a Hop message decodes from its encoding to itself if and only if its status is not negative; otherwise the status becomes 0 |
| CircuitPbRoundTrip.StopRoundTrip | relayhub/circuitpb.go:456-519 | the same for Stop messages |
| CircuitPbRoundTrip.V1RoundTrip | relayhub/circuitv1.go:33-113 | the same for V1 messages and their code |
| CircuitPbRoundTrip.NestedBytes | relayhub/circuitpb.go:96-136 | tag bytes and order of the fields of peer, reservation and limit |
| CircuitPbRoundTrip.HopBytes | relayhub/circuitpb.go:138-157 | tag bytes and order of the fields of a Hop message |
| CircuitPbRoundTrip.StopBytes | relayhub/circuitpb.go:159-174 | tag bytes and order of the fields of a Stop message |
| CircuitPbRoundTrip.V1Bytes | relayhub/circuitv1.go:33-48 | tag bytes and order of the fields of a V1 message |
| CircuitPbRoundTrip.HopMerges | relayhub/circuitpb.go:378-454 | of two Hop messages in one, each field has its last value, and a nested message replaces the one before |
| CircuitPbRoundTrip.StopMerges | relayhub/circuitpb.go:456-519 | the same for Stop messages |
| CircuitPbRoundTrip.V1Merges | relayhub/circuitv1.go:50-113 | the same for V1 messages |
| CircuitPbRoundTrip.HopRefusesTypes | relayhub/circuitpb.go:386-443 | behind any fields that decode and before any bytes, a known field of the other wire type makes decoding fail |
| CircuitPbRoundTrip.StopRefusesTypes | relayhub/circuitpb.go:464-508 | the same for Stop messages |
| CircuitPbRoundTrip.V1RefusesTypes | relayhub/circuitv1.go:57-102 | the same for V1 messages |
| CircuitPbRoundTrip.HopWithUnknown | relayhub/circuitpb.go:378-454 | a Hop message with well-formed unknown fields at any field boundaries decodes to itself, a negative status to 0 |
| CircuitPbRoundTrip.StopWithUnknown | relayhub/circuitpb.go:456-519 | the same for Stop messages |
| CircuitPbRoundTrip.V1WithUnknown | relayhub/circuitv1.go:33-113 | the same for V1 messages and their code |
| CircuitPbRoundTrip.UnknownExactly | relayhub/circuitpb.go:229-241 | the same for every decoder that ignores the field, with the token at which the readings with and without it part |
| CircuitPbRoundTrip.UnknownFieldCanPanic | relayhub/circuitpb.go:229-241 | bytes that decode as an empty Hop message, and panic behind an unknown field |
| CircuitPbRoundTrip.HopUnknown | relayhub/circuitpb.go:444-451 | behind well-formed fields and before any bytes, a well-formed unknown field changes nothing if and only if no length in those bytes passes 2^63 only at the later position, or decoding stops before the first such length, or that is in a field read as a varint, or decoding panics without the field as well |
| CircuitPbRoundTrip.StopUnknown | relayhub/circuitpb.go:509-516 | the same for Stop messages |
| CircuitPbRoundTrip.V1Unknown | relayhub/circuitv1.go:103-110 | the same for V1 messages |
| CircuitPbRoundTrip.PbDecoder.ReadVarint | relayhub/circuitpb.go:220-227 | the position moves over the varint, or stays when there is none |
| CircuitPbRoundTrip.PbDecoder.ReadBytes | relayhub/circuitpb.go:229-241 | bytes, error or panic, and where the position is left |
| CircuitPbRoundTrip.PbDecoder.DecodeTag | relayhub/circuitpb.go:243-254 | field number and wire type; the position strictly advances |
| CircuitPbRoundTrip.DecodeMessage | relayhub/circuitpb.go:378-454 | the decoding loop ends within bounds and computes the fold of the message's tokens |
| CircuitPbRoundTrip.DecodeHopMessage | relayhub/circuitpb.go:378-454 | the loop computes the decoding that the round trip, merge and unknown-field theorems are about |
| CircuitPbRoundTrip.DecodeStopMessage | relayhub/circuitpb.go:456-519 | the same for Stop messages |
| CircuitPbRoundTrip.DecodeCircuitV1 | relayhub/circuitv1.go:50-113 | the same for V1 messages |
| Base58.RecodeBack | relayhub/base58.go:21-69 | changing the base and back is the identity, leading zeros included |
| Base58.BytesBack | relayhub/base58.go:44-69 | every non-empty byte string comes back from its string |
| Base58.StringsBack | relayhub/base58.go:44-69 | exactly the non-empty alphabet strings decode, each to the bytes it encodes |
| Base58.Base58Means | relayhub/base58.go:21-42 | in the digits of the alphabet, highest first, the string is the number that the bytes are, with as many leading ones as leading zero bytes |
| Base58.Base58Encode | relayhub/base58.go:21-42 | the division, padding and in-place reversal loops compute the base58 string |
| Base58.KeyringBase58Encode | fedkey/keyring.go:382-402 | the second encoder computes the same string |
| Base58.DecodeTable | relayhub/base58.go:10-19 | the table is the inverse of the alphabet |
| Base58.Base58Decode | relayhub/base58.go:44-69 | the decoding loops compute the inverse, with its error cases |
| PeerIds.ParseRecovers | fedkey/keyring.go:779-785 | `ParsePeerID` recovers exactly the multihash bytes behind every peer id |
| PeerIds.PeerIdBytes | fedkey/keyring.go:779-785 | the bytes behind every peer id: [0, length] and the marshalled key of up to 42 bytes, or [0x12, 32] and its digest |
| PeerIds.PeerIdsEqualExactly | fedkey/keyring.go:779-785 | two keys have one id if and only if they are equal or both are hashed to one digest |
| PeerIds.WholeKeysDiffer | fedkey/keyring.go:779-782 | equal ids of keys kept whole come from equal keys |
| NoiseStream.NoiseDirection.Write | relayhub/noise.go:53-77 | all bytes are framed; delivered bytes, leftover and frames in flight stay equal to the bytes written |
| NoiseStream.NoiseDirection.WriteFrame | relayhub/noise.go:61-72 | every frame length fits 16 bits |
| NoiseStream.FrameBytes | relayhub/noise.go:61-72 | the length of the sealed chunk, high byte first, then the sealed chunk |
| NoiseStream.ChunksAreFull | relayhub/noise.go:53-61 | every chunk but the last has 65519 bytes, and the last is not empty |
| NoiseStream.NoiseDirection.Read | relayhub/noise.go:23-51 | for every buffer size the same conservation; it hands out as much of the leftover or of the next frame as fits, and waits only when everything written was delivered |
| Icmp.ChecksumHolds | xtox/pings.go:104-132 | the one's complement sum of every marshalled message of up to 65535 bytes, odd lengths included, is 0xffff (section 1 of RFC 1071), for all types but 128 and 129 |
| Icmp.OnesSumIsModular | xtox/pings.go:117-126 | the little-endian sum of the code and the network-order one's complement sum agree modulo 65535 |
| Icmp.MarshalLayout | xtox/pings.go:104-177 | every byte of a message, numbers in network order; the checksum stays 0 for types 128 and 129 |
| Icmp.ParseExactly | xtox/pings.go:135-187 | for any bytes: too short below 4, panic on an echo body below 4, otherwise the header fields, and a body exactly for types 0, 8, 128 and 129 |
| Icmp.EchoRoundTrip | xtox/pings.go:135-187 | an echo of type 0, 8, 128 or 129 comes back if and only if ID and Seq fit 16 bits |
| Icmp.MarshalMessage | xtox/pings.go:104-132 | the 32-bit summing loop and the exclusive-or in place compute the marshalled message |
| NodePool.PickExactly | bsdata/bootstrap_data.go:213-219 | a draw chooses a node if and only if it lies in that node's interval of weights |
| NodePool.Proportional | bsdata/bootstrap_data.go:206-221 | each node is chosen by exactly its weight many of the possible draws |
| NodePool.FallbackUnreachable | bsdata/bootstrap_data.go:214-220 | a draw falls through the loop if and only if it is not below the total |
| NodePool.WeightBounded | bsdata/bootstrap_data.go:154-160 | no check gives a weight above the base |
| NodePool.WeightIs | bsdata/bootstrap_data.go:154-160 | the weight is 10000 over latency in milliseconds plus 100, and a tenth of that for a node that is down |
| NodePool.Pool.constructor | bsdata/bootstrap_data.go:125-136 | all weights start at the base |
| NodePool.Pool.UpdateWeight | bsdata/bootstrap_data.go:146-164 | liveness, latency and weight of one node change, all weights stay between 1 and the base |
| NodePool.Pool.Select | bsdata/bootstrap_data.go:206-221 | the loops choose the node of the draw; the fallback is never reached |

## Left out

- The switchboard's handshake table, ping and timeout loops, and logging; a connection's life starts at `startHandshake` and ends at a close step.
- Memory races between goroutines and the aliasing of Go slices: each handler is one atomic step on its own values.
- Cryptographic primitives, key derivation and hash functions: abstract functions with laws.
- Slots, callbacks and pings of the client's packet dispatch in `go-tox-tcpclient`.
- Uniformity of the sample in `SelectRandn`, and `onion_announce.go`, whose order depends on the clock.
- The relay's own protocol exchange in `ConnectThroughRelay` and `handleIncoming`: a dial succeeds, fails, or fails while sending the id, and connections are accepted in the order they were opened.
- Cancellation of the dispatch loop while it waits for `Accept`, and resets of a connection by its reader.
- RelayStreamRuns.ReadsArePrefixOfWrites: new socket ids are unused ones; exactly when `generateConnID` provides them is NextIdStarts and IdsDistinctExactly.
- How long the sleep of `generateConnID` lasts: the clock reading after it is a parameter.
- CircuitPbRoundTrip.DecodeMessage: one loop stands for the equal loops of the six decoders, with each decoder's switch as a parameter, and reads a value of known wire type before the switch rejects it, which no caller can observe.
- NoiseStream.NoiseDirection.Read: network and cipher errors are not modelled; a frame is on the network as a whole.
- NodePool.Pool.UpdateWeight: floating point is modelled by real numbers, and latencies are not negative.
- NodePool.WeightBounded: floating point is modelled by real numbers.
- Icmp.ChecksumHolds: IP header handling and sockets are left out, and messages over 65535 bytes, where the 32-bit sum may wrap.
- Wrappers of libtoxcore, bots, tunnels, command-line programs, bimap, multistream and the other short helpers: they would add only easy members.
