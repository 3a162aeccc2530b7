# A verified model of the libbitcoin network stack

This project models the event-driven core of a Bitcoin peer-to-peer network library and proves what
every interleaving of its callbacks keeps. Every claim is about all inputs, all runs or all reachable
states of the model.

`dafny verify dfyconfig.toml` checks the whole project.

## How it is modelled

The protocols and sessions are continuation-passing code: handlers of one object run on different
threads and are queued, raced and dropped. They are modelled as state machines. A state is a value, an
event is one atomic step of one thread, and a run is any sequence of enabled steps. Calls of
`protocol_events::set_event` are split into load, check-and-clear and invoke, as the code runs them.
The host pool and the proxy's read cycle work in place under one lock or on one thread; they are classes
with loops, proved against recursive specifications.

| file | models |
|---|---|
| Codes, Counting | result codes; counting elements of a sequence |
| Synchronizer | the join behind every multi-event sequence, against a counter-free specification |
| Events | one protocol's event handler and join under interleaved `set_event` calls |
| Version, Handshake | version checks; one end of the handshake with its timer, rejects, stops and handoff |
| Agreement, Completeness | two ends over FIFO queues; the exact conditions under which handshakes succeed |
| HandshakeCauses | why a handshake ends as it does, and what it says on the wire |
| Progress | every handshake ends |
| Registration, Network | one channel's registration; all channels, connection slots and collections |
| Outcomes | why a registration ends as it does |
| Closures | every registration ends and every closure it owes is invoked |
| Connecting, Batching | connect batches and connectors; the refinement of the detailed network into the slot machine |
| Pool, HostPool | host pool specification; the `hosts` class |
| Framing, Proxying | meaning of a byte stream; the read cycle of the `proxy` class |
| SeedProtocol, Seeding | the seed protocol; the seed session over all seeds |
| SeedCauses | why a seed protocol ends as it does |
| SeedProgress | every seed protocol and every seeding ends |
| Ping, Manual | the ping protocol; one manual connect call with its retries and reconnects |

Base library classes that are not in the repository are modelled from their use: the
synchronizer (fires once, on its terminating code or on the n-th call), the subscribers (one-shot, or
kept while the handler returns true; closed by a stop), the pending collections (atomic match and
insert) and the circular buffer (drops its oldest element when full). Service words are sets of bits.
The protocol levels of the message library, message bodies, headings, checksums, address validity and
authority text are parameters. Random draws, stream states and every answer of the operating system are
parameters or free choices of an event.

Where the code and its documentation disagree the model follows the code: the header of the host pool
says that duplicates are discarded (include/bitcoin/network/hosts.hpp:38), but loading does not discard
them; `Pool.LoadKeepsDuplicates` shows it and `Pool.LoadedDistinct` says exactly when a loaded pool has
none. A comment says that a failed manual start preserves the caller's handler
(src/sessions/session_manual.cpp:152), but the code drops it; `Manual.HandlerDropped` shows it.

Four further expectations fail in some run, and each comes with its exact condition:

- a connection to self is not always caught: `Network.LoopbackMissed`, `Network.LoopbackRefused`;
- a ping can be sent before the last one was answered, in two ways: `Ping.OverlapBreaks`,
  `Ping.WrongPongBreaks`, `Ping.DisciplineIff`;
- a message can be delivered after a stop: `Proxying.LatePlan`, `Proxying.Proxy.Run`;
- a small pool never seeds successfully: `Seeding.SmallPoolThrottled`, `Seeding.StartVerdict`.

## Model

| member | source | states |
|---|---|---|
| `Agreement.Agreement` | src/protocols/protocol_version_31402.cpp:74-237 | In every run of two nodes over FIFO queues, from the moment either end has succeeded, each end has accepted a version message with the other's configured maximum, services and nonce, and both hold the same negotiated version, the smaller of the two maxima, for the rest of the run |
| `Agreement.StepKeepsSystemInv` | src/protocols/protocol_version_31402.cpp:116-237 | Every step of either node keeps that all messages in flight are genuine and that what each end knows of the other is true; completions and accepted peers are never taken back |
| `Agreement.SuccessMeansBothAccepted` | src/protocols/protocol_version_31402.cpp:175-187 | A success at one end means both ends have accepted a version: a verack is only sent for an accepted version |
| `Completeness.ConnectsIffMutual` | src/protocols/protocol_version_31402.cpp:89-217 | Some run of two nodes succeeds at one end or the other iff each suits the other by their configurations alone: levels in order, the other's maximum at least one's own minimum, no invalid service offered, and network (and witness if offered) served to an outbound session |
| `Completeness.SuitsIffAccepted` | src/protocols/protocol_version_31402.cpp:89-217 | A node accepts the version message another sends iff the other's configuration suits it |
| `Completeness.BothCanSucceed` | src/protocols/protocol_version_31402.cpp:74-237 | Two nodes that accept each other have a run in which both succeed |
| `Completeness.SucceedsIffAcceptable` | src/protocols/protocol_version_31402.cpp:116-217 | Against a free peer, some run succeeds with a given version message iff the message is acceptable under the session's parameters |
| `Completeness.CanSucceed` | src/protocols/protocol_version_31402.cpp:183-236 | Such a run exists for the version before the verack and for the verack before the version |
| `Handshake.HandshakeSafety` | src/protocols/protocol_version_31402.cpp:74-237 | In every run at most one completion; success only for one acceptable version and one verack counted before any failure; a success, its peer and its negotiated version hold ever after, whatever timeouts, rejects and stops follow |
| `Handshake.SuccessIsEarned` | src/protocols/protocol_events.cpp:91-104 | The handler completes with success iff the first two calls the join received are the one accepted version and the one verack, in either order |
| `Handshake.StepKeepsInv` | src/protocols/protocol_version_70002.cpp:70-161 | Every step of every thread keeps the node invariant: one call per event source, start order, earned successes, checked peer, reader ownership, handoff and heard frames |
| `Handshake.StepLive` | src/protocols/protocol_timer.cpp:46-90 | Only a live event source enters set_event, entering ends its life, and no step revives one |
| `Handshake.CompletionIsFinal` | src/protocols/protocol_events.cpp:91-104 | Between any two moments of a run, completions and an accepted peer with its negotiated version persist |
| `HandshakeCauses.CompletionCause` | src/protocols/protocol_version_70002.cpp:117-161 | In every run a handshake completes with success, a timeout or as stopped; a timeout goes back to the timer, stopped to an unacceptable version, to a reject of our version as obsolete or duplicate, or to closed subscribers, success to an acceptable version and a verack |
| `HandshakeCauses.EveryCallHasCause` | src/protocols/protocol_events.cpp:75-104 | Every call of set_event in every run has its cause, with its code, earlier in the run |
| `HandshakeCauses.StepCause` | src/protocols/protocol_version_31402.cpp:116-237 | A step adds a call of set_event exactly if it is the cause of it and the source still listens |
| `HandshakeCauses.FailureAftermath` | src/protocols/protocol_timer.cpp:55-61 | In every run a handshake without success, and a failed store, has stopped the channel; a counted stop has ended the timer; rejects count only from the reject level on |
| `HandshakeCauses.StaysSubscribed` | src/protocols/protocol_version_70002.cpp:117-161 | In every run a started node stays subscribed for each source until exactly the step that uses it up, declines it or ends it; a reject that does not refuse our version leaves the subscription in place |
| `HandshakeCauses.RejectsRelayed` | src/message_subscriber.cpp:141 | In every run the rejects read are, in order, those handled followed by those still to be handled |
| `HandshakeCauses.NoLateCalls` | src/protocols/protocol_events.cpp:91-100 | Once a stop has cleared the handler, a call that has not loaded it never reaches the join |
| `HandshakeCauses.ClosedTooEarly` | src/proxy.cpp:313-325 | A channel closed before its node subscribed for the version never accepts a peer and never succeeds |
| `HandshakeCauses.ClosedCause` | src/proxy.cpp:319-325 | In every run the subscribers are closed iff the stop has closed them |
| `HandshakeCauses.WireContents` | src/protocols/protocol_version_31402.cpp:84-111 | In every run a node says nothing before its version message, which carries the configured maximum, services and nonce, and at most one message after it: a verack iff it accepted its peer, or a reject of an obsolete version |
| `HandshakeCauses.VersionAnswer` | src/protocols/protocol_version_70002.cpp:89-115 | The answer to a version: a verack iff acceptable; else, from the reject level on and if configured, a reject iff the version is too old or required services are missing; else nothing |
| `Progress.EndsWithinBound` | src/protocols/protocol_timer.cpp:46-90 | In every run a node takes at most 23 steps of its own, and as long as its handshake has not completed one of them is due: no fair run leaves the completion handler uncalled |
| `Progress.AlwaysEnds` | src/protocols/protocol_events.cpp:91-104 | From every moment of every run the node's own steps alone, with no message from the peer, lead to exactly one call of the completion handler |
| `Progress.StepKeepsEnding` | src/protocols/protocol_timer.cpp:55-85 | Every step keeps that, before the completion, a cleared handler or a spent timer has left behind a failing call that will reach the join |
| `Progress.StepWorks` | src/protocols/protocol_events.cpp:91-104 | A step of the node's own uses up a bounded amount of work and no step of any thread or peer adds to it |
| `Handshake.NoMessageLost` | src/proxy.cpp:101-109 | In every run the first version, the first verack and, after the channel is stored, every application frame is heard unless the subscribers had been closed |
| `Handshake.AttachedBeforeRead` | src/sessions/session.cpp:233-275 | In every run a frame read after a successful handshake is read only once the channel has been stored and, if that succeeded, the post-handshake protocols are subscribed, unless the subscribers have been closed |
| `Events.InvokeInv` | src/protocols/protocol_events.cpp:91-104 | Invoking a loaded handler keeps that the completions are the join's run over the calls in invocation order, however calls interleaved before |
| `Events.Completion` | src/protocols/protocol_events.cpp:91-104 | At most one completion, success iff the first `need` invoked calls succeeded |
| `Events.FiresOwnCode` | src/protocols/protocol_timer.cpp:55-61 | The call that completes the join completes it with its own code, and nothing completed before |
| `Synchronizer.JoinMeetsSpec` | src/connector.cpp:154-156 | The counting join and the counter-free specification agree on whether, when and with what code the handler runs |
| `Synchronizer.FiresAtMostOnce` | src/connector.cpp:154-156 | The handler runs at most once for any calls in any order and any mode |
| `Synchronizer.FiredIsFinal` | src/connector.cpp:154-156 | Later calls neither fire again nor change what was reported |
| `Synchronizer.OnErrorSuccess` | src/protocols/protocol_version_31402.cpp:78-79 | An error-terminated join reports success iff its first n calls all succeed |
| `Synchronizer.OnSuccessVerdict` | src/sessions/session_batch.cpp:49-53 | A success-terminated join given all its calls reports once, success iff some call succeeded |
| `Synchronizer.OnCountVerdict` | src/sessions/session_seed.cpp:127-128 | A counting join reports exactly when it has had all its calls, whatever their codes |
| `Version.AcceptedPeer` | src/protocols/protocol_version_31402.cpp:138-217 | For every session's parameters: configured and sufficient iff minimum <= negotiated <= maximum within the library levels, negotiated <= the peer's version, no invalid service bit, and network (and witness if offered) served to outbound sessions |
| `Version.RejectOnlyRefused` | src/protocols/protocol_version_70002.cpp:89-115 | The 70002 class gives the 31402 verdict; it sends a reject only to a refused peer, and withholds it iff invalid services are the only ground |
| `Network.SlotConservation` | src/sessions/session_outbound.cpp:72-109 | In every run, until the sessions stop, cycles waiting, delayed, connecting, registering or open total exactly outbound_connections; the total never grows; open outbound channels never exceed outbound_connections |
| `Network.SlotsNeverGrow` | src/sessions/session_outbound.cpp:82-92 | Between any two moments of a run, before or after the stop, the number of slots does not grow |
| `Network.StepKeepsSlots` | src/sessions/session_outbound.cpp:94-207 | No step of the outbound session, a batch, a channel or the collections creates a slot, and before the stop none is lost |
| `Network.StepKeepsWorldInv` | src/p2p.cpp:445-503 | Every step keeps each channel's registration invariant, distinct open authorities, the loopback fact and slot conservation |
| `Network.EveryChannelMeetsContract` | src/sessions/session.cpp:181-282 | In every run every channel of every session meets the registration contract |
| `Outcomes.RegistrationCause` | src/sessions/session.cpp:181-275 | In every run a channel has a result iff some step decided it: stopped session or pended set, the handshake's own failure, a loopback, or the open set's answer |
| `Outcomes.StepDecides` | src/p2p.cpp:483-498 | A result is never changed and becomes known exactly in such a step; the open set answers stopped iff closed, in use iff an open channel has the same authority, else success |
| `Outcomes.HandlersCause` | src/sessions/session.cpp:256-275 | The code handle_started is given is one that some step of the run decided |
| `Outcomes.FlagsCause` | src/sessions/session.cpp:181-193 | In every run the flags that refuse a channel are up iff the stop that raises them has happened |
| `Network.Admission` | src/p2p.cpp:483-498 | In every run open channels have pairwise distinct authorities, and an open inbound half of a connection to self has an outbound half that left pending_handshake |
| `Network.LoopbackRefused` | src/sessions/session_inbound.cpp:203-216 | In every run an inbound channel whose handshake succeeds with our own outbound channel at the other end is refused iff some channel pended at that moment has that nonce, so whenever the outbound half is still pended; a refused channel is never open afterwards, any other goes on to be stored |
| `Network.FailedForGood` | src/sessions/session.cpp:256-275 | A channel whose registration failed stays failed and is never open for the rest of the run |
| `Network.LoopbackMissed` | src/sessions/session_outbound.cpp:185-207 | A run from the start in which both halves of a connection to self are handshaking, the outbound half completes and is unpended first, and both end up open |
| `Registration.RegistrationContract` | src/sessions/session.cpp:249-282 | A channel whose registration ended got exactly one handle_started and at most one handle_stopped; a failed start stopped the channel and called handle_stopped first with the same code; once its stop relay has run a stopped channel is not open |
| `Registration.StepKeepsChanInv` | src/sessions/session.cpp:181-282 | Every interleaving of the registering thread, a stop before or after the channel starts, its late relay and the removal keeps the channel's calls, stage and memberships consistent |
| `Registration.StopsOnce` | src/sessions/session.cpp:262-282 | handle_stopped is called at most once, by exactly the three steps that may call it, and never for a channel still open |
| `Registration.StepsPayDebt` | src/sessions/session.cpp:259-261 | Every step of a channel's threads works off a bounded debt |
| `Closures.NoClosureLeaks` | src/sessions/session.cpp:259-261 | At every moment of every run, for every channel and every code its handshake may end with, the channel's own steps, answered by the session flag and the collections as they are, end its registration with exactly one handle_started, and call handle_stopped too if its removal or a stop, even one before its start, has begun |
| `Closures.DueIsPossible` | src/sessions/session.cpp:181-282 | In every world a channel that owes a closure has a step to take under that world's own answers |
| `Closures.EveryRegistrationEnds` | src/sessions/session.cpp:195-275 | In every run of the network together with a channel's own handshake, where the channel goes on only with the code that handshake completed with: from every moment the steps of that handshake and of the channel's threads alone end its registration and call what it owes |
| `Connecting.BatchExactlyOnce` | src/sessions/session_batch.cpp:47-127 | In every run each connector's race hands on at most one result, a stored connector is pended exactly until it reports, the batch handler runs at most once, at every moment it has run with success iff some attempt has succeeded, and once all attempts reported it has run |
| `Connecting.BatchVerdict` | src/sessions/session_batch.cpp:49-53 | The batch has reported success iff some attempt has, and it has reported once all attempts have |
| `Connecting.ReportCause` | src/connector.cpp:126-193 | In every run a report goes back to a refusal before connecting, the end of a race, or a dispatched failure; a race is run only by a connector not stopped whose name resolved; service_stopped is dispatched only when stopped, resolve_failed only for a name that did not resolve; a success is that of a socket connect |
| `Connecting.ResolvedConnects` | src/connector.cpp:151-167 | In every run a name that resolved for a connector not stopped has its connect outstanding until that ends |
| `Connecting.ConnectorFlags` | src/connector.cpp:54-79 | In every run a connector is stopped iff a stop came for it or it has reported; its deadline is armed exactly while it races and is not stopped; it was stored iff its launch stored it |
| `Connecting.FirstEndWins` | src/connector.cpp:151-193 | The first of timer and connect to end is the attempt's report, with its code, and unpends the connector; the second changes no report |
| `Connecting.StepKeepsAttempts` | src/p2p.cpp:431-440 | Every step keeps that a connector is in pending_connect_ iff it was stored and has not reported |
| `Batching.BatchRefines` | src/sessions/session_outbound.cpp:82-109 | In every run of the network with all its batches in full detail, interleaved with all other steps, the worlds are those of a run of the slot machine that at some steps stands still, and each batch is seen as it is |
| `Batching.DetailedConservation` | src/sessions/session_batch.cpp:47-127 | So the detailed network conserves its slots in every run, and each of its batches has been reported successful iff some attempt succeeded |
| `Batching.BatchesTally` | src/sessions/session_outbound.cpp:94-109 | In every run the outbound channels registered are as many as the batches that succeeded, and the cycles delayed, now or before, as the batches that failed |
| `Batching.BatchSizes` | src/sessions/session_batch.cpp:39 | In every run every batch makes connect_batch_size attempts, and one if that is zero |
| `Batching.StepRefines` | src/sessions/session_batch.cpp:111-127 | Every step of the detailed network is no step, or one step, of the slot machine |
| `Pool.SamplingBound` | src/hosts.cpp:288-304 | The list store visits at least min(usable, accept) and at most min(usable, 2 * accept - 1) positions |
| `Pool.VisitExists` | src/hosts.cpp:304 | Position k * step is visited iff k is below the number of visits |
| `Pool.StoredMeetsSpec` | src/hosts.cpp:288-322 | The new pool is what fits of old ++ accepted: the accepted addresses are pairwise distinct and are its newest entries, none evicted; the size is min(capacity, old + accepted); distinctness is kept |
| `Pool.AcceptedSound` | src/hosts.cpp:304-322 | Accepted addresses are valid addresses that were looked at |
| `Pool.AcceptedComplete` | src/hosts.cpp:304-322 | A valid address looked at is accepted or already known |
| `Pool.StoredDistinct` | src/hosts.cpp:316-321 | A pool without duplicate (ip, port) stays so under every store, evictions included |
| `Pool.SaveLoad` | src/hosts.cpp:115-172 | The lines saved for a pool are well formed and load to its non-zero-port authorities, in order |
| `Pool.LoadedKeys` | src/hosts.cpp:115-123 | Loading appends the authorities of the non-zero-port lines to the pool and keeps the newest, duplicates included |
| `Pool.LoadKeepsDuplicates` | src/hosts.cpp:115-123 | A file that repeats a line loads a pool that repeats it |
| `Pool.LoadedDistinct` | src/hosts.cpp:115-123 | A pool is free of duplicates after loading iff the newest `capacity` of its old authorities followed by the file's are |
| `Pool.LoadedBare` | src/hosts.cpp:119-122 | An entry loaded from the file has no services and no time |
| `HostPool.Hosts.constructor` | src/hosts.cpp:36-42 | A new pool is empty and stopped; its capacity is host_pool_capacity, or one if that is zero, and it is disabled iff that is zero |
| `HostPool.Hosts.Find` | src/hosts.cpp:45-53 | The first entry with this ip and port, or the end iff there is none |
| `HostPool.Hosts.Fetch` | src/hosts.cpp:65-86 | The drawn entry of the pool iff host_pool_capacity is not zero and the pool is running and non-empty; otherwise the code for each case |
| `HostPool.Hosts.Start` | src/hosts.cpp:89-137 | Refused when running; loads the file up to its first malformed line; what each stream state leaves and returns |
| `HostPool.Hosts.Stop` | src/hosts.cpp:140-185 | Saves and clears the pool; a bad stream keeps it, a stream that failed to open loses it silently |
| `HostPool.Hosts.StopThenStart` | src/hosts.cpp:89-185 | A stop that writes followed by a start restores the non-zero-port (ip, port) sequence in order |
| `HostPool.Hosts.Remove` | src/hosts.cpp:187-220 | Removes one entry with this ip and port and keeps the rest in order, iff enabled, running and present; nothing changes otherwise |
| `HostPool.Hosts.StoreOne` | src/hosts.cpp:222-266 | A valid unknown address is appended to a running pool below host_pool_capacity, and takes the place of the oldest in a full one; a known one changes nothing; distinctness is kept |
| `HostPool.Hosts.Take` | src/hosts.cpp:304-322 | The loop with saturating index terminates and leaves the pool specified for the sampled addresses |
| `HostPool.Hosts.StoreList` | src/hosts.cpp:268-322 | For every list and draw the pool becomes the specified one for the sampled addresses, between min(usable, accept) and min(usable, 2 * accept - 1) are looked at, the size is min(host_pool_capacity, old + accepted) and distinctness is kept |
| `Framing.MessagesOfLongestRun` | src/proxy.cpp:193-263 | The messages of a stream are those of its longest run of good frames, plus the next frame's iff the run did not stop the channel and that frame fails only for trailing bytes |
| `Framing.FirstMessage` | src/proxy.cpp:147-246 | A stream carries a message iff it begins with a whole frame with a valid heading of our magic, not oversized, whose checksum holds if validated and whose payload loads; that message is the first |
| `Framing.FrameVerdict` | src/proxy.cpp:147-255 | When a frame is good, when it only has trailing bytes, and with which code it is refused otherwise |
| `Framing.EndOfLongestRun` | src/proxy.cpp:193-263 | The codes a channel is stopped with by its stream are those of what follows the longest run of good frames |
| `Framing.NoLongerRun` | src/proxy.cpp:133-263 | Every run of good frames the stream begins with is an initial part, in messages and in bytes, of the longest run |
| `Framing.LongestRunIsLongest` | src/proxy.cpp:133-263 | After the longest run the channel is stopped or the next frame is not good |
| `Framing.FrameThenRest` | src/proxy.cpp:123-191 | Framing is self-delimiting: bytes after a frame do not change how it is read |
| `Framing.SentIsReceived` | src/proxy.cpp:123-263 | The bytes of good frames carry exactly their messages in order, whatever follows |
| `Proxying.Proxy.Run` | src/proxy.cpp:123-263 | For every stream and every placement of stops by other threads: without any, exactly the stream's messages in order, none after the stop, and the stop codes of the stream's end; if the first such stop falls in turn n, the first n messages, and one more, after the stop, iff it falls between that turn's stop test and its notification |
| `Proxying.LatePlan` | src/proxy.cpp:196-224 | A stream and a stop under which that extra message exists |
| `Proxying.DeliverLate` | src/proxy.cpp:196-224 | Such a channel delivers its first message after its stop |
| `Proxying.Proxy.ReadFrame` | src/proxy.cpp:123-263 | One turn of the cycle does what the parse of the first frame says |
| `Proxying.Proxy.ReadHeading` | src/proxy.cpp:123-178 | A heading is passed on iff read whole, valid, of our magic and not oversized; otherwise the channel is stopped, with bad_stream for a refused heading |
| `Proxying.Proxy.ReadPayload` | src/proxy.cpp:180-263 | Nothing is delivered on a short read, bad checksum, unknown type or malformed body; a trailing byte stops the channel after delivery |
| `Proxying.Proxy.Start` | src/proxy.cpp:93-110 | Refused on a running channel; otherwise opens the subscribers and runs the read cycle until its stop, with the deliveries of the cycle |
| `Proxying.Proxy.Stop` | src/proxy.cpp:313-332 | Takes only error codes; sets the stop flag, closes the subscribers and relays the code |
| `SeedProtocol.RunNeverSucceeds` | src/protocols/protocol_seed_31402.cpp:48-154 | In every run the seed protocol completes at most once and never with success, so every code it stops the channel with is an error code |
| `SeedProtocol.NeverSucceeds` | src/protocols/protocol_seed_31402.cpp:86-154 | Three successes are never counted: only the two sends post one, each once |
| `SeedCauses.CompletionCause` | src/protocols/protocol_seed_31402.cpp:86-154 | In every run a completion goes back to the timer, to closed subscribers, to a failed request, or to the store, whose success ends the protocol as stopped; never to the sending of our own address |
| `SeedCauses.StepCause` | src/protocols/protocol_seed_31402.cpp:72-154 | A step adds a call of set_event exactly if it is the cause of it and the protocol listens |
| `SeedCauses.CanStore` | src/protocols/protocol_seed_31402.cpp:48-154 | A run, with or without an own address, in which both messages are sent, addresses are received and stored, and all three events are counted |
| `SeedCauses.StoreFollows` | src/protocols/protocol_seed_31402.cpp:93-106 | Addresses are stored only after a message with them was received while the protocol was going on |
| `SeedCauses.ClosedEarlyStays` | src/protocols/protocol_seed_31402.cpp:62-64 | A channel closed before the address subscription was made never receives or stores addresses |
| `SeedCauses.RunTimerEnds` | src/protocols/protocol_timer.cpp:55-61 | In every run a checked stop has cleared the handler and a counted one has ended the timer, for good |
| `SeedProtocol.StepKeepsInv` | src/protocols/protocol_seed_31402.cpp:48-154 | Every step of every thread keeps one call per source, the start order and that only the sends post success; a completion is final |
| `Seeding.SeedingVerdict` | src/sessions/session_seed.cpp:123-231 | In every run each seed reports at most once on every path; the start handler is called once, exactly when all reported; success iff the pool then held 100 addresses, never with capacity below 100 |
| `Seeding.StartVerdict` | src/sessions/session_seed.cpp:52-95 | The whole start calls its handler at most once: success without a pool or with cached addresses, operation_failed iff seeding is needed without seeds; with a non-zero capacity below 100 it succeeds iff addresses were cached |
| `Seeding.SeedCause` | src/sessions/session_seed.cpp:135-198 | In every run a seed's protocol runs only after it was connected to, was not blacklisted and was registered; a seed that reported without it had one of these fail or met a stopped session |
| `Seeding.FlagsCause` | src/sessions/session_seed.cpp:135-144 | In every run the session is stopped iff its stop has happened, and the pool counted is the pool as last changed |
| `Seeding.SmallPoolThrottled` | src/sessions/session_seed.cpp:223-231 | For every non-zero capacity below 100, a run whose pool is full and whose verdict is peer_throttling |
| `SeedProgress.SeedingEnds` | src/sessions/session_seed.cpp:52-231 | From every moment of every run of the whole start, whatever connecting and registering answer for each seed, the session's own steps lead to exactly one call of the start handler |
| `SeedProgress.StepKeepsEnding` | src/protocols/protocol_seed_31402.cpp:48-154 | Every step keeps that, before a seed protocol completes, a cleared handler or a spent timer has left behind a failing call that will reach the join |
| `SeedProgress.StepWorks` | src/protocols/protocol_events.cpp:91-104 | A step of a seed protocol's own uses up a bounded amount of work and no step of any thread or peer adds to it |
| `Seeding.StepKeepsSessionInv` | src/sessions/session_seed.cpp:123-231 | Every step keeps that the join counted exactly the seeds that reported |
| `Ping.PingDiscipline` | src/protocols/protocol_ping_60001.cpp:47-135 | In every run in which no thread has set pending_ anyway, while the channel is live: between handlers pending_ holds iff one pong subscription is outstanding; the k-th ping is sent only after k - 1 pings were answered, in order, each with its own nonce |
| `Ping.MissingPongStops` | src/protocols/protocol_ping_60001.cpp:61-67 | In such a run a pong still missing at a heartbeat stops the channel with a timeout and sends no ping |
| `Ping.StoppedFor` | src/protocols/protocol_ping_60001.cpp:61-132 | In every run the channel is stopped exactly by stops from elsewhere, with bad_stream by each compare of a wrong pong and with a timeout by each ping found pending at the next, and by nothing else |
| `Ping.PingRound` | src/protocols/protocol_ping_60001.cpp:47-135 | A pong with the ping's own nonce is consumed, leaves the channel live and lets the next heartbeat send a ping |
| `Ping.LiveUntilStop` | src/protocols/protocol_ping_60001.cpp:49-50 | In every run the protocol is live until the stop reaches it |
| `Ping.SilentForGood` | src/protocols/protocol_ping_60001.cpp:47-73 | After that, unless a thread was past its test, no ping is begun and no pong subscribed for any more |
| `Ping.OverlapBreaks` | src/protocols/protocol_ping_31402.cpp:44-52 | A run in which a heartbeat due during the initial ping leaves two pings outstanding |
| `Ping.WrongPongBreaks` | src/protocols/protocol_ping_60001.cpp:124-132 | A run in which a heartbeat between the clear and the compare of a wrong pong sends a second ping with none answered |
| `Ping.DisciplineIff` | src/protocols/protocol_ping_60001.cpp:61-73 | Up to any moment of any run the discipline holds throughout iff no thread up to then set pending_ although another had set it since its test, or although a wrong pong that had cleared it was not compared yet |
| `Ping.SerialDiscipline` | src/protocols/protocol_ping_31402.cpp:44-52 | So it holds if all heartbeats fall due after the initial ping and no sender moves while a wrong pong is about to stop the channel |
| `Manual.ManualRetry` | src/sessions/session_manual.cpp:79-196 | In every run one chain of attempts is alive through every reconnect; with limit n >= 1 a call makes at most n attempts and exactly n if it gives up, with limit zero it never gives up; the caller's handler runs at most once, and has not been called iff a closure still holds it or the channel it was held for reported a failed start |
| `Manual.CallerHears` | src/sessions/session_manual.cpp:90-168 | In every run the caller has heard a code iff some step told it: service_stopped by a stopped session, the failure of the last attempt, or success when the channel started |
| `Manual.ChainLives` | src/sessions/session_manual.cpp:87-196 | In every run attempts go on through every failure and stop until exactly one of these: a stopped session, the last attempt failing, or the peer already connected |
| `Manual.StopAndGiveUp` | src/sessions/session_manual.cpp:109-140 | In every run the session is stopped iff its stop has happened, and a call gave up iff its last attempt failed |
| `Manual.CountDecreases` | src/sessions/session_manual.cpp:99-130 | A failed attempt hands on a count smaller by one, and the last one ends the call |
| `Manual.HandlerDropped` | src/sessions/session_manual.cpp:147-196 | A run, for every limit, in which a handshake times out: the channel reconnects and the caller's handler is dropped without a call |

## Left out

- Sockets, the resolver, asio, thread pools and locks: completions are events with free results, and a
  critical section is one step.
- Protocol and session objects are values, not classes: update in place and aliasing of their fields are
  not captured, only the order of their atomic steps.
- The acceptor, the inbound connection limit and blacklists: an inbound channel that is registered is an
  event.
- In the handshake machine no stop is in flight when the channel starts; registration follows a stop that
  began before `proxy::start` through its restart and its late relay.
- Relays dropped by a thread pool shutdown.
- Handler branches for message-subscriber codes other than success and the stop codes, because the
  subscribers are only given those.
- Failures while the hosts file is being written, and the lock left held by the exception of a malformed
  line.
- Relayed message types reach their handlers on another thread: `Proxying.Proxy.Run` states the order in
  which messages are handed to the subscribers, not the order in which relayed handlers run.
- Proxying.Proxy.Run: a message handed to the subscribers after the stop flag was set counts as delivered
  after the stop, whether or not the stop has already removed their handlers.
- Sending: queueing of writes and `handle_send` of the proxy; a message sent is on the wire.
- The channel's expiration and inactivity timers: they are further stops of the channel.
- The seed protocol's branch for a zero pool capacity, because the seed session does not start then.
- protocol_address_31402, protocol_reject_70002 and protocol_ping_31402: short handlers that would only
  add easy members.
- The start, run and restart sequence of `p2p`, settings, logging and message encodings.
