# A Dafny model of the yola cluster runtime

yola runs game servers behind Gateways. Clients keep a TCP or WebSocket connection to a
Gateway; the Gateway binds each player to that connection in a shared store and forwards
requests to Node processes; a sticky Node service keeps a player on one Node, whose
process proves its ownership by an epoch it leases from the store. This project models
the parts of that runtime where order, time and shared ownership matter, and proves what
holds in every run of them.

## How the models are built

- **Protocols.** A concurrent protocol is a step system: a `State`, an `Action` for every
  section that other goroutines, processes or the store can see as one step, a total
  function `Apply`, and `Exec` for a whole run. An action that is not enabled leaves the
  state as it is, so a lemma about `Exec(run)` for all `run` speaks of every
  interleaving. Store calls are sent, executed and answered in separate steps: an answer
  can be late or lost, and a call can take effect long after its sender gave up. Each such
  module has an inductive invariant (`Inv`), one lemma per kind of step, `RunKeepsInv`,
  and the theorems. Beside what no run does, lemmas named `...Exactly` say what each step
  brings about and that nothing else does; those that speak of one step alone have no row
  below.
- **Objects.** Code that updates fields in place is a class with those fields. Each method
  is one section held under the lock of the code and is proved against the step or the
  specification function of the same name.
- **Pure parts.** Key derivation, frame layout, discovery resolution and routing are
  functions with inverses or reference definitions beside them.

| file | what it models |
|---|---|
| `NodeStore.dfy`, `EpochProtocol.dfy`, `EpochSafety.dfy`, `EpochEffects.dfy`, `EpochWitness.dfy`, `EpochLease.dfy` | epochs, binding writes and sticky requests of Nodes |
| `GateStore.dfy`, `GateProtocol.dfy`, `GateSafety.dfy`, `GateEffects.dfy`, `GateWitness.dfy`, `GateSession.dfy` | player bindings and sessions of Gateways, and the shutdown drain |
| `Admission.dfy`, `NodeLifecycle.dfy` | admission gates; start, stop and cleanup of a Node server |
| `GateClient.dfy` | the pool of connections between Gateways |
| `SendChannel.dfy`, `TcpChannel.dfy`, `WebSocketChannel.dfy` | the outbound queue of a connection |
| `CallbackQueue.dfy`, `RequestTracker.dfy`, `Heartbeat.dfy` | callbacks, pending requests and heartbeats of a client |
| `Broadcast.dfy` | the broadcaster of a Gateway |
| `Discovery.dfy`, `Backends.dfy` | resolving node services, the sticky mode, exact picking, claims |
| `Basics.dfy`, `Bytes.dfy`, `Framing.dfy` | frames on TCP and the bounded WebSocket read |
| `Keys.dfy` | base64url and the store keys |

Time is one millisecond clock shared by all. A key of the store may vanish at any moment
from its expiry on. Fresh UUIDs are names no one else has used. Every store call may be
executed again by a retransmission. Of the claim of an epoch and the bind of a Gateway
this matters: executed again they can bring back what has left the store, and the theorems
say exactly when, with runs in which it happens.

Two places cannot be taken literally, because as they stand they would not load: the bind
script at locate/redis/gate.go:34-38 lacks the `end` of its `if`, and node/lifecycle.go:204
declares a variable that is never used. The model takes the script to validate a current
value and then to overwrite it, and does not speak about the context of the cleanup.

## Model

| member | source | states |
|---|---|---|
| NodeStore.Store.RegisterEpoch | locate/redis/node.go:139-152 | an epoch enters only under a NodeID that has none, and touches no other key |
| NodeStore.Store.RenewEpoch | locate/redis/node.go:57-63 | only the registered epoch moves its own expiry; a missing and a foreign one are told apart |
| NodeStore.Store.UnregisterEpoch | locate/redis/node.go:38-44 | compare and delete: a foreign epoch survives |
| NodeStore.Store.BindNode | locate/redis/node.go:20-26 | done exactly for the registered epoch of the node, and then the uid names the node for a whole TTL; a refusal leaves every binding alone |
| NodeStore.Store.RenewNode | locate/redis/node.go:46-55 | done exactly for the registered epoch and a binding that names this node, whose expiry is then a whole TTL from now; it neither creates nor moves any binding, whatever its outcome |
| NodeStore.Store.UnbindNode | locate/redis/node.go:28-36 | exactly a binding naming this node is removed, exactly for the registered epoch |
| EpochSafety.RunKeepsInv | node/epoch.go:46-249 | in every run each acknowledged claim or renewal is backed by the store for a whole TTL from its start, unless its own cancelled lease asked for the release |
| EpochSafety.OwnerIsRegistered | node/epoch.go:154-162 | a process that passes its local check holds the registered epoch, and the stored expiry is not before its local deadline |
| EpochSafety.AtMostOneOwner | node/epoch.go:46-60 | at any instant of any run at most one process of a NodeID passes its local check |
| EpochSafety.CancelledForGood | node/epoch.go:124-136 | a cancelled lease stays cancelled over every continuation |
| EpochSafety.FailedLeaseNeverPasses | node/epoch.go:154-162 | a lease whose check failed once never passes again, whatever renewals and answers follow |
| EpochSafety.RejectedRequestEndsLease | node/dispatch.go:132-161 | a request rejected by a lease check, on arrival or after it read the binding, means its process owns nothing from then on |
| EpochSafety.RevivedOnlyByGrant | node/epoch.go:215-249 | a lease that does not pass passes after the next step exactly when no check has seen it lapse and a renewal confirmed and rechecked in time stores a deadline still ahead |
| EpochWitness.LapseCanBeRevived | node/epoch.go:228-241 | that revival is reached: a renewal accepted one millisecond before the deadline and stored at it |
| EpochSafety.ReturnsOnlyByReclaim | locate/redis/node.go:139-152 | an epoch that has left the store is registered after the next step exactly when that step executes its own claim again while its NodeID is free |
| EpochSafety.GoneNeverReturns | locate/redis/node.go:139-152 | unless its claim is so executed again, an epoch that has left the store is not registered in any continuation |
| EpochSafety.ReplacedGenerationIsFenced | locate/redis/node.go:20-63 | a call of a generation that is gone and not reclaimed, however late, leaves the whole state as it is exactly when it is not the reclaim itself |
| EpochWitness.GoneCanReturn | locate/redis/node.go:139-152 | the exception is real: for every node, epoch and player some run brings a lapsed epoch back by a second execution of its claim, and then a late bind of that generation takes effect |
| EpochSafety.BindingChangesAreFenced | locate/redis/node.go:20-55 | a uid comes to name another node or none only by expiry, a bind of the registered epoch of the new node, or an unbind of the registered epoch of the node it named; an expiry moves only by a fenced write |
| EpochSafety.BindingHasFencedOrigin | node/session.go:67-105 | every stored binding goes back to a bind by the then registered epoch of the node it names, and has named that node ever since |
| EpochSafety.LocatedWasNamed | node/dispatch.go:140-153 | the node a request read from the store was the stored one at a moment the request was there |
| EpochSafety.ClaimsAreHeld | node/dispatch.go:116-130 | past the fence a claim names exactly this NodeID and this epoch, and is complete |
| EpochSafety.ClearedWasFenced | node/dispatch.go:116-161 | a request with a claim is cleared only after the store named this node and a later lease check passed while the epoch was registered |
| EpochSafety.HandlerIsFenced | node/dispatch.go:90-113 | whenever a handler starts for a request with a claim, the store named this node for the uid during the request, and at the last check before it this epoch was the registered one |
| EpochWitness.HandlerCanStart | node/dispatch.go:90-161 | the fence is not empty: for every node, epoch and player some run owns the node, binds the player and starts the handler of that claim |
| EpochEffects.Perform | locate/redis/node.go:20-63 | the protocol executes every call as the store object does: same epochs, same bindings, and an acknowledgement exactly when the script was done |
| EpochEffects.CancelledExactly | node/epoch.go:154-168 | a lease ends in a step exactly by being cancelled, by a refused renewal, or by a check at or past its deadline |
| EpochEffects.DeadlineMovesExactly | node/epoch.go:237-241 | the deadline moves exactly when a granted renewal stores it, to one TTL after its start |
| EpochEffects.OwnershipStartsExactly | node/epoch.go:46-60 | a process becomes an owner exactly by an acknowledged claim, for one TTL from its start |
| EpochEffects.RenewalExtends | node/epoch.go:215-249 | from every state in which a process owns its node a renewal answered at once extends the lease, here and in the store, by a whole TTL |
| EpochEffects.SentExactly | node/epoch.go:102-122 | which step sends which call: a claim once per epoch, a renewal after a passing check, a release only for a cancelled lease |
| EpochEffects.FenceIsExact | node/dispatch.go:90-161 | a request is turned away exactly when a lease check fails, its claim is not both or neither of this node and epoch, or the store names no node or another; without a claim it skips the read of the binding |
| EpochLease.EpochLease.Valid | node/epoch.go:154-162 | the check is the step of the protocol; it succeeds exactly when the lease passes, and the first cause of a cancellation is kept |
| EpochLease.EpochLease.FinishRenewal | node/epoch.go:228-248 | granted exactly by an answer confirmed in time with the lease still passing; cancelled exactly by a refusal or by that check failing, never by a call that merely failed |
| EpochLease.EpochLease.RenewOnce | node/epoch.go:215-249 | one whole renewal: it extends the lease exactly if the lease passed, the store confirmed and the answer came before deadline and timeout; it ends the lease exactly if that had lapsed or the store refused |
| EpochLease.EpochLease.Release | node/epoch.go:102-136 | the store is asked to drop the epoch only by a cancelled lease whose renewal has stopped, and not again once acknowledged |
| EpochLease.Monitor | node/epoch.go:170-194 | while renewals move the deadline beside it, the monitor ends exactly when a wake-up finds the lease lapsed or cancelled or the first renewal failed; the start gets at most one message, exactly one by the end, and one without error exactly if the first renewal succeeded before that |
| GateStore.Store.BindGate | locate/redis/gate.go:22-43 | a bind replaces a valid value and returns it, and refuses a lapsed or foreign one without a change |
| GateStore.Store.RenewGateLease | locate/redis/gate.go:52-60 | only the exact stored binding is extended |
| GateStore.Store.UnbindGate | locate/redis/gate.go:62-70 | compare and delete: every entry with another value survives as it is |
| GateSafety.RunKeepsInv | gateway/session.go:41-226 | in every run of any number of Gateways every session, call, bind, departure and hand-out is accounted for |
| GateSafety.LocalDeadlineWithinStored | gateway/session.go:159-197 | while the binding of a session is the stored one, its local deadline is not after the stored expiry |
| GateSafety.DepartedLeaseIsBounded | gateway/inbound.go:259-275 | once its binding has left the store a session is valid for at most one TTL more, late answers included |
| GateSafety.ValidIsStoredOrReplaced | gateway/session.go:250-252 | in every run the binding of a locally valid session is stored, or was overwritten by the bind of another connection; it was neither dropped at its expiry nor unbound |
| GateSafety.ReturnsOnlyByRebind | locate/redis/gate.go:22-43 | a binding that has left the store is stored after the next step exactly when that step executes its own bind again and is not refused |
| GateSafety.DepartedForGood | locate/redis/gate.go:22-70 | unless its bind is so executed again, a departed binding is not stored in any continuation and its departure stands |
| GateSafety.ReplacedSessionLapses | gateway/inbound.go:138-175 | after another bind replaces it at time T, a session locally valid at or after T plus its TTL can only be one whose own bind was executed again |
| GateWitness.ReplacedCanOutlive | gateway/inbound.go:183 | the exception is real: a run in which the replaced session is valid and stored a TTL later because its bind was executed twice |
| GateSafety.BindHasOneFate | gateway/inbound.go:146-186 | every successful bind is undecided in its own authentication, committed, or rolled back with an unbind sent: exactly one of these |
| GateSafety.OneBindPerConnection | gateway/session.go:147-153 | a connection binds, and so commits, at most once in its life |
| GateSafety.CommitStep | gateway/session.go:53-62 | a bind is committed only by its own authentication, to a session still registered and within its deadline |
| GateSafety.HandedOutOnce | gateway/session.go:199-226 | a committed binding is handed out at most once over close, kick and drain, a kick that found the session before it was unlisted included; it has been exactly when its session has given it up, in particular once detached |
| GateWitness.EitherCanWin | gateway/delivery.go:96-112 | the race is real: once a kick has found a session and a close has unlisted it, either can take the binding first, and the other gets nothing |
| GateSafety.HandoutBringsUnbind | gateway/inbound.go:25-44 | in every run a binding handed out by a close or a kick, or by a drain in time, has its unbind sent |
| GateEffects.Perform | locate/redis/gate.go:22-70 | the protocol executes every call as the store object does: same entries, and an acknowledgement exactly when the script was done |
| GateEffects.SentExactly | gateway/inbound.go:89-187 | which step sends which call: a bind on admission, a renewal in the second half of a valid lease, an unbind exactly for a bind not committed and for a binding given up |
| GateEffects.BoundExactly | gateway/inbound.go:146-164 | a bind counts as successful exactly when its own authentication takes its answer |
| GateEffects.DecidedExactly | gateway/session.go:53-62 | a bind is committed exactly when the session is listed, not cancelled and within both deadlines, with a lease counted from its start; otherwise it is rolled back |
| GateEffects.LeaseMovesExactly | gateway/session.go:184-197 | the lease of a session moves exactly when the answer of its own renewal is taken, to one TTL after its start |
| GateEffects.GivenUpExactly | gateway/session.go:199-226 | giving a binding up takes it from the session and adds exactly one hand-out, on the path of that step |
| GateEffects.HandedOutOnlyThen | gateway/session.go:199-226 | nothing else adds a hand-out |
| GateEffects.UnlistedExactly | gateway/session.go:64-87 | a session leaves the registry exactly by its close, by a kick that has detached it, or by the shutdown of its Gateway |
| GateSafety.HandoutWasCommitted | gateway/delivery.go:96-112 | only committed bindings are handed out |
| GateSafety.UnbindIsEarned | gateway/inbound.go:292-307 | in every run an unbind is sent only for a binding that was rolled back or handed out, so for none its session still has |
| GateSafety.UnbindSparesOthers | locate/redis/gate.go:62-70 | in every run an unbind that removes an entry, however late, removes one that was rolled back or handed out and that no session still has, and no entry of another connection |
| GateSafety.NoCommitAfterTakeAll | gateway/lifecycle.go:282-316 | once the shutdown of a Gateway has taken its sessions nothing is ever committed on it, whatever the other Gateways do |
| GateSession.ClientSession.FinishAuthentication | gateway/session.go:159-176 | the session commits if and only if both deadlines are ahead, with the lease counted from the bind; otherwise nothing changes |
| GateSession.ClientSession.HeartbeatRoute | gateway/session.go:184-189 | a renewal is due exactly in the second half of a valid lease |
| GateSession.ClientSession.FinishHeartbeat | gateway/session.go:191-197 | the answer of a renewal counts only for the binding it was sent for |
| GateSession.ClientSession.DetachForClose | gateway/session.go:199-214 | the binding is handed to the caller and gone from the session in one step |
| GateSession.ClientSession.DetachForKick | gateway/session.go:216-226 | a kick detaches exactly the binding it names, and only while the lease is valid |
| GateSession.ClientSession.SendIfCurrent | gateway/session.go:228-235 | a push is sent if and only if it names the current binding and the lease is valid |
| GateSession.Registry.AdmitAuthentication | gateway/session.go:41-51 | an authentication is counted exactly when its session is listed, in time, and the registry accepts |
| GateSession.Registry.CommitAuthentication | gateway/session.go:53-62 | the commit of the protocol, under the lock that listing and taking use |
| GateSession.Registry.Remove | gateway/session.go:64-73 | only the session itself is removed, not another under the same connection |
| GateSession.Registry.Snapshot | gateway/session.go:89-97 | every listed session, each once |
| GateSession.Registry.TakeAll | gateway/session.go:75-87 | every listed session is handed over once, and none can be listed again |
| SessionDrain.EachSessionDrainedOnce | gateway/lifecycle.go:363-390 | however the workers interleave no session is drained twice, and all are when the workers have gone |
| Admission.RunKeepsValid | node/admission.go:26-66 | over every run the drained signal has been closed exactly when it exists and no work is left |
| Admission.ClosedIsTerminal | node/admission.go:26-66 | closed is terminal: nothing is admitted, work only shrinks, the signal is closed at most once, and a drained gate never changes again |
| Admission.ActiveIsExact | node/admission.go:30-47 | over every run the active work is exactly what was let in and has not left, so drained means closed with everything gone |
| Admission.RequestAdmission.Admit | node/admission.go:30-38 | work is admitted, and counted, exactly while the gate is open |
| Admission.RequestAdmission.Done | node/admission.go:40-47 | the last work to leave a closed gate closes the signal, which was not closed before |
| Admission.RequestAdmission.StopAndWait | node/admission.go:49-62 | the gate is closed, and there is nothing to wait for exactly when no work is left |
| NodeLifecycle.RunKeepsInv | node/lifecycle.go:26-279 | in every run the start, the two gates and the cleanup stay consistent |
| NodeLifecycle.CleanupAndDrainRunOnce | node/lifecycle.go:199-279 | cleanup and Drain each run at most once, and Drain only when no request is left or can come |
| NodeLifecycle.DrainRunsExactly | node/lifecycle.go:231-241 | when cleanup has ended Drain has run exactly if there is one and no request was left behind |
| NodeLifecycle.DrainedMeansAllLeft | node/lifecycle.go:229-245 | of requests as of deliveries, a gate is drained exactly when it is closed and everything it let in has left |
| NodeLifecycle.StartMovesExactly | node/lifecycle.go:103-174 | a stage of the start is passed exactly when it succeeds and no stop has begun; an accepted record is noted in any case |
| NodeLifecycle.CleanupMovesExactly | node/lifecycle.go:214-279 | the cleanup goes on at every step but where it waits for the start, requests, deliveries or a late start |
| NodeLifecycle.CleanupNotesExactly | node/lifecycle.go:221-246 | what the cleanup waited for in vain it has noted, and nothing else |
| NodeLifecycle.WholeLife | node/lifecycle.go:26-279 | the run of a whole life: one Deregister, Drain and release once if there are any; and none for a server that never started |
| NodeLifecycle.AdmissionNeedsReadiness | node/lifecycle.go:103-174 | work is admitted only in a server whose record is registered and whose first renewal succeeded |
| NodeLifecycle.GatesOpenAtCommit | node/lifecycle.go:26-81 | both gates open at the commit of the start if and only if no stop had begun, and at no other step |
| NodeLifecycle.EveryRecordDeregisteredOnce | node/lifecycle.go:214-279 | every record that was registered gets at most one Deregister call and, when cleanup has ended, exactly one, even if it was registered late |
| NodeLifecycle.EndedIsFinal | node/lifecycle.go:199-212 | nothing starts or registers once cleanup has ended |
| NodeLifecycle.ReleaseNeedsDrained | node/lifecycle.go:214-273 | the epoch is released at most once, and only with both gates closed, no work left and no failed Drain |
| NodeLifecycle.EndedReleasesIfDrained | node/lifecycle.go:262-279 | when cleanup has ended the release of the epoch was asked for exactly if one was held and requests, Drain and deliveries had all finished |
| NodeLifecycle.NothingAdmittedAfterRelease | node/session.go:74-77 | from the release on no request, binding write or push is admitted in any continuation |
| NodeLifecycle.StoppedForGood | node/lifecycle.go:328-336 | a stop is never taken back: in every continuation no request is admitted and no gate opens |
| GateClient.RunKeepsInv | internal/gateclient/client.go:100-232 | in every run of calls, dials, timers and callbacks the pool stays consistent |
| GateClient.HeldIsNeverEvicted | internal/gateclient/client.go:220-232 | no step but the closing of the whole pool closes a connection that a call holds |
| GateClient.PooledOrClosedOnce | internal/gateclient/client.go:154-218 | every connection ever dialled is in the pool under its host with a count equal to its holders, or has been closed exactly once |
| GateClient.IdleEntryIsEvicted | internal/gateclient/client.go:172-232 | no idle entry is stranded: a callback of its own is due no earlier than last use plus the idle time, and it evicts the entry if it is still idle |
| GateClient.AcquireExactly | internal/gateclient/client.go:154-170 | a call gets the pooled connection exactly if there is one and the pool is open, held once more and its timer stopped |
| GateClient.ReleaseExactly | internal/gateclient/client.go:207-218 | one holder fewer, the last use noted, and the timer armed by the last holder |
| GateClient.CallbackExactly | internal/gateclient/client.go:220-232 | a callback evicts exactly the pooled connection of its timer, if idle for the idle time |
| PoolObject.Client.Cached | internal/gateclient/client.go:154-170 | the pooled entry of the host with one more call, or nothing; no other entry is touched |
| PoolObject.Client.Connect | internal/gateclient/client.go:172-205 | a dialled connection enters the pool only if the host has none and the pool is open |
| PoolObject.Client.Release | internal/gateclient/client.go:207-218 | the count goes down by one, the timer is armed exactly at zero, and an entry no longer pooled is left alone |
| PoolObject.Client.Evict | internal/gateclient/client.go:220-232 | an entry is evicted if and only if it is the pooled one, idle, and idle long enough |
| PoolObject.Client.Close | internal/gateclient/client.go:100-123 | exactly the pooled entries are closed, each once, and the pool stays empty |
| PoolObject.Client.Acquire | internal/gateclient/client.go:125-152 | an entry is returned exactly if the pool is open and has the host or can dial it; it is the pooled one with exactly one more call |
| SendChannel.ProducerKeepsLine | network/tcp/channel.go:50-126 | a producer of either transport that counts, uncounts or enqueues what it holds keeps the order of the frames and the exact balance of the counter |
| SendChannel.WriterKeepsLine | network/tcp/server_connection.go:192-215 | the writer takes and writes frames in order, skips none, and uncounts exactly what it takes |
| TcpChannel.RunKeepsInv | network/tcp/channel.go:50-210 | in every run of pushes, replies, closes and the writer the channel stays consistent |
| TcpChannel.WrittenIsPrefixOfAccepted | network/tcp/channel.go:50-164 | the frames written are a prefix of the frames accepted, and the rest is exactly the queue |
| TcpChannel.ClosingFrameIsLast | network/tcp/channel.go:99-126 | at most one closing frame is accepted, and nothing after it in any continuation |
| TcpChannel.CounterIsExact | network/tcp/channel.go:50-153 | the byte counter is what is queued or being handed over, so never negative |
| TcpChannel.Channel.Push | network/tcp/channel.go:50-69 | a push is accepted if and only if it is valid, the channel open and the queue not full; every refusal leaves queue and counter alone |
| TcpChannel.Channel.Reply | network/tcp/channel.go:71-97 | a reply is accepted unless invalid, closed or cancelled |
| TcpChannel.Channel.CloseWithProto | network/tcp/channel.go:99-126 | only the first valid close gets its frame in; a cancelled one also stops the writer |
| WebSocketChannel.RunKeepsInv | network/websocket/channel.go:134-275 | in every run of sends, closes and the writer the channel stays consistent |
| WebSocketChannel.WrittenIsPrefixOfAccepted | network/websocket/channel.go:178-275 | the frames written are a prefix of the frames accepted, and the rest is exactly the queue |
| WebSocketChannel.SendNeverBlocks | network/websocket/channel.go:178-196 | a send that passed its capacity check finds room, whatever the others have done since |
| WebSocketChannel.ClosingFrameIsLast | network/websocket/channel.go:134-158 | at most one closing frame is accepted, and nothing after it in any continuation |
| WebSocketChannel.CounterIsExact | network/websocket/channel.go:178-262 | the byte counter is what is queued or being handed over, so never negative |
| WebSocketChannel.Channel.EnqueueFrame | network/websocket/channel.go:178-196 | a frame is accepted if and only if the channel is open, has room and the frame can be encoded, checked in that order |
| WebSocketChannel.Channel.CloseWithProto | network/websocket/channel.go:134-158 | only the first encodable close gets its frame in |
| CallbackQueue.RunKeepsInv | internal/queue/queue.go:49-136 | in every run of producers, closers and the worker the queue stays consistent |
| CallbackQueue.ExecutedIsPrefixOfAccepted | internal/queue/queue.go:93-136 | executed callbacks are a prefix of the accepted ones, and no more than the capacity waits |
| CallbackQueue.BatchesAreAtomic | internal/queue/queue.go:49-69 | a batch enters as a whole exactly when it has no nil, the queue is open and all of it fits; otherwise nothing changes |
| CallbackQueue.BlockedMeansIdle | internal/queue/queue.go:93-106 | no lost wake-up: a worker about to wait with work or closure pending finds a signal |
| CallbackQueue.NoWakeAfterClose | internal/queue/queue.go:108-119 | once the queue is closed nothing is ever sent on the wake channel, accepted or executed, and the terminals are settled |
| CallbackQueue.TerminalsRunOnce | internal/queue/queue.go:77-106 | the terminals that closed the queue run in order, each once, after the current callback and after the release, and all of them by the end |
| CallbackQueue.WorkerIsHeldUpExactly | internal/queue/queue.go:93-106 | the worker is held up exactly when finished, waiting for the release of terminals, or waiting with nothing to do |
| CallbackQueue.Queue.SubmitBatch | internal/queue/queue.go:49-69 | the submit of the protocol, with its four outcomes |
| CallbackQueue.Queue.CloseWithTerminals | internal/queue/queue.go:108-119 | the first close empties the queue and leaves its terminals; a later one changes nothing |
| CallbackQueue.Queue.Next | internal/queue/queue.go:121-136 | the oldest callback, or the terminals once, or nothing |
| CallbackQueue.Queue.RunUntilIdle | internal/queue/queue.go:93-106 | left alone the worker runs exactly what is queued, in order, or exactly the terminals |
| RequestTracker.RunKeepsInv | network/internal/request/tracker.go:16-77 | in every run of requests, responses, cancellations and the shutdown every handle is accounted for |
| RequestTracker.AtMostOneOutcome | network/internal/request/tracker.go:30-46 | a handle gets at most one outcome, and whoever sends it finds the slot empty |
| RequestTracker.LiveNumbersAreDistinct | network/internal/request/tracker.go:16-28 | two requests that wait, stored or sent with no outcome and none on the way, have distinct numbers from 1 to 2^31-1 however often the counter wrapped, and each is still the one its number leads to |
| RequestTracker.ShutdownSettlesAll | network/tcp/client.go:374-400 | once the shutdown has failed all requests every request whose send succeeded has its outcome or is about to |
| RequestTracker.ResponseSettles | network/internal/request/tracker.go:30-37 | in every run a response to a waiting request gives exactly that request its outcome and touches no other |
| RequestTracker.NoSendAfterClose | network/tcp/client.go:342-372 | in every continuation after the client was closed no send succeeds |
| TrackerObject.DrawComesCloser | network/internal/request/tracker.go:48-54 | each draw of the wrapping counter comes one closer to any given number, across the wrap-around |
| TrackerObject.FreeNumber | network/internal/request/tracker.go:16-28 | a number is free as long as not all are in use |
| TrackerObject.Tracker.NextSequence | network/internal/request/tracker.go:48-54 | a number from 1 to 2^31-1, never zero, and progress towards any number awaited |
| TrackerObject.Tracker.Begin | network/internal/request/tracker.go:16-28 | the loop ends with a new handle under a number no live handle has |
| TrackerObject.Tracker.Resolve | network/internal/request/tracker.go:30-37 | a response settles exactly the handle of its number, if it is still there |
| TrackerObject.Tracker.Cancel | network/internal/request/tracker.go:62-64 | only the handle itself is taken out, not a later one under its number |
| TrackerObject.Tracker.Fail | network/internal/request/tracker.go:39-46 | every handle in the map gets exactly one outcome and the map is empty |
| Heartbeat.HeartbeatsAreSettledOnce | network/tcp/client.go:276-340 | in every interleaving a dequeued heartbeat passes BeginWrite, FinishWrite never reports an invalid state, at most one frame is queued, and each heartbeat written is acknowledged or timed out at most once |
| Heartbeat.SettlesAWrite | network/internal/heartbeat/heartbeat.go:69-79 | a reply or a timeout settles exactly one heartbeat, and one that was written |
| Heartbeat.HeartbeatGoesRound | network/tcp/client.go:276-340 | from every reachable state at rest a tick queues one heartbeat, the writer writes it, and a reply settles it or the next tick finds it late |
| Heartbeat.HeartbeatRaces | network/internal/heartbeat/heartbeat.go:30-79 | a reply before the writer has noted its write, a heartbeat that could not be queued, and a tick on one under way |
| Heartbeat.AtomicState.Tick | network/internal/heartbeat/heartbeat.go:30-45 | however often others make it retry, a tick takes effect at once on the word it read last |
| Heartbeat.AtomicState.FinishWrite | network/internal/heartbeat/heartbeat.go:60-66 | a written heartbeat is outstanding unless already answered; only a second finish is refused |
| Heartbeat.AtomicState.Reply | network/internal/heartbeat/heartbeat.go:69-79 | a reply settles the heartbeat exactly when one is being written or outstanding at the word it read last |
| Broadcast.Slice | gateway/broadcast.go:176-198 | for all session and worker counts the slices concatenate to the snapshot, none is empty, they are at most as many as workers and sessions, and all but the last have the least size that suffices |
| Broadcast.RunKeepsInv | gateway/broadcast.go:124-240 | in every run of the coordinator and the workers slices, reports and offers are accounted for |
| Broadcast.ChannelsNeverBlock | gateway/broadcast.go:182-221 | neither the slice channel nor the report channel is ever full when someone has to send on it |
| Broadcast.ViewIsNeverShared | gateway/broadcast.go:159-208 | when the next message is prepared no slice of the previous one is queued, being sent or unreported; what is sent is the message it was handed over for |
| Broadcast.OfferedInOrder | gateway/broadcast.go:124-174 | every session is offered broadcasts in acceptance order, each at most once, and only those taken while it was registered |
| Broadcast.FinishedReachesAll | gateway/broadcast.go:223-240 | until cancellation a finished message has been offered to exactly the sessions of its snapshot |
| Broadcast.AcceptedExactly | gateway/broadcast.go:124-138 | in every run a message is accepted exactly while not cancelled and with room, and no more than the capacity waits |
| Broadcast.FanOutNeverStalls | gateway/broadcast.go:176-221 | no deadlock: in every run not cancelled a message being fanned out has a next step, and each leaves one step less, so it ends after exactly as many as Work counts |
| Broadcast.DoneMeansIdle | gateway/broadcast.go:159-174 | nothing is left to do exactly when the coordinator is idle |
| Discovery.Resolve | gateway/resolver.go:151-223 | a list is accepted if and only if every matching instance is valid, the sticky modes agree and NodeIDs and hosts go together one to one; snapshot and addresses are then those of the matching instances, one address per host |
| Discovery.InstanceExactly | instance/metadata.go:15-28 | an instance is sticky exactly by the value true, and valid exactly with one usable endpoint, a known value or none, and a NodeID if sticky |
| Discovery.AddIsExact | gateway/resolver.go:230-251 | an instance is refused exactly when it breaks the one-to-one relation, seen through the two maps |
| Discovery.OrderDoesNotMatter | gateway/resolver.go:151-191 | acceptance depends neither on the order of the list nor on repetitions, for every list, and neither does the snapshot of an accepted one |
| Discovery.AddressCarriesNode | gateway/resolver.go:176-185 | in a sticky snapshot every address carries one of its NodeIDs, at the host of that ID |
| Discovery.NodeHasOneAddress | gateway/resolver.go:176-185 | in a sticky snapshot every NodeID is carried by exactly one address |
| Discovery.StickyAddressesIgnoreOrder | gateway/resolver.go:175-184 | two accepted sticky lists with the same elements give the same addresses |
| Backends.BackendState.Update | gateway/resolver.go:101-134 | an update does what the specification says of the resolution of its list |
| Backends.ModeIsLatched | gateway/resolver.go:107-115 | once a snapshot has been stored the sticky mode never changes over any sequence of updates |
| Backends.AvailableExactly | gateway/resolver.go:101-128 | an update makes the service available exactly when its list is acceptable and not empty, keeps the mode, and its addresses were taken; otherwise only the mode is left |
| Backends.AvailableIsLatest | gateway/resolver.go:116-134 | a snapshot offered for routing is exactly that of the last list received, which was acceptable and not empty |
| Backends.BuildExact | gateway/balancer.go:39-61 | in whatever order the connections come, each ready NodeID maps to a ready connection carrying it |
| Backends.PickReachesNode | gateway/balancer.go:68-75 | a NodeID of a sticky snapshot is reached at its own host exactly when a connection there is ready |
| Backends.ResolveForward | gateway/backend.go:79-123 | a route claims NodeID and epoch both or neither; it claims what the locator holds exactly when the service is available and sticky, the location valid, the node in the snapshot and its epoch known; it claims nothing exactly when the service is not sticky or the player not bound; otherwise there is none |
| Framing.PrefixRoundTrip | network/tcp/codec.go:38 | every length reads back from its little-endian prefix |
| Framing.PrefixLayout | network/tcp/codec.go:69-70 | the least significant byte of the length comes first |
| Framing.ParseFrame | network/tcp/codec.go:33-55 | a frame is read back as its message and nothing of what follows is touched |
| Framing.ParseRefuses | network/tcp/codec.go:33-51 | a bad length is reported and left in place, a frame cut short or undecodable loses its prefix |
| Framing.FramesRoundTrip | network/tcp/codec.go:33-76 | any sequence of sendable messages reads back as itself, whatever comes after it |
| Framing.FramesReadBack | network/tcp/codec.go:33-76 | a stream of frames gives exactly its messages and then ends |
| Framing.Writer.WriteFramePlain | network/tcp/codec.go:57-76 | the plain path adds exactly the frame, or reports the error and adds nothing |
| Framing.Writer.WriteFrameAppend | network/tcp/codec.go:89-106 | the append path, building in the spare buffer, adds exactly the frame, or reports the error and adds nothing |
| Framing.Writer.WriteFrame | network/tcp/codec.go:57-60 | both paths put the same bytes on the stream for every sendable message and every buffer state |
| Framing.WriteAll | network/tcp/server_connection.go:192-225 | any messages written by any mixture of the paths add exactly their frames |
| Framing.Reader.ReadFrame | network/tcp/codec.go:33-55 | reading a frame is the specification on the bytes still to come, for any arrival in pieces; a legal frame never exceeds a buffer of 4096 |
| Framing.Reader.ReadAll | network/tcp/server_connection.go:150-190 | the messages read are those of the stream, for any arrival in pieces |
| BoundedRead.ReadBoundedFrame | network/websocket/codec.go:55-81 | for every buffer and every way the message arrives, the result is that of reading everything and then rejecting what is over the limit |
| Base64Url.RoundTrip | locate/redis/node.go:212-216 | decoding gives back every byte string (sections 3.2 and 5 of RFC 4648) |
| Base64Url.AlphabetInOrder | locate/redis/node.go:212-216 | the symbols are those of section 5 of RFC 4648 in their order |
| Base64Url.GroupIsANumber | locate/redis/node.go:212-216 | three bytes are one number of 24 bits in four digits of base 64, highest first |
| Base64Url.NoPunctuation | locate/redis/node.go:212-216 | no brace or colon occurs in encoded text |
| Keys.ValidServiceName | locate/locator.go:108-120 | accepts exactly 1 to 128 letters, digits, dots, underscores and hyphens, hence no NUL |
| Keys.GateKeyRoundTrip | locate/redis/gate.go:153-156 | a Gate key tells its service and uid, for any uid, if the service has no NUL |
| Keys.GateKeyCollision | locate/redis/gate.go:153-156 | another NUL-free service name and a uid share the key exactly when the service name has a NUL |
| Keys.NodeLocationKeyRoundTrip | locate/redis/node.go:212-216 | a node key tells its service and id, for all byte strings |
| Keys.KeysAreInjective | locate/redis/node.go:204-216 | for all valid service names and all ids each kind of key is injective in both |
| Keys.FamiliesAreDisjoint | locate/redis/node.go:14-18 | no key of one kind is a key of another |
| Keys.ScriptKeysShareTag | locate/redis/node.go:65-137 | the two keys of every node script have the same hash tag exactly when the service name is not empty, and then the tag is that of this service alone |

## Left out

- Liveness: that timers fire, locks are granted and peers answer in the end is not modelled; progress results such as `Broadcast.FanOutNeverStalls` say that a next step exists and how many are left, not that it is scheduled.
- Clock drift between processes, and an asymmetric loss of writes inside the store.
- Stored Gateway values written by someone else are in `GateStore` only; in the session protocol every stored value is a binding of some session.
- The input checks of the locators on empty or oversized uids, and their mapping of script results and errors.
- NodeLifecycle: modelled on values, as a step system over the shared accesses, not as a class; which error Start and Stop return is not modelled.
- The contexts of a Node cleanup and how much of the stop budget each stage gets; a stage may time out at any moment.
- The inner order of stopping the client transports of a Gateway, its listeners, and its own start and registration.
- TcpChannel.Channel.Reply: without interference a reply that finds the queue full waits until its context ends; the waiting itself is in the step system.
- TcpChannel.Channel.CloseWithProto: likewise for the closing frame; the choice of the error returned after the frame was enqueued is not modelled.
- WebSocketChannel.Channel.CloseWithProto: likewise.
- TrackerObject.Tracker.Begin: asks for fewer than 2^31-1 live requests, because the code would look for a free number forever.
- CallbackQueue.TerminalsRunOnce: speaks of the call that closed the queue; the terminals of a later BeginTermination are run directly by its caller.
- PoolObject.Client.Close: leaves out the errors of closing a connection.
- PoolObject.Client.Acquire: other calls do not act between its look-ups and dials; they do in the step system of `GateClient`.
- Framing.Writer.Write: every write of the connection succeeds; after a failed one the connection is given up.
- Framing.Reader.Peek: reads that return nothing are retried without the bound of one hundred that the buffered reader has.
- Messages with unknown fields, which reading discards: the encoding is a parameter that decodes to the message encoded.
- Endpoint and host parsing: an instance gives its endpoints by the host they yield.
- Weighted selection among the connections when a request names no node.
- Dispatch of commands, authentication tokens, pushes from Nodes, events over NATS, the etcd registry, TLS, gRPC, per-address connection limits, options, logging and metrics: these would only add easier members or foreign code.
