# A verified model of raft-capnp's node

`raft.Node` (raft/node.go) drives etcd's raft library: its event loop turns the library's `Ready` batches into
a stored log, messages to peers, membership changes and a replicated key/value map, and a pause flag with a
message queue stands beside it. This project models that driver, the protocol around the pause flag, the map
with its item codec, and the accounting of peer references, in Dafny, and proves what they keep.

## How it is built

**The ready driver** (`Driver.dfy`). `Driver.Step(state, choice)` makes one small step of `doReady` under one
choice of the outside world: what raft delivers, what the store, the callback, the retrieval and each remote
call return. A choice that is not enabled changes nothing, so a run is `Exec` over an arbitrary sequence of
choices, and a statement about every sequence covers every batching, every failure point and every
interleaving with the loop. The state has the map, the view, the storage, etcd's raft as its user sees it and
the trace of everything the node did, each event marked with the number of its Ready.

What is assumed of etcd's raft is the guard `Driver.Legal` of one choice: one Ready outstanding at a time and
none after Stop; new entries contiguous and never at or below what was delivered as committed; committed
entries continue what was delivered. A Ready with a snapshot may otherwise hold anything. `Merged`,
`Delivered`, `Advanced` and `Configured` say what the library does with its own log and configuration.

**The node** (`Node.dfy`) is a class with the fields of `raft.Node`, updated in place by methods named after
the source's. Its specification is the driver: the ghost field `d` is the driver state the fields show, and
`DoReady` ends in exactly the state of the driver after the choices that its outcome stands for. `Start` is
the loop over any finite script of what its `select` finds; `EventLoop` says turn by turn what each case does
to driver, gate and error variable, and `Start` ends in the world that `EventLoop.Served` makes of the script. `MemoryLog.MemoryStorage`, `ItemMaps.ItemMap`,
`Capabilities.View`, `Capabilities.CapTable` and `Gate.Gate` are the objects it updates.

**Whole runs.** `DriverRuns` (exactly-once application), `ItemRuns` (map and callback), `StoreFirst` and
`Durability` and `HardStates` (the store), `Failures` (when exactly doReady fails), `Membership` and
`FailedChanges` (view against raft's configuration), `Messages` (where a batch goes), `PutGet` (from a proposal
to a read), `Cluster` (many nodes), `HandleCost` (references).

**Concurrency.** `PauseProtocol` is the pause flag, its lock and the queue as a step system: the event loop,
unboundedly many `send` callers and pausers, with the gap in `send` between reading the flag and locking again
as a step of its own, and the capacity of the queue as a parameter. `PauseProperties` holds what is true of
it, `PauseRuns` the runs that go wrong, `DirectSends` what becomes of a send on a running node, `DoPauseRuns`
that a whole `doPause` of `Gate` is a run of the protocol, and `Stragglers` when a drained queue stays drained.
`StartLoop` is the loop's error variable and the goroutines that read it later. `RetrievalChannels` is the
goroutine of a retrieval against the caller that may have given up.

**The codec.** `ItemCodec` writes and reads the concrete JSON text (section 4 of RFC 8259) with padded base64
(section 4 of RFC 4648, `Base64`); `Hex` is lower-case hexadecimal (section 8 of RFC 4648). MD5 is any function
to sixteen bytes; freedom from collisions is a hypothesis only where a statement needs it.

## What the code does that one would not expect

Each of these follows the code and is proved, with the exact condition where there is more than a run to show.

- The queue is a channel without capacity (raft/node.go:48). A sender that reaches its channel send holds the
  lock for ever, and the only receiver needs that lock: `PauseProperties.UnbufferedQueue`. For any capacity,
  the lock is never given back exactly when a sender holds it at the full queue, `LockedForever`, and that does
  happen, in one pause with one sender more than the queue holds: `PauseRuns.StuckHappens`. A single Pause or
  Resume that the event loop then takes ends it for good, `RequestKillsLoop`; `LoopDeadExactly` has the exact
  condition.
- A message can be queued after the queue was drained and stay there with the node running:
  `PauseRuns.StragglerStays`. A drained queue stays empty until the next pause request exactly when no sender
  is past a check that read the flag as true, `Stragglers.StaysDrained`, and what is queued waits for that
  request, `StragglerWaits`.
- When the context ends while the node is paused, the flag stays true and work goes on:
  `PauseRuns.CancelLeavesPaused`. In a run the flag is true only inside doPause exactly when waitPause never
  took the end of the context in it: `PauseProperties.IsolationExactly`.
- A stop goroutine reads the error when it runs, so a pause request handled in between makes it send nil, which
  raft/node.go:99 would dereference: `StartLoop.NilCauseHappens`, and `NilCause` and `ErrorStays` say exactly when.
- `DefaultRaftStore` applies a snapshot after the entries, so a newer snapshot discards the entries stored
  with it: `MemoryLog.BatchSurvives` says exactly when they survive.
- raft is told of a conf change even when registering the node failed (raft/node.go:283), so the two can
  differ on that one node, `Membership.MembershipAgreement`, and do: `FailedChanges.DifferHappens`. They agree
  there exactly when the change was a removal or an update, or the node was a member already:
  `FailedChanges.AgreeAtFailedChange`.
- A node never drops itself from its view (raft/node.go:394) but is dropped from raft's configuration, and raft
  ignores node 0 while the view files peers under 0 whose id call failed (raft/view.go:35). These are the two
  ids left out of the agreement.
- No reference that `register`, `Peers` or `sendMessages` takes is ever released; the only release is of the
  fresh reference that `PopPeer` returns: `Node.Node.DoReady` has the exact count. No reference is used or
  released after its release, as `AddRef`, `Release` and both kinds of remote call demand of every caller, and
  `Node.Valid` keeps every reference in the view live.
- A retry bound of zero would file the null client under node 0: `Retrieval.RegistersExactly`. The code's
  bound is 3 (raft/consts.go:17).

## Model

| member | source | states |
|---|---|---|
| DriverRuns.ExactlyOnce | raft/node.go:133-163 | In every state of every run the entries processed are a prefix of the committed stream with indices 1, 2, 3 and so on, between the last Advance and the end of what was delivered (both of them between Readys); stream and entries processed only grow; after the first failure nothing changes and its Ready stays outstanding |
| DriverRuns.ExecKeepsSound | raft/node.go:133-163 | The invariant behind it: what is done is a prefix of raft's log, and the place in doReady says exactly how far it reaches, from any sound state under any choices |
| DriverRuns.DeliverKeepsSound | raft/node.go:88-89 | A Ready that raft's contract allows keeps the invariant, extends the stream, and never changes what was delivered, though it may overwrite the log above it |
| DriverRuns.ApplyEntryFrame | raft/node.go:145-160 | Processing an entry, with whatever failures, changes neither log, stream, storage, place nor the entries done |
| Failures.FailsExactly | raft/node.go:133-163 | Over every run: some doReady has failed if and only if at some moment the store refused, a snapshot was present after the messages, or the next entry was refused: data that does not decode, a callback's error, a node not found, a failed campaign, an unknown kind of change or entry |
| Failures.AddEntryFails | raft/node.go:236-255 | A normal entry passes if and only if its data is nil, or it decodes and the callback, if there is one, accepts the item |
| Failures.AddConfChangeFails | raft/node.go:257-305 | A conf change fails if and only if its data is not nil and does not decode, or adds a node that no attempt finds, or removes a leader the campaign against which fails, or is of another kind |
| Driver.ExecConcat | raft/node.go:83-111 | A run in two parts is one run, so what holds of runs holds from any reachable state on |
| Driver.IdleRests | raft/node.go:88-89 | Back in the event loop, after a success or a failure, no choice but a new Ready moves the driver |
| StoreFirst.StoreComesFirst | raft/node.go:134-161 | In every run each event of a Ready (a message stepped or sent, a callback, a put, a conf change, an Advance) comes after that Ready's own store call, which returned success and is the only one |
| Durability.AppliedIsStored | raft/defaults.go:40-55 | In snapshot-free runs on DefaultRaftStore no store call fails; every entry processed is at its index in storage in that and every later state, although stores truncate and overwrite suffixes; the entry about to be processed is there too |
| Durability.RunsAreDurable | raft/defaults.go:40-55 | The invariant behind it: outside the store call the stored log is raft's log |
| Durability.StoreIsMerge | raft/defaults.go:45-54 | Storing a batch without a snapshot never panics and gives the log raft itself keeps, the suffix replaced from the first index of the batch |
| MemoryLog.AppendOverwrites | raft/defaults.go:45 | Append keeps what lies below the batch, holds every entry of it that no snapshot covers, and leaves nothing above its last index |
| MemoryLog.BatchSurvives | raft/defaults.go:45-54 | After DefaultRaftStore the batch is readable if and only if the snapshot is no newer than the log's base or the batch has nothing above the base |
| MemoryLog.StoredExactly | raft/defaults.go:45-54 | Without a gap nothing panics, and what is left is: as base the snapshot's index if newer, as hard state the one given unless it is empty, as entries those of Append unless a newer snapshot discards them |
| MemoryLog.AppendExactly | raft/defaults.go:45 | An entry can be read after Append if and only if it is in the batch above the base or was held below the batch; all is as before when a snapshot covers the batch; the hard state stays |
| HardStates.HardStateIsLast | raft/defaults.go:47-49 | Over every run on the default store, snapshots and failures included: the hard state in storage is the last non-empty one among the Readys whose store returned, or the initial one |
| MemoryLog.DefaultRaftStore | raft/defaults.go:40-55 | Fails exactly on a storage of another type; otherwise the storage in place becomes what Append, the hard state if not empty and the snapshot, in that order, make of it, or stays as it was when Append panics |
| MemoryLog.MemoryStorage.Append | raft/defaults.go:45 | The in-place append of the library: drops what the snapshot covers, truncates and overwrites, panics on a gap |
| MemoryLog.MemoryStorage.ApplySnapshot | raft/defaults.go:51-53 | Refuses a snapshot that is not newer, replaces every entry otherwise |
| ItemRuns.CallbackMapAgreement | raft/node.go:236-255 | Over every run the items put are those of the entries processed, in order, and the map is what they add up to; a non-nil OnNewValue saw the same sequence, plus exactly one final item, never put, when it failed; a nil one saw nothing |
| ItemRuns.RunsAreGood | raft/node.go:236-255 | In every state of every run the map is the one the processed entries add up to |
| ItemRuns.AddEntryEvents | raft/node.go:236-255 | A normal entry records the callback before the put, no put after a failed callback, and exactly the entry's own item |
| ItemRuns.ConfChangeEvents | raft/node.go:257-305 | A conf change records nothing but at most one step against a leader and the call on raft |
| Membership.MembershipAgreement | raft/node.go:257-305 | With faithful retrieval, in every state between entries: view and raft's configuration are each known node by node from the entries processed, and agree on every id but the node's own and 0 until the node stops its raft; after a failed conf change, and no other failure, the one more id they can differ on is that change's, under the condition of FailedChanges.AgreeAtFailedChange |
| FailedChanges.AgreeAtFailedChange | raft/node.go:271-284 | At the node of a failed conf change, while raft runs: view and configuration agree if and only if the change was a removal or an update, or the node was a member before; so they differ exactly when adding a new node, as member or learner, failed |
| FailedChanges.AfterFailedChange | raft/node.go:257-285 | After a failed conf change, view and configuration at its node are known from the entries processed before and the change, for every kind, also for the node itself and node 0 |
| FailedChanges.DifferHappens | raft/node.go:367-389 | For every node and every retry bound above 0 a run leads there: the first addition of a node that no attempt finds leaves it in the configuration and not in the view |
| FailedChanges.StoppedExactly | raft/node.go:291-299 | Over every run: raft is stopped if and only if at some moment the node processed its own removal while its status named it leader |
| FailedChanges.StoppedForever | raft/node.go:296-299 | In every continuation a stopped raft is exactly as it was: no Ready, conf change or Advance has an effect |
| Membership.LeaderRemoval | raft/node.go:291-305 | On a removal it stops its own raft, or campaigns, or neither, exactly by who the status says leads, never both, and tells raft after it; the change fails exactly when the campaign does |
| Membership.ChangePeersEffect | raft/node.go:271-282 | What registering and unregistering do to the view, id by id, with raft's configuration untouched |
| Membership.ConfChangeEffect | raft/node.go:257-285 | What a whole conf change does to view and configuration, id by id, both ways |
| Messages.BatchPartition | raft/node.go:308-328 | Of every batch: the messages stepped locally are those to the node itself, in order; the calls to each other node in the view are, in order, the messages addressed to it, and no other node is called; reports of an unreachable node match the failed calls to it one to one, each right after its call |
| Messages.FailuresAreFailedCalls | raft/node.go:320-325 | The calls of a batch recorded as failed are as many as the messages to a null client or not answered well |
| Messages.SendingBatch | raft/node.go:308-328 | Sending is these events, message by message, under every choice of results, and changes nothing else |
| Messages.PeersAreTheView | raft/node.go:309 | The destinations of a batch are those of the view as earlier Readys left it |
| Cluster.Convergence | raft/node.go:133-163 | For any number of nodes, any batching, interleaving and failures, if the normal entries each node was delivered are a prefix of one log: nodes that applied equally many have equal maps, and a lagging node's map is one the other passed through at the same count |
| Cluster.MapOfCount | raft/node.go:236-255 | A node's map is a function of the common log and of how many normal entries it applied |
| Cluster.PassesThrough | raft/node.go:145-160 | On its way a node shows every count of normal entries up to its own, along one growing sequence of entries |
| Cluster.ItemsOfNormals | raft/node.go:146-156 | Conf changes and other entries in between never matter to the map |
| PutGet.PutThenGet | raft/capnp.go:173-180 | An item proposed through PutItem whose entry was committed and processed is what Get returns, with the original key and value bytes, whatever other entries, conf changes and batch boundaries lie around it, if no later entry processed puts an item of the same digest |
| PutGet.ProposalIsNotSkipped | raft/node.go:237-244 | A text written by Marshal is never taken for raft's own empty entry: it is put unless the callback refuses it |
| ItemCodec.RoundTrip | raft/item.go:18-24 | Unmarshal of Marshal gives the item back up to nil for empty, for all byte strings and all four omitempty cases |
| ItemCodec.UnmarshalInto | raft/item.go:22-24 | Into any receiver: members present replace its fields, omitted ones leave what it held |
| ItemCodec.MarshalInjective | raft/item.go:13-20 | Two items have the same text if and only if they differ at most in nil versus empty |
| ItemCodec.TextOfBoth | raft/item.go:13-20 | The text of an item with key and value, character by character around the base64: the key before the value |
| ItemCodec.TextOfOne | raft/item.go:13-20 | The text of every other item: a member that is nil or empty is left out, and both make an empty object |
| Base64.DecodeEncode | raft/item.go:14-15 | Decoding the base64 text gives back every byte string, in all padding cases |
| Base64.EncodeAt | raft/item.go:14-15 | Every character of the text: the letter of the standard's table for the six bits at its place, and equals signs for the padding |
| Base64.DecodesExactly | raft/item.go:22-24 | A text decodes if and only if it is whole groups of letters of the table, with padding in the last two places only |
| Base64.EncodePlain | raft/item.go:14-15 | The text never holds a character that would end or escape a JSON string |
| Hex.EncodeInjective | raft/item.go:77 | Hexadecimal text determines the digest |
| Hex.EncodeAt | raft/item.go:77 | Every character of the text: two lower-case digits for each byte, the high one first |
| ItemMaps.ItemMap.Put | raft/item.go:75-79 | The slot of the key's digest in place becomes the item, every other slot stays |
| ItemMaps.ItemMap.Get | raft/item.go:81-90 | Found exactly when the slot of the key's digest is filled, with its item, and the empty item otherwise |
| ItemMaps.GetIsLastPut | raft/item.go:75-90 | After any sequence of Puts, Get returns the last item put under a key of the same digest, or nothing if there was none |
| ItemMaps.RefinesPlainMap | raft/item.go:75-90 | The map agrees with the plain last-write-wins map from key bytes on all keys used if and only if md5 has no collision among them |
| ItemMaps.StoredMapIsImage | raft/item.go:75-79 | Without collisions the stored map has exactly the slots of the plain map, with the same items |
| Node.Node.DoReady | raft/node.go:133-163 | The method on the fields in place ends in the driver's state after the choices its outcome stands for, fails exactly when the driver does, keeps every live reference live, and takes exactly the references of the closed form |
| EventLoop.ServedRuns | raft/node.go:83-111 | Serving a script is a run of the ready driver, and with the results that came back from it a run of the error loop, on choices that are functions of the script |
| EventLoop.OneSenderPerError | raft/node.go:105-110 | The stop senders spawned are exactly as many as the iterations that ended with a non-nil error, whichever case they took |
| EventLoop.FailedLoop | raft/node.go:82-111 | In the loop itself, after a failed doReady and without pause requests: the error stays, the driver does not move, and every further iteration spawns one stop sender |
| EventLoop.ReturnsAtACause | raft/node.go:98-102 | Start has returned if and only if it found a cause that somebody or a stop sender of its own offered |
| EventLoop.CauseTaken | raft/node.go:98-109 | A stop sender's cause can be taken once one was spawned, and is the error at that time; anybody else's can always |
| EventLoop.LoopTurns | raft/node.go:83-111 | What a turn does to error, stop senders and the loop, for every case: the error is what the case returned, and a turn passed over leaves all of it |
| EventLoop.DoReadyReturns | raft/node.go:133-163 | Once its calls have returned, doReady is back in the event loop, whatever they returned |
| Node.Node.Start | raft/node.go:78-112 | Over any finite script of what select finds, node, gate and error loop end as serving the script turn by turn ends; the count of stop senders is that of the iterations that ended with an error; references are those of the driver's choices made |
| Node.Node.TakeTurn | raft/node.go:83-111 | Each case has exactly its effect on node, gate and error, and the turn is passed over exactly when raft would not deliver the Ready, the wait would not end, or no cause is offered |
| Node.Node.ReadyCase | raft/node.go:88-89 | A Ready is taken exactly when raft's contract allows it, and then the driver makes exactly the choices of its doReady; otherwise nothing changes |
| Node.Node.ProcessEntries | raft/node.go:145-160 | The entry loop stops at the first error and is otherwise the driver's step for each entry in order |
| Node.Node.SendMessages | raft/node.go:308-328 | Reads the peers once and records the events of the batch in order; one reference per known peer and one per call to a real one |
| Node.Node.AddEntry | raft/node.go:236-255 | Fields and error after a normal entry are the driver's, for every outcome of decoding and callback |
| Node.Node.AddConfChange | raft/node.go:257-285 | Fields and error after a conf change are the driver's; only an addition takes references, as many as its attempts and filing need |
| Node.Node.RemoveNode | raft/node.go:291-305 | Unregisters the node whatever stepping down came to, and leaves the live references as they were |
| Node.Node.AddNode | raft/node.go:287-289 | Registers through the bounded retrieval |
| Node.Node.StoreReady | raft/node.go:134-137 | The store comes first, and its error ends doReady with nothing sent or applied |
| Node.Node.CheckNoSnapshot | raft/node.go:141-143 | A Ready with a snapshot fails after its messages went out and before any entry |
| Node.Node.SendMessage | raft/node.go:311-327 | One message: stepped, called with a failure reported, or dropped, with the one reference a real call takes |
| Node.Node.StepDown | raft/node.go:295-304 | Stops its own raft, or campaigns, or neither, and fails exactly when the campaign does |
| Node.Node.PauseCase | raft/node.go:91-92 | A pause request whose wait ends has the effect of doPause on flag, queue, messages stepped and error; another changes nothing |
| Node.Node.constructor | raft/node.go:44-55 | A new node shows the driver's initial state, with a configuration of itself alone (raft/node.go:127-128), and is not paused, with an empty queue of capacity 0 |
| Node.Node.PutItem | raft/capnp.go:173-180 | Proposes exactly the item's text |
| Node.Node.Add | raft/capnp.go:39-73 | Proposes the addition of the node under the id it answers with, exactly when it resolves and answers; on acceptance returns, for each known peer once, a reference to it that is fresh and shared with no other |
| Node.Node.KnownPeers | raft/capnp.go:63-72 | Fills the slice with one reference to each known peer, fresh and distinct |
| Node.Node.Remove | raft/capnp.go:90-105 | Proposes the removal of the node under the id it answers with, exactly when it answers |
| HandleCost.TotalCostConcat | raft/node.go:308-337 | The closed form of the references a run takes adds up over its parts |
| Node.SendingCost | raft/node.go:320-322 | The references of a batch are one per message routed to a real peer |
| Capabilities.CapTable.AddRef | raft/view.go:27 | A fresh reference of the node's own, never live or released before, from one that can be used |
| Capabilities.CapTable.Release | raft/node.go:399 | Consumes one reference that the node took and has not released, which no one can use or release again |
| Capabilities.View.Peers | raft/view.go:24-31 | A distinct fresh reference to every peer in the view, which is unchanged; as many more live references as real peers |
| Capabilities.View.AddPeer | raft/view.go:34-37 | Files the peer under the id it answers with, or under 0 if it does not, and takes two references; what was filed there stays live |
| Capabilities.View.PopPeer | raft/view.go:40-46 | Takes the peer out and returns a fresh reference, or null for an unknown id; the one kept stays live |
| Retrieval.RegistersExactly | raft/node.go:367-389 | For any bound and any outcomes a peer is filed if and only if some attempt succeeds before which none failed with the context's error, and it is that attempt's, under the id it answers with or under 0 when it does not; otherwise the view is unchanged; a bound of zero files the null client |
| Retrieval.FirstGotDecides | raft/node.go:373-381 | The retry loop returns the node of the one attempt that decides, or an error when there is none |
| Retrieval.Register | raft/node.go:367-389 | The loop in place does this, and takes exactly the references of its attempts and of filing |
| Retrieval.RetrieveWithTimeout | raft/node.go:339-364 | One attempt: a node or an error, never both, with the references of goroutine and caller |
| Retrieval.Unregister | raft/node.go:392-400 | Drops the peer unless it is the node itself; what it releases is the reference just made, so the live ones are as before |
| RetrievalChannels.NeverBlocks | raft/node.go:344-361 | A retrieval goroutine whose callback returned can always send, in every run and after its caller gave up, if and only if the channels have room for one value |
| RetrievalChannels.GoroutineFinishes | raft/node.go:330-337 | With the code's capacity of one, its next step is its last |
| RetrievalChannels.ReceivesWhatWasReturned | raft/node.go:330-364 | Over every run a caller that has a node, or an error, has what the callback returned |
| RetrievalChannels.CallerReceives | raft/node.go:352-361 | A caller that still waits when the callback has returned can receive it with the goroutine's next step |
| RetrievalChannels.GivesUpAtTheEnd | raft/node.go:359-360 | A caller can give up for the end of the context if and only if it has ended |
| PauseProtocol.Reachable | raft/node.go:174-234 | In every state of every interleaving: mutual exclusion, every message where its sender's progress says, senders on the queueing path read the flag before it last fell, and the loop's place fits the flag |
| PauseProtocol.StepKeepsInv | raft/capnp.go:126-144 | Every step of every process keeps that invariant |
| PauseProperties.StuckForever | raft/capnp.go:136-139 | A sender inside the locked section with a full queue is absorbing: in every continuation the lock is never released, the flag and the queue never change, and nothing is handed over by churnQueue |
| PauseProperties.LockedForever | raft/capnp.go:136-139 | The lock, once held, is never released in any continuation if and only if the state is that one |
| PauseProperties.LoopDeadExactly | raft/node.go:174-234 | With the lock stuck, the event loop takes no tick, Ready or stop in any continuation, the end of the context included, if and only if it is about to take the lock, to set the flag or to churn |
| PauseProperties.RequestKillsLoop | raft/node.go:214-222 | With the lock stuck, one Pause or Resume that the loop takes, running or waiting, ends it for good |
| PauseProperties.UnbufferedQueue | raft/node.go:48 | At the code's capacity nothing is ever queued or churned, and every sender that reaches the channel send is stuck |
| PauseRuns.StuckHappens | raft/capnp.go:136-139 | Whatever the capacity, a run leads to the stuck state |
| PauseProperties.MessageConservation | raft/capnp.go:126-144 | Over all interleavings every decoded message is once, and in exactly one place: its sender's hand, the queue, the loop's hand, handed to Step by churnQueue, or by send; what was queued is what was churned and then what waits, in order |
| DirectSends.DirectExactly | raft/capnp.go:140-142 | Over every run what raft's Step got from send is exactly the messages of the senders that moved after reading the flag as false, in that order |
| DirectSends.PathExactly | raft/capnp.go:136-142 | Over every run a sender is on the way to raft, or to the queue, if and only if at some moment it read the flag as false, or as true |
| DirectSends.RunningSend | raft/capnp.go:126-144 | On a running node with the lock free, a send goes to raft's Step in its own four moves, with queue, lock and flag as before |
| PauseProperties.ChurnIsAtomic | raft/node.go:199-212 | Whatever others do meanwhile, churnQueue hands over a prefix of the queue it found, in order, one message for each result that Step returned in the run, up to the first failure, which consumes its message, and leaves the rest in order |
| PauseProperties.DrainGuarantee | raft/node.go:199-228 | When churnQueue unlocks to return nil the queue is empty; a message queued while the node is not paused is of a sender that read the flag before it last fell |
| PauseRuns.StragglerStays | raft/capnp.go:136-139 | Such a message does occur: a run after which the queue is drained, the flag is false and a message waits |
| Stragglers.StaysDrained | raft/capnp.go:136-139 | On a running node with a drained queue that has room, the queue stays empty in every continuation without a pause request if and only if no sender is past a check that read the flag as true |
| Stragglers.StragglerWaits | raft/node.go:199-212 | A message queued on a running node keeps its place in the queue until a pause request is taken |
| PauseProperties.PauseIsolation | raft/node.go:174-196 | Until the context ends, while the flag is true the loop is inside doPause and no tick, Ready, store, apply or stop is taken |
| PauseProperties.OnlyTheLoopWrites | raft/node.go:230-234 | Only the event loop changes the flag, holding the lock, so waitPause's unlocked read sees the locked value |
| PauseProperties.IsolationExactly | raft/node.go:174-196 | Over every run: the flag is true only while the loop is inside doPause, at every moment, if and only if waitPause takes the end of the context at none |
| PauseRuns.CancelLeavesPaused | raft/node.go:191-192 | Past the end of the context isolation fails: the loop works with the flag still true |
| Gate.ChurnedSplits | raft/node.go:199-212 | What churnQueue hands over and leaves is a split of the queue; only the last message handed over can have failed, and without a failure nothing is left |
| Gate.Gate.ChurnQueue | raft/node.go:199-212 | The drain loop on the queue in place does that split |
| Gate.Gate.WaitPause | raft/node.go:186-196 | Returns when the flag falls or the context ends, with an error and the flag still true exactly in the second case |
| Gate.EndsAtFirstOther | raft/node.go:186-196 | A paused node's wait ends at the first signal that is not another pause: without an error for a resume, with one for the end of the context |
| Gate.WaitsForResume | raft/node.go:186-196 | As long as every signal asks for a pause, the wait does not end |
| DoPauseRuns.DoPauseIsARun | raft/node.go:174-212 | A whole doPause, the signals as its requests and the results of Step as given, is a run of the concurrent protocol from the select of Start back to it, with the flag, queue and messages handed over that Gate.DoPause promises |
| DoPauseRuns.ChurnQueueRun | raft/node.go:199-212 | churnQueue from its call to its return, with an error or without, is a run of the protocol that gives the lock back and leaves what Churned says |
| Gate.Gate.DoPause | raft/node.go:174-183 | Sets the flag, waits, then churns, or returns the context's error with queue and flag left |
| Gate.Gate.Send | raft/capnp.go:126-144 | A text that is no message changes nothing; a paused node queues at the end, or blocks exactly at a full queue and changes nothing; another hands the message to Step and returns its error |
| StartLoop.FailureSticks | raft/node.go:82-111 | After a doReady failure and without pause requests, the error stays non-nil, every cause read is a real error, and each further iteration spawns exactly one stop sender |
| StartLoop.ErrorStays | raft/node.go:82-111 | Over every run from a failed doReady on: the error is non-nil at every moment if and only if no pause request is handled without an error while the loop runs |
| StartLoop.NilCause | raft/node.go:105-109 | A stop sender reads nil if and only if the last result assigned was nil, after an earlier one that was not |
| StartLoop.NilOffersAreRead | raft/node.go:65-75 | Over every run a nil cause is offered only if a stop sender read it: Stop makes up a cause when it is given none |
| StartLoop.CancelFirst | raft/node.go:94-96 | Over every run the loop can take the context's end if and only if it has ended and Start has not returned |
| StartLoop.NilCauseHappens | raft/node.go:82-109 | The run that shows it: a failed doReady, a pause request handled, and only then the stop sender |
| StartLoop.RunsAreSane | raft/node.go:82-111 | In every run the error is what was last assigned, ticks leave it, and a stop sender exists only after a real error |

## Left out

- The Raft algorithm of go.etcd.io/raft: only the contract of its user interface, as `Driver.Legal` and the
  functions beside it; likewise its MemoryStorage, ApplyConfChange ignoring node 0, and a stopped raft that
  reports no leader, refuses to campaign and ignores configuration changes. Its panic on removing the last
  voter is not modelled.
- proto/api and the RPC transport of raft/helper.go: an RPC is a choice between success and failure, a peer is
  an id it may answer with; raftpb.Message JSON and ConfChange protobuf are abstract decoders.
- JSON outside the compact objects with the two known members: `ItemCodec.Unmarshal` says nothing of other
  texts, and the end-to-end results hold for every decoder that agrees with it on those it covers. What a
  failing decode leaves in its receiver is not modelled; addEntry drops that receiver.
- 64-bit overflow of terms and indices: they are natural numbers; node ids are 64-bit.
- ItemFromApi and ItemToApi: copies between representations (the value slice of the first is shared with the
  RPC message, the key is not).
- Node.Init and lateConfig: the constructor is the state after Init; the configuration constants only reach
  the library.
- doStop: raft is stopped after a Fatalf that exits the process, so nothing of the node is left to observe;
  closing stopChan likewise.
- Ticks have no effect on what is modelled; timeouts and the context's end are choices.
- Liveness: that entries are committed, that pauses end, that goroutines are scheduled.
- Items, Members and Id RPC bodies, the WithX setters, PointerList, loggers and the example program.
- Node.Node.Start: runs one goroutine over a finite script, and its own stop senders read the error only when
  one of them is taken; what goroutines do between the loop's steps is in PauseProtocol and StartLoop.
- Gate.Gate.Send: says that a call blocks and not what follows from it; that is the Enqueueing place of
  PauseProtocol.
- Node.Node.DoReady: the references of Peers are counted when the store has returned, and those of a goroutine
  that comes by a node late are counted with its attempt.
- Node.Node.constructor: a node keeps its storage and callback for good, so WithX after Start is not modelled.
- Membership.MembershipAgreement: assumes a node id other than 0, which raft's configuration check demands, and
  a retry bound above 0.
