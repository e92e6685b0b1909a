# nbagent: a verified model

nbagent is a service-discovery and RPC-forwarding mesh. Clients register the entries they serve at an agent; the
agent's node advertises those entries to the other nodes, which keep replicas of each other's entries and an index
over them; requests are forwarded by that index and their responses find the way back by a stack of callers carried
in the message. This project models the parts of it that are hard to get right, as the code has them, and proves what
every run of them keeps.

The project is `dafny verify dfyconfig.toml`. State that the program updates in place is a class whose methods are
proved against functions on values, and the theorems about all runs are about those functions: `Info` and `NodeManager`
against the handlers of `Nodes`, `ClientInfo` and `ClientManager` against those of `Registry`, `ServerConnection` and
`Router.Process` against the steps of `Pending`, the methods on `RpcMessage` against the handlings of `CallerPath`,
`Buffer` against the stream of `Wire`, `AgentManager` against the operations of `Failover`.

- **Replication** (`Entries`, `Replica`, `Index`, `Node`, `NodeSteps`, `Mesh`, `MeshTheorems`, `Effects`,
  `Convergence`, `OwnRecord`, `Counterexamples`, `NodeManager`). A mesh of any number of nodes over a network that loses, duplicates,
  delays and reorders. Three invariants, each on top of the one before, say what which runs keep:
  - every run whatsoever: sequence number, version and history of a node's own entries stay in lock step, and how often
    the node is listed under a key is known exactly;
  - runs whose messages are truthful (`Mesh.Truthful`): a replica at version v is what its owner served after v changes,
    whatever its status and however late it is handled; one keepalive round repairs it, and once its owner is quiet it
    stays repaired, short of three steps that are named;
  - runs that are also timely (`Mesh.Timely`): the reverse index lists a live record exactly once per key it holds.

  `Effects` says what the handlers bring about: the next change arrives, a stopped node is stopped, the dead stay dead.
  For each clause of the two hypotheses there is a lemma that says exactly when it can be done without
  (`LateBroadcastFaithfulIff`, `TornSnapshotFaithfulIff`, `ResetPrefixIff`; `LateReplyRevives`, `LateGoodbyeExact`,
  `LateExpireExact`, `LateCloseExact`). `Counterexamples` holds runs from a fresh mesh with a late broadcast, a torn
  snapshot, a late reply, goodbye, timeout and close, and a withdrawal that strikes another entry.
- **Client registry** (`Registry`, `RegistryRuns`, `ClientManager`). The node advertises a key if and only if some
  client is listed for it; who is listed; one live record per instance id.
- **Pending calls** (`Pending`, `Connection`, `Router`). Responses, timeouts and cleanup racing over the table of
  waiting calls, as interleaved steps: what holds whatever ids are used, and exactly which reuse of an id does harm.
- **Wire** (`Wire`). Printing, stream splitting and parsing undo each other.
- **Caller stack** (`CallerPath`). A message in flight, one handler at a time: requests make at most one hop, and
  responses retrace their path.
- **The whole system** (`EndToEnd`). Agents and mesh as one machine: what clients register is what nodes add, and after
  one keepalive round a request for what some client serves reaches a client that serves it.
- **Failover and gossip** (`Failover`, `Gossip`).

Where the code differs from what it means to do, the model follows the code, and the difference is a theorem:

- `RemoveEntry` filters the index under the bare URI, so a node stays listed once per accepted addition, and a
  withdrawn URI that equals another entry's key strikes that entry (`OwnEntryFoundIff`, `ListingsAreAdditions`,
  `StruckEntryReached`).
- A broadcast reads the version when it is sent (`LateBroadcastFaithfulIff`, `LateBroadcastReached`).
- A snapshot reads version and entries one after the other (`TornSnapshotFaithfulIff`, `TornSnapshotReached`).
- `setInstanceID` zeroes the version and keeps the entries (`ResetPrefixIff`, `RestartKeepsStaleEntries`).
- A node that connects to its own name handles the hello on its own record: the hello does no harm, the full sync it
  starts loses every later local change if one was made meanwhile, and so does a change of instance (`OwnHelloHarmless`,
  `OwnReplyExact`, `OwnResetExact`, `OwnRunInStepIff`).
- A repeated or stale message can leave an up-to-date record syncing, and no keepalive at its version repairs that
  (`RoundConverges` states the status exactly, `StuckReached`).
- `deleteEntry`, the last close and `deleteClient` act by name or id, so late ones hit a successor
  (`LateGoodbyeExact`, `LateExpireExact`, `LateCloseExact`, `LateEndsReached`, `LateReplyReached`; `DeleteOneLiveIff`,
  `LateCloseReached`).
- A request id used while an earlier call under it can still time out lets that timeout hand the later call an empty
  success; a call whose write failed is no such call, and one past its deadline is, error or not (`SharedIdHarmsIff`,
  `ReusedIdReached`). For a full-sync call that is the event `EmptySync` of the mesh (`EmptySyncForgets`).
- A connection over which two instances register leaves the first client alive after it closed (`RegisterAttachedIff`,
  `SharedConnectionReached`).
- A responder whose caller is past its deadline is never released (`HeldDeliverableIff`, `AbandonedResponderReached`).
- `ClearGoodbyeTimeout` subtracts the wrong way round, so nothing ever expires (`ExpiryNeedsClockGoingBack`,
  `RecordedIffSaid`).
- `SwitchActiveAgent` chooses under one lock and stores under another: what it stores may have lost its pool, or have
  said goodbye, in between (`StoredIsPooledIff`, `StoredSaidGoodbyeIff`, and runs for each).
- An update committed before any agent was added files a nil pool under the empty host, which a later switch can make
  active (`EarlyCommitUsableIff`, `EarlyCommitMakesNilActive`).

## Model

| member | source | states |
|---|---|---|
| `Entries.NumberOfDigits` | protocol/node/node.pb.go:92-94 | the decimal name of an undeclared entry type reads back as that type |
| `Entries.KeyInjective` | node/node.go:330-336 | two entries share a key only if URI and type are the same, whatever underscores the URIs contain |
| `Replicas.SnapshotRebuilds` | node/node.go:228-246 | rebuilding an entry map from a reading of it, in any order, gives that map |
| `Replicas.ApplyAllWellKeyed` | node/node.go:281-290 | every entry stays filed under its own key and only additions are filed |
| `Replicas.Info.constructor` | node/node.go:42-56 | a new record is alive, at version 0, with no entries |
| `Replicas.Info.ModifyEntries` | node/node.go:268-293 | a version gap falls to syncing and changes nothing else; the next version applies exactly the effective entries, in order, and returns them |
| `Replicas.Info.SyncEntries` | node/node.go:228-246 | the record becomes alive at the snapshot's version with exactly the snapshot's entries |
| `Replicas.Info.NeedsSync` | node/node.go:308-316 | a sync is needed exactly if the versions differ, and then the record falls to syncing, from any status |
| `Replicas.Info.GetAllEntry` | node/node.go:295-306 | every entry is returned exactly once, whatever order the map yields |
| `Replicas.Info.MarkDead` | node/node.go:107-113 | only the status changes; the entries are returned, each once, and kept |
| `Replicas.Info.SetInstanceId` | node/node.go:338-341 | the version returns to 0 and the entries stay |
| `Indexes.DeleteEntriesIsDeleteKeys` | node/manager.go:539-553 | deleting entry by entry, in any order, is deleting the keys at once |
| `Indexes.DeleteKeysCount` | node/manager.go:539-553 | afterwards no record of that name occurs under any of the keys and every other occurrence is as before |
| `Indexes.AddEntriesCount` | node/manager.go:712-722 | re-adding a snapshot lists the record once more under each of the snapshot's keys and changes nothing else |
| `Indexes.ApplyChangeCount` | node/manager.go:592-611 | an addition adds one occurrence of the record, a withdrawal removes all of them, under that key only |
| `Indexes.OthersUntouched` | node/manager.go:592-722 | whatever a notify or a snapshot lists, no other record gains or loses an occurrence under any key |
| `NodeSteps.AddEntryOwn` | node/manager.go:802-836 | lock step and the count of own listings survive an addition, refused or accepted |
| `NodeSteps.RemoveEntryOwn` | node/manager.go:761-800 | lock step survives a withdrawal; own listings drop to none under the bare URI and nowhere else |
| `NodeSteps.AddEntryIndexed` | node/manager.go:809-813 | an addition leaves the listings of all other records in order |
| `NodeSteps.RemoveEntryIndexed` | node/manager.go:764-776 | a withdrawal leaves the listings of all other records in order |
| `NodeSteps.StopOwn` | node/manager.go:838-844 | stopping leaves sequence number, version and history in lock step |
| `Effects.StopTakesEffect` | node/manager.go:843-844 | stopping marks the own record dead, keeps its entries, version and sequence number and all other records, and delists the node's own name under every key it serves and nothing else |
| `Effects.StoppedForGood` | node/manager.go:802-844 | over every run after a stop the node stays stopped, accepts no addition, serves nothing it did not serve then and is not listed for anything it served then |
| `NodeSteps.StopIndexed` | node/manager.go:838-844 | stopping leaves the listings of all other records in order |
| `NodeSteps.PeerStepOwn` | node/manager.go:565-727 | nothing that is received for another node, late or not, touches how the node itself is listed |
| `NodeSteps.NotifyPrefix` | node/node.go:268-293 | a true notify, duplicated, late or early, keeps a record what its owner served at its version |
| `NodeSteps.SnapshotPrefixIff` | node/node.go:228-246 | a snapshot leaves a record what its owner served if and only if it names the entries of the version it carries |
| `NodeSteps.NotifyIndexed` | node/manager.go:565-616 | any true notify keeps the index in order; the owner's guard and the version gate together prevent a second listing |
| `Effects.ModifyAll` | node/node.go:276-290 | the next version applies every entry of a notify in order to a live record and reports them all, and only the withdrawals to a dead one |
| `Effects.NextNotifyTakesEffect` | node/manager.go:592-611 | the next change of an owner, addition or withdrawal, takes effect on a live record: it holds what its owner served after that change and is listed once under exactly those keys; nothing else moves |
| `Effects.NotifyAdvancesIff` | node/manager.go:582-612 | after every truthful and timely run a received notify moves a record to another version if and only if the record is live and the notify is the next one; otherwise a live record falls to syncing and one that is not live is left alone |
| `NodeSteps.StartSyncIndexed` | node/manager.go:696-697 | asking for a sync keeps the index in order for a record of any status, dead ones included |
| `Effects.StaysDeadIff` | node/manager.go:746-754 | over every run whatsoever a dead record stays dead throughout if and only if no snapshot and no hello of another version is handled for it; notifies, keepalives, goodbyes and timeouts leave it dead |
| `NodeSteps.SyncReplyIndexed` | node/manager.go:703-722 | a snapshot of any entry map leaves a registered record alive, at that version, with those entries and listed for them |
| `NodeSteps.GoodbyeIndexed` | node/manager.go:529-531 | a goodbye or timeout of a registered record keeps the index in order; that record is then listed nowhere and every other exactly as before |
| `NodeSteps.CloseLastIndexed` | node/manager.go:191-198 | the last close of a registered record keeps the index in order |
| `NodeSteps.LearnIndexed` | node/manager.go:369-375 | a newly met node is in order from the start |
| `NodeSteps.ResetPrefixIff` | node/node.go:338-341 | after a change of instance a record is what its owner served if and only if it holds nothing |
| `Mesh.OwnStep` | node/manager.go:565-836 | every step that is possible at all keeps every node's own entries in lock step and its own listings counted |
| `Mesh.PrefixStep` | node/manager.go:565-836 | every step whose message is truthful keeps every record, registered or not, what its owner once served |
| `Mesh.StepInv` | node/manager.go:565-836 | every truthful and timely step keeps the index in order as well |
| `Mesh.RunInv` | node/manager.go:565-836 | so do all runs, each invariant under its own hypotheses only |
| `MeshTheorems.ReplicaPrefixAgreement` | node/node.go:228-293 | after every run with truthful messages, whatever is lost, repeated, reordered or handled late, every record at version v, live, dead or replaced, holds exactly the owner's entries after v changes |
| `MeshTheorems.IndexAgreement` | node/manager.go:586-612 | after every truthful and timely run a live record is listed once per key it holds, a syncing one at most that, a dead one nowhere |
| `MeshTheorems.LookupRefinesScan` | node/manager.go:964-982 | the index lists, each once, all live holders of a key, and besides them only holders being synchronised |
| `MeshTheorems.DispatchTarget` | node/manager.go:904-942 | whatever remote record a dispatch picks is the registered one of its name, not dead, and its owner served the key at the record's version |
| `MeshTheorems.OwnerLockStep` | node/manager.go:778-816 | after every run whatsoever sequence, version and history agree, the entries are what all accepted changes add up to, and the next change is no gap |
| `MeshTheorems.LocalAdditionTakesEffectIff` | node/manager.go:815-816 | an accepted addition takes effect if and only if sequence number and version agree |
| `MeshTheorems.LocalWithdrawalTakesEffectIff` | node/manager.go:778-779 | so does the withdrawal of something served |
| `MeshTheorems.ServedIffLastIsAddition` | node/node.go:281-290 | a key is served if and only if the last change about it was an addition |
| `MeshTheorems.OwnEntryFoundIff` | node/manager.go:950-962 | after every run whatsoever, until the node stops: a served entry is listed under its key if and only if no withdrawn URI equal to that key struck it since it was added, and then EntryCheck finds it; without such a withdrawal it is listed once per accepted addition of that URI and type |
| `MeshTheorems.RemoteEntryFound` | node/manager.go:950-962 | after every truthful and timely run EntryCheck finds a key that any live record holds, and finds a key only if the node itself is listed for it or a record that is live or being synchronised holds it |
| `MeshTheorems.KeyCountsUriAndType` | node/node.go:330-336 | the additions under a key are the additions of its URI and type |
| `MeshTheorems.ListingsAreAdditions` | node/manager.go:761-775 | if no withdrawn URI equals the key, the node is listed once per accepted addition, withdrawn or not |
| `MeshTheorems.ListedIffNotStruck` | node/manager.go:766-774 | the node is listed under a key if and only if the key was added and not struck since |
| `Convergence.RoundIsRun` | node/manager.go:696-759 | the keepalive and the full sync it asks for are a truthful run of the mesh, timely if the record is registered |
| `Convergence.RoundConverges` | node/manager.go:729-759 | after any run with truthful messages, one keepalive and at most one full sync give a record that is not dead its owner's version and entries; it is live afterwards if and only if it was live or behind; further keepalives change nothing |
| `Convergence.RoundListed` | node/manager.go:703-722 | and a registered record is then listed once under exactly the owner's keys |
| `Convergence.StaysCaughtIff` | node/manager.go:565-759 | over every truthful run in which the owner accepts no change, whatever other nodes do and whatever stale message arrives, a record that is up to date stays so throughout if and only if no older or empty snapshot and no change of instance is applied to it |
| `Convergence.QuietOwner` | node/manager.go:641-642 | while an owner is quiet its history stays, and every message it sends carries its version |
| `Convergence.QuietOwnerConverges` | node/manager.go:696-759 | from any state with truthful messages, with any run before and after: once a record has taken a snapshot that its quiet owner sent, it holds what the owner serves at the owner's version, until one of those steps, and the owner's keepalives change nothing |
| `Convergence.EmptySyncForgets` | node/manager.go:702-704 | a full-sync call that succeeds with nothing leaves the record live, at version 0 and empty, and a keepalive asks again if and only if its version is not 0 |
| `Convergence.StuckSyncing` | node/node.go:268-273 | a repeated notify leaves an up-to-date record syncing, and neither keepalives at its version nor the next change help |
| `Convergence.LateBroadcastFaithfulIff` | node/manager.go:784-820 | a broadcast is true if and only if it carries the last change made when it is sent |
| `Convergence.TornSnapshotFaithfulIff` | node/manager.go:641-642 | a snapshot is true if and only if the entries it read are those of the version it read |
| `Convergence.LateGoodbyeExact` | node/manager.go:529-531 | a goodbye for a replaced record keeps the index in order if and only if no live record of that name shares a key with it |
| `Convergence.LateReplyRevives` | node/manager.go:702-706 | a sync reply for a replaced record always revives it beside its successor |
| `Convergence.LateCloseExact` | node/manager.go:193-196 | a last close of a replaced record is harmless if and only if its successor is retired too |
| `Convergence.LateExpireExact` | node/manager.go:306-321 | a timeout of a replaced record keeps the index in order if and only if its successor is not live and is listed under no key but those of the replaced record |
| `Convergence.RestartKeepsStaleEntries` | node/manager.go:360-366 | a restarted peer without changes never repairs what is held of its former instance |
| `OwnRecord.LostForever` | node/node.go:268-275 | once the sequence number is ahead of the record's version, no number of local changes has any effect, and it stays ahead |
| `OwnRecord.OwnHelloHarmless` | node/manager.go:357-366 | a hello under the node's own name keeps lock step whatever version it carries, and all later local changes take effect |
| `OwnRecord.OwnReplyExact` | node/manager.go:702-722 | the node's own snapshot applied to its own record keeps lock step, and later local changes take effect, if and only if none was made since the snapshot; otherwise all of them are lost |
| `OwnRecord.OwnResetExact` | node/manager.go:360-362 | a change of instance on the own record does so if and only if nothing was changed yet |
| `OwnRecord.OwnRunInStepIff` | node/manager.go:353-366 | over every run of local changes, own-name hellos, own snapshots read and applied and changes of instance, lock step holds throughout if and only if every own snapshot is applied before the next local change and the instance changes before the first |
| `Counterexamples.LateBroadcastBreaks` | node/manager.go:820 | from every state in which a live record is up to date, an earlier addition broadcast after a new one makes the record wrong at its version and listed twice |
| `Counterexamples.LateBroadcastReached` | node/manager.go:820 | such a run exists from a fresh mesh for any two nodes and any two entries with different keys |
| `Counterexamples.TornSnapshotBreaks` | node/manager.go:641-642 | from every state, for every registered record, a snapshot read around an addition makes the record wrong at its version, and the addition's own notify lists it twice |
| `Counterexamples.TornSnapshotReached` | node/manager.go:641-642 | such a run exists from a fresh mesh for any two nodes and any entry |
| `Counterexamples.StrikingWithdrawal` | node/manager.go:767-774 | from every state, for every served entry, adding and withdrawing an entry whose URI is its key leaves it served and not listed |
| `Counterexamples.StruckEntryReached` | node/manager.go:767-774 | from a fresh mesh, for any entry: it is served and EntryCheck does not find it |
| `Counterexamples.LateReplyReached` | node/manager.go:702-706 | from a fresh mesh, with truthful messages only: a late reply makes two live records of one node |
| `Counterexamples.StuckReached` | node/node.go:268-273 | from a fresh mesh, every hypothesis kept: a notify that comes after the snapshot of its version leaves an up-to-date record syncing, and keepalives do not help |
| `Counterexamples.LateEndsReached` | node/manager.go:191-198 | from a fresh mesh: a goodbye, a timeout and a last close of a replaced record delist or unregister its live successor |
| `NodeManagers.NodeManager.constructor` | node/manager.go:72-91 | a new manager is a new node |
| `NodeManagers.NodeManager.AddEntry` | node/manager.go:802-836 | carries out the addition on index, sequence number and own record, and returns what is to be broadcast |
| `NodeManagers.NodeManager.RemoveEntry` | node/manager.go:761-800 | carries out the withdrawal, filtering the index under the bare URI, and returns what is to be broadcast |
| `NodeManagers.NodeManager.Stop` | node/manager.go:838-856 | marks the node dead, delists it under its entries' keys and says goodbye to every known node |
| `NodeManagers.NodeManager.DeleteEntry` | node/manager.go:539-553 | removes every record of the name under each listed entry's key |
| `NodeManagers.NodeManager.Learn` | node/manager.go:369-375 | registers a new record for an unknown name and changes nothing for a known one |
| `NodeManagers.NodeManager.HandleSayHello` | node/manager.go:353-383 | registers the peer, or resets the version of the known record, the node's own included, if the instance changed |
| `NodeManagers.NodeManager.TrySync` | node/manager.go:696-702 | asks for a snapshot exactly if the versions differ |
| `NodeManagers.NodeManager.HandleNodeEntryNotify` | node/manager.go:582-612 | ignores records that are not alive, otherwise applies the notify to record and index |
| `NodeManagers.NodeManager.HandleKeepAlive` | node/manager.go:746-754 | asks for a snapshot exactly if the record is not dead and the versions differ |
| `NodeManagers.NodeManager.ApplySnapshot` | node/manager.go:703-722 | replaces what the record and the index hold of the peer by the snapshot |
| `NodeManagers.NodeManager.HandleSayGoodbye` | node/manager.go:529-531 | marks the record dead and delists its name under its keys |
| `NodeManagers.NodeManager.RemoveNode` | node/manager.go:555-563 | as a goodbye, and the name is forgotten |
| `NodeManagers.NodeManager.OnLastClose` | node/manager.go:191-198 | forgets the name of a dead record, by name |
| `NodeManagers.NodeManager.RemoteNodesByUri` | node/manager.go:964-982 | everything listed under the key but the node itself, in order and as often as it is listed |
| `Gossip.Sample` | node/manager.go:1004-1016 | from any start, exactly min(5, n) of the n peers, and none twice |
| `Registry.AddAllKeeps` | cli_agent/agent_manager.go:655-684 | after a registration the client is listed also under the registered keys and under nothing else new, and exactly the listed keys are advertised |
| `Registry.RemoveAllKeeps` | cli_agent/agent_manager.go:686-708 | after a removal the client is gone from the named keys only, and exactly the listed keys are advertised |
| `RegistryRuns.StepSound` | cli_agent/agent_manager.go:226-301 | every registration, unregistration, close and timeout keeps the board in order |
| `RegistryRuns.AdvertisedIffServed` | cli_agent/agent_manager.go:655-732 | in every run until the node stops, the node serves a key if and only if clients are listed for it, without repeats, and a request for it finds a client |
| `RegistryRuns.RegisteredImpliesListed` | cli_agent/agent_manager.go:280-301 | in every run a client in mClientInfo is listed under every key it registered |
| `RegistryRuns.RegisterExactIff` | cli_agent/agent.go:186-199 | a registration keeps the listing exact if and only if it does not shrink the instance's keys |
| `RegistryRuns.PickedClientServes` | cli_agent/agent_manager.go:710-732 | in every run whose registrations only grow, a key is advertised if and only if a live client registered it, and whichever client is picked is one, with a connection |
| `RegistryRuns.DeleteOneLiveIff` | cli_agent/agent_manager.go:226-236 | a deletion keeps one live record per instance if and only if the record was not replaced |
| `RegistryRuns.OneLiveRecordPerInstance` | cli_agent/agent_manager.go:156-163 | in every run without late closes, a record is alive if and only if it is the one its instance id leads to |
| `RegistryRuns.DeleteEnds` | cli_agent/agent_manager.go:226-236 | the end of a client: dead, its instance id unknown, listed for none of the keys it had registered; no other record or listing changes |
| `RegistryRuns.RegisterConnects` | cli_agent/agent.go:73-107 | a registration binds its connection to the instance's record, whose list keeps its connections in order and gains this one at its end unless it is there or the list is full |
| `RegistryRuns.CloseDisconnects` | cli_agent/agent_manager.go:156-170 | a close takes exactly that connection out of its client's list; the client is deleted if and only if none is left; no other record changes |
| `RegistryRuns.RegisterAttachedIff` | cli_agent/agent_manager.go:275-301 | a registration keeps every live record's connections open and bound to it if and only if it takes over no connection of another live record |
| `RegistryRuns.OpenIff` | cli_agent/agent_manager.go:156-170 | a connection counts as open if and only if some registration over it has no close of it after |
| `RegistryRuns.LiveClientHasOpenConnection` | cli_agent/agent_manager.go:156-163 | in every run whose registrations take over no live connection, a live client has connections, all of them open and bound to it; a client all of whose connections have closed is dead and, if registrations only grow, listed nowhere |
| `RegistryRuns.SharedConnectionReached` | cli_agent/agent_manager.go:275-301 | from a fresh agent: two instances over one connection that closes leave the first client alive with no open connection |
| `RegistryRuns.DroppedKeyStaysAdvertised` | cli_agent/agent_manager.go:285-301 | after a registration that drops a key and the client's end, the dead client stays listed for it and the node keeps advertising it |
| `RegistryRuns.DroppedKeyReached` | cli_agent/agent_manager.go:285-301 | such a run exists from a fresh agent |
| `RegistryRuns.LateCloseReached` | cli_agent/agent_manager.go:156-163 | from a fresh agent: a first connection that closes after its client registered again leaves the new record alive and its instance id unknown |
| `ClientManagers.ClientInfo.OnClose` | cli_agent/agent.go:55-71 | exactly the connection is removed and the number left returned |
| `ClientManagers.ClientInfo.Connect` | cli_agent/agent.go:73-107 | a connection is added once, to a live client, up to the limit |
| `ClientManagers.ClientInfo.Sync` | cli_agent/agent.go:186-199 | the entries become exactly the registered ones and the client is alive |
| `ClientManagers.ClientInfo.GetAllEntry` | cli_agent/agent.go:201-211 | every registered key is returned, whatever order the map yields |
| `ClientManagers.ClientInfo.MarkDead` | cli_agent/agent.go:113-132 | only the status changes; the entries are returned |
| `ClientManagers.ClientManager.AddEntry` | cli_agent/agent_manager.go:655-684 | lists the client under every key and tells the node about each new key |
| `ClientManagers.ClientManager.RemoveEntry` | cli_agent/agent_manager.go:686-708 | delists the client and tells the node about each key left without one |
| `ClientManagers.ClientManager.Delete` | cli_agent/agent_manager.go:226-236 | marks the client dead, delists its current entries and forgets its instance id |
| `ClientManagers.ClientManager.OnCloseConnection` | cli_agent/agent_manager.go:156-170 | the last connection of a client deletes it; an unregistered one changes nothing |
| `ClientManagers.ClientManager.HandleUnregister` | cli_agent/agent_manager.go:311-341 | deletes the client the connection is bound to; an unbound one changes nothing |
| `ClientManagers.ClientManager.HandleRegister` | cli_agent/agent_manager.go:275-301 | binds the connection, replaces the instance's entries or starts a new record, and lists them |
| `ClientManagers.ClientManager.Pick` | cli_agent/agent_manager.go:710-732 | a client listed for the key if there is one, by hash or at random |
| `Pending.StepInv` | network/common.go:68-110 | every step of a responder, a caller, a timeout or a cleanup keeps every context accounted for, whatever ids are used |
| `Pending.RunInv` | rpc/call.go:50-92 | so does every interleaving of them |
| `Pending.ChannelSafety` | network/common.go:68-110 | in every interleaving, whatever ids are used, a context leaves the table at most once, its channel is closed at most once, and never while or after it is sent on |
| `Pending.ResponseIsOwn` | rpc/call.go:67-91 | in every interleaving, whatever ids are used, a returned response has the call's own id, was taken for it and reaches no other caller |
| `Pending.SuccessIsOwnResponse` | rpc/call.go:67-91 | if calls begin under unused ids, a call succeeds only with such a response |
| `Pending.SharedIdHarmsIff` | network/common.go:91-110 | in every reachable state a call begun now can come to succeed with nothing if and only if an earlier call under its id is past its deadline, or waiting without an error |
| `Pending.ReusedIdReached` | node/node.go:213-226 | two calls under one id, the empty one included, suffice for an empty success |
| `Pending.HeldDeliverableIff` | router/router.go:94-99 | a responder that holds a context is released in some continuation if and only if the caller is still in its select |
| `Pending.HeldSucceedsIff` | rpc/call.go:67-80 | a call whose context is held for a frame returns that frame in some continuation if and only if its caller is still waiting |
| `Pending.DeliveredIffReturned` | rpc/call.go:67-80 | in every interleaving whose frames can be parsed, a call has returned a frame if and only if it was delivered to it |
| `Pending.WaitingCallFails` | rpc/call.go:61-91 | a failed write ends a waiting call in failure; past its deadline without an error it can go on to fail with nothing left in the table under its id |
| `Pending.CleanedCallFails` | network/common.go:68-80 | after a cleaning that finds a waiting call in the table, both the closed channel and the cancelled deadline end it in failure |
| `Pending.ResponseReached` | rpc/call.go:50-80 | from the start: a call whose response arrives in time succeeds with it |
| `Pending.AbandonedResponderReached` | rpc/call.go:81-91 | a response that arrives just after the deadline leaves its responder waiting for good |
| `Connections.ServerConnection.AddRpcContext` | network/common.go:100-110 | files a fresh open context under the id: the step `Begin` of the pending calls |
| `Connections.ServerConnection.GetRpcContext` | network/common.go:81-89 | takes the context out of the table, open: the step `Take` |
| `Connections.ServerConnection.RemoveRpcContext` | network/common.go:91-98 | closes and removes whatever is filed under the id, the caller's own context or another's: the step `Withdraw` |
| `Connections.ServerConnection.CleanAllRpcContext` | network/common.go:68-80 | every context is marked, cancelled and closed once and the table is empty: a run of the cleaning steps only |
| `Connections.ServerConnection.CallersLeaveIt` | rpc/call.go:61-91 | what callers do between these calls leaves the connection in step with the pending calls |
| `Routers.Router.RegisterRouter` | router/router.go:114-125 | a URI is registered once |
| `Routers.Router.Process` | router/router.go:50-111 | a response goes to the call waiting under its id, as the step `Take` of the pending calls, else to a handler; requests and casts to a handler; everything else is rejected |
| `Wire.NumbersReadBack` | protocol/common.go:25-38 | lengths read back modulo their width |
| `Wire.StringReadsBack` | protocol/common.go:25-54 | a string reads back if it is shorter than 65536 bytes, and otherwise never |
| `Wire.ParseReadsBackIff` | router/router.go:57-72 | all four fields of a message come back if and only if neither string outgrew its 16-bit length |
| `Wire.SplitFrame` | network/common.go:162-204 | a frame within the limit is delivered as its payload and the stream goes on right behind it |
| `Wire.StreamDeliversAllIff` | network/common.go:162-204 | a stream of frames is delivered completely and in order if and only if every frame is within the limit |
| `Wire.TruncatedStream` | network/common.go:187-203 | every proper prefix of a stream delivers its complete payloads, then at most one shorter remainder, and nothing else |
| `Wire.MessagesRoundTrip` | protocol/common.go:57-79 | messages written one after another are read back as themselves, in order |
| `Wire.WriteString` | protocol/common.go:42-54 | appends the wrapped 16-bit length and all bytes |
| `Wire.NewProtocol` | protocol/common.go:57-79 | the frame of the message, its declared size the size of what follows modulo 2^32 |
| `Wire.ReadText` | protocol/common.go:25-40 | reads a string or what is left of it; fails only without a length |
| `Wire.ParseMessage` | router/router.go:57-72 | parses the header and leaves the body |
| `Wire.ReadLoop` | network/common.go:162-204 | delivers exactly the payloads of the stream |
| `CallerPath.RpcMessage.PushStack` | protocol/caller/caller.go:29-31 | appends the caller |
| `CallerPath.RpcMessage.PopStack` | protocol/caller/caller.go:33-42 | undoes the last push, and fails only on an empty stack |
| `CallerPath.Journey` | cli_agent/agent_manager.go:403-562 | whatever the stack, mode, key, choices and changes meanwhile, every sequence of handlings makes at most one hop between nodes and at most as many back; the stack grows and shrinks by the sender and its node only; an answer comes at the origin, under the request id, with the initial stack |
| `CallerPath.ReturnPathReversesForwardPath` | cli_agent/agent_manager.go:494-562 | from any client a request reached, the echoed response comes back if and only if the serving node still knows the origin and the origin still has the sender's instance, alive and connected; then to that instance's record, over the request's own connection if still open |
| `CallerPath.RequestAtAgent` | cli_agent/agent_manager.go:403-465 | carries out the handling of a client's request by pushes on the message |
| `CallerPath.ResponseAtAgent` | cli_agent/agent_manager.go:471-575 | carries out the handling of a client's response by a pop from the message |
| `CallerPath.ResponseAtNode` | cli_agent/agent_manager.go:804-842 | carries out the handling of a response from another node by a pop from the message |
| `CallerPath.LocalAnswerFindsClient` | cli_agent/agent_manager.go:427-431 | a call answered "call yourself" finds a client |
| `CallerPath.ForwardedElsewhere` | node/manager.go:900-921 | LOCAL_BETTER forwards only what is not served locally, to a listed node other than itself |
| `CallerPath.DispatchDecides` | node/manager.go:889-948 | every mode decided exactly by what the node serves, whether it is stopped and what is listed; what is forwarded goes to a listed node with this node as last caller |
| `CallerPath.AnyListedCanBeChosen` | node/manager.go:904-942 | every listed node a request may go to is the one it goes to for some choice |
| `CallerPath.AnyClientCanBeCalled` | cli_agent/agent_manager.go:710-732 | every live client listed for a key, and every connection of it, is called for some draw |
| `EndToEnd.StepJoined` | cli_agent/agent_manager.go:655-708 | every step of clients or mesh keeps every agent's board in order and its node the mesh's node, no hypothesis needed |
| `EndToEnd.RunInv` | cli_agent/agent_manager.go:655-732 | so do all runs of the system, and under the hypotheses replicas, index and client lists are exact as well |
| `EndToEnd.ArrivesIffServed` | cli_agent/agent_manager.go:768-801 | a request cast to a node is handed, over one of its connections, to a live client that registered the key if and only if the node serves the key, and is given up otherwise |
| `EndToEnd.AnnouncedIsSent` | node/manager.go:778-836 | an accepted change of a node is in the mesh as a notify of its own version, and as the last change of the node's history |
| `EndToEnd.RequestDecided` | cli_agent/agent_manager.go:420-465 | a client's request at its own node: LOCAL_FORCE reaches a serving client here if and only if the node serves the key and is given up otherwise; LOCAL_BETTER does too, else is cast elsewhere if and only if another node is listed; DEFAULT is cast if and only if one is listed; an invalid mode or an unregistered connection is given up |
| `EndToEnd.ForwardedRequestArrives` | node/manager.go:889-948 | a request forwarded to another node by an up-to-date record reaches a client there that serves it |
| `EndToEnd.ServedKeyIsFound` | node/manager.go:900-942 | a request for a key some client of a node serves is not given up where a live and up-to-date record of that node is held |
| `EndToEnd.ServedKeyIsReachable` | node/manager.go:889-948 | after every run of the system under the hypotheses and one keepalive round, a request for what a client of the owner serves is handed on, and cast to the owner it reaches a live client that registered the key |
| `EndToEnd.ReachableFromTheStart` | cli_agent/agent_manager.go:275-301 | from a fresh system, for any two nodes and any entry, a run meets everything the previous row asks for |
| `Failover.StepInv` | client/agent_manager.go:74-243 | every operation keeps the active host pooled, every pool filed under its own host and every goodbye recorded |
| `Failover.RunInv` | client/agent_manager.go:74-190 | so does every run, updates and switches split in two, whose switches store pooled hosts |
| `Failover.ActiveAlwaysPooled` | client/agent_manager.go:74-190 | in every run whose switches store pooled hosts, from the first addition on, the active host is a key of the pool map, and what is filed there is a pool of that host if and only if the active host is not empty |
| `Failover.OneStepSwitchesAreSafe` | client/agent_manager.go:164-190 | a run whose switches are one step each is such a run |
| `Failover.ActiveAlwaysUsable` | client/agent_manager.go:111-155 | without a commit before the first addition it is always such a pool |
| `Failover.EarlyCommitMakesNilActive` | client/agent_manager.go:151-187 | an early commit, any addition and a switch can leave the nil pool active |
| `Failover.CommitResult` | client/agent_manager.go:111-155 | an update leaves exactly the announced hosts and the active one, whatever happened between its halves |
| `Failover.AddResult` | client/agent_manager.go:74-90 | an addition leaves the host pooled, by the pool it had if any, keeps every other pool and makes the host active if and only if none was |
| `Failover.DeleteResult` | client/agent_manager.go:93-108 | a deletion takes away exactly the named host unless it is active |
| `Failover.UpdateOverRun` | client/agent_manager.go:111-155 | planned at one time and committed at another, with anything in between, an update leaves exactly the announced hosts, with the pools they had when planned, and the host active then, with the pool it has |
| `Failover.EarlyCommitUsableIff` | client/agent_manager.go:151-154 | a committed update files nothing under the empty host if and only if there was an active host |
| `Failover.PooledIffNotLost` | client/agent_manager.go:74-155 | over every run, a host is pooled at the end if and only if it was pooled or restored and every deletion of it and every update without it, while it was not active, was followed by its addition or an update that keeps it |
| `Failover.StoredIsPooledIff` | client/agent_manager.go:169-187 | a switch in two halves with any run in between makes a pooled host active if and only if that run did not drop the host without restoring it |
| `Failover.PooledThroughoutIff` | client/agent_manager.go:164-190 | the active host is pooled throughout a run if and only if every host is pooled when it is stored |
| `Failover.DeletedBeforeStored` | client/agent_manager.go:93-187 | from the start: a host deleted between the two halves of a switch becomes active without a pool |
| `Failover.UpdatedBeforeStored` | client/agent_manager.go:111-187 | from the start: so does a host that an update in between does not announce |
| `Failover.RecordedIffSaid` | client/agent_manager.go:206-243 | in every run whatsoever exactly the hosts that said goodbye are recorded, however much time passes |
| `Failover.LastGoodbyeCounts` | client/agent_manager.go:206-222 | the time recorded for a host is that of its last goodbye, whatever happens after |
| `Failover.NeverChosenAgain` | client/agent_manager.go:164-178 | in every run a host that said goodbye is never chosen again, by a switch in one step or two |
| `Failover.StoredSaidGoodbyeIff` | client/agent_manager.go:169-187 | a switch in two halves makes a host active that said goodbye if and only if it said so in between |
| `Failover.GoodbyeBeforeStored` | client/agent_manager.go:169-187 | from the start: such a run |
| `Failover.ExpiryNeedsClockGoingBack` | client/agent_manager.go:224-243 | a goodbye expires if and only if it is dated more than the timeout after the present |
| `Failover.AgentManager.Add` | client/agent_manager.go:74-90 | the first host becomes active; a known host keeps its pool |
| `Failover.AgentManager.Delete` | client/agent_manager.go:93-108 | removes a host unless it is active |
| `Failover.AgentManager.PlanUpdate` | client/agent_manager.go:111-145 | known hosts keep their pool, new ones get one of their own, others are dropped |
| `Failover.AgentManager.CommitUpdate` | client/agent_manager.go:147-155 | the plan replaces the pools, the active host carried over |
| `Failover.AgentManager.ChooseAgent` | client/agent_manager.go:169-180 | finds a pooled host that did not say goodbye and is not active if and only if there is one |
| `Failover.AgentManager.SwitchActiveAgent` | client/agent_manager.go:164-190 | with nothing between its halves: lands on a pooled host that did not say goodbye whenever there is another one, else changes nothing |
| `Failover.AgentManager.SwitchToOtherAgent` | client/agent_manager.go:192-204 | switches only away from the named host |
| `Failover.AgentManager.HandleGoodbye` | client/client.go:357-364 | the goodbye is recorded, and the host left behind if it was active and there is anywhere to go; otherwise the active host stays |
| `Failover.AgentManager.ClearGoodbyeTimeout` | client/agent_manager.go:224-243 | removes exactly the records the test as written calls overdue |

## Left out

- A node's connections to its own name are no events of the mesh; what they do to its own record over whole runs is in `OwnRecord`, and how a full sync with itself relists the node in its own index is not stated.
- Casts between nodes are taken to arrive or to be lost. In DEFAULT mode a node may cast to itself: that goes over the own record's connection, which is missing until the node has dialled itself, and the cast is then lost.
- In `EndToEnd` the changes that one client event makes to a node are one step, each with its broadcast; stopping is left out there.
- NodeManagers.NodeManager.Stop: does not set the manager's own status, because the checks of that status are not modelled.
- NodeManagers.NodeManager.HandleSayHello: does not add the connection, which is an event here, and leaves the sync task to `TrySync`.
- NodeManagers.NodeManager.HandleKeepAlive: does not meet the gossiped neighbours; each of them is a `Learn` of its own.
- NodeManagers.NodeManager.OnLastClose: does not count connections; that none is left is the event.
- ClientManagers.ClientInfo.Connect: does not close a refused connection, and takes the default limit of 10.
- ClientManagers.ClientInfo.MarkDead: does not close the client's connections; their closing is an event of its own.
- Atomicity: a handler is one step, except where it waits for a reply, broadcasts from a task, or is split because a theorem says so; races inside a handler are not modelled.
- Restarted peers: a mesh run covers one instance of every node; what a change of instance does is stated for the step alone.
- Versions and sequence numbers are unbounded; the wrap-around of 64-bit counters is not modelled.
- `CallContext.Start` and the callers' select are steps of the interleaving in `Pending`, not an object of their own; update in place is shown for the connection's table and the contexts' channels.
- The dispatchers and RPC handlers of `CallerPath` work on an object only as far as the message's stack goes; nodes and agents are values there.
- Pointers to records are modelled as ids that a map leads to; aliasing beyond that is not.
- Random choice and the CRC-32 of a key are an arbitrary number.
- Sockets, dialling, reconnecting, timers and connection limits between nodes appear only as the events they cause.
- Protobuf and JSON encodings: bodies are opaque, callers are a datatype, and an unreadable caller is a case of it.
- HMAC signatures, their timeouts and the checks that a manager is still started.
- Replies that report an error to the caller, and the client's keepalive reply.
- `ClientManager.Stop`, `CheckAgentUri`, `GetAllEntry` of the manager and the client's connection pools: no state of interest.
- Logging, metrics, configuration, task workers, benchmarks, examples and generated code.
