# Port forwarder: registries that agree

The port forwarder keeps several tables about the same forwarding rules: the engine's rules and listeners, the SSH
manager's rules and clients, each client's wanted rules and open remote listeners, the rule tables of the tunnel's two
ends, the credential store, and two files on disk. This project models how those tables change and proves that they
stay in agreement under adding, updating, removing, losing a connection, reconnecting, deleting a credential and
restarting the daemon.

Every operation is first a function from states to states. What the source changes in place is also a class with the
source's fields and loops, each method proved to do what its function says; the properties are proved about the
functions, and so hold of the objects. What runs concurrently is a machine of single steps, and the properties hold in
every state that any sequence of steps leads to. A step that is not enabled changes nothing, so a run is simply any
sequence of steps.

The network is a ledger: every listener and channel ever created, and how often each was closed. What the outside
decides is a parameter of the step: whether and at which address a listen request would be granted (never an address
that an open listener holds), whether a dial succeeds, whether a credential can log in, in which order Go ranges over
a map.

| module | what it models |
|---|---|
| `Common`, `Network`, `Rules`, `Decimal`, `Backoff` | walks over map keys, listener and channel ledgers, rule records, decimal numbers, reconnect delays |
| `Protocol` | the handshake line of a data connection and the buffered reading of it |
| `TunnelServer` | the server's sessions: `register`, `unregister`, `serve`, `close` |
| `TunnelClient` | the tunnel client object and its reconnect loop |
| `Tunnel`, `TunnelProgress` | both ends with first-in-first-out connections, loss and reconnect, and how delivering their frames brings the tables together |
| `TunnelOpen`, `TunnelCrossing`, `TunnelTargets` | concurrent `openData` and `handleOpen` calls, down to their single steps, over any number of sessions, when a connection can be relayed to another one's data, and how it gets to its target |
| `Relay`, `RelayDelivery` | the two copying goroutines of a relay and their shared once, what they deliver, and what they lose |
| `Engine`, `EngineProofs`, `EngineRuns`, `EngineEffects`, `EngineObject` | the rule engine and its rule file |
| `Credentials` | the credential store |
| `SshClient`, `SshClientScript`, `SshClientObject` | the reverse-forwarding SSH client, and its life as the reconnect loop sees it |
| `Manager`, `ManagerObject` | the manager of one client per credential |
| `EnsureClient`, `EnsureOrphans` | `ensureClient` and `RemoveCredential` interleaved at every point where they release the lock, and when a client outlives its credential |
| `Backend`, `Api`, `ApiProofs`, `ApiRuns`, `ApiEffects`, `ApiFiles`, `ApiObject` | the API operations over engine, manager, clients, credential store and files together: what they keep, what each does, and what outlives a restart |

Properties that do not hold of the code are stated exactly. Each has a condition for when the code meets it, and an
input or a run that shows it can fail:

- Deleting a credential does not outlive a restart when the rule file still has a rule that uses it, for
  `deleteCredential` (internal/api/api.go:252-265) does not save the rule list. The documentation says that deletion
  removes every such rule (README.md:62); in memory it does. Condition: `ApiRuns.DeletionOutlivesRestartIff`; failing
  runs: `ApiRuns.DeletedUserComesBack`.
- Deletion finds its rules through `List`, which misses a rule whose ID is not the plain decimal of a number from 1 to
  the counter; only a rule file can bring one in. Condition: `EngineProofs.ListExactIff` and
  `ApiProofs.DeletionCompleteIff`; failing input: `EngineProofs.ListCanMiss`.
- A public connection can be relayed to a data connection dialled for another session's open frame, for connIDs start
  again in each session and data addresses are reused. It never is while no other frame was sent with the same connID
  and data address (`TunnelOpen.Pairing`). For a connection that waits for its data, the exact condition is that the
  first data connection at its listener was dialled for such a frame, or that none is there yet and such a frame has
  not been dialled for: `TunnelCrossing.CrossingPossibleIff`; failing run: `TunnelCrossing.LateDialCrossesSessions`.
- A `register` that a session handles after it was closed leaves a listener that nothing closes. Condition:
  `TunnelServer.RegisterLateConservesIff`; failing run: `TunnelServer.LateRegisterHappens`.
- Under interleaving a client can stay published for a credential that is gone. It cannot while `ensureClient` and
  `RemoveCredential` calls on one credential do not overlap. Condition: `EnsureOrphans.SerialRunStaysStored`,
  `EnsureOrphans.OverlapEndangersIff` and `EnsureOrphans.OrphanPossibleIff`; failing run:
  `EnsureOrphans.ClientOutlivesCredential`.
- Starting a rule that has a listener loses the old listener. Condition: `EngineProofs.BindConservesIff`; failing calls:
  `EngineProofs.RestoreOverLiveLeaks`.
- Adding a rule to an SSH client that serves other fields under its ID leaves them served. Condition:
  `SshClient.AddKeepsInvIff`; failing calls: `SshClient.ChangedRuleIsNotServed`.
- Registering a rule that another client still wants leaves two clients wanting it. Condition:
  `Manager.AddRemoteKeepsInvIff`; failing calls: `Manager.MovedRuleIsWantedTwice`. Fresh IDs, and removing before
  adding, are what keeps these last three from happening.
- A credential update or deletion whose write fails leaves memory and file different. Condition, with the failing
  cases: `Credentials.UnsavedUpdateIff` and `Credentials.UnsavedDeleteIff`.
- The ID of a deleted credential can be given out again after a restart, and a rule that came back from the rule file
  then names somebody else's credential. Condition: `Credentials.DeletedIdReusedIff`; failing runs:
  `Credentials.DeletedIdComesBack` and `ApiRuns.StaleRuleNamesNewCredential`.
- Relay does not copy until both directions are done, as its comment says (internal/forward/forward.go:9-10): the first
  direction to end closes both connections. Condition: `RelayDelivery.CutPossibleIff`; failing run:
  `RelayDelivery.EndCutsOther`. What it does deliver is said by `RelayDelivery.RelayDelivers`.
- Not every change of a rule is written through to the rule file, as the comment on the store says
  (internal/api/api.go:24-25): a rule whose listen is refused stays in the table and is not saved, and neither is what
  the deletion of a credential removes. Condition: `ApiFiles.FileCurrentIff`; failing run:
  `ApiFiles.RefusedRuleIsNotSaved`.
- An SSH client that is cancelled on a connection keeps its remote listeners in its table. Condition:
  `SshClientScript.CancelledLeavesListenersIff`.
- `parseDataHeader` does not look at the prefix: `Protocol.ParseAccepts` says exactly what it accepts.

## Model

| member | source | states |
|---|---|---|
| `ApiRuns.RegistriesAgree` | internal/ssh/manager.go:57-111 | after every sequence of rule and credential requests, whatever writes fail, client connects and drops, and daemon restarts: the engine's remote rules and the manager's rules have the same IDs and fields, `byRule` names each rule's credential, whatever a client wants is a rule of its credential with that rule's fields, and a rule is wanted by the client of its credential if and only if that credential was usable when the rule was last registered |
| `ApiRuns.PlacedRuleIsServed` | internal/ssh/client.go:131-140 | after every such sequence, a rule whose credential was usable at its last registration has a client, and after a successful dial its listener is open with the engine's fields at the granted address if and only if it has the first claim to an address in that walk |
| `ApiRuns.CredentialDeletion` | internal/api/api.go:252-265 | in every reachable state, deleting a credential removes exactly its remote rules, its client and itself; every other rule, listener, client and credential is unchanged |
| `ApiRuns.DeletionOutlivesRestartIff` | internal/api/api.go:252-265 | the deletion outlives a restart if and only if the rule file last saved has no remote rule with that credential |
| `ApiRuns.DeletedUserComesBack` | internal/api/api.go:252-265 | from every reachable state: create a remote rule, delete its credential, restart, and a rule that uses the deleted credential is back |
| `ApiRuns.StaleRuleNamesNewCredential` | internal/ssh/credentials.go:47-55 | from every reachable state: create a remote rule on a credential, delete the credential, restart, add another credential; if the deleted ID is the next one after the reload, the rule names the new credential |
| `ApiRuns.RebootUsers` | main.go:212-219 | a restarted engine has a remote rule with a credential if and only if the rule file has one |
| `ApiFiles.WrittenRequestIsSaved` | internal/api/api.go:30-39 | in every reachable state, a create, delete or update that succeeds and is written leaves exactly one entry in the rule file for each rule of the engine, with that rule's type, name, listen, target and credential, and no other entry; nothing else touches the file |
| `ApiFiles.RequestSurvivesRestart` | internal/api/api.go:84-126 | such a request outlives a restart: a deleted rule is not in the restarted engine, a created or updated one is there with the fields requested, and every other rule has the fields it had before |
| `ApiFiles.FileCurrentIff` | internal/api/api.go:24-39 | in every reachable state with an up-to-date file, a step leaves it up to date if and only if it is saved or changes no rule: not if a write fails, a listen is refused, or a credential in use is deleted |
| `ApiFiles.FileStaysCurrent` | internal/api/api.go:24-39 | so the file is up to date after every run of such steps |
| `ApiFiles.RefusedRuleIsNotSaved` | internal/api/api.go:93-99 | a local rule whose listen is refused is in the table, in error, and neither in the file nor there after a restart |
| `ApiFiles.RebootIsCurrent` | main.go:196-219 | after a restart the file is up to date, whatever it was before |
| `ApiEffects.CreateRuleEffect` | internal/api/api.go:84-101 | creating a rule: under a fresh ID with the fields requested, listening or registered; the client of its credential wants it field by field and serves it at once exactly if it is connected and its host grants a free address; nobody else is touched |
| `ApiEffects.UpdateRuleEffect` | internal/api/api.go:112-126 | updating a rule: name, listen, target and a remote rule's credential are the arguments, in the engine, at the manager and at the client, which serves the new fields at once if it is connected and its host grants a free address; ID, type and all other rules stay |
| `ApiEffects.DeleteRuleEffect` | internal/api/api.go:103-110 | deleting a rule: no engine rule, listener, manager rule, wanted rule or remote listener is left of it, and everything else stays |
| `ApiEffects.RestartRulesEffect` | internal/api/api.go:128-132 | restarting the rules: every local rule listens and is running or is in error and does not, at the address granted to it if those are free and distinct; manager and file stay |
| `ApiEffects.StoreFollows` | internal/api/api.go:155-265 | the credential store changes by the credential requests and restarts, each by the store operation it stands for, and by nothing else |
| `ApiEffects.CredentialSurvivesRestart` | internal/api/api.go:155-265 | a credential request that reaches the file outlives a restart: the new daemon has the credentials before it with the one added, replaced or removed |
| `ApiProofs.DispatchKeepsInv` | internal/engine/engine.go:46-52 | an engine step whose backend calls track its remote rules keeps engine, manager, clients, store and file in agreement |
| `ApiProofs.ServeFollows` | internal/ssh/manager.go:57-81 | a manager that follows calls which never re-register a live ID keeps its own invariant and ends up with exactly the rules the calls add up to |
| `ApiProofs.CreateRuleKeepsInv` | internal/api/api.go:84-101 | creating a rule, granted or refused, keeps the joint invariant |
| `ApiProofs.UpdateRuleKeepsInv` | internal/api/api.go:112-126 | updating a rule keeps the joint invariant, also when it moves to another credential |
| `ApiProofs.DeleteRuleKeepsInv` | internal/api/api.go:103-110 | deleting a rule keeps the joint invariant |
| `ApiProofs.RestartRulesKeepsInv` | internal/api/api.go:128-132 | restarting all rules keeps the joint invariant, in whatever order the rules come up |
| `ApiProofs.RebootKeepsInv` | main.go:196-219 | a daemon started from the two files satisfies the joint invariant |
| `ApiProofs.PurgeExact` | internal/api/api.go:255-259 | removing listed rules while the list is worked through removes exactly the listed users of the credential and touches no other client |
| `ApiProofs.ListedUsersAreAll` | internal/api/api.go:255-259 | `List` misses no rule that uses the credential |
| `ApiProofs.DeleteIsExact` | internal/api/api.go:252-265 | the exactness of one deletion, from the joint invariant alone |
| `ApiProofs.DeletionCompleteIff` | internal/api/api.go:252-265 | whatever the rule file brought in: the engine loses exactly those users of the credential that `List` can find, so deletion is complete there if and only if every user's ID is the plain decimal of a number from 1 to the counter; the manager drops all users |
| `ApiProofs.DeleteCredentialKeepsInv` | internal/api/api.go:252-265 | deleting a credential keeps the joint invariant |
| `Backend.AddTracks` | internal/engine/engine.go:92-126 | the calls made so far, applied in order to a backend, give exactly the engine's remote rules after an Add too, and never register a live ID |
| `Backend.UpdateTracks` | internal/engine/engine.go:160-193 | so after an Update, because it removes the rule before it adds it again |
| `Backend.RemoveTracks` | internal/engine/engine.go:136-154 | so after a Remove |
| `Backend.RestartTracks` | internal/engine/engine.go:241-257 | so after a Restart: remote rules are left to the backend |
| `Backend.RestoreTracks` | internal/engine/engine.go:261-298 | so after a Restore of distinct IDs that are not in the table |
| `ApiObject.Server.constructor` | main.go:196-219 | the daemon built from its files is the Restore of the rule file into a new engine, with a new manager over the loaded credentials serving the calls |
| `ApiObject.Server.Forward` | internal/engine/engine.go:46-52 | the engine's backend calls reach the manager object in order; the whole server ends in the state the dispatch function gives |
| `ApiObject.Server.CreateRule` | internal/api/api.go:84-101 | new state of engine, manager, clients and file in all four cases (no credential, refused, no backend, created), with the file written, failing or absent, and the answer |
| `ApiObject.Server.DeleteRule` | internal/api/api.go:103-110 | new state of everything; an unknown ID changes nothing and is refused |
| `ApiObject.Server.UpdateRule` | internal/api/api.go:112-126 | new state of everything; the file is only rewritten on success |
| `ApiObject.Server.Purge` | internal/api/api.go:255-259 | the in-place loop of the deletion equals the purge function that `ApiProofs.PurgeExact` is about |
| `ApiObject.Server.DeleteCredential` | internal/api/api.go:252-265 | new state of everything after a deletion, also for an unknown credential, whose rules and client go all the same, and with a failing write |
| `EngineRuns.ListenersConserved` | internal/engine/engine.go:302-326 | over every history of Add, Update, Remove, Restart, Restore and process restart: each listener ever opened is held under exactly one existing rule that is not remote, or was closed exactly once, and so for stop channels; `running` implies a listener and `error` none |
| `EngineRuns.ListIsExact` | internal/engine/engine.go:225-237 | after every history of adds, updates, removals, restarts, and restores of lists whose IDs are plain decimals from 1 on, `List` returns each rule in the map exactly once, in strictly increasing numeric ID order, and nothing else |
| `EngineRuns.RestartAfterAnyHistory` | internal/engine/store.go:50-81 | after every such history, saving and restoring into a new process lists the same rules in the same order with all fields but the status equal, whatever listens are refused, and the next ID is free |
| `EngineProofs.RestoreNumbered` | internal/engine/engine.go:261-298 | restoring a list of plain decimal IDs, into an engine that has such IDs already, leaves every ID a plain decimal below the counter |
| `EngineProofs.RestartRoundTrip` | internal/engine/engine.go:261-298 | the same round trip for every engine whose IDs are plain decimals below the counter; the restored engine is again one |
| `EngineProofs.RestoreCarries` | internal/engine/engine.go:261-298 | restoring a saved list puts in exactly its rules with their fields, and the counter ends above every ID |
| `EngineProofs.SavedList` | internal/engine/store.go:50-81 | the saved list has one entry for each rule, in increasing ID order, equal to the rule except for its status |
| `EngineProofs.ListExactIff` | internal/engine/engine.go:225-237 | `List` is sound and strictly ordered, and complete if and only if every ID is the plain decimal of a number from 1 to the counter |
| `EngineProofs.ListCanMiss` | internal/engine/engine.go:225-237 | a restored rule with ID `07` is in the table but not in the list |
| `EngineProofs.BindConservesIff` | internal/engine/engine.go:302-312 | starting a rule conserves listeners if and only if the rule has none yet |
| `EngineProofs.RestoreOverLiveLeaks` | internal/engine/engine.go:261-298 | adding a local rule and restoring the list that has it into the same engine loses a listener |
| `EngineProofs.StopConserves` | internal/engine/engine.go:316-326 | stopping closes the listener and the stop channel once each, and both leave their tables |
| `EngineProofs.NextIsFresh` | internal/engine/engine.go:92-105 | the ID that the next Add uses belongs to no rule and no listener |
| `EngineProofs.AddKeepsInv` | internal/engine/engine.go:92-126 | Add keeps conservation, the agreement of status and listener, and the counter above all IDs |
| `EngineProofs.UpdateKeepsInv` | internal/engine/engine.go:160-193 | Update keeps them |
| `EngineProofs.RemoveKeepsInv` | internal/engine/engine.go:136-154 | Remove keeps them |
| `EngineProofs.RestartKeepsInv` | internal/engine/engine.go:241-257 | Restart keeps them in every walk order, and neither rules nor counter change |
| `EngineProofs.RestoreKeepsInv` | internal/engine/engine.go:261-298 | Restore of distinct IDs without listeners keeps them |
| `EngineEffects.AddCreates` | internal/engine/engine.go:92-126 | Add creates one rule, under a free ID, with the arguments as its fields; a local one listens at the granted address if no other rule does, and is in error otherwise; every other rule and listener stays |
| `EngineEffects.UpdateChanges` | internal/engine/engine.go:160-193 | Update gives the rule the name, listen and target of the arguments, and a remote one the credential; ID, type and every other rule stay; a local rule listens at the granted address if no other rule does, and is in error otherwise |
| `EngineEffects.RemoveRemoves` | internal/engine/engine.go:136-154 | Remove takes away the rule and its listener and nothing else |
| `EngineEffects.RestartDecides` | internal/engine/engine.go:241-257 | Restart, in any walk order and with any answers, leaves every local rule running with a listener or in error without one, and changes no more of a rule than its status |
| `EngineEffects.RestartSettles` | internal/engine/engine.go:241-257 | with distinct free addresses every local rule listens at the one granted to it, or is in error if none is |
| `EngineEffects.RestoreSettles` | internal/engine/engine.go:261-298 | restoring into a new engine: a local rule listens, at its granted address and with its status unset, exactly when no local rule before it was granted the same one |
| `EngineObject.Engine.Add` | internal/engine/engine.go:92-126 | the whole new engine state, the rule handed back, and whether an error is reported |
| `EngineObject.Engine.Remove` | internal/engine/engine.go:136-154 | the whole new engine state; the rule is gone; an unknown ID is an error |
| `EngineObject.Engine.Update` | internal/engine/engine.go:160-193 | the whole new engine state for unknown, remote and local rules, and when an error is reported |
| `EngineObject.Engine.StartLocked` | internal/engine/engine.go:302-312 | listener and stop channel enter their tables together, or nothing changes |
| `EngineObject.Engine.StopLocked` | internal/engine/engine.go:316-326 | listener and stop channel are closed and leave their tables together, or nothing changes |
| `EngineObject.Engine.List` | internal/engine/engine.go:225-237 | the counting loop returns the list that `EngineProofs.ListExactIff` is about |
| `EngineObject.Engine.Restart` | internal/engine/engine.go:241-257 | the loop over the map visits each rule once and leaves the state that stopping and starting them in that order leaves |
| `EngineObject.Engine.Restore` | internal/engine/engine.go:261-298 | the loop over the saved rules leaves the state that `EngineProofs.RestoreCarries` is about |
| `EngineObject.Store.Save` | internal/engine/store.go:44-82 | the file holds the given rules in order, each without its status, if it is written; it is unchanged, with an error, when the write fails, and without one when there is no path |
| `Manager.AddRemoteKeepsInvIff` | internal/ssh/manager.go:57-68 | registering a rule keeps manager and clients in agreement if and only if no client wants another rule under its ID |
| `Manager.MovedRuleIsWantedTwice` | internal/ssh/manager.go:57-68 | from every agreeing state with a usable credential: registering one ID on it and then on another credential breaks the agreement |
| `Manager.RemoveRemoteKeepsInv` | internal/ssh/manager.go:71-81 | removing a rule keeps the agreement |
| `Manager.RemovedClients` | internal/ssh/manager.go:71-81 | only the client of the rule's credential changes, and no other client wanted the rule |
| `Manager.RemoveCredentialKeepsInv` | internal/ssh/manager.go:85-111 | removing a credential keeps the agreement, and the contexts started and not cancelled are exactly those in `cancel` |
| `Manager.ClientStepKeepsInv` | internal/ssh/client.go:120-158 | a client connecting, dropping or failing to dial keeps the agreement |
| `ManagerObject.Manager.EnsureClient` | internal/ssh/manager.go:114-148 | returns the published client, or publishes a new one with its context, or changes nothing; no client serves two credentials |
| `ManagerObject.Manager.AddRemote` | internal/ssh/manager.go:57-68 | the new state of all four maps and of every client object: only the rule's client changes |
| `ManagerObject.Manager.RemoveRemote` | internal/ssh/manager.go:71-81 | the new state of all maps and client objects, also for an unknown rule |
| `ManagerObject.Manager.DropRules` | internal/ssh/manager.go:90-96 | deleting while ranging over the map removes exactly the rules with the credential, from both maps |
| `ManagerObject.Manager.RemoveCredential` | internal/ssh/manager.go:85-111 | the new state of all maps, clients and store; the client taken out is shut down; the error cases of an unknown credential and of a failing write |
| `EnsureClient.NoLeakedClient` | internal/ssh/manager.go:114-148 | in every interleaving of `ensureClient` and `RemoveCredential` calls, a context is started and not cancelled if and only if it is in `cancel` or a call answers for it between start and publish-or-cancel or between delete and `cd()`; it has one such owner; none is cancelled twice; `clients` and `cancel` have the same keys and each published client runs under the context beside it |
| `EnsureClient.QuietMeansPublished` | internal/ssh/manager.go:114-148 | when all calls have returned, the clients whose contexts are not cancelled are exactly those in the `clients` table, each under a context of its own and under one credential |
| `EnsureClient.ReturnedClientWasPublished` | internal/ssh/manager.go:138-147 | a client that `ensureClient` returns was put into the table under that credential, and is there still, or its context is cancelled or about to be by RemoveCredential; never one that lost the race |
| `EnsureOrphans.SerialRunStaysStored` | internal/ssh/manager.go:85-148 | in every run in which no `ensureClient` call is made while a `RemoveCredential` call on its credential is in progress, nor the other way round, every published client has its credential, and no schedule of the calls in progress can change that |
| `EnsureOrphans.OverlapEndangersIff` | internal/ssh/manager.go:85-148 | a new call on a stored credential makes some orphaning schedule possible if and only if it overlaps a call of the other kind on that credential; an `ensureClient` call that has found its client no longer counts |
| `EnsureOrphans.OrphanPossibleIff` | internal/ssh/manager.go:85-148 | from every reachable state with all credentials present, some schedule of the calls in progress leaves a client without its credential if and only if two of them race |
| `EnsureOrphans.ClientOutlivesCredential` | internal/ssh/manager.go:85-148 | a run of two overlapping calls that ends with both returned and a client published for a deleted credential |
| `EnsureClient.EnsureAlone` | internal/ssh/manager.go:114-148 | without interference the interleaved `ensureClient` is the manager's atomic step |
| `EnsureClient.RemoveAlone` | internal/ssh/manager.go:85-111 | so is `RemoveCredential`, and it shuts down the client it took |
| `SshClient.ClientRuns` | internal/ssh/client.go:70-158 | in every run where an ID that is added again was removed first: listeners exist only for wanted rules and serve them as wanted, none without a connection; a listener is open at the sshd if and only if it is in the table, every other one was closed once, and no stop channel is closed twice |
| `SshClient.ReconnectEstablishes` | internal/ssh/client.go:131-140 | after every history, a successful dial leaves open exactly the wanted rules whose listen succeeds, each serving its rule at the address granted; which rules these are, for every walk order and every set of grants |
| `SshClient.AnyWalkEstablishes` | internal/ssh/client.go:194-225 | when no two rules are granted the same address, the open rules do not depend on the walk order |
| `SshClient.AddKeepsInvIff` | internal/ssh/client.go:70-81 | adding a rule keeps the invariant if and only if no listener serves other fields under its ID |
| `SshClient.AddOpensIff` | internal/ssh/client.go:70-81 | adding a rule that is not served opens its listener at once if and only if there is a connection and the sshd grants an address that is free; it then serves the rule there, and no other listener changes |
| `SshClient.RemoveClosesIts` | internal/ssh/client.go:84-93 | removing a rule closes its listener and stop channel and no other |
| `SshClient.StepDoes` | internal/ssh/client.go:70-158 | what each step leaves wanted, open and connected |
| `SshClient.ChangedRuleIsNotServed` | internal/ssh/client.go:207-225 | add a rule, connect, add other fields under its ID: the old fields stay served |
| `SshClientScript.ScriptKeepsInv` | internal/ssh/client.go:120-158 | the reconnect invariant over every life of a client: rounds of failed dials and connections, with rules added and removed at any time, if an ID that is added again was removed first |
| `SshClientScript.OnlyEditsChangeWanted` | internal/ssh/client.go:120-158 | over every such life, and without that condition, the wanted rules are exactly what the additions and removals make them |
| `SshClientScript.CancelledLeavesListenersIff` | internal/ssh/client.go:145-158 | at the end of a whole life the client is not connected, and it has remote listeners left if and only if it was cancelled on a connection on which something was served |
| `SshClient.RemoveKeepsInv` | internal/ssh/client.go:84-93 | removing a rule closes its listener and stop channel once and keeps the invariant |
| `SshClient.ShutdownKeepsInv` | internal/ssh/client.go:97-116 | shutting down leaves nothing wanted, no connection and no listener at the sshd, and closes every stop channel once |
| `SshClient.DropKeepsInv` | internal/ssh/client.go:153-156 | losing the connection leaves no listener open, no stop channel closed, and keeps the wanted rules |
| `SshClient.ConnectKeepsInv` | internal/ssh/client.go:131-140 | connecting keeps the invariant in every walk order and leaves the wanted rules alone |
| `SshClientObject.Client.Subscribe` | internal/ssh/client.go:207-225 | new state: an ID that has a listener, or a refused listen, changes nothing |
| `SshClientObject.Client.Add` | internal/ssh/client.go:70-81 | new state, with and without a connection |
| `SshClientObject.Client.Remove` | internal/ssh/client.go:84-93 | new state, with and without an open listener |
| `SshClientObject.Client.Shutdown` | internal/ssh/client.go:97-116 | the loop closes every listener and every stop channel once and empties the tables |
| `SshClientObject.Client.DrainListeners` | internal/ssh/client.go:267-274 | the loop closes every listener and no stop channel |
| `SshClientObject.Client.SubscribeAll` | internal/ssh/client.go:194-204 | the loop visits each wanted rule once and leaves the state that `SshClient.ReconnectEstablishes` is about |
| `SshClientObject.Client.Connection` | internal/ssh/client.go:131-152 | one connection: what is wanted when it comes up is subscribed in one walk, and what is added and removed meanwhile takes effect on it |
| `SshClientObject.Client.Run` | internal/ssh/client.go:120-158 | for every sequence of rounds, with rules added and removed in between and during connections, and for every way of being cancelled: the delay before each dial is min(2^k, 30) seconds behind k failures in a row, and the client ends in the state of that life; cancelled on a connection it keeps its table of listeners |
| `Tunnel.Converges` | internal/tunnel/client.go:57-129 | in every run of edits, deliveries, losses and reconnects, working through the undelivered frames never leaves a rule the client does not hold; once the replay is sent and the binds succeed it leaves exactly the client's rules on their listen addresses |
| `Tunnel.QuietMeansAgreed` | internal/tunnel/client.go:57-129 | with nothing undelivered and nothing refused on the session, the two tables have the same rules on the same addresses |
| `TunnelProgress.ReplayBringsAgreement` | internal/tunnel/client.go:124-126 | from every reachable state with an open session: replaying in any order and delivering what is under way leaves no rule the client does not hold, and if the binds come into force exactly its rules on its addresses, whatever was refused before |
| `TunnelProgress.ReconnectBringsAgreement` | internal/tunnel/client.go:100-129 | from every reachable state, connected or not, losing the connection and reconnecting to a new session leads to the same |
| `TunnelProgress.ReconnectAgreesOnNewAddresses` | internal/tunnel/client.go:100-129 | in particular if the host opens a new address for every frame: then the server ends up with exactly the client's rules on its addresses |
| `TunnelProgress.StaleIff` | internal/tunnel/server.go:176-188 | a rule counts as refused on a session if and only if its last request there was, and the rule does not listen where it asks to as it is |
| `TunnelProgress.RegisterListensIff` | internal/tunnel/server.go:176-201 | a register frame: if the host grants a free address the session has the rule as sent, listening there, and the listener it replaces is closed; if not nothing changes; no other rule of any session is touched |
| `TunnelProgress.UnregisterCloses` | internal/tunnel/server.go:203-214 | an unregister frame closes the rule's listener, forgets the rule and touches no other |
| `TunnelProgress.EditsSay` | internal/tunnel/client.go:57-76 | an edit changes the client's table, and on a connection it is the last word about its ID |
| `Tunnel.HandleAllAt` | internal/tunnel/server.go:152-214 | what a stream of frames does to one rule depends on the last frame about it alone |
| `Tunnel.LastAboutReplay` | internal/tunnel/client.go:124-126 | a replay says exactly the client's present rule about each ID, in every walk order |
| `Tunnel.TunnelConservesListeners` | internal/tunnel/server.go:176-214 | listener conservation holds in every state of the whole protocol, with reconnects, several sessions and other clients |
| `TunnelServer.ListenersConserved` | internal/tunnel/server.go:176-306 | over every run of sessions, frames and closes, a public listener is open if and only if a rule of an unclosed session has it; no two rules share one; every other one ever opened was closed exactly once |
| `TunnelServer.RegisterLateConservesIff` | internal/tunnel/server.go:176-201 | a register conserves listeners if and only if the session is not closed or the listen is refused |
| `TunnelServer.LateRegisterHappens` | internal/tunnel/server.go:176-201 | accept a session, close it, and let it handle a register it had decoded: a listener is lost |
| `TunnelServer.RegisterConserves` | internal/tunnel/server.go:176-201 | registering an ID again closes the listener it replaces |
| `TunnelServer.CloseConserves` | internal/tunnel/server.go:290-306 | closing a session closes all of its listeners and no others |
| `TunnelServer.ClientSession.DoRegister` | internal/tunnel/server.go:176-201 | new table and listeners, and the answer frame; a refused bind leaves the old listener in place |
| `TunnelServer.ClientSession.DoUnregister` | internal/tunnel/server.go:203-214 | new table and listeners, also for an unknown ID |
| `TunnelServer.ClientSession.NextConnID` | internal/tunnel/server.go:283-288 | the next connID, wrapping as a uint64 |
| `TunnelServer.ClientSession.DoClose` | internal/tunnel/server.go:290-301 | the loop closes each rule's listener once; a second close does nothing |
| `TunnelServer.ClientSession.Serve` | internal/tunnel/server.go:152-174 | the control loop leaves the state the frames add up to, with every listener then closed |
| `TunnelClient.Client.Add` | internal/tunnel/client.go:57-65 | the rule is in the table and, on a connection, its frame is the next one sent |
| `TunnelClient.Client.Remove` | internal/tunnel/client.go:68-76 | the rule is out of the table and, on a connection, its frame is the next one sent |
| `TunnelClient.Client.Snapshot` | internal/tunnel/client.go:78-87 | each rule once, as it is in the table |
| `TunnelClient.Client.Replay` | internal/tunnel/client.go:124-126 | what is sent is the whole table, each rule once |
| `TunnelClient.Client.Run` | internal/tunnel/client.go:100-129 | for every sequence of rounds, with edits before a connection, between its start and its replay, and on it, up to the cancellation: the delay after failure k+1 in a row is min(2^k, 32) seconds, and each connection carries the early edits, the whole table of that moment once, and the later edits |
| `TunnelClient.CarriedSaysRules` | internal/tunnel/client.go:57-129 | the last word of every connection about each ID is the rule the client has at its end: a registration of exactly that rule, or no registration |
| `TunnelOpen.Pairing` | internal/tunnel/server.go:229-272 | in every reachable state, with any number of sessions and concurrent opens, a relayed public connection is paired with a data connection dialled for a frame with its own connID and its own data address, and that is its own open frame unless another frame was sent with both the same; then a target linked to it was held under the rule ID it arrived on |
| `TunnelCrossing.CrossingPossibleIff` | internal/tunnel/server.go:229-272 | in every reachable state in which a public connection waits for its data connection, some schedule relays it to one dialled for another connection's open frame if and only if the first data connection at its listener was and will present or has presented the same connID, or none is there yet and such a frame with the same data address was sent and not dialled for |
| `TunnelOpen.NoCrossWiring` | internal/tunnel/server.go:229-272 | with one session, a public connection is relayed only to a data connection dialled for the open frame issued for that very connection |
| `TunnelOpen.RelayIsExclusive` | internal/tunnel/server.go:250-271 | no data connection is relayed to two public connections |
| `TunnelCrossing.LateDialCrossesSessions` | internal/tunnel/server.go:229-288 | a run over two sessions in which a late dial is relayed to the other session's connection |
| `TunnelTargets.LookupLinksIff` | internal/tunnel/client.go:193-207 | the client's call for an open frame is linked to a target if and only if the dial succeeds and the client holds the frame's rule at that moment, and then to the target it holds there |
| `TunnelTargets.WaitingCanBeServed` | internal/tunnel/server.go:250-271 | from every reachable state in which a connection waits, its frame is not dialled for, nothing stands at its listener and its rule is held, some schedule relays it, well paired, to the target held |
| `TunnelTargets.NewConnectionCanBeServed` | internal/tunnel/server.go:218-272 | in every reachable state a new public connection on a rule the client holds can be relayed to the target the client holds for it, once its data listener is granted an address |
| `TunnelTargets.EditsTakeEffect` | internal/tunnel/client.go:57-76 | so right after an addition to the new target, and right after a removal no lookup links the rule |
| `TunnelTargets.DataListenersConserved` | internal/tunnel/server.go:229-239 | over every run a data listener is open exactly while one `openData` call holds it, and every other one was closed once |
| `TunnelTargets.OpenDataCanReturn` | internal/tunnel/server.go:229-272 | every `openData` call can return by steps of its own, and its listener is closed then |
| `TunnelTargets.PendingIsKept` | internal/tunnel/server.go:242-269 | a public connection stands in the pending table under its session and connID from before its open frame is sent until its data connection is verified, and not while it is relayed |
| `TunnelOpen.StepKeepsInv` | internal/tunnel/client.go:184-208 | every single step of `openData`, `handleOpen` and the client's table keeps the pairing invariant |
| `Protocol.HeaderRoundTrip` | internal/tunnel/protocol.go:32-45 | parsing a printed header gives back its number, for every 64-bit unsigned number |
| `Protocol.HeaderInjective` | internal/tunnel/protocol.go:32-34 | distinct numbers print to distinct headers |
| `Protocol.HeaderIsOneLine` | internal/tunnel/protocol.go:29-34 | a header is the prefix `DATA `, digits, and one newline at its end |
| `Protocol.ParseAccepts` | internal/tunnel/protocol.go:36-45 | exactly which lines the parser accepts, and as which number |
| `Protocol.Reader.ReadLine` | internal/tunnel/server.go:257-258 | the first line of the stream, however it is cut into chunks, and nothing behind it is lost |
| `Protocol.Reader.Read` | internal/tunnel/server.go:274-281 | what is read and what is left make up what was there; end of stream only when nothing is left |
| `Protocol.CheckHandshake` | internal/tunnel/server.go:257-265 | when the handshake is accepted, and that only the first line is consumed |
| `Protocol.Handshake` | internal/tunnel/server.go:256-281 | for every connID, payload, chunking and read sizes: the handshake is accepted and exactly the payload is delivered |
| `Decimal.PrintInjective` | internal/engine/engine.go:94-94 | decimal printing is injective |
| `Decimal.AtoiOfPrint` | internal/engine/engine.go:264-266 | `Atoi` reads back what was printed |
| `Relay.RelaySafety` | internal/forward/forward.go:11-43 | in every interleaving, what a direction delivered is a prefix of what its source sent, and all of it if it ended with end of stream; the terminate body executes at most once, and exactly once with both connections closed when Relay returns |
| `Relay.SecondPipeMustEnd` | internal/forward/forward.go:22-33 | once one direction has ended, one pipe has the turn until Relay returns; it can always move, every move of it lowers a measure of at most nine that no step raises, and the turn passes only when the measure drops |
| `Relay.RelayReturns` | internal/forward/forward.go:11-33 | on every endless schedule that is fair to both pipes, Relay returns once one direction has ended, whatever the peers send and the network does |
| `RelayDelivery.RelayDelivers` | internal/forward/forward.go:21-27 | on every endless schedule that is fair to a pipe, in which its peer ends and nothing breaks, closes or half-closes the two connections before the pipe has finished its copy, the pipe ends with end of stream and everything sent has been delivered |
| `RelayDelivery.CopyCanDeliver` | internal/forward/forward.go:24-24 | from every reachable state in which a pipe copies, can read its source and write its destination, steps of it alone deliver everything sent |
| `RelayDelivery.ConnectionsAreClosed` | internal/forward/forward.go:25-43 | when each connection is closed or half-closed, exactly, in every interleaving; a peer sees the end of the stream only behind the copy |
| `RelayDelivery.CutPossibleIff` | internal/forward/forward.go:9-27 | in every reachable state in which one direction has ended, the two pipes alone can return with the other one cut off if and only if that one is still copying or is cut off already |
| `RelayDelivery.EndCutsOther` | internal/forward/forward.go:9-27 | a run in which one peer ends and what the other one has sent is lost |
| `Credentials.StoreRuns` | internal/ssh/credentials.go:34-170 | after every history of adds, updates, deletes and restarts, whatever writes fail: each credential is under its own ID, no ID in use has a number above the counter, and the next ID is free; a restart gives back exactly the credentials in memory if every change reached the file |
| `Credentials.StepDoes` | internal/ssh/credentials.go:105-139 | from every sound state each operation leaves the credentials in memory that it says, under a fresh ID for an Add; a written file reloads to just those; an Add that fails leaves no more than a used number |
| `Credentials.DeletedIdReusedIff` | internal/ssh/credentials.go:47-55 | after a deletion and a restart the first Add gives out the deleted ID again if and only if its number is two above the highest number left, or it is the first ID and no number is left |
| `Credentials.DeletedIdComesBack` | internal/ssh/credentials.go:105-116 | add, delete, restart, add: the second credential has the ID of the first |
| `Credentials.ReloadIgnoresOrder` | internal/ssh/credentials.go:34-57 | reloading gives the same map and the same counter for every order the map was written in |
| `Credentials.LoadWritten` | internal/ssh/credentials.go:156-162 | reloading what was written gives back the map |
| `Credentials.NewIdIsFresh` | internal/ssh/credentials.go:105-110 | the ID that the next Add uses belongs to no credential |
| `Credentials.LoadFacts` | internal/ssh/credentials.go:47-55 | a loaded store's counter is the least number above all numbers in use, and each credential is under its own ID, whatever the file holds |
| `Credentials.AtoiNameOfName` | internal/ssh/credentials.go:164-170 | a generated ID parses back to its number |
| `Credentials.CredStore.constructor` | internal/ssh/credentials.go:34-57 | the loading loop leaves the state `Credentials.LoadFacts` is about |
| `Credentials.CredStore.CredsSlice` | internal/ssh/credentials.go:156-162 | each credential once, in the order the map was walked |
| `Credentials.CredStore.DoAdd` | internal/ssh/credentials.go:105-116 | new state and answer, with the file written, failing or absent |
| `Credentials.CredStore.DoUpdate` | internal/ssh/credentials.go:119-128 | new state and answer, also for an unknown ID and for a write that fails: memory then keeps the change |
| `Credentials.CredStore.DoDelete` | internal/ssh/credentials.go:131-139 | new state and answer, also for an unknown ID and for a write that fails: memory then keeps the change |
| `Credentials.UnsavedUpdateIff` | internal/ssh/credentials.go:119-128 | an update keeps memory and file in agreement if and only if it is written or changes nothing |
| `Credentials.UnsavedDeleteIff` | internal/ssh/credentials.go:131-139 | a deletion keeps them in agreement if and only if it is written or there is nothing to delete |
| `Backoff.SshDelay` | internal/ssh/client.go:300-309 | growing the delay min(2^k, 30) seconds gives min(2^(k+1), 30) seconds |
| `Backoff.TunnelDelay` | internal/tunnel/client.go:117-119 | growing the delay min(2^k, 32) seconds gives min(2^(k+1), 32) seconds: the cap lies above the value it tests |

## Left out

- `ApiRuns.RegistriesAgree`: each API request and each client phase (connect with its subscribing, drop, failed dial) is one atomic step, because the code does not guard finer interleavings: `subscribe` does not look at `pending` again (internal/ssh/client.go:207-225) and `Add` reads `nextID` before it takes the lock (internal/engine/engine.go:92-105).
- `Tunnel.Converges`: the replay loop is one step, because an edit between its snapshot and its last frame is not guarded (internal/tunnel/client.go:124-126). Rules in `stale`, whose last request on the session was refused, are only bounded from above.
- `TunnelOpen.Pairing`: only the client dials data addresses; strangers are not modelled.
- `TunnelOpen.NoCrossWiring`: speaks of a session that has issued fewer than 2^64 connIDs, for the counter wraps.
- `Relay.RelayReturns`: fairness to a pipe means that it gets to move or is unable to, again and again; a read with nothing to read is unable to, one with something to read is a move. So in `RelayDelivery.RelayDelivers`. Nothing is said about how long that takes.
- `EngineEffects.RestartSettles`: which rule gets an address that several are granted depends on the walk and is not stated.
- `TunnelTargets.PendingIsKept`: speaks of sessions that have issued fewer than 2^64 connIDs; an entry whose `openData` call fails stays in the table (internal/tunnel/server.go:242-265), and nothing reads it.
- Runs of the engine and the credential store stay below 2^63 - 1 IDs, where Go's `int` would wrap.
- Whether a credential was usable at a rule's last registration is kept as history in the manager's state; the source keeps no such thing.
- `EngineObject.Engine.Add`: the engine's calls to its backend are a log that the API server hands on after the engine step, not calls in the middle of it; the rules handed out are values, so changes through a returned pointer are not captured.
- `TunnelOpen.StepKeepsInv`: open frames may be dialled for in any order, which includes the order of the control connections; a frame that is lost with its connection, or whose dial fails, is one that never will be.
- `TunnelCrossing.CrossingPossibleIff`: data connections are accepted in the order in which they were dialled.
- `Manager.RemoveCredentialKeepsInv`: in the value model a client that leaves the table is dropped from it; that it is shut down is stated by `ManagerObject.Manager.RemoveCredential`.
- `SshClient.ClientRuns`: speaks of uncancelled runs; `lns` is not drained when the context is cancelled (internal/ssh/client.go:149-152), and `SshClientObject.Client.Run` says what is left then.
- `UpdateRemoteStatus`, status callbacks and error handlers: they feed logs and overwrite `Listen` with the bound address; error reports inside the engine's lock are not modelled.
- `EngineObject.Store.Save`: a failed write leaves the file as it was, and so in the credential store; half-written files are not modelled.
- The JSON codec, file modes and paths: a file is the value last saved in it. A null entry of the credential list is modelled.
- Merging blank passwords and key paths on a credential update, uploaded key files, and `Probe`: no table depends on them.
- SSH transport, host keys and authentication: whether a credential can log in is an oracle.
- Real time, read deadlines, ping and pong: deadlines and lost sessions are steps that may happen at any time.
- The server's own accept loop and `Server.Close`: sessions are accepted and closed by steps of their own.
- `unregister` waiting for the accept loop to end, and the accept loops of engine, SSH client and tunnel server: each accepted connection only starts a relay.
- Address helpers (`dataAddr`, `normalizeHost`, `normalizeAddr`), the web interface, HTTP routing and status codes, flags and signals.
- Scanning of numbers with blanks that are longer than one character: module `Decimal` knows the single-character ones.
