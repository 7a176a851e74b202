# Verified model of programmable caching

A Dafny model of the storage service (master, clients, managers) and the scheduler of
a storage-separated cluster, with proofs of what they promise together.

Rules tell a storage client how to serve a Get or a Put: copy, remove, put and get actions
at storage managers. Rules name managers; the master fills in their URIs and installs the
rules at clients. A client runs its actions by URI, logs them and reports the log, which
the master replays by name on its view of the managers' files. The scheduler folds the
master's view into its own maps and packs pending tasks into the free slots of engines.

## Results

- *The index and the data.* While rules run one after another, the master's view never
  claims a key that is not stored, and the keys it misses are exactly those whose last
  touching action copied them out: a copy is a pull that keeps both copies, but it is replayed
  as a move (`ViewGap`).
- *Interleavings.* The service is a state machine over its atomic steps: one locked
  operation of the master, one resolved action of a rule, one RPC at a manager, one move of
  a call, with a copy's pull and store apart, any number of calls at a client and managers
  stopping and rejoining. In every run in which no call ends up removing what another ends up
  reporting as added, every key of the view is stored whenever no call is under way
  (`ConcurrentView`). That condition is exact: a start or a death that breaks it has a
  continuation, through the ends of all calls and reports, to a view that claims what nobody
  stores (`Clashes`). Under a stricter condition, exact too, the view is sound at every moment
  if all that was done so far were reported at once (`ReportedView`, `ReportedClashes`). No
  GetView in any run meets an unknown peer (`KnownPeers`). Calls, installations and starts
  nobody interrupts are the client's, the master's and the manager's own (`LoneCall`,
  `LoneInstall`, `LoneJoin`).
- *The data.* Rules checked against the view only move values. After a Put that covers
  the holders the view lists, every later checked Get returns its value (`DataSafety`), also
  for rules as they really run, by URI and reported by name (`ResolvedRules`). Over all
  interleavings copies keep their value as long as no call removes what another has still
  to pull from (`ConcurrentData`).
- *Names.* Resolution preserves the meaning of rules if and only if names and URIs are
  one-to-one (`Resolution`); generated names parse back (`Naming`).
- *The scheduler.* Schedules are shortest-first, work-conserving and within capacity over
  whole runs (`Packing`, `Scheduling`, `SchedulerRuns`), parsing replies is a
  last-writer-wins summary (`ReplyParsing`), and what introductions generate leads each
  engine to the manager and client of its host (`IntroducedViews`). An epoch sends each
  task's rules before it, and with them its client serves the task's input and output
  (`Chain`); on the replies the master itself makes, nothing is ever scheduled.

## How the model reads the code

- Objects whose methods update fields are classes (`RuleDb`, `StorageManager`,
  `StorageMaster`, `StorageClient`, `ServerlessSystemView`, `Scheduler`), each method proved
  against a function of the old state; the theorems are about those functions.
  `Interpreter` says what actions do over plain addresses, `Resolution` labels actions
  by name or by URI, `Cluster` is the state machine. A Get, Put or report of these classes
  runs without interruption; interleavings are the subject of the state machine.
- `auto d = decisions->decisions.back()` at `src/scheduler/scheduler/scheduler.cc:124`
  copies, so the code as written pushes default decisions. `byReference` selects the reading
  that lines 125-152 intend; the number of decisions holds under both readings, their content
  under the second. As written no named engine is ever charged (`AsWrittenNoEngineIsCharged`).
- In `StorageClient::Put` the Remove case falls through into Put, on a default put action.
  So a Put rule of a non-empty key runs to its end only without Removes (`PutReturnsIff`).
  For the empty key the stray Put goes to the empty URI, where no manager runs: real URIs
  hold a colon, hence the conditions that "" is no address.
- A failed read is only logged and gives the empty value, also as the source of a copy
  (`CopyKeepsValueIff` says when that matters). Lookups by `at` throw (`OutOfRange`), view
  updates create entries, a failed `assert` ends the call (`AssertionFailed`) and keeps the
  effects it already had.
- Names omit ports, so two managers of one storage on one host get the same name. The
  theorems that compare names with stores ask for one-to-one introductions (`OneToOne`,
  `CanMeet`). `MeaningKeptIffOneToOne` shows that resolution needs them, and
  `StalePutIsSoundIff`, `StaleRemoveIsSoundIff` and `StaleCopyIsSoundIff` say when an
  action installed before its name moved still keeps the view sound.
- The other conditions of concurrent soundness (`Tame`) are about calls that start and
  clients that die. What counts of a call is how it ends at a (manager, key) pair: the last
  touch of its report, and the last write or removal it has still to make. A call starts only
  if no pair is removed in the end by one and added in the end by the other, of it and each
  call under way; `StartingIsSafeIff` shows this exact, also for calls that add and remove in
  between. A client dies, by a failed assertion or otherwise, only when the other calls make up
  for it; `CrashIsSafeIff` shows this exact. `AbortedGetSoundIff` and `AbortedPutSoundIff` say
  for one failing call when the view stays sound.
- The master never fills the client list of a view reply, and the control loop fetches a
  view without parsing it. Parsing is therefore a step of its own, on any reply, with clients
  or without; `MasterRepliesScheduleNothing` says what follows from replies without.
- The order in which maps and equal sizes are listed is left open; sorting is a loop of the
  model where the code calls the library.

## Model

| member | source | states |
|---|---|---|
| Naming.HostPortParsesBack | src/scheduler/scheduler/serverless_system_view.cc:13-15 | A host is recovered from `host:port` if and only if the host has no colon. |
| Naming.HostPortInjective | src/storage_service/storage_master/storage_master.cc:151 | For colon-free hosts, equal URIs come from equal host and port. |
| Naming.ManagerNameParsesBack | src/scheduler/scheduler/serverless_system_view.cc:74-79 | Every generated manager name has two colons and parses back to its storage name, so the assertion on the parse holds for it. |
| Naming.ManagerNamesInjective | src/storage_service/storage_master/storage_master.cc:121-138 | Equal manager names come from equal storage name, storage type and host, hosts with colons included. |
| Naming.NamesEqualIff | src/storage_service/storage_master/storage_master.cc:121-138 | Two introductions get one name if and only if both are clients on one host, both are managers with the same storage and host, or both are unset; ports never matter. |
| RuleDatabase.RuleDb.AddRule | src/storage_service/storage_client/rule_db.cc:7-11 | The database afterwards: the rule replaces whatever its operation and key held. |
| RuleDatabase.RuleDb.RemoveRule | src/storage_service/storage_client/rule_db.cc:12-16 | The database afterwards: only the entry of that operation and key is gone. |
| RuleDatabase.RuleDb.HasMatchingRule | src/storage_service/storage_client/rule_db.cc:18-22 | True exactly when the lookup finds a rule. |
| RuleDatabase.RuleDb.GetMatchingRule | src/storage_service/storage_client/rule_db.cc:24-28 | The stored rule, or the exception of a failed lookup. |
| RuleDatabase.RuleKeyInjective | src/storage_service/storage_client/rule_db.cc:3-5 | The concatenated key string determines operation and key, also for keys with colons. |
| RuleDatabase.LookupIsLatest | src/storage_service/storage_client/rule_db.cc:3-28 | After any history of adds and removes, lookup by the string is the latest add for exactly that operation and key that no later remove took away. |
| Interpreter.GetLoopRuns | src/storage_service/storage_client/storage_client.cc:91-121 | The Get loop passes its assertions if and only if its actions are Copy, Remove or unset, and then has their plain effect. |
| Interpreter.GetReturnsIff | src/storage_service/storage_client/storage_client.cc:86-131 | A Get returns a value if and only if the rule ends in a Get of the request key after Copy, Remove and unset actions; the value is what the last manager holds after them. |
| Interpreter.PutReturnsIff | src/storage_service/storage_client/storage_client.cc:143-175 | A Put completes if and only if its actions are Copy, unset or Puts of the request key, or Removes while the request key is empty; its effect is then the plain one. |
| Interpreter.GetLoopStopped | src/storage_service/storage_client/storage_client.cc:95-115 | A failed assertion in the Get loop stops it with the effects of the actions before it. |
| Interpreter.PutLoopStopped | src/storage_service/storage_client/storage_client.cc:147-162 | A failed assertion in the Put loop stops it; a Remove has taken effect before it falls through into the assertion. |
| Interpreter.GetLogReplays | src/storage_service/storage_client/storage_client.cc:100-108 | Replaying the log of a Get is replaying its actions. |
| Interpreter.PutLogReplays | src/storage_service/storage_client/storage_client.cc:152-165 | Replaying the log of a Put, with the doubled entries of fallen-through Removes, is replaying its actions. |
| Interpreter.FallThroughPuts | src/storage_service/storage_client/storage_client.cc:152-165 | For the empty key a Remove in a Put rule falls through: the request is stored where a manager answers at the empty URI, and the removal is logged twice. |
| Client.StorageClient.InstallRule | src/storage_service/storage_client/storage_client.cc:187-193 | The rule is in the database under its operation and key, the rest unchanged. |
| Client.StorageClient.UninstallRule | src/storage_service/storage_client/storage_client.cc:195-200 | Only that rule is gone. |
| Client.StorageClient.Get | src/storage_service/storage_client/storage_client.cc:82-132 | Reply, stores and master view of a Get are those of the interpreter run on the URIs and the replay of the log by name; without a rule nothing changes and the assertion fails; the log is reported before the assertions on the last action. |
| Client.StorageClient.PerformGetActions | src/storage_service/storage_client/storage_client.cc:89-121 | The loop over a Get rule: stores, assertion outcome and log. |
| Client.StorageClient.Put | src/storage_service/storage_client/storage_client.cc:134-177 | Reply, stores and master view of a Put, reported only when every assertion passed. |
| Client.StorageClient.PerformPutActions | src/storage_service/storage_client/storage_client.cc:141-172 | The loop over a Put rule with the fall-through of Remove into Put: stores, assertion outcome and log; the empty reports change nothing. |
| Client.StorageClient.ExecuteGetAction | src/storage_service/storage_client/storage_client.cc:46-53 | The value the addressed manager holds, empty if none. |
| Client.StorageClient.ExecuteCopyAction | src/storage_service/storage_client/storage_client.cc:55-63 | The source manager stores what the destination manager holds; nothing else changes. |
| Client.StorageClient.ExecuteRemoveAction | src/storage_service/storage_client/storage_client.cc:74-80 | The key is gone at that manager only. |
| Client.StorageClient.ExecutePutAction | src/storage_service/storage_client/storage_client.cc:65-72 | The request is stored at that manager only, and the empty report leaves the view alone. |
| Managers.StorageManager.Start | src/storage_service/storage_manager/storage_manager.cc:30-59 | After starting, the manager has the generated name, which parses back to its storage; the master holds exactly its stored keys under that name, whatever it held before, and leads the name to the manager's host and port. |
| Managers.StorageManager.Get | src/storage_service/storage_manager/storage_manager.cc:66-76 | The stored value; a missing key reads as the empty value. |
| Managers.StorageManager.Put | src/storage_service/storage_manager/storage_manager.cc:78-90 | The key now has the value, the rest unchanged. |
| Managers.StorageManager.Remove | src/storage_service/storage_manager/storage_manager.cc:92-103 | The key is gone, the rest unchanged. |
| Managers.StorageManager.CopyFrom | src/storage_service/storage_manager/storage_manager.cc:105-121 | The key now has the destination's value, or the empty one if the destination lacks it or cannot be reached; the destination keeps its own. |
| Managers.Network.CopyFrom | src/storage_service/storage_manager/storage_manager.cc:105-121 | Over all managers: only the source's entry for the key changes, to what the destination held, also when both are one manager. |
| Master.PeerTracker.AddPeer | src/storage_service/storage_master/storage_master.cc:31-37 | Both maps afterwards; the name leads to the new URI and every other name where it did. |
| Master.PeerTracker.GetPeerFromName | src/storage_service/storage_master/storage_master.cc:17-22 | The peer of a known name; an unknown name throws. |
| Master.PeerTracker.PopulateViewReply | src/storage_service/storage_master/storage_master.cc:39-45 | Every entry gets its peer's URI, and it throws if and only if some entry names no peer. |
| Master.StorageFileView.AddManager | src/storage_service/storage_master/storage_master.cc:64-68 | The manager's keys are emptied, other managers unchanged. |
| Master.StorageFileView.AddFileToManager | src/storage_service/storage_master/storage_master.cc:71-78 | The key is added, creating the manager if missing. |
| Master.StorageFileView.RemoveFileFromManager | src/storage_service/storage_master/storage_master.cc:80-87 | The key is dropped, creating the manager if missing. |
| Master.StorageFileView.PopulateViewReply | src/storage_service/storage_master/storage_master.cc:89-101 | The reply lists every manager once and each of its keys once. |
| Master.StorageMaster.Introduce | src/storage_service/storage_master/storage_master.cc:140-175 | A manager's introduction sets its view to exactly the introduced keys and its URI; a client's changes no file view; an unset one changes nothing. |
| Master.StorageMaster.FillInRule | src/storage_service/storage_master/storage_master.cc:184-227 | The loop over the actions computes the resolution of the rule, or throws on the first unknown name. |
| Master.StorageMaster.InstallRule | src/storage_service/storage_master/storage_master.cc:229-248 | Succeeds if and only if the client and all names are known; the resolved rule goes to the client's URI. |
| Master.StorageMaster.StorageChange | src/storage_service/storage_master/storage_master.cc:268-296 | The view afterwards is the replay of the changes by name. |
| Master.StorageMaster.GetView | src/storage_service/storage_master/storage_master.cc:298-304 | Succeeds if and only if every manager of the view is a peer; the reply then lists the view exactly once with the peers' URIs, and no clients. |
| Resolution.FillInChangesOnlyUris | src/storage_service/storage_master/storage_master.cc:184-227 | Resolution is idempotent, makes every URI that of its name, and changes no key, operation, action kind or name. |
| Resolution.RunByName | src/storage_service/storage_client/storage_client.cc:46-80 | With one-to-one introductions, running resolved actions by URI is running them by name on the named stores, and leaves other stores alone. |
| Resolution.ResolvedGetMeansNamedGet | src/storage_service/storage_master/storage_master.cc:184-227 | Every resolved Get rule gives by URI the reply, the stores and the report that the original gives by name, failed runs with their partial effects included. |
| Resolution.ResolvedPutMeansNamedPut | src/storage_service/storage_master/storage_master.cc:184-227 | Every resolved Put rule gives by URI the outcome and the stores that the original gives by name, failed runs included. |
| Resolution.MeaningKeptIffOneToOne | src/storage_service/storage_master/storage_master.cc:125-127 | Resolution keeps the meaning of every action on all stores if and only if no two names share a URI. |
| Resolution.StalePutIsSoundIff | src/storage_service/storage_master/storage_master.cc:125-127 | After a name was met at another URI (ports are not part of names), an installed Put keeps the view sound if and only if the URI is the old one or the new URI holds the key anyway. |
| Resolution.StaleRemoveIsSoundIff | src/storage_service/storage_master/storage_master.cc:125-127 | An installed Remove then keeps the view sound if and only if the view claims the key for no other name at the old URI. |
| Resolution.StaleCopyIsSoundIff | src/storage_service/storage_master/storage_master.cc:125-127 | An installed Copy then keeps the view sound if and only if its source did not move, or holds the key at the new URI anyway, or is its destination. |
| Resolution.ResolvedGetKeepsViewSound | src/storage_service/storage_master/storage_master.cc:268-296 | Running a resolved Get by URI and replaying its log by name keeps the view inside the named stores. |
| ViewGap.OpenIffLastTouchCopiesOut | src/storage_service/storage_master/storage_master.cc:274-288 | The pairs a run leaves open are exactly those whose last touching action is a Copy naming the manager as destination. |
| ViewGap.GapAfter | src/storage_service/storage_master/storage_master.cc:274-288 | If the view is the stores without the open pairs, it is so after any actions on running managers, with the open pairs that the actions leave. |
| ViewGap.GetRuleGap | src/storage_service/storage_client/storage_client.cc:91-123 | From agreement, after any executable Get rule a pair is in the view if and only if it is stored and was not last touched by a Copy out of it. |
| ViewGap.PutRuleGap | src/storage_service/storage_client/storage_client.cc:143-174 | The same after any executable Put rule. |
| ViewGap.AgreeIffClosed | src/storage_service/storage_master/storage_master.cc:274-288 | View and stores agree again if and only if no stored key was last touched by a Copy out of it. |
| ViewGap.MoveRuleKeepsAgreement | src/storage_service/e2e_test/storage_service_test.cc:106-142 | The rule Copy, Remove, Get returns the value, moves the key, and leaves view and stores in agreement, for every key and every two managers. |
| ViewGap.SoundAfter | src/storage_service/storage_master/storage_master.cc:268-296 | The view stays inside the stores over any actions on running managers. |
| ViewGap.AbortedGetSoundIff | src/storage_service/storage_client/storage_client.cc:95-115 | When a Get fails an assertion before reporting, a sound view stays sound if and only if none of its keys ends removed by the actions performed. |
| ViewGap.AbortedPutSoundIff | src/storage_service/storage_client/storage_client.cc:157-162 | The same when a Put fails, where a Remove for a non-empty key is performed before it falls through into the failing assertion. |
| ViewGap.AbortedGetBreaksSoundness | src/storage_service/storage_client/storage_client.cc:105-115 | A concrete rule that fails after a Remove: the view claims a key nobody stores. |
| ViewGap.LateGetKeepsSoundness | src/storage_service/storage_client/storage_client.cc:123-128 | A Get that fails only an assertion on its last action has reported: its log reached the master and a sound view stays sound. |
| DataSafety.CopyKeepsValueIff | src/storage_service/storage_manager/storage_manager.cc:118-119 | A Copy keeps a key's common value if and only if its destination holds the key, or the value is the empty one. |
| DataSafety.CheckedGetReturnsValue | src/storage_service/storage_client/storage_client.cc:82-132 | If all copies of a key agree and replaying the rule on a sound view finds every Copy's destination and the final Get's manager, the run returns the common value, every copy left has it, and the view is sound again. |
| DataSafety.ListedGetReturnsValue | src/storage_service/storage_client/storage_client.cc:82-132 | If the copies the view lists agree, a Get with view-checked copies keeps that, and a checked Get returns their value, whatever unlisted copies hold. |
| DataSafety.SessionReturnsValue | src/storage_service/storage_client/storage_client.cc:82-132 | Over any sequence of Gets with view-checked copies of a key, every checked Get of it returns the value of its listed copies. |
| DataSafety.SessionKeepsCopies | src/storage_service/storage_client/storage_client.cc:82-132 | Over such a sequence a sound view stays sound and copies that all agree go on agreeing. |
| DataSafety.ReadIsFromOrigin | src/storage_service/storage_client/storage_client.cc:143-172 | What each manager holds after a Put rule is the put value, a named manager's earlier value or nothing, as the copies hand it on. |
| DataSafety.PutUnifiesIff | src/storage_service/storage_client/storage_client.cc:134-177 | The put value is the only one afterwards if and only if every copy left comes from the Put or from a value that was the same; covering all copies by the Put is enough, and necessary for a new non-empty value. |
| DataSafety.PutThenGets | src/storage_service/storage_client/storage_client.cc:134-177 | After a Put that covers the copies the view lists, every later view-checked Get returns its value, whatever the rules move and unlisted copies hold; after a Put that covers all copies of a sound view's stores it also stays the only value. |
| DataSafety.CoveredIsListedCovered | src/storage_service/storage_client/storage_client.cc:134-177 | For a sound view, a Put that covers all copies left covers the copies the view lists. |
| ResolvedRules.InstalledGetGap | src/storage_service/storage_master/storage_master.cc:274-288 | The exact gap for an installed Get rule as it really runs: by URI on the stores, by name on the view. |
| ResolvedRules.InstalledPutGap | src/storage_service/storage_master/storage_master.cc:274-288 | The same for an installed Put rule. |
| ResolvedRules.InstalledGetReturnsValue | src/storage_service/storage_client/storage_client.cc:82-132 | An installed Get run by URI, checked by name against the view, returns the value of the listed copies and keeps them. |
| ResolvedRules.InstalledPutSetsListed | src/storage_service/storage_client/storage_client.cc:134-177 | An installed Put run by URI that by name covers the listed copies sets them all. |
| Cluster.ChangesAreReplay | src/storage_service/storage_master/storage_master.cc:268-296 | The single locked operations on the view, one after another, are the replay of the log. |
| Cluster.LogsCommuteIff | src/storage_service/storage_master/storage_master.cc:70-87 | Two logs give the same view at a pair in either order if and only if one leaves it alone or both end on the same change. |
| LoneCall.CallIsRun | src/storage_service/storage_client/storage_client.cc:82-177 | The state machine's interleavable steps of a call, performed without interruption, are the interpreter's run and the replay of its log. |
| LoneCall.LoneGetIsRunGet | src/storage_service/storage_client/storage_client.cc:82-132 | An uninterrupted Get of the state machine does to stores and view what the client's Get does. |
| LoneCall.LonePutIsPutLoop | src/storage_service/storage_client/storage_client.cc:134-177 | The same for Put. |
| LoneInstall.InstallIsFillIn | src/storage_service/storage_master/storage_master.cc:229-248 | An uninterrupted installation, action by action, puts the master's resolution of the rule at the client and changes nothing else. |
| LoneJoin.JoinIsStart | src/storage_service/storage_manager/storage_manager.cc:30-59 | The state machine's steps of a manager's start, without interruption and from any state: its name leads to it, its entry in the view is exactly its stored keys whatever was there before, it serves, and nothing else changes. |
| LoneJoin.JoinedIsListed | src/storage_service/storage_master/storage_master.cc:298-304 | A view reply begun after such a start lists the manager with exactly its stored keys. |
| LoneJoin.ClientIsMet | src/storage_service/storage_master/storage_master.cc:163-168 | A client's introduction leads its name to its URI and changes nothing else. |
| LoneJoin.CopyFromStopped | src/storage_service/storage_manager/storage_manager.cc:105-121 | A copy whose destination has stopped does not wait for it: the source stores the empty value. |
| KnownPeers.StepKeepsNamesKnown | src/storage_service/storage_master/storage_master.cc:140-175 | Every step keeps all names in views, half-built replies, rules, calls, logs and reports within the peers. |
| KnownPeers.GetViewNeverMeetsUnknownPeer | src/storage_service/storage_master/storage_master.cc:298-304 | In every reachable state of every interleaving, several calls at one client included, each name a GetView looks up is a peer. |
| ConcurrentSteps.CallStepMoves | src/storage_service/storage_client/storage_client.cc:91-174 | Every step of a call under way, seen at any (manager, key) pair: either the call moves over one action that touches store and report as the action does by name, or the master makes one change of the report; other calls, rules and joining managers stay. |
| ConcurrentView.StepKeepsInv | src/storage_service/storage_master/storage_master.cc:268-296 | Every tame step keeps: calls are apart, and where nothing is stored nor will be, no call ends up reporting an addition, and one ends up reporting a drop of what the view claims. |
| ConcurrentView.QuiescentViewIsSound | src/storage_service/storage_master/storage_master.cc:268-296 | In every tame run, whenever no call is under way, every key in the view is stored by its manager. |
| ReportedView.NeverMeetIsApart | src/storage_service/storage_client/storage_client.cc:143-174 | Calls of which neither has still to remove what the other adds end up apart, so the strict condition implies the tame one. |
| ReportedView.ReportingGivesSoundView | src/storage_service/storage_client/storage_client.cc:123-174 | In every state of every strict run, making all unreported changes, in any order of the calls, gives a view of really stored keys only. |
| Clashes.StartingIsSafeIff | src/storage_service/storage_client/storage_client.cc:143-174 | From every state of a tame run, starting a call leaves the view sound at the end of all calls and reports, over all ways they can go on, if and only if neither it nor any call under way ends up removing a pair that the other ends up reporting as added. |
| Clashes.ClashEndsUnsound | src/storage_service/storage_client/storage_client.cc:143-174 | Two calls of which one ends up reporting a pair as added and the other removing it can both go through all their actions and reports so that no call is under way and the view claims the pair while its manager lacks the key. |
| Clashes.CrashIsSafeIff | src/storage_service/storage_client/storage_client.cc:105-128 | A client's death leaves the view sound at the end of all other calls, over all ways they can go on, if and only if, where nothing is stored nor will be, they report no addition and drop what the view claims. |
| ReportedClashes.StrictStartIffSoundThroughout | src/storage_service/storage_client/storage_client.cc:143-174 | Starting a call keeps the view sound on reports in every state that all calls can reach if and only if it never meets a call under way: the condition for reports of unfinished calls. |
| ReportedClashes.StrictCrashIffSoundThroughout | src/storage_service/storage_client/storage_client.cc:105-128 | The same for a client's death: if and only if what the view claims without being stored has a drop to come, and nothing else is reported as added. |
| ConcurrentData.StepKeepsData | src/storage_service/storage_manager/storage_manager.cc:105-121 | Every gentle step keeps all copies of a key alike, every copy under way fed, and every pulled value the common one. |
| ConcurrentData.ConcurrentCopiesKeepValue | src/storage_service/storage_manager/storage_manager.cc:105-121 | In every interleaving in which calls start with their copies of a key fed and nobody removes or stops what another has still to pull from, all copies of the key keep their value; once no call is under way the listed ones are stored with it. |
| SystemView.ServerlessSystemView.AddExecutionEngine | src/scheduler/scheduler/serverless_system_view.cc:49-58 | All five maps afterwards: host, fresh state and client URI of the engine are set; what is known of managers and files stays. |
| SystemView.ServerlessSystemView.ParseGetViewReply | src/scheduler/scheduler/serverless_system_view.cc:69-103 | The maps after both loops are the fold of the reply; it fails if and only if some manager name holds no storage name. |
| SystemView.ServerlessSystemView.ParseManagerView | src/scheduler/scheduler/serverless_system_view.cc:74-92 | One manager entry: operator[] on unknown hosts, ephemeral or persistent, and the manager's keys. |
| SystemView.ServerlessSystemView.TasksScheduled | src/scheduler/scheduler/serverless_system_view.cc:105-112 | The maps after charging one slot for each decision, creating default states for unknown engines. |
| SystemView.ServerlessSystemView.GetSchedulableEngines | src/scheduler/scheduler/serverless_system_view.cc:115-124 | Exactly the available engines, each once. |
| SystemView.ServerlessSystemView.GetEphemeralStorageView | src/scheduler/scheduler/serverless_system_view.cc:60-64 | The keys of the engine's ephemeral manager; throws if and only if engine or manager is unknown. |
| SystemView.ServerlessSystemView.GetPersistentMgrForPut | src/scheduler/scheduler/serverless_system_view.cc:142-147 | Some manager that the key map names; fails if and only if the map is empty. |
| ReplyParsing.ParseIsSummary | src/scheduler/scheduler/serverless_system_view.cc:69-103 | Parsing a reply is laying its summary over the old maps, for every state and reply. |
| ReplyParsing.ParseIsIdempotent | src/scheduler/scheduler/serverless_system_view_test.cc:34-37 | Parsing a reply twice is parsing it once, on every state, unknown hosts and the "" entry included. |
| ReplyParsing.LastEntryDecidesKeys | src/scheduler/scheduler/serverless_system_view.cc:91-93 | A manager's keys are those of its last entry in the reply. |
| ReplyParsing.LastListingDecidesManager | src/scheduler/scheduler/serverless_system_view.cc:84-88 | A key's persistent manager is the last non-ephemeral one listing it. |
| ReplyParsing.LastEphemeralDecidesName | src/scheduler/scheduler/serverless_system_view.cc:81-83 | An engine's ephemeral manager is the last one reported on a host registered to it. |
| ReplyParsing.LastClientDecidesName | src/scheduler/scheduler/serverless_system_view.cc:96-102 | An engine's client is the last one reported on a host registered to it. |
| ReplyParsing.ParsedKeysAreTheView | src/scheduler/scheduler/serverless_system_view.cc:91-93 | After parsing a reply that lists the master's view, the scheduler holds for each of its managers exactly the same keys, each once, and the other managers' keys as before. |
| ReplyParsing.ParseRegistersHosts | src/scheduler/scheduler/serverless_system_view.cc:74-75 | After parsing, the known hosts are the old ones and exactly those of the reply; old ones keep their engine, new ones have the "" engine. |
| IntroducedViews.IntroducedManagerDecodes | src/scheduler/scheduler/serverless_system_view.cc:13-22 | A view with the generated name and the tracked URI of a manager on a colon-free host decodes to that host, its storage, its name and its keys. |
| IntroducedViews.EngineGetsEphemeral | src/scheduler/scheduler/serverless_system_view.cc:74-83 | After an engine's introduction, a reply gives it the last ephemeral manager that was introduced on its host, whatever their ports. |
| IntroducedViews.EngineGetsClient | src/scheduler/scheduler/serverless_system_view.cc:96-102 | And the last client on its host. |
| IntroducedViews.IntroducedEngineIsSchedulable | src/scheduler/scheduler/serverless_system_view_test.cc:26-32 | An engine with slots whose host has an ephemeral manager and a named client in the reply becomes schedulable, from every earlier state of the view. |
| Packing.PrefixIsCheapest | src/scheduler/scheduler/scheduler.cc:104-106 | Any choice of n tasks from a list has at least the total size of the first n in ascending order, for any sizes of the tasks. |
| Packing.FittingIsBounded | src/scheduler/scheduler/scheduler.cc:113-117 | Decisions within the engines' free slots are at most as many as the slots, and as many only if every engine is full. |
| Scheduling.Scheduler.SortedTasks | src/scheduler/scheduler/scheduler.cc:96-106 | The pending tasks, permuted so that the remaining tasks of their jobs ascend. |
| Scheduling.Scheduler.Schedule | src/scheduler/scheduler/scheduler.cc:92-158 | The decisions take the first tasks in order of their jobs' remaining tasks, with the right rules, fit the free slots and leave no slot while tasks are left; it throws if and only if the rules of a task it gets to cannot be built; as written, defaults are pushed instead. |
| Scheduling.Scheduler.PackEngine | src/scheduler/scheduler/scheduler.cc:114-156 | The inner loop fills one engine until it is full or tasks run out, leaving other engines' counts alone. |
| Scheduling.Scheduler.BuildRules | src/scheduler/scheduler/scheduler.cc:127-150 | One Get rule for an input, one Put rule for an output, with managers the maps name; fails if and only if a lookup does. |
| Scheduling.PackedCount | src/scheduler/scheduler/scheduler.cc:110-157 | The number of decisions is exactly the smaller of pending tasks and free slots over schedulable engines. |
| Scheduling.PackedIsShortestFirst | src/scheduler/scheduler/scheduler.cc:92-127 | The decisions are about the first tasks of the order; each pending entry is used at most once, no other choice of as many pending tasks has a smaller total of their jobs' remaining tasks, and no task left over is of a shorter job than one taken. |
| Scheduling.RulesBeforeTask | src/scheduler/scheduler/scheduler.cc:160-184 | By positions: after all requests of the decisions before it, each decision's rules are answered for its engine's client, in order, and right after them its task is sent; nothing else is sent. |
| Scheduling.AsWrittenSendsEmptyTasks | src/scheduler/scheduler/scheduler.cc:123-125 | With line 124 as written an epoch sends no rule at all, only one empty task to the empty address for each decision. |
| Scheduling.ChargedAreRegistered | src/scheduler/scheduler/serverless_system_view.cc:105-112 | After charging, every decision's engine has a state, so executing never throws on it. |
| Scheduling.Scheduler.Execute | src/scheduler/scheduler/scheduler.cc:160-184 | The requests in their order: for each decision its rules to the master for the engine's client, then its task to its engine; it throws at the first unknown engine, after the requests before it. |
| Scheduling.Scheduler.RunEpoch | src/scheduler/scheduler/scheduler.cc:202-214 | One turn: nothing is charged or sent when nothing is pending or scheduling throws; otherwise the slots of all pushed decisions are charged, and exactly their rules and tasks are sent, in order. |
| SchedulerRuns.StatesTellHistory | src/scheduler/scheduler/serverless_system_view.cc:49-112 | In every run each engine's state is told by the history: name, slots, decisions since its last introduction, ephemeral manager and client reported. |
| SchedulerRuns.SchedulableIff | src/scheduler/scheduler/scheduler_common.h:31-34 | In every run an engine is schedulable if and only if it was introduced, an ephemeral manager and a named client were reported on a host registered to it since, and it has a slot left; its state's name is its map key, and "" is never schedulable. |
| SchedulerRuns.CapacityHolds | src/scheduler/scheduler/scheduler.cc:110-156 | In every run an introduced engine's running tasks are the decisions issued since its last introduction and never exceed its slots. |
| SchedulerRuns.AsWrittenNoEngineIsCharged | src/scheduler/scheduler/scheduler.cc:123-125 | With line 124 as written every decision is charged to the "" entry, and every named engine keeps its state. |
| SchedulerRuns.LeftoverFillsEngines | src/scheduler/scheduler/scheduler.cc:113-157 | When a schedule leaves tasks over, no engine is schedulable after charging it. |
| SchedulerRuns.PersistantIffListed | src/scheduler/scheduler/serverless_system_view.cc:84-88 | In every run a key has a persistent manager if and only if some reply listed it at a non-ephemeral one. |
| SchedulerRuns.LastListerIsPersistant | src/scheduler/scheduler/serverless_system_view.cc:84-88 | And then it is the manager of the latest listing in the history. |
| SchedulerRuns.ResolvableIffListed | src/scheduler/scheduler/serverless_system_view.cc:135-147 | The rules of a task can be built if and only if its input was listed and, for an output, any key at all. |
| SchedulerRuns.ManagersWereReported | src/scheduler/scheduler/serverless_system_view.cc:84-88 | In every run each manager a persistent key maps to was named by a parsed reply. |
| SchedulerRuns.ClientsWereReported | src/scheduler/scheduler/serverless_system_view.cc:96-102 | In every run an engine's client, once set, was named by a parsed reply. |
| Chain.RulesAddressReported | src/scheduler/scheduler/scheduler.cc:127-150 | Each rule of a decision addresses exactly one manager, and some reply named it. |
| Chain.EpochServesTasks | src/scheduler/scheduler/scheduler.cc:127-183 | In every run whose replies named peers, and for every decision read by reference: the epoch sends rules, all answered and to the engine's client, and then the task; once the client has them, a Get of the task's input finds a rule and returns the value at the file's manager, changing nothing, and a Put of its output finds a rule, stores the value at one persistent manager only, and the view learns of it. |
| Chain.MasterRepliesScheduleNothing | src/scheduler/scheduler/scheduler.cc:195-208 | In every run whose replies list no client, as all replies of the master do, no engine is ever schedulable and no task is ever scheduled. |

## Left out

- Transport: gRPC servers, channels, stubs, `wait_for_ready` mechanics, statuses; an RPC is a step at its receiver.
- Threads, sleeps, mutexes, start and stop of servers; the state machine has one step for each locked operation, and the lookups of one action's names, which read without the lock, are one step.
- RocksDB, Redis and the fake persistent backend: a manager's store is a map whose operations succeed.
- `JobView` has no behaviour in the repository: pending tasks, remaining sizes and task data are parameters.
- `ExecutionEngine::Execute`, `StorageClient::Remove` and `Heartbeat` do nothing; `GetPeerFromConnection` and the snapshot copy constructor have no caller.
- The master's own RemoveRule only forwards the rule; the state machine has its effect at the client as a step.
- Logging, flags, binaries and build files.
- URIs without a colon, names with fewer than two colons and rules without actions lead the code to undefined behaviour; they are excluded by preconditions.
- Enum values outside the declared ones, which proto3 would let through, do not occur.
- SystemView.Charge: does not model the 32-bit wrap-around of `running_tasks`, which only the "" entry can approach, because nothing bounds its count.
- Clashes.StartingIsSafeIff: is exact while all managers serve and the rules under way can run to their end; a call that would fail before its removal could start more freely.
- Interpreter.PutReturnsIff: takes the stray Put to the empty URI, sent for the empty key after a Remove, to fail fast; manager calls ask to wait for a ready peer, and a call that waits there for ever would never return.
- ConcurrentData.ConcurrentCopiesKeepValue: its conditions are sufficient, not shown necessary; the final read of a Get is no step, so a removal by another call between the last action and that read is not excluded.
- Rules sent straight to a client and storage changes not sent by a client are no steps of the state machine.
- The final read of a Get and the empty reports of a Put change nothing and are no steps of the state machine.
- Managers.Network.CopyFrom: a call to a URI where no manager runs does nothing here, while the code waits for one; in the state machine the call is not enabled until the manager serves.
- ViewGap.GapAfter: asks that the managers written to are running, as the code's calls wait for them.
- SystemView.ServerlessSystemView.GetPersistentMgrForPut: on an empty map the code reads past the end; the model fails instead.
- SystemView.ServerlessSystemView.ParseGetViewReply: does not state the maps left when the assertion fails, because the process ends there.
- Scheduling.Scheduler.Schedule: starts from an empty list of decisions, as the control loop calls it, and a tracked peer is a value, not an object shared by the two maps.
