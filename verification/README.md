# Verified models of the Nxpod core

Dafny 4.11 models of the parts of Nxpod whose correctness rests on an argument about whole runs, graphs or
arithmetic, with proofs of what they promise. `dafny verify dfyconfig.toml` checks everything.

| file | what it models |
|---|---|
| `TopologicalSort.dfy`, `PeriodicDeleter.dfy` | the depth-first table sort and the periodic deletion of marked rows |
| `Rpc.dfy`, `JsonRpc.dfy` | calls over a message queue, and the JSON-RPC layer that makes them look like local calls |
| `Instances.dfy`, `Bridge.dfy`, `Records.dfy` | the bridge that writes workspace-manager status messages into the database, and its controller |
| `ImageSpec.dfy` | image specs carried in a pullable reference, with Base 32 of RFC 4648 |
| `LinearAlgebra.dfy`, `Mat4.dfy` | 4x4 matrices over the reals, and the in-place matrix class |
| `Connection.dfy`, `Attempts.dfy`, `Topics.dfy` | staying connected to the message bus; topic names and AMQP topic matching |
| `EnvVars.dfy`, `Redact.dfy`, `Poll.dfy` | environment-variable precedence, redaction of logged JSON, polling with backoff |
| `Strings.dfy`, `Options.dfy` | string operations and optional values shared by the others |

Objects that the source updates in place are classes whose methods state their whole new state; asynchronous code
is a state machine over its atomic steps (`Event`, `Enabled`, `Next`), the class methods implement those steps, and the
theorems are about every run (`IsRun`, `After`). Clock readings, random numbers, the outcomes of database statements
and of remote calls, and the JSON library are parameters.

Where the source does not do what its comments or its design suggest, the model follows the source, a lemma
shows a case, and another says when the property does hold:

- A deletion pass keeps references intact if and only if the marked rows are closed under referrers
  (`PassKeepsReferences`). The shipped table list does not ensure that: snapshots have no deletion column, so there is a
  database on which every pass leaves the snapshot of a deleted workspace dangling (`SnapshotLeftDangling`).
- The metric meant for the first user activity is observed each time a message tells a started instance without activity
  of some (`ActivityMetricCounts`): again if activity vanishes in between (`ActivityCanRepeat`), again after a handler that
  failed on a missing owner token or a failing store (`ActivityRepeatsAfterFailure`), and not at all if activity is there
  with the status that starts the instance, and stays (`ActivityCanBeMissed`). Likewise startup is observed once for each
  running status until one of them is stored (`StartupObservedExactly`), hence at most once if stores succeed.
- A controller pass and a status update of the same instance that overlap overwrite each other. A pass keeps the lifecycle
  of a record if and only if it does not mark it or no message handled since it read the record sets for the first time
  what is then fixed (`OverlapExactly`; `PassOverwritesUpdate` and `OverlapLosesStartedTime` are runs of that kind). The
  other way round, a handler that read the record before a pass marks it overwrites the mark: the stop time survives if
  and only if the record had one before or the status reports a stop, and the stopped phase only if the status reports it
  or the record was stopped and the status leaves the phase alone (`HandlerOverlapExactly`; `UpdateOverwritesPass` is such
  a run). Without such overlaps `LifecycleHolds`.
- Over JSON-RPC a result comes back unchanged if and only if it is a JSON value or undefined (`ReturnsExactly`), and what a
  method throws arrives with code 0 if and only if it is not null or undefined and can be sent (`ThrowsExactly`). Two
  demands of sections 5 and 5.1 of JSON-RPC 2.0 are not met: a result without a JSON text yields a response with neither
  `result` nor `error`, and an error thrown without a string as message one whose error message is no string
  (`ResponseIsWellFormed` says exactly when).
- `det` of the matrix class returns the reciprocal of the determinant (`DetReciprocal`).

Two hypotheses of the models are facts about the platform rather than about this code, and two lemmas show what they are
good for: correlation ids do not repeat (`RepeatedIdMixesAnswers`), and all callers that await one connection attempt
resume before anything else happens (`SeparateWakesStartTwoAttempts`).

## Model

| member | source | states |
|---|---|---|
| `TopologicalSorting.TopologicalSort.Sort` | components/nxpod-db/src/tables.ts:156-169 | reports a circle if and only if some value lies on a cycle; otherwise the result holds every value exactly once, each dependency strictly before its dependents; always terminates |
| `TopologicalSorting.TopologicalSort.Visit` | components/nxpod-db/src/tables.ts:171-181 | temporary marks are exactly the path to the current node, permanent marks exactly the finished and ordered nodes; a failed visit exhibits a cycle; the unmarked nodes decrease |
| `Graphs.OrderedIsAcyclic` | components/nxpod-db/src/tables.ts:156-181 | an order that puts dependencies first proves that no node lies on a cycle |
| `Graphs.SameElementsSameBag` | components/nxpod-db/src/tables.ts:156-169 | the duplicate-free result is a permutation of a duplicate-free input |
| `Tables.FindAllFinds` | components/nxpod-db/src/tables.ts:147 | with unique names, the looked-up dependencies of a table are exactly the tables it names |
| `Tables.GetSortedTables` | components/nxpod-db/src/tables.ts:146-148 | fails only for cyclic dependencies; otherwise lists all tables once, each after the tables it depends on |
| `Tables.ShippedTablesSort` | components/nxpod-db/src/tables.ts:41-144 | the shipped table list is well-formed and free of cycles |
| `PeriodicDeletion.PeriodicDbDeleter.DoSync` | components/nxpod-db/src/periodic-deleter.ts:30-46 | issues one DELETE for each marked row, referring tables first; a failing query stops the pass before anything is deleted, a failing DELETE is skipped |
| `PeriodicDeletion.PeriodicDbDeleter.CollectAll` | components/nxpod-db/src/periodic-deleter.ts:32-35 | collects the marked rows of all tables, or stops at the first failing query |
| `PeriodicDeletion.PeriodicDbDeleter.DeleteAll` | components/nxpod-db/src/periodic-deleter.ts:36-45 | issues the collections as one deletion pass and skips failing statements |
| `PeriodicDeletion.PeriodicDbDeleter.CollectRowsToBeDeleted` | components/nxpod-db/src/periodic-deleter.ts:47-66 | collects exactly the marked rows of a table that has a deletion column |
| `PeriodicDeletion.PassKeepsReferences` | components/nxpod-db/src/periodic-deleter.ts:30-46 | after every prefix of the DELETE statements no remaining row refers to a deleted one, if and only if the marked rows are closed under referrers |
| `PeriodicDeletion.PassRemovesMarkedRows` | components/nxpod-db/src/periodic-deleter.ts:30-66 | the final database is the initial one minus exactly the marked rows |
| `PeriodicDeletion.PassWithFailures` | components/nxpod-db/src/periodic-deleter.ts:39-43 | with failing DELETE statements, references are intact after every prefix if and only if the marked rows that do not fail are closed under referrers |
| `PeriodicDeletion.SnapshotLeftDangling` | components/nxpod-db/src/tables.ts:67-99 | a database that respects the declared dependencies, on which a pass exists and every pass leaves a dangling reference |
| `Rpc.RpcClient.constructor` | components/nxpod-messagebus/src/rpc-client.ts:16-29 | installs the shared emitter once; a further client keeps all listeners and calls |
| `Rpc.RpcClient.Call` | components/nxpod-messagebus/src/rpc-client.ts:31-37 | queues the request and registers the listener in one step |
| `Rpc.RpcClient.WaitForResponse` | components/nxpod-messagebus/src/rpc-client.ts:39-49 | appends a one-shot listener to those of the id |
| `Rpc.RpcClient.OnReply` | components/nxpod-messagebus/src/rpc-client.ts:21-27 | resolves and removes all listeners of the reply's id; promises keep their first resolution |
| `Rpc.RpcServer.OnRequest` | components/nxpod-messagebus/src/rpc-server.ts:15-23 | takes the oldest request off the queue and starts handling it |
| `Rpc.RpcServer.FinishHandling` | components/nxpod-messagebus/src/rpc-server.ts:26-38 | publishes one reply, with the id of the handled request |
| `Rpc.StepKeepsInv` | components/nxpod-messagebus/src/rpc-client.ts:16-49 | every step of any client or server keeps: each call in one place, replies answer their own requests, one listener for each unresolved call |
| `Rpc.DeliverFindsCall` | components/nxpod-messagebus/src/rpc-client.ts:21-27 | a delivered reply resolves exactly one call, its own, for the first time |
| `Rpc.EveryCallInOnePlace` | components/nxpod-messagebus/src/rpc-client.ts:16-49 | in every run each call is in exactly one of request queue, being handled, reply in flight or resolved, and a resolved one holds an answer to its own request |
| `Rpc.ResolvedOnce` | components/nxpod-messagebus/src/rpc-client.ts:39-49 | a resolved call never changes again |
| `Rpc.QuiescentMeansResolved` | components/nxpod-messagebus/src/rpc-client.ts:31-49 | once nothing is in flight every call is resolved and no listener is left |
| `Rpc.Drains` | components/nxpod-messagebus/src/rpc-server.ts:15-38 | without further calls, every order of steps reaches quiescence after the same number of steps |
| `Rpc.NoDeadlock` | components/nxpod-messagebus/src/rpc-server.ts:15-38 | until quiescence some step other than a call is possible |
| `Rpc.TakenInOrder` | components/nxpod-messagebus/src/rpc-server.ts:15-23 | in every run the oldest request is taken first: what waits in the queue are always the last of the calls, in order |
| `Rpc.RepeatedIdMixesAnswers` | components/nxpod-messagebus/src/rpc-client.ts:32 | with a repeated correlation id both calls get the answer to the first request |
| `JsonValues.SurvivesExactly` | components/nxpod-messagebus/src/rpc-server.ts:28-32 | stringifying and parsing returns a value unchanged if and only if it is a JSON value or undefined |
| `JsonValues.SendableExactly` | components/nxpod-messagebus/src/rpc-server.ts:28-32 | a value can be sent if and only if there is no cycle and no big integer at any place in it |
| `JsonValues.LostExactly` | components/nxpod-messagebus/src/rpc-server.ts:28-32 | which values become absent, null or an object without a message on their way, at the top, in an array and in an object |
| `JsonRpc.JsonRpcServer.DoHandle` | components/nxpod-messagebus/src/jsonrpc-server.ts:34-49 | every message gets exactly one published response, whatever fails on the way |
| `JsonRpc.JsonRpcServer.Reply` | components/nxpod-messagebus/src/jsonrpc-server.ts:72-76 | publishes the response, or nothing when it cannot be serialised |
| `JsonRpc.IdComesBack` | components/nxpod-messagebus/src/jsonrpc-server.ts:64-70 | the response can be serialised and carries the id of the request, or null |
| `JsonRpc.ResponseIsWellFormed` | components/nxpod-messagebus/src/jsonrpc-server.ts:34-70 | never both result and error; -32700, -32601 and 0 exactly in their cases and no other code but -32603, each with its message; neither member exactly when the result has no JSON text; an error message that is no string exactly when what was thrown has none |
| `JsonRpc.RequestArrives` | components/nxpod-messagebus/src/jsonrpc-client.ts:15-22 | the received request has the four members of a JSON-RPC 2.0 request, with the method, parameters and id that were sent |
| `JsonRpc.ProxiedCall` | components/nxpod-messagebus/src/jsonrpc-client.ts:15-29 | a proxied call ends as the direct call on the received parameters ends, seen through the wire; -32601 when the method is absent |
| `JsonRpc.ReturnsExactly` | components/nxpod-messagebus/src/jsonrpc-client.ts:23-27 | the proxy returns what the method returned if and only if that is a JSON value or undefined |
| `JsonRpc.ThrowsExactly` | components/nxpod-messagebus/src/jsonrpc-server.ts:56-57 | what a method throws arrives with code 0 if and only if it is not null or undefined and can be sent, and else as -32603; the message of the raised error is then the thrown one's if that is a string, and otherwise empty or a conversion to text |
| `JsonRpc.EveryProxiedCall` | components/nxpod-messagebus/src/jsonrpc-client.ts:15-29 | in every run of the message layer a resolved proxied call has the outcome of a direct call on its own arguments |
| `Instances.UpdateKeepsLifecycle` | components/ws-manager-bridge/src/bridge.ts:110-170 | an update keeps running/started, stopped/stopped-time and deployed/deployed-time together, never changes a set started time, deployed time or node name, and observes startup exactly when it sets the started time |
| `Instances.MarkingKeepsLifecycle` | components/ws-manager-bridge/src/bridge.ts:237-238 | the controller's marking keeps them too |
| `Instances.ActivityMetricCounts` | components/ws-manager-bridge/src/bridge.ts:104-120 | over any messages, valid or not, stored or not, the first-activity metric is observed exactly as often as a message tells a started instance without activity of some |
| `Instances.ActivityCanRepeat` | components/ws-manager-bridge/src/bridge.ts:104-117 | activity that vanishes and comes back is observed twice |
| `Instances.ActivityRepeatsAfterFailure` | components/ws-manager-bridge/src/bridge.ts:104-175 | after a handler that fails on a missing owner token or a failing store, the same activity is observed again |
| `Instances.ActivityCanBeMissed` | components/ws-manager-bridge/src/bridge.ts:104-153 | activity that is there before or with the start, and stays, is never observed |
| `Bridge.WorkspaceManagerBridge.SerializeMessagesByInstanceId` | components/ws-manager-bridge/src/bridge.ts:54-66 | queues a message behind the earlier ones of its instance and drops one without an id |
| `Bridge.WorkspaceManagerBridge.StartHandler` | components/ws-manager-bridge/src/bridge.ts:87 | the next handler of an instance starts only when the last one is over, and reads the record |
| `Bridge.WorkspaceManagerBridge.FinishHandler` | components/nxpod-protocol/src/util/queue.ts:15-26 | a handler that fails leaves the queue ready for the next one |
| `Bridge.WorkspaceManagerBridge.HandleStatusUpdate` | components/ws-manager-bridge/src/bridge.ts:68-186 | which messages are ignored, which fail without storing, what is stored and observed; `Records.RecordShowsReports` says what the stored record is, field by field |
| `Bridge.WorkspaceManagerBridge.UpdateRecord` | components/ws-manager-bridge/src/bridge.ts:93-170 | the update, in which a missing authentication throws after the activity metric but before the startup metric |
| `Bridge.WorkspaceManagerBridge.UpdatePhase` | components/ws-manager-bridge/src/bridge.ts:142-170 | the switch over the reported phase, with its times and its metric |
| `Bridge.Serializable` | components/ws-manager-bridge/src/bridge.ts:54-186 | for every interleaving each record equals handling its own messages one after the other in order of arrival |
| `Bridge.ArrivalsRecorded` | components/ws-manager-bridge/src/bridge.ts:54-66 | the recorded arrivals of an instance are exactly the messages that arrived with its id |
| `Records.OneMessage` | components/ws-manager-bridge/src/bridge.ts:93-170 | what one handled message does to each field of the record, and which messages do nothing |
| `Records.HistoryShows` | components/ws-manager-bridge/src/bridge.ts:93-170 | after any history of messages: the conditions, message, timeout, IDE address and owner token of the last stored status; the ports and the repository of the last that had them; the last phase other than unknown and preparing; the last stop; the first start, deployment and node name; id, workspace, region, creation time, deletion mark and needed image build as before |
| `Records.RecordShowsReports` | components/ws-manager-bridge/src/bridge.ts:54-175 | the same in every run of interleaved handlers, for the messages that arrived for the instance; messages create no record |
| `Bridge.IndependentOfOthers` | components/ws-manager-bridge/src/bridge.ts:61-65 | other instances do not influence a record |
| `Bridge.LifecycleHolds` | components/ws-manager-bridge/src/bridge.ts:104-170 | in every run of updates and passes that do not overlap on an instance, the lifecycle invariants hold throughout |
| `Bridge.StartupObservedOnce` | components/ws-manager-bridge/src/bridge.ts:152-156 | if stores succeed, startup is observed exactly when the started time gets set, so at most once |
| `Bridge.StartupObservedExactly` | components/ws-manager-bridge/src/bridge.ts:152-175 | whether stores succeed or not, startup is observed once for each running status until one is stored |
| `Bridge.OverlapExactly` | components/ws-manager-bridge/src/bridge.ts:222-239 | whatever handlers a pass overlaps, its stores keep the lifecycle of a record if and only if it does not mark the record or none of the messages handled since it read the record sets for the first time what is then fixed |
| `Bridge.PassOverwritesUpdate` | components/ws-manager-bridge/src/bridge.ts:222-239 | the run in which a status comes in between, with its final record, and the condition on the status under which nothing is lost |
| `Bridge.HandlerOverlapExactly` | components/ws-manager-bridge/src/bridge.ts:87-175 | whatever passes and other handlers come between read and store of a handler, the record it stores, and the exact conditions under which the stop time and the stopped phase of a mark survive |
| `Bridge.UpdateOverwritesPass` | components/ws-manager-bridge/src/bridge.ts:87-175 | the run in which one pass comes between read and store of a handler, with its final record |
| `Bridge.OverlapLosesStartedTime` | components/ws-manager-bridge/src/bridge.ts:222-239 | a run in which an overlapping pass erases the started time |
| `Bridge.WorkspaceManagerBridge.FindRunningInstances` | components/nxpod-db/src/typeorm/workspace-db-impl.ts:311-327 | reads exactly the instances that are not stopped, not deleted, of the installation if one is named, and whose workspace exists, as they are |
| `Bridge.WorkspaceManagerBridge.ControlInstances` | components/ws-manager-bridge/src/bridge.ts:223-243 | drops the listed instances from the index and stores the marked rest |
| `Bridge.PassMarksExactly` | components/ws-manager-bridge/src/bridge.ts:219-244 | over a whole pass with any separate events in between: of the records that were not stopped, not deleted, of the installation and with a workspace when it read them, marks exactly the unlisted ones that are in phase running or older than the limit, and leaves the rest of them as they were; touches no other record |
| `Bridge.PassKeepsOthers` | components/nxpod-db/src/typeorm/workspace-db-impl.ts:311-327 | whatever overlaps a pass, it changes no record of another region than the installation it is for, no deleted or stopped one and none without a workspace |
| `Bridge.PassWaits` | components/ws-manager-bridge/src/bridge.ts:222-226 | while a pass waits for the manager, what it has read stays what the database holds |
| `Bridge.PassLeavesListed` | components/ws-manager-bridge/src/bridge.ts:226-243 | over a whole pass, once every unlisted instance is due, exactly the listed ones of those it read are left running |
| `Base32.GroupIsFortyBits` | components/registry-facade-api/go/imagespec.go:31 | the eight digits of a group spell the same forty bits as its five bytes (RFC 4648, section 6) |
| `Base32.Alphabet` | components/registry-facade-api/go/imagespec.go:31 | the digits are the alphabet of table 3 of RFC 4648, position by position |
| `Base32.TestVector` | components/registry-facade-api/go/imagespec.go:31 | the encoding of "foob" is the one given in section 10 of RFC 4648 |
| `Base32.RoundTrip` | components/registry-facade-api/go/imagespec.go:70 | decoding inverts encoding for every byte string |
| `Base32.EncodePads` | components/registry-facade-api/go/imagespec.go:31-37 | the encoding is its digits followed by the padding up to a multiple of eight |
| `Base32.UnpaddedDigits` | components/registry-facade-api/go/imagespec.go:37 | n bytes have ceil(8n/5) digits, all from the alphabet |
| `Base32.DecodesExactly` | components/registry-facade-api/go/imagespec.go:70 | a text decodes if and only if it is digits of the alphabet and less than a group of padding, in whole groups, with a number of digits that some bytes have |
| `ImageSpecs.NameIsDigits` | components/registry-facade-api/go/imagespec.go:31-37 | lowering, replacing and trimming leave exactly the digits in lower case |
| `ImageSpecs.RestoreName` | components/registry-facade-api/go/imagespec.go:59-68 | padding and raising the name gives back the encoding |
| `ImageSpecs.RefCarriesText` | components/registry-facade-api/go/imagespec.go:18-82 | for every host, reading an accepted reference unmarshals exactly the text that was marshalled |
| `ImageSpecs.RefRoundTrip` | components/registry-facade-api/go/imagespec.go:18-82 | every accepted spec that the JSON codec gives back comes back from its reference |
| `ImageSpecs.AcceptedExactly` | components/registry-facade-api/go/imagespec.go:18-43 | a reference is made if and only if the host is not empty, there is no content layer, the spec can be marshalled and its text has at most 158 bytes; too long if and only if it has more |
| `ImageSpecs.ErrorsExactly` | components/registry-facade-api/go/imagespec.go:18-30 | which of the first three errors a refused spec gets |
| `ImageSpecs.HostIsKept` | components/registry-facade-api/go/imagespec.go:45 | one leading slash of the host is dropped and nothing else of it |
| `ImageSpecs.PathAndTagIgnored` | components/registry-facade-api/go/imagespec.go:50-54 | reading looks only at the last segment of a reference, without its tag |
| `ImageSpecs.ReadsExactly` | components/registry-facade-api/go/imagespec.go:50-82 | which error reading a name ends in: empty, of a length that no bytes have, or refused by the JSON codec |
| `ImageSpecs.RefIsPullable` | components/registry-facade-api/go/imagespec.go:32-45 | the repository name has at most 255 characters and, after its prefix, only lower-case letters and digits |
| `ImageSpecs.NamesAreDistinct` | components/registry-facade-api/go/imagespec.go:26-37 | different texts have different repository names |
| `LinearAlgebra.DetIs` | components/dashboard/src/mat4.ts:67-81 | the twelve-minor expansion is the determinant by the permutation formula |
| `LinearAlgebra.DetMultiplicative` | components/dashboard/src/mat4.ts:81 | the determinant of a product is the product of the determinants |
| `LinearAlgebra.InverseTheorem` | components/dashboard/src/mat4.ts:90-147 | the computed inverse is two-sided, and inverting it gives the matrix back |
| `LinearAlgebra.InverseIsUnique` | components/dashboard/src/mat4.ts:90-147 | any one-sided inverse is the computed one, so a matrix that is refused has none |
| `Motions.RotationAboutAxis` | components/dashboard/src/mat4.ts:192-195 | the constructed matrix is the rotation about the axis: orthogonal, determinant 1, fixing the axis, with the angle and sense of sine and cosine |
| `Motions.TranslationMoves` | components/dashboard/src/mat4.ts:214-220 | the translation matrix moves points by the vector and has determinant 1 |
| `Mat4Class.Mat4.SetToIdentity` | components/dashboard/src/mat4.ts:245-251 | the array holds the identity |
| `Mat4Class.Mat4.SetFrom` | components/dashboard/src/mat4.ts:149-167 | the array equals the other's |
| `Mat4Class.Mat4.Transpose` | components/dashboard/src/mat4.ts:25-47 | the array holds the transposed matrix |
| `Mat4Class.Mat4.DetReciprocal` | components/dashboard/src/mat4.ts:49-88 | zero if and only if the determinant is zero, else its reciprocal |
| `Mat4Class.Mat4.Invert` | components/dashboard/src/mat4.ts:90-147 | throws if and only if the determinant is zero and then changes nothing; else the array holds the inverse |
| `Mat4Class.InvertTwice` | components/dashboard/src/mat4.ts:90-147 | after an inversion a second one succeeds and restores the original array |
| `Mat4Class.Mat4.Translate` | components/dashboard/src/mat4.ts:214-220 | right-multiplies by the translation |
| `Mat4Class.Mat4.Rotate` | components/dashboard/src/mat4.ts:169-212 | throws exactly for an axis shorter than 0.001; else right-multiplies by the rotation about the normalized axis |
| `Mat4Class.MotionsStayInvertible` | components/dashboard/src/mat4.ts:169-251 | any sequence of translations and rotations of the identity has determinant 1 and can be inverted |
| `Connection.MessageBusIntegration.Connect` | components/nxpod-messagebus/src/messagebus.ts:178-185 | starts an attempt only if none is running; otherwise joins it |
| `Connection.MessageBusIntegration.SettleAttempt` | components/nxpod-messagebus/src/messagebus.ts:187-195 | all callers of an attempt resume, and a failed reconnect is scheduled again |
| `Connection.MessageBusIntegration.ScheduleReconnect` | components/nxpod-messagebus/src/messagebus.ts:269-286 | sets at most one timer, with the bounded random delay |
| `Connection.MessageBusIntegration.DoCloseConnection` | components/nxpod-messagebus/src/messagebus.ts:288-299 | clears channel and connection |
| `Connection.MessageBusIntegration.OnClose` | components/nxpod-messagebus/src/messagebus.ts:229-240 | closes and schedules a reconnect |
| `Connection.MessageBusIntegration.OnReconnectTimer` | components/nxpod-messagebus/src/messagebus.ts:278-285 | frees the timer field and connects with the default retries |
| `Connection.MessageBusIntegration.OnConnected` | components/nxpod-messagebus/src/messagebus.ts:226-244 | keeps the connection and goes on to the channel, unless there is one |
| `Connection.MessageBusIntegration.OnChannelReady` | components/nxpod-messagebus/src/messagebus.ts:244-263 | keeps the channel and settles the attempt in one step |
| `Connection.MessageBusIntegration.OnTryFailed` | components/nxpod-messagebus/src/messagebus.ts:208-214 | a failed try closes everything and pauses |
| `Connection.MessageBusIntegration.OnPauseOver` | components/nxpod-messagebus/src/messagebus.ts:201-218 | the next try, or failure when all tries are spent; `Attempts.ConnectUsesItsTries` says that they get spent |
| `Connection.StepKeepsInv` | components/nxpod-messagebus/src/messagebus.ts:178-299 | every event keeps: the fields remember the one attempt and the one timer, attempts are awaited, lost connections are being restored |
| `Connection.ReconnectIsSafe` | components/nxpod-messagebus/src/messagebus.ts:178-299 | in every run at most one attempt and one timer, each delay between min(r, 10000) and 10000, and after a close event a timer or a timer-started connect until the channel is set |
| `Connection.DelayInTime` | components/nxpod-messagebus/src/messagebus.ts:276 | the randomized delay stays between the capped timeout and the maximum |
| `Connection.DelayShare` | components/nxpod-messagebus/src/messagebus.ts:276 | the delay is the timeout plus a whole random share of up to ten percent, or the maximum |
| `Connection.FailedReconnectWaitsLonger` | components/nxpod-messagebus/src/messagebus.ts:280-284 | when an attempt that reconnect timers wait for has failed, the next reconnect uses 1.1 times the timeout of the first of them |
| `Attempts.CallerWaits` | components/nxpod-messagebus/src/messagebus.ts:178-195 | a call of connect, by a caller or a timer, starts an attempt with its number of tries or joins the running one, and waits for it; or there is nothing to do |
| `Attempts.OwnStep` | components/nxpod-messagebus/src/messagebus.ts:201-263 | what each event of an attempt does to it: a failed try pauses it, the end of a pause starts the next try with what is missing, unless no try is left or nothing is missing |
| `Attempts.TriesCounted` | components/nxpod-messagebus/src/messagebus.ts:201-214 | over any run, the tries of an attempt go down by exactly one for each that fails |
| `Attempts.AttemptsEnd` | components/nxpod-messagebus/src/messagebus.ts:201-218 | an attempt of n tries has at most 3 * n events, and until it is over one of them can happen |
| `Attempts.WaitsUntilOver` | components/nxpod-messagebus/src/messagebus.ts:186-195 | over any run, whoever waits for an attempt waits until it is over, and no longer |
| `Attempts.AttemptUsesItsTries` | components/nxpod-messagebus/src/messagebus.ts:201-218 | from any point of a run: no more failures than tries left; without a channel an attempt is over only when all have failed, and then the next pause ends it and all waiting |
| `Attempts.ConnectUsesItsTries` | components/nxpod-messagebus/src/messagebus.ts:178-218 | in every run, an attempt started with n retries makes at most n tries, fails after exactly n, and its last pause leaves nobody waiting and, for a reconnect, a timer pending; a reconnect timer starts one with 10 |
| `Attempts.ConnectedExactly` | components/nxpod-messagebus/src/messagebus.ts:224-299 | in every run there is a connection, or a channel, if and only if one was opened and nothing has closed or failed since |
| `Attempts.TimersChangeExactly` | components/nxpod-messagebus/src/messagebus.ts:269-286 | exactly which events change the timers, and to what: a close, a firing timer, and the failure of an attempt that a timer waits for |
| `Attempts.HandlersInstalledExactly` | components/nxpod-messagebus/src/messagebus.ts:226-254 | connections and channels keep their close handlers, with the timeout of the attempt that opened them |
| `Topics.PublishedTopicParses` | components/nxpod-messagebus/src/messagebus.ts:101-123 | a published topic parses to its three fields if and only if each is non-empty and dot-free |
| `Topics.ListenerGetsExactly` | components/nxpod-messagebus/src/messagebus.ts:86-103 | a listening topic, as an AMQP pattern, matches a published one if and only if every given field agrees |
| `EnvVars.Filter` | components/nxpod-protocol/src/protocol.ts:156-219 | the three loops compute the selection that the lemmas below characterise |
| `EnvVars.Group` | components/nxpod-protocol/src/protocol.ts:168-173 | the map holds for each name its candidates in order, and its keys stand in order of first occurrence |
| `EnvVars.Scan` | components/nxpod-protocol/src/protocol.ts:188-214 | keeps the first candidate of the least score |
| `EnvVars.PatternMeaning` | components/nxpod-protocol/src/protocol.ts:157-208 | which owners and repositories a pattern admits, and its place in the order of precedence |
| `EnvVars.OwnerOnly` | components/nxpod-protocol/src/protocol.ts:157-208 | what a pattern without a slash admits and scores |
| `EnvVars.ExtraPartsIgnored` | components/nxpod-protocol/src/protocol.ts:157-208 | what follows a second slash of a pattern does not matter |
| `EnvVars.OnePerName` | components/nxpod-protocol/src/protocol.ts:156-219 | exactly one variable for each name among those matching owner and repository |
| `EnvVars.FirstOccurrence` | components/nxpod-protocol/src/protocol.ts:176 | the names stand in the order of their first matches |
| `EnvVars.EarliestOfLeastScore` | components/nxpod-protocol/src/protocol.ts:188-215 | each result scores least for its name, and less than all earlier matches of the name |
| `EnvVars.Idempotent` | components/nxpod-protocol/src/protocol.ts:156-219 | filtering the result again returns it unchanged |
| `Redaction.RedactValue` | components/common-go/log/redact.go:37-55 | the recursive rewriting computes the redacted tree |
| `Redaction.RedactArray` | components/common-go/log/redact.go:57-61 | rewrites every element |
| `Redaction.RedactObject` | components/common-go/log/redact.go:63-76 | rewrites every field |
| `Redaction.RedactJSON` | components/common-go/log/redact.go:25-34 | prints the redacted tree; text that does not parse is returned as it is, with an error |
| `Redaction.SensitiveExactly` | components/common-go/log/redact.go:47-52 | the test finds exactly the texts that contain "auth_", "password" or "token" in any case |
| `Redaction.CaseDoesNotMatter` | components/common-go/log/redact.go:48 | texts that differ in case only are treated alike |
| `Redaction.ExposedValues` | components/common-go/log/redact.go:37-76 | away from sensitive keys the shape and all values are those of redacting each value on its own |
| `Redaction.VisibleValues` | components/common-go/log/redact.go:37-76 | what can be seen of a value under keys without a prohibited part: a text that contains one is the marker, other leaves are as they were, arrays keep their length and objects their keys |
| `Redaction.HiddenValues` | components/common-go/log/redact.go:64-70 | under a key that contains "auth_", "password" or "token" in any case there is the marker and nothing else |
| `Redaction.NothingSensitiveLeft` | components/common-go/log/redact.go:46-53 | no text that can be reached contains "auth_", "password" or "token" in any case, and under a key that does there is the marker |
| `Redaction.UnchangedExactly` | components/common-go/log/redact.go:37-76 | a tree is left unchanged if and only if it is clean |
| `Redaction.Idempotent` | components/common-go/log/redact.go:37-76 | redacting twice is redacting once |
| `Redaction.RedactedTextParses` | components/common-go/log/redact.go:25-34 | if the printed redacted tree parses back, redacting the output again changes nothing |
| `Polling.PollingIsBounded` | components/dashboard/src/util.ts:26-53 | k callback invocations imply that the first k-1 delays fit before the deadline; success and stop run at most once together |
| `Polling.PunctualCalls` | components/dashboard/src/util.ts:31-53 | with punctual timers the bound is exact |
| `Polling.WarnsWhenLate` | components/dashboard/src/util.ts:37-42 | once the warning time is over every call is preceded by a warning, and none is given before |
| `Polling.EndsOnce` | components/dashboard/src/util.ts:33-48 | polling ends with exactly one of success and stop, or silently when a callback throws or the deadline passes without a stop callback |
| `Polling.PollEndsRightly` | components/dashboard/src/util.ts:31-53 | success runs if and only if a call was done, right after that call; stop runs if and only if there is one, every call was not done, and the deadline has passed at the last check; each call follows a check within the deadline |
| `Polling.SumIsGeometric` | components/dashboard/src/util.ts:48 | the sum of the delays in closed form |

## Left out

- Database: SQL text and quoting; columns other than the deletion column and references; other writers between the SELECT and the DELETE statements of a pass, or between the steps of the bridge.
- `Rpc.FinishHandling`: an error object that cannot be serialised itself, after which the base class publishes no reply; it does not happen in the JSON-RPC layer.
- Proxied calls whose arguments cannot be serialised: they reject before anything is sent.
- Messages: several channels, connection loss during a call, and redelivery by the broker; the proxy used with a symbol as method name; numbers other than integers, and values with their own `toJSON`.
- Bridge: two controller passes at the same time; fields that no step touches (image, configuration), the message-bus notification after a store, the hooks for prebuilds and probes, tracing, the subscription loop, and the disconnect counter of `startController`.
- `Bridge.WorkspaceManagerBridge.FinishHandler`: headless-log messages share the queue but their forwarding is not modelled, because they do not touch the database.
- `ImageSpecs.FromRef`: references with line breaks, which the Base 32 decoder skips, and characters outside ASCII, whose case and byte length differ.
- JSON text: the JSON libraries are parameters that are assumed to invert their own output where a lemma says so.
- Matrices: floating-point rounding and `setToOrtho`; sine, cosine and the square root are parameters with their defining equations.
- `Connection.Settle`: callers of one attempt resume in one step; listeners and their re-establishment, and an `onConnectionEstablished` that does work, are not modelled.
- Publishing, acknowledgements and topic listeners of the message bus.
- `Redaction.RedactValue`: rewrites values and returns them, because the sharing of arrays and maps through pointers in Go is not modelled; case folding outside ASCII.
- `EnvVars.Filter`: locale-dependent lowering is a parameter.
- `Polling.Poll`: a callback that never ends.
