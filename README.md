# Clustered websocket sessions and the front-end bundle registry

This project models two independent pieces of the d.cms content management system. It
proves properties of both models.

**`ClusterSessionManager`** (module `ClusterSessions`, `session_manager.dfy`) is the per-node
registry of websocket sessions in a Hazelcast cluster. A node keeps three maps:

- `sessionIndex` maps a session id to a Local session (the node holds the transport
  connection) or a Remote session (a peer holds it).
- `localSessions` maps a transport connection to its Local session.
- `callbackMap` maps a message id to its acknowledgement callback.

The node reacts to transport connect and close events and to envelopes replicated by its
peers. It publishes `SessionConnected`, `SessionClose`, `BroadcastMessage` and
`SendAcknowledgeMessage` envelopes on the cluster topic.

Each operation is written twice:

- as a pure step function on a `NodeState` value (`ConnectStep`, `CloseLocalStep`, ...);
- as a method of the class `ClusterSessionManager`, which updates the maps in place. Each
  method's postcondition ties its new state, its result and its effects to the step
  function. The fan-out over the local sessions writes in an unspecified order, so its
  effects are fixed up to that order: the order is a ghost out-parameter listing every
  connection once, and the trace grows by the effects of each connection in that order
  (`FanOutTrace`). `FanOutSuffix` states the same suffix without the order.

The predicate `Consistent` says that the two session maps agree. Every step keeps it.
Publishing, writing to a connection, closing a connection and running a callback are
recorded as `Effect`s, in a ghost `trace`.

**`BundleContext`** (module `BundleContexts`, `bundle_context.dfy`) is the browser-side
OSGi-like registry. It covers:

- service registration with a per-class `lastIndex` counter;
- a per-context cache of service instances with a `usage` counter on each reference;
- listener lists per event name;
- a property filter;
- the table of installed bundles.

The three static dictionaries shared by all contexts are the fields of one `Registry`
object. A service reference is a `ServiceReference` object, and its `getService` and
`applyFilter` closures are its methods. Calls into listeners, activators, bundle callbacks
and the module loader are recorded as `Event`s in the registry's ghost `trace`.

`wrappers.dfy` holds the `Option` and `Result` datatypes.

## Behaviour kept as written

The model follows the code in four places where the code's behaviour is surprising.

- `addSession` never inserts. It uses `computeIfPresent`, so an id the index does not hold
  stays absent, although its javadoc (ClusterSessionManager.java:168-170) says that it
  adds a remote session to the node. A node that starts empty therefore never holds a
  Remote proxy: `ReplicationIgnoredWhenAllLocal`, `AllLocalPreserved` and
  `AllLocalPreservedBySends` prove that an index holding only Local entries stays that way
  under every operation that changes the maps: connect, both closes, both single sends,
  the fan-out `send(message)`, replication, forced close and callback registration.
  `broadcast`, `messageAcknowledged` and `sendAcknowledgeMessage` leave the maps as they
  are.
- `messageAcknowledged` does not consume the callback: `MessageAcknowledged` leaves the
  whole state, `callbackMap` included, as it was, so a repeated acknowledgement fires the
  same callback again. Which callback fires is the latest registered for the id
  (`AcknowledgeFiresLatestRegistration`).
- `sessionClosed(RemoteSession)` removes the id from the index before it throws on a Local
  entry. The connection stays in `localSessions` (`RemoteCloseOfLocalLeavesConnection`).
  In the model a later transport close of that connection succeeds and publishes a close;
  what the source's `SessionClose` construction does at that point is not modelled (see
  the `RemoteSession` line under "Left out").
- `applyFilter` overwrites its verdict on every key, so only the last key of a filter
  decides (`FilterLoopLastKey`, `OnlyLastKeyDecides`, `EarlierMismatchIgnored`).

## Model

| member | source | states |
|---|---|---|
| ClusterSessions.ClusterSessionManager.constructor | websocket/src/main/java/media/dee/dcms/websocket/impl/ClusterSessionManager.java:48-50 | a new node has three empty maps and has published nothing |
| ClusterSessions.ConnectStep | websocket/src/main/java/media/dee/dcms/websocket/impl/ClusterSessionManager.java:81-90 | a new connection gets a Local session under a fresh id; both lookups return it; every other connection and id looks up as before; exactly one `SessionConnected` is published; consistency is kept |
| ClusterSessions.ClusterSessionManager.SessionConnected | websocket/src/main/java/media/dee/dcms/websocket/impl/ClusterSessionManager.java:81-90 | the in-place update yields exactly the state, result and effects of `ConnectStep` |
| ClusterSessions.CloseLocalStep | websocket/src/main/java/media/dee/dcms/websocket/impl/ClusterSessionManager.java:93-107 | fails with `UnknownConnection` exactly when the connection is unknown, and then changes nothing; otherwise removes the id and the connection, returns the session and publishes one `SessionClose` for a Remote session with that id |
| ClusterSessions.ClusterSessionManager.SessionClosedByConnection | websocket/src/main/java/media/dee/dcms/websocket/impl/ClusterSessionManager.java:93-107 | the in-place update agrees with `CloseLocalStep` |
| ClusterSessions.CloseRemoteStep | websocket/src/main/java/media/dee/dcms/websocket/impl/ClusterSessionManager.java:109-119 | always removes the id from the index and never touches `localSessions`; fails with `UnauthorizedRemoval` exactly when the removed entry was Local |
| ClusterSessions.ClusterSessionManager.SessionClosedByRemote | websocket/src/main/java/media/dee/dcms/websocket/impl/ClusterSessionManager.java:109-119 | the in-place update agrees with `CloseRemoteStep` |
| ClusterSessions.ClusterSessionManager.GetByConnection | websocket/src/main/java/media/dee/dcms/websocket/impl/ClusterSessionManager.java:121-124 | a session exactly for known connections; in a consistent node it is a Local session for that connection, and the index holds it if it holds its id |
| ClusterSessions.ClusterSessionManager.GetById | websocket/src/main/java/media/dee/dcms/websocket/impl/ClusterSessionManager.java:126-129 | a session exactly for indexed ids; it carries that id, and a Local one is reachable from its connection |
| ClusterSessions.SendStep | websocket/src/main/java/media/dee/dcms/websocket/impl/ClusterSessionManager.java:132-145 | returns whether the write succeeded; the write comes first; a success or a failure on an id not held as Local changes nothing; a failure on a Local id runs the local close of that id's connection |
| ClusterSessions.ClusterSessionManager.SendToSession | websocket/src/main/java/media/dee/dcms/websocket/impl/ClusterSessionManager.java:132-145 | the in-place update agrees with `SendStep` |
| ClusterSessions.SendByIdStep | websocket/src/main/java/media/dee/dcms/websocket/impl/ClusterSessionManager.java:147-161 | an id that is absent or not Local completes with no write and no change; a Local id does what `SendStep` does and completes successfully exactly when the write succeeded |
| ClusterSessions.ClusterSessionManager.SendToId | websocket/src/main/java/media/dee/dcms/websocket/impl/ClusterSessionManager.java:147-161 | the in-place update agrees with `SendByIdStep` |
| ClusterSessions.SendToUnknownIdIsNoop | websocket/src/main/java/media/dee/dcms/websocket/impl/ClusterSessionManager.java:151-160 | sending to an id the index does not hold completes with no effect at all |
| ClusterSessions.SecondFailedSendOnlyWrites | websocket/src/main/java/media/dee/dcms/websocket/impl/ClusterSessionManager.java:137-143 | close-on-failure happens at most once: a second failed write to the same session only writes |
| ClusterSessions.ClusterSessionManager.Broadcast | websocket/src/main/java/media/dee/dcms/websocket/impl/ClusterSessionManager.java:163-166 | the maps are unchanged and exactly one `BroadcastMessage` is published |
| ClusterSessions.AddSessionStep | websocket/src/main/java/media/dee/dcms/websocket/impl/ClusterSessionManager.java:172-179 | the set of ids is unchanged; a Local entry is kept; an existing non-Local entry becomes the given remote session; no other id changes |
| ClusterSessions.ClusterSessionManager.AddSession | websocket/src/main/java/media/dee/dcms/websocket/impl/ClusterSessionManager.java:172-179 | the in-place update agrees with `AddSessionStep` and publishes nothing |
| ClusterSessions.OwnEchoKeepsLocal | websocket/src/main/java/media/dee/dcms/websocket/impl/ClusterSessionManager.java:172-179 | a node that receives the replica of its own new session keeps its state |
| ClusterSessions.ReplicationIgnoredWhenAllLocal | websocket/src/main/java/media/dee/dcms/websocket/impl/ClusterSessionManager.java:172-179 | when every index entry is Local, replication changes nothing, and an unknown id stays unknown |
| ClusterSessions.AllLocalPreserved | websocket/src/main/java/media/dee/dcms/websocket/impl/ClusterSessionManager.java:81-119 | connect and both closes keep an index that holds only Local entries that way |
| ClusterSessions.AllLocalPreservedBySends | websocket/src/main/java/media/dee/dcms/websocket/impl/ClusterSessionManager.java:132-215 | both single sends, the fan-out, replication, forced close and callback registration keep an index that holds only Local entries that way |
| ClusterSessions.ConnectThenCloseRestores | websocket/src/main/java/media/dee/dcms/websocket/impl/ClusterSessionManager.java:81-107 | connecting and then closing the same connection returns the connected session and restores the maps exactly |
| ClusterSessions.RemoteCloseOfLocalLeavesConnection | websocket/src/main/java/media/dee/dcms/websocket/impl/ClusterSessionManager.java:109-119 | a remote close of a Local id fails after removing the id; the connection still maps to the session, and its transport close still succeeds and publishes one close |
| ClusterSessions.CloseSessionStep | websocket/src/main/java/media/dee/dcms/websocket/impl/ClusterSessionManager.java:181-192 | returns true exactly when the id is Local here; then the connection is closed first and the local close runs; otherwise nothing changes |
| ClusterSessions.ClusterSessionManager.CloseSession | websocket/src/main/java/media/dee/dcms/websocket/impl/ClusterSessionManager.java:181-192 | the in-place update agrees with `CloseSessionStep` |
| ClusterSessions.ClusterSessionManager.SendToLocalSessions | websocket/src/main/java/media/dee/dcms/websocket/impl/ClusterSessionManager.java:194-202 | as written: every session held when the walk starts is written to, and every failed, still-indexed session is closed; the result is the `ConcurrentModification` error exactly when such a close happened, and otherwise the number of successful writes; consistency is kept; the trace grows by exactly one write of the message per session and one `SessionClose` per closed session, in the order of the walk, and by nothing else |
| ClusterSessions.ClusterSessionManager.SendToLocalSnapshot | websocket/src/main/java/media/dee/dcms/websocket/impl/ClusterSessionManager.java:194-202 | as intended: the walk over a copy of the local sessions returns the number of successful writes; the new state is the starting state with every failed, still-indexed session closed; consistency is kept; the trace grows by exactly one write of the message per session and one `SessionClose` per closed session, in the order of the walk, and by nothing else |
| ClusterSessions.FanOutTraceContents | websocket/src/main/java/media/dee/dcms/websocket/impl/ClusterSessionManager.java:194-202 | whatever order the walk takes, its effects number one per visited session plus one per closed session, hold a write of the message to every visited session and a `SessionClose` for every closed one, and nothing else |
| ClusterSessions.FanOutSuffixOf | websocket/src/main/java/media/dee/dcms/websocket/impl/ClusterSessionManager.java:194-202 | the suffix a complete walk appends to the trace is exactly the fan-out's effects up to order |
| ClusterSessions.FanOutShrinksExactlyWhenDropped | websocket/src/main/java/media/dee/dcms/websocket/impl/ClusterSessionManager.java:196-201 | the fan-out changes the map it walks exactly when a failed write closes a session |
| ClusterSessions.OneFailedWriteThrows | websocket/src/main/java/media/dee/dcms/websocket/impl/ClusterSessionManager.java:137-142 | one failed write to an indexed Local session makes the walk close a session, so the as-written fan-out fails; when it is the only failure, every other session was written successfully |
| ClusterSessions.FanOutOutcome | websocket/src/main/java/media/dee/dcms/websocket/impl/ClusterSessionManager.java:194-202 | after the fan-out a connection stays exactly when its write succeeded or its id had left the index; an id leaves exactly when it was Local and its write failed; the count is at most the number of local sessions |
| ClusterSessions.FanOutWithoutFailures | websocket/src/main/java/media/dee/dcms/websocket/impl/ClusterSessionManager.java:194-202 | when no write fails the fan-out changes nothing and counts every local session |
| ClusterSessions.FannedOutConsistent | websocket/src/main/java/media/dee/dcms/websocket/impl/ClusterSessionManager.java:194-202 | closing the failed sessions, in any number, keeps the two maps consistent |
| ClusterSessions.RegisterCallbackStep | websocket/src/main/java/media/dee/dcms/websocket/impl/ClusterSessionManager.java:213-215 | the id now maps to the new callback, overwriting any earlier one; other ids and both session maps are unchanged |
| ClusterSessions.ClusterSessionManager.RegisterMessageCallback | websocket/src/main/java/media/dee/dcms/websocket/impl/ClusterSessionManager.java:213-215 | the in-place update agrees with `RegisterCallbackStep` |
| ClusterSessions.AcknowledgedEffects | websocket/src/main/java/media/dee/dcms/websocket/impl/ClusterSessionManager.java:221-226 | at most one effect; none exactly for an unknown id; otherwise the registered callback fires |
| ClusterSessions.ClusterSessionManager.MessageAcknowledged | websocket/src/main/java/media/dee/dcms/websocket/impl/ClusterSessionManager.java:221-226 | the maps, `callbackMap` included, are unchanged and the effects are those of `AcknowledgedEffects` |
| ClusterSessions.AcknowledgeFiresLatestRegistration | websocket/src/main/java/media/dee/dcms/websocket/impl/ClusterSessionManager.java:213-226 | after a registration, an acknowledgement of that id fires exactly the registered callback; registering twice is registering the second callback, and the acknowledgement then fires the second |
| ClusterSessions.ClusterSessionManager.SendAcknowledgeMessage | websocket/src/main/java/media/dee/dcms/websocket/impl/ClusterSessionManager.java:232-234 | the maps are unchanged and exactly one `SendAcknowledgeMessage` is published |
| BundleContexts.BundleContext.constructor | cms-web-app/src/main/front-end/javascript/service/BundleContext.js:4-9 | a context records its parent and activators and starts with no children and no cached instances |
| BundleContexts.BundleContext.AddServiceListener | cms-web-app/src/main/front-end/javascript/service/BundleContext.js:31-34 | the listener is appended to its event's list, which is created if missing |
| BundleContexts.IndexOf | cms-web-app/src/main/front-end/javascript/service/BundleContext.js:38 | -1 exactly when the listener is absent, otherwise the position of its first occurrence |
| BundleContexts.WithoutFirst | cms-web-app/src/main/front-end/javascript/service/BundleContext.js:36-41 | removes one occurrence as a multiset; an absent listener leaves the list as it is; otherwise exactly the first occurrence is spliced out and the order of the rest is kept |
| BundleContexts.BundleContext.RemoveServiceListener | cms-web-app/src/main/front-end/javascript/service/BundleContext.js:36-41 | the event's list becomes `WithoutFirst` of the old list |
| BundleContexts.BundleContext.TriggerServiceEvent | cms-web-app/src/main/front-end/javascript/service/BundleContext.js:43-46 | the calls made are `Notify` of the event's list; the list is created if missing |
| BundleContexts.NotifyInOrder | cms-web-app/src/main/front-end/javascript/service/BundleContext.js:43-46 | each listener is called exactly once, in list order |
| BundleContexts.BundleContext.Activate | cms-web-app/src/main/front-end/javascript/service/BundleContext.js:48-50 | the calls made are the starts of the context's activators |
| BundleContexts.BundleContext.Deactivate | cms-web-app/src/main/front-end/javascript/service/BundleContext.js:52-54 | the calls made are the stops of the context's activators |
| BundleContexts.ActivatorCallsInOrder | cms-web-app/src/main/front-end/javascript/service/BundleContext.js:48-54 | each activator is started, or stopped, exactly once, in list order |
| BundleContexts.BundleContext.InstallBundle | cms-web-app/src/main/front-end/javascript/service/BundleContext.js:57-63 | an installed path calls back with the existing context and exports and loads nothing; any other path only asks the module loader |
| BundleContexts.BundleContext.ModuleLoaded | cms-web-app/src/main/front-end/javascript/service/BundleContext.js:65-75 | a fresh child context with the module's activator is filed under the path in `childContexts` and `Bundles`; it is activated before the callback runs |
| BundleContexts.BundleContext.RemoveBundle | cms-web-app/src/main/front-end/javascript/service/BundleContext.js:79-89 | an installed bundle is deactivated and removed from `Bundles` and `childContexts`; an unknown path changes nothing; the callback runs last in both cases |
| BundleContexts.Registry.constructor | cms-web-app/src/main/front-end/javascript/service/BundleContext.js:168-170 | the three shared dictionaries start empty |
| BundleContexts.ServiceProps | cms-web-app/src/main/front-end/javascript/service/BundleContext.js:96 | the properties always have a `cls` key; the given properties win, and the class name fills `cls` only when they lack it |
| BundleContexts.ServiceReference.constructor | cms-web-app/src/main/front-end/javascript/service/BundleContext.js:98-103 | a reference records its context, class, properties, instance and index, with a usage of zero |
| BundleContexts.BundleContext.RegisterService | cms-web-app/src/main/front-end/javascript/service/BundleContext.js:92-137 | the new reference gets the old `lastIndex` plus one, which lies above every index in use; it is filed under it and becomes the new `lastIndex`; the registered event goes to the listeners; the registry stays well indexed |
| BundleContexts.ServiceReference.GetService | cms-web-app/src/main/front-end/javascript/service/BundleContext.js:104-117 | the first call for a context caches the instance and adds one use; a later call returns the cached instance and changes nothing |
| BundleContexts.ServiceReference.ApplyFilter | cms-web-app/src/main/front-end/javascript/service/BundleContext.js:118-124 | the loop's verdict is `FilterMatches`: an empty filter matches, otherwise the last key alone decides |
| BundleContexts.FilterLoopLastKey | cms-web-app/src/main/front-end/javascript/service/BundleContext.js:118-124 | the filter loop's verdict is the match of its last pair, or the initial verdict for an empty filter |
| BundleContexts.OnlyLastKeyDecides | cms-web-app/src/main/front-end/javascript/service/BundleContext.js:118-124 | two filters that end in the same pair select the same references |
| BundleContexts.EarlierMismatchIgnored | cms-web-app/src/main/front-end/javascript/service/BundleContext.js:121-122 | a filter whose first key is missing from the properties still matches when its last key matches |
| BundleContexts.BundleContext.Unregister | cms-web-app/src/main/front-end/javascript/service/BundleContext.js:139-143 | deletes only that reference's index; `lastIndex` is kept; the unregistered event goes to the listeners |
| BundleContexts.BundleContext.UngetService | cms-web-app/src/main/front-end/javascript/service/BundleContext.js:147-157 | afterwards nothing is cached for the reference; a use is subtracted exactly when something was cached, so a second call changes nothing |
| BundleContexts.RefsFromSound | cms-web-app/src/main/front-end/javascript/service/BundleContext.js:159-165 | the scan lists only stored references that pass the filter, by strictly increasing index |
| BundleContexts.RefsFromComplete | cms-web-app/src/main/front-end/javascript/service/BundleContext.js:159-165 | the scan lists every stored reference in its range that passes the filter |
| BundleContexts.RefsFromExact | cms-web-app/src/main/front-end/javascript/service/BundleContext.js:159-165 | the scan lists exactly the stored references in its range that pass the filter, each once, by increasing index |
| BundleContexts.BundleContext.GetServiceReferences | cms-web-app/src/main/front-end/javascript/service/BundleContext.js:159-165 | exactly the class's stored references that pass the filter, by increasing index; nothing for an unknown class; never the `lastIndex` counter |

## Findings

| source | as written | input that shows it | evidently intended | confidence | as-written member | corrected member |
|---|---|---|---|---|---|---|
| websocket/src/main/java/media/dee/dcms/websocket/impl/ClusterSessionManager.java:196-201 | `send(message)` streams the values of the live `localSessions` `HashMap`. A failed write to a Local session runs `sessionClosed`, whose `localSessions.remove` (line 102) changes that map during the walk. The walk's fail-fast check then throws `ConcurrentModificationException` out of `count()` instead of returning the count | three local sessions, all indexed, whose writes succeed except one (`OneFailedWriteThrows`) | the number of successful writes (2), with the failed session closed | not executed | ClusterSessions.ClusterSessionManager.SendToLocalSessions | ClusterSessions.ClusterSessionManager.SendToLocalSnapshot |

## Left out

- The Hazelcast wiring is not modelled: `activate`, `dispatchWSMessage` and `getTopic`. Publishing is an `Effect` in the trace.
- The bodies of the envelope `dispatch` methods are not part of this model. No claim is made about which manager method an envelope triggers on a peer.
- `LocalSession` and `RemoteSession` internals are not part of this model. Session ids are a parameter, required fresh. A new connection is required to be unknown to the node.
- A write's outcome is a parameter: a `bool` for `send(session, message)`, and for `send(message)` the set of connections whose write fails.
- `ClusterSessions.ClusterSessionManager.SendToLocalSessions`: concurrency is not modelled. `synchronized` and `parallelStream` are replaced by sequential writes in an unspecified order, and the fail-fast check runs once, after the last write. With a parallel stream the exception can reach the caller while other parts of the stream are still writing.
- `ClusterSessions.ClusterSessionManager.SendToLocalSessions`: the walk visits every entry the map held at its start. This is what a `HashMap` walk does when the entry being visited is removed, but it is not derived from a model of `HashMap`.
- The `CompletableFuture` of `send(id, message)` is a `Completion` value.
- Logging is left out.
- After `sessionClosed(RemoteSession)` has thrown on a Local entry, the transport close of that connection builds its `SessionClose` from a missing index entry. `RemoteSession` is not part of this model, so what that construction does is unknown. The model publishes a close carrying the session's id.
- `ClusterSessions.ClusterSessionManager.SendToSession`: the exception that the close would throw for a connection unknown to `localSessions` is not reachable in a consistent node and is not modelled.
- The `window` event listeners of the root context are not modelled; they are browser wiring.
- `requireModule` and `unDefineModule` are left out. Module loading is split into `InstallBundle`, which asks the loader, and `ModuleLoaded`, which models the loader's callback.
- The `isFunction` factory call in `getService` is not modelled. The instance is an opaque value.
- `BundleContexts.ServiceReference.GetService`: a cached instance that JavaScript treats as falsy counts as absent in the source; the model treats every cached instance as present.
- `BundleContexts.BundleContext.UngetService`: the same falsy-instance case is not modelled.
- `BundleContexts.BundleContext.RegisterService`: the source returns an `Object.assign` copy of the reference with `unregister` added. The model returns the reference itself and models `unregister` as `Unregister(ref)`. `ungetService` on the copy would change the copy's `usage`; that aliasing is not modelled.
- Property values are strings, and a filter is the sequence of pairs that its `for...in` loop visits.
- A listener, activator or callback that calls back into the registry while it runs is not modelled.
- `ComponentServiceImpl.java`, `ProfilePieItem.java`, `Application.js`, `Dashboard.js` and `WebSocketBridgeActivator.java` are not part of this model. They are service registration plumbing, demo data and user interface code.
