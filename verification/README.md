# Erid as a replicated-state system

Erid keeps a workspace of tasks, decisions, handoffs and presence. Its API mutates the workspace and
publishes one row-level event per mutation; a bounded bus fans the events out; a web dashboard and two
editor panels rebuild the workspace from a snapshot and the event stream. This project models that
system and proves what it is for: that the replicas end up showing the server's state, whatever part
of the stream the snapshot already contained.

How the files follow the program:

- `Store.dfy`, `Handlers.dfy`, `Routes.dfy`: the handlers, once as a function from state and request to state,
  events and response, with what each stores, publishes and answers column by column, and once as methods
  over mutable tables that keep its invariant and are proved equal to it. Ids are fresh, timestamps strictly increase, and a mutation and its publish are one step.
- `Rows.dfy`, `Feed.dfy`, `Listing.dfy`: list updates by id, one table seen through its change stream, ordered
  listings.
- `Web.dfy`, `Links.dfy`, `Replication.dfy`, `Convergence.dfy`: the dashboard's event handler, links cleared
  behind its back, the published stream as table histories, and the convergence theorems.
- `LastWord.dfy`, `Limits.dfy`, `PresenceList.dfy`: what a stream says about one row; what happens outside the
  hypotheses of those theorems, with exact conditions; presence, row by row.
- `Handoffs.dfy`, `Summary.dfy`, `Titles.dfy`, `Optimistic.dfy`, `Clients.dfy`: the handoff lifecycle, the
  summary counts, titles of linked tasks, optimistic placeholders, the two editor panels.
- `Bus.dfy`, `EventBus.dfy`, `Delivery.dfy`, `Lossy.dfy`: the bounded bus as a model and as objects, store, bus
  and dashboard put together, and a dashboard that missed events.
- `Rpc.dfy`, `HubBridgeClient.dfy`, `HubRpcClient.dfy`, `Settlement.dfy`: JSON-RPC correlation between the bridge
  and the two editor clients, with JSON-RPC 2.0, section 5, for the response ids; how each promise settles.
- `Backoff.dfy`, `Supervisor.dfy`, `WebEffect.dfy`: the two reconnect loops and their delays.
- `Search.dfy`, `NewestFile.dfy`, `Heartbeat.dfy`, `ActorNames.dfy`: LIKE escaping (ISO/IEC 9075-2, section 8.5),
  the newest-file traversal, the presence heartbeat, the fresh-name search.
- `Credentials.dfy`, `AccessRules.dfy`, `Access.dfy`: workspace keys, actors and tokens as a state machine, its
  rules written out, and the handlers.
- `Common.dfy`: shared datatypes and sequence lemmas.

Conventions. Uuids, generated keys, times, outcomes of I/O and scheduling choices are inputs. `Response`
and status codes stand for the HTTP errors. A step whose guard fails leaves the state alone, so the
run theorems quantify over every sequence of steps. A digest of a key is the key itself.

Where the code does less than its documentation promises, the code is followed; each case has its exact
condition and a lemma at a concrete input:

- A listing that fails with anything but a permission or not-a-directory error (a directory that
  vanished before it was listed) escapes `newest_file`: `NewestFile.NewestFile`, `NewestFile.VanishedDirectory`.
- On an open workspace REST ignores credentials that do not authenticate while the socket refuses them:
  `Credentials.SocketIsStricter`, `Credentials.WrongKeyOnOpenWorkspace`.
- A token outlives its actor if the name is given to another one: `Credentials.KeyTokenEquivalence`,
  `Credentials.TokenOfReusedName`.
- After `workspace_deleted` VS Code clears its panel and JetBrains keeps it: `Clients.DeletionSplitsClients`,
  `Clients.DeletionSplitsOneTask`.
- The name search folds the names in use in SQL and the candidates in Python, and where the two foldings
  differ it can return a name in use: `ActorNames.AlwaysFreeIffFoldsAgree`, `ActorNames.AccentedNameTwice`.
- The JetBrains client, meant to mirror the VS Code one, drops the HTTP status of a hub error:
  `HubRpcClient.AlikeIffNoStatus`, `HubRpcClient.HttpErrorDiffers`.

## Model

| member | source | states |
|---|---|---|
| `Rows.UpsertHas` | web/src/useWorkspace.js:179-185 | after `upsertById` with distinct ids, a row is in the list if and only if it is the new row or an old row with another id |
| `Rows.UpsertIds` | web/src/useWorkspace.js:179-185 | `upsertById` keeps the id order, appends an id it did not know, and keeps ids distinct |
| `Feed.NeverReborn` | api/app/api/routes/context.py:367-381 | an id that was handed out and deleted never comes back in any legal history of a table |
| `Feed.AtEndOverlap` | web/src/useWorkspace.js:155-162 | replaying over a snapshot the events it already contains gives the snapshot back, although deleted rows may be re-appended on the way |
| `Feed.AtEndConverges` | web/src/useWorkspace.js:155-162 | upsert-at-end lists: snapshot after `a`, then all of `a + b`, equals the table after `a + b`, positions included |
| `Feed.AtFrontConverges` | web/src/useWorkspace.js:163-173 | move-to-front lists filled from the newest `limit` rows: an exact newest-first prefix, nothing it could know is missing, whole when the snapshot was not cut, and a prefix altogether when rows are never updated |
| `Store.ValidRun` | api/app/api/routes/context.py:322-611 | in every reachable store each decision and handoff link is null or a live task, rows are keyed by distinct issued ids, presence has one id per actor, and each handoff has exactly the timestamps of the transitions it took |
| `Store.SetNullValid` | api/app/models/models.py:178-207 | `ON DELETE SET NULL` leaves no link to the deleted task, keeps every row and moves no column but the link |
| `Store.HandlersFrame` | api/app/api/routes/context.py:322-690 | each handler publishes at most one event, only of its own table, and leaves the other tables alone; task deletion also clears links |
| `Store.RunSplit` | api/app/api/routes/context.py:322-690 | running and logging a concatenation of requests is running and logging its parts |
| `Handlers.NothingAfterDeletion` | api/app/api/routes/context.py:322-696 | a deleted workspace answers 404 to everything, publishes nothing and changes no table |
| `Handlers.TaskCreation` | api/app/api/routes/context.py:322-340 | the stored and published row column by column, the author falling back to the caller |
| `Handlers.TaskPatch` | api/app/api/routes/context.py:343-364 | each of title, status and assignee is the given value if given, else the old one; the author stays; the timestamp moves exactly when one of the three changed; the event carries the stored row; an unknown task is 404 without an event |
| `Handlers.TaskDeletion` | api/app/api/routes/context.py:367-381 | the task is gone, every other row keeps its columns and every link but those to it; an unknown task is 404 |
| `Handlers.DecisionCreation` | api/app/api/routes/context.py:419-450 | 404 for a dangling link, else the row column by column with the three-way author fallback, published as stored |
| `Handlers.DecisionDeletion` | api/app/api/routes/context.py:453-467 | exactly that decision goes, its id is published; an unknown one is 404 |
| `Handlers.HandoffCreation` | api/app/api/routes/context.py:514-557 | 404 for a dangling link, else an open handoff without timestamps, column by column, published as stored |
| `Handlers.HandoffAcknowledgement` | api/app/api/routes/context.py:560-578 | resolved is a conflict, acknowledged is accepted in silence, open becomes acknowledged by this caller at this time and is published; an unknown one is 404 |
| `Handlers.HandoffResolution` | api/app/api/routes/context.py:581-597 | resolved is accepted in silence, anything else becomes resolved by this caller at this time and is published; an unknown one is 404 |
| `Handlers.HandoffDeletion` | api/app/api/routes/context.py:600-611 | exactly that handoff goes, its id is published; an unknown one is 404 |
| `Handlers.Heartbeat` | api/app/api/routes/context.py:650-696 | the actor's row is replaced column by column under its old id, or created under the new one, and published |
| `Handlers.WorkspaceDeletion` | api/app/api/routes/context.py:116-131 | every table is empty afterwards and the deletion is published |
| `Routes.Workspace.PostTask` | api/app/api/routes/context.py:322-340 | creating a task commits and publishes what the store step says, `created_by` falling back to the caller |
| `Routes.Workspace.PutTask` | api/app/api/routes/context.py:343-364 | the handler over the mutable tables is the patch step of the store, whose columns, timestamp, event and 404 are those of `Handlers.TaskPatch` |
| `Routes.Workspace.RemoveTask` | api/app/api/routes/context.py:367-381 | deleting a task clears the links to it and publishes its id |
| `Routes.Workspace.PostDecision` | api/app/api/routes/context.py:419-450 | 404 for a dangling link, otherwise the full row committed and published |
| `Routes.Workspace.RemoveDecision` | api/app/api/routes/context.py:453-467 | deleting a decision publishes its id |
| `Routes.Workspace.PostHandoff` | api/app/api/routes/context.py:514-557 | a handoff starts open, signed by the given author, the caller or the slug |
| `Routes.Workspace.PickUpHandoff` | api/app/api/routes/context.py:560-578 | acknowledging: conflict when resolved, silent when already acknowledged, else one transition and one event |
| `Routes.Workspace.CompleteHandoff` | api/app/api/routes/context.py:581-597 | resolving: silent when already resolved, else one transition and one event |
| `Routes.Workspace.RemoveHandoff` | api/app/api/routes/context.py:600-611 | deleting a handoff publishes its id |
| `Routes.Workspace.PostPresence` | api/app/api/routes/context.py:650-696 | the presence upsert keeps the row id of the actor name |
| `Routes.Workspace.RemoveWorkspace` | api/app/api/routes/context.py:116-131 | deleting the workspace empties every table and publishes `workspace_deleted` |
| `Listing.ListingUnique` | api/app/api/routes/context.py:308-319 | with strictly increasing `created_at` the ordered listing of a table is unique |
| `Listing.UnlinkListing` | api/app/api/routes/context.py:405-416 | leaving the link column out of a table and of its listing commute |
| `Replication.TasksRecorded` | api/app/api/routes/context.py:322-381 | over every run the published task events are a legal history that turns the first listing into the last |
| `Replication.DecisionsRecorded` | api/app/api/routes/context.py:405-467 | the same for decisions, links left out |
| `Replication.HandoffsRecorded` | api/app/api/routes/context.py:483-611 | the same for handoffs, links left out |
| `Web.TasksFollowFeed` | web/src/useWorkspace.js:155-162 | `applyEvent` over any stream treats the task list as upsert-at-end of the task changes alone |
| `Web.DecisionsFollowFeed` | web/src/useWorkspace.js:163-166 | the decision list is move-to-front of the decision changes, links left out |
| `Web.HandoffsFollowFeed` | web/src/useWorkspace.js:167-173 | the handoff list is move-to-front, updates in place, of the handoff changes, links left out |
| `Links.LinkAgreesStep` | api/app/models/models.py:178-207 | a replica row whose link, read against the live tasks, is the server's keeps being so whatever one request does to links |
| `Links.DecisionRowsRun` | api/app/models/models.py:181-185 | over every run each decision row of the replica, read against the live tasks, has the server's link |
| `Links.HandoffRowsRun` | api/app/models/models.py:203-206 | over every run each handoff row of the replica, read against the live tasks, has the server's link |
| `Convergence.TasksConverge` | web/src/useWorkspace.js:155-185 | overlap-tolerant convergence of the dashboard's task list to the server's listing, for every run and every snapshot point inside the stream |
| `Convergence.DecisionsConverge` | web/src/useWorkspace.js:163-166 | the decision list is always a prefix of the server's newest-first listing, links included, whole when the snapshot was not cut, and no decision it could know is missing |
| `Convergence.HandoffsConverge` | web/src/useWorkspace.js:167-173 | every handoff row is the server's current row up to the link rule, the newest rows are in order, none it could know is missing, and the list is the whole listing when the snapshot was not cut |
| `Limits.TaskHealsIffMentioned` | web/src/useWorkspace.js:19-33 | whatever task list a client holds when the stream starts, an old snapshot or one that overwrote newer rows, it agrees with the server on a task afterwards if and only if the stream mentions it or they agreed at the start |
| `Limits.GapHealsIffMentioned` | mcp-server/src/bridge.py:189-193 | whatever requests were served between the snapshot and the start of the stream, replica and server agree on a task, present or absent, if and only if the stream mentions it or the gap left it as it was |
| `Limits.DecisionGapHealsIffMentioned` | mcp-server/src/bridge.py:189-193 | after any gap replica and server agree on a decision, its link read against the live tasks, if and only if the stream mentions it or the snapshot showed what the server had when the stream started |
| `Limits.HandoffGapHealsIffMentioned` | web/src/useWorkspace.js:19-33 | the same for handoffs |
| `Limits.MissedUntilUpdated` | mcp-server/src/bridge.py:189-193 | in particular a task created in that gap is shown, as long as it lives, if and only if an update of it is published later |
| `Limits.SwappedUpdates` | api/app/api/routes/context.py:361-363 | two updates published in the other order than committed leave the same list if and only if they concern different rows or write the same row |
| `Handoffs.AtMostTwoUpdates` | api/app/api/routes/context.py:560-597 | over any run each `handoff_updated` event spends a transition, so no handoff has more than two |
| `Handoffs.ForwardOnly` | api/app/models/models.py:23-31 | a handoff only moves forward, keeps author and notes, and its earlier timestamps are never rewritten |
| `Handoffs.StampedAtTransition` | api/app/api/routes/context.py:560-597 | whatever the request, a surviving handoff is unchanged or took one transition, stamped with that request's time and caller and nothing else |
| `Handoffs.GoneForGood` | api/app/api/routes/context.py:600-611 | a deleted handoff never exists again |
| `Summary.SummaryIsFold` | api/app/api/routes/context_misc.py:82-133 | the summary's four counts equal those of a fold of the published stream from the workspace's creation |
| `Summary.ListingCount` | api/app/api/routes/context_misc.py:91-111 | counting rows with a condition in SQL is counting them in the listing |
| `Summary.WhatIsCounted` | api/app/api/routes/context_misc.py:91-111 | the four numbers are all tasks, the tasks to do, in progress or blocked, all decisions, and the handoffs neither acknowledged nor resolved |
| `Optimistic.RollbackCommutes` | web/src/components/TaskList.jsx:25-29 | filtering an id out commutes with every event that does not mention it |
| `Optimistic.PlaceholderInvisible` | web/src/components/DecisionList.jsx:19-23 | a placeholder added, then rolled back after any events not mentioning it, leaves no trace, for tasks, decisions and handoffs |
| `Optimistic.WhereAdded` | web/src/components/TaskList.jsx:25-28 | a new task is shown last, a new decision or handoff first, and nothing else moves |
| `Optimistic.RolledBack` | web/src/components/TaskList.jsx:29 | a rollback takes the id out of the list of its section and touches no other list |
| `Titles.TitleUnaffectedByStaleLink` | web/src/components/HandoffList.jsx:7 | a stale link and the server's nulled link render the same title, and exactly the live links render one |
| `Titles.DecisionTitles` | web/src/components/DecisionList.jsx:7 | the replica's task list is the server's listing and every decision renders the title its server row has, although link clearing is never published and tasks and decisions are loaded at different points of the stream |
| `Titles.HandoffTitles` | web/src/components/HandoffList.jsx:7 | the same for handoffs |
| `Clients.WorkspaceState.ApplyEvent` | editors/vscode/src/state.ts:65-102 | the VS Code panel after an event, presence matched by actor name, deletion clearing lists, summary and connection flag, the slug kept |
| `Clients.WorkspaceState.ApplySnapshot` | editors/vscode/src/state.ts:53-62 | a snapshot replaces the three lists and the summary, connects and clears the error; the slug is the summary's, else the one passed, else the one known |
| `Clients.HubPanel.ApplySnapshot` | editors/jetbrains/src/main/java/dev/erid/hub/HubPanel.java:47-53 | no snapshot changes nothing, otherwise the three lists are replaced, empty where missing |
| `Clients.HubPanel.UpsertBy` | editors/jetbrains/src/main/java/dev/erid/hub/HubPanel.java:100-113 | the loop with the `replaced` flag replaces every match and appends only when there was none |
| `Clients.HubPanel.ApplyEvent` | editors/jetbrains/src/main/java/dev/erid/hub/HubPanel.java:56-86 | the JetBrains panel after an event; deletion is only logged |
| `Clients.ReplaceAllIsUpsert` | editors/jetbrains/src/main/java/dev/erid/hub/HubPanel.java:100-113 | with distinct ids, replacing every match is replacing the first |
| `Clients.NameMatchIsIdMatch` | editors/vscode/src/state.ts:136-144 | under the id and actor-name bijection, matching presence by name finds the row matching by id would |
| `Clients.StreamBound` | api/app/api/routes/context.py:663-694 | over every run an actor keeps its presence id and every published presence row carries it |
| `Clients.ThreeClientsAgree` | editors/vscode/src/state.ts:65-144 | on every server-generated stream the three clients hold equal task, decision and presence lists while the workspace exists, the lists loaded at different points of the stream |
| `Clients.DeletionSplitsClients` | editors/jetbrains/src/main/java/dev/erid/hub/HubPanel.java:56-86 | after `workspace_deleted` the two editor panels agree if and only if the panel was empty |
| `Clients.DeletionSplitsOneTask` | editors/vscode/src/state.ts:92-97 | with one task on the panel VS Code empties it and JetBrains keeps it |
| `Bus.ValidActAll` | api/app/services/event_bus.py:41-89 | in every reachable bus, what a subscriber accepted and what it missed are in publish order, disjoint, and together exactly what was published on its slug since it subscribed; a queue never exceeds 1000 |
| `Bus.CommonOrder` | api/app/services/event_bus.py:69-77 | two subscribers see the events they share in the same order |
| `Bus.DroppedIffFull` | api/app/services/event_bus.py:41-59 | in any run an event is dropped for a subscriber if and only if its queue held 1000 events at that moment |
| `Bus.NonInterference` | api/app/services/event_bus.py:69-89 | a subscriber's queue depends on the publishes and its own gets only, whatever the others do |
| `Bus.LosslessIffNothingDropped` | api/app/services/event_bus.py:69-77 | a subscriber without drops holds exactly the slug's stream since it subscribed; one with drops misses an event |
| `EventBus.Queue.Offer` | api/app/services/event_bus.py:41-59 | `_offer` appends to a queue below 1000 and leaves a full one alone |
| `EventBus.InProcessEventBus.Publish` | api/app/services/event_bus.py:69-77 | publishing offers the event to every subscriber of the slug and to no other, and is the publish action of the bus model |
| `EventBus.InProcessEventBus.Subscribe` | api/app/services/event_bus.py:79-89 | a new empty queue that sees what is published from now on |
| `EventBus.InProcessEventBus.Unsubscribe` | api/app/services/event_bus.py:79-89 | leaving removes this queue only |
| `EventBus.InProcessEventBus.Receive` | api/app/api/routes/context.py:726-739 | one wait of the `/ws` loop hands out the oldest queued event, the one published at its recorded position, or times out on an empty queue |
| `EventBus.Queue.Get` | api/app/api/routes/context.py:726-739 | a get hands out the oldest queued event, the one published at its recorded position, or times out on an empty queue |
| `EventBus.Pump` | api/app/services/event_bus.py:114-145 | a Redis subscription: over any alternation of polls and gets the queue is the bus model's on the decodable messages, conservation and order included, and the socket received what was published, in order |
| `EventBus.TurnsAsActions` | api/app/services/event_bus.py:114-145 | in the run of a pump every decodable message is published once and in order, every take is a get, and no other poll does anything |
| `Delivery.ReceivesTheLog` | api/app/api/routes/context.py:704-740 | a subscription that lost nothing and drained its queue received exactly the store's log of the requests served since |
| `Delivery.DashboardConverges` | web/src/useWorkspace.js:54-115 | store, bus and dashboard together: such a subscriber's task list is the server's listing |
| `Delivery.DashboardDecisionsConverge` | web/src/useWorkspace.js:54-115 | the same for decisions, through the twenty-row snapshot and the cleared links: a prefix that misses nothing it could know, the whole listing when the snapshot was not cut |
| `Delivery.DashboardHandoffsConverge` | web/src/useWorkspace.js:54-115 | the same for handoffs: every row current, the newest in order, the whole listing when the snapshot was not cut |
| `Lossy.LossyDashboard` | api/app/services/event_bus.py:41-59 | whatever was dropped for a subscriber, its dashboard shows the server's row of every task whose last event was not dropped, and of any task exactly if what it last heard says what was last published |
| `Lossy.PartlyHeard` | web/src/useWorkspace.js:155-162 | a dashboard fed with part of the stream shows of each task what it last heard; drops before the last event do not matter |
| `Lossy.AcceptedIsHeard` | api/app/services/event_bus.py:69-77 | what a subscriber accepted is its slug's stream without exactly the dropped events |
| `LastWord.ClientSays` | web/src/useWorkspace.js:155-185 | whatever list a client starts from and whatever changes reach it, each row is what the last change naming it said |
| `LastWord.AgreeIffNamed` | web/src/useWorkspace.js:155-185 | a client that hears a whole history agrees with the table on a row if and only if a change named it or they agreed from the start |
| `PresenceList.PresenceCurrent` | web/src/useWorkspace.js:174-175 | every presence row of the replica is the server's current row of its actor, each actor once, and the actors shown are exactly those of the snapshot and the stream |
| `PresenceList.ServerSays` | api/app/api/routes/context.py:650-696 | the server's row of an actor is what its last published heartbeat said |
| `Rpc.SoundPlay` | editors/vscode/src/bridge/HubBridgeClient.ts:216-262 | every interleaving keeps the books: pending = timers = unsettled promises, ids are 1 to nextId - 1, every line on the wire belongs to its request |
| `Rpc.SettledOnce` | editors/vscode/src/bridge/HubBridgeClient.ts:216-262 | a settled promise never changes, in any interleaving of responses, timeouts, write failures, exits, disposals and restarts |
| `Rpc.OwnAnswerOnly` | mcp-server/src/bridge.py:306-326 | a promise resolves only with its own request's result, and a remote rejection carries the error code of its own handler's ending |
| `Rpc.IssuedIsPendingPlusSettled` | editors/vscode/src/bridge/HubBridgeClient.ts:232-254 | issued ids are the pending and the settled ones, each pending one has its timer, and without a running bridge all are settled |
| `Rpc.NothingLeftPending` | editors/vscode/src/bridge/HubBridgeClient.ts:160-180 | after dispose, a process error or an exit nothing is pending, no timer runs and every promise is settled |
| `Rpc.ResponseSettles` | editors/vscode/src/bridge/HubBridgeClient.ts:216-229 | a response read for a pending id settles exactly that promise with its own handler's answer |
| `Settlement.Timeout` | editors/vscode/src/bridge/HubBridgeClient.ts:241-245 | in every reachable state a timer that runs out deletes entry and timer and rejects its promise with code -32000; a timer that no longer runs changes nothing |
| `Settlement.FailedWrite` | editors/vscode/src/bridge/HubBridgeClient.ts:246-252 | in every reachable state a failed write deletes entry and timer and rejects its promise, and changes nothing once the promise is settled |
| `Settlement.EverythingFails` | editors/vscode/src/bridge/HubBridgeClient.ts:160-180 | in every reachable state a process error, an exit and a dispose each reject exactly the pending promises, with their own cause, leave the settled ones alone and stop what they stop |
| `Settlement.RequestBooked` | editors/vscode/src/bridge/HubBridgeClient.ts:232-254 | a request of a running client is written with the next id, a timer and an open promise; without a bridge nothing is booked or written |
| `Settlement.Starting` | editors/vscode/src/bridge/HubBridgeClient.ts:125-134 | start does nothing while the bridge runs, otherwise a preflight begins |
| `Settlement.PreflightOver` | editors/vscode/src/bridge/HubBridgeClient.ts:129-151 | a passed preflight brings the bridge up and un-stops the client, a failed one does neither |
| `Settlement.RequestAnswered` | mcp-server/src/bridge.py:287-326 | a request that is written, read, handled and whose response is read settles its promise as its handler ended, by method name and exception, and leaves every other promise, entry, handler and response alone |
| `Settlement.BridgeTakesUp` | mcp-server/src/bridge.py:352-376 | requests are taken up in the order written, whatever still runs |
| `Settlement.HandlerAnswers` | mcp-server/src/bridge.py:306-326 | a handler that ends writes one response after all earlier ones, the result or the code of its exception |
| `Settlement.FutureIssued` | editors/jetbrains/src/main/java/dev/erid/hub/HubRpcClient.java:81-105 | in every reachable state a request gets the next id, an entry and an open future; a failed write takes the entry out and fails the future; a client that is not running hands out nothing |
| `Settlement.FutureAnswered` | editors/jetbrains/src/main/java/dev/erid/hub/HubRpcClient.java:125-148 | a response takes the entry out and completes its future with the result or the code unless the future was complete; an unknown id changes nothing |
| `Settlement.FutureTimesOut` | editors/jetbrains/src/main/java/dev/erid/hub/HubRpcClient.java:92-93 | an open future that times out fails and keeps its entry, a complete one is left alone |
| `Settlement.FuturesEnd` | editors/jetbrains/src/main/java/dev/erid/hub/HubRpcClient.java:107-184 | the end of the output and `close` fail exactly the open futures, each with its own cause, and stop the client; the shutdown request of `close` fails too |
| `HubBridgeClient.HubBridgeClient.Request` | editors/vscode/src/bridge/HubBridgeClient.ts:232-254 | a request takes the next id, timer and entry and hands out a fresh promise, or a rejected one and no entry when no bridge runs |
| `HubBridgeClient.HubBridgeClient.HandleResponse` | editors/vscode/src/bridge/HubBridgeClient.ts:216-229 | the entry of the id is removed, its timer cleared and its promise settled; an unknown id changes nothing |
| `HubBridgeClient.HubBridgeClient.FailAllPending` | editors/vscode/src/bridge/HubBridgeClient.ts:256-262 | the loop rejects exactly the pending promises and empties map and timers |
| `HubBridgeClient.HubBridgeClient.OnTimeout` | editors/vscode/src/bridge/HubBridgeClient.ts:241-245 | the timer callback is the timeout step of the client, which `Settlement.Timeout` spells out |
| `HubBridgeClient.HubBridgeClient.OnWritten` | editors/vscode/src/bridge/HubBridgeClient.ts:246-252 | a failed write forgets its entry and rejects its promise unless already settled |
| `HubBridgeClient.HubBridgeClient.OnProcessError` | editors/vscode/src/bridge/HubBridgeClient.ts:164-167 | a process error rejects everything pending |
| `HubBridgeClient.HubBridgeClient.OnExit` | editors/vscode/src/bridge/HubBridgeClient.ts:169-179 | an exit drops the process and, unless the client was stopped, rejects everything pending |
| `HubBridgeClient.HubBridgeClient.Dispose` | editors/vscode/src/bridge/HubBridgeClient.ts:369-382 | dispose stops the client, rejects everything pending and drops the process |
| `HubBridgeClient.HubBridgeClient.Start` | editors/vscode/src/bridge/HubBridgeClient.ts:125-134 | starting while running does nothing, otherwise a preflight begins |
| `HubBridgeClient.HubBridgeClient.OnPreflight` | editors/vscode/src/bridge/HubBridgeClient.ts:129-151 | a passed preflight un-stops the client and attaches a process, a failed one changes nothing else |
| `HubRpcClient.ClientsAgree` | editors/jetbrains/src/main/java/dev/erid/hub/HubRpcClient.java:81-171 | on every schedule of requests, answers, timeouts, failed writes, exits and reconnects both editors hand out the same ids and settle every promise alike but for the HTTP status, which JetBrains drops; its extra entries are timed-out requests |
| `HubRpcClient.AlikeIffNoStatus` | editors/vscode/src/bridge/HubBridgeClient.ts:216-229 | the promises are equal, status included, if and only if none was rejected with an HTTP status |
| `HubRpcClient.HttpErrorDiffers` | editors/jetbrains/src/main/java/dev/erid/hub/HubRpcClient.java:141-145 | one request answered with a hub HTTP error is rejected with the status in VS Code and without it in JetBrains |
| `HubRpcClient.CloseAgrees` | editors/jetbrains/src/main/java/dev/erid/hub/HubRpcClient.java:174-184 | closing the one and disposing the other leaves nothing pending and every earlier promise settled alike but for the HTTP status |
| `HubRpcClient.HubRpcClient.Request` | editors/jetbrains/src/main/java/dev/erid/hub/HubRpcClient.java:81-105 | next id, entry and future; a failed write takes the entry out and fails the future |
| `HubRpcClient.HubRpcClient.HandleResponse` | editors/jetbrains/src/main/java/dev/erid/hub/HubRpcClient.java:125-148 | the entry is removed and its future completed, with the error code but not the status, unless it already was |
| `HubRpcClient.HubRpcClient.FailEverything` | editors/jetbrains/src/main/java/dev/erid/hub/HubRpcClient.java:168-171 | every pending future fails unless already complete, then the map is cleared |
| `HubRpcClient.HubRpcClient.OnReaderEnd` | editors/jetbrains/src/main/java/dev/erid/hub/HubRpcClient.java:107-123 | the end of the bridge's output fails everything pending |
| `HubRpcClient.HubRpcClient.Close` | editors/jetbrains/src/main/java/dev/erid/hub/HubRpcClient.java:174-184 | close asks for a shutdown while running, stops the process and fails what is left |
| `Backoff.SameSchedule` | mcp-server/src/bridge.py:138-174 | over every run of connect outcomes the doubling delay equals the dashboard's closed form, seconds against milliseconds |
| `Backoff.DelayAfterMisses` | web/src/useWorkspace.js:102-112 | the delay is the capped power of two of the number of attempts in a row that did not connect |
| `Backoff.DelayInMillis` | web/src/useWorkspace.js:102-112 | the delay before the n-th retry is 1, 2, 4, 8, 16 and from then on 30 seconds |
| `Supervisor.Supervise` | mcp-server/src/bridge.py:138-174 | the supervisor's notifications and sleeps over any attempts are the trace and delays of the model; and up to the first attempt that a shutdown or the deletion disturbs, failed connections included, every loss is announced and slept off, every connection that opened announced, every successful resync sent as a snapshot |
| `Supervisor.Forward` | mcp-server/src/bridge.py:151-156 | frames are forwarded one to one until the deletion event or a frame that ends the connection |
| `Supervisor.ForwardedInOrder` | mcp-server/src/bridge.py:151-156 | the frames of a connection are forwarded in order, none skipped or repeated, up to and including the first that is not a plain event; only a frame that is not JSON is withheld |
| `Supervisor.RunGoesOn` | mcp-server/src/bridge.py:138-174 | every run reaches its first disturbed attempt and no further: notifications and sleeps are counted by the attempts themselves |
| `Supervisor.NothingAfterStop` | mcp-server/src/bridge.py:138-174 | attempts after the first disturbed one leave no notification |
| `Supervisor.TraceAccepted` | mcp-server/src/bridge.py:138-174 | every trace obeys the grammar automaton |
| `Supervisor.AcceptedIsRounds` | mcp-server/src/bridge.py:138-174 | an accepted trace is whole rounds `(status true, event*)? status false, snapshot?`, then the beginning of another, the deletion event only at the very end |
| `Supervisor.RunIsRounds` | mcp-server/src/bridge.py:182-186 | a run cancelled anywhere has written whole rounds and the beginning of another, nothing after the deletion event |
| `Supervisor.OneSleepPerDrop` | mcp-server/src/bridge.py:164-174 | over every run each `status false` is slept off exactly once, and exactly the successful resyncs are announced by a snapshot |
| `Supervisor.WaitsLikeTheDashboard` | mcp-server/src/bridge.py:138-174 | the delays of a run are those the dashboard would wait over the same attempts |
| `WebEffect.SingleConnection` | web/src/useWorkspace.js:70-125 | at every moment at most one live socket or pending retry, and exactly one while mounted and not deleted |
| `WebEffect.NoConnectAfterEnd` | web/src/useWorkspace.js:88-125 | after unmount or `workspace_deleted` no socket is ever created again and no retry is pending |
| `WebEffect.RetriesLikeTheBridge` | web/src/useWorkspace.js:102-112 | the retry delays are the closed form of the attempts' outcomes and equal the bridge's |
| `WebEffect.SocketOpens` | web/src/useWorkspace.js:74-78 | in every state of a run a socket that opens is the current one and resets the count of retries |
| `WebEffect.MessageArrives` | web/src/useWorkspace.js:79-101 | the deletion message closes the socket it came in on and gives the reference up; any other message changes nothing |
| `WebEffect.SocketCloses` | web/src/useWorkspace.js:102-112 | a socket that closes is retried after 1, 2, 4, 8, 16, then 30 seconds by the count of retries, unless the component unmounted or the workspace was deleted |
| `WebEffect.RetryComesDue` | web/src/useWorkspace.js:108-111 | a retry that comes due creates the next socket and makes it the current one |
| `WebEffect.Unmounting` | web/src/useWorkspace.js:117-125 | unmounting drops a pending retry, gives the reference up and closes what is not closed |
| `WebEffect.SocketEffect.Close` | web/src/useWorkspace.js:102-112 | `onclose` arms a retry after the capped power of two unless the teardown was deliberate |
| `WebEffect.SocketEffect.Deliver` | web/src/useWorkspace.js:79-101 | only the deletion message closes the socket and gives the reference up |
| `WebEffect.SocketEffect.ConnectWs` | web/src/useWorkspace.js:70-73 | nothing once cancelled, otherwise a new socket becomes the current one |
| `WebEffect.SocketEffect.OnTimer` | web/src/useWorkspace.js:108-111 | the retry connects again |
| `WebEffect.SocketEffect.Unmount` | web/src/useWorkspace.js:117-125 | cleanup cancels, clears the timer and closes the current socket |
| `Search.EscapedIsEach` | api/app/api/routes/context_misc.py:56-59 | the three successive replaces are one per-character escape |
| `Search.WrongOrderDoubleEscapes` | api/app/api/routes/context_misc.py:57-58 | escaping the backslash last would turn a percent sign into an escaped backslash and a wildcard |
| `Search.PatternReads` | api/app/api/routes/context_misc.py:59-60 | for every query the pattern is well formed and reads as the lowered query between two `%` |
| `Search.SearchIsSubstring` | api/app/api/routes/context_misc.py:56-73 | a text matches if and only if the lowered query occurs in the lowered text |
| `Search.Lowered` | api/app/api/routes/context_misc.py:61-73 | lowering adds 32 to the code of the letters A to Z and keeps every other character |
| `Search.LikeIsCut` | api/app/api/routes/context_misc.py:61-73 | the matcher is LIKE as the standard puts it: a text matches if and only if it can be cut into pieces that fit the tokens one by one |
| `Search.WrittenReads` | api/app/api/routes/context_misc.py:56-66 | every list of tokens, written with escapes, is read back as that list |
| `Search.SearchResults` | api/app/api/routes/context_misc.py:60-79 | a search returns, in order and once each, the first `limit` decisions whose title or reason mentions the query and the first `limit` tasks whose title does |
| `NewestFile.NewestFile` | mcp-server/src/watcher.py:63-88 | the traversal terminates, fails exactly when a listing breaks, and otherwise returns the first of the files with the greatest mtime in the order of the stack, None if and only if there is none |
| `NewestFile.Scan` | mcp-server/src/watcher.py:69-86 | scanning a directory visits its files as listed and puts its subdirectories on top of the stack, the last one first to be taken |
| `NewestFile.BestIsFirstNewest` | mcp-server/src/watcher.py:80-83 | the strict comparison keeps the first of the newest files: newer than all before it, as new as all after it |
| `NewestFile.FilesAreReachable` | mcp-server/src/watcher.py:37-86 | a file with an mtime is considered if and only if it lies under a path none of whose names starts with a dot or is one of the ignored names, written out |
| `NewestFile.BreaksAreReachable` | mcp-server/src/watcher.py:69-87 | the traversal fails if and only if the root's listing breaks or that of a directory under a path of such names |
| `NewestFile.VanishedDirectory` | mcp-server/src/watcher.py:69-87 | a file next to a directory that vanished: there is a file to find and the traversal fails; next to a denied one it does not |
| `Heartbeat.Watch` | mcp-server/src/watcher.py:107-131 | a pass posts exactly when it finds a file and the last accepted post, if any, was of another file or at least 240 seconds ago |
| `Heartbeat.Overdue` | mcp-server/src/watcher.py:115-129 | at the latest pass the last accepted update is less than 240 seconds plus one pass per failure in a row old |
| `Heartbeat.NeverStale` | api/app/api/routes/context.py:634-647 | from its first accepted update on the actor is inside the ten-minute window at every moment, whenever 240 + (m+1)d + latency is at most 600 |
| `ActorNames.AlwaysFreeIffFoldsAgree` | api/app/api/routes/auth.py:153-163 | the name found is free for every set of names in use if and only if SQL and Python fold the base alike; otherwise the base alone in use makes it fail |
| `ActorNames.UniqueActorName` | api/app/api/routes/auth.py:153-163 | for any two case foldings, the base or the least suffix the test lets through, one existing whenever fewer than 9,999 names are in use, and free when the foldings agree on the base |
| `ActorNames.AccentedNameTwice` | api/app/api/routes/auth.py:153-158 | with a database that folds ASCII only, an accented base name already registered is returned again |
| `ActorNames.EachSuffixable` | api/app/api/routes/auth.py:158-162 | every character-wise folding that keeps digits and the hyphen respects numeric suffixes |
| `ActorNames.DecimalInjective` | api/app/api/routes/auth.py:160 | different suffixes are written differently |
| `ActorNames.CandidateReads` | api/app/api/routes/auth.py:157-162 | the first candidate is the base, every later one the base, a hyphen and its number in decimal digits without leading zeros |
| `ActorNames.CandidatesDiffer` | api/app/api/routes/auth.py:157-162 | no two candidates are the same, whatever the folded base |
| `ActorNames.Pigeonhole` | api/app/api/routes/auth.py:153-163 | with fewer than 9,999 names in use one candidate passes the test, whatever the two foldings are |
| `Credentials.SoundPlay` | api/app/api/routes/context.py:93-300 | over every run keys and ids stay unique and no actor holds the workspace key |
| `Credentials.KeyTokenEquivalence` | api/app/core/security.py:83-157 | for every token lifetime, at every later state a non-owner actor's key and unexpired token resolve to the same principal with the permissions it was minted with; once revoked the key resolves to nothing and the token exactly to the new bearer of the name, if any; an expired token resolves to nothing |
| `Credentials.TokenOfReusedName` | api/app/core/security.py:145-150 | on the run that mints a reader, revokes it and gives its name to a writer, the reader's key is dead and its token is the writer |
| `Credentials.RevokedForGood` | api/app/api/routes/context.py:182-269 | a rotated workspace key, a revoked actor's key and the keys of a deleted workspace never authenticate again |
| `Credentials.StaysKeyed` | api/app/api/routes/context.py:150-196 | once a workspace has a key it keeps one until it is deleted |
| `Credentials.BearerDecides` | api/app/core/security.py:117-157 | a presented bearer decides alone unless the key is the workspace key |
| `Credentials.NobodyUnauthenticated` | api/app/core/security.py:177-254 | a keyed workspace or a closed deployment admits exactly the credentials that authenticate, over REST and the socket alike |
| `Credentials.SocketIsStricter` | api/app/core/security.py:228-254 | REST and the socket admit the same principals, except that an open workspace's socket refuses credentials that do not authenticate |
| `Credentials.WrongKeyOnOpenWorkspace` | api/app/core/security.py:177-254 | a wrong key on an open workspace is let in over REST and refused by the socket |
| `Access.AccessRoutes.FindActorByKey` | api/app/core/security.py:83-94 | the actor holding the key, if there is one |
| `Access.AccessRoutes.ResolveCredentials` | api/app/core/security.py:117-157 | workspace key, then bearer, then actor key, with no fall-through from a bearer |
| `Access.AccessRoutes.RequireAction` | api/app/core/security.py:160-225 | an open workspace is created on first touch; who is let in and with which status the others are refused |
| `Access.AccessRoutes.Provision` | api/app/api/routes/context.py:93-113 | the key of a new workspace is disclosed, that of an existing one never |
| `Access.AccessRoutes.SecureWorkspace` | api/app/api/routes/context.py:150-179 | 404, 403 or a key minted once for a keyless workspace |
| `Access.AccessRoutes.RotateKey` | api/app/api/routes/context.py:182-196 | an owner gets a new workspace key that replaces the old one, anybody else the refusing status |
| `Access.AccessRoutes.CreateActor` | api/app/api/routes/context.py:204-244 | the refusing status, 409 for a taken name, otherwise 201 and a key |
| `Access.AccessRoutes.DeleteActor` | api/app/api/routes/context.py:257-269 | the refusing status, 404 when nobody has the id, otherwise 204 and exactly that actor removed |
| `Access.AccessRoutes.LoginForToken` | api/app/api/routes/context.py:272-300 | 404, 403 or the claims of the workspace key or of the key's actor, expiring after the configured lifetime |
| `AccessRules.WorthlessTokens` | api/app/core/tokens.py:52-66 | a token that expired, was signed for another workspace or was not signed by this deployment resolves to nothing, whatever the workspace holds |
| `AccessRules.WhoAuthenticates` | api/app/core/security.py:117-157 | a credential authenticates if and only if it is the workspace key, a live token of this workspace for an owner or an actor it has, or, without a bearer, an actor's key |
| `AccessRules.WhoItIs` | api/app/core/security.py:117-157 | the workspace key and an owner's token may do everything, any other credential is the actor it names with that actor's role and grants |
| `AccessRules.WhatActorsMayDo` | api/app/core/security.py:72-80 | what each role may do: everything for an owner, reading for everybody, the rest by grant |
| `AccessRules.Refusals` | api/app/core/security.py:177-274 | which refusals there are, 404, 401 and 403, each with its exact condition |
| `AccessRules.OpenCalls` | api/app/api/routes/context.py:93-179 | provisioning keys a new workspace and leaves an existing one alone; claiming keys an open keyless one |
| `AccessRules.OwnerCalls` | api/app/api/routes/context.py:116-196 | rotating the key and deleting the workspace take an owner and change just that |
| `AccessRules.AdminCalls` | api/app/api/routes/context.py:204-269 | minting and revoking actors take `admin_keys`; a new actor has the role, the fresh key and the given or the role's grants |
| `AccessRules.FirstTouch` | api/app/core/security.py:160-200 | a call that only reads creates the workspace on first touch, keyless, when open workspaces are allowed, and nothing otherwise |
| `AccessRules.LoginClaims` | api/app/api/routes/context.py:272-300 | a token carries the name and role of whoever the key belongs to and expires after exactly the configured time |

## Left out

- Interleavings between one request's commit and its publish, in the run theorems: there a mutation and its publish are one step; `Limits.SwappedUpdates` says what two swapped publishes do to a list.
- Streams that start after the snapshot, in the convergence theorems: they ask that the stream starts no later; `Limits.TaskHealsIffMentioned`, `Limits.DecisionGapHealsIffMentioned` and `Limits.HandoffGapHealsIffMentioned` say which rows are right after a gap.
- The order of handoffs beyond the twenty-row window: an update to a handoff outside it is appended at the end, so only membership and currency are claimed there.
- The order of presence lists against the server, which sorts by `last_seen` while replicas update in place; `PresenceList.PresenceCurrent` compares the rows.
- Several workspaces in one store, and the implicit re-creation of an open workspace after its deletion: the store is one workspace's tables and `deleted` is final there. `Credentials` does model re-creation.
- Authorization of the task, decision, handoff and presence handlers: `Routes` starts from an authorized call, `Access` models who is let in.
- Commit failures, null `workspace_id` checks, field length limits and request validation.
- Postgres full-text search, the row order of a LIKE scan, and search in a database whose `lower` folds more than ASCII letters.
- Case foldings that depend on what follows a name: `ActorNames` asks that folding a base and appending a hyphen and digits commute.
- Redis, WebSocket and HTTP transport, JSON encoding, JWT signatures and SHA-256.
- `HubBridgeClient.shutdown` sending a request: it stops the client first, so its own request is refused locally; it is modelled by `Dispose`.
- Error message texts: settlements carry code, status and cause.
- Threads of the JetBrains client: request, reader and timeout are modelled as atomic steps.
- Bridge frames of non-event kinds on the client side, and the run of a resync (`load`) inside a stream: the theorems take one installed snapshot per list, each at its own point, and `Limits` says what a late one costs.
- The debounced summary refresh, `setError`, `lastEvent` and the other display state of the dashboard.
- The dashboard's optimistic edits of existing rows (`changeStatus`, `act`, `removeDecision`) and their rollbacks.
- `useWorkspaces.js` credential migration, OAuth exchanges, identities across workspaces, and owner-role tokens beyond their resolution.
- The `active` column of actors, which no handler clears.
- A directory listing that changes while it is read: a tree is a value, a listing may only end early.
- MCP tool wrappers, `client.py`, process spawning, migrations, rendering and static pages.
