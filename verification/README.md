# Asynchronous peer communication, and the services around it

This project models how agents of a team talk to each other while often offline, and
the server-side services that carry state across calls, and proves what every
operation and every run of them keeps.

* **Peer communication** (`server/async_comm`). Each peer has a mailbox of two
  files with a status index, an append-only event log, a vector clock and a
  conversation state per partner. Mailbox and log are classes whose methods are
  proved against functions on values (`Box`, `seq<Event>`); runs of any length are
  then reasoned about on those values. The transport is adversarial: it takes any
  part of a batch, acknowledges any part of what it took, may refuse a message delivered
  in real time or raise after taking it, and may return anything it ever took for a
  peer, whoever sent it, any number of times and in any order. The sessions of the peers
  and the network are modelled apart and joined by a refinement (`PeerRuns`).
* **Event table of the server** (`server/comm/service.py`). Reply trees and the
  settling of simulated answers.
* **Bindings** (`server/binding/binding_service.py`), **API keys**
  (`server/binding/auth_service.py`), **asset graph** (`server/assets/api.py`),
  **migrations** (`server/deploy/migrations.py`), **frontmatter versions**
  (`server/deploy/schema_version.py`), **signal clustering**
  (`server/distill_personal/rem_stage.py`) and the **adoption log**
  (`server/client/adoption.py`), each on its own.

A file is a sequence, a table a map or a sequence, and a transaction one step that
commits or aborts. A UUID is a number never used before; several ids handed out by
one operation are counted up from a `base`. Time, probe results, replies of the
transport and of the server, and the outcome of a migration step are parameters. An
exception of the source is an `Err`, `None` or named outcome.

One file per component; `collections.dfy` holds `Option` and `Filter`, and
`comm_types.dfy` the events and messages.

## Where the code does not do what its comments say

The model follows the code. Each difference has an input that shows it and a theorem
that says exactly when it occurs.

* `sync_protocol.py:14-15` calls reconciliation idempotent. Every pass appends as many
  resolution events as the first one (`Reconciliation.PassesRepeat`,
  `Reconciliation.SecondPassRepeatsItself`), as long as no decision is itself a type of
  answer (`Reconciliation.PassFeedsBackIff`, `Reconciliation.AnswerDecisionFeedsBack`).
* A question to a peer believed reachable is lost when the transport refuses it: the ask
  is logged, the conversation marked active, and nothing queues it. Everything else sent
  is waiting or on the wire (`PeerNetwork.EveryRun`, `PeerRuns.RefusedAskIsLost`).
* `load_thread` is described as returning the whole thread. With a reply cycle through
  the start it does so only if no side branch hangs off that cycle
  (`ReplyThreads.CollectedIsThreadIff`, `ReplyThreads.SideBranchIsMissed`).
* `remove_delivered` does not look at statuses; it may drop a waiting message
  (`Mailboxes.RemoveLosesNothingIff`, `Mailboxes.RemovalLosesWaiting`).
* Re-fetching messages is harmless only if each carries an event id
  (`SyncProtocols.PullAgainIff`, `SyncProtocols.UnnamedIsStoredTwice`), and an event
  survives the wire whole only if its clock travels in the payload
  (`SyncProtocols.WireRoundTrip`, `SyncProtocols.ClockIsLostOnTheWire`).
* An offline question is queued twice (`PeerComms.OfflineAskQueuesTwice`), and a real
  answer to the first of the two asks never settles the simulated one
  (`PeerComms.ShadowAnswerAwaitsSecondAsk`). An answer found in real time is logged a
  second time when its message is pulled (`PeerComms.LiveAnswerIsLoggedTwiceIff`).
* `get_thread` of the server shows the root and its direct replies only
  (`CommServices.ThreadIsWholeTreeIff`, `CommServices.DeepReplyIsMissed`).
* A write-copy back to an earlier version aborts on the unique key until clean-up
  (`Bindings.WriteCopyFailsIff`, `Bindings.RollbackNeedsCleanup`), and one to a version
  already there leaves other current versions standing (`Bindings.WriteCopyLaws`,
  `Bindings.EarlyReturnLeavesBoth`). A binding once invalidated is not bound anew
  (`Bindings.VisibleAfterBindingIff`, `Bindings.InvalidatedStaysInvisible`).
* A migration chain may overshoot its target, and splits at a waypoint only if it stops
  there (`Migrations.ChainSplitsIff`, `Migrations.OvershootDoesNotSplit`).
* Migrating a document twice differs from once when the steps lead up to version 0 and
  no further, since 0 reads as 1 the next time (`SchemaVersions.MigrateTwiceIff`,
  `SchemaVersions.StepIntoZeroBreaksIt`). In two stages it also differs when the steps
  stop short of the target and none of them wrote the version
  (`SchemaVersions.MigrateInTwoIff`, `SchemaVersions.DetourShowsOnce`).
* A flush takes exactly the acknowledged events only if each bears its id and no other
  repeats one (`AdoptionLog.FlushTakesPrefixIff`). An unsent event with an acknowledged
  id is dropped (`AdoptionLog.RepeatedIdIsDropped`), one without an id is sent again by
  every flush (`AdoptionLog.NamelessIsSentAgain`), and one the server rejects inside a
  batch answered without error is dropped (`AdoptionLog.RejectedIsDropped`).
* A role template applied again binds nothing if the routes are read in the same order;
  under a cap another order yields other assets (`Bindings.TemplateTwiceIsOnce`,
  `Bindings.BindingAgainIff`, `Bindings.RouteOrderMattersUnderCap`).
* The asset graph checks the root only, so it shows hidden assets in reach
  (`AssetGraphs.GetAssetGraph`, `AssetGraphs.HiddenNeighbourIsInReach`).

## Model

| member | source | states |
|---|---|---|
| `PeerNetwork.EveryRun` | server/async_comm/sync_protocol.py:196-266 | in every run of any number of peers a sent event, real-time asks included, is waiting at its sender or was taken by the transport if and only if it was not refused in real time; a refused ask reaches no mailbox and no message, though it stays in its sender's log; inbox and log hold an id at most once; an inbox holds only images of events really addressed to that peer |
| `PeerNetwork.FetchingEverythingConverges` | server/async_comm/sync_protocol.py:243-266 | after a peer fetches all that was taken for it, each event another peer sent it is still waiting there, or logged here as sent, or was refused in real time and is unknown here |
| `PeerNetwork.ReconcileLeavesBox` | server/async_comm/sync_protocol.py:491-522 | in a run, simulated answers never enter a mailbox, so the status update of a reconcile pass never changes one |
| `PeerNetwork.NextKeeps` | server/async_comm/mailbox.py:145-270 | every step of composing, logging, real-time delivery, pushing, pulling, reconciling and guarded removal keeps the network invariant |
| `PeerNetwork.DeliverKeeps` | server/async_comm/peer_comm.py:263-274 | an ask delivered in real time, taken or refused, keeps the invariant; refused, it is recorded as sent and refused |
| `PeerNetwork.UnderWayIff` | server/async_comm/peer_comm.py:263-274 | what is refused in real time reaches nobody; what is not is waiting or on the wire |
| `PeerRuns.StepIsNetworkRun` | server/async_comm/peer_comm.py:123-338 | every ask, pause, timeout and resume of a session is a list of network actions |
| `PeerRuns.SyncIsNetworkRun` | server/async_comm/sync_protocol.py:147-190 | what a synchronisation does to mailbox and log, failing stages included, is a run of push, pull and reconcile in the network |
| `PeerRuns.TeamLaws` | server/async_comm/peer_comm.py:123-338 | in every run of peers that ask, time out and resume while they push, pull and reconcile, the laws of the network and of the conversation entries hold together |
| `PeerRuns.RefusedAskIsLost` | server/async_comm/peer_comm.py:273-305 | a refused ask: conversation active, pending answer logged, nothing queued or on the wire |
| `SyncProtocols.SyncProtocol.PushOutbox` | server/async_comm/sync_protocol.py:196-241 | offers exactly the waiting messages for the peer, marks the acknowledged ones delivered, and counts them; a failed batch marks nothing and counts 0, a successful one without ids empties the peer's queue, one with ids takes exactly the named |
| `SyncProtocols.PushLaws` | server/async_comm/sync_protocol.py:196-241 | the count is the drop in that peer's waiting messages; what stays waiting is what was not acknowledged; other peers' messages, the boxes and other statuses stay |
| `SyncProtocols.PushByReply` | server/async_comm/sync_protocol.py:219-227 | what goes on waiting after a push, said in the success flag and the ids of the transport's answer |
| `SyncProtocols.SyncProtocol.PullInbox` | server/async_comm/sync_protocol.py:243-266 | stores the fetched messages in mailbox and log, both dropping known ids, and counts all of them, known or not |
| `SyncProtocols.PullBoxLaws` | server/async_comm/mailbox.py:157-167 | known ids after a pull are the old ones and the arrivals; new ones are delivered and in the inbox; nothing old changes |
| `SyncProtocols.PullLogLaws` | server/async_comm/conversation_log.py:128-145 | the old log is a prefix, ids stay unique, and the ids are the old ones and the arrivals |
| `SyncProtocols.PullAgainIff` | server/async_comm/sync_protocol.py:243-266 | fetching the same messages again changes nothing if and only if each carries an event id |
| `SyncProtocols.UnnamedIsStoredTwice` | server/async_comm/sync_protocol.py:473-474 | a message without one is stored anew each time |
| `SyncProtocols.WireRoundTrip` | server/async_comm/sync_protocol.py:418-489 | which fields survive conversion to a message and back, and exactly when the whole event does |
| `SyncProtocols.ClockIsLostOnTheWire` | server/async_comm/sync_protocol.py:434-471 | an ask whose clock is not in the payload arrives without it |
| `PeerNetwork.LiveAskKeepsClock` | server/async_comm/peer_comm.py:263-272 | an ask delivered in real time arrives with its clock |
| `SyncProtocols.SyncProtocol.ReconcileSimulatedAnswers` | server/async_comm/sync_protocol.py:268-358 | appends the resolution of every decided answer, settles the mailbox status, and returns the three counts |
| `SyncProtocols.SyncProtocol.RecordRulings` | server/async_comm/sync_protocol.py:303-358 | the loop over simulated answers refines the recursive definition of a pass |
| `SyncProtocols.SyncProtocol.SyncWithPeer` | server/async_comm/sync_protocol.py:147-190 | push, pull and reconcile compose; a failing stage is reported and does not stop the next |
| `SyncProtocols.PushedIsDrop` | server/async_comm/sync_protocol.py:164-172 | the pushed count is the number of messages that stopped waiting, and which they are, also when the transport raises |
| `SyncProtocols.FetchedIsStored` | server/async_comm/sync_protocol.py:174-179 | every fetched message with an event id is known to log and mailbox afterwards, and the count is that of the messages |
| `SyncProtocols.FailuresIff` | server/async_comm/sync_protocol.py:164-188 | which stages are reported as failed |
| `SyncProtocols.SyncKeepsInvariants` | server/async_comm/sync_protocol.py:147-190 | a synchronisation keeps ids unique, only advances statuses, and only appends to inbox and log |
| `Reconciliation.OnePerDecided` | server/async_comm/sync_protocol.py:268-358 | a pass logs exactly one event for each decided answer, in order, and no other |
| `Reconciliation.ResolutionsShowGrounds` | server/async_comm/sync_protocol.py:318-347 | each logged resolution carries the simulated answer, the real one it was compared with, and the resolver's decision and note on these two |
| `Reconciliation.CounterpartIsEarliest` | server/async_comm/sync_protocol.py:289-318 | a simulated answer is judged against the earliest real answer to the same ask |
| `Reconciliation.CounterpartChangesIff` | server/async_comm/conversation_log.py:163-178 | as the log grows that counterpart changes if and only if a strictly earlier real answer to the ask arrives |
| `Reconciliation.CounterpartComesWith` | server/async_comm/sync_protocol.py:310-318 | while no real answer to the ask is logged, a counterpart turns up exactly with one that follows |
| `Reconciliation.TallyAddsUpIff` | server/async_comm/sync_protocol.py:350-358 | the three counts add up to the logged events if and only if all decisions are known ones |
| `SyncProtocols.TallyCounts` | server/async_comm/sync_protocol.py:350-356 | each of the three counts is the number of events whose decision leads to its final state |
| `Reconciliation.PassFeedsBackIff` | server/async_comm/sync_protocol.py:364-412 | the next pass sees the same answers, whatever the resolver, if and only if no decision of this pass is itself a type of answer |
| `Reconciliation.ProperIsQuiet` | server/async_comm/sync_protocol.py:385-393 | a resolver that names unknown decisions, but no type of answer, qualifies on every log |
| `Reconciliation.AnswerDecisionFeedsBack` | server/async_comm/sync_protocol.py:385-393 | a resolver that does not qualify, and a log on which it feeds back |
| `Reconciliation.PassesRepeat` | server/async_comm/sync_protocol.py:268-358 | n passes append n times what the first one appends: not idempotent |
| `Reconciliation.StageDecidesAll` | server/async_comm/sync_protocol.py:268-358 | the stage logs one resolution per decided answer, with its grounds, and settles open messages by the first verdict; without a resolver it does nothing |
| `Reconciliation.SecondPassRepeatsItself` | server/async_comm/sync_protocol.py:307-347 | a log of two answers on which two passes log the same confirmation twice |
| `Reconciliation.FirstVerdictStands` | server/async_comm/sync_protocol.py:491-522 | after any resolutions an open message has the status of the first one that settles it; a settled one keeps its own |
| `SyncProtocols.SettleConcat` | server/async_comm/sync_protocol.py:491-522 | settling in two goes is settling in one, so this holds across passes |
| `Mailboxes.Mailbox.AppendToOutbox` | server/async_comm/mailbox.py:145-155 | appends an event with a new id as pending delivery; a known id changes nothing |
| `Mailboxes.Mailbox.AppendToInbox` | server/async_comm/mailbox.py:157-167 | appends an event with a new id as delivered; a known id changes nothing |
| `Mailboxes.Mailbox.UpdateStatus` | server/async_comm/mailbox.py:189-212 | moves a status if and only if the table allows it; the two refusals are told apart |
| `Mailboxes.Mailbox.LoadEvents` | server/async_comm/mailbox.py:282-304 | the first `limit` events of a file that have the wanted status, in file order |
| `Mailboxes.Mailbox.PendingDeliveryCount` | server/async_comm/mailbox.py:218-235 | counts the outbox events still waiting |
| `Mailboxes.Mailbox.RemoveDeliveredMessages` | server/async_comm/mailbox.py:241-270 | removes the named events from the outbox, keeps the rest in order and every status, and counts the removed |
| `Mailboxes.RunLaws` | server/async_comm/mailbox.py:44-270 | in every run ids stay unique and disjoint across the boxes, statuses move along the table only, the inbox is append-only, and a removed id never returns |
| `Mailboxes.RemoveLosesNothingIff` | server/async_comm/mailbox.py:241-270 | removal keeps all waiting messages if and only if no requested id is pending |
| `Mailboxes.RemovalLosesWaiting` | server/async_comm/mailbox.py:260-262 | a message just queued can be removed, and then cannot be queued again |
| `ConversationLogs.ConversationLog.AppendEvent` | server/async_comm/conversation_log.py:128-145 | appends an event unless its id is logged |
| `ConversationLogs.ConversationLog.LoadPeer` | server/async_comm/conversation_log.py:163-178 | the events of one peer, stably sorted by time |
| `ConversationLogs.ConversationLog.LoadThread` | server/async_comm/conversation_log.py:197-240 | terminates on every log; returns each collected event once, sorted by time |
| `ConversationLogs.ConversationLog.CollectUp` | server/async_comm/conversation_log.py:215-226 | the upward loop gathers exactly the reply line, also when it runs into a cycle |
| `ConversationLogs.ConversationLog.CollectDown` | server/async_comm/conversation_log.py:228-235 | the worklist gathers exactly what lies below the start off the line |
| `ReplyThreads.CollectedIsThreadIff` | server/async_comm/conversation_log.py:197-240 | the walk collects the event, all its ancestors and all its descendants if and only if no side branch hangs off a reply cycle through it; on an acyclic log always |
| `ReplyThreads.SideBranchIsMissed` | server/async_comm/conversation_log.py:217-235 | three events, two answering each other, of which the third is missed |
| `TimeOrder.SortIsSort` | server/async_comm/conversation_log.py:237-240 | sorting by timestamp orders and permutes |
| `TimeOrder.FilterCommutesWithSort` | server/async_comm/sync_protocol.py:289-300 | choosing kinds after sorting a peer's events is the same as before |
| `ConversationLogs.ConversationLog.SetConversationState` | server/async_comm/conversation_log.py:332-368 | writes state, last event, reason and stamp of one peer; a repeat for the same event changes nothing, not even reason and stamp |
| `ConversationLogs.ConversationLog.ResumeConversation` | server/async_comm/conversation_log.py:426-471 | replays the thread of a paused or timed-out conversation and marks it resumed, with the fallbacks exactly as coded |
| `PeerComms.PeerComm.AskPeer` | server/async_comm/peer_comm.py:123-174 | logs the ask first, then takes the online, the failing-transport or the offline way, with the whole new session state, the probe cache and the event returned |
| `PeerComms.AnswerIsFirstReply` | server/async_comm/peer_comm.py:276-281 | the answer is the text of the first fetched message that replies to this very ask, and there is none if and only if no message does |
| `PeerComms.PeerComm.RealtimeAsk` | server/async_comm/peer_comm.py:253-307 | logs the first reply to the ask as its answer, or a pending one if none replies to it, and makes the conversation active |
| `PeerComms.PeerComm.OfflineAsk` | server/async_comm/peer_comm.py:309-338 | queues the ask, pauses the conversation, hands over to the shadow and returns its answer |
| `PeerComms.OfflineAskShows` | server/async_comm/peer_comm.py:309-338 | the events an offline ask leaves in log and outbox, field by field: the ask, the shadow's ask in reply to it, and the degraded answer resting on the snapshot |
| `PeerComms.OnlineAskShows` | server/async_comm/peer_comm.py:253-307 | the two events an ask answered in real time leaves in the log, and nothing in the mailbox |
| `PeerComms.PeerComm.IsPeerReachable` | server/async_comm/peer_comm.py:589-610 | a probe is reused until it is one interval old, and renewed then |
| `PeerComms.AnswersAreRecent` | server/async_comm/peer_comm.py:589-610 | over any series of looks, every answer is that of a probe of the same peer less than an interval old, or made now |
| `PeerComms.ProbesAreApart` | server/async_comm/peer_comm.py:589-610 | on a clock that does not go back, two probes of a peer lie at least an interval apart |
| `PeerComms.RunKeepsEntries` | server/client/daemon.py:525-573 | in every run of asks, syncs, timeouts and resumes each conversation entry names a logged event of its peer |
| `PeerComms.ResumeReturnsThread` | server/async_comm/conversation_log.py:426-471 | in such runs resuming returns the non-empty thread around the last event and never a fallback |
| `PeerComms.SecondResumeReturnsNothing` | server/async_comm/conversation_log.py:426-471 | a second resume before the next ask to that peer returns nothing; a timeout check does not help |
| `PeerComms.ResumesAfterPauseOrTimeout` | server/async_comm/conversation_log.py:426-471 | a conversation that found the peer away, or was timed out, is resumed; one just answered in real time is not |
| `PeerComms.AsksIncrease` | server/async_comm/peer_comm.py:616-639 | all asks one peer stamps form a strictly increasing chain of clocks |
| `PeerComms.OfflineAskQueuesTwice` | server/async_comm/shadow_comm.py:93-160 | an offline ask with a shadow puts two asks with the same text into the outbox, the second replying to the first |
| `PeerComms.ShadowAnswerAwaitsSecondAsk` | server/async_comm/shadow_comm.py:124-160 | whatever is logged later, the simulated answer is reconciled only against a real answer to the second ask; one to the first never decides it |
| `PeerComms.LiveAnswerIsLoggedTwiceIff` | server/async_comm/peer_comm.py:276-297 | pulling the message of an answer found in real time gives the ask a second real answer, unless its id is logged |
| `VectorClocks.VectorClock.Compare` | server/async_comm/types.py:43-68 | the flag loop decides the order in which missing entries count as zero |
| `VectorClocks.RelationIsPartialOrder` | server/async_comm/types.py:43-68 | the four answers decide a partial order: antisymmetric up to zero entries, transitive, and mirrored when the sides are swapped |
| `VectorClocks.MergeIsLeastUpperBound` | server/async_comm/types.py:31-41 | merge is the least upper bound of that order |
| `VectorClocks.MergeIsAssociative` | server/async_comm/types.py:31-41 | merging is associative |
| `VectorClocks.MergeCommutesAndIsIdempotent` | server/async_comm/types.py:31-41 | merging commutes and is idempotent |
| `VectorClocks.IncrementIsStrictlyAfter` | server/async_comm/types.py:27-29 | an increment moves strictly after |
| `VectorClocks.MissingCountsAsZero` | server/async_comm/types.py:27-68 | a counter never moved counts as zero, and its first increment is one |
| `ConflictResolvers.DistanceIsMetric` | server/async_comm/conflict_resolver.py:36-56 | one minus the similarity is a metric on character sets, empty texts included, with values in [0, 1] |
| `ConflictResolvers.DistanceTriangle` | server/async_comm/conflict_resolver.py:36-56 | the triangle inequality of Jaccard distance |
| `ConflictResolvers.ResolveIff` | server/async_comm/conflict_resolver.py:105-180 | when each of the three verdicts is given, in numbers of shared and of all characters |
| `ConflictResolvers.DefaultVerdicts` | server/async_comm/constants.py:33-34 | eight tenths in common confirm, three tenths or less call a human |
| `ConflictResolvers.ConfirmedAgainstThirdNeverEscalates` | server/async_comm/conflict_resolver.py:174-180 | two answers confirmed against a common third are never sent to a human against each other, for every pair of thresholds with a narrow enough confirmation band |
| `ConflictResolvers.DefaultsNeverEscalate` | server/async_comm/constants.py:33-34 | the default thresholds 0.3 and 0.8 are such a pair |
| `ConflictResolvers.ResolveIsSymmetric` | server/async_comm/conflict_resolver.py:105-128 | the verdict does not depend on which answer is called simulated |
| `CommServices.NewEventJoinsThread` | server/comm/service.py:71-177 | a new ask or answer joins the thread of the event it replies to, if there is one, and otherwise opens its own |
| `CommServices.CommService.Answer` | server/comm/service.py:116-177 | adds the answer and moves the answered event's status; an unknown ask is refused |
| `CommServices.AnswerGoesBack` | server/comm/service.py:116-177 | the answer goes from the one asked to the one who asked; a real one is confirmed and settles an open question, a simulated one waits and marks a waiting question delivered; nothing else changes |
| `CommServices.CommService.UpdateReconciliation` | server/comm/service.py:179-215 | settles a simulated answer once, with the order of refusals as coded |
| `CommServices.SettlingIff` | server/comm/service.py:179-215 | exactly an open simulated answer is settled, by exactly one of three verdicts, and its text is revised only with that verdict |
| `CommServices.CommService.GetThread` | server/comm/service.py:266-296 | climbs to the root and returns it with its direct replies in creation order |
| `CommServices.RunLaws` | server/comm/service.py:71-215 | in every run reply links stay acyclic, statuses move along the table, payloads change only when a simulated answer is revised, and thread roots stay |
| `CommServices.RootNeverMoves` | server/comm/service.py:278-284 | the root of an event is fixed when it is recorded |
| `CommServices.SameRootIffChainsMeet` | server/comm/service.py:278-284 | two events have one root if and only if their reply chains meet |
| `CommServices.ThreadIsWholeTreeIff` | server/comm/service.py:285-293 | a thread query misses part of the reply tree if and only if some event sits exactly two replies below the root |
| `CommServices.DeepReplyIsMissed` | server/comm/service.py:285-293 | a run of three operations whose last event the query misses |
| `AssetGraphs.GetAssetGraph` | server/assets/api.py:723-799 | nodes are exactly the existing assets within `depth` hops, edges exactly the links with an end within one hop less, nothing twice, for any depth; an asset the member may not view is shown if and only if one is in reach |
| `AssetGraphs.HiddenNeighbourIsInReach` | server/assets/api.py:742-743 | one link to a hidden asset puts it in reach |
| `AssetGraphs.ExpandLayer` | server/assets/api.py:760-782 | one layer adds exactly its neighbours in both directions and the links at it |
| `AssetGraphs.BallIsWithinHops` | server/assets/api.py:747-797 | the layers are the undirected walks of bounded length |
| `AssetGraphs.EdgeEndsAreVisited` | server/assets/api.py:747-797 | both ends of each listed edge were visited |
| `AssetGraphs.DeeperKeeps` | server/assets/api.py:723-799 | a deeper query returns all that a shallower one does |
| `Migrations.MigrationRegistry.Register` | server/deploy/migrations.py:121-128 | a second migration from the same version is refused and changes nothing |
| `Migrations.MigrationRegistry.BuildChain` | server/deploy/migrations.py:140-156 | the loop terminates for every registry and refines the recursive chain |
| `Migrations.ChainIffWalk` | server/deploy/migrations.py:140-156 | a list is the chain if and only if it is a contiguous walk whose last step alone reaches or passes the target |
| `Migrations.StuckWalk` | server/deploy/migrations.py:150-154 | the chain fails only at an unregistered version before the target that a walk reaches, and that version is reported |
| `Migrations.StopsIncrease` | server/deploy/migrations.py:70-82 | versions strictly increase along a chain |
| `Migrations.ChainSplitsIff` | server/deploy/migrations.py:140-156 | chain(a, c) = chain(a, b) + chain(b, c) if and only if the chain stops at b |
| `Migrations.OvershootDoesNotSplit` | server/deploy/migrations.py:148-156 | a registry whose chain to 1.1.0 runs on to 1.2.0, so that the chain to 1.2.0 does not split there |
| `Migrations.Migrate` | server/deploy/migrations.py:213-293 | skips, applies or stops at the first failure; a real call runs exactly the steps it reports as applied, each once and in order, a dry one runs nothing; report, recorded version and state |
| `Migrations.ApplyChain` | server/deploy/migrations.py:250-293 | the loop: the skipped steps are a prefix and the applied ones the next span, in order |
| `Migrations.ApplyAllIffLeads` | server/deploy/migrations.py:276-286 | one state comes from another by a part of the chain if and only if there is a series of states between the steps, each made by its step |
| `Migrations.RepeatedCallsResume` | server/deploy/migrations.py:213-293 | however often it is interrupted, each step succeeds once and in order, and running the steps once, uninterrupted, leads to the same state |
| `Migrations.FinishedEqualsUninterrupted` | server/deploy/migrations.py:213-293 | once a call reports no failure, running the whole chain once leads to the state reached, and further calls apply nothing |
| `Migrations.DryRunForetells` | server/deploy/migrations.py:265-274 | a dry run lists exactly what a real run without failures applies |
| `SchemaVersions.RegisterHelpsStuckIff` | server/deploy/schema_version.py:60-96 | registering a step takes further exactly the documents that got stuck at its version, and changes no other result |
| `SchemaVersions.SchemaMigrator.MigrateDoc` | server/deploy/schema_version.py:163-212 | the loop refines the recursive migration; every listed field is new, and every new field but the version is listed |
| `SchemaVersions.MigrateKeeps` | server/deploy/schema_version.py:163-212 | every field but the version keeps its value, and the version read never falls |
| `SchemaVersions.MigrateTwiceIff` | server/deploy/schema_version.py:163-212 | migrating is idempotent if and only if the document is not in the zero trap: the steps lead from a negative version to 0 and write it, none leads on, and from 1 the steps arrive or one of them changes something |
| `SchemaVersions.StepIntoZeroBreaksIt` | server/deploy/schema_version.py:177-180 | one registered step from -1 springs the trap at the shipped target 1 |
| `SchemaVersions.MigrateInTwoIff` | server/deploy/schema_version.py:190-212 | migrating to a and then to b is migrating to b if and only if neither the trap nor the detour case applies, both read off the registry and the document; outside the trap all other fields agree always |
| `SchemaVersions.DetourShowsOnce` | server/deploy/schema_version.py:66-71 | a step that, like the one in the comment there, does not write the version, and a document whose detour is recorded |
| `SchemaVersions.BuiltInReachesThree` | server/deploy/schema_version.py:104-131 | with the shipped steps every version up to 3 is reached and the detour never shows |
| `SchemaVersions.BuiltInAdds` | server/deploy/schema_version.py:104-131 | the shipped steps add module path and category up to version 2 and the distillation data up to 3, and nothing else |
| `Bindings.BindingService.CreateBinding` | server/binding/binding_service.py:110-157 | inserts, or retouches the row that holds the key |
| `Bindings.CreatedOrRetouched` | server/binding/binding_service.py:127-157 | the row that holds the key has the given type and priority, and the role if one is given; a new one is visible, an old one keeps its state; other rows stay |
| `Bindings.BindingService.UpdatePriority` | server/binding/binding_service.py:186-196 | changes the priority of one row and nothing else |
| `Bindings.CascadeLaws` | server/binding/binding_service.py:419-437 | after a cascade no row of the asset is enabled and a second one changes nothing; other rows and all supersession marks stay |
| `Bindings.BindingService.CleanupSuperseded` | server/binding/binding_service.py:518-536 | removes exactly the rows superseded before the cutoff, and counts them |
| `Bindings.CleanupTakesIff` | server/binding/binding_service.py:518-536 | a row goes if and only if it was superseded strictly before the cutoff |
| `Bindings.BindingService.WriteCopyOnVersionChange` | server/binding/binding_service.py:458-516 | returns a visible row of the new version, or aborts and leaves the table alone |
| `Bindings.WriteCopyFailsIff` | server/binding/binding_service.py:480-516 | a write-copy aborts if and only if a disabled or superseded row holds that version |
| `Bindings.WriteCopyLaws` | server/binding/binding_service.py:458-516 | after success the version is visible, on the given terms if it is new, and the only current one unless it was there beside others; the replaced rows are stamped and disabled, all others untouched |
| `Bindings.EarlyReturnLeavesBoth` | server/binding/binding_service.py:492-494 | two versions bound by hand both stay current after a write-copy to one of them |
| `Bindings.WriteCopyKeepsVisible` | server/binding/binding_service.py:458-516 | no write-copy leaves a pair without the visible binding it had |
| `Bindings.RollbackNeedsCleanup` | server/binding/binding_service.py:458-536 | upgrading and going straight back aborts, and succeeds after clean-up |
| `Bindings.CleanupIsInvisible` | server/binding/binding_service.py:159-178 | clean-up changes no default read |
| `Bindings.RunLaws` | server/binding/binding_service.py:110-536 | in every run the key stays unique, superseded rows are disabled, disabled rows are superseded or invalidated, and no row is enabled again |
| `Bindings.WriteCopyRunsKeepOneCurrent` | server/binding/binding_service.py:458-516 | runs that create by write-copy only keep one current row per agent and asset |
| `Bindings.BindingService.AutoBind` | server/binding/binding_service.py:261-328 | the loop over routes binds as the candidate fold does, with the four counters, or aborts and binds nothing; it looks at the auto-bind routes of that task type and category only, and each new row is on the terms of one of them |
| `Bindings.BindingService.ApplyRoleTemplate` | server/binding/binding_service.py:334-413 | entry by entry, category by category, at most `max` assets of each |
| `Bindings.BindAllLaws` | server/binding/binding_service.py:285-328 | every candidate is counted once; new rows are visible at the asset's current version; and the exact condition for an abort |
| `Bindings.AutoBindServesAll` | server/binding/binding_service.py:281-328 | no route of the task type and category is left out: matched = bound + inactive + existing, and each active asset is bound at its version afterwards |
| `Bindings.BindingTwiceIsOnce` | server/binding/binding_service.py:261-328 | auto-binding again with nothing changed binds nothing |
| `Bindings.TemplateTwiceIsOnce` | server/binding/binding_service.py:334-413 | applying a role template again binds nothing, in whatever order the two applications visit the categories, the routes being in one fixed order |
| `Bindings.BindingAgainIff` | server/binding/binding_service.py:261-413 | binding any second list of candidates binds nothing if and only if it proposes no active asset beyond those proposed first or bound before |
| `Bindings.RouteOrderMattersUnderCap` | server/binding/binding_service.py:372-381 | two routes under a cap of one, read in the other order the second time, bind a second asset |
| `Bindings.VisibleAfterBindingIff` | server/binding/binding_service.py:298-309 | an active candidate is visible afterwards if and only if no disabled row holds its version |
| `Bindings.InvalidatedStaysInvisible` | server/binding/binding_service.py:298-309 | a binding disabled by a cascade counts as existing and stays invisible |
| `Bindings.CategoryCap` | server/binding/binding_service.py:376-409 | whatever was bound before, one category adds at most `max` bindings, each for an asset routed to it |
| `Bindings.BlockIsFirst` | server/binding/binding_service.py:372-381 | what is taken from a category are its first auto-bind routes, as many as the cap allows |
| `Bindings.TemplateServesAll` | server/binding/binding_service.py:353-409 | a template leaves out no category it covers |
| `ApiKeys.AgentApiKeyService.RotateKey` | server/binding/auth_service.py:104-143 | marks and stamps the old key and adds a new active one of the same owner, or refuses unknown and inactive keys |
| `ApiKeys.AgentApiKeyService.RevokeKey` | server/binding/auth_service.py:145-161 | revokes and stamps an active key and nothing else |
| `ApiKeys.AgentApiKeyService.LookupAgent` | server/binding/auth_service.py:163-183 | succeeds exactly for active keys and stamps their use |
| `ApiKeys.IssueOpens` | server/binding/auth_service.py:65-102 | a new key opens the agent and member it was issued for, and all other keys what they did |
| `ApiKeys.RotateHandsOver` | server/binding/auth_service.py:104-143 | after a rotation the new key opens what the old one did, the old one nothing, all others what they did |
| `ApiKeys.RevokeCloses` | server/binding/auth_service.py:145-161 | a revoked key opens nothing, all others what they did |
| `ApiKeys.RunLaws` | server/binding/auth_service.py:65-161 | in every run the links stay well formed and a key changes only from active to rotated or revoked |
| `ApiKeys.ChainsAreLinear` | server/binding/auth_service.py:104-143 | of two keys with one origin, one descends from the other |
| `ApiKeys.OneActivePerChain` | server/binding/auth_service.py:104-143 | keys of a chain share agent and member, all but the last are rotated, at most the last is active |
| `ApiKeys.IssuedWhenRotated` | server/binding/auth_service.py:104-143 | after any run from the empty table a successor's issue time is the stamp its predecessor still bears |
| `ApiKeys.RotatedIffSucceeded` | server/binding/auth_service.py:104-143 | a key is rotated if and only if its chain goes on |
| `SignalClusters.ClusterSignals` | server/distill_personal/rem_stage.py:187-218 | each signal in exactly one cluster, the first it fits; clusters share a type and are connected by keyword overlap |
| `SignalClusters.ClusteringIsUnique` | server/distill_personal/rem_stage.py:187-218 | these laws leave one clustering only |
| `SignalClusters.RunStage` | server/distill_personal/rem_stage.py:139-259 | intents and discards add up to the clusters, kept pattern counts and discarded sizes to the signals; when one-time clusters are discarded, the intents' sources are exactly the clusters whose texts are not one-time, in order, and otherwise all; each intent's type, size, sessions and best confidence are those of its sources |
| `SignalClusters.SizesCoverInput` | server/distill_personal/rem_stage.py:187-218 | cluster sizes add up to the number of signals |
| `AdoptionLog.AdoptionReporter.LoadPendingEvents` | server/client/adoption.py:240-258 | the first loadable events of the log, up to the bound, never fewer than one |
| `AdoptionLog.LoadedCount` | server/client/adoption.py:240-258 | how many events one load returns, for every limit and cache size |
| `AdoptionLog.AdoptionReporter.Flush` | server/client/adoption.py:274-335 | the log loses what the successful batches acknowledged; totals, error and retained count |
| `AdoptionLog.AdoptionReporter.PostBatches` | server/client/adoption.py:302-322 | stops at the first failing batch, and collects exactly the events of the batches before it |
| `AdoptionLog.AcknowledgedIff` | server/client/adoption.py:309-322 | an event counts as acknowledged if and only if its own batch and all before it were answered without error |
| `AdoptionLog.FlushTakesPrefixIff` | server/client/adoption.py:274-335 | the loadable events left are the old ones without the acknowledged prefix if and only if each acknowledged event bears its id and none of the rest repeats one |
| `AdoptionLog.NamelessIsSentAgain` | server/client/adoption.py:75-77 | an event without an id is acknowledged and stays in the log |
| `AdoptionLog.RejectedIsDropped` | server/client/adoption.py:317-322 | an event rejected in a batch answered without error leaves the log |
| `AdoptionLog.RepeatedIdIsDropped` | server/client/adoption.py:319-327 | an event recorded twice under one id, of which the unsent copy is dropped |
| `AdoptionLog.ForeignStayIff` | server/client/adoption.py:387-411 | well-formed events of unknown type stay, with the exact condition |
| `AdoptionLog.RunLaws` | server/client/adoption.py:149-411 | in every run what was recorded is what was in batches answered without error, accepted or rejected there, followed by what is still in the log; nothing is lost before, reordered or sent again; lines of unknown type and without an id never leave |

## Left out

- Files, JSON and databases: unparsable lines are modelled in the adoption log only; temporary files and renames, crashes between the mailbox append and the state save, and concurrent writers are not.
- Transports, `AssetIndex`, git, language models and the HTTP client are not part of this model; their replies are parameters constrained only where stated.
- PeerNetwork.EveryRun: removal is a step only for ids that are not pending, since the code does not check (see `Mailboxes.RemoveLosesNothingIff`); outbox events are asks and the like, as the code never queues a simulated answer.
- CommServices.CommService.GetThread: needs unique ids and replies to earlier rows, which `CommServices.RunLaws` shows for every table the service can build.
- ConversationLogs.ConversationLog.LoadThread: needs unique ids in the log, which every append keeps; timestamps are numbers, so the textual order of ISO strings is not modelled.
- ConflictResolvers.DistanceIsMetric: over exact rationals, so floating-point rounding at the thresholds is not modelled; lower-casing is an arbitrary function on texts; the note text of `resolve` is left out.
- The note a resolver writes is one token; a raising resolver is modelled as skipping that answer, as the code does.
- Tag routing, probes by tag, `share_asset` and the fallback to the shadow in `peer_comm.py`: single-branch wrappers around the modelled asks.
- Bindings.TemplateTwiceIsOnce: takes the routes in one fixed order, while the queries give none; `Bindings.BindingAgainIff` says what another order changes.
- Binding types, priorities and event kinds are typed, so the refusal of unknown strings is not modelled; rows are listed as maps, without their `created_at` order; `register_routing` and `find_orphan_bindings` are left out.
- Migrations.Migrate: versions carry their three numbers; parsing of version texts, downgrade functions and the built-in sample step are left out.
- SchemaVersions.SchemaMigrator.MigrateDoc: a step is a set of defaults for fields other than the version, with or without writing the version; arbitrary step functions, non-numeric version values and the wording of the trace are left out, and the order of the fields one step adds is any.
- ApiKeys.AgentApiKeyService.LookupAgent: key generation and SHA-256 are an abstract hash under which every issued key is new; `lookup_member_id` is the same with another field.
- SignalClusters.RunStage: keyword extraction is an arbitrary function on texts; confidences are numbers; the wording of an intent is one token.
- Access rules: what a member may view is a parameter.
- Heartbeats, peer lists, routers, command line, frontend, deployment files and BM25 scoring.
