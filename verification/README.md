# Verification of MeshPi's stateful cores

MeshPi is a daemon and a set of clients for Meshtastic radios. Its hard rules live in small stateful
pieces around SQLite, the radio library and sockets. This project models those pieces in Dafny and
proves what they promise, for all inputs, all runs and all interleavings of their lock regions.

Each module is one component. Where the source updates an object, a table or a dictionary in place, a
class does the same, and its methods are proved equal to a function on values; the lemmas are about
that function. Where the source is concurrent, every region under a lock is one step of a machine, and
the lemmas hold in every state of every run. A database table is a sequence of rows with the unique
indexes stated; one `with self._connect()` block is one atomic step.

| file | component |
|---|---|
| `WebDispatch.dfy` | idempotent browser writes: owner, waiters, retention, eviction |
| `SendProtocol.dfy`, `MessageText.dfy`, `AckStatus.dfy` | sending a text, its deferred echo, acknowledgements as a join |
| `MessageStore.dfy` | the message and observation tables under their unique indexes |
| `ChannelRebind.dfy` | moving messages from a provisional channel key to the real one |
| `ScopeMigration.dfy` | the version-4 migration as a partition |
| `NodeRemoval.dfy` | the contact-removal worker and the life of a node action |
| `NodeRegistry.dfy` | merging node reports, with tombstones |
| `WebAuth.dfy`, `LoginFile.dfy` | one login file shared by several processes, and its size |
| `History.dfy`, `HistoryPreviews.dfy` | retention: preview, cleanup, maintenance, preview store |
| `Conversations.dfy` | merging the direct-message routes of a peer |
| `ChannelIds.dfy`, `NodeIds.dfy`, `Utf8.dfy` | channel keys and conversation IDs, printed and parsed |
| `LineReader.dfy` | lines from a socket, whatever its chunks |
| `EventHub.dfy` | bounded event queues under interleaving |
| `Masking.dfy`, `RadioSlots.dfy` | coordinate masking, frequency slots |
| `Option.dfy`, `Arithmetic.dfy` | an option type, division facts |

Some stronger statements are false of the code. The project proves what holds instead:

- Switching to another origin and back restores the identity exactly when fewer than sixteen origins are
  stored and the new code fits into the file of at most 128 KiB in the place of the old one
  (`WebAuth.SwitchingBackRestores`). Otherwise it is refused, although it would enlarge neither the table
  of origins nor the passkeys (reached by `WebAuth.SwitchingBackRefused` and
  `WebAuth.SwitchingBackOverflows`).
- The echo of a send is stored as another message exactly when no stored row has its identity. After a
  send that stayed uncertain the request's own row does not have it, so the echo is stored unless a
  message of another origin has it (`SendProtocol.EchoIsStoredIff`, reached by
  `SendProtocol.UncertainSendIsStoredTwice`).
- A removal action stays unfinished after its worker has ended exactly when the error handler's own
  database write failed and the pending actions were not failed (`NodeRemoval.FinishesExactlyOnce`,
  reached by `NodeRemoval.UnfinishedRun`).
- Rebinding a channel fails, and is rolled back, exactly when two observations of a provisional message
  differ in the channel index only (`ChannelRebind.RebindFailsIff`, reached by
  `ChannelRebind.TwinsStopRebind`: a direct message received once with a channel that could not be read
  and once on channel 0).
- Repeating an acknowledgement is harmless exactly when at most one outgoing row can take it
  (`AckStatus.RepeatIsHarmlessIff`; `AckStatus.TwoRowsTakeOneAck` has two).
- A message can be reported as delivered by another destination than its own when two outgoing rows carry one
  packet ID: the destination is read from the newest row and the status goes to the newest row that can take
  it (`SendProtocol.DeliveredByAnother`). `SendProtocol.RoutingPacketEffect` says exactly which row changes,
  and on a single row `SendProtocol.DeliveredIff` holds.
- A contact reported as failed was never sent, except when the pending actions were failed meanwhile or its
  removal could not be recorded (`NodeRemoval.FailedWasNeverSent`, reached by
  `NodeRemoval.SentIsReportedFailed` and `NodeRemoval.RemovedIsReportedFailed`).
- A clash of archived conversation IDs is ignored silently by the migration and only its final count
  check stops it (`ScopeMigration.ArchivedClashStops`). It takes an archived table that is already keyed
  by node and conversation; one keyed by conversation alone never clashes
  (`ScopeMigration.DistinctConversationsNeverClash`).
- A message observed twice along one route with different local nodes stops the migration
  (`ScopeMigration.TwiceObservedStops`), and so does a message still stored under the conversation another
  one gets, even when it would have left it (`ScopeMigration.PassingClashStops`).
- A publisher loses its event when the consumer drains the queue between the full put and the drop
  (`EventHub.DrainedQueueLosesEvent`); `EventHub.LostIff` names the two moments at which that happens.
- A line may exceed the maximum when a newline is already buffered past it
  (`LineReader.SocketLineStream.ReadLine`); callers that keep one maximum never see that.

## Model

| member | source | states |
|---|---|---|
| `WebDispatch.WebApplication.ExpireResults` | meshpi/web.py:161-165 | the loop that pops expired heads yields the expired ledger of the model |
| `WebDispatch.HeadExpiryIsExact` | meshpi/web.py:161-165 | in a time-ordered table, stopping at the first fresh head removes exactly the expired entries, wherever they are |
| `WebDispatch.WebApplication.Register` | meshpi/web.py:202-222 | the admission region: replay, conflict, join or own, and the new ledger |
| `WebDispatch.WebApplication.Complete` | meshpi/web.py:224-245 | the publishing region: answer set, pending entry dropped, result stored and the table cut to 1024 |
| `WebDispatch.WebApplication.Query` | meshpi/web.py:167-185 | a status query expires first and answers from what is left; `QueryTellsTruth` says what the answer means |
| `WebDispatch.StepKeepsInv` | meshpi/web.py:194-245 | every lock region of every caller keeps: pending and retained IDs disjoint, time order, size, one owner per pending operation, write lock held only by a running owner |
| `WebDispatch.ExactlyOnce` | meshpi/web.py:161-245 | in every interleaving an operation's call runs at most once, and exactly once when an answer exists; retained and pending IDs are disjoint; at most 1024 results; head-only expiry is exact |
| `WebDispatch.SameOperationSameReply` | meshpi/web.py:194-245 | all callers served by one operation got the same reply for the same payload, also after the result was evicted |
| `WebDispatch.LiveOperationAdmitsNoSecond` | meshpi/web.py:202-222 | while an ID is pending or retained, the same payload attaches to it, another payload is rejected, and nothing new is registered or run |
| `WebDispatch.QueryTellsTruth` | meshpi/web.py:167-185 | in every run "completed" comes exactly with an unexpired retained answer, which the one run of the call gave to all its callers; "in progress" means exactly that a caller still carries the call out; "unknown" that no operation of the ID is live |
| `WebDispatch.ReplyTellsTheOutcome` | meshpi/web.py:224-245 | in every run each reply and each retained result comes from the one execution of its operation: status 200 and the body as it is exactly when the daemon answered 200, otherwise the daemon's status, or 503 when the call raised, and the error text with the warning after it |
| `WebDispatch.AnswerIsRememberedIff` | meshpi/web.py:161-165 | an answer is remembered at a later step exactly when at most 3600 seconds have passed since its call began and fewer than 1024 answers followed |
| `WebDispatch.UnknownIdIsOwned` | meshpi/web.py:202-222 | an ID that is neither pending nor retained gets an operation of its own |
| `WebDispatch.CallerStepsDecreaseWork` | meshpi/web.py:194-245 | every caller's step brings the system closer to all callers being answered |
| `WebDispatch.SomeCallerCanStep` | meshpi/web.py:194-245 | no deadlock: waiters hold no lock, so some caller can always step |
| `MessageStore.MessageDatabase.InsertMessage` | meshpi/database.py:1170-1305 | one insertion: resolved local node and route, identity index, observation, pruning every so many inserts |
| `MessageStore.MessageDatabase.CompleteOutgoingMessage` | meshpi/database.py:1156-1168 | the packet ID is stored in the request's row unless the identity index forbids it |
| `MessageStore.MessageDatabase.UpdateMessageStatus` | meshpi/database.py:1575-1652 | the newest row whose status allows it is changed, with its failure reason |
| `MessageStore.InsertKeepsWf` | meshpi/database.py:1170-1305 | both unique indexes, ascending IDs and the foreign key survive an insertion |
| `MessageStore.CompleteKeepsWf` | meshpi/database.py:1156-1168 | and a completion |
| `MessageStore.UpdateStatusKeepsWf` | meshpi/database.py:1575-1652 | and a status update |
| `MessageStore.InsertIsExact` | meshpi/database.py:1170-1305 | a message is refused exactly when no node can own it; otherwise it is the last row or the one that is the same message already, under the stated node and conversation, with one observation of who heard it, and nothing else changes |
| `MessageStore.CompleteIsExact` | meshpi/database.py:1156-1168 | a completion queues the outgoing row of this node under its packet ID, unless another row then is the same message, and changes no other row |
| `MessageStore.PruneIsExact` | meshpi/database.py:1070-1085 | pruning leaves min(maximum, resolved) resolved rows of each local node, every unresolved one, and adds none |
| `MessageStore.PruneKeepsNewest` | meshpi/database.py:1070-1085 | a row with fewer than the maximum of newer resolved rows of its node survives |
| `MessageStore.PruneKeepsIff` | meshpi/database.py:1070-1085 | pruning removes a row exactly when it is resolved and the maximum of newer resolved rows of its node exist |
| `MessageStore.InsertAndPruneRows` | meshpi/database.py:1170-1305 | exactly which rows an insertion leaves, whether or not it is the one that prunes |
| `MessageStore.ObservationsFollowRows` | meshpi/database.py:1070-1085 | pruning takes the observations of the pruned rows along, and no others |
| `AckStatus.UpdateIsJoin` | meshpi/database.py:1575-1652 | one status update of the single outgoing row is the join of sent < ACK < failed < delivered and touches no other row |
| `AckStatus.ApplyAllIsJoin` | meshpi/service.py:960-991 | any sequence of acknowledgements ends in the join of them all |
| `AckStatus.JoinAllIsMaximum` | meshpi/database.py:1575-1652 | that join is the maximum of the first status and the acknowledgements |
| `AckStatus.OrderAndRepetitionDoNotMatter` | meshpi/database.py:1575-1652 | two sequences with the same acknowledgements, in any order and repetition, end in the same status |
| `AckStatus.FinalStatus` | meshpi/database.py:1603-1616 | the status a message ends with: delivered once any packet said so, else failed, else acknowledged; an uncertain or received one keeps its status |
| `AckStatus.UncertainNeverMoves` | meshpi/database.py:1575-1652 | an uncertain or received row never moves |
| `AckStatus.ReasonsStayOnFailures` | meshpi/database.py:1575-1652 | a stored failure reason only ever accompanies the failed status |
| `AckStatus.RepeatIsHarmlessIff` | meshpi/database.py:1603-1616 | repeating an update changes nothing exactly when at most one row could take it |
| `AckStatus.TwoRowsTakeOneAck` | meshpi/database.py:1603-1616 | two stored messages with one packet ID: the repeated acknowledgement moves the older row |
| `MessageText.SanitizedTextIsSafe` | meshpi/models.py:16-27 | sanitised text holds no control character, fits its byte limit and is its own sanitised form |
| `MessageText.CleanReplaces` | meshpi/models.py:16-27 | cleaning replaces each control character by a space and keeps every other one in its place |
| `MessageText.FitIsLongest` | meshpi/models.py:16-27 | the cut text is the longest beginning that fits the byte limit |
| `MessageText.AcceptedIffNothingIsLost` | meshpi/models.py:92-103 | a text is accepted exactly when stripping leaves something and sanitising loses nothing of it |
| `MessageText.StripTrims` | meshpi/models.py:92-93 | stripping leaves no white space at either end and leaves text without any alone |
| `MessageText.StripIsPart` | meshpi/models.py:92-93 | what stripping removes is white space at the two ends and nothing else |
| `MessageText.ValidatedTextSurvivesParsing` | meshpi/models.py:92-103 | what the sender validated is what the parser of its echo stores |
| `SendProtocol.MeshtasticService.StoreRequest` | meshpi/service.py:1932-1941 | the uncertain row is inserted, or nothing is sent |
| `SendProtocol.MeshtasticService.RecordSent` | meshpi/service.py:1943-1950 | the packet ID and the sent status are committed, or the row stays uncertain |
| `SendProtocol.MeshtasticService.ApplyEarlyStatus` | meshpi/service.py:1957-1969 | the status that raced ahead of the commit is applied after it |
| `SendProtocol.MeshtasticService.AckNak` | meshpi/service.py:1857-1869 | the callback of a routing packet: before the commit its status is kept, later it updates the row |
| `SendProtocol.MeshtasticService.OnReceive` | meshpi/service.py:847-855 | a packet that passes the check during a send is deferred in order, another is handled |
| `SendProtocol.MeshtasticService.HandlePacket` | meshpi/service.py:856-861 | a packet of an old connection is ignored, a routing packet updates the newest outgoing row (`RoutingPacketEffect` says how), a text packet is handled |
| `SendProtocol.MeshtasticService.HandleText` | meshpi/service.py:871-907 | a text packet is parsed, bound to its channel after a re-sync where needed, and inserted, or given up when a rebind fails; `ReceivedIsStoredIff` says which packets are stored, and how |
| `SendProtocol.MeshtasticService.RebindChannels` | meshpi/service.py:797-803 | a re-sync rebinds the stored rows channel by channel, each in its own transaction, up to the first failure |
| `SendProtocol.MeshtasticService.StoreReceived` | meshpi/service.py:905-907 | the insertion that ends the handling, which runs outside the lock |
| `SendProtocol.MeshtasticService.ReplayNext` | meshpi/service.py:1774-1778 | the first deferred packet is handled after the send |
| `SendProtocol.RequestIs` | meshpi/service.py:1932-1941 | every field of the row that is stored before the radio is called |
| `SendProtocol.StepKeepsInv` | meshpi/service.py:1763-1995 | every step of a send, and every insertion, rebind and acknowledgement of another thread in between, keeps the tables well-formed and the request's row, unless it prunes it |
| `SendProtocol.DurableBeforeRadio` | meshpi/service.py:1932-1956 | in every run the radio is called at most once, only with the uncertain row stored; the row stays stored and untouched until the packet ID is in it, carries that ID from then on, and is stored exactly until a step prunes it |
| `SendProtocol.OwnRowStaysIff` | meshpi/database.py:1070-1085 | in every run the request's row is in the table exactly when no step pruned it, which takes a resolved row and the retention limit of newer resolved ones |
| `SendProtocol.OthersAreForeign` | meshpi/service.py:847-907 | while the send goes on every other row was stored before it began or by a thread that was past the lock |
| `SendProtocol.EarlyAckReachesRequest` | meshpi/service.py:1957-1969 | an acknowledgement that raced ahead of the commit is applied to the request's own row exactly when its status allows it and no newer row can take it; a newer row comes from a thread that was past the lock |
| `SendProtocol.EarlyIsLast` | meshpi/service.py:1857-1869 | in every run the status kept before the commit is the one the last callback so far reported |
| `SendProtocol.ReplaysKeepOrder` | meshpi/service.py:1774-1778 | in every run the deferred packets are handled one by one in the order they came; none is lost or repeated |
| `SendProtocol.ReceivedIsStoredIff` | meshpi/service.py:871-907 | exactly which text packets become a new row; the row of a packet from another node is incoming and received, its peer the sender, its text the cleaned one |
| `SendProtocol.AnswerSharesConversation` | meshpi/packet.py:140-170 | a received message is filed under the conversation that an answer to it on that channel is stored under |
| `SendProtocol.BindingsOfIsLast` | meshpi/service.py:788-791 | a channel is bound to the key of its last entry in the synchronised list |
| `SendProtocol.ResyncSucceedsIff` | meshpi/service.py:797-803 | a re-sync goes through exactly when every single rebind does, and otherwise keeps those before the first failure |
| `SendProtocol.RoutingPacketEffect` | meshpi/service.py:149-158 | the whole effect of a routing packet: an error fails the newest row that can still fail, with its reason; the destination itself delivers it; any other sender acknowledges it |
| `SendProtocol.DeliveredIff` | meshpi/service.py:960-991 | on the single row of a packet ID: it becomes delivered exactly for an error-free packet from its own non-empty destination while its status allows it |
| `SendProtocol.DeliveredNeedsDestination` | meshpi/service.py:960-991 | in every run a request that is delivered has such a packet from its destination among the events |
| `SendProtocol.DeliveredByAnother` | meshpi/service.py:960-991 | a table with two rows of one packet ID in which the destination of one delivers the other |
| `SendProtocol.AwaitsAcknowledgement` | meshpi/database.py:1070-1085 | a request is unresolved until the commit, and after it exactly when it is a direct message |
| `SendProtocol.CommitMeetsNoEcho` | meshpi/database.py:1014-1029 | the commit succeeds exactly when no other row has the identity it would give; such a row is never the send's own echo |
| `SendProtocol.EchoParses` | meshpi/packet.py:103-146 | the parsed echo has the identity of the sent message and needs no further resolution |
| `SendProtocol.EchoStoresNothing` | meshpi/service.py:1763-1778 | after a successful send the replayed echo stores no second message, as long as the first is not pruned |
| `SendProtocol.EchoIsStoredIff` | meshpi/service.py:1951-1956 | in every run, once the send is over, its echo is stored as another row exactly when the commit did not happen with its packet ID, or the row was pruned since, and no other row has its identity |
| `SendProtocol.UncertainSendIsStoredTwice` | meshpi/service.py:1951-1956 | a run in which the radio call raises and the replayed echo is stored beside the request |
| `ChannelRebind.RebindRow` | meshpi/database.py:1983-2074 | one row is moved to the real key, or merged into the message already there with its observations, or meets the index on observations |
| `ChannelRebind.RebindProvisionalChannel` | meshpi/database.py:1971-2074 | the rebind of the message rows, row by row in ID order, rolled back as a whole when one fails |
| `ChannelRebind.StepKeeps` | meshpi/database.py:1983-2074 | every intermediate step keeps both unique indexes and the settled identities and observations |
| `ChannelRebind.RebindKeepsIndexes` | meshpi/database.py:1971-2074 | both indexes hold, the messages are the same and a second rebind changes nothing; after a success nothing provisional is left; observations on the one channel make it succeed and stay the same |
| `ChannelRebind.RebindFailsIff` | meshpi/database.py:2054-2074 | the rebind fails exactly when two observations of a message that moves differ in the channel index only |
| `ChannelRebind.RebindMovesRows` | meshpi/database.py:1981-2074 | a rebind that succeeds moves every provisional row to the real key, or drops it because the same message is there already; every other row is untouched and none is new |
| `ChannelRebind.RebindLabelsObservations` | meshpi/database.py:2028-2074 | afterwards every observation of a message that was provisional carries the real channel and key, and the others are those there were |
| `ChannelRebind.TwinsStopRebind` | meshpi/database.py:2054-2074 | a table, filled by two insertions, in which it fails |
| `ChannelRebind.RebindEqualsDirectStorage` | meshpi/database.py:1971-2074 | storing a channel's messages under the provisional key, among those of other channels and nodes, and rebinding gives the same identities, unnumbered messages and observations as storing under the real key |
| `ScopeMigration.UpdateUnique` | meshpi/database.py:734-754 | an UPDATE under a unique index, row by row, stopped by the first clash |
| `ScopeMigration.MigratingDatabase.ScopeArchivedIds` | meshpi/database.py:809-846 | archived conversations are parsed, scoped under the new key, or preserved |
| `ScopeMigration.CountsAgree` | meshpi/database.py:864-878 | the final check accepts exactly when every table's rows are accounted for |
| `ScopeMigration.MigratingDatabase.MigrateScopeSchema` | meshpi/database.py:643-878 | the migration succeeds with the modelled result or leaves the database as it was |
| `ScopeMigration.UpdateSucceedsIff` | meshpi/database.py:734-754 | a row-by-row update succeeds exactly when no updated row equals an earlier updated or a later old one |
| `ScopeMigration.MessagesMeetIndexIff` | meshpi/database.py:734-740 | scoping conversations meets the message index exactly when two messages agree in packet ID, direction, nodes and text and the scoped conversation of the first is that of the second, before or after its own scoping |
| `ScopeMigration.OwnConversationsMeetIff` | meshpi/database.py:734-740 | when no message is stored under the scoped conversation of another, only equal scoped conversations meet it |
| `ScopeMigration.PassingClashStops` | meshpi/database.py:734-740 | two messages that end apart but meet the index on the way |
| `ScopeMigration.ObservationsMeetIndexIff` | meshpi/database.py:741-754 | scoping observations meets their index exactly when a message was observed twice along one route |
| `ScopeMigration.MoveIsSound` | meshpi/database.py:612-630 | moving rows of one table into the legacy table keeps the partition |
| `ScopeMigration.SamplesSound` | meshpi/database.py:881-1012 | rebuilding the two sample tables keeps the partition |
| `ScopeMigration.ArchivedCount` | meshpi/database.py:809-846 | a clash of archived keys makes the row count fall short |
| `ScopeMigration.MigrationIsPartition` | meshpi/database.py:643-878 | a successful migration is a partition of every table, and it succeeds exactly when no two messages coincide, no message was observed twice along one route and no archived keys clash |
| `ScopeMigration.TwiceObservedStops` | meshpi/database.py:741-754 | a database in which the index on observations stops the migration |
| `ScopeMigration.ArchivedClashStops` | meshpi/database.py:809-878 | a database, its archived table keyed by node and conversation already, in which the final count stops the migration |
| `ScopeMigration.DistinctConversationsNeverClash` | meshpi/database.py:809-846 | an archived table keyed by conversation alone never clashes |
| `ScopeMigration.ScopedRowsHaveLocalNode` | meshpi/database.py:698-847 | every scoped row has one local node: messages, rebuilt samples and newly scoped actions a well-formed one; an action that of all sent messages with its packet ID, an observation that of its message, an archived conversation the one its ID parses to |
| `ScopeMigration.MessagesAreScopedIff` | meshpi/database.py:698-740 | exactly which messages are scoped, to which node and conversation: the own node or the one all observations agree on, and a channel key for public ones |
| `ScopeMigration.SamplesAreScopedIff` | meshpi/database.py:881-1012 | exactly the samples with a well-formed gateway node are scoped, to that node |
| `ScopeMigration.ObservationsAreScopedIff` | meshpi/database.py:741-775 | exactly the observations whose message is scoped are kept, with its node |
| `ScopeMigration.ActionsAreScopedIff` | meshpi/database.py:776-808 | an action is scoped exactly when it has a node or all sent messages with its packet ID agree on one |
| `ScopeMigration.ArchivedAreScoped` | meshpi/database.py:809-846 | exactly the archived conversations whose ID parses are scoped, to the node of the ID |
| `ScopeMigration.MigratedIsMarked` | meshpi/database.py:643-878 | afterwards every table is marked as scoped, and one that was scoped before is untouched |
| `ScopeMigration.ScopedArchivedAreValid` | meshpi/database.py:826-846 | with the parser of the source the node of an archived conversation is well-formed |
| `NodeRemoval.RemovalAction.FinishNodeAction` | meshpi/service.py:1705-1742 | the first finish wins; an error settles every open contact |
| `NodeRemoval.RemovalAction.HandleException` | meshpi/service.py:1205-1222 | the handler marks the contact at hand and skips the waiting ones; it finishes the action unless its own write fails |
| `NodeRemoval.StepKeepsInv` | meshpi/service.py:1130-1295 | every lock region of the worker, and every connection event between two of them, keeps the invariant |
| `NodeRemoval.RemovedContactsFormPrefix` | meshpi/service.py:1130-1224 | removed contacts form a prefix and at most one contact is sent |
| `NodeRemoval.SkippedWasNeverSent` | meshpi/service.py:1130-1224 | a waiting or skipped contact was never sent, and no late thread can still send it |
| `NodeRemoval.HiddenOnlyAfterFreshAbsence` | meshpi/service.py:1226-1295 | a node is hidden only after its own removal call and a later full download without it; removed contacts are hidden |
| `NodeRemoval.HiddenAfterWholeTrial` | meshpi/service.py:1130-1295 | in every run a step that hides a contact ends a whole trial of it on the current interface: recorded as sent, accepted by the radio, a download requested, completed and in use as a new registry, and the contact missing from it then and now |
| `NodeRemoval.StatusTellsTrial` | meshpi/service.py:1130-1224 | in every run a sent, unverified or removed contact was tried and a waiting or skipped one was not; a failed one may be either |
| `NodeRemoval.FailedWasNeverSent` | meshpi/service.py:1205-1222 | in every run a failed contact was never sent, unless the pending actions were failed meanwhile or a removal could not be recorded; a finished action then is completed exactly when all contacts were removed |
| `NodeRemoval.SentIsReportedFailed` | meshpi/service.py:1205-1222 | a run in which a contact that was sent is reported as failed |
| `NodeRemoval.RemovedIsReportedFailed` | meshpi/service.py:1205-1222 | a run in which a contact that was removed and hidden is reported as failed |
| `NodeRemoval.PendingFailureSettles` | meshpi/service.py:1705-1752 | failing the pending actions leaves what may have reached the radio unverified and skips what waits |
| `NodeRemoval.RestCanBeRemoved` | meshpi/service.py:1130-1295 | from any point between two contacts the rest can be removed, and the action completes |
| `NodeRemoval.FinishesExactlyOnce` | meshpi/service.py:1705-1752 | the action finishes at most once, completed means all removed, and no contact is open when the worker has ended; then the action has finished exactly when the handler's write did not fail or pending actions were failed |
| `NodeRemoval.UnfinishedOnlyByWrite` | meshpi/service.py:1205-1222 | the handler's failed write is the only way a worker leaves its action started |
| `NodeRemoval.UnfinishedRun` | meshpi/service.py:1205-1222 | a run in which both writes fail |
| `NodeRemoval.WorkerCanAlwaysProceed` | meshpi/service.py:1130-1224 | the worker always has a next step until it stops |
| `NodeRegistry.NodeStore.UpsertNode` | meshpi/database.py:2369-2482 | the insertion with its conflict clause and the flag update, as one merge |
| `NodeRegistry.NodeStore.RemoveNodeFromList` | meshpi/database.py:2533-2542 | a node other than the local one gets a tombstone not older than what was heard |
| `NodeRegistry.StepGoesForward` | meshpi/database.py:2397-2482 | no event lowers a time, forgets a field or clears a flag; a hidden node becomes visible only by a live observation or news newer than all before |
| `NodeRegistry.RunGoesForward` | meshpi/database.py:2369-2542 | the same between any two states of a run |
| `NodeRegistry.LastHeardIsMaximum` | meshpi/database.py:2426-2429 | whatever the order of reports, the stored time is the maximum reported |
| `NodeRegistry.FlagsAreExact` | meshpi/database.py:2475-2482 | the RF and MQTT flags tell exactly whether a report came that way |
| `NodeRegistry.NumberIsLastReported` | meshpi/database.py:2405 | the stored number is that of the last report that had one |
| `NodeRegistry.LocalIsLastReported` | meshpi/database.py:2464 | the local flag is that of the last report |
| `NodeRegistry.TransportIsLastFresh` | meshpi/database.py:2455-2458 | the stored transport is that of the last fresh report with a known one |
| `NodeRegistry.RemovalTimeIsMaximum` | meshpi/database.py:2533-2542 | a removal is stamped with the later of now and the last time heard |
| `NodeRegistry.AttributeIsNewestKnown` | meshpi/database.py:2406-2463 | an attribute is known exactly when some report supplied it, and which report its value is from |
| `NodeRegistry.UpdatedAtIsLastFresh` | meshpi/database.py:2468-2470 | the stored time of change is that of the last report that was fresh when it came |
| `NodeRegistry.HiddenIff` | meshpi/database.py:2465-2467 | a node is hidden exactly when a removal hid it and nothing since has lifted that removal, and its tombstone is that removal's |
| `WebAuth.AuthStore.PruneMaps` | meshpi/web_auth.py:307-315 | sessions that are expired or of an older generation go, and challenges without a session or expired |
| `WebAuth.AuthStore.OpenSession` | meshpi/web_auth.py:317-334 | a new session, or a refusal when 256 are open |
| `WebAuth.AuthStore.IssueTerminalCode` | meshpi/web_auth.py:277-305 | a code is issued, the origin is switched and the old identity kept, or nothing changes at sixteen origins or when the file would be too large |
| `WebAuth.AuthStore.Login` | meshpi/web_auth.py:370-392 | the whole outcome of one code login on the file and the session map |
| `WebAuth.AuthStore.StartSession` | meshpi/web_auth.py:336-338 | a new unauthenticated session, refused at another origin or at the bound |
| `WebAuth.AuthStore.LookUp` | meshpi/web_auth.py:340-343 | the session of a token after pruning |
| `WebAuth.AuthStore.BeginChallenge` | meshpi/web_auth.py:416-436 | a challenge is bound to a permitted session |
| `WebAuth.AuthStore.CompleteRegistration` | meshpi/web_auth.py:487-538 | the challenge is consumed and a verified new credential stored, unless the file would be too large |
| `WebAuth.AuthStore.CompleteAuthentication` | meshpi/web_auth.py:556-597 | the challenge is consumed, the counter checked and moved, and the session exchanged, or kept when the file would be too large |
| `WebAuth.AuthStore.RemoveCredential` | meshpi/web_auth.py:608-621 | a credential goes, and with it every session and challenge |
| `LoginFile.AuthFile.Write` | meshpi/web_auth.py:255-258 | a file of more than 128 KiB is refused and the old one kept |
| `LoginFile.AuthFile.Measure` | meshpi/web_auth.py:257-258 | counting the stored origins in any order gives the size of the serialised file |
| `LoginFile.SizeIsLength` | meshpi/web_auth.py:255-258 | the counted size is the length of the printed JSON text, whatever the order of the stored origins |
| `LoginFile.ReturnSize` | meshpi/web_auth.py:282-297 | returning to a stored origin leaves the size of the file as it is, apart from the code |
| `WebAuth.LoginSucceedsIff` | meshpi/web_auth.py:370-392 | a code login succeeds exactly with an unexpired session of the current generation and the current code, unexpired and with attempts left, and opens the session stated; neither room nor the size of the file, which shrinks, is the reason it fails |
| `WebAuth.DeletionSucceedsIff` | meshpi/web_auth.py:608-621 | a deletion succeeds exactly with a session logged in less than 300 seconds ago and a stored passkey; the file shrinks |
| `WebAuth.DeletionRevokes` | meshpi/web_auth.py:608-621 | a deletion takes the passkey with that ID alone, and revokes the unused code and every session and challenge of the process |
| `WebAuth.RegistrationBeginsIff` | meshpi/web_auth.py:416-436 | a registration begins exactly with a session logged in less than 300 seconds ago and fewer than 20 passkeys, and binds its challenge for 120 seconds |
| `WebAuth.RegistrationSucceedsIff` | meshpi/web_auth.py:487-538 | a registration succeeds exactly with such a session, its own unexpired register challenge, an accepted assertion with consistent flags and a new ID, fewer than 20 passkeys and a file that fits |
| `WebAuth.AuthenticationBeginsIff` | meshpi/web_auth.py:540-554 | an assertion may begin exactly with a session and a stored passkey |
| `WebAuth.AuthenticationSucceedsIff` | meshpi/web_auth.py:556-597 | a valid assertion opens a session exactly with a session, its own challenge, a stored passkey with the same eligibility and a counter that moved |
| `WebAuth.IssueSucceedsIff` | meshpi/web_auth.py:277-305 | a code is issued exactly when the origin has room and the file fits; what the file and the sessions then are |
| `WebAuth.SessionStartsIff` | meshpi/web_auth.py:317-338 | a session starts exactly with the store's own origin and fewer than 256 sessions left after pruning; it lives 600 seconds unauthenticated |
| `WebAuth.SessionIsFoundIff` | meshpi/web_auth.py:340-343 | a session is found exactly when it is unexpired and of the current generation at the store's own origin |
| `WebAuth.PruneKeepsIff` | meshpi/web_auth.py:307-315 | exactly which sessions and challenges pruning keeps |
| `WebAuth.SessionEndsIff` | meshpi/web_auth.py:277-621 | in one step a session of a process ends exactly by a restart, signing out, a revocation, being exchanged, or its age or generation once the process looks; until then it stays as it is |
| `WebAuth.SignedOutStaysOut` | meshpi/web_auth.py:365-368 | in every run a session that was signed out of opens nothing in its process later |
| `WebAuth.LoginNeedsIssuedCode` | meshpi/web_auth.py:277-392 | in every run an accepted code is the last one issued at that origin, less than 300 seconds ago |
| `WebAuth.AssertionNeedsChallenge` | meshpi/web_auth.py:416-597 | in every run an accepted assertion answers a challenge this session was given less than 120 seconds ago |
| `WebAuth.PasskeysComeFromLogins` | meshpi/web_auth.py:370-538 | in every run a step that adds a passkey comes from a session opened by an accepted code or assertion less than 300 seconds before |
| `WebAuth.FoundSessionIsCurrent` | meshpi/web_auth.py:340-343 | in every run a session that is found is unexpired and current, and was opened after every revocation so far |
| `WebAuth.NothingIsUsedTwice` | meshpi/web_auth.py:370-450 | over all runs of several processes a code logs in once at most, is tried five times at most, and a challenge is consumed once at most |
| `WebAuth.ChallengesHaveSessions` | meshpi/web_auth.py:255-334 | every challenge belongs to a session, sessions, credentials and origins stay bounded, and the file stays within 128 KiB |
| `WebAuth.UsedCounterIsRefused` | meshpi/web_auth.py:556-597 | in every run, after an accepted assertion one of the same passkey with a counter not above it is refused at every later step at which the file is at that origin, in every process, until the passkey is registered there again |
| `WebAuth.DeletedCredentialIsRefused` | meshpi/web_auth.py:608-621 | in every run, a deleted passkey goes alone and opens no session at any later step at which the file is at that origin, in any process, until it is registered there again |
| `WebAuth.RevokedStaysRevoked` | meshpi/web_auth.py:277-315 | in every run, a session any process holds when a code is issued or a passkey deleted is not found and opens nothing in that process at any later step |
| `WebAuth.LeftIdentityIsKept` | meshpi/web_auth.py:277-305 | the identity of an origin that was left stays stored unchanged |
| `WebAuth.SwitchingBackRestores` | meshpi/web_auth.py:255-305 | returning to an origin restores user ID and credentials exactly when fewer than sixteen origins are stored and the new code fits in the place of the old one; otherwise the file stays as it is |
| `WebAuth.SwitchingBackRefused` | meshpi/web_auth.py:277-305 | a run in which the return meets sixteen stored origins |
| `WebAuth.SwitchingBackOverflows` | meshpi/web_auth.py:255-305 | a run in which the return meets a full file |
| `History.GatewayDatabase.PreviewHistoryCleanup` | meshpi/gateway_database.py:339-400 | the cutoff is taken from the days, the scope from the choice, and the nested loops collect the first eligible rows of each table within the limit, or refuse |
| `History.GatewayDatabase.CleanupHistory` | meshpi/gateway_database.py:402-445 | the targets are removed one by one and counted per table, or nothing when the policy changed |
| `History.GatewayDatabase.MaintainHistory` | meshpi/gateway_database.py:447-463 | one maintenance round |
| `History.GatewayDatabase.SetHistoryPolicy` | meshpi/gateway_database.py:321-328 | a new retention time is stored and the review flag cleared |
| `History.PreviewRefusesIff` | meshpi/gateway_database.py:339-400 | a preview is refused exactly when more rows are eligible than the maximum, and an accepted one holds every eligible row of every chosen table and nothing else |
| `History.AcceptedPreviewRemovesAll` | meshpi/gateway_database.py:339-445 | carrying it out at once removes exactly the eligible rows of the chosen tables |
| `History.RemoveAllIsKept` | meshpi/gateway_database.py:402-445 | deleting target by target removes exactly the rows some target may remove |
| `History.CleanupRemovesOnlyPreviewed` | meshpi/gateway_database.py:402-445 | whatever changed in between, only previewed rows go, never an unresolved message, a running action, or another action in a previewed row ID, and nothing under a changed policy |
| `History.CleanupRemovesEveryRemovable` | meshpi/gateway_database.py:402-445 | with the policy unchanged every previewed row that may go does go |
| `History.ImmediateCleanup` | meshpi/gateway_database.py:339-445 | cleaning up at once removes exactly the previewed rows |
| `History.MaintenanceRound` | meshpi/gateway_database.py:447-463 | a round removes min(100 000, eligible) rows, all eligible |
| `History.MaintenanceConverges` | meshpi/gateway_database.py:447-463 | with a fixed clock and no new rows enough rounds leave nothing eligible |
| `History.MaintenanceRemovesOnlyOld` | meshpi/gateway_database.py:339-463 | a maintenance round removes only rows whose stamp lies more than the retention time back, never an unresolved message or a running action |
| `History.MaintenanceLeavesExactly` | meshpi/gateway_database.py:447-463 | after enough rounds exactly the rows are left that are younger or protected |
| `History.CleanupLeavesExactly` | meshpi/gateway_database.py:339-445 | a cleanup a user previewed leaves exactly the rows outside its scope, younger or protected |
| `History.UnreviewedIsLeft` | meshpi/gateway_database.py:447-463 | nothing is deleted on its own while the policy awaits review or keeps rows for ever |
| `History.OtherPolicyIsLeft` | meshpi/gateway_database.py:402-420 | a cleanup planned under another policy does nothing |
| `HistoryPreviews.PreviewStore.Preview` | meshpi/ipc.py:95-116 | filter, refusal, eviction loop and insertion as one function of the store |
| `HistoryPreviews.PreviewStore.StartCleanup` | meshpi/ipc.py:124-135 | a token is taken out before its cleanup starts |
| `HistoryPreviews.EvictMakesRoom` | meshpi/ipc.py:105-116 | the eviction loop ends with room for an accepted preview |
| `HistoryPreviews.EvictedIff` | meshpi/ipc.py:105-116 | a preview is evicted exactly when keeping it would leave too many previews or rows |
| `HistoryPreviews.PreviewIsKeptIff` | meshpi/ipc.py:95-116 | exactly which previews a request keeps |
| `HistoryPreviews.AcceptedIsStored` | meshpi/ipc.py:105-116 | an accepted preview is stored for 300 seconds under its token and gateway |
| `HistoryPreviews.ExpiredIsDropped` | meshpi/ipc.py:101-104 | an expired preview is gone after the next request |
| `HistoryPreviews.CleanupStartsIff` | meshpi/ipc.py:124-135 | a cleanup starts exactly for a stored, unexpired token of the same gateway |
| `HistoryPreviews.TokensStartOneCleanup` | meshpi/ipc.py:86-136 | at most 8 previews and 1 000 000 rows after every request, and one cleanup per token, for its own gateway and in time |
| `Conversations.VisibleConversations` | meshpi/ipc.py:153-219 | the two loops over items and peers build exactly the list specified by first positions and route sets |
| `Conversations.EntriesKeepOrder` | meshpi/ipc.py:173-195 | one entry per shown item in order: old public channels hidden, other conversations untouched, a peer at its first route |
| `Conversations.ShownIff` | meshpi/ipc.py:173-190 | exactly which items lead an entry: no old public channel, and no later route of a peer, upper and lower case being one |
| `Conversations.PeerIsShownOnce` | meshpi/ipc.py:173-195 | every peer with a route has exactly one entry |
| `Conversations.BestIsFirstMaximum` | meshpi/ipc.py:184-194 | the kept route is the first of those nothing beats |
| `Conversations.EntryHasHighestPriority` | meshpi/ipc.py:161-194 | the selected route has the highest priority of its peer's routes |
| `Conversations.EntrySelects` | meshpi/ipc.py:161-194 | the selected route can send if any can, then is the preferred one, then has a direct-message ID |
| `Conversations.StringLessIff` | meshpi/ipc.py:164-171 | times are compared at the first place where they differ, a proper prefix being less |
| `Conversations.EntryShowsNewest` | meshpi/ipc.py:197-210 | text and time are those of a route with the newest message |
| `Conversations.EntryIsNewest` | meshpi/ipc.py:197-210 | no route has a message with a higher ID, or with the same ID and a later time |
| `Conversations.EntryListsOtherRoutes` | meshpi/ipc.py:214-218 | selected and listed routes together are the peer's routes, as often as they occur |
| `Conversations.UnreadIsConserved` | meshpi/ipc.py:211-213 | the total of unread messages is unchanged by merging |
| `Conversations.UnreadIsSum` | meshpi/ipc.py:211-213 | the unread count of an entry is the sum over its routes |
| `NodeIds.NormalizedIsNodeId` | meshpi/models.py:81-89 | a normalised ID is a node ID other than broadcast, and normal already |
| `NodeIds.NodeIdIsNormal` | meshpi/models.py:81-89 | only the case of a node ID is normalised |
| `Utf8.DecodeEncode` | meshpi/channels.py:10-11 | decoding the UTF-8 bytes of a name gives the name back |
| `Utf8.EncodingIs` | meshpi/channels.py:10-11 | the bytes of a character are those of section 3 of RFC 3629 |
| `ChannelIds.QuoteIsInjective` | meshpi/channels.py:10-11 | percent-encoding loses nothing (section 2.1 of RFC 3986) |
| `ChannelIds.KeyIffIdentity` | meshpi/channels.py:14-27 | two channels share a key exactly when they share name and ID, or node, index and name; global and local keys never meet |
| `ChannelIds.SameKeyIff` | meshpi/channels.py:14-27 | the same in terms of the fields: an ID other than zero and the name, or node, index and name |
| `ChannelIds.DecimalIs` | meshpi/channels.py:14-32 | the printed digits have the value of the number |
| `ChannelIds.ProvisionalIffSame` | meshpi/channels.py:30-32 | provisional keys tell local nodes and indexes apart |
| `ChannelIds.KeyIsValid` | meshpi/channels.py:14-27 | every key made for a node's channel passes the validity check, whatever its name |
| `ChannelIds.ValidKeyIff` | meshpi/channels.py:79-89 | which keys are accepted |
| `ChannelIds.PublicRoundTrip` | meshpi/channels.py:35-62 | a public ID parses back exactly when its key is valid and does not end in white space |
| `ChannelIds.DmRoundTrip` | meshpi/channels.py:39-76 | a direct-message ID parses back under the same condition |
| `ChannelIds.ParsedDmPrintsBack` | meshpi/channels.py:65-76 | printing what was parsed from any accepted text gives the canonical ID |
| `ChannelIds.ParseDmIff` | meshpi/channels.py:65-76 | exactly which texts are direct-message IDs, and of which conversation |
| `ChannelIds.ParsePublicIff` | meshpi/channels.py:53-62 | exactly which texts are public IDs, with or without a node |
| `LineReader.SocketLineStream.ReadLine` | meshpi/client.py:40-57 | for every chunking the line is the first line of the stream, what is left is the rest, and the buffer stays within the maximum |
| `LineReader.SocketLineStream.Next` | meshpi/client.py:32-38 | the next item: a line, the end, or a response that is too large |
| `LineReader.SocketLineStream.ReadLines` | meshpi/client.py:29-57 | reading to the end gives the split of the whole stream |
| `LineReader.NextItemFacts` | meshpi/client.py:32-38 | a response is refused exactly when no newline ends it within the allowed bytes; otherwise it is a whole line, or all that is left |
| `LineReader.SplitIsLines` | meshpi/client.py:40-57 | the lines concatenate to the stream and all but the last are complete |
| `LineReader.SplitIsUnique` | meshpi/client.py:40-57 | there is no other way to cut a stream into such lines |
| `EventHub.BoundedQueue.PutNowait` | meshpi/events.py:19-26 | a put on a full queue changes nothing |
| `EventHub.BoundedQueue.GetNowait` | meshpi/events.py:22-26 | the oldest event is taken |
| `EventHub.Hub.Publish` | meshpi/events.py:16-27 | undisturbed publishing puts the event last in every queue and drops only the oldest of a full one |
| `EventHub.Hub.Subscribe` | meshpi/events.py:30-34 | a new empty queue joins the hub |
| `EventHub.Hub.Unsubscribe` | meshpi/events.py:35-37 | the queue leaves the hub |
| `EventHub.InterleavingsKeepOrder` | meshpi/events.py:16-27 | in every interleaving queues stay within size, received and queued events are a subsequence of the put order, and no publisher puts twice |
| `EventHub.UninterruptedPublish` | meshpi/events.py:16-27 | without interruption the new event is last and only the oldest is dropped |
| `EventHub.DrainedQueueLosesEvent` | meshpi/events.py:22-27 | a drained queue loses the new event although there is room |
| `Masking.AndClears` | meshpi/service.py:1670-1672 | ANDing with the precision mask clears the masked bits |
| `Masking.MaskIsCellCentre` | meshpi/service.py:1667-1674 | the masked coordinate is the centre of the aligned cell, in range, at most half a cell away |
| `Masking.MaskAtEnds` | meshpi/service.py:1667-1674 | at full precision nothing is masked, and at none every coordinate becomes the lowest one |
| `Masking.SameMaskIffSameCell` | meshpi/service.py:1667-1674 | two coordinates are masked alike exactly when they share a cell |
| `Masking.CoarseAfterFine` | meshpi/service.py:1667-1674 | coarse masking after finer masking is coarse masking alone, and masking is idempotent |
| `RadioSlots.NameHash` | meshpi/local_node.py:139-143 | the byte loop stays below 2^32 and equals the unbounded djb2 sum modulo 2^32 |
| `RadioSlots.RadioDetails` | meshpi/local_node.py:117-149 | which of override, calculation or nothing decides slot and frequency |
| `RadioSlots.EffectiveSlotExists` | meshpi/local_node.py:130-145 | the effective slot is one of the band's slots, and a configured one that exists is kept |
| `RadioSlots.DetailsIff` | meshpi/local_node.py:117-149 | exactly which settings give a slot, and which a frequency |
| `RadioSlots.SlotIsCongruent` | meshpi/local_node.py:130-145 | a configured slot wraps around the band, and the hash of the name decides without one |
| `RadioSlots.FrequencyIsInSlot` | meshpi/local_node.py:145-149 | the frequency is the centre of the slot plus the offset, up to the rounding |
| `RadioSlots.RoundsToNearestEven` | meshpi/local_node.py:145-149 | rounding takes the nearest number, the even one of two |
| `RadioSlots.DocumentedDefaults` | tests/test_local_node.py:22-29 | the documented slots and frequencies of three regions |
| `RadioSlots.SlotsFit` | meshpi/local_node.py:128 | all slots fit the band up to the rounding of their number |
| `RadioSlots.SlotsAreMaximal` | meshpi/local_node.py:128 | one slot more would not fit |
| `RadioSlots.ChannelLiesInBand` | meshpi/local_node.py:145-149 | the channel's edges lie in the band up to that rounding |
| `RadioSlots.SlotsDoNotOverlap` | meshpi/local_node.py:145-149 | channels of different slots do not overlap |

## Left out

- The SQLite engine, its WAL, locking and file handling: a table is a sequence, a connection block one step.
- Sockets, HTTP, JSON, cookies, IPC authentication and payload validation: typed inputs.
- The radio library, BLE, serial and TCP discovery: arbitrary outcomes of a call.
- Errors of the file system while the login file is read or written, and a login file edited by hand.
- FIDO2 and hash internals: verification is a parameter, digests and fingerprints are injective, tokens and generations are fresh numbers.
- Clocks: times are parameters; timestamps are ordered numbers or strings.
- Socket errors and timeouts of `recv`: they leave the buffer as it is.
- The user interfaces, the installer, translations and logging.
- Which characters are control characters or white space: parameters that hold for all Unicode tables in which a space is white space and no control character.
- Lone surrogates in text: Dafny characters are Unicode scalar values, as in text that can be encoded.
- Non-ASCII case conversion of node IDs: a node ID is ASCII.
- SendProtocol: reading the early status and applying it are one step; an acknowledgement that comes in between commutes with it (`AckStatus.OrderAndRepetitionDoNotMatter`).
- MessageStore.MessageDatabase.InsertMessage: takes node IDs in lower case and leaves the archived flag of the conversation out.
- SendProtocol.MeshtasticService.HandleText: leaves out what `RebindChannels` leaves out.
- SendProtocol.MeshtasticService.RebindChannels: leaves out the rebinding of old direct messages on the primary channel and a busy database that postpones the re-sync.
- SendProtocol: a text packet carries a channel number; a packet whose channel cannot be read is not modelled.
- ChannelRebind.RebindProvisionalChannel: the archived conversation IDs that move along with the messages are not modelled.
- ChannelRebind.RebindEqualsDirectStorage: no pruning between the insertions; it compares identities and observation keys, not RSSI, other payload or row IDs, because the rebind keeps the payload of the message already there.
- History.GatewayDatabase.MaintainHistory: reads the policy, previews and cleans in one step for one gateway; `History.CleanupRemovesOnlyPreviewed` covers what changes between preview and cleanup.
- NodeRemoval.WorkerCanAlwaysProceed: does not promise that the radio answers; a step of the environment may be awaited, and the worker's time limit is the failing step.
- RadioSlots: rounding inside floating-point operations; only the explicit rounding to six digits is modelled, on exact numbers. The table of regions and presets, the firmware check and the coding-rate fields are inputs.
- ScopeMigration: the parser of direct-message IDs is a parameter of the theorems; `ChannelIds.ParseDm` is one. The earlier schema versions and the node columns are not modelled.
- `rebind_legacy_primary_dms`, telemetry and position insertion, archiving of conversations, trimming of old node actions: further tables under the same kind of index.
- Configuration ranges, version keys, reconnect delays: single-branch facts.
