# Salve DB: verified models

A model in Dafny of the hard core of Salve DB, an offline-first database for
mobile apps, with proofs of what its parts promise over every input and every
run. `dafny verify dfyconfig.toml` checks the whole project.

## What is modelled

**The sync engine as a two-party protocol.** The client's state is its domain
tables, `sync_queue`, `_salve_sync_metadata` (a frozen `localId`, a mutable
`entityId`, a `remoteId`) and the apply lock (`SyncStore`). It changes by local
writes through triggers, by push items and by pulled pages; the application
keeps writing before, between and during requests. The reference server is a
table with one strictly increasing tick and a sorted, exclusive, limited list
(`SyncServer`). Answers, faults, clocks and the interleaving are parameters;
what a theorem assumes of them is in its preconditions, and the next section
says it in words.

- `SyncApplier`, `SyncPush`, `SyncPull` say what one step does, with the
  source's branches and its error paths; `SyncEngine` holds the imperative
  form (one database object updated in place, the loops of the phases), each
  method proved to do what the step's function says. `SyncReplace` says, from the
  database and the answer alone, when the rewrite after an accepted write goes
  through.
- `SyncStatements` and `SyncArrivals` spell out, in rows, queue items, metadata rows
  and status numbers, what single statements, pulled rows, list answers and plans
  come to, apart from how the functions are written.
- `SyncRuns` cuts runs into atomic steps; on these, `SyncIdentity`,
  `SyncDelivery`, `SyncConservation`, `SyncOutbox`, `SyncRows`, `SyncConflicts`,
  `SyncRelations`, `SyncCursor` and `SyncMirror` prove the protocol's promises.
- `SyncProtocol` runs client and reference server together, other clients
  writing in between, and derives what the identity results assume of ids.

**The query-condition compiler** (`ConditionCompiler`, `QueryBuilders`). `Sql`
is an independent reading of the SQL that is written: a lexer over characters,
placeholders bound left to right, a precedence parser and three-valued logic.

**Two parser and printer pairs**: JSON (`JsonText`, `OrderedMap`) and the
`{token}` URL templates with percent-encoding (`UrlTemplate`,
`PercentEncoding`). `JsonGrammar` is a grammar of texts and their meaning that
knows nothing of the parser; the parser accepts exactly its texts.

**The SQLite connection**: the statement cache (`StatementCache`) and the
coalesced change notifications (`ChangeNotifications`).

**The sync throttle** of the JavaScript side (`SyncTrigger`).

## What is assumed of the world

The identity results need what the design takes for granted, stated as
preconditions (`EventsFit` and what it is made of):

- A new row gets an id that no server hands out, unless it comes back under an
  id its table already knows; ids are not empty. (An empty `remoteId` reads back
  as missing, `cpp/database/SalveMetadataManager.cpp:46-49`.)
  Server ids are disjoint from these: `SyncIdentity.PulledMovesIff` shows when a
  pulled id that is some row's localId re-homes that row.
- POST answers with a fresh server id, PATCH with the id it was sent to; either
  may leave the id out. Pages and requests are of tables with a sync contract.
  The application does not change primary keys.
- Against the reference server only the part about local ids is left: a local id
  that is a number, such as a time in milliseconds, lies beyond every id the
  server has reached (`SyncProtocol.ServedRunIsSound`).

A create that the server accepted may fail on the client, and nothing is assumed
to rule this out. How far the rewrite came decides what follows:

- If the row could not be renamed, it is stranded: it stays under a name no
  metadata row owns. The localIds and answered ids of stranded rows are collected
  (`SyncIdentity.Blocks`), and the results on identity, delivery, conflicts and
  relations hold for every row outside that set, whatever becomes of the rows
  inside.
- If the row was renamed and only the echo or the cascade failed, it is covered by
  these results like any other, with two exceptions that are stated where they
  apply: its other queue items keep its former name until they are dropped, and
  foreign keys that name it may not all have followed
  (`SyncIdentity.Unfinishes`).

Which of these happens is told beforehand: `SyncIdentity.Vacates` and
`SyncReplace.Rewritable` look at the database and the answer only.

Further preconditions of single results:

- For foreign keys: nothing the run brings for the child itself changes the cell
  in question. Whether an answer also adds an edge is
  `SyncRelations.RewriteKeepsGraphIff`, in both directions.
- For the cursor: list faults are errors the session throws on, and the cursor
  field is the reference server's `updatedAt`.

## Where the code and its comments differ

- The comment at `cpp/sync/SyncOperationApplier.cpp:219` says the data of an
  echo is skipped under serverWins and clientWins. The code compares
  `conflict.field` whenever it is a column, under any strategy:
  `SyncConflicts.EchoWinsIff` says exactly when the answer's data is on the row
  afterwards, and `ClientWinsIsOverwritten` is a clientWins row that gives way.
- The comment at `cpp/sync/SyncPushPhase.cpp:196` says of a create that was
  recorded but not rewritten that "a retry PATCHes the resolved id, never re-POSTs
  a duplicate". The item itself is blocked. What becomes of the row's other items
  depends on how far the rewrite came. Where the row was not renamed, an item read
  afresh finds no metadata under the old id and posts the row again
  (`SyncDelivery.PostsAgainIff`, and `StuckReplacePostsTwice` for a run). Where the
  row was renamed, such an item finds no row and is dropped, and with it a local
  edit that is never pushed (`SyncDelivery.RenamedEditIsDropped`). An item the same
  session had read before never posts: it goes to the server's id or is dropped
  (`SyncDelivery.StaleItemFate`).
- The JSON parser is more generous than RFC 8259 and in one point differs from it:
  an escape `\u` stands for the letter u, so the digits after it are text
  (`JsonGrammar.ParsesIff`; `JsonText.PrintedReads` for what the printer writes).
- The header of the URL template lists a short blocklist of characters
  (`cpp/http/UrlTemplate.hpp:17-23`); the code also rejects `#`, every byte
  from 0x7F up and incomplete percent escapes, and so does the model.
- `SQLiteConnection` clears its transaction flag only in a successful `commit`
  or `rollback`. If the engine ends the transaction in another way, both fail
  from then on and no later write is notified until somebody executes BEGIN as
  text (`ChangeNotifications.StuckNeverNotifies`, `WayOut`,
  `AbandonedWriteIsLost`).
- The comment at `cpp/database/SQLiteConnection.cpp:257` says that a rollback
  discards only what was not persisted. After that way out it also discards the
  tables of writes committed in between (`ChangeNotifications.WayOut`).

## Model

| member | source | states |
|---|---|---|
| SyncRuns.AtomsRun | cpp/sync/SyncPushPhase.cpp:78-206 | cutting a run of writes, push sessions and pulls into atomic steps changes neither the database it reaches nor the requests it sends |
| SyncStatements.WriteFailsIff | cpp/database/MigrationEngine.cpp:308-379 | an application write throws if and only if it inserts a row that exists, the tables refuse the rows it would leave, or its trigger meets a new name that is another row's localId |
| SyncStatements.WriteLeaves | cpp/database/MigrationEngine.cpp:308-379 | all that a write leaves, spelled out: the rows, one untried queue item of its kind, the one metadata row with its operation and status, a soft delete counting as a delete; and nothing but the rows when muted or unsynced |
| SyncStatements.PullMarks | cpp/database/SalveMetadataManager.cpp:136-153 | a pulled row marks one metadata row, found by entityId, else by localId, else new, with the pulled id as its remoteId and the status, and no other |
| SyncStatements.RefusalMarks | cpp/database/SalveMetadataManager.cpp:155-163 | a refused push counts one more retry on the row's metadata, which stays deleted if it was and is failed otherwise |
| SyncStatements.AnswerMarks | cpp/database/SalveMetadataManager.cpp:120-127 | a taken answer gives the row's metadata the answered id as entityId and remoteId and the synced status; it fails when that id belongs to another row |
| SyncStatements.ItemIsMarked | cpp/sync/SyncQueueStore.cpp:42-54 | marking an item sets its status, counts one more attempt and changes nothing else of the queue |
| SyncStatements.ItemsAreRenamed | cpp/sync/SyncQueueStore.cpp:56-61 | a rename reaches exactly the queue items of that row and only their entity id |
| SyncStatements.ItemIsRemoved | cpp/sync/SyncQueueStore.cpp:38-40 | a removal leaves exactly the other items, in their order |
| SyncPush.SnapshotIs | cpp/sync/SyncPushPhase.cpp:47-66 | what reading a row comes to, told from the row: missing, unsendable for a blob, deleted or sendable, each if and only if; and the body has every column but the key and the tombstone column, null for null, the boolean, the number or the text for each of these |
| SyncStatements.RemoteIs | cpp/sync/SyncPushPhase.cpp:84-90 | the id an item's requests go to is the remoteId its row's metadata holds, if there is one and it is not empty |
| SyncStatements.PlanIs | cpp/sync/SyncPushPhase.cpp:84-134 | what is done with an item before any request, told from its row and the id the server knows it by: dropped, failed, or sent as a deletion, a patch or a new row with that body |
| SyncPush.FateByStatus | cpp/sync/SyncPushPhase.cpp:136-203 | the fate of an item by the number of the status, for each kind of request: 200 to 299, 404 and all others |
| SyncApplier.LocalCellsCarry | cpp/sync/SyncOperationApplier.cpp:201-209 | the cells taken from an answer are exactly its columns the table has, but for the key, each saying what the answer says; there are none if and only if one of these columns is an array or object |
| SyncArrivals.NewRowIsStored | cpp/sync/SyncOperationApplier.cpp:129-161 | under every strategy a live pulled row whose key is not stored is stored with exactly the answer's cells and marked as synced under the server's id, if and only if the tables accept it |
| SyncArrivals.StoredRowIsUpdated | cpp/sync/SyncOperationApplier.cpp:129-161 | a live pulled row whose key is stored overwrites exactly its cells if the strategy yields (always, never, or unless the stored number is not smaller), and otherwise changes nothing |
| SyncArrivals.GraveIsMarked | cpp/sync/SyncOperationApplier.cpp:113-127 | a pulled tombstone gives a stored row the time of the deletion if the strategy yields, and otherwise, or for a row not stored, changes nothing |
| SyncArrivals.StrangerThrows | cpp/sync/SyncOperationApplier.cpp:26-34 | a pulled row without a key that is text or number throws |
| SyncArrivals.UnreadableRowThrows | cpp/sync/SyncOperationApplier.cpp:134-141 | so does a row that would be written but has an array or object in a column of the table |
| SyncArrivals.PullsArrive | cpp/sync/SyncOperationApplier.cpp:115-132 | under clientWins, over any run of pulled pages of any tables: a row the client did not have is stored if and only if an applied page brought it alive, and as the first such answer said |
| SyncArrivals.SessionArrives | cpp/sync/SyncPullPhase.cpp:48-103 | the same over the pages a whole session applied, whatever the server answered; rows it had are as they were |
| SyncArrivals.AnswerIsTaken | cpp/sync/SyncPullPhase.cpp:54-79 | what an answer to a list request does, whoever gave it: a network error, a status outside 200 to 299, a body that is no array or a last row without a time ends the session; an empty page ends the list; a page is taken, with the cursor one millisecond before its last row, unless it is full and does not move the cursor, when the question is put again with eight times the limit and at most 2000 |
| SyncArrivals.ServerAnswers | packages/salve-db-server/src/rest/resource.ts:73-83 | the reference server answers a list with 200 and its rows in wire form |
| SyncIdentity.LocalWriteKeeps | cpp/database/MigrationEngine.cpp:322-330 | the trigger's metadata upsert keeps localId and entityId unique, changes no id of any row, and makes the written key owned and no other |
| SyncIdentity.PulledKeeps | cpp/database/SalveMetadataManager.cpp:136-153 | the two-target upsert of a pulled row keeps both keys unique, changes no localId, moves no row that is not blocked and makes the pulled key owned |
| SyncIdentity.PulledMovesIff | cpp/database/SalveMetadataManager.cpp:143-147 | without any assumption on ids: a pulled row leaves every existing row where it is stored if and only if its id is an entityId already or no row's localId; otherwise the localId branch re-homes that row |
| SyncIdentity.WriteKeeps | cpp/database/MigrationEngine.cpp:308-379 | a local insert, update or delete with its trigger keeps the whole identity invariant and the ids of every existing row |
| SyncIdentity.ApplyRowKeeps | cpp/sync/SyncOperationApplier.cpp:79-162 | one pulled row keeps the identity invariant, with the row written and its metadata recorded in that order |
| SyncIdentity.RecordKeeps | cpp/sync/SyncOperationApplier.cpp:167-195 | recording an accepted write always succeeds for a row whose metadata is there, and moves exactly that metadata row to the answered id, which no row owned |
| SyncReplace.RewriteIff | cpp/sync/SyncOperationApplier.cpp:197-255 | the rewrite runs to its end if and only if every known column of the answer is a scalar, the new key is free, and the tables accept the rows after the rename, after the echo where it applies and after each cascade statement that changes a row: all told from the database and the answer before it starts |
| SyncIdentity.RewriteFrame | cpp/sync/SyncOperationApplier.cpp:197-255 | a completed rewrite renames exactly one stored key, renames exactly that row's queue snapshots and leaves metadata alone; one that fails midway has not touched the queue |
| SyncIdentity.ReplaceKeeps | cpp/sync/SyncPushPhase.cpp:181-203 | a replace transaction that renames nothing, or frees the row's old name, keeps the invariant and leaves the row with a server id, whether or not it fails after that |
| SyncIdentity.ReplaceKeepsIff | cpp/sync/SyncPushPhase.cpp:190-198 | for an answered create, identity survives if and only if the row's old name is free afterwards, and the queue snapshots stay owned as well if and only if the whole rewrite goes through: both told beforehand |
| SyncIdentity.ReplacedIff | cpp/sync/SyncPushPhase.cpp:190-198 | the answered item of a row is removed as replaced if and only if that condition holds beforehand, otherwise blocked |
| SyncIdentity.BlocksItemIff | cpp/sync/SyncPushPhase.cpp:143-203 | an answer leaves its item BLOCKED if and only if it is a 404 to a create or patch, or an accepted one whose rewrite does not go through |
| SyncIdentity.ReplaceBlocks | cpp/sync/SyncPushPhase.cpp:195-198 | an answered create whose row cannot be renamed disturbs the identity of no row but its own: the invariant holds with that row's two names blocked |
| SyncIdentity.ReceiveKeeps | cpp/sync/SyncPushPhase.cpp:136-203 | every outcome of a request, from network error to accepted write, finished or not, keeps the invariant for the rows it does not strand, changes no localId and loses no server id |
| SyncIdentity.SettleKeeps | cpp/sync/SyncPushPhase.cpp:95-128 | an item settled without a request keeps the invariant, all ids and all rows |
| SyncIdentity.PageKeeps | cpp/sync/SyncPullPhase.cpp:83-88 | a guarded page, applied or rolled back, keeps the invariant, moves no unblocked row and leaves the queue as it was |
| SyncIdentity.AtomKeeps | cpp/sync/SyncPushPhase.cpp:80-204 | every atomic step keeps the invariant, stranding at most the row whose create it answers, and former names of renamed rows are never taken again |
| SyncIdentity.EventsAreAtoms | cpp/sync/SyncPushPhase.cpp:80-204 | whole sessions, with writes landing before and during each request, are made of steps that meet the steps' assumptions: stale snapshots of items stay resolvable |
| SyncIdentity.IdentityForever | cpp/sync/SyncOperationApplier.cpp:167-255 | in every reachable state, for every row not stranded: its stored row is owned by exactly one metadata row, so are its queue items but for those left under the former name of a row whose create was not carried to its end, and its server id is never lost; for all rows localId and entityId are unique per table and localIds never change; the lock is free |
| SyncIdentity.NothingBlockedIff | cpp/sync/SyncPushPhase.cpp:189-198 | a run strands no row if and only if each of its answered creates frees the row's old name; which answers leave an item BLOCKED is BlocksItemIff |
| SyncIdentity.LeftOverIsDropped | cpp/sync/SyncPushPhase.cpp:84-126 | an item read under the former name of a renamed row is removed without a request, whatever it asks for |
| SyncIdentity.EmptyIsSound | cpp/database/MigrationEngine.cpp:88-152 | a fresh database satisfies the invariant |
| SyncDelivery.NamedRowIsAddressed | cpp/sync/SyncPushPhase.cpp:84-90 | once a row has a server id, every later request about it in any run goes to that id, and the id is never lost, unless the row is stranded |
| SyncDelivery.AcknowledgedOnce | cpp/sync/SyncPushPhase.cpp:80-204 | over all runs, for every row not stranded, and so for every row that could be renamed: after an acknowledged POST every later request about the row, in this or a later session, is a PATCH or DELETE on its server id, whatever other rows are stranded |
| SyncDelivery.PostsAgainIff | cpp/sync/SyncPushPhase.cpp:195-198 | after a create that was recorded but not carried to its end, another item of the row read afresh asks for a second POST if and only if the row is there to be sent and a known column of the answer was no scalar or the tables did not accept the rename |
| SyncDelivery.LeftOverFate | cpp/sync/SyncPushPhase.cpp:84-134 | everything such an item can come to: a POST of the row as it is, a failed item for a row that cannot be sent, or a drop |
| SyncDelivery.RenamedEditIsDropped | cpp/sync/SyncPushPhase.cpp:122-126 | if the rename ran and only the echo or the cascade failed, the item is dropped without a request, and the edit it stands for with it |
| SyncDelivery.StaleItemFate | cpp/sync/SyncPushPhase.cpp:84-126 | an item of the row that the session had read before never posts: it goes to the server's id, or is dropped if the row could not be renamed |
| SyncDelivery.StuckReplacePostsTwice | cpp/sync/SyncPushPhase.cpp:195-198 | a concrete run on the inner catch in which the same row is posted twice |
| SyncDelivery.StuckRowIsBlocked | cpp/sync/SyncPushPhase.cpp:195-198 | that run does nothing but strand its row |
| SyncConservation.WriteAddsOne | cpp/database/MigrationEngine.cpp:308-379 | a successful local change of a synced row adds exactly one queue item of the right kind, any other write none |
| SyncConservation.ReceiveAccounts | cpp/sync/SyncPushPhase.cpp:136-203 | a request's outcome changes only the slot of its own item, and as its verdict says, up to renamed entity ids |
| SyncConservation.ReadPendingTakesFirst | cpp/sync/SyncQueueStore.cpp:9-36 | a session takes the first pending or failed items of its table in id order, and leaves one out only when it took the limit |
| SyncConservation.PushItemsStop | cpp/sync/SyncPushPhase.cpp:136-140 | a session goes on to its last item or stops at the first network failure and nowhere else |
| SyncConservation.PushConserves | cpp/sync/SyncPushPhase.cpp:78-206 | at most 200 items; each ends as exactly one of removed, failed, blocked or, at the network failure, untouched; all other items and all added meanwhile are kept |
| SyncConservation.NoSelfEcho | cpp/sync/SyncApplyGuard.cpp:41-51 | over whole runs the lock is free after every event and the number of items ever added equals the number of rows the application changed |
| SyncOutbox.NothingLeavesUnsent | cpp/sync/SyncPushPhase.cpp:78-206 | whatever the run, an item queued at its start is queued at its end, or a turn of the run discharged it: the row of that moment was sent, column by column, and answered 200 to 299; or its deletion was, or was answered 404; or there was no row and no server id to send |
| SyncOutbox.ChangeReachesServer | cpp/database/MigrationEngine.cpp:308-379 | every local change of a synced row is such an item, and the turns that may discharge it come after the change |
| SyncOutbox.TurnDischarges | cpp/sync/SyncPushPhase.cpp:84-203 | a turn takes its item off the queue only in these cases, which speak of stored rows, requests and status numbers only |
| SyncRows.RewriteRow | cpp/sync/SyncOperationApplier.cpp:197-255 | what a rewrite, finished or stopped at any statement, makes of every stored row: its key renamed if it is the answered one, its foreign keys renamed as far as the cascade came, echoed data merged into the answered row only |
| SyncRows.ReplaceLogical | cpp/sync/SyncPushPhase.cpp:190-194 | the effect of a replace, finished or not, on every logical row not stranded: none appears or vanishes, and each takes only references and, if answered, echoed data |
| SyncRows.PageLogical | cpp/sync/SyncOperationApplier.cpp:70-165 | a page reaches an existing logical row only through page rows carrying its current id, each judged by the table's conflict strategy |
| SyncRows.AtomLogical | cpp/sync/SyncPushPhase.cpp:80-204 | the exact effect of every engine step on an existing logical row that the step does not strand |
| SyncConflicts.RowsAreNeverLost | cpp/sync/SyncOperationApplier.cpp:211-217 | the row created as a localId stays stored under the entityId its metadata gives, through any run, until the application deletes it or it is stranded |
| SyncConflicts.LocalEditSurvives | cpp/sync/SyncOperationApplier.cpp:94-159 | under lastWriteWins a local edit keeps its data through any run of pulls and echoes that bring nothing newer, foreign keys aside |
| SyncConflicts.TimesNeverFall | cpp/sync/SyncOperationApplier.cpp:219-249 | a row's conflict time falls only by a local write of it, in any run that carries the compared column |
| SyncConflicts.ClientWinsKeeps | cpp/sync/SyncOperationApplier.cpp:115-132 | under clientWins no run of pulls, of whatever tables, changes an existing row |
| SyncConflicts.EchoWinsIff | cpp/sync/SyncOperationApplier.cpp:220-249 | under every strategy, once rename and echo are accepted: the stored row has the answer's data afterwards if and only if the compared field is a column and neither side has a number that makes the local row newer, or it had the data before; otherwise no cell but self-references changes |
| SyncConflicts.ClientWinsIsOverwritten | cpp/sync/SyncOperationApplier.cpp:219-249 | a concrete clientWins row that an accepted push overwrites with the answer |
| SyncRelations.ReferentFollows | cpp/sync/RelationCascadeRewriter.cpp:9-17 | renaming a parent together with the cells that name it keeps each cell's logical referent, exactly unless the cell already held the fresh id |
| SyncRelations.RewriteKeepsGraphIff | cpp/sync/SyncOperationApplier.cpp:251-254 | one answered row leaves the logical reference graph as it was if and only if nothing referred to the server's id before |
| SyncRelations.ForeignKeysFollow | cpp/sync/RelationCascadeRewriter.cpp:9-17 | over any run of local writes, pages and push sessions of grandparents, parents and children, a foreign key that names a logical parent names the same one at the end, as long as neither is stranded, the parent's create was carried to its end and nothing brought for the child itself changes the cell |
| SyncRelations.AnswerKeepsOtherCells | cpp/sync/RelationCascadeRewriter.cpp:9-17 | no cell other than references to the answered row and the answered row's echoed columns changes, whether the rewrite finishes or not |
| SyncProtocol.StepFits | packages/salve-db-server/src/rest/store.ts:78-109 | answers and pages that come out of the reference server's store meet what the identity results assume of them: a created id is one no client row, stored row or blocked row goes by |
| SyncProtocol.StepIssued | cpp/sync/SyncOperationApplier.cpp:70-255 | every step keeps that each name of the table the client holds, as localId, entityId, remoteId, stored key or queue snapshot, was made locally or belongs to a row of the server |
| SyncProtocol.ServedRunIsSound | packages/salve-db-server/src/rest/resource.ts:73-121 | from an empty client and server, over any run with other clients' writes, lost answers and errors, as long as numeric local ids lie beyond those the server has reached: identity holds without assumptions on server ids, every remoteId names a row of the server, and no two client rows name the same |
| SyncProtocol.ServedOnce | packages/salve-db-server/src/rest/resource.ts:73-121 | and after an acknowledged POST every later request about the row goes to one existing row of the server, unless the row is stranded |
| SyncProtocol.HandleComes | packages/salve-db-server/src/rest/resource.ts:98-133 | the endpoints give the answers the runs above allow: 201 with the created row, 200 with the patched one, 204 without a body for a delete, 404 where there is no live row |
| SyncProtocol.PostedRowArrives | packages/salve-db-server/src/rest/resource.ts:98-105 | a create that is planned and handled leaves the server with one more live row that has the client's data, answered 201 |
| SyncProtocol.PatchedRowArrives | packages/salve-db-server/src/rest/resource.ts:107-122 | a patch that is planned and handled leaves the live row with that id with the client's data, answered 200, and every other row as it was; without a live one it is answered 404 |
| SyncProtocol.DeletedRowIsGone | packages/salve-db-server/src/rest/resource.ts:124-133 | a delete that is handled leaves no live row, is answered 204 or 404, and either way takes the item off the queue as deleted |
| SyncServer.ListIsPrefix | packages/salve-db-server/src/rest/store.ts:59-66 | a list is ordered by change and then id, holds only changes after `since`, and leaves one out only on a full page and only if it came no earlier than the last row listed |
| SyncServer.ServeKeeps | packages/salve-db-server/src/rest/store.ts:37-44 | every write keeps the store sound and strictly raises the tick |
| SyncServer.ServeChanges | packages/salve-db-server/src/rest/store.ts:78-120 | after a write every row is in a version it had before, or in one that changed later than every earlier tick |
| SyncServer.ServeUntied | packages/salve-db-server/src/rest/store.ts:36-46 | no write makes two rows of the store share a change time |
| SyncServer.ResourceStore.AllocateTick | packages/salve-db-server/src/rest/store.ts:37-44 | the tick is later than every one before and not before the clock, and it is the clock itself or the last tick plus one |
| SyncServer.ResourceStore.Create | packages/salve-db-server/src/rest/store.ts:78-92 | appends a live row stamped with the new tick |
| SyncServer.ResourceStore.Update | packages/salve-db-server/src/rest/store.ts:94-109 | patches and restamps the live row with that id, and answers with none if and only if there is no live one |
| SyncServer.ResourceStore.Remove | packages/salve-db-server/src/rest/store.ts:111-120 | stamps the live row as deleted; true if and only if there was one |
| SyncServer.ResourceStore.ListPage | packages/salve-db-server/src/rest/store.ts:59-66 | the page holds changes after `since` in the order they happened, leaves one out only when it is full and none earlier than its last, and carries of a tombstone the id and the time of the delete and nothing else |
| SyncServer.ResourceStore.ServeEach | packages/salve-db-server/src/rest/store.ts:78-120 | a sequence of writes in place equals the specified server state |
| SyncCursor.ListedCandidate | cpp/sync/SyncPullPhase.cpp:22-34 | the candidate read from a listed page is the last row's change minus one millisecond, tombstone or not |
| SyncCursor.PageCovers | cpp/sync/SyncPullPhase.cpp:81-100 | applying a page makes its candidate safe: everything no later was on the page or passed before |
| SyncCursor.NothingIsSkipped | cpp/sync/SyncPullPhase.cpp:48-103 | in every interleaving of server writes and pull sessions, with failures and interruptions, each row whose last change is at or below the cursor has been applied in its current version, and the cursor never moves back |
| SyncCursor.PageAdvancesIff | cpp/sync/SyncPullPhase.cpp:74-78 | a page moves the cursor if and only if something lies beyond the rows tied on the next millisecond and these are fewer than the limit |
| SyncCursor.FetchAdvancesIff | cpp/sync/SyncPullPhase.cpp:54-79 | the escalating fetch moves the cursor if and only if the ties fit under the largest of the four limits |
| SyncCursor.EscalationInNumbers | cpp/sync/SyncPullPhase.cpp:36-37 | the next limit is eight times the last and at most 2000, and four attempts reach 512 times the page size up to three and 2000 from there on |
| SyncCursor.SessionVisits | cpp/sync/SyncPullPhase.cpp:48-103 | a session asks for page after page, each after one that was at least the page size, moved the cursor and was applied; it comes to an orderly end only on an empty page, one shorter than the page size, one that did not move the cursor, or after the last page it may fetch |
| SyncCursor.SessionConverges | cpp/sync/SyncPullPhase.cpp:48-103 | against a quiet server each session strictly lowers the number of changes beyond the cursor's next millisecond until it is zero |
| SyncCursor.QuietSessionsFinish | cpp/sync/SyncPullPhase.cpp:48-103 | as many quiet sessions as changes remain bring the client to the end |
| SyncCursor.QuietSessionFinishes | cpp/sync/SyncPullPhase.cpp:48-103 | one quiet session that comes to an orderly end and may fetch a page for each change that remains leaves nothing beyond the cursor's next millisecond |
| SyncCursor.QuietSessionEnds | cpp/sync/SyncPullPhase.cpp:48-103 | with turns for every attempt and pages the tables accept, a quiet session does come to an orderly end |
| SyncCursor.QuietSessionDrains | cpp/sync/SyncPullPhase.cpp:48-103 | so one such session drains the server |
| SyncCursor.ReferenceServerFinishes | cpp/sync/SyncPullPhase.cpp:48-103 | after any history with an initially empty reference server, failures and cut sessions included, as many quiet sessions as changes remain bring the client to the end, for every page size up to 2000: nothing is assumed of ties |
| SyncMirror.PullMirrors | cpp/sync/SyncOperationApplier.cpp:79-162 | one delivered or re-delivered row, live or tombstone, brings the replica to that row's current version and disturbs no other |
| SyncMirror.ReplicaForever | cpp/sync/SyncPullPhase.cpp:48-103 | over any history a replica holds only versions of the server's rows and reflects all of them up to the cursor |
| SyncMirror.SessionMirrors | cpp/sync/SyncPullPhase.cpp:48-103 | a session that ends on a page shorter than its limit leaves the replica's live rows equal to the server's, under serverWins and lastWriteWins |
| SyncEngine.SyncDatabase.Write | cpp/database/MigrationEngine.cpp:308-379 | the application's writes in order, each failing on its own |
| SyncEngine.SyncDatabase.ReadPending | cpp/sync/SyncQueueStore.cpp:9-36 | the join in id order with its limit equals the specified reading |
| SyncEngine.SyncDatabase.Remove | cpp/sync/SyncQueueStore.cpp:38-40 | an item is in the queue afterwards if and only if it was and has another id; the order of the others is kept |
| SyncEngine.SyncDatabase.MarkFailed | cpp/sync/SyncQueueStore.cpp:42-47 | the item gets the failed status and one more attempt, the row's metadata one more retry and the failed status unless it is deleted; no other item and no other row changes |
| SyncEngine.SyncDatabase.MarkBlocked | cpp/sync/SyncQueueStore.cpp:49-54 | the item gets the blocked status and one more attempt; no other item changes |
| SyncEngine.RewriteRelations | cpp/sync/RelationCascadeRewriter.cpp:9-17 | the loop over relations equals the cascade, stopping where a statement fails |
| SyncEngine.Apply | cpp/sync/SyncOperationApplier.cpp:70-165 | the loop over pulled rows equals the page's specification, ending at the first throw; what one row does is NewRowIsStored, StoredRowIsUpdated, GraveIsMarked and the two throws |
| SyncEngine.ApplyGuarded | cpp/sync/SyncApplyGuard.cpp:41-51 | all of a page under the lock, or the database exactly as before |
| SyncEngine.RewriteLocal | cpp/sync/SyncOperationApplier.cpp:197-255 | step 2 statement by statement equals its specification, keeping what was done before a failure |
| SyncEngine.ReplaceGuarded | cpp/sync/SyncPushPhase.cpp:181-203 | the nested catches: step 1 failing rolls back and blocks, step 2 failing commits and blocks |
| SyncEngine.ReadRowSnapshot | cpp/sync/SyncPushPhase.cpp:47-66 | one pass over the columns yields the snapshot that SnapshotIs describes |
| SyncEngine.PrepareItem | cpp/sync/SyncPushPhase.cpp:84-134 | what is settled without a request and which request is sent otherwise, as PlanIs describes |
| SyncEngine.ReceiveAnswer | cpp/sync/SyncPushPhase.cpp:136-203 | the fate of an item for every outcome, by the numbers of FateByStatus |
| SyncEngine.RunPushPhase | cpp/sync/SyncPushPhase.cpp:70-207 | the whole push loop equals a push session, and its counters count exactly the items replaced, deleted and failed |
| SyncEngine.FetchPage | cpp/sync/SyncPullPhase.cpp:54-79 | the escalation loop equals the specified fetch, whose answers AnswerIsTaken describes |
| SyncEngine.RunPullPhase | cpp/sync/SyncPullPhase.cpp:41-106 | the whole pull loop equals a pull session: server, database, saved cursor and rows applied; when it goes on and when it ends is SessionVisits |
| ConditionCompiler.CompileCondition | src/database/classes/QueryDb/library/compileCondition.ts:4-60 | returns the condition's text and appends exactly its values, in order, to the caller's array |
| ConditionCompiler.LexCompiled | src/database/classes/QueryDb/library/compileCondition.ts:4-60 | the compiled characters lex to the condition's tokens whatever ends the text |
| ConditionCompiler.BindTokens | src/database/classes/QueryDb/library/compileCondition.ts:29-32 | binding the placeholders left to right to the pushed values gives each its own value, with none left over |
| ConditionCompiler.BoundParses | src/database/classes/QueryDb/library/compileCondition.ts:40-59 | a precedence parser rebuilds the condition's tree: the brackets are enough in every nesting |
| ConditionCompiler.TreeMeans | src/database/classes/QueryDb/library/compileCondition.ts:40-59 | the left-leaning tree of a chain has the three-valued meaning of the condition, empty and single lists included |
| ConditionCompiler.CompiledMeans | src/database/classes/QueryDb/library/compileCondition.ts:4-60 | for every condition the text read back with its parameters means what the condition means, in every row |
| Sql.NumbersCompare | src/database/classes/QueryDb/library/compileCondition.ts:4-60 | the six comparisons as the reading evaluates them: on numbers as numbers, and open when either side is NULL |
| Sql.TruthTables | src/database/classes/QueryDb/library/compileCondition.ts:40-59 | AND, OR and NOT of the reading: least, greatest and reverse of three truth values |
| QueryBuilders.CheckIndexed | src/database/classes/QueryDb/library/assertIndexedColumns.ts:3-15 | passes if and only if every column is the primary key or leads an index |
| QueryBuilders.NamesAreColumns | src/database/classes/QueryDb/library/collectConditionColumns.ts:3-24 | the columns collected from a condition are exactly the names in its compiled text, at every depth and under NOT |
| QueryBuilders.SelectableIff | src/database/classes/QueryDb/classes/SelectQueryBuilder/SelectQueryBuilder.class.ts:46-58 | a select is sent if and only if its limit is 0 to 500 and every column that its order or its condition's text names is the primary key or leads an index |
| QueryBuilders.FilterableIff | src/database/classes/QueryDb/classes/UpdateQueryBuilder/UpdateQueryBuilder.class.ts:37-39 | the same of the condition of an update or delete |
| QueryBuilders.CompiledNotEmpty | src/database/classes/QueryDb/classes/SelectQueryBuilder/SelectQueryBuilder.class.ts:63-64 | a compiled condition is never the empty text, which would drop it from the query |
| QueryBuilders.SelectQueryBuilder.Execute | src/database/classes/QueryDb/classes/SelectQueryBuilder/SelectQueryBuilder.class.ts:46-76 | sends the statement if and only if the limit is in range and every column is indexed |
| QueryBuilders.SelectMeans | src/database/classes/QueryDb/classes/SelectQueryBuilder/SelectQueryBuilder.class.ts:60-74 | read by the engine the statement selects exactly the live rows for which the condition is true, in the order and window asked for |
| QueryBuilders.UpdateQueryBuilder.Execute | src/database/classes/QueryDb/classes/UpdateQueryBuilder/UpdateQueryBuilder.class.ts:32-55 | sends the statement if and only if something is patched and the condition's columns are indexed, with SET values before WHERE values |
| QueryBuilders.UpdateMeans | src/database/classes/QueryDb/classes/UpdateQueryBuilder/UpdateQueryBuilder.class.ts:41-55 | read by the engine each patched column gets its own value, missing ones NULL, and the filter has the condition's meaning |
| QueryBuilders.DeleteQueryBuilder.Execute | src/database/classes/QueryDb/classes/DeleteQueryBuilder/DeleteQueryBuilder.class.ts:25-37 | sends the stamping update if and only if the condition's columns are indexed |
| QueryBuilders.DeleteMeans | src/database/classes/QueryDb/classes/DeleteQueryBuilder/DeleteQueryBuilder.class.ts:30-37 | a row is stamped as deleted if and only if the condition is true of it |
| OrderedMap.PutIsAssignment | cpp/database/OrderedMap.hpp:29-34 | after an assignment the key looks up to the new value and every other key to what it did |
| OrderedMap.PutKeepsOrder | cpp/database/OrderedMap.hpp:29-34 | an old key keeps its place, a new key goes last |
| OrderedMap.Ordered.Find | cpp/database/OrderedMap.hpp:42-47 | the first position of a key |
| OrderedMap.Ordered.Assign | cpp/database/OrderedMap.hpp:29-34 | the entries become those of the assignment |
| JsonText.Parser.ParseString | cpp/database/json_parser.hpp:100-124 | consumes and decodes exactly what the specification reads, escapes included |
| JsonText.Parser.ParseNumber | cpp/database/json_parser.hpp:126-140 | consumes the longest number shape and converts it to the exact number it denotes, failing on shapes stod cannot convert |
| JsonText.Parser.ParseValue | cpp/database/json_parser.hpp:142-153 | the position and value the grammar's specification gives, or failure exactly where it fails |
| JsonText.Parser.ParseObject | cpp/database/json_parser.hpp:155-172 | members in order, a repeated key replacing its value in place |
| JsonText.Parser.ParseArray | cpp/database/json_parser.hpp:174-187 | items in order up to the closing bracket |
| JsonText.ParseText | cpp/database/json_parser.hpp:192-201 | parsing a text from its start |
| JsonText.StringifyString | cpp/database/json_parser.hpp:205-227 | appends the escaped string in quotes |
| JsonText.StringifyValue | cpp/database/json_parser.hpp:240-270 | appends exactly the printed value to the stream |
| JsonText.Stringify | cpp/database/json_parser.hpp:275-279 | the printed value |
| JsonText.PrintedReads | cpp/database/json_parser.hpp:142-187 | parsing printed text gives the value with each unescapable control character turned into five characters, at any depth |
| JsonText.RoundTripIff | cpp/database/json_parser.hpp:205-279 | parse after stringify is the identity, key order kept, if and only if no string or key has a control character other than the five with their own escape |
| JsonText.ReadIsProper | cpp/database/json_parser.hpp:155-172 | every object the parser builds, from any text, has distinct keys |
| JsonText.ReprintedReads | cpp/database/json_parser.hpp:199-201 | a parsed value printed and parsed again is the same value under the same condition |
| JsonText.EscapedCharacter | cpp/database/json_parser.hpp:205-227 | how each byte stands in a printed string: quote and backslash after a backslash, five controls as a letter, the others as a four-digit number, the rest as they are |
| JsonText.WholeNumberPrints | cpp/database/json_parser.hpp:229-238 | a whole number below 10^15 in size is printed as its decimal digits |
| JsonText.WideNumberPrints | cpp/database/json_parser.hpp:229-238 | every other number goes through the library |
| JsonGrammar.DocReads | cpp/database/json_parser.hpp:142-187 | a document of the grammar, wherever it stands in a text, is read as the value it means, up to its end |
| JsonGrammar.ToNumberIs | cpp/database/json_parser.hpp:126-140 | a number is its whole digits plus its fraction digits over their power of ten, times ten to its exponent, with its sign |
| JsonGrammar.ParsesIff | cpp/database/json_parser.hpp:83-201 | of any text at all: the parser gives a value if and only if the text begins, after white space, with a document of the grammar that means it, or ends in the middle of a name; what follows is not looked at |
| JsonGrammar.StandardParses | cpp/database/json_parser.hpp:83-201 | every text of RFC 8259 without escapes by code unit parses to what it means |
| PercentEncoding.EncodeSegment | cpp/http/HttpUrlBuilder.cpp:42-56 | the loop appends each byte as itself or as an escape |
| PercentEncoding.DecodesIff | cpp/http/UrlTemplate.cpp:113-120 | a text can be decoded if and only if every percent sign starts a complete hex escape |
| PercentEncoding.EncodeDecodes | cpp/http/HttpUrlBuilder.cpp:42-56 | percent-decoding undoes the encoding of every byte string |
| PercentEncoding.EncodeAlphabet | cpp/http/HttpUrlBuilder.cpp:7-10 | an encoded segment holds only unreserved characters and complete escapes |
| PercentEncoding.EncodeAcross | cpp/http/HttpUrlBuilder.cpp:42-56 | encoding goes byte by byte |
| PercentEncoding.EncodedCharacter | cpp/http/HttpUrlBuilder.cpp:7-10 | letters, digits and four marks stay, any other byte becomes a percent sign and its two upper-case hex digits |
| PercentEncoding.EscapeDecodes | cpp/http/UrlTemplate.cpp:47-49 | an escape is read in either case of its digits as sixteen times the first plus the second, and with any other character it is none |
| UrlTemplate.LexedSpells | cpp/http/UrlTemplate.cpp:64-127 | accepted text is spelled by its segments, which are canonical: legal, not empty, never two literals in a row, known tokens only |
| UrlTemplate.CanonicalLexes | cpp/http/UrlTemplate.cpp:64-127 | lexing the spelling of any canonical segments gives those segments |
| UrlTemplate.ParsedIff | cpp/http/UrlTemplate.cpp:52-128 | a text parses into given segments if and only if they spell it, no two literals stand side by side, each literal holds printable ASCII but for five characters with complete escapes only, and each variable is one of the two or three of its context |
| UrlTemplate.PlainTextParses | cpp/http/UrlTemplate.cpp:34-45 | printable ASCII without the five characters, braces and percent signs is one literal, in either kind of template |
| UrlTemplate.OthersAreRejected | cpp/http/UrlTemplate.cpp:34-45 | a text that holds one of the five characters or one that is no printable ASCII, wherever it stands, is rejected |
| UrlTemplate.TwoParametersParse | cpp/http/UrlTemplate.cpp:52-128 | the documented query of two parameters parses into its four segments |
| UrlTemplate.ItemPathParses | cpp/sync/SyncContract.cpp:83-85 | the default item path parses into base path, slash and id |
| UrlTemplate.Template.Parse | cpp/http/UrlTemplate.cpp:52-128 | the lexing loop accepts exactly the specified texts with the specified segments: those of ParsedIff, whose characters and variables are listed without the lexer |
| UrlTemplate.Template.Render | cpp/http/UrlTemplate.cpp:130-151 | the rendering loop, failing on an unparsed template or a missing variable |
| UrlTemplate.SpacedIs | cpp/http/UrlTemplate.cpp:137-144 | in a literal each space becomes %20 and nothing else changes |
| UrlTemplate.ItemPathRenders | cpp/http/UrlTemplate.cpp:147-148 | an item path renders as its base path untouched, the text between, and the id encoded |
| UrlTemplate.TwoPairsRender | cpp/http/UrlTemplate.cpp:130-151 | a query of two pairs renders as its texts with the values encoded, and fails if a value is missing |
| UrlTemplate.ListQueryDelivers | cpp/http/UrlTemplate.cpp:106-150 | a rendered list query is printable ASCII without space, quotes, angle brackets, backtick or hash, its escapes are complete, and decoding it yields the decoded literals with the values in place |
| UrlTemplate.ItemPathIsSendable | cpp/http/UrlTemplate.cpp:147-148 | a rendered item path can be sent whenever its base path can |
| StatementCache.UseIsSound | cpp/database/SQLiteConnection.cpp:97-118 | a use keeps the cache sound, returns a live handle made from exactly the text asked for, and fails only on a miss |
| StatementCache.RunsAreSound | cpp/database/SQLiteConnection.cpp:97-126 | in every run at most one hundred entries, texts unique, and the live handles exactly the cached ones |
| StatementCache.FailedPrepareKeepsIff | cpp/database/SQLiteConnection.cpp:105-112 | a failed prepare leaves the contents alone if and only if the cache was not full, and otherwise costs exactly the oldest entry |
| StatementCache.CacheIsMostRecent | cpp/database/SQLiteConnection.cpp:97-126 | without failures the contents are exactly the hundred most recently used texts in order of use, and the prepare count is the number of misses |
| StatementCache.Statements.GetOrPrepare | cpp/database/SQLiteConnection.cpp:97-118 | list and map stay in agreement and the result is the specified use |
| StatementCache.Statements.EvictLRU | cpp/database/SQLiteConnection.cpp:120-126 | drops the last entry from list and map and finalizes its handle |
| StatementCache.Statements.Close | cpp/database/SQLiteConnection.cpp:79-83 | no handle is left alive |
| ChangeNotifications.NotifiedIff | cpp/database/SQLiteConnection.cpp:229-250 | in any run, transaction statements as text included, every committed write has been notified by the end of its statement or commit, if and only if none was committed while the connection believed in a transaction that was not the engine's |
| ChangeNotifications.StuckIff | cpp/database/SQLiteConnection.cpp:234-259 | the connection waits for a transaction the engine no longer has if and only if the engine ended one otherwise than by `commit` or `rollback` and no BEGIN was executed as text since |
| ChangeNotifications.StuckNeverNotifies | cpp/database/SQLiteConnection.cpp:230-259 | from then on, whatever is called but a BEGIN as text, nothing is notified and what is owed stays owed |
| ChangeNotifications.WayOut | cpp/database/SQLiteConnection.cpp:244-259 | BEGIN as text and then `commit` notifies everything gathered; with `rollback` instead it is forgotten and stays owed |
| ChangeNotifications.NothingOwed | cpp/database/SQLiteConnection.cpp:229-250 | a connection that is never stuck never owes a notification after any step |
| ChangeNotifications.AbandonedWriteIsLost | cpp/database/SQLiteConnection.cpp:252-259 | a concrete run in which a committed write is never notified |
| ChangeNotifications.SentAsExpected | cpp/database/SQLiteConnection.cpp:229-259 | in every run in which connection and engine agree on whether there is a transaction, failing calls included: one notification a commit, listing the tables committed and those of the statements that failed since the last flush or rollback |
| ChangeNotifications.InStepIff | cpp/database/SQLiteConnection.cpp:230-259 | they agree throughout if and only if no engine rollback and no transaction statement as text begins or ends one behind the connection's back |
| ChangeNotifications.OwnTablesIff | cpp/database/SQLiteConnection.cpp:225-259 | the notifications list exactly what each commit wrote if and only if no commit finds a table that a failed statement left behind and that it did not write |
| ChangeNotifications.OnlyCommittedIsSent | cpp/database/SQLiteConnection.cpp:252-259 | in such a run the notifications are commit by commit the tables committed if and only if no commit finds such a table, and then a table is notified if and only if a write to it was committed |
| ChangeNotifications.SmoothRuns | cpp/database/SQLiteConnection.cpp:229-259 | runs in which no call fails and no transaction statement is sent as text are such runs, and no commit in them finds anything left behind |
| ChangeNotifications.FailedWriteIsNotifiedLater | cpp/database/SQLiteConnection.cpp:225-230 | the smallest run that meets one: a failed statement, then another table's write |
| ChangeNotifications.SubscriberHearsAll | cpp/database/SQLiteConnection.cpp:278-309 | a subscriber receives exactly the notifications sent since it subscribed, in order |
| ChangeNotifications.SubscriptionHears | cpp/database/SQLiteConnection.cpp:278-309 | in any run a subscription gets an id nobody had, its inbox is exactly what was sent since, and after its end there is none |
| ChangeNotifications.Connection.FlushChangeNotifications | cpp/database/SQLiteConnection.cpp:278-297 | every subscriber gets the gathered tables once and the set is emptied |
| ChangeNotifications.Connection.Execute | cpp/database/SQLiteConnection.cpp:128-232 | the bookkeeping of a statement, throwing or not |
| ChangeNotifications.Connection.ExecuteControl | cpp/database/SQLiteConnection.cpp:128-232 | a transaction statement as text: the engine obeys or refuses, the connection's flag stays, and a flush follows only without the flag |
| ChangeNotifications.Connection.BeginTransaction | cpp/database/SQLiteConnection.cpp:234-242 | refuses to nest; otherwise both sides have a transaction |
| ChangeNotifications.Connection.CommitTransaction | cpp/database/SQLiteConnection.cpp:244-250 | a successful commit flushes, a failed one changes nothing on this side |
| ChangeNotifications.Connection.RollbackTransaction | cpp/database/SQLiteConnection.cpp:252-259 | a successful rollback discards the gathered tables |
| SyncTrigger.EveryScheduleKeeps | src/sync/library/syncTrigger.ts:14-57 | in every schedule dispatches of a schema under one registration are five seconds apart even if the clock goes back and never overlap, no sync is triggered for an old registration, and the in-flight marks are exactly the unfinished dispatches of the current one |
| SyncTrigger.StepKeeps | src/sync/library/syncTrigger.ts:14-57 | each registration, request, deferred tick and completion keeps these facts |
| SyncTrigger.AcceptedIff | src/sync/library/syncTrigger.ts:29-37 | a request starts a sync if and only if every dispatch of this registration for the schema has finished and lies five seconds back |
| SyncTrigger.FiresIff | src/sync/library/syncTrigger.ts:43-50 | a deferred tick calls the native side, once and on the bridge of its dispatch, if and only if its task still waits and its registration is current |
| SyncTrigger.DispatchGoesThrough | src/sync/library/syncTrigger.ts:29-57 | an accepted request is recorded, calls the native side once when its tick runs, blocks the schema until its end, and leaves it free from five seconds after its beginning on |
| SyncTrigger.OvertakenDispatchIsSkipped | src/sync/library/syncTrigger.ts:43-56 | a dispatch whose registration is replaced before its tick calls nothing and leaves no mark |
| SyncTrigger.OldTasksTouchNothing | src/sync/library/syncTrigger.ts:43-56 | whatever old dispatches still do, marks, times and triggers of the new registration stay as they are |
| SyncTrigger.RegistrationForgets | src/sync/library/syncTrigger.ts:14-19 | after a new registration any schema may be dispatched at once |
| SyncTrigger.Trigger.RegisterSyncBridge | src/sync/library/syncTrigger.ts:14-19 | a new token, and throttle and in-flight state cleared |
| SyncTrigger.Trigger.DispatchSync | src/sync/library/syncTrigger.ts:29-47 | records the attempt and queues a deferred task, or does nothing |
| SyncTrigger.Trigger.RunDeferredTask | src/sync/library/syncTrigger.ts:44-50 | calls the native side if and only if the registration is still the one that dispatched it |
| SyncTrigger.Trigger.CompleteTask | src/sync/library/syncTrigger.ts:54-56 | clears the mark only for a task of the current registration |

## Left out

- Real SQLite, Postgres, HTTP, JNI, Keychain and generated glue: abstract tables, atomic transactions and arbitrary answers stand for them.
- Statement-level interleaving inside a guarded transaction: a bypass transaction is one step.
- Column constraints are one predicate over all tables; DEFAULT values, type affinity and the two id types are one text id.
- Timestamps of bookkeeping (`syncedAt`, `createdAt`, metadata `updatedAt`), queue payloads, error texts and `confirmDeleted`, which writes only such a timestamp.
- Counters of inserted, updated and deleted rows of a pull, and log lines.
- The saved cursor as text: an unparseable one restarts at zero in the source.
- The reference server's REST layer: it clamps a list limit to `maxLimit` and answers malformed requests with 400; a page here is cut by the limit asked for, and requests are well formed.
- Retries and token refresh in the HTTP requester: each request has one final outcome.
- Migrations, backfill of old rows, configuration, credentials, background scheduling, caches and hooks: glue or single-branch claims.
- A page size above 2000, for which the escalation shrinks the limit: excluded from the convergence results only.
- JSON numbers that are not whole or reach 1e15 in magnitude: their text is an arbitrary function, so nothing is claimed of their round trip.
- JsonText.Parser.ParseNumber: the number is exact, so the rounding of stod and its throw on overflow are not modelled.
- Column names with a double quote: the compiler inserts names unescaped, so the compiler theorems assume there is none.
- Limits and offsets of the query builders are whole numbers; the mapping of result rows to objects is not modelled.
- Base URL joining and the leading question mark of a query: easy string cases.
- `INSERT OR FAIL`, savepoints and several statements in one text in the notification model: a failed statement leaves no change behind.
- SyncProtocol.ServedRunIsSound: one table syncs with the reference server; a server that answers without an id is covered by the results of `SyncIdentity` only.
- Callbacks of subscribers that call back into the connection.
- SyncConservation.NoSelfEcho: counts the items ever added by their ids, as autoincrement assigns them, rather than rows present.
