# A verified model of the messaging client and its administration

This project models, in Dafny, the parts of the system whose correctness depends on order, concurrency or nesting, and
proves what they guarantee.

**Group retention and the chat store.** A group's history before a boundary is gone. The client learns boundaries from
the server, keeps them per account in durable storage, and must never show an older message again, whatever arrives
late. `RetentionTable` holds the pure rules for one row, `RetentionProtocol` the steps between two awaits together with
requests in flight and storage, `RetentionFence` the theorems over all runs, `RetentionEffects` what each step brings
about and that a restart finds what memory held, and `RetentionSync` the object with its maps and loops. `ChatModel` describes the three caches of the chat store (message lists, raw messages, conversation
rows) and the code between two awaits; `ChatInvariants` and `ChatWriters` show what every writer keeps, `ChatPrune`
joins the store to the retention client, `ChatRuns` is the machine in which operations that await leave continuations
with the values they captured, `ChatFence` looks at logouts, `ChatHistory` at what a reload and a preview keep, and
`ChatStore` is the store with its loops. `RefreshLoop` is the reload after a server sync.
`ChatEffects`, `ChatRowEffects`, `ChatActionEffects`, `ChatDelivery` and `ChatAnswers` say what each operation and each
answer brings about in the rooms and rows, and what stays as it was.

**Forwarding.** `Json` models JSON values; parsing, printing, numeric and textual coercion, trimming and the test for an
http(s) address are parameters about which `Lawful` states the few facts used (parsing undoes printing, trimming twice
is trimming once, an integer is its own numeric value). `ForwardSnapshot` builds the snapshot of a message and writes it
back, recursively through quotes and merges. `SnapshotWriting`, `SnapshotMedia`, `SnapshotTree` and `SnapshotStability`
prove when freezing twice is freezing once; `SnapshotShape` proves the depth bound and what is emptied at every level,
`SnapshotAddresses` when the addresses are remote, `SnapshotContent`, `SnapshotReading`, `SnapshotMessages` and
`SnapshotNesting` which messages can be frozen and what their snapshots say, type by type. `LawfulRuntime` gives a
printer and a parser that meet the laws. `ForwardTargets` is the filling of a task with targets.

**Administration.** `LastSuperAdmin` models each query of a request as a step of its own, `AdminRequests` what a served
request writes and who may hand out the role, `RbacService` the requests as the service runs them. `Reports` models report handling with the read and the version-checked write as separate steps
(no row lock is assumed) and the automatic ban, `ReportRules` the table of transitions, `ReportService` the same
operations in sequence. `LoginHistory` says
what the login limiter promises in terms of the full history of failures, `LoginLimiter` is the limiter with its slices.
`FilterWhere` and `ListQueries` compile search filters to numbered placeholders.

Methods and classes stand for code that updates variables or objects step by step; each is proved against a function,
and the theorems are about those functions.

## Where the code does less than one might expect

Each item is a lemma with the exact condition or a concrete case.

- A stored row with boundary or revision 0 counts as valid (`RowRoundTrip`).
- An unreadable storage is taken for an empty one, and the next accepted response replaces what is stored
  (`SafeExactlyWhenReadable`).
- A chat store that is not subscribed keeps messages that a response hides (`SafeExactlyWhenSubscribed`), and a run
  from a fresh start reaches such a store (`LateRunDisagrees`).
- Only send callbacks are fenced against a logout; late history pages and image previews are not
  (`FencedExactlySends`).
- A text message without its element whose stored content is some other JSON object, or text of one, is not stable
  under freezing (`StableExactlyWhenSettled`).
- A voice or file message known only by a path of the device is frozen with that path as its address
  (`LocalVoiceIsFrozen`), and the addresses of pictures are not looked at (`LocalPictureUrl`);
  `RemoteExactlyWhenOffered` says exactly when no address is local.
- Negative content types are accepted (`PositiveExactlyWhenDeclared`).
- An update with a status other than `active` and `disabled` is not seen by the guard of the last super administrator
  (`SerialLossExactly`), three demotions at once can pass it (`ThreeDemotionsEmptyTheSystem`), and so can two
  when a demotion of an account that was promoted since is still to be written (`StaleDemotionBeatsTheGuard`).
- A message that arrives while a history page is awaited is lost from the list unless the page has it
  (`ShownAfterReload`).
- Failures recorded between the end of a lock and the next question about it are forgotten (`LateQuestionForgets`).
- The decimal text of the most negative integer is `-` (`ItoaDecodes`); no caller comes near it.

## Model

| member | source | states |
|---|---|---|
| RetentionTable.RowRoundTrip | IM-APP-fronend/src/utils/groupRetention.ts:24-30 | a row survives being written as plain data and validated again exactly when its numbers are safe integers and its id is a group id (a boundary or revision of 0 passes) |
| RetentionTable.MergeAllExtends | IM-APP-fronend/src/utils/groupRetention.ts:72-77 | for arbitrary rows both components only grow, so a message that was removed stays removed until the owner changes |
| RetentionTable.ConvergesToNewest | IM-APP-fronend/src/utils/groupRetention.ts:72-77 | rows in which a higher revision never has a lower boundary end, in any order and with any repetition, at the maximum of each conversation |
| RetentionTable.OrderIndependent | IM-APP-fronend/src/utils/groupRetention.ts:72-77 | two histories of the same coherent rows end in the same table |
| RetentionTable.PairCommutes | IM-APP-fronend/src/utils/groupRetention.ts:72-77 | for two rows the order is irrelevant if and only if they are coherent |
| RetentionTable.UnreadCountsVisible | IM-APP-fronend/src/utils/groupRetention.ts:85-90 | with boundary and latest number known, the cap is the number of visible messages among the last `count` |
| RetentionTable.UnreadAntitone | IM-APP-fronend/src/utils/groupRetention.ts:81-96 | the cap never rises with the boundary, never exceeds the count of the SDK, and is 0 when the latest message is removed |
| RetentionProtocol.ReloadReproduces | IM-APP-fronend/src/utils/groupRetention.ts:54-68 | reading back the list that was written gives the same boundaries in the same insertion order |
| RetentionProtocol.PutAllTable | IM-APP-fronend/src/utils/groupRetention.ts:125-136 | merging into the insertion-ordered map changes the table as merging into the table does |
| RetentionFence.RunKeeps | IM-APP-fronend/src/utils/groupRetention.ts:54-150 | the ownership, log, storage and durability invariant holds in every state of every run of owner changes, requests, answers and completions |
| RetentionFence.OwnerFence | IM-APP-fronend/src/utils/groupRetention.ts:54-68 | in every reachable state each boundary in memory was read from the owner's storage or requested after the owner was last set, and each stored row was obtained for the account it is stored under (A, B, A included) |
| RetentionFence.StaleTaskIsInert | IM-APP-fronend/src/utils/groupRetention.ts:117-147 | an answer to a request from before the latest owner change changes neither memory nor storage, and its completion leaves a newer request registered |
| RetentionFence.AllOrNothing | IM-APP-fronend/src/utils/groupRetention.ts:120-137 | an answer is merged whole exactly when it is current and every row is valid, requested and unrepeated; otherwise nothing changes |
| RetentionFence.DiskAfter | IM-APP-fronend/src/utils/groupRetention.ts:138-142 | storage changes only to the present owner's whole table, which extends the one before |
| RetentionFence.AnswerWrites | IM-APP-fronend/src/utils/groupRetention.ts:131-142 | an answer after which the index in memory differs reaches storage when the write succeeds |
| RetentionFence.WriteThenReload | IM-APP-fronend/src/utils/groupRetention.ts:54-68 | after such a write, clearing the owner and setting it again reproduces the same boundaries in the same order |
| RetentionFence.StoredNeverRegresses | IM-APP-fronend/src/utils/groupRetention.ts:39-42 | as long as storage is readable whenever an owner is set, no run lowers a stored boundary |
| RetentionFence.SafeExactlyWhenReadable | IM-APP-fronend/src/utils/groupRetention.ts:62-67 | setting an owner and storing the next answer loses no stored boundary, whatever the answer, if and only if its storage could be read or held none |
| RetentionProtocol.StoredExactlyWhenMoved | IM-APP-fronend/src/utils/groupRetention.ts:131-135 | some row is taken if and only if the table is another one afterwards, for arbitrary rows |
| RetentionEffects.RestartFindsMemory | IM-APP-fronend/src/utils/groupRetention.ts:54-142 | main result: as long as storage works, after every run of owner changes, requests, answers and completions the stored list loads to exactly the index in memory, in order, so a restart loses nothing that an answer moved |
| RetentionEffects.WrittenExactlyWhenMoved | IM-APP-fronend/src/utils/groupRetention.ts:131-142 | storage changes if and only if the write succeeds and some row in memory changed, and then holds the whole index under the present owner |
| RetentionEffects.AnnouncedExactly | IM-APP-fronend/src/utils/groupRetention.ts:130-145 | the announced conversations are exactly those that are new or whose boundary is higher afterwards |
| RetentionEffects.EachRowDecided | IM-APP-fronend/src/utils/groupRetention.ts:72-77 | each row of an answer replaces what was known exactly when that is missing, or has a lower revision and no higher boundary; conversations not named stay |
| RetentionEffects.AskedAgainAfterFifteenSeconds | IM-APP-fronend/src/utils/groupRetention.ts:105-110 | a usable answer settles its conversations for fifteen seconds, any other answer leaves them due |
| RetentionEffects.OneRequestPerBatch | IM-APP-fronend/src/utils/groupRetention.ts:113-118 | a batch in flight is not sent again, any other is sent and registered |
| RetentionEffects.SettledIsAskedAgain | IM-APP-fronend/src/utils/groupRetention.ts:147-150 | after its completion a batch is no longer registered and is sent anew, the other registrations stay |
| RetentionEffects.AccountStartsFromStorage | IM-APP-fronend/src/utils/groupRetention.ts:54-68 | a new account starts with its own storage, nothing in flight and every conversation due; a name that is not legal has no boundaries |
| RetentionEffects.RemovedExactly | IM-APP-fronend/src/utils/groupRetention.ts:92-96 | a message is removed if and only if its group has a boundary above its number; without a number it never is |
| RetentionEffects.GroupIdExactly | IM-APP-fronend/src/utils/groupRetention.ts:8-10 | the ids of retention groups are sg_ and 32 lower-case hexadecimal digits |
| RetentionEffects.SequenceNumberRead | IM-APP-fronend/src/utils/groupRetention.ts:12-22 | a number up to 2^53 - 1, or its digits, is read back under either spelling, and a larger one is not |
| RetentionSync.GroupRetentionSync.constructor | IM-APP-fronend/src/utils/groupRetention.ts:43-52 | starts as the protocol's empty client |
| RetentionSync.GroupRetentionSync.MergeRow | IM-APP-fronend/src/utils/groupRetention.ts:72-77 | the maps after merging are the specification's, and the result says whether the boundary moved |
| RetentionSync.GroupRetentionSync.SetOwner | IM-APP-fronend/src/utils/groupRetention.ts:54-68 | owner change refines SwitchOwner: maps cleared, generation advanced, only valid stored rows merged |
| RetentionSync.GroupRetentionSync.Batch | IM-APP-fronend/src/utils/groupRetention.ts:113-118 | joins the request in flight for the same ids or registers a new one |
| RetentionSync.GroupRetentionSync.CheckRows | IM-APP-fronend/src/utils/groupRetention.ts:121-129 | the checking loop accepts exactly the acceptable responses |
| RetentionSync.GroupRetentionSync.MergeRows | IM-APP-fronend/src/utils/groupRetention.ts:130-136 | the commit loop announces the moved boundaries and reports whether the states changed |
| RetentionSync.GroupRetentionSync.Answer | IM-APP-fronend/src/utils/groupRetention.ts:120-145 | refines Answered: merged table and fetch times, the ids announced, and the whole list written out exactly when a state changed |
| RetentionSync.GroupRetentionSync.Settle | IM-APP-fronend/src/utils/groupRetention.ts:147-147 | removes the registration only if it is still this request's own |
| RetentionSync.InsertSorted | IM-APP-fronend/src/utils/groupRetention.ts:108-109 | inserting into a strictly sorted list keeps it strictly sorted with exactly one more element |
| RetentionSync.Wanted | IM-APP-fronend/src/utils/groupRetention.ts:108-109 | the wanted ids are exactly the due group ids, each once, sorted |
| RetentionSync.SendBatches | IM-APP-fronend/src/utils/groupRetention.ts:110-110 | what is sent is a prefix of the slices of 50, cut off only by a change of generation |
| RetentionSync.UndisturbedSyncCoversAll | IM-APP-fronend/src/utils/groupRetention.ts:105-111 | without such a change each wanted id is sent exactly once, at most 50 per batch |
| ChatInvariants.ReplacedExactly | IM-APP-fronend/src/stores/chat.ts:1548-1572 | after replaceMessage the delivered id occurs exactly once, the temporary id not at all, and the other entries keep their order, even if the placeholder was dropped before |
| ChatInvariants.ReplacedTidy | IM-APP-fronend/src/stores/chat.ts:1548-1572 | a list without repeated ids stays so through the replacement |
| ChatInvariants.MergedTidy | IM-APP-fronend/src/stores/chat.ts:1166-1176 | history plus the local messages it lacks repeats no id |
| ChatWriters.AppendKeeps | IM-APP-fronend/src/stores/chat.ts:500-572 | an incoming message keeps tombstone agreement, distinct ids and the absence of exited groups |
| ChatWriters.UpsertKeeps | IM-APP-fronend/src/stores/chat.ts:691-761 | so do conversation events with their choice of the newer preview |
| ChatWriters.ListArrivedKeeps | IM-APP-fronend/src/stores/chat.ts:863-913 | so does the reloaded conversation list |
| ChatWriters.ReplaceKeeps | IM-APP-fronend/src/stores/chat.ts:1548-1572 | so does replacing a message |
| ChatWriters.LoadedKeeps | IM-APP-fronend/src/stores/chat.ts:1132-1163 | so does a history page written over the list captured before the await (ids distinct when the page repeats nothing) |
| ChatWriters.LoadedMoreKeeps | IM-APP-fronend/src/stores/chat.ts:1179-1216 | so does a page of older messages put in front of the captured list |
| ChatWriters.LocatedKeeps | IM-APP-fronend/src/stores/chat.ts:1218-1260 | so does a page loaded while looking for a message |
| ChatWriters.MarkedReadKeeps | IM-APP-fronend/src/stores/chat.ts:1262-1290 | so does marking as read |
| ChatWriters.ClearedKeeps | IM-APP-fronend/src/stores/chat.ts:1298-1315 | so does clearing the history |
| ChatWriters.ExitedKeeps | IM-APP-fronend/src/stores/chat.ts:1389-1411 | so does removing an exited group |
| ChatWriters.AllowedKeeps | IM-APP-fronend/src/stores/chat.ts:1350-1366 | so does letting a group back in |
| ChatWriters.RevokedKeeps | IM-APP-fronend/src/stores/chat.ts:763-778 | so does a revocation |
| ChatWriters.RemovedLocalKeeps | IM-APP-fronend/src/stores/chat.ts:1826-1836 | so does a local deletion |
| ChatWriters.LeftRoomKeeps | IM-APP-fronend/src/stores/chat.ts:391-442 | so does trimming the memory on leaving a room |
| ChatWriters.ReadMarkedKeeps | IM-APP-fronend/src/stores/chat.ts:788-814 | so do read receipts |
| ChatWriters.HiddenKeeps | IM-APP-fronend/src/stores/chat.ts:1338-1348 | so does hiding a conversation |
| ChatWriters.WasResetKeeps | IM-APP-fronend/src/stores/chat.ts:1873-1882 | so does the reset at logout |
| ChatWriters.PlacedKeeps | IM-APP-fronend/src/stores/chat.ts:1463-1467 | so does inserting a placeholder |
| ChatWriters.PreviewedKeeps | IM-APP-fronend/src/stores/chat.ts:1653-1663 | so does the late preview of an image |
| ChatWriters.SendReturnedKeeps | IM-APP-fronend/src/stores/chat.ts:1469-1484 | so does the send callback |
| ChatWriters.AcknowledgedKeeps | IM-APP-fronend/src/stores/chat.ts:1485-1497 | so does the preview of the sent message |
| ChatWriters.NumberedKeeps | IM-APP-fronend/src/stores/chat.ts:1500-1522 | so does a sequence number that arrives late, even below the boundary |
| ChatWriters.SendFailedKeeps | IM-APP-fronend/src/stores/chat.ts:1523-1535 | so does a failed send, including the removal of a group that is gone |
| ChatPrune.PruneKeeps | IM-APP-fronend/src/stores/chat.ts:136-147 | pruning restores agreement with the grown table when every conversation whose boundary moved is announced |
| ChatPrune.CommittedKeeps | IM-APP-fronend/src/stores/chat.ts:136-147 | an accepted answer and its announcement keep agreement in a subscribed store |
| ChatPrune.SafeExactlyWhenSubscribed | IM-APP-fronend/src/utils/groupRetention.ts:143-145 | merging rows leaves every agreeing store agreeing if and only if the store is subscribed or the rows hide nothing |
| ChatRuns.DirectKeeps | IM-APP-fronend/src/stores/chat.ts:500-1900 | every synchronous operation keeps the three invariants and the exited groups, and only reset advances the session |
| ChatRuns.TombstoneAgreement | IM-APP-fronend/src/stores/chat.ts:128-147 | main result: in every run of pushes, pages, sends, late numbers and retention answers nothing below a boundary is in the lists, the raw messages or a preview, while the store is subscribed and the owner unchanged |
| ChatRuns.ListIntegrity | IM-APP-fronend/src/stores/chat.ts:1132-1260 | main result: in every run no list shows an id twice, provided that history pages repeat nothing |
| ChatRuns.ExitedStaysGone | IM-APP-fronend/src/stores/chat.ts:1389-1411 | main result: an exited group stays out of the conversations through every run until it is allowed back or the account's stored ids are read again |
| ChatEffects.IncomingIsShown | IM-APP-fronend/src/stores/chat.ts:500-572 | main result: a message pushed by the SDK stands at the end of its room, with its content, exactly when it is identified, visible, of a group not left, no pin, not there yet and not kept out by a hidden conversation; then the row says its words, time, number and id and counts it unless read, own or a notice, the raw message is kept, and a closed room is cut to two hundred; otherwise lists and rows stay |
| ChatEffects.IncomingUnhides | IM-APP-fronend/src/stores/chat.ts:526-538 | a hidden conversation comes back exactly when such a message reaches it and its other side is not blocked |
| ChatEffects.VisibleExactly | IM-APP-fronend/src/utils/groupRetention.ts:98-98 | filtering keeps exactly the visible messages, in their order |
| ChatEffects.PageShownExactly | IM-APP-fronend/src/stores/chat.ts:1140-1142 | a page shows exactly its visible messages that are no pins, in order, with their content |
| ChatRowEffects.ItemTaken | IM-APP-fronend/src/stores/chat.ts:461-480 | an item of the SDK becomes a row with its words, cleaned by the boundary, and the other side filled in |
| ChatRowEffects.NewerRowExactly | IM-APP-fronend/src/stores/chat.ts:706-761 | of two versions the preview of the later message and the unread count of the new one remain, unless it was read |
| ChatRowEffects.EventsListRows | IM-APP-fronend/src/stores/chat.ts:691-761 | every item that may be listed has its row after the event: the newer of the old row and the item |
| ChatRowEffects.EventsKeepOtherRows | IM-APP-fronend/src/stores/chat.ts:691-761 | rows no item names stay as they are |
| ChatRowEffects.EventsListNothingElse | IM-APP-fronend/src/stores/chat.ts:691-761 | and only rows that may be listed are left |
| ChatRowEffects.ReloadListsExactly | IM-APP-fronend/src/stores/chat.ts:863-913 | the reloaded list has a row for exactly the items that may be listed, each the newer of the old row and the item |
| ChatRowEffects.AccountListsExactly | IM-APP-fronend/src/stores/chat.ts:360-367 | a change of account leaves exactly the rows that may be listed under its sets |
| ChatRowEffects.BlockingListsExactly | IM-APP-fronend/src/stores/chat.ts:337-353 | a list of blocked peers leaves exactly the rows that may be listed |
| ChatActionEffects.PruneTakesExactly | IM-APP-fronend/src/stores/chat.ts:136-147 | pruning takes away exactly what lies below a boundary, from the announced lists, all raw messages and the previews, in order and with nothing else touched |
| ChatActionEffects.RawsKept | IM-APP-fronend/src/stores/chat.ts:380-407 | a raw message is kept when it is identified and visible; of a closed room with more than three hundred messages only those of the last three hundred stay |
| ChatActionEffects.ReloadBringsRaws | IM-APP-fronend/src/stores/chat.ts:1139-1139 | an open room gains exactly the raw messages of the page that are identified and visible |
| ChatActionEffects.OlderPageBringsRaws | IM-APP-fronend/src/stores/chat.ts:1197-1197 | so it does after an older page |
| ChatActionEffects.PageRawsKept | IM-APP-fronend/src/stores/chat.ts:1139-1139 | all visible messages of a page are kept raw while their room is open |
| ChatActionEffects.ReloadExactly | IM-APP-fronend/src/stores/chat.ts:1143-1176 | the list a reload writes: the messages of the page, marked as read if they were, then the captured ones still pending, failed or less than a minute old |
| ChatActionEffects.PageIsShown | IM-APP-fronend/src/stores/chat.ts:1143-1160 | after a page the room shows the last two hundred of that list and its end is known; an empty page over visible messages changes no room |
| ChatActionEffects.OlderPageIsShown | IM-APP-fronend/src/stores/chat.ts:1187-1213 | older messages stand in front of what is visible of the captured list |
| ChatActionEffects.SearchAddsPage | IM-APP-fronend/src/stores/chat.ts:1229-1236 | a page that lacks the message looked for is put in front |
| ChatActionEffects.SearchStartsAtTarget | IM-APP-fronend/src/stores/chat.ts:1237-1259 | when it is found the room starts with it and its end is unknown again |
| ChatActionEffects.ReadingClearsCount | IM-APP-fronend/src/stores/chat.ts:1262-1270 | reading a conversation clears the count of its row and nothing else |
| ChatActionEffects.ClearingEmpties | IM-APP-fronend/src/stores/chat.ts:1298-1315 | clearing empties the room with its raw messages and the row says nothing |
| ChatActionEffects.LeavingRemoves | IM-APP-fronend/src/stores/chat.ts:1389-1411 | leaving a group removes its row, messages and raw messages and remembers the exit; every other row stays |
| ChatActionEffects.HidingRemovesRow | IM-APP-fronend/src/stores/chat.ts:1338-1341 | hiding removes the row and keeps the messages |
| ChatActionEffects.AllowingReturns | IM-APP-fronend/src/stores/chat.ts:1350-1355 | a group let back in is no longer exited, nor hidden unless its other side is blocked |
| ChatActionEffects.RevocationReplaces | IM-APP-fronend/src/stores/chat.ts:763-774 | a revocation puts the tip in the place of the message and changes no other |
| ChatActionEffects.DeletionRemoves | IM-APP-fronend/src/stores/chat.ts:1826-1836 | a deletion takes out the message and its raw copy, the others stay in order |
| ChatActionEffects.ReceiptsMark | IM-APP-fronend/src/stores/chat.ts:805-814 | receipts mark exactly the messages they name, in every room |
| ChatActionEffects.LeavingRoomForgetsOthers | IM-APP-fronend/src/stores/chat.ts:426-442 | leaving a room forgets every other room and keeps the last two hundred of this one |
| ChatActionEffects.LeavingRoomKeepsRaws | IM-APP-fronend/src/stores/chat.ts:426-442 | and keeps the raw messages that belong to no other room |
| ChatActionEffects.LogoutForgets | IM-APP-fronend/src/stores/chat.ts:1873-1882 | logging out forgets rows, messages and pages, stops listening and starts a new session |
| ChatActionEffects.EnteringUnhides | IM-APP-fronend/src/stores/chat.ts:282-291 | entering unhides a conversation unless its other side is blocked |
| ChatDelivery.SendCompletes | IM-APP-fronend/src/stores/chat.ts:1455-1500 | main result: an undisturbed send ends with the sent message at the end of the room, where the placeholder stood, nothing else changed in any room, and nothing awaited unless a group message lacks its number |
| ChatDelivery.SendStarts | IM-APP-fronend/src/stores/chat.ts:1455-1468 | a send to a listed conversation shows its placeholder at the end of the room and awaits the SDK |
| ChatDelivery.ImageStarts | IM-APP-fronend/src/stores/chat.ts:1627-1633 | an image shows its placeholder and awaits its preview |
| ChatDelivery.PreviewIsShown | IM-APP-fronend/src/stores/chat.ts:1653-1672 | the preview takes the place of the path, and the send goes on with it |
| ChatDelivery.SendArrives | IM-APP-fronend/src/stores/chat.ts:1469-1484 | the returned message takes the place of the placeholder, its raw form is kept and a hidden conversation comes back |
| ChatDelivery.SentMovesRow | IM-APP-fronend/src/stores/chat.ts:1485-1502 | the row then says what was sent unless it is about a later message; a group message without a number waits for one |
| ChatDelivery.RefusalMarksFailed | IM-APP-fronend/src/stores/chat.ts:1523-1535 | a refused send stays in its place, marked as failed; a group that is gone is removed |
| ChatDelivery.LateNumberIsShown | IM-APP-fronend/src/stores/chat.ts:1501-1520 | a late number is put on the message, its raw form and its preview |
| ChatDelivery.LateNumberMayRemove | IM-APP-fronend/src/stores/chat.ts:1501-1520 | a late number below the boundary takes message and raw form away |
| ChatDelivery.ReplacesInPlace | IM-APP-fronend/src/stores/chat.ts:1548-1572 | with the placeholder in the room the new version takes exactly its place |
| ChatDelivery.ReplacementIsAppended | IM-APP-fronend/src/stores/chat.ts:1548-1572 | without it the message is appended |
| ChatAnswers.ResponseTakesExactly | IM-APP-fronend/src/stores/chat.ts:136-147 | a retention response takes from a listening store exactly what its boundaries hide: rooms with a new or higher boundary keep their visible messages in order, other rooms stay, and without a moved boundary nothing changes |
| ChatAnswers.PagesAreAwaited | IM-APP-fronend/src/stores/chat.ts:1132-1225 | loading captures what the room shows; loading more and searching start only where there is something to go on from |
| ChatAnswers.PageArrives | IM-APP-fronend/src/stores/chat.ts:1132-1216 | a page answers the request that awaited it, with the list captured then |
| ChatAnswers.SearchGoesOn | IM-APP-fronend/src/stores/chat.ts:1225-1246 | the search goes on from the longer list until the message is found, the history or the list ends, five hundred messages are passed or twenty pages read |
| ChatFence.LateRunDisagrees | IM-APP-fronend/src/stores/chat.ts:1873-1882 | a run that ends in disagreement: a history page and a boundary are requested, logout unsubscribes, and both arrive |
| ChatFence.OldSendsNeverReturn | IM-APP-fronend/src/stores/chat.ts:1470-1535 | no send awaited at logout ever changes the store again, however the run goes on |
| ChatFence.FencedExactlySends | IM-APP-fronend/src/stores/chat.ts:1132-1163 | of all continuations exactly the send callbacks are fenced; late history pages and image previews of an old session still write |
| ChatStore.ChatStore.FilterVisible | IM-APP-fronend/src/utils/groupRetention.ts:98-98 | the filter loop keeps exactly the messages that are not removed, in order |
| ChatStore.ChatStore.PruneRetainedHistory | IM-APP-fronend/src/stores/chat.ts:136-147 | the pruning loops compute the specified store |
| ChatStore.ChatStore.RememberRaw | IM-APP-fronend/src/stores/chat.ts:380-407 | stores the raw message unless it is removed, and trims |
| ChatStore.ChatStore.TrimMessageWindow | IM-APP-fronend/src/stores/chat.ts:409-424 | keeps the last 200 messages and drops the raw ones of the rest |
| ChatStore.ChatStore.ReplaceMessage | IM-APP-fronend/src/stores/chat.ts:1548-1572 | the single pass with its flag computes the specified replacement |
| ChatStore.ChatStore.AppendMessage | IM-APP-fronend/src/stores/chat.ts:500-572 | computes the specified store, early returns included |
| ChatStore.ChatStore.UpsertConversations | IM-APP-fronend/src/stores/chat.ts:691-761 | the merge loop computes the specified rows |
| ChatStore.ChatStore.FinishLoad | IM-APP-fronend/src/stores/chat.ts:1132-1163 | the tail of loadMessages computes the specified store |
| ChatStore.ChatStore.FinishLoadMore | IM-APP-fronend/src/stores/chat.ts:1179-1216 | the tail of loadMoreMessages computes the specified store |
| ChatStore.ChatStore.RemoveExitedGroupConversation | IM-APP-fronend/src/stores/chat.ts:1389-1411 | computes the specified store |
| ChatStore.ChatStore.FinishNumbering | IM-APP-fronend/src/stores/chat.ts:1501-1520 | computes the specified store |
| ChatStore.ChatStore.Reset | IM-APP-fronend/src/stores/chat.ts:1873-1882 | computes the specified store |
| ChatStore.ChatStore.MarkAsRead | IM-APP-fronend/src/stores/chat.ts:1268-1270 | unread becomes 0 in the row, if there is one |
| ChatStore.ChatStore.ClearHistory | IM-APP-fronend/src/stores/chat.ts:1298-1311 | computes the specified store |
| ChatStore.ChatStore.HideConversationLocal | IM-APP-fronend/src/stores/chat.ts:1338-1341 | computes the specified store |
| ChatStore.ChatStore.AllowGroupConversation | IM-APP-fronend/src/stores/chat.ts:1350-1355 | computes the specified store |
| ChatStore.ChatStore.DropRevokedMessage | IM-APP-fronend/src/stores/chat.ts:763-774 | the mapping loop computes the specified store |
| ChatStore.ChatStore.RemoveLocal | IM-APP-fronend/src/stores/chat.ts:1826-1836 | the filtering loop computes the specified store |
| ChatStore.ChatStore.MarkLoadedMessagesRead | IM-APP-fronend/src/stores/chat.ts:805-814 | rebuilding only the lists that change gives the same store as marking all |
| ChatStore.ChatStore.TrimConversationMemory | IM-APP-fronend/src/stores/chat.ts:426-442 | the loop over rooms computes the specified store |
| ChatStore.ChatStore.RetainFromMessage | IM-APP-fronend/src/stores/chat.ts:1247-1259 | computes the specified store |
| ChatStore.ChatStore.FinishLocate | IM-APP-fronend/src/stores/chat.ts:1231-1242 | one round of the search computes the specified store |
| ChatStore.ChatStore.InsertPlaceholder | IM-APP-fronend/src/stores/chat.ts:1464-1467 | computes the specified store with a number never used before |
| ChatStore.ChatStore.FailSend | IM-APP-fronend/src/stores/chat.ts:1527-1533 | computes the specified store |
| ChatStore.ChatStore.SendReturns | IM-APP-fronend/src/stores/chat.ts:1469-1484 | the callback checks the session first and computes the specified store |
| ChatStore.ChatStore.Acknowledge | IM-APP-fronend/src/stores/chat.ts:1485-1497 | the second half checks the session first and computes the specified store |
| ChatHistory.ReloadIsPageThenPending | IM-APP-fronend/src/stores/chat.ts:1137-1158 | the reloaded list is the whole visible page in order, then the captured messages it has to keep |
| ChatHistory.ShownAfterReload | IM-APP-fronend/src/stores/chat.ts:1132-1176 | a message is shown after a reload if and only if the page shows it or it was captured, is not removed, and is unsent, failed or younger than a minute: what was appended during the await is shown only if the page has it (before the list is cut to its window) |
| ChatHistory.ReadMarksStay | IM-APP-fronend/src/stores/chat.ts:1150-1154 | a read mark is not lost to a page that does not know it |
| ChatHistory.OlderGoesInFront | IM-APP-fronend/src/stores/chat.ts:1192-1209 | older messages go in front and no visible captured message is lost |
| ChatHistory.LocatedStartsAtTarget | IM-APP-fronend/src/stores/chat.ts:1236-1258 | a message that was found is the first of its list and all later ones follow it |
| ChatHistory.LaterPreviewWins | IM-APP-fronend/src/stores/chat.ts:708-760 | of two versions of a conversation the later message is shown, a count that was read stays read, and nothing is invented |
| ChatHistory.MergedRowIds | IM-APP-fronend/src/stores/chat.ts:698-704 | conversation events list no conversation twice and lose none |
| RefreshLoop.NoLostWakeUp | IM-APP-fronend/src/stores/chat.ts:957-973 | every sync end is followed by a complete reload that began no earlier, and reloads never overlap |
| RefreshLoop.BurstCausesOneReload | IM-APP-fronend/src/stores/chat.ts:957-973 | over a whole reload, whichever parts of it the sync ends fall into and however many there are: one further reload starts if there was any, none otherwise; with and without an open room |
| RefreshLoop.AnswersReachIdle | IM-APP-fronend/src/stores/chat.ts:957-973 | without further sync ends each answer brings the loop closer to idle |
| RefreshLoop.RefreshState.RefreshAfterServerSync | IM-APP-fronend/src/stores/chat.ts:957-966 | the two flags change as in the specified loop |
| RefreshLoop.RefreshState.AfterList | IM-APP-fronend/src/stores/chat.ts:966-971 | and after the list has arrived |
| RefreshLoop.RefreshState.AfterRoom | IM-APP-fronend/src/stores/chat.ts:968-971 | and after the room has arrived |
| Json.AsObjectLoop | IM-APP-fronend/src/utils/forwardSnapshot.ts:193-204 | the unwrapping loop parses at most four layers of text and yields a plain object or nothing |
| Json.StringOfLoop | IM-APP-fronend/src/utils/forwardSnapshot.ts:206-212 | the first key that holds a non-empty string |
| Json.NumberOfLoop | IM-APP-fronend/src/utils/forwardSnapshot.ts:214-220 | the first key whose value is a non-negative number |
| ForwardSnapshot.WithForwardSnapshot | IM-APP-fronend/src/utils/forwardSnapshot.ts:152-187 | the key-by-key filling of the copy computes the specified message |
| SnapshotWriting.WrittenCarries | IM-APP-fronend/src/utils/forwardSnapshot.ts:156-185 | after writing, every spelling of type, content and element denotes what the snapshot says |
| SnapshotWriting.WrittenComplete | IM-APP-fronend/src/utils/forwardSnapshot.ts:162-179 | no identity field is missing under its own name while present under its alias |
| SnapshotWriting.WrittenKeepsRest | IM-APP-fronend/src/utils/forwardSnapshot.ts:152-187 | every other field of the message is untouched |
| SnapshotWriting.WritingIsIdempotent | IM-APP-fronend/src/utils/forwardSnapshot.ts:152-187 | writing the same snapshot twice is writing it once, for every message and snapshot |
| SnapshotWriting.WritingIsInjective | IM-APP-fronend/src/utils/forwardSnapshot.ts:152-187 | a written message shows which snapshot was written |
| SnapshotWriting.IdentityIsCopied | IM-APP-fronend/src/utils/forwardSnapshot.ts:162-179 | each of the twelve identity fields present only under its capitalised name appears under its own with the same value |
| SnapshotMedia.VoiceAgain | IM-APP-fronend/src/utils/forwardSnapshot.ts:56-68 | a normalised voice element is a fixed point of its normaliser |
| SnapshotMedia.FileAgain | IM-APP-fronend/src/utils/forwardSnapshot.ts:69-81 | so is a file element |
| SnapshotMedia.VideoAgain | IM-APP-fronend/src/utils/forwardSnapshot.ts:226-263 | so is a video element, under any later clock: made-up identifiers are made up once |
| SnapshotMedia.PictureAgain | IM-APP-fronend/src/utils/forwardSnapshot.ts:354-396 | so is a picture element: missing types and pictures are filled in once |
| SnapshotMedia.PreferAgain | IM-APP-fronend/src/utils/forwardSnapshot.ts:265-269 | a preferred address is preferred again over nothing |
| SnapshotStability.StableExactlyWhenSettled | IM-APP-fronend/src/utils/forwardSnapshot.ts:16-137 | main result: building again from the written message, at any later moment and at every nesting level, gives the same snapshot if and only if every text message reached has its element or plain stored text |
| SnapshotStability.EmbeddedAgain | IM-APP-fronend/src/utils/forwardSnapshot.ts:132-137 | the same for a message inside a quote or merge |
| SnapshotStability.ReferenceAgain | IM-APP-fronend/src/utils/forwardSnapshot.ts:103-130 | the same for quotes and at-texts |
| SnapshotStability.MergeAgain | IM-APP-fronend/src/utils/forwardSnapshot.ts:84-96 | the same for merges |
| SnapshotShape.SnapshotIsFrozen | IM-APP-fronend/src/utils/forwardSnapshot.ts:20-137 | main result: a successful snapshot nests at most six levels; at each level the type is non-zero and below 1000, the path fields of media elements are empty, video addresses are http(s), and all spellings agree |
| SnapshotShape.ChainFits | IM-APP-fronend/src/utils/forwardSnapshot.ts:20-31 | the bound is exact: a text quoted n times is accepted if and only if n is at most 6 |
| SnapshotShape.PositiveExactlyWhenDeclared | IM-APP-fronend/src/utils/forwardSnapshot.ts:23-26 | all types in the snapshot are positive if and only if every message reached declares a positive type |
| SnapshotShape.EverywhereMirrors | IM-APP-fronend/src/utils/forwardSnapshot.ts:20-137 | whatever property of a message corresponds to a property of its own snapshot holds of every message reached if and only if the other holds of every snapshot inside |
| SnapshotShape.NegativeTypeIsAccepted | IM-APP-fronend/src/utils/forwardSnapshot.ts:23-26 | a message of type -1 is frozen like any other |
| SnapshotShape.StoredTextIsUnstable | IM-APP-fronend/src/utils/forwardSnapshot.ts:37-42 | a text known only as a stored JSON object is not stable |
| SnapshotMessages.TextIsFrozen | IM-APP-fronend/src/utils/forwardSnapshot.ts:33-42 | main result on texts: the snapshot holds the text of the element, under whichever spelling of element and text, or an empty one; without an element the stored content, and without that the message is refused |
| SnapshotMessages.CapitalTextIsFrozen | IM-APP-fronend/src/utils/forwardSnapshot.ts:37-42 | for instance the spelling with capital letters keeps its text |
| SnapshotMessages.PlainIsFrozen | IM-APP-fronend/src/utils/forwardSnapshot.ts:81-84 | a type without an element of its own is frozen with its stored content |
| SnapshotMessages.VoiceIsFrozen | IM-APP-fronend/src/utils/forwardSnapshot.ts:56-68 | a voice message is frozen unless it has neither element nor content; every field is that of the first filled spelling |
| SnapshotMessages.FileIsFrozen | IM-APP-fronend/src/utils/forwardSnapshot.ts:69-81 | so is a file message |
| SnapshotMessages.VideoIsFrozen | IM-APP-fronend/src/utils/forwardSnapshot.ts:226-263 | a video is frozen if and only if it has an http(s) address; its fields are those of the first filled spelling, with mp4, 1, 720, 1280 and the message's identifier in place of missing ones |
| SnapshotMessages.PictureIsFrozen | IM-APP-fronend/src/utils/forwardSnapshot.ts:354-396 | a picture is frozen from its element or its stored content; each entry has the fields of its own picture or of the source, and the type of the first that declares one, else image/jpeg |
| SnapshotMessages.FrozenNeedsType | IM-APP-fronend/src/utils/forwardSnapshot.ts:20-31 | only messages of a known non-zero type below 1000, at most six levels deep, are frozen, and with that type |
| SnapshotNesting.QuoteIsFrozen | IM-APP-fronend/src/utils/forwardSnapshot.ts:49-53 | a quote is frozen if and only if it has an element or content and quotes nothing that cannot be frozen one level down; text and quote are those of the first spelling |
| SnapshotNesting.AtTextIsFrozen | IM-APP-fronend/src/utils/forwardSnapshot.ts:43-48 | so is a text naming users, with the users named one for one |
| SnapshotNesting.MergeIsFrozen | IM-APP-fronend/src/utils/forwardSnapshot.ts:84-96 | a merge is frozen if and only if it has messages and each can be frozen one level down; title and lists are those of the first spelling |
| SnapshotNesting.FourLayers | IM-APP-fronend/src/utils/forwardSnapshot.ts:193-204 | an object is found under at most four layers of text, and under no more |
| SnapshotReading.TextIsSaid | IM-APP-fronend/src/utils/forwardSnapshot.ts:206-212 | the text of a field is that of its first spelling that holds a non-empty text, else empty |
| SnapshotReading.CountIsSaid | IM-APP-fronend/src/utils/forwardSnapshot.ts:214-220 | the count of a field is that of its first spelling that is a number and not negative, else 0 |
| SnapshotAddresses.PreferredExactly | IM-APP-fronend/src/utils/forwardSnapshot.ts:265-269 | the preferred address is empty or http(s) if and only if a candidate is http(s) or both are blank; otherwise it is the first candidate that says anything, a local path included |
| SnapshotAddresses.VoiceAddressExactly | IM-APP-fronend/src/utils/forwardSnapshot.ts:56-68 | the address of a voice element is empty or http(s) under exactly that condition |
| SnapshotAddresses.FileAddressExactly | IM-APP-fronend/src/utils/forwardSnapshot.ts:69-81 | so is the address of a file element |
| SnapshotAddresses.LocalVoicePath | IM-APP-fronend/src/utils/forwardSnapshot.ts:61-64 | a voice known only by a path of the device gets that path as its address |
| SnapshotAddresses.LocalFilePath | IM-APP-fronend/src/utils/forwardSnapshot.ts:74-77 | so does a file |
| SnapshotAddresses.LocalVoiceIsFrozen | IM-APP-fronend/src/utils/forwardSnapshot.ts:56-68 | and the message is frozen, with the path in its snapshot |
| SnapshotAddresses.PictureUrls | IM-APP-fronend/src/utils/forwardSnapshot.ts:371-396 | each picture keeps the address it was given, and a missing one has that of the source picture |
| SnapshotAddresses.PictureAddressExactly | IM-APP-fronend/src/utils/forwardSnapshot.ts:371-396 | all addresses of a picture element are empty or http(s) if and only if all given ones are |
| SnapshotAddresses.LocalPictureUrl | IM-APP-fronend/src/utils/forwardSnapshot.ts:374-385 | a local path given as address of a picture stays |
| SnapshotAddresses.OwnAddressesExactly | IM-APP-fronend/src/utils/forwardSnapshot.ts:43-84 | the addresses in the media element of one snapshot are empty or http(s) if and only if its message offers such addresses or none |
| SnapshotAddresses.RemoteExactlyWhenOffered | IM-APP-fronend/src/utils/forwardSnapshot.ts:16-137 | main result: no media element at any level of a snapshot has an address other than http(s) or none if and only if every media message reached offers an http(s) address or none (a picture: an object whose addresses are all such) |
| LawfulRuntime.SampleIsLawful | IM-APP-fronend/src/utils/forwardSnapshot.ts:193-204 | the facts assumed of parsing, printing, trimming and addresses can all hold at once: a printer and parser of JSON values satisfies them |
| SnapshotContent.FirstFilledSpelling | IM-APP-fronend/src/utils/forwardSnapshot.ts:206-212 | the first spelling that holds something decides, and nothing is invented |
| SnapshotContent.VoiceKept | IM-APP-fronend/src/utils/forwardSnapshot.ts:56-68 | a voice element keeps its identifier, size and duration, has the remote address if one is offered and otherwise what was offered first, and has no other fields |
| SnapshotContent.FileKept | IM-APP-fronend/src/utils/forwardSnapshot.ts:69-81 | a file element keeps its identifier, name and size, and has the remote address if one is offered and otherwise what was offered first |
| SnapshotContent.PictureKept | IM-APP-fronend/src/utils/forwardSnapshot.ts:374-385 | a picture keeps identifier, type, address, size and dimensions |
| SnapshotContent.MissingPicturesAreTheSource | IM-APP-fronend/src/utils/forwardSnapshot.ts:386-395 | a missing big or small picture is the source picture |
| SnapshotMedia.NormalVideoPart | IM-APP-fronend/src/utils/forwardSnapshot.ts:247-254 | a normalised video is read back as it stands, whatever identifier is offered |
| SnapshotMedia.NormalCoverPart | IM-APP-fronend/src/utils/forwardSnapshot.ts:255-261 | and so is its cover |
| SnapshotContent.EmbedAllExactly | IM-APP-fronend/src/utils/forwardSnapshot.ts:93-93 | all messages of a merge are taken, in order, or none |
| SnapshotContent.MergeKeepsEachMessage | IM-APP-fronend/src/utils/forwardSnapshot.ts:84-96 | the merged messages of a snapshot are those of the message, one for one |
| SnapshotContent.EmbeddedKeeps | IM-APP-fronend/src/utils/forwardSnapshot.ts:132-187 | a message inside a snapshot carries its own snapshot and keeps every other field |
| SnapshotContent.ReferenceKeeps | IM-APP-fronend/src/utils/forwardSnapshot.ts:103-119 | a reference keeps its text, under either spelling, and the message it quotes, and gets no quote it did not have |
| ForwardTargets.UniqueKeepsEach | IM-APP-fronend/src/stores/forward.ts:166-168 | uniqueIds keeps exactly the non-empty identifiers, each once, in the order of first occurrence |
| ForwardTargets.UniqueIds | IM-APP-fronend/src/stores/forward.ts:166-168 | the filtering loop computes it |
| ForwardTargets.ChunkIds | IM-APP-fronend/src/utils/forwardSnapshot.ts:447-453 | the slicing loop computes the slices |
| Sequences.ChunksCover | IM-APP-fronend/src/utils/forwardSnapshot.ts:447-453 | the slices flatten back to the list, none is empty or too long, and only the last may be short |
| ForwardTargets.EachIdSentOnce | IM-APP-fronend/src/stores/forward.ts:113-164 | main result: across the create call and all add calls the chosen identifiers are sent in order, each once |
| ForwardTargets.CallsAreAcceptable | IM-APP-fronend/src/stores/forward.ts:139-164 | no call, the create call included, carries more than 1000 identifiers, and no add or remove call is empty |
| ForwardTargets.CallsArePacked | IM-APP-fronend/src/stores/forward.ts:113-164 | no call is wasted: the task is created with the first thousand identifiers and the number of further calls is the least possible |
| ForwardTargets.TargetsAreWhatWasAsked | IM-APP-fronend/src/stores/forward.ts:139-164 | main result: the server ends with the listed friends, the generated ones plus extras, or all friends minus the excluded |
| ForwardTargets.ForwardApi.FillRemaining | IM-APP-fronend/src/stores/forward.ts:139-164 | sends exactly the planned calls, or a beginning of them when one fails |
| ForwardTargets.ForwardApi.CreateAndFill | IM-APP-fronend/src/stores/forward.ts:113-131 | a task has received the whole plan or a beginning of it |
| ForwardTargets.ForwardStore.SubmitFriendPlan | IM-APP-fronend/src/stores/forward.ts:57-74 | the recorded tasks are exactly the submitted ones, each holding all targets asked for and at least one, whatever fails on the way; all are submitted if and only if every request gets through and somebody was asked for |
| LastSuperAdmin.RowsAreAdmins | IM-APP-admin/internal/service/rbac.go:156-165 | the rows counted are the other active super administrators |
| LastSuperAdmin.WriteKeeps | IM-APP-admin/internal/repository/rbac.go:119-160 | a write touches its target only, and only a demotion takes it out |
| LastSuperAdmin.ApprovalKeeps | IM-APP-admin/internal/service/rbac.go:52-79 | an approval leaves an active super administrator that is no approved target, if after it at most two approved and unwritten demotions target active super administrators |
| LastSuperAdmin.SuperAdminRemains | IM-APP-admin/internal/service/rbac.go:47-89 | main result: with check and write as separate steps, an active super administrator remains in every state of every run in which no approval leaves more than two approved and unwritten demotions of active super administrators, whatever is done to other accounts |
| LastSuperAdmin.ThreeDemotionsEmptyTheSystem | IM-APP-admin/internal/service/rbac.go:131-146 | three demotions side by side, each passing the guard, leave none |
| LastSuperAdmin.StaleDemotionBeatsTheGuard | IM-APP-admin/internal/service/rbac.go:131-146 | two guarded demotions suffice when an older demotion, unchecked because its target was no super administrator then, is still to be written after its target was promoted |
| LastSuperAdmin.SerialDemotionLeavesTwo | IM-APP-admin/internal/service/rbac.go:52-79 | served alone, an accepted demotion of an active super administrator leaves at least two |
| LastSuperAdmin.SerialLossExactly | IM-APP-admin/internal/service/rbac.go:47-89 | served alone, the last one is lost if and only if the request names that administrator with a status other than active or disabled, keeping or not mentioning the role, and passes the role check |
| LastSuperAdmin.RefusalChangesNothing | IM-APP-admin/internal/service/rbac.go:47-89 | a refused request changes nothing |
| AdminRequests.StatusIsWritten | IM-APP-admin/internal/service/rbac.go:130-154 | main result on status requests: refused if and only if a holder of the super_admin role is to be disabled and not even two other active accounts hold it; otherwise the account has exactly the given status and its old roles, and nothing else changes |
| AdminRequests.UpdateIsWritten | IM-APP-admin/internal/service/rbac.go:47-111 | main result on updates: refused exactly when the role is handed out by somebody without it, when fewer than two other active holders would remain besides the target, or when an account or role is unknown; otherwise status and roles are exactly the given ones, or kept, and nothing else changes |
| AdminRequests.EnablingRestores | IM-APP-admin/internal/repository/rbac.go:157-160 | disabling an account and enabling it again restores the data |
| AdminRequests.RoleComesFromHolder | IM-APP-admin/internal/service/rbac.go:91-111 | main result: however requests interleave, whoever comes to hold the super_admin role was given it by a request whose operator held it while the request was served |
| AdminRequests.SomebodyRemains | IM-APP-admin/internal/service/rbac.go:47-89 | the super administrator that remains, spelled out: an account with status active that holds an enabled role with code super_admin |
| RbacService.Rbac.RoleIDsHasSuperAdmin | IM-APP-admin/internal/service/rbac.go:113-128 | the loop finds whether a known role id is the super_admin role |
| RbacService.Rbac.SetUserRoles | IM-APP-admin/internal/repository/rbac.go:145-155 | the loop links exactly the given roles or fails on an unknown one |
| RbacService.Rbac.StoreUpdate | IM-APP-admin/internal/repository/rbac.go:119-143 | the transaction writes all or nothing |
| RbacService.Rbac.UpdateAdmin | IM-APP-admin/internal/service/rbac.go:47-89 | computes the outcome of the request served query by query |
| RbacService.Rbac.SetAdminStatus | IM-APP-admin/internal/service/rbac.go:130-154 | computes the outcome of the request served query by query |
| RbacService.Rbac.DeleteRole | IM-APP-admin/internal/repository/rbac.go:260-275 | refuses roles in use and super_admin; otherwise removes the role and no super administrator |
| Reports.CommitIsAudited | IM-APP-admin/internal/repository/report.go:154-186 | an accepted transition extends the path and the version by one |
| Reports.AuditTrail | IM-APP-admin/internal/repository/report.go:154-264 | main result: in every interleaving of reads and version-checked writes each report's trail is a legal path from pending to its status with one version per transition, trails only grow, and a resolved report never moves |
| Reports.RejectionLeavesNoTrace | IM-APP-admin/internal/repository/report.go:166-178 | an attempt turned down at the read or at the write changes no report |
| Reports.AcceptanceAddsOneStep | IM-APP-admin/internal/repository/report.go:170-185 | an accepted one adds exactly one step from the current status and touches no other report |
| Reports.OneWinner | IM-APP-admin/internal/repository/report.go:170-178 | of two calls that read the same version only one can be accepted, however late the other writes |
| Reports.CountNeverFalls | IM-APP-admin/internal/repository/report.go:66-73 | the count of resolved reports on a user never falls |
| Reports.BanIsNeitherMissedNorPremature | IM-APP-admin/internal/service/report.go:33-60 | main result: in every run without failures between resolving and counting, each ban had at least three resolved reports, and once no call has still to count exactly the users with three or more have been banned |
| ReportRules.TransitionExactly | IM-APP-admin/internal/repository/report.go:155-200 | main result: start is accepted exactly from pending or reopened, resolve and reject from pending, processing or reopened, reopen from rejected; the new status, the version and the action are recorded, a refusal leaves no trace |
| ReportRules.EveryReportConcludes | IM-APP-admin/internal/repository/report.go:190-200 | nothing moves a resolved report, and every other report can still be resolved, after reopening if it was rejected |
| ReportRules.ReadDecides | IM-APP-admin/internal/repository/report.go:163-169 | among concurrent calls the same table decides at the read |
| ReportRules.WriteDecides | IM-APP-admin/internal/repository/report.go:170-185 | and the version at the write |
| ReportRules.EveryTrailIsStory | IM-APP-admin/internal/repository/report.go:154-264 | in every run each trail goes from pending by these steps to the present status, as many as the version says |
| ReportRules.AssignmentIsRecorded | IM-APP-admin/internal/repository/report.go:202-222 | an assignment records the worker and moves nothing |
| ReportRules.ResolvingAlone | IM-APP-admin/internal/service/report.go:33-60 | resolving without interference resolves an open report and bans its user exactly when three resolved reports on that user exist |
| ReportRules.BannedAtThree | IM-APP-admin/internal/service/report.go:40-60 | in every run without failures between resolving and counting, once no call has still to count, exactly the users with three resolved reports were banned |
| ReportRules.CountingExactly | IM-APP-admin/internal/service/report.go:43-60 | after a resolution the user of the report is looked up and the resolved reports on that user counted |
| ReportService.AloneIsSerial | IM-APP-admin/internal/service/report.go:33-60 | a call that is not interleaved is the plain transition followed by the plain count |
| ReportService.DataService.TransitionReport | IM-APP-admin/internal/repository/report.go:154-186 | read, check, version-checked update and audit row compute the transition |
| ReportService.DataService.AssignReport | IM-APP-admin/internal/repository/report.go:202-222 | sets the assignee and adds an assign row, leaving status and version alone |
| ReportService.DataService.CountResolvedReports | IM-APP-admin/internal/repository/report.go:66-73 | the count is the number of resolved reports on the user |
| ReportService.DataService.AutoBanOnReports | IM-APP-admin/internal/service/report.go:43-60 | sends a ban exactly for a user target at the threshold |
| ReportService.DataService.ResolveReport | IM-APP-admin/internal/service/report.go:33-38 | is the concurrent machine's run of one undisturbed call |
| LoginHistory.NextFailureFromRemembered | IM-APP-admin/internal/middleware/ratelimit.go:54-63 | forgetting what has left the window never changes a later count |
| LoginHistory.StaysBelow | IM-APP-admin/internal/middleware/ratelimit.go:54-67 | fewer failures are remembered than the threshold |
| LoginHistory.ReportedExactlyUntil | IM-APP-admin/internal/middleware/ratelimit.go:31-53 | a lock is reported at every moment before lockDuration has passed and at no moment after, whatever attempts and questions come in between |
| LoginHistory.LockHolds | IM-APP-admin/internal/middleware/ratelimit.go:47-53 | attempts during a lock neither extend it nor count |
| LoginHistory.UnlockedExactlyWhenSparse | IM-APP-admin/internal/middleware/ratelimit.go:47-68 | a run of failures starts a lock if and only if some window ending at one of them holds `threshold` of them |
| LoginHistory.LateQuestionForgets | IM-APP-admin/internal/middleware/ratelimit.go:38-45 | a failure between the end of a lock and the first question about it is forgotten with the lock |
| LoginHistory.WithinCounts | IM-APP-admin/internal/middleware/ratelimit.go:54-61 | what is kept are the failures no more than the window before, one for each of their positions |
| LoginHistory.FailureLocksExactly | IM-APP-admin/internal/middleware/ratelimit.go:54-67 | a failure outside a lock locks if and only if it is the threshold-th within its window, for lockDuration, and starts the count anew; otherwise it is counted |
| LoginHistory.ForgottenExactly | IM-APP-admin/internal/middleware/ratelimit.go:31-45 | a success forgets everything, a question forgets exactly what an ended lock left |
| LoginLimiter.Compact | IM-APP-admin/internal/middleware/ratelimit.go:56-61 | the in-place filter keeps exactly what lies within the window, in order |
| LoginLimiter.Append | IM-APP-admin/internal/middleware/ratelimit.go:62-62 | append adds one element, in place or in a larger array |
| LoginLimiter.Limiter.constructor | IM-APP-admin/internal/middleware/ratelimit.go:20-29 | an empty limiter whose window is its lock duration |
| LoginLimiter.Limiter.IsLocked | IM-APP-admin/internal/middleware/ratelimit.go:31-45 | refines the question: reported lock, remaining time, and reset after an observed end |
| LoginLimiter.Limiter.RecordFailure | IM-APP-admin/internal/middleware/ratelimit.go:47-68 | refines the failure: the stored list is what is remembered of the full history since the last reset |
| LoginLimiter.Limiter.Clear | IM-APP-admin/internal/middleware/ratelimit.go:70-76 | refines the reset of one key and leaves the others alone |
| FilterWhere.ItoaLoop | IM-APP-admin/internal/repository/audit.go:102-119 | the digit loop computes the decimal text |
| FilterWhere.ItoaDecodes | IM-APP-admin/internal/repository/audit.go:102-119 | the text decodes to the number if and only if it is not the most negative machine integer |
| FilterWhere.CompiledMeansRequested | IM-APP-admin/internal/repository/message.go:18-44 | main result: under its own arguments, and whatever is appended to them, the generated condition holds of exactly the rows that meet every requested condition |
| FilterWhere.NumbersInOrder | IM-APP-admin/internal/repository/message.go:18-44 | the placeholders are 1, 2, ... up to the number of arguments, clause by clause |
| FilterWhere.OneArgumentPerClause | IM-APP-admin/internal/repository/message.go:31-34 | every column of a clause is compared with the same argument |
| ListQueries.BuildMessageAuditWhere | IM-APP-admin/internal/repository/message.go:18-44 | the appending code computes the compiled query of its filter |
| ListQueries.BuildMessageFailureWhere | IM-APP-admin/internal/repository/message.go:87-115 | the appending code computes the compiled query of its filter |
| ListQueries.BuildAuditWhere | IM-APP-admin/internal/repository/audit.go:82-100 | the appending code computes the compiled query of its filter |
| ListQueries.ListMessages | IM-APP-admin/internal/repository/message.go:46-62 | LIMIT and OFFSET are numbered n+1 and n+2 at the end of the extended arguments |
| ListQueries.ListMessageFailures | IM-APP-admin/internal/repository/message.go:117-133 | the same for failures |
| ListQueries.ListAuditLogs | IM-APP-admin/internal/repository/audit.go:27-43 | the same for audit logs, numbered from the beginning |
| ListQueries.PageMeans | IM-APP-admin/internal/repository/message.go:46-62 | limit and offset are found under their numbers, and the page shows exactly the rows that the total counts |
| ListQueries.MessageSearch | IM-APP-admin/internal/repository/message.go:18-44 | the message search returns exactly the rows its filter asks for |
| ListQueries.FailureSearch | IM-APP-admin/internal/repository/message.go:87-115 | the failure search returns exactly the rows its filter asks for |
| ListQueries.AuditSearch | IM-APP-admin/internal/repository/audit.go:82-100 | the audit search returns exactly the rows its filter asks for |

## Left out

- The order of conversations: the comparator compares invalid dates when a time is empty; rows are unordered updates here.
- Pinned messages, announcements, mentions in previews, highlight tags, remarks, online states and notifications.
- The merge of image and video covers into a sent message, and URL rewriting of media.
- Message sequence numbers reach the chat model already coerced to safe integers; the coercion is `RetentionSeq`.
- Peers are compared by one name each, which is never empty where somebody is blocked; the code tries two spellings.
- Local message ids are a counter of their own, so they differ from SDK ids by construction.
- Listeners other than the chat store, timers, and the throttling of the resync after reconnecting.
- The clock of a retention request is read once; the code reads it once per id within one synchronous step.
- A retention row's time is the instant its text parses to.
- JSON numbers are integers: fractions and infinities do not occur, and printing and parsing plain data is the identity.
- The video helpers that patch covers into an existing snapshot, and the replacement of image originals.
- The server side of forwarding beyond the set of targets of a draft task: delivery, retries and counters.
- A request of the forwarding client that reached the server but whose answer was lost counts as failed on both sides.
- Roles: permission rows, sessions and passwords; a malformed id behaves as an unknown one.
- LastSuperAdmin.SuperAdminRemains: assumes that statuses are active, disabled or empty and that the super_admin role row is not edited, because the code does not guard either.
- AdminRequests.RoleComesFromHolder: assumes that accounts are created without the super_admin role and that its row is not edited, because the check at creation is not part of this model.
- Report notes and assignments as tables of their own; assigning a report appears as an action row.
- Reports.BanIsNeitherMissedNorPremature: assumes that no step between resolving and counting fails, because a failed count is not retried by the code.
- Machine integers of the login limiter do not overflow, lock minutes are not negative, and the growth of a full slice is one possible choice.
- SQL text outside the conditions; conditions are tokens, a comparison of an absent column is false, and pattern matching is a parameter. A nickname column stands for the coalesced value, so it is never absent: the row holds the empty text for a null nickname.
- Deployment scripts, HTTP handlers, cryptography, media upload and display formatting.
