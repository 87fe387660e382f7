# Models and proofs for the agent app server

This project models the parts of the server that keep state through failures and interleavings, and proves
what they keep. `dafny verify dfyconfig.toml` checks all of it. Source files are cited by path and line.

**The stream journal** is an append-only file of records for each thread. `JournalFile` models it as bytes: one
encoded record and a newline at a time, a reader that skips what it cannot accept, and the repair that cuts a torn
tail. The JSON encoder is any function that the decoder inverts and whose output has no line break. `JournalReader`
and `JournalWriter` are the reading loops and one append; the class in `StreamJournal` adds the cached writer state
and keeps it equal to what the reader would compute. `JournalCrash` runs appends and crashes at any byte;
`HistoryImport`, `HistoryTheorems` and `HistoryRecords` are the import of saved turns.

**Live delivery** is the class in `EventHub`, and in `Delivery` a state machine of one thread's journal, topic and
connections, whose steps interleave freely; an append and its fan-out are one step. This lets a record be published
between a connection's finding no journal file and its taking a boundary from the hub, and `DeliveryTheorems` excludes
exactly the runs with such a publish. Under one asyncio loop there are none: with no file there is nothing to replay, and
the code from the read to the boundary (codex_service.py:1111-1135) does not give way.

**The timeline** (`Timeline` and the modules named after it) folds each turn's records into items and merges
the live stream with saved history by id, alias, attachments or unique content. `TimelineItems` says, for any mix of
records, which item each goes to and what every item is made of. `TimelineTools` shows that messages come
out as they would without the turn's tools; `TimelineMerge` and `TimelineConverge` follow the messages of a turn that was
streamed and then saved through two materializations, and `TimelineSettled` closes the loop through the alias records.

**State handling with rollback, limits or pages**: turn and mutation exclusion (`TurnManager`, `TurnTheorems`),
attachments (`Attachments`, `AttachmentTheorems`), skill saves (`SkillSave`), pinned-thread paging (`Paging`, with
`Sorting`), unified-diff numbering (`DiffLines`, `DiffTheorems`, `DiffNumbers`), output truncation (`TruncateOutput`, with
`Utf8`) and the window that drops duplicate notifications (`FingerprintWindow`).

## Findings

Where a promise does not hold everywhere, the code is kept as it is and the exact condition is proved.

- A cut output exceeds its limit when the limit is at most the marker's 28 bytes, because a tail of zero bytes is
  taken as the whole text (`TruncateOutput.CutFitsIff`). The default limit is far above that.
- A finish that names an earlier turn removes a newer reservation that has no turn id yet
  (`TurnTheorems.LateFinishSpares`, `TurnTheorems.StartingReservationLost`).
- Git may write an empty context line without its leading space (POSIX.1-2008 leaves this open); the numbering then
  stops matching in that hunk (`DiffNumbers.PatchNumberedIff`).
- A new skill file whose name has surrounding white space is written under the stripped name
  (project_files.py:625), so its path stays missing (`SkillSave.SaveNamesContent`, `SkillSave.PaddedNameMoves`).
- A restore that fails after rewriting an attachment's metadata and before its rename leaves an attachment that neither
  store accepts: exactly then (`AttachmentTheorems.StoppedLoadsIff`, with the run in
  `AttachmentTheorems.RestoreCanStrand`). Every other one is as loadable as it was
  (`AttachmentTheorems.OthersLoad`).

## Model

| member | source | states |
|---|---|---|
| `JournalFile.SplitConcat` | stream_journal.py:641-650 | splitting a file at line breaks commutes with concatenation at a line end, so the reader handles the parts of a file independently |
| `JournalFile.RepairTornTail` | stream_journal.py:802-809 | after a whole-line prefix, any tail without a line break is exactly what the repair cuts off |
| `JournalFile.ReadSound` | stream_journal.py:622-698 | whatever the bytes, accepted records have increasing sequences, distinct event ids and dedup keys, the right thread, and a cursor that is the last one |
| `JournalFile.ReadAppended` | stream_journal.py:622-698 | one encoded record and its newline after a whole-line file is read as exactly one more record, and damage is neither added nor removed |
| `JournalFile.ReadWithoutNewline` | stream_journal.py:622-698 | a last record without its newline is read, but the file counts as damaged |
| `JournalFile.AcceptIff` | stream_journal.py:655-690 | a line is accepted as a record if and only if it is the envelope the writer serializes for that record, well formed and of this thread |
| `JournalFile.UndamagedIff` | stream_journal.py:622-698 | for any bytes: no damage if and only if the file ends its last line and line by line its full lines are the envelopes of the records read, numbered 1 to n, no id or key twice |
| `JournalFile.CoverageSays` | stream_journal.py:700-728 | the label of any records and damage flag, told by turns and their starts and ends: partial whenever damaged |
| `JournalReader.ReadFile` | stream_journal.py:622-729 | the reader's loops compute the tolerant scan: the read is undamaged if and only if the file ends its last line and its full lines are the envelopes of the records, numbered from one with distinct ids and keys; a damaged file is partial, and an undamaged one absent, complete or partial by the live and saved boundaries of its turns; a missing file reads as nothing |
| `JournalReader.Classify` | stream_journal.py:700-728 | the loop over per-turn kind sets gives the coverage label said over the whole record list |
| `JournalReader.GroupByTurn` | stream_journal.py:700-716 | each turn's list is the records of that turn in journal order |
| `JournalWriter.AppendAddsRecord` | stream_journal.py:788-863 | an append to any file, torn or damaged, leaves a whole-line file that reads as one record more, or the same when the key is there |
| `StreamJournal.StreamJournal.constructor` | stream_journal.py:598-602 | a process start over any bytes on disk has a right, empty cache |
| `StreamJournal.StreamJournal.Read` | stream_journal.py:731-735 | reading returns the specified records, cursor, coverage and damage flag |
| `StreamJournal.StreamJournal.PreparePath` | stream_journal.py:788-810 | preparing creates the thread's directory, or cuts a torn tail from its file; what an append would find is the same for every thread |
| `StreamJournal.StreamJournal.State` | stream_journal.py:812-823 | the writer state is the reader's cursor plus one and its key-to-record map, from the cache or the file |
| `StreamJournal.StreamJournal.Append` | stream_journal.py:825-902 | one append: the old record for a known key, else one new record whose every field is the caller's, with the thread, the next sequence, a fresh id and the time; the file then reads back as the old records and that one; the cache still agrees with every file; other threads are untouched |
| `StreamJournal.StreamJournal.AppendHistory` | stream_journal.py:918-1012 | the nested import loops append exactly the requests of the view in order, and the new records are those of the view's turns that are not skipped: start, public items, end |
| `StreamJournal.StreamJournal.AttachAliases` | stream_journal.py:1014-1038 | one append per alias, in order, each answered by the record of that alias, field by field, or an older one under its key |
| `StreamJournal.StreamJournal.TrashThread` | stream_journal.py:1040-1053 | the directory moves into the trash under its stamped name, its cached state goes with it, and no other thread changes |
| `StreamJournal.StreamJournal.PruneRetention` | stream_journal.py:1055-1094 | of the listed projects, exactly the live directories whose file was last written (or that, without one, were last changed) more than max(1, days) days ago go, with their cached states, and so do the trashed ones by their own time; everything else stays, and the count is theirs |
| `JournalCrash.RecoversLanded` | stream_journal.py:788-863 | for every run of appends and crashes at any byte, the repaired file decodes undamaged to sequences 1..n: every acknowledged record in order, plus only records whose newline landed, one per dedup key, each holding field by field what its append was given |
| `JournalCrash.CutBeforeNewline` | stream_journal.py:641-659 | a line cut exactly before its newline reads as damage until the repair removes it |
| `HistoryImport.CompleteStreamTurnIds` | stream_journal.py:579-592 | the loop over kind sets returns exactly the turns with a live start and a live end |
| `HistoryRecords.ImportRecords` | stream_journal.py:918-1012 | what an import of any view into any journal adds: in the view's order, each turn's start, its public items with their own data, type, place and id (or the one made for it), and its end under its status; from nothing else, and from everything of a turn that is not skipped, whose id no earlier turn of the view has and of which nothing is recorded yet |
| `HistoryTheorems.ImportKeepsSkipped` | stream_journal.py:579-592 | no part of an import changes which live turns are whole, so none changes what is skipped |
| `HistoryTheorems.ImportIdempotent` | stream_journal.py:918-1012 | importing the same view twice adds nothing the second time |
| `HistoryTheorems.ImportResumable` | stream_journal.py:918-1012 | stopped after any number of records and run again, an import leaves the records of an uninterrupted one, up to event id and time |
| `HistoryTheorems.ImportAfterStops` | stream_journal.py:918-1012 | the same after any number of interrupted attempts |
| `HistoryTheorems.CoverageAfterImport` | stream_journal.py:700-728 | over a live-only undamaged journal and a finished view, coverage after the import is complete exactly when every turn with a live record is whole |
| `EventHub.EventHub.Publish` | event_hub.py:69-107 | publishing refuses a sequence that does not increase, else numbers the event and keeps it last in a history of bounded length; each registered subscriber with room gets it, each full one keeps only the marker, is closed, unregistered and counted; only this topic changes |
| `EventHub.EventHub.FanOut` | event_hub.py:97-106 | the loop over subscribers gives each its event or, when full, drops it with one resync marker |
| `EventHub.EventHub.Subscribe` | event_hub.py:109-136 | a new registered subscriber with an empty queue; it must resynchronize exactly when its cursor is past the topic's sequence or the event after it is older than the history, and otherwise starts with the retained events after its cursor; only this topic changes |
| `EventHub.EventHub.Close` | event_hub.py:138-145 | the id is no longer registered, its subscription is closed and keeps its queue, and nothing else changes |
| `EventHub.EventHub.NextEvent` | event_hub.py:147-152 | the first queued item is taken |
| `EventHub.EventHub.CurrentSequence` | event_hub.py:154-161 | the topic's sequence is returned and nothing changes |
| `EventHub.EventHub.AdvanceSequence` | event_hub.py:163-175 | the sequence becomes the larger of the two; history and subscribers stay |
| `EventHub.DeliveryAccounted` | event_hub.py:69-152 | in every run, for every subscriber: while open, what it consumed and its queue are exactly the events published since it came; once dropped, it consumed a prefix of them and one resync marker is all that is left, or was the last thing it consumed; once it left, the two are a prefix |
| `EventHub.SubscribeMissesNothing` | event_hub.py:118-132 | in every run, a subscriber that need not resynchronize starts with every event the topic ever accepted after its cursor, those long dropped from the history included |
| `DeliveryTheorems.ReplayIsSuffix` | codex_service.py:1117-1123 | merging the hub's history with the journal by sequence gives exactly the journal after the cursor |
| `DeliveryTheorems.HubNeverAhead` | codex_service.py:189-209 | in every run the hub's sequence never exceeds the journal's cursor |
| `DeliveryTheorems.DeliversContiguously` | codex_service.py:1098-1145 | in every run in which nothing is published between a connection's finding no journal file and its taking a boundary: it is told to resynchronize if and only if its cursor is past the journal it read, which reaches at least as far as the journal did when it came; with a cursor k not past it, it emits exactly the records k+1, k+2 and so on, with no gap, repeat or reorder; without a cursor, or told to resynchronize, exactly those after what it read |
| `DeliveryTheorems.NothingLost` | main.py:1353-1397 | in the same runs, what a subscriber has emitted, has still to replay and will let through from its queue is the whole journal after its cursor k, or after what it read when it has none or one past that |
| `Timeline.MaterializeTurn` | stream_journal.py:1161-1266 | the mutable per-turn loop computes the fold of the turn's records |
| `Timeline.GroupTurns` | stream_journal.py:1122-1137 | the first loop collects each turn's records, the turns in order of appearance and the attached aliases |
| `Timeline.MaterializeTimeline` | stream_journal.py:1115-1312 | the whole function: each turn with a record once, folded, with its alias suggestions; turns with a place in the saved history first, by their least place, then the others by their first record |
| `Timeline.SortedTurnsInOrder` | stream_journal.py:1139-1152 | the sorted turns are those with a record, each once, none before one that its places or first records put first |
| `TimelineItems.TypesFit` | stream_journal.py:1097-1112 | the item type of every record kind |
| `TimelineItems.PlacedSays` | stream_journal.py:1203-1262 | which item a record goes to, in any state: the one its source knows by its id; else the only one with the same words and attachments; else the only one of the other source alone with the same content, with a suggestion; else a new one, unresolved with every item of its type that its source does not know |
| `TimelineItems.PlacedKnows` | stream_journal.py:1203-1256 | how that item is known afterwards: by the record's id, or a new one by that and the ids attached to the record; those ids lead to it, and no other item or id is touched |
| `TimelineItems.ItemsAreMade` | stream_journal.py:1161-1304 | in any journal in order, live and saved records mixed at will, a turn's items are one by one the folds of the records that went to them (text, payload, attachments), and its status is that of the last record that ended it |
| `TimelineItems.AliasesAre` | stream_journal.py:1124-1132 | the id attached to an event for a source is that of the last well-formed record attaching one, and there is none without |
| `TimelineTheorems.FoldInOrder` | stream_journal.py:1225-1243 | items come in the order of the events that created them, and each was created by its own event |
| `TimelineTheorems.ItemsInCreationOrder` | stream_journal.py:1269-1270 | the final sort changes nothing |
| `TimelineTheorems.ExtensionKeepsItems` | stream_journal.py:1161-1273 | extending a journal by non-alias records keeps each turn's console item ids as a prefix |
| `TimelineLive.LiveItemsAreFolds` | stream_journal.py:1184-1266 | in a live-only turn there is one item per id; its type and console id come from that id's first event, and its text or payload is the fold of that id's own events, whatever is interleaved |
| `TimelineTools.ProjectFold` | stream_journal.py:1184-1266 | in any turn whose tools have keys of their own, the message items, the status and the suggestions for messages are those of the turn without its tool events |
| `TimelineAttached.FoldOrigins` | stream_journal.py:1203-1243 | every item has the type of the event that created it, and every suggestion gives such an item the id of an event of the same type in the same turn |
| `TimelineSettled.OneItemPerMessage` | stream_journal.py:1203-1259 | in the finished timeline of a turn streamed and then saved, tools among it: one message item per live message, in order, under both its ids, with a saved record of its type and text, none unresolved |
| `TimelineAttached.AttachRecordsAll` | stream_journal.py:1014-1038 | attaching any list of aliases, recorded or repeated ones among them, appends records of that list only, and afterwards each alias in it has a record |
| `TimelineSettled.AttachedMessagesSettle` | stream_journal.py:1115-1312 | after records of any suggestions that leave each of this turn's with a record, its message items and status are the same and no message is suggested again |
| `TimelineSettled.AttachedTurnSettles` | codex_service.py:1026-1042 | materialize, attach all that is suggested for the whole timeline, materialize again: the turn's message items and status are the same, no message is suggested again, and a turn without tools is the same altogether |
| `TimelineSettled.HelloIsStreamedTurn` | stream_journal.py:1203-1223 | a message and a command streamed live, the message then saved under another id, is such a turn, and its alias is suggested |
| `Sorting.SortPermutes` | stream_journal.py:1152 | the stable sort loses and repeats nothing |
| `Sorting.SortSorts` | stream_journal.py:1152 | after the sort no element stands before one that precedes it |
| `Sorting.SortKeepsOrdered` | stream_journal.py:1270 | sorting what is in order changes nothing |
| `Utf8.DecodeEncoded` | stream_journal.py:176-177 | decoding undoes encoding, whatever bytes follow (section 3 of RFC 3629) |
| `TruncateOutput.CutHead` | stream_journal.py:184 | the first k bytes decode to a prefix and lose at most three bytes |
| `TruncateOutput.CutTail` | stream_journal.py:185 | the bytes from k on decode to a suffix and lose at most three bytes |
| `TruncateOutput.TruncateKeepsLimit` | stream_journal.py:174-187 | any limit above the marker's 28 bytes is kept; a cut text is a prefix of three quarters of what is left, the marker and a suffix of the rest, up to three bytes less each; the flag and the byte count are right |
| `TruncateOutput.CutFitsIff` | stream_journal.py:181-187 | a text that must be cut fits its limit if and only if the limit exceeds 28 |
| `TruncateOutput.DefaultLimitKept` | stream_journal.py:34 | with the default limit: at most 65536 bytes of well-formed UTF-8 |
| `FingerprintWindow.RecentFingerprints.Admit` | codex_service.py:252-263 | one arrival is dropped exactly when the other channel carried it at most five seconds before, and else noted; above 2000 entries exactly those older than ten seconds go |
| `FingerprintWindow.PruningChangesNoDecision` | codex_service.py:259-263 | with a clock that never goes back, pruning never changes a decision against an unbounded map |
| `FingerprintWindow.OneChannelGetsThrough` | codex_service.py:255-258 | exactly one channel's copies get through if and only if every other copy comes within five seconds of the last of them |
| `TurnManager.TurnManager.Reserve` | turn_manager.py:42-65 | a reservation succeeds exactly when operations are accepted and the key is free |
| `TurnManager.TurnManager.ReserveMutation` | turn_manager.py:67-78 | a mutation is reserved exactly when the key is free, shutdown or not |
| `TurnManager.TurnManager.FinishMutation` | turn_manager.py:80-87 | exactly this key is discarded |
| `TurnManager.TurnManager.MarkRunning` | turn_manager.py:89-103 | the active operation gets its status, turn id and handle and keeps its task, else an error; every other operation is as it was |
| `TurnManager.TurnManager.Finish` | turn_manager.py:119-133 | the operation goes, unless the finish names another turn's id |
| `TurnManager.TurnManager.StopAccepting` | turn_manager.py:207-216 | new operations stop, and the handles to interrupt are exactly those the active operations hold |
| `TurnManager.TurnManager.Clear` | turn_manager.py:236-238 | shutdown ends with nothing held |
| `TurnManager.TurnManager.Enable` | turn_manager.py:240-242 | operations are accepted again, and what is held stays held |
| `TurnManager.TurnManager.ProjectMutation` | codex_service.py:562-599 | run alone, a project mutation gives back exactly what it took on every exit, and is entered exactly when all its threads are idle and free |
| `TurnTheorems.RunKeepsOneHolder` | turn_manager.py:42-133 | in every interleaving each held key has exactly one holder, an operation or one mutation |
| `TurnTheorems.MutationStep` | codex_service.py:584-599 | no step of a mutation touches an operation, another mutation or a key it does not hold |
| `TurnTheorems.TakenIsGivenBack` | codex_service.py:584-599 | in every interleaving, the keys a mutation has taken are, in order, those it has given back and then those it still holds |
| `TurnTheorems.GoneHasReleasedExactly` | codex_service.py:595-599 | however it was interleaved and wherever a conflict stopped it, a mutation that is gone has given back exactly the keys it took |
| `TurnTheorems.OwnersApart` | turn_manager.py:52-66 | what one owner sees of any interleaving is what its own actions alone give |
| `TurnTheorems.HandleStays` | turn_manager.py:89-103 | in every run, once an operation is marked running its handle and turn id stay for the shutdown until it is finished or marked again |
| `TurnTheorems.LateFinishSpares` | turn_manager.py:119-133 | a late finish naming an earlier turn spares the present operation if and only if that already has a turn id |
| `TurnTheorems.StartingReservationLost` | turn_manager.py:119-133 | a concrete run in which a starting reservation is lost to the turn before it |
| `Attachments.AttachmentStore.Validate` | conversation_attachments.py:284-290 | a request is accepted exactly when it has at most five distinct ids, each there as its metadata says, pending at most a day, of a known type and with the recorded size and digest, and at most 250 MiB in all |
| `Attachments.AttachmentStore.Bind` | conversation_attachments.py:298-324 | with faults at any forward step: all ids become the thread's with submitted metadata, or both directories are as they were; with no fault, refused exactly when an id does not load or lies in the thread's directory already |
| `Attachments.AttachmentStore.MoveAll` | conversation_attachments.py:306-316 | the forward loop: what has moved, with its own payload, when a step fails |
| `Attachments.AttachmentStore.Rollback` | conversation_attachments.py:318-323 | every moved attachment gets its first metadata and its place back |
| `Attachments.AttachmentStore.RestorePending` | conversation_attachments.py:326-341 | the loop leaves both directories, and stops or not, as the run of its steps says, with faults at any of them |
| `AttachmentTheorems.RestoreOutcome` | conversation_attachments.py:326-341 | every restore goes through for all, or stops at the first attachment whose steps do not: those before it are pending as they first were, those after it are untouched, and it is untouched or rewritten in place |
| `AttachmentTheorems.RestoresIff` | conversation_attachments.py:326-341 | with no fault a restore goes through exactly for distinct ids that load from the thread and are not pending too |
| `AttachmentTheorems.StoppedLoadsIff` | conversation_attachments.py:335-341 | the attachment a restore stopped at still loads from the thread if and only if the failure came before its metadata was rewritten |
| `AttachmentTheorems.OthersLoad` | conversation_attachments.py:326-341 | every other attachment of the thread is as loadable as before, from the thread or as a pending one within its time |
| `AttachmentTheorems.RestoreUndoesBind` | conversation_attachments.py:326-341 | after a bind, a restore at any later time is accepted and gives back both directories exactly |
| `AttachmentTheorems.RestoreCanStrand` | conversation_attachments.py:335-341 | a run: after any bind of one attachment, a restore at any time whose rename fails leaves it where neither store loads it |
| `Paging.ThreadsPartial` | main.py:1528-1582 | one request: all pins and the page's other threads on the first page, no pins on a later one |
| `Paging.PromotePins` | main.py:1542-1556 | the scan over 100-size pages finds exactly the pins after the first page, in listing order |
| `Paging.FollowedIsPartition` | main.py:1528-1582 | following the cursors shows the stable partition of the listing: every pin once, then every other thread once |
| `DiffLines.NumberLines` | project_files.py:85-113 | the loop with its two counters computes the numbering of the split lines |
| `DiffTheorems.TextsRestorePatch` | project_files.py:89-90 | joining the texts restores the patch, up to its final newline |
| `DiffTheorems.CutNumbersSame` | project_files.py:501-507 | output cut to the byte limit, back to a line end, and decoded numbers its lines as the whole output decoded does, for any decoder that keeps newlines apart |
| `DiffTheorems.KeptIs` | project_files.py:501-507 | what is kept: all of up to two megabytes, else everything before the last newline within them, or all of them without one |
| `DiffTheorems.Utf8KeepsNewlines` | project_files.py:507 | the decoder in use, UTF-8 with malformed bytes replaced, keeps newlines apart |
| `DiffTheorems.CutWithoutNewline` | project_files.py:503-506 | with no newline before the limit, the kept bytes are one line, the output's own if and only if it ends there |
| `DiffNumbers.HeaderRoundTrip` | project_files.py:91-95 | the start numbers printed in a hunk header are read back, with counts of zero and one as the format writes them |
| `DiffNumbers.PatchNumberedIff` | project_files.py:85-113 | for any edit scripts, every line gets its right numbers and kind if and only if no empty context line is written bare |
| `DiffNumbers.NumbersCarryLines` | project_files.py:100-111 | a line numbered n on a side carries line n of that side's file |
| `DiffNumbers.NumberedLinesAreTheFiles` | project_files.py:85-113 | in the numbering of any patch without bare context lines, whatever is numbered n on a side is line n of that version of the file it stands in |
| `SkillSave.SkillManager.Scan` | project_skills.py:165-197 | the counting loop stops exactly when the tree is past a limit |
| `SkillSave.SkillManager.Check` | project_skills.py:275-303 | the checks before the write, in their order, and for each refusal the fact that brings it about |
| `SkillSave.SkillManager.SaveFile` | project_skills.py:274-309 | one save: the new tree and outcome; the final scan never refuses a written file; other skills are untouched |
| `SkillSave.SaveKeepsLimits` | project_skills.py:298-309 | after a success the tree is within both limits, and no save, failed or not, takes a tree past them |
| `SkillSave.SucceedsIff` | project_skills.py:274-309 | a save succeeds if and only if its path and name are valid, its content within the limit of its kind and of the tree, no file stands above it, a SKILL.md is valid, and it names the hash of the file there, or that there is none, with room for it and nothing under its stripped name |
| `SkillSave.StripIs` | project_files.py:625 | stripping takes exactly the white space at both ends |
| `SkillSave.WrittenFiles` | project_skills.py:305-308 | a success changes one file and adds only the directories above it |
| `SkillSave.SaveNamesContent` | project_skills.py:287-290 | a success named the hash of the content it replaced, and its path then holds the new content if and only if the name needed no stripping |
| `SkillSave.NoLostUpdate` | project_skills.py:287-290 | in any run of saves, a success named exactly the content the previous success on that path wrote there, or none when that one wrote under the stripped name |
| `SkillSave.PaddedNameMoves` | project_files.py:625 | a concrete save whose file appears under the stripped name instead |

## Left out

- JSON, YAML, redaction, hashes, UUIDs and clocks: parameters or uninterpreted functions, with the injectivity or freshness a proof needs stated where it is used.
- Short writes, fsync and chmod failures after a line is written, unreadable files and symbolic links: a write completes or the process stops, and paths are plain.
- The append queue and its drain lock: an append runs without giving way, so it is one step here.
- Dedup keys are modelled by their parts; key strings that collide because a part contains a colon are not.
- StreamJournal.StreamJournal.TrashThread: re-use of a thread id after deletion, and what a directory holds that is moved inside another of the same stamped name.
- DeliveryTheorems.HubNeverAhead: no step prunes or trashes a journal while the process runs (codex_runtime.py:778); the topic would keep its sequence over the new, shorter journal.
- DeliveryTheorems.NothingLost: no pruning or trashing either.
- DeliveryTheorems.DeliversContiguously: no pruning or trashing either; one thread, records without attachments and an undamaged journal; a damaged journal makes every cursor resynchronize.
- Timeline.MaterializeTurn: the turn's metadata (model, effort, start and end times), which no item depends on.
- Timeline.MaterializeTimeline: the same metadata, and the display fields of tool items beyond their payload.
- TimelineSettled.AttachedTurnSettles: turns whose live messages have no attachments and pairwise different texts per type, and whose history repeats each once; with equal texts a later pass can suggest more. Nothing is said of the tool items after the records, only that messages do not notice them.
- TimelineSettled.OneItemPerMessage: the same turns.
- TimelineLive.LiveItemsAreFolds: no aliases and no attachments in the turn.
- TruncateOutput.TruncateKeepsLimit: text of Unicode scalar values; lone surrogates, which the encoder refuses, are not.
- FingerprintWindow.RecentFingerprints.Admit: time is a real number, so rounding of the clock is not modelled.
- TurnManager.TurnManager.StopAccepting: waiting for interrupts and tasks with a timeout is left between it and Clear.
- TurnManager.TurnManager.ProjectMutation: the listing of the project's threads, and the sets of mutating projects and of ignored notifications.
- The steer, interrupt, status and attach-task operations of the turn manager, which add no exclusion.
- Attachments.AttachmentStore.Bind: a rollback step that itself fails, and directories created before a fault, are not modelled; upload, deletion and pruning of pending attachments are left out.
- Attachments.AttachmentStore.RestorePending: with no ids the source still needs the thread's directory to exist.
- Paging.ThreadsPartial: pending threads merged into the first page.
- Paging.FollowedIsPartition: a fixed listing and pin set, full pages and no pending threads.
- DiffLines.NumberLines: header numbers are ASCII digits.
- DiffTheorems.CutNumbersSame: a cut without a newline before the limit, which Git's first line is too short for, is the lemma after it, on bytes.
- DiffNumbers.PatchNumberedIff: two-sided hunks only; the raw combined hunks of conflicts get no numbers and are not generated.
- SkillSave.SkillManager.Scan: one walk order; the revision digest, with its modes, times and inodes, and the check of each entry's path and type.
- Skill creation, renaming, import staging and deletion; project keys, quotas, routes, templates, the database, the SDK and the browser code.
