# Anki collection core, modelled in Dafny

This project models the stateful core of Anki's `Collection` (`pylib/anki/collection.py`):

- the single-slot **undo record** (`_undo`), which is one of three things:
  - a stack of reviewed-card snapshots with one `wasLeech` flag;
  - a named checkpoint;
  - nothing.

  The model covers `markReview`, `undo`, `_undoReview`, `_markOp`, `_undoOp`, `clearUndo` and `undoName`;
- the **save / transaction guard**:
  - the dirty flag of the database proxy;
  - `modified_after_begin`;
  - `save`, `autosave` and `rollback`;
- the **scheduler version** and the **schema gate**: `schedVer`, `changeSchedulerVer`, `modSchema` and `schemaChanged`;
- the small operations the collection does itself: `usn`, `nextID`, `_logRem`, `setUserFlag`, `startTimebox` and `timeboxReached`;
- the **duplicate search** `findDupes`.

Layout:

- `base.dfy`: `Option`, `Result`, the exceptions the code raises, and Python's `int()` truncation behind `intTime`.
- `text.dfy`: `str.lower` and `str.capitalize`, on ASCII letters.
- `storage.dfy`: the database rows this code touches (`col`, `cards`, `notes`, `revlog`, `graves`, the configuration). It also holds each SQL statement of the core as a pure function on those rows.
- `undo_log.dfy`: the undo record as a datatype. It has:
  - the pure transitions of `markReview`, `_markOp` and the pop in `_undoReview`;
  - the last-in-first-out lemmas;
  - the daily-count bucket lookup.
- `transaction.dfy`: the `DbProxy` class. It holds the dirty flag, `last_begin_at`, the open transaction, and the committed and uncommitted tables.
- `collection.dfy`: the `Collection` class. Each method updates real fields under a `modifies` frame and is specified against the pure functions above.
- `dupes.dfy`: `findDupes` and its `ordForMid` helper as loops. They are proved against the reference functions `NidsWith`, `DupeOrder` and `Dupes`, together with completeness, soundness and no-repeat lemmas.
- `scenarios.dfy`: client call sequences. Examples: two reviews undone newest first; a second save commits nothing; a bare save after a named one clears the checkpoint.

`schemaChanged` (`Collection.SchemaChanged`) and `modified_after_begin` (`Collection.ModifiedAfterBegin`) are one-line tests on the `col` row. The contracts of `ModSchema`, `Save` and `Autosave` use them.

Where the code and its documentation differ, this model follows the code:

- **`wasLeech`** is recomputed from the card marked last (`collection.py:695`). It is not kept from the first card of the stack. `UndoLog.EarlierReviewTakesLaterLeechFlag` shows the consequence: undoing an earlier review after a later one uses the later card's flag.
- **`markReview`** clears the record before it loads the note (`collection.py:691-695`). So a note that cannot be loaded leaves nothing to undo.
- **Negative queues.** The daily-count bucket lookup is a Python tuple index (`collection.py:734`). Negative queues -1, -2 and -3 pick a bucket from the end of the tuple. Only queues above 4 or below -3 raise `IndexError`.
- **`_markOp("")`** behaves like `_markOp(None)`: Python truthiness.
- **`findDupes` with a missing field.** When a note type lacks the named field, `ordForMid` raises `KeyError` on its cache (`collection.py:516`). So the `ord is None` guard at line 523 is never taken, and the model raises as the code does.

## Model

| member | source | states |
|---|---|---|
| UndoLog.UndoName | pylib/anki/collection.py:677-681 | None exactly when there is no record; otherwise the title of the review stack or the checkpoint name |
| UndoLog.MarkReview | pylib/anki/collection.py:689-701 | the result is always a well-formed review stack. It extends an existing stack by the new snapshot, or starts `[card]` over a checkpoint or nothing. The leech flag is that of the card just marked, and the title is the new undo name |
| UndoLog.MarkOp | pylib/anki/collection.py:739-746 | a non-empty name installs a checkpoint under that name. No name removes a checkpoint but leaves a review stack or nothing as it was. Well-formedness is kept |
| UndoLog.PopReview | pylib/anki/collection.py:704-708 | returns the newest snapshot and the stack without it. The record is cleared exactly when the last snapshot is popped, and it never becomes a checkpoint |
| UndoLog.PopUndoesMark | pylib/anki/collection.py:689-708 | popping right after a mark gives back the marked card and the earlier stack (or nothing) |
| UndoLog.EarlierReviewTakesLaterLeechFlag | pylib/anki/collection.py:695-708 | after two marks and one pop, the remaining stack carries the second card's leech flag |
| UndoLog.MarkAllStacks | pylib/anki/collection.py:689-701 | n marks stack their snapshots in order on top of a pending stack; the leech flag is the last one's |
| UndoLog.UndoAllReverses | pylib/anki/collection.py:683-708 | repeated undo over a review stack returns its snapshots newest first and ends with no record |
| UndoLog.ReviewsUndoneInReverse | pylib/anki/collection.py:683-708 | n reviews marked over no stack, then undone one by one, come back in reverse order. Afterwards `undoName` is None |
| UndoLog.ReviewsUndoneAfterPending | pylib/anki/collection.py:683-708 | over an existing stack, the new reviews come back first, then the older ones |
| UndoLog.CheckpointThenBareSaveClears | pylib/anki/collection.py:739-746 | a named checkpoint followed by a bare `_markOp` leaves no record |
| UndoLog.PyIndex | pylib/anki/collection.py:734 | a tuple index succeeds exactly when -len <= n < len, counting from the end when negative; otherwise IndexError |
| UndoLog.DailyBucket | pylib/anki/collection.py:731-734 | new→new; learning, day-learning and preview→lrn; review→rev. Negative queues -1, -2 and -3 wrap to rev, lrn and new. IndexError exactly below -3 or above 4 |
| Storage.LastRevlogId | pylib/anki/collection.py:719-721 | none exactly when the card has no review-log entry; otherwise the largest entry id for that card |
| Storage.DeleteRevlogId | pylib/anki/collection.py:722 | keeps exactly the entries whose id differs; a NULL id deletes nothing |
| Storage.Unbury | pylib/anki/collection.py:724-729 | the card's queue becomes its type, and `mod` and `usn` take the given values. Every other column is kept |
| Storage.RestoreSiblings | pylib/anki/collection.py:724-729 | the same card ids. Exactly the cards of the note that are sibling-buried are unburied with the new mod and usn; no other card's queue changes |
| Storage.FlagBits | pylib/anki/collection.py:826-835 | the low three bits become the flag and every other bit is kept |
| Storage.SetFlags | pylib/anki/collection.py:826-835 | the listed existing cards get the new flag bits, usn and mod; every other card is unchanged; no card is added |
| Storage.Graves | pylib/anki/collection.py:358-362 | one tombstone per id, in order, all with the same usn and kind |
| Storage.RestoreReviewed | pylib/anki/collection.py:709-729 | the database writes of undoing one review. The leech tag stays only if the note had it before the review. The snapshot is written back. The card's latest review-log entry is deleted unless previewing. Sibling-buried cards of the note are unburied. Other notes, configuration, `col` and graves are untouched |
| AnkiCollection.IdKey | pylib/anki/collection.py:345 | the key is "next" followed by the capitalized kind |
| AnkiCollection.Collection.constructor | pylib/anki/collection.py:72-92 | a transaction is open from the stored `mod`, there is no undo record, the last-save time is now, and the stored (or default 1) scheduler version is loaded |
| AnkiCollection.Collection.SchedVer | pylib/anki/collection.py:142-147 | the stored version, or 1 when none is stored; a value outside {1, 2} raises |
| AnkiCollection.Collection.SchemaChanged | pylib/anki/collection.py:319-321 | true exactly when the schema stamp is later than the last sync. `ModSchema` and `Scenarios.SchemaAsksOnce` state what follows from it |
| AnkiCollection.Collection.ModifiedAfterBegin | pylib/anki/collection.py:226-230 | false exactly when `col.mod` still equals the stamp recorded when the transaction began. `Save` states that a committing save with trx makes it false |
| AnkiCollection.Collection.Usn | pylib/anki/collection.py:323-324 | the stored usn on the server, -1 on a client |
| AnkiCollection.Collection.Save | pylib/anki/collection.py:232-249 | commits exactly when the proxy is dirty or `col.mod` moved since begin. It stamps `mod` first (the given value or now in ms) and reopens a transaction if trx. With nothing pending and no trx it rolls back once. Afterwards the proxy is clean, the record is `_markOp(name)` and the last-save time is now |
| AnkiCollection.Collection.Autosave | pylib/anki/collection.py:251-256 | saves exactly when more than 300 s passed since the last save. Then it commits iff something was pending:<br>• When it commits, the tables are stamped with now in ms and committed, and a transaction begins from that stamp.<br>• When nothing was pending, the tables, the committed tables and `lastBeginAt` are kept, and a transaction stays open only if one already was.<br>Either way the proxy ends clean. Without a save it changes nothing |
| AnkiCollection.Collection.Rollback | pylib/anki/collection.py:280-282 | the tables return to the last commit and a new transaction begins from their `mod`; the dirty flag is left as it was |
| AnkiCollection.Collection.ClearUndo | pylib/anki/collection.py:674-675 | no record is left |
| AnkiCollection.Collection.MarkOp | pylib/anki/collection.py:739-746 | the record becomes `UndoLog.MarkOp` of the old one |
| AnkiCollection.Collection.MarkReview | pylib/anki/collection.py:689-701 | with the note present, the record becomes `UndoLog.MarkReview` with the note's current leech tag. A missing note raises and leaves no record |
| AnkiCollection.Collection.Undo | pylib/anki/collection.py:683-687 | with no record it raises TypeError and changes nothing. A checkpoint is rolled back and cleared and returns None. A review stack is undone as `UndoReview` states, with the transaction itself left alone |
| AnkiCollection.Collection.UndoReview | pylib/anki/collection.py:703-737 | pops the newest snapshot. A missing note of a non-leech review raises and changes nothing more. Otherwise the tables become `RestoreReviewed` and the proxy is dirty. Then, unless the queue has no bucket, one stats call takes the review off its bucket, `reps` drops by one and the card id is returned |
| AnkiCollection.Collection.UndoOp | pylib/anki/collection.py:748-750 | the tables return to the last commit, a new transaction begins and no record is left |
| AnkiCollection.Collection.ModSchema | pylib/anki/collection.py:310-317 | refuses (AbortSchemaMod, nothing changed) exactly when the schema has not diverged since the last sync, the check is on, and the user declines. Otherwise `scm` and `mod` are stamped with now in ms, committed, a transaction reopened and the checkpoint cleared |
| AnkiCollection.Collection.SetConfig | pylib/anki/collection.py:219-222 | the key is set and `col.mod` is stamped, as a configuration write marks the collection modified |
| AnkiCollection.Collection.ChangeSchedulerVer | pylib/anki/collection.py:156-175 | four cases:<br>• An unsupported stored version or target raises, changing nothing.<br>• The current version is a no-op.<br>• A declined schema gate changes nothing.<br>• Otherwise the schema stamp is committed, undo cleared, the migration applied, the version stored and loaded, and `reps` reset. `schedVer` then returns the new version |
| AnkiCollection.Collection.NextId | pylib/anki/collection.py:344-349 | returns the stored counter (1 when none) and, when inc, stores one more; nothing changes otherwise |
| AnkiCollection.Collection.LogRem | pylib/anki/collection.py:358-362 | appends one tombstone per id, in order, with the current usn and the kind; the proxy is dirty |
| AnkiCollection.Collection.SetUserFlag | pylib/anki/collection.py:826-835 | a flag outside 0..7 fails the assertion and changes nothing; otherwise the cards become `SetFlags` with the current usn and now in seconds |
| AnkiCollection.Collection.StartTimebox | pylib/anki/collection.py:652-654 | records now and the current review count |
| AnkiCollection.Collection.TimeboxReached | pylib/anki/collection.py:657-665 | the outcomes:<br>• A missing limit raises KeyError; a zero limit means not reached.<br>• Without a started timebox it is an attribute error.<br>• With a non-zero limit and a started timebox there is no error, and it is reached exactly when more than the limit has elapsed. It then returns the limit (as the code does, not the elapsed time its docstring names) and the reviews since the start |
| Dupes.FieldOrd | pylib/anki/collection.py:512-515 | the first field position whose name equals the asked one ignoring case; none exactly when no name matches |
| Dupes.Ord | pylib/anki/collection.py:509-516 | an unknown note type is a TypeError and a note type without the field a KeyError; otherwise the first matching position |
| Dupes.OrdForMid | pylib/anki/collection.py:509-516 | the loop with its cache returns exactly `Ord`, and the cache holds only correct positions |
| Dupes.RowValue | pylib/anki/collection.py:521-529 | a value taken from a row is never empty |
| Dupes.ReadRow | pylib/anki/collection.py:521-529 | the per-row steps compute exactly `RowValue` and keep the cache correct |
| Dupes.NidsWith | pylib/anki/collection.py:530 | exactly the notes whose row carries the value |
| Dupes.Dupes | pylib/anki/collection.py:530-533 | each listed value is paired with all of its notes, as the aliased lists are at the end |
| Dupes.DupeOrderSound | pylib/anki/collection.py:527-532 | every listed value is non-empty and carried by at least two notes |
| Dupes.DupeOrderComplete | pylib/anki/collection.py:530-532 | every value carried by two or more notes is listed |
| Dupes.DupeOrderDistinct | pylib/anki/collection.py:530-532 | no value is listed twice |
| Dupes.DupesCharacterised | pylib/anki/collection.py:502-533 | a value appears in the answer exactly when two or more notes carry it. It appears once, with all of those notes, and it is non-empty |
| Dupes.ScanStep | pylib/anki/collection.py:530-532 | one loop pass keeps `vals` equal to the notes seen per value and `dupes` equal to the reference order |
| Dupes.Record | pylib/anki/collection.py:530-532 | `setdefault(...).append` and the second-note test keep that loop state |
| Dupes.FindDupes | pylib/anki/collection.py:502-533 | raises exactly when some row fails, with the first failing row's exception; otherwise returns `Dupes` of the rows |
| Scenarios.UndoNewest | pylib/anki/collection.py:683-737 | undo over a stack whose newest note exists and whose queue has a bucket returns that card, pops it, keeps the notes and lowers `reps` |
| Scenarios.TwoReviewsUndoneNewestFirst | pylib/anki/collection.py:689-737 | two reviews undone come back second first, then first, with nothing left to undo and `reps` two lower |
| Scenarios.SaveTwice | pylib/anki/collection.py:232-249 | two saves in a row commit at most once and never roll back; the proxy ends clean |
| Scenarios.CheckpointThenSave | pylib/anki/collection.py:739-746 | a named save followed by a bare save leaves nothing to undo |
| Scenarios.ReviewSurvivesSave | pylib/anki/collection.py:742-746 | a bare save after a review keeps the review on the undo stack |
| Scenarios.SchemaAsksOnce | pylib/anki/collection.py:310-321 | after a confirmed schema change stamped after the last sync, a checked change goes through without confirmation |
| Scenarios.NextIdsAreConsecutive | pylib/anki/collection.py:344-349 | two ids drawn for one kind are consecutive |

## Left out

- **Backend and environment:**
  - the Rust backend, searches (`findNotes` and the `search` argument of `findDupes`), logging, media, close, reopen, full sync and `Progress`;
  - `findDupes` takes the rows of its notes query as a parameter, in the order given;
  - the note types are a map from id to field names;
  - `splitFields` and `stripHTMLMedia` are parameters.
- **The database proxy (`dbproxy.py` is not part of this model).** Its behaviour is assumed:
  - `begin` records `col.mod` and opens a transaction;
  - `commit` makes the current tables durable;
  - `rollback` returns to them and leaves the dirty flag alone;
  - every insert, update or delete marks it dirty.
- **Configuration writes.** These go through the backend, which stamps `col.mod` with the current time in milliseconds (`collection.py:219-222`). `SetConfig` models that stamp.
- **Cards and notes (`cards.py` and `notes.py` are not part of this model).**
  - `Card.flush` and `Note.flush` are modelled as writing the row back as it is, without their own `mod`/`usn` stamping.
  - Tags are a set matched exactly, not case-insensitively.
- **Scheduler internals (`sched.py` and the V1/V2 schedulers are not part of this model):**
  - `_cardConf` is the `cardConf` parameter;
  - `_updateStats` is recorded as a list of calls;
  - loading a scheduler starts its review count at 0;
  - `moveToV1`/`moveToV2` are the opaque `migrate` parameter.
- **Time.** `time.time()` is a real-valued `now` parameter, without floating-point rounding. `intTime` truncates toward zero.
- **One clock reading per call.** Each modelled call reads the clock once. So `ModSchema` stamps `scm` and the committed `mod` with the same millisecond. `ChangeSchedulerVer` also ends with `lastBeginAt` equal to `col.mod`, although the source's later configuration write would carry a later time. The commit decision does not change, because that write also marks the proxy dirty.
- **Case mapping.** `str.lower` and `str.capitalize` act on ASCII letters only.
- **Translation.** The undo title `tr(TR.SCHEDULING_REVIEW)` is a parameter.
- AnkiCollection.Collection.constructor: requires a supported stored scheduler version. The source raises while loading the scheduler in that case, and a Dafny constructor cannot return that error.
- AnkiCollection.Collection.Autosave: returns false where the source returns None.
- AnkiCollection.Collection.UndoReview: the in-place `data.pop()` on the list held by the record is modelled as replacing the record. No other reference to that list exists.
- **Hooks.** `schema_will_change` is the `confirm` parameter.
