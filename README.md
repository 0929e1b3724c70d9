# hutch checkpoint engine in Dafny

This project models the in-memory checkpoint and undo engine of `hutch`.
A **checkpoint** is a named or unnamed snapshot. It holds the tracked file
contents, plus slots reserved for a conversation snapshot and agent states.
The **checkpoint manager** keeps:

- a registry from checkpoint identity to checkpoint;
- the creation order of the identities, oldest first;
- a **current** pointer to the checkpoint the live state reflects;
- a **file tracker**: file contents by path, plus a log of pending changes;
- a **turn tracker**: which checkpoint was taken at which conversation turn.

It saves manual checkpoints and automatic turn checkpoints. It restores a
checkpoint by writing its files back to disk, and undoes to the checkpoint
before the current one. After each save it prunes the creation order down
to a configured ceiling.

The modules are:

- `Wrappers`: `Option` and `Result`.
- `Basics`: the value types (identities, timestamps, `u32`) and sequence facts.
- `Errors`: the error kinds (`src/error.rs`).
- `Text`: UTF-8 byte length, decimal and `HH:MM:SS` rendering, each with its parser.
- `Checkpoints`: `src/checkpoint.rs`.
- `FileTracking`: `src/file_tracker.rs`.
- `TurnTracking`: `src/turn_tracker.rs`.
- `Managers`: `src/manager.rs`.

The trackers and the manager update their fields in place, so each one is
a class. Each class has a `Valid()` invariant that its methods preserve.

The trackers' invariants are:

- File tracker: every path in the pending log is tracked, and its tracked
  content is the content of its newest log entry.
- Turn tracker: every recorded turn is below `count`. When any turn is
  recorded, the current turn is one of them.

The registry invariant (`RegistryValid`) is:

- every identity in the order is registered;
- no identity appears twice in the order;
- every checkpoint is filed under its own identity.

The manager's invariant adds one rule: with a ceiling of at least one, the
current pointer is none or names a registered checkpoint. With a ceiling of
zero, an unnamed save leaves it naming a checkpoint that was pruned at once.

Pruning is a pure function, `Prune`, on the registry. The manager's pruning
loop is proved to compute it.

Pruning follows the code of `prune_checkpoints`. A named checkpoint at the
front of the order is dropped from the order but stays in the registry, so
it is no longer listed but can still be fetched with `get`. An unnamed one
is dropped from both. The comments at `src/manager.rs:266` and
`src/manager.rs:269` say "Don't remove named checkpoints" and "Skip named
checkpoints". The code keeps such a checkpoint in the registry but still
takes it out of the order, and the model follows the code.

## Model

| member | source | states |
|---|---|---|
| Text.Utf8Width | src/checkpoint.rs:54-56 | a character takes 1 to 4 UTF-8 bytes, and exactly 1 iff it is ASCII |
| Text.ByteLength | src/checkpoint.rs:55 | `String::len`: a string's UTF-8 byte count is between its character count and four times that |
| Text.ByteLengthAppend | src/checkpoint.rs:54-56 | byte length adds up over concatenation |
| Text.AsciiByteLength | src/checkpoint.rs:55 | byte length equals character count exactly when the text is ASCII |
| Text.Decimal | src/checkpoint.rs:45 | decimal rendering is non-empty, all digits, and has no leading zero except for 0 |
| Text.DecimalRoundTrip | src/checkpoint.rs:45 | parsing the decimal rendering gives back the number |
| Text.DecimalInjective | src/checkpoint.rs:45 | distinct numbers render differently |
| Text.TwoDigits | src/checkpoint.rs:47 | a zero-padded two-digit field parses back to its value |
| Text.ClockText | src/checkpoint.rs:47 | `%H:%M:%S` is eight characters with colons at positions 2 and 5 |
| Text.ClockRoundTrip | src/checkpoint.rs:47 | the clock text is well formed and parses back to the second of the day |
| Checkpoints.DefaultData | src/checkpoint.rs:60-69 | `CheckpointData::default()` has no files, no conversation snapshot and no agent states |
| Checkpoints.TotalByteLengthRemove | src/checkpoint.rs:52-57 | the size sum splits into one file's byte length plus the sum over the rest, whichever file is picked |
| Checkpoints.TotalByteLengthInsert | src/checkpoint.rs:52-57 | adding a new file adds its byte length to the sum |
| Checkpoints.Checkpoint.Summary | src/checkpoint.rs:41-49 | the name if there is one; otherwise "Turn " and the decimal turn; otherwise "Checkpoint at " and an eight-character clock |
| Checkpoints.Checkpoint.EstimatedSize | src/checkpoint.rs:52-57 | zero with no files, and at least the byte length of every file |
| Checkpoints.Checkpoint.ToMeta | src/checkpoint.rs:29-38 | the metadata copies identity, name, timestamp and task, and carries the estimated size and the summary |
| Checkpoints.TurnSummaryParses | src/checkpoint.rs:44-45 | an unnamed turn checkpoint's summary is "Turn " followed by digits that parse to the turn number |
| Checkpoints.TimestampSummaryParses | src/checkpoint.rs:46-47 | an unnamed, turnless checkpoint's summary ends in a clock reading that parses to the UTC second of the day |
| Checkpoints.EstimatedSizeOfTwoFiles | src/checkpoint.rs:171-186 | "hello" and "world" give an estimated size of 10 |
| Checkpoints.MetaOfTurnCheckpoint | src/checkpoint.rs:230-246 | an unnamed turn-1 checkpoint holding "content" has size 7 and summary "Turn 1" |
| FileTracking.FileTracker.constructor | src/file_tracker.rs:29-34 | a new tracker tracks nothing and has an empty log |
| FileTracking.FileTracker.RecordChange | src/file_tracker.rs:37-51 | appends exactly the change to the log and sets the path's content; the tracked count grows only for a new path; the invariant is kept |
| FileTracking.FileTracker.CurrentStates | src/file_tracker.rs:54-56 | the snapshot covers every path in the pending log |
| FileTracking.FileTracker.PendingChanges | src/file_tracker.rs:59-61 | every logged path is tracked |
| FileTracking.FileTracker.ClearPending | src/file_tracker.rs:64-66 | the log is emptied and the states are kept |
| FileTracking.FileTracker.ResetTo | src/file_tracker.rs:69-72 | the states become the snapshot and the log is emptied |
| FileTracking.FileTracker.GetState | src/file_tracker.rs:75-77 | present exactly for tracked paths, and equal to the newest logged content of the path |
| FileTracking.FileTracker.IsTracked | src/file_tracker.rs:80-82 | true exactly when `get_state` finds the path |
| FileTracking.FileTracker.TrackedCount | src/file_tracker.rs:85-87 | the number of tracked paths, which covers every distinct logged path |
| FileTracking.RecordTwice | src/file_tracker.rs:211-221 | two changes to one path leave one tracked path more at most, two more log entries, and the second content |
| FileTracking.FileDiff.IsEmpty | src/file_tracker.rs:139-141 | true exactly when no path is reported in any of the three lists |
| FileTracking.EmptyDiffIsEmpty | src/file_tracker.rs:376-381 | `FileDiff::default()` is empty, reports zero changes, and is the diff of two empty snapshots |
| FileTracking.FileDiff.TotalChanges | src/file_tracker.rs:139-146 | the sum of the three list lengths, zero exactly when the diff is empty |
| FileTracking.Diff | src/file_tracker.rs:90-117 | added lists exactly the new paths, modified exactly the paths whose content changed, deleted exactly the vanished paths, each without repeats |
| FileTracking.DiffOfSameIsEmpty | src/file_tracker.rs:361-374 | a snapshot compared with itself gives an empty diff |
| FileTracking.DiffEmptyIffUnchanged | src/file_tracker.rs:90-117 | a diff is empty exactly when the two snapshots are equal, in both directions |
| FileTracking.DiffPartitions | src/file_tracker.rs:98-114 | every path of either snapshot falls in at most one of the three lists |
| FileTracking.DiffTotalBound | src/file_tracker.rs:144-146 | the total change count is at most the number of paths in either snapshot |
| FileTracking.DiffFromEmpty | src/file_tracker.rs:333-345 | from an empty snapshot, exactly the new paths are added and nothing is modified or deleted |
| FileTracking.DiffToEmpty | src/file_tracker.rs:347-359 | to an empty snapshot, exactly the old paths are deleted and nothing is added or modified |
| TurnTracking.MinimumExists | src/turn_tracker.rs:62 | every non-empty set of turn numbers has a least element |
| TurnTracking.TurnTracker.constructor | src/turn_tracker.rs:18-24 | a new tracker has no turns and zero counters |
| TurnTracking.TurnTracker.RecordTurn | src/turn_tracker.rs:27-31 | maps the turn to the checkpoint, makes it current, and raises `count` to at least turn + 1 without lowering it |
| TurnTracking.TurnTracker.CheckpointForTurn | src/turn_tracker.rs:34-36 | present exactly for recorded turns, and a recorded turn is below `count` |
| TurnTracking.TurnTracker.CurrentTurn | src/turn_tracker.rs:39-41 | once any turn is recorded, the current turn has a checkpoint |
| TurnTracking.TurnTracker.Count | src/turn_tracker.rs:44-46 | every recorded turn is below the count |
| TurnTracking.TurnTracker.PreviousCheckpoint | src/turn_tracker.rs:49-55 | none at turn 0; otherwise the checkpoint of the turn before the current one |
| TurnTracking.TurnTracker.AllTurns | src/turn_tracker.rs:58-64 | every recorded (turn, checkpoint) pair exactly once, in strictly ascending turn order |
| TurnTracking.TurnTracker.Clear | src/turn_tracker.rs:67-71 | no turns and zero counters |
| TurnTracking.TwoTurns | src/turn_tracker.rs:84-98 | turns 0 and 1 give current turn 1, count 2, and the first checkpoint as previous |
| Managers.StoreCheckpoint | src/manager.rs:237-244 | fails with a storage error exactly when serialization fails |
| Managers.FileSystem.Write | src/manager.rs:248-251 | a write either sets the file, or fails with its cause and leaves every other file as it was; the failing file's content is unspecified |
| Managers.WroteBackSucceedsExactly | src/manager.rs:246-258 | writing back succeeds exactly when no file of the snapshot fails to write |
| Managers.Prune | src/manager.rs:260-282 | the order keeps exactly its last `max` entries |
| Managers.PruneStep | src/manager.rs:265-276 | one round of the loop takes exactly the front entry off the order |
| Managers.PruneRetains | src/manager.rs:264-279 | at most `max` ordered entries remain; every remaining checkpoint is unchanged; a checkpoint leaves the registry exactly when it was among the dropped entries and is unnamed |
| Managers.DefaultConfiguration | src/manager.rs:28-37 | the defaults take turn checkpoints, track files under `.lair/checkpoints`, leave up to 50 ordered checkpoints and evict the oldest of 51 |
| Managers.PrunePreservesValid | src/manager.rs:264-279 | pruning keeps the registry consistent |
| Managers.RegisterPreservesValid | src/manager.rs:88-89 | registering a fresh checkpoint at the end of the order keeps the registry consistent |
| Managers.SaveKeepsNewest | src/manager.rs:88-93 | with a ceiling of at least one, the saved checkpoint is registered and last in order after pruning |
| Managers.ZeroCeilingForgetsUnnamed | src/manager.rs:88-93 | with a ceiling of zero, an unnamed save is pruned at once, so the identity `save` returns and makes current is not registered |
| Managers.ThreeUnnamedSaves | src/manager.rs:264-279 | with a ceiling of two, three unnamed checkpoints leave the last two and forget the first |
| Managers.NamedCheckpointsExceedCeiling | src/manager.rs:216-218 | named checkpoints keep `count()` above the ceiling: two survive a ceiling of one |
| Managers.IndexOf | src/manager.rs:160 | `position`: the first matching index, or the length when absent |
| Managers.UndoPosition | src/manager.rs:159-161 | the current pointer's index, or the length when it is unset or not in the order |
| Managers.UndoTarget | src/manager.rs:163-167 | `NothingToUndo` exactly at position 0; otherwise the entry before the current position |
| Managers.UndoFailsExactly | src/manager.rs:159-165 | undo has nothing to do exactly when the order is empty or the current checkpoint is the first |
| Managers.UndoStepsBack | src/manager.rs:159-167 | from the k-th checkpoint, undo goes to the (k-1)-th |
| Managers.UndoWithoutCurrent | src/manager.rs:159-167 | with no current checkpoint in the order, undo goes to the newest |
| Managers.ListMetas | src/manager.rs:196-203 | at most one record per ordered identity; when all are registered, exactly their metadata in order |
| Managers.PrunedNamedIsUnlisted | src/manager.rs:264-279 | a named checkpoint pruned from the order can still be fetched but is not listed |
| Managers.CountCovers | src/manager.rs:216-218 | a repeat-free order of registered identities is no longer than the registry |
| Managers.CheckpointManager.constructor | src/manager.rs:57-66 | nothing registered, nothing current, both trackers empty |
| Managers.CheckpointManager.CollectCheckpointData | src/manager.rs:227-235 | the tracker's file states, with the reserved slots left at their defaults |
| Managers.CheckpointManager.PruneCheckpoints | src/manager.rs:260-282 | the loop computes `Prune` of the registry and leaves at most `max` entries in order |
| Managers.CheckpointManager.Save | src/manager.rs:69-103 | a failed store changes nothing; otherwise returns the identity, makes it current, and the registry is `Prune` of the old one plus the new checkpoint |
| Managers.CheckpointManager.CheckpointTurn | src/manager.rs:106-151 | refused with no change when auto-checkpointing is off; a failed store changes nothing; otherwise as save for an unnamed turn checkpoint, and the turn now maps to it (the turn-number bound is needed only on this last path) |
| Managers.CheckpointManager.RestoreFiles | src/manager.rs:246-258 | writes back until the first failure, with the failing file unspecified; the tracker is reset to the snapshot only when every write succeeds |
| Managers.CheckpointManager.Restore | src/manager.rs:174-193 | an unknown identity changes nothing; otherwise the files are written back, and only full success makes it current and resets the tracker |
| Managers.CheckpointManager.Undo | src/manager.rs:154-171 | nothing to undo changes nothing; otherwise restores the undo target with the restore outcome |
| Managers.CheckpointManager.List | src/manager.rs:196-203 | one metadata record per ordered identity, of that identity, in order |
| Managers.CheckpointManager.Current | src/manager.rs:211-213 | with a ceiling of at least one, the current pointer of a valid manager is none or a registered checkpoint; every operation keeps this as part of `Valid()` |
| Managers.CheckpointManager.Get | src/manager.rs:206-208 | present exactly for registered identities, carrying that identity |
| Managers.CheckpointManager.Count | src/manager.rs:216-218 | the registry size, never below the length of the order |
| Managers.CheckpointManager.RecordFileChange | src/manager.rs:221-223 | passes the change to the file tracker, with its log and states updated as `record_change` does |
| Managers.SaveTwoNamed | src/manager.rs:289-316 | two named saves on a default manager give count 2, the second as current, and two listed records |

## Left out

- `src/storage.rs` (the on-disk checkpoint store) is not part of this model. `store_checkpoint` does not persist anything. Its only outcomes are success with a size, or a serialization failure with a message, so the model takes that outcome as a parameter (`StoreOutcome`).
- JSON serialization is not modelled. Agent states are opaque strings (`JsonText`), and the stored size is used only for logging.
- Concurrency is not modelled. The `RwLock`s around each field and the `async` functions are modelled as sequential method calls.
- Logging (`tracing`) is not modelled.
- Fresh identities come from `CheckpointId::new`, and timestamps from `Utc::now` and `Instant::now`. The model takes them as parameters. Save and turn checkpoints require that the new identity is not already registered.
- `HashMap` iteration order is unspecified. The diff loops and the restore loop pick their next key by choice (`:|`), and their contracts hold for any order. For restore, the set of files written before a failure is a ghost output.
- Managers.CheckpointManager.RestoreFiles: the Rust `RestoreError` carries one formatted message, "Failed to restore {path}: {cause}". The model keeps the path and the cause as two fields rather than that text.
- Paths are compared as text (`Path` is a string). Rust's `PathBuf` compares and hashes by components, so "/a.txt", "/a.txt/", "//a.txt" and "/./a.txt" are one key there. The model assumes every path reaching the trackers is already in one canonical spelling. Component-wise equality and non-UTF-8 file names are not modelled.
- `IoError` is declared with its constructor but no operation in the core produces it.
- TurnTracking.TurnTracker.RecordTurn: requires `turnNumber < U32_MAX`. In Rust, `turn_number + 1` overflows at `u32::MAX`: it panics in debug builds and wraps to 0 in release builds.
- Managers.CheckpointManager.CheckpointTurn: requires `turnNumber < U32_MAX` only when auto-checkpointing is on and the store succeeds, the one path that reaches `record_turn`. The overflow at `u32::MAX` on that path is not modelled, as for RecordTurn.
- `usize` and `u64` counters (`count()`, `tracked_count()`, `total_changes()`, `estimated_size()`, token counts) are modelled as unbounded naturals. They cannot overflow for any collection that fits in memory.
- Checkpoints.Checkpoint.Summary: the clock text uses whole UTC seconds of the day. Leap seconds and sub-second precision are not modelled.
- TurnTracking.TurnTracker.AllTurns: the library sort is modelled by repeatedly taking the least remaining turn. The order of the result is what the contract states.
- Checkpoints.Checkpoint.EstimatedSize, Checkpoints.Checkpoint.ToMeta, Managers.ListMetas and Managers.CheckpointManager.List are ghost functions. The size is a sum over a map, which has no compiled iteration order.
- `trackFiles` and `storageDir` are carried in the configuration but never consulted, just as in the source.
- `src/lib.rs` only re-exports the crate's items and is not part of this model.
