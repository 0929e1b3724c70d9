/** The error kinds of the checkpoint engine (`CheckpointError`). */
module Errors {
  import opened Basics

  datatype CheckpointError =
    /** A restore target is not registered. */
    | NotFound(id: CheckpointId)
    /** Undo has no predecessor to go back to. */
    | NothingToUndo
    /** A turn checkpoint was requested while auto-checkpointing is off. */
    | AutoCheckpointDisabled
    /** Persisting a checkpoint failed; carries the serializer's message. */
    | StorageError(detail: string)
    /** Writing `path` back to disk failed with `cause` during a restore. */
    | RestoreError(path: Path, cause: string)
    /** An unclassified low-level I/O failure. */
    | IoError(detail: string)
}
