/** The file-state tracker: the current content of every tracked file, an
    append-only log of the changes recorded since the last clear, and the
    three-way diff of two snapshots (`src/file_tracker.rs`). */
module FileTracking {
  import opened Wrappers
  import opened Basics

  /** One recorded change of a file. */
  datatype FileChange = FileChange(
    path: Path,
    oldContent: Option<string>,
    newContent: string,
    timestamp: Instant)

  /** No later entry of `log` touches the path of entry `i`. */
  predicate IsLatestFor(log: seq<FileChange>, i: nat)
    requires i < |log|
  {
    forall j :: i < j < |log| ==> log[j].path != log[i].path
  }

  /** The paths the log mentions. */
  function LoggedPaths(log: seq<FileChange>): set<Path>
  {
    set c | c in log :: c.path
  }

  class FileTracker {
    /** Current content of every tracked file. */
    var states: map<Path, string>
    /** Changes recorded since the last clear, oldest first. */
    var pending: seq<FileChange>

    /** Every logged change concerns a tracked file, and the newest change of
        each logged path holds that file's current content. */
    ghost predicate Valid()
      reads this
    {
      forall i :: 0 <= i < |pending| ==>
        pending[i].path in states
        && (IsLatestFor(pending, i) ==> states[pending[i].path] == pending[i].newContent)
    }

    /** `FileTracker::new`: nothing tracked, nothing logged. */
    constructor ()
      ensures Valid() && states == map[] && pending == []
    {
      states := map[];
      pending := [];
    }

    /** Appends the change to the log unconditionally and overwrites the
        path's content. */
    method RecordChange(path: Path, oldContent: Option<string>, newContent: string, at: Instant)
      requires Valid()
      modifies this
      ensures Valid()
      ensures pending == old(pending) + [FileChange(path, oldContent, newContent, at)]
      ensures states == old(states)[path := newContent]
      ensures |states| == if path in old(states) then old(|states|) else old(|states|) + 1
    {
      ghost var log := pending;
      pending := pending + [FileChange(path, oldContent, newContent, at)];
      states := states[path := newContent];
      forall i | 0 <= i < |pending|
        ensures pending[i].path in states
        ensures IsLatestFor(pending, i) ==> states[pending[i].path] == pending[i].newContent
      {
        if i < |log| {
          assert pending[i] == log[i];
          if IsLatestFor(pending, i) {
            assert pending[|log|].path == path;
            assert IsLatestFor(log, i) by {
              forall j | i < j < |log| ensures log[j].path != log[i].path {
                assert pending[j] == log[j];
              }
            }
          }
        }
      }
    }

    /** A copy of the current file states; it covers every logged path. */
    function CurrentStates(): (m: map<Path, string>)
      reads this
      ensures Valid() ==> LoggedPaths(pending) <= m.Keys
    {
      states
    }

    /** The log since the last clear; under the invariant every entry is tracked. */
    function PendingChanges(): (log: seq<FileChange>)
      reads this
      ensures Valid() ==> forall i :: 0 <= i < |log| ==> log[i].path in states
    {
      pending
    }

    /** Empties the log; the file states are left alone. */
    method ClearPending()
      modifies this`pending
      ensures Valid() && pending == []
    {
      pending := [];
    }

    /** Replaces every file state with `snapshot` and empties the log. */
    method ResetTo(snapshot: map<Path, string>)
      modifies this
      ensures Valid() && states == snapshot && pending == []
    {
      states := snapshot;
      pending := [];
    }

    /** The content of `path`: present exactly when the path is tracked and,
        under the invariant, the content of its newest logged change. */
    function GetState(path: Path): (r: Option<string>)
      reads this
      ensures r.Some? <==> path in states
      ensures r.Some? ==> r.value == states[path]
      ensures Valid() ==> forall i :: 0 <= i < |pending| && pending[i].path == path && IsLatestFor(pending, i)
                            ==> r == Some(pending[i].newContent)
    {
      if path in states then Some(states[path]) else None
    }

    /** Whether `path` is tracked: exactly when it has a state. */
    function IsTracked(path: Path): (b: bool)
      reads this
      ensures b <==> GetState(path).Some?
    {
      path in states
    }

    /** Number of tracked files; never fewer than the paths the log mentions. */
    function TrackedCount(): (n: nat)
      reads this
      ensures n == |states|
      ensures Valid() ==> |LoggedPaths(pending)| <= n
    {
      var logged := LoggedPaths(pending);
      assert Valid() ==> states.Keys == logged + (states.Keys - logged);
      |states|
    }
  }

  /** Two changes to one path: one more tracked file at most, two more log
      entries, and the second content wins. */
  method RecordTwice(t: FileTracker, path: Path, first: string, second: string, at1: Instant, at2: Instant)
    requires t.Valid()
    modifies t
    ensures t.Valid()
    ensures t.TrackedCount() == if path in old(t.states) then old(t.TrackedCount()) else old(t.TrackedCount()) + 1
    ensures |t.PendingChanges()| == old(|t.PendingChanges()|) + 2
    ensures t.GetState(path) == Some(second)
  {
    t.RecordChange(path, None, first, at1);
    ghost var afterFirst := t.TrackedCount();
    t.RecordChange(path, Some(first), second, at2);
    assert t.TrackedCount() == afterFirst;
  }

  /** Paths present only in the new snapshot. */
  function AddedPaths(before: map<Path, string>, after: map<Path, string>): set<Path>
  {
    after.Keys - before.Keys
  }

  /** Paths present in both snapshots with different content. */
  function ModifiedPaths(before: map<Path, string>, after: map<Path, string>): set<Path>
  {
    set p | p in before && p in after && before[p] != after[p]
  }

  /** Paths present only in the old snapshot. */
  function DeletedPaths(before: map<Path, string>, after: map<Path, string>): set<Path>
  {
    before.Keys - after.Keys
  }

  /** The result of a diff: three lists whose order is unspecified. */
  datatype FileDiff = FileDiff(added: seq<Path>, modified: seq<Path>, deleted: seq<Path>)
  {
    /** No path is reported in any of the three lists. */
    function IsEmpty(): (b: bool)
      ensures b <==> Elements(added) + Elements(modified) + Elements(deleted) == {}
    {
      ElementsEmpty(added);
      ElementsEmpty(modified);
      ElementsEmpty(deleted);
      added == [] && modified == [] && deleted == []
    }

    /** Number of changed files: zero exactly when the diff is empty. */
    function TotalChanges(): (n: nat)
      ensures n == 0 <==> IsEmpty()
      ensures n == |added| + |modified| + |deleted|
    {
      |added| + |modified| + |deleted|
    }
  }

  /** `FileDiff::default()`. */
  const EmptyDiff := FileDiff([], [], [])

  /** The default diff is empty, reports no changes, and is the diff of two
      empty snapshots. */
  lemma EmptyDiffIsEmpty()
    ensures EmptyDiff.IsEmpty() && EmptyDiff.TotalChanges() == 0
    ensures Describes(EmptyDiff, map[], map[])
  {
  }

  /** `d` lists, each without repetition, exactly the added, modified and
      deleted paths between the two snapshots. */
  predicate Describes(d: FileDiff, before: map<Path, string>, after: map<Path, string>)
  {
    && Elements(d.added) == AddedPaths(before, after) && Distinct(d.added)
    && Elements(d.modified) == ModifiedPaths(before, after) && Distinct(d.modified)
    && Elements(d.deleted) == DeletedPaths(before, after) && Distinct(d.deleted)
  }

  /** `FileTracker::diff`: one pass over the new snapshot collects added and
      modified paths, one pass over the old snapshot collects deleted paths.
      Keys are visited in an unspecified order, as in a HashMap. */
  method Diff(before: map<Path, string>, after: map<Path, string>) returns (d: FileDiff)
    ensures Describes(d, before, after)
  {
    var added: seq<Path> := [];
    var modified: seq<Path> := [];
    var rest := after.Keys;
    while rest != {}
      invariant rest <= after.Keys
      invariant Elements(added) == AddedPaths(before, after) - rest && Distinct(added)
      invariant Elements(modified) == ModifiedPaths(before, after) - rest && Distinct(modified)
      decreases rest
    {
      var p :| p in rest;
      if p !in before {
        ElementsAppend(added, p);
        DistinctAppend(added, p);
        added := added + [p];
      } else if before[p] != after[p] {
        ElementsAppend(modified, p);
        DistinctAppend(modified, p);
        modified := modified + [p];
      }
      rest := rest - {p};
    }
    var deleted: seq<Path> := [];
    var gone := before.Keys;
    while gone != {}
      invariant gone <= before.Keys
      invariant Elements(deleted) == DeletedPaths(before, after) - gone && Distinct(deleted)
      decreases gone
    {
      var p :| p in gone;
      if p !in after {
        ElementsAppend(deleted, p);
        DistinctAppend(deleted, p);
        deleted := deleted + [p];
      }
      gone := gone - {p};
    }
    d := FileDiff(added, modified, deleted);
  }

  /** A snapshot compared with itself has no changes. */
  lemma DiffOfSameIsEmpty(d: FileDiff, snapshot: map<Path, string>)
    requires Describes(d, snapshot, snapshot)
    ensures d.IsEmpty() && d.TotalChanges() == 0
  {
    ElementsEmpty(d.added);
    ElementsEmpty(d.modified);
    ElementsEmpty(d.deleted);
  }

  /** A diff is empty exactly when the two snapshots are equal. */
  lemma DiffEmptyIffUnchanged(d: FileDiff, before: map<Path, string>, after: map<Path, string>)
    requires Describes(d, before, after)
    ensures d.IsEmpty() <==> before == after
  {
    if d.IsEmpty() {
      assert AddedPaths(before, after) == {} && DeletedPaths(before, after) == {};
      assert before.Keys == after.Keys;
      forall p | p in before ensures before[p] == after[p] {
        assert p !in ModifiedPaths(before, after);
      }
    } else if before == after {
      DiffOfSameIsEmpty(d, before);
    }
  }

  /** Every path of either snapshot falls in exactly one of added, modified,
      deleted and unchanged. */
  lemma DiffPartitions(before: map<Path, string>, after: map<Path, string>, p: Path)
    requires p in before.Keys + after.Keys
    ensures (if p in AddedPaths(before, after) then 1 else 0)
          + (if p in ModifiedPaths(before, after) then 1 else 0)
          + (if p in DeletedPaths(before, after) then 1 else 0)
          + (if p in before && p in after && before[p] == after[p] then 1 else 0) == 1
  {
  }

  /** A diff never reports more changes than there are paths in the two snapshots. */
  lemma DiffTotalBound(d: FileDiff, before: map<Path, string>, after: map<Path, string>)
    requires Describes(d, before, after)
    ensures d.TotalChanges() <= |before.Keys + after.Keys|
  {
    DistinctCardinality(d.added);
    DistinctCardinality(d.modified);
    DistinctCardinality(d.deleted);
    DisjointSubsetsCardinality(AddedPaths(before, after), ModifiedPaths(before, after),
                               DeletedPaths(before, after), before.Keys + after.Keys);
  }

  /** Diffing from nothing adds every path. */
  lemma DiffFromEmpty(d: FileDiff, snapshot: map<Path, string>)
    requires Describes(d, map[], snapshot)
    ensures Elements(d.added) == snapshot.Keys && d.modified == [] && d.deleted == []
  {
    ElementsEmpty(d.modified);
    ElementsEmpty(d.deleted);
  }

  /** Diffing to nothing deletes every path. */
  lemma DiffToEmpty(d: FileDiff, snapshot: map<Path, string>)
    requires Describes(d, snapshot, map[])
    ensures Elements(d.deleted) == snapshot.Keys && d.added == [] && d.modified == []
  {
    ElementsEmpty(d.added);
    ElementsEmpty(d.modified);
  }
}
