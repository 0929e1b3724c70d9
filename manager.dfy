/** The checkpoint orchestrator (`src/manager.rs`): a registry of
    checkpoints, their creation order, the current pointer, and the file and
    turn trackers, composed into save, turn checkpoint, undo, restore and
    retention pruning. */
module Managers {
  import opened Wrappers
  import opened Basics
  import opened Errors
  import opened Checkpoints
  import opened FileTracking
  import opened TurnTracking

  /** `CheckpointConfig`. `storageDir` and `trackFiles` are carried but never
      consulted by the engine. */
  datatype CheckpointConfig = CheckpointConfig(
    storageDir: Path,
    maxCheckpoints: nat,
    autoCheckpoint: bool,
    trackFiles: bool)

  /** `CheckpointConfig::default()`. */
  const DefaultConfig := CheckpointConfig(".lair/checkpoints", 50, true, true)

  /** What the store step reports: the serialized size, or the serializer's message. */
  datatype StoreOutcome = Stored(size: nat) | StoreFailed(detail: string)

  /** `store_checkpoint`: fails with a storage error exactly when the store step does. */
  function StoreCheckpoint(c: Checkpoint, outcome: StoreOutcome): (r: Result<nat, CheckpointError>)
    ensures r.Err? <==> outcome.StoreFailed?
    ensures r.Err? ==> r.error == StorageError(outcome.detail)
  {
    match outcome
    case Stored(size) => Ok(size)
    case StoreFailed(detail) => Err(StorageError(detail))
  }

  /** The disk as restore sees it: the current file contents, and the paths
      whose writes fail together with the reported cause. */
  class FileSystem {
    var files: map<Path, string>
    const failures: map<Path, string>

    constructor (files: map<Path, string>, failures: map<Path, string>)
      ensures this.files == files && this.failures == failures
    {
      this.files := files;
      this.failures := failures;
    }

    /** `tokio::fs::write`: create or overwrite `path`. A failing write
        reports its cause and leaves every other file alone; the failing file
        itself may be left as it was, truncated or partly written, so the
        contract says nothing about it. */
    method Write(path: Path, content: string) returns (r: Result<(), string>)
      modifies this`files
      ensures path in failures ==> r == Err(failures[path]) && files - {path} == old(files) - {path}
      ensures path !in failures ==> r == Ok(()) && files == old(files)[path := content]
    {
      if path in failures {
        // One of the outcomes the contract allows: the file is untouched.
        r := Err(failures[path]);
      } else {
        files := files[path := content];
        r := Ok(());
      }
    }
  }

  /** `m` cut down to the paths in `keys`. */
  function Restrict(m: map<Path, string>, keys: set<Path>): map<Path, string>
  {
    map p | p in m && p in keys :: m[p]
  }

  /** The disk effect of writing `files` back one by one in some order and
      stopping at the first failing write. Without a failure every file is
      written; with one, it names a failing path of the snapshot, exactly the
      `written` files (none of which failed) are written, and the failing
      file's content is unspecified. */
  ghost predicate WroteBack(files: map<Path, string>, failures: map<Path, string>,
                            before: map<Path, string>, after: map<Path, string>,
                            failure: Option<CheckpointError>, written: set<Path>)
  {
    if failure.None? then
      files.Keys !! failures.Keys && after == before + files
    else
      && failure.value.RestoreError?
      && failure.value.path in files && failure.value.path in failures
      && failure.value.cause == failures[failure.value.path]
      && written <= files.Keys - failures.Keys
      && after - {failure.value.path} == (before + Restrict(files, written)) - {failure.value.path}
  }

  /** A write-back succeeds exactly when no file of the snapshot fails to write. */
  lemma WroteBackSucceedsExactly(files: map<Path, string>, failures: map<Path, string>,
                                 before: map<Path, string>, after: map<Path, string>,
                                 failure: Option<CheckpointError>, written: set<Path>)
    requires WroteBack(files, failures, before, after, failure, written)
    ensures failure.None? <==> files.Keys !! failures.Keys
  {
    if failure.Some? {
      assert failure.value.path in files.Keys * failures.Keys;
    }
  }

  function Failure<T>(r: Result<T, CheckpointError>): Option<CheckpointError>
  {
    if r.Ok? then None else Some(r.error)
  }

  /** The registry: identity to checkpoint, and identities in creation order. */
  datatype Registry = Registry(checkpoints: map<CheckpointId, Checkpoint>, order: seq<CheckpointId>)

  /** Every ordered identity is registered, none twice, and each checkpoint is
      filed under its own identity. */
  predicate RegistryValid(r: Registry)
  {
    && (forall id :: id in r.order ==> id in r.checkpoints)
    && Distinct(r.order)
    && (forall id :: id in r.checkpoints ==> r.checkpoints[id].id == id)
  }

  predicate IsNamed(checkpoints: map<CheckpointId, Checkpoint>, id: CheckpointId)
  {
    id in checkpoints && checkpoints[id].name.Some?
  }

  /** How many entries the pruning loop takes off the front of `order`. */
  function Evicted(order: seq<CheckpointId>, max: nat): nat
  {
    if |order| > max then |order| - max else 0
  }

  /** The pruning loop, one front entry per step while `order` is longer than
      `max`: a named entry leaves `order` but stays registered, any other
      entry leaves both. */
  function Prune(r: Registry, max: nat): (p: Registry)
    ensures p.order == r.order[Evicted(r.order, max)..]
    decreases |r.order|
  {
    if |r.order| <= max then r
    else Prune(PruneStep(r), max)
  }

  /** One round of the pruning loop: drop the front entry of `order`, and
      unregister it unless it is named. */
  function PruneStep(r: Registry): (q: Registry)
    requires r.order != []
    ensures q.order == r.order[1..]
  {
    var oldest := r.order[0];
    if IsNamed(r.checkpoints, oldest) then Registry(r.checkpoints, r.order[1..])
    else Registry(r.checkpoints - {oldest}, r.order[1..])
  }

  /** What pruning does to the registry: at most `max` entries stay in
      `order`; every checkpoint that stays is unchanged; a registered
      checkpoint leaves the registry exactly when it was among the evicted
      entries and is unnamed. */
  lemma {:induction false} PruneRetains(r: Registry, max: nat)
    ensures var p := Prune(r, max);
            && |p.order| <= max && (|r.order| > max ==> |p.order| == max)
            && (forall id :: id in p.checkpoints ==> id in r.checkpoints && p.checkpoints[id] == r.checkpoints[id])
            && (forall id :: id in r.checkpoints ==>
                  (id in p.checkpoints <==> id !in r.order[..Evicted(r.order, max)] || r.checkpoints[id].name.Some?))
    decreases |r.order|
  {
    if |r.order| > max {
      var rest := PruneStep(r);
      assert r.order[..Evicted(r.order, max)] == [r.order[0]] + rest.order[..Evicted(rest.order, max)];
      PruneRetains(rest, max);
    }
  }

  /** Pruning keeps the registry consistent. */
  lemma PrunePreservesValid(r: Registry, max: nat)
    requires RegistryValid(r)
    ensures RegistryValid(Prune(r, max))
  {
    var p := Prune(r, max);
    var k := Evicted(r.order, max);
    PruneRetains(r, max);
    DistinctSplit(r.order, k);
    assert forall id :: id in p.order ==> id in r.order[k..];
  }

  /** Registering a fresh checkpoint at the end of `order` keeps the registry consistent. */
  lemma RegisterPreservesValid(r: Registry, c: Checkpoint)
    requires RegistryValid(r) && c.id !in r.checkpoints
    ensures RegistryValid(Registry(r.checkpoints[c.id := c], r.order + [c.id]))
  {
    assert c.id !in r.order;
    DistinctAppend(r.order, c.id);
  }

  /** A save with room to retain at least one checkpoint leaves the new one
      registered and last in `order`. */
  lemma SaveKeepsNewest(r: Registry, c: Checkpoint, max: nat)
    requires RegistryValid(r) && c.id !in r.checkpoints && max >= 1
    ensures var p := Prune(Registry(r.checkpoints[c.id := c], r.order + [c.id]), max);
            |p.order| >= 1 && p.order[|p.order| - 1] == c.id
            && c.id in p.checkpoints && p.checkpoints[c.id] == c
  {
    var added := Registry(r.checkpoints[c.id := c], r.order + [c.id]);
    RegisterPreservesValid(r, c);
    PruneRetains(added, max);
    var k := Evicted(added.order, max);
    assert c.id !in added.order[..k] by {
      forall j | 0 <= j < k ensures added.order[..k][j] != c.id {
        assert added.order[j] != added.order[|added.order| - 1];
      }
    }
  }

  /** With a ceiling of zero an unnamed save is pruned at once: `save`
      returns its identity and makes it current, yet it is not registered. */
  lemma ZeroCeilingForgetsUnnamed(r: Registry, c: Checkpoint)
    requires RegistryValid(r) && c.id !in r.checkpoints && c.name.None?
    ensures var p := Prune(Registry(r.checkpoints[c.id := c], r.order + [c.id]), 0);
            p.order == [] && c.id !in p.checkpoints
  {
    var added := Registry(r.checkpoints[c.id := c], r.order + [c.id]);
    PruneRetains(added, 0);
    assert added.order[..Evicted(added.order, 0)] == added.order;
    assert c.id in added.order;
  }

  /** With a ceiling of two, three unnamed saves keep the last two and forget the first. */
  lemma ThreeUnnamedSaves(a: Checkpoint, b: Checkpoint, c: Checkpoint)
    requires a.name.None? && b.name.None? && c.name.None?
    requires a.id != b.id && a.id != c.id && b.id != c.id
    ensures var p := Prune(Registry(map[a.id := a, b.id := b, c.id := c], [a.id, b.id, c.id]), 2);
            p.order == [b.id, c.id] && p.checkpoints == map[b.id := b, c.id := c] && |p.checkpoints| == 2
  {
    var r := Registry(map[a.id := a, b.id := b, c.id := c], [a.id, b.id, c.id]);
    var p := Prune(r, 2);
    PruneRetains(r, 2);
    assert r.order[..1] == [a.id];
    assert p.checkpoints.Keys == {b.id, c.id};
    assert p.checkpoints == map[b.id := b, c.id := c];
  }

  /** `count()` is not bounded by the ceiling: two named checkpoints under a
      ceiling of one both stay registered though only one stays in `order`. */
  lemma NamedCheckpointsExceedCeiling(a: Checkpoint, b: Checkpoint)
    requires a.name.Some? && b.name.Some? && a.id != b.id
    ensures var p := Prune(Registry(map[a.id := a, b.id := b], [a.id, b.id]), 1);
            p.order == [b.id] && |p.checkpoints| == 2
  {
    var r := Registry(map[a.id := a, b.id := b], [a.id, b.id]);
    var p := Prune(r, 1);
    PruneRetains(r, 1);
    assert p.checkpoints.Keys == {a.id, b.id};
  }

  /** The default configuration takes turn checkpoints, tracks files under
      `.lair/checkpoints`, leaves up to fifty ordered checkpoints alone and
      evicts the oldest of fifty-one. */
  lemma DefaultConfiguration(r: Registry)
    ensures DefaultConfig.autoCheckpoint && DefaultConfig.trackFiles
    ensures DefaultConfig.storageDir == ".lair/checkpoints"
    ensures |r.order| <= 50 ==> Prune(r, DefaultConfig.maxCheckpoints) == r
    ensures |r.order| == 51 ==> Prune(r, DefaultConfig.maxCheckpoints).order == r.order[1..]
  {
  }

  /** Position of the first occurrence of `x` in `s`, or `|s|` when absent. */
  function IndexOf(s: seq<CheckpointId>, x: CheckpointId): (i: nat)
    ensures i <= |s|
    ensures i < |s| ==> s[i] == x
    ensures forall j :: 0 <= j < i ==> s[j] != x
  {
    if s == [] then 0
    else if s[0] == x then 0
    else 1 + IndexOf(s[1..], x)
  }

  /** Where undo takes the current pointer to be: its position in `order`,
      or one past the end when it is unset or not in `order`. */
  function UndoPosition(order: seq<CheckpointId>, current: Option<CheckpointId>): (i: nat)
    ensures i <= |order|
    ensures i == |order| <==> current.None? || current.value !in order
    ensures i < |order| ==> current == Some(order[i])
  {
    match current
    case None => |order|
    case Some(id) => IndexOf(order, id)
  }

  /** What undo restores: the entry just before the current position, or
      `NothingToUndo` at position 0. */
  function UndoTarget(order: seq<CheckpointId>, current: Option<CheckpointId>): (r: Result<CheckpointId, CheckpointError>)
    ensures r.Err? <==> UndoPosition(order, current) == 0
    ensures r.Err? ==> r.error == NothingToUndo
    ensures r.Ok? ==> r.value == order[UndoPosition(order, current) - 1]
  {
    var i := UndoPosition(order, current);
    if i == 0 then Err(NothingToUndo) else Ok(order[i - 1])
  }

  /** Undo has nothing to do exactly when `order` is empty or the current
      pointer is its first entry. */
  lemma {:induction false} UndoFailsExactly(order: seq<CheckpointId>, current: Option<CheckpointId>)
    ensures UndoTarget(order, current).Err? <==> order == [] || current == Some(order[0])
  {
    if order != [] && current != Some(order[0]) && current.Some? && current.value in order {
      assert UndoPosition(order, current) != 0;
    }
  }

  /** With distinct entries, undo from the `k`-th entry goes to entry `k - 1`. */
  lemma UndoStepsBack(order: seq<CheckpointId>, k: nat)
    requires Distinct(order) && 0 < k < |order|
    ensures UndoTarget(order, Some(order[k])) == Ok(order[k - 1])
  {
    var i := IndexOf(order, order[k]);
    assert i <= k;
  }

  /** Without a current pointer in `order`, undo goes to the newest entry. */
  lemma UndoWithoutCurrent(order: seq<CheckpointId>, current: Option<CheckpointId>)
    requires order != [] && (current.None? || current.value !in order)
    ensures UndoTarget(order, current) == Ok(order[|order| - 1])
  {
  }

  /** `list()`: the metadata of every identity of `order` that is registered, in order. */
  ghost function ListMetas(checkpoints: map<CheckpointId, Checkpoint>, order: seq<CheckpointId>): (metas: seq<CheckpointMeta>)
    ensures |metas| <= |order|
    ensures (forall id :: id in order ==> id in checkpoints) ==>
              |metas| == |order| && forall i :: 0 <= i < |order| ==> metas[i] == checkpoints[order[i]].ToMeta()
  {
    if order == [] then []
    else
      var rest := ListMetas(checkpoints, order[1..]);
      assert forall id :: id in order[1..] ==> id in order;
      (if order[0] in checkpoints then [checkpoints[order[0]].ToMeta()] else []) + rest
  }

  /** A named checkpoint that pruning took out of `order` can still be
      fetched but is no longer listed. */
  lemma PrunedNamedIsUnlisted(r: Registry, max: nat, id: CheckpointId)
    requires RegistryValid(r) && IsNamed(r.checkpoints, id)
    requires id in r.order[..Evicted(r.order, max)]
    ensures var p := Prune(r, max);
            id in p.checkpoints && forall m :: m in ListMetas(p.checkpoints, p.order) ==> m.id != id
  {
    var p := Prune(r, max);
    PruneRetains(r, max);
    PrunePreservesValid(r, max);
    var k := Evicted(r.order, max);
    assert id !in p.order by {
      var i :| 0 <= i < k && r.order[i] == id;
      forall j | k <= j < |r.order| ensures r.order[j] != id {
        assert r.order[i] != r.order[j];
      }
    }
    var metas := ListMetas(p.checkpoints, p.order);
    forall m | m in metas ensures m.id != id {
      var i :| 0 <= i < |metas| && metas[i] == m;
      assert m.id == p.order[i];
    }
  }

  class CheckpointManager {
    const config: CheckpointConfig
    /** Identity to checkpoint. */
    var checkpoints: map<CheckpointId, Checkpoint>
    /** Identities in creation order, oldest first. */
    var order: seq<CheckpointId>
    const turnTracker: TurnTracker
    const fileTracker: FileTracker
    /** The checkpoint the live state is believed to reflect. */
    var current: Option<CheckpointId>

    ghost predicate Valid()
      reads this, turnTracker, fileTracker
    {
      RegistryValid(Registry(checkpoints, order)) && CurrentRegistered() && turnTracker.Valid() && fileTracker.Valid()
    }

    /** With room for at least one checkpoint, the current pointer names a
        registered checkpoint. A ceiling of zero can leave it dangling (see
        `ZeroCeilingForgetsUnnamed`). */
    predicate CurrentRegistered()
      reads this
    {
      config.maxCheckpoints >= 1 && current.Some? ==> current.value in checkpoints
    }

    function Registered(): Registry
      reads this
    {
      Registry(checkpoints, order)
    }

    /** `CheckpointManager::new`: nothing registered, nothing current, fresh trackers. */
    constructor (config: CheckpointConfig)
      ensures Valid() && this.config == config
      ensures checkpoints == map[] && order == [] && current == None
      ensures fresh(turnTracker) && turnTracker.turns == map[] && turnTracker.currentTurn == 0 && turnTracker.count == 0
      ensures fresh(fileTracker) && fileTracker.states == map[] && fileTracker.pending == []
    {
      this.config := config;
      checkpoints := map[];
      order := [];
      turnTracker := new TurnTracker();
      fileTracker := new FileTracker();
      current := None;
    }

    /** The payload of a new checkpoint: the tracker's file states, with the
        two reserved slots left at their defaults. */
    function CollectCheckpointData(): (d: CheckpointData)
      reads this, fileTracker
      ensures d.fileStates == fileTracker.states
      ensures d.(fileStates := map[]) == DefaultData()
    {
      CheckpointData(fileTracker.CurrentStates(), None, map[])
    }

    /** Retention: the loop of `prune_checkpoints`. */
    method PruneCheckpoints()
      modifies this`checkpoints, this`order
      ensures Registered() == Prune(old(Registered()), config.maxCheckpoints)
      ensures |order| <= config.maxCheckpoints
    {
      while |order| > config.maxCheckpoints
        invariant Prune(Registered(), config.maxCheckpoints) == Prune(old(Registered()), config.maxCheckpoints)
        decreases |order|
      {
        var oldest := order[0];
        if oldest in checkpoints && checkpoints[oldest].name.Some? {
          // A named checkpoint leaves the order but stays registered.
          order := order[1..];
          continue;
        }
        order := order[1..];
        checkpoints := checkpoints - {oldest};
      }
    }

    /** `save`: build the checkpoint from the tracker, store it, and only then
        register it, make it current and prune. */
    method Save(name: Option<string>, id: CheckpointId, timestamp: Timestamp, store: StoreOutcome)
      returns (r: Result<CheckpointId, CheckpointError>)
      requires Valid()
      requires id !in checkpoints && id !in order
      modifies this`checkpoints, this`order, this`current
      ensures Valid()
      ensures store.StoreFailed? ==>
                r == Err(StorageError(store.detail))
                && checkpoints == old(checkpoints) && order == old(order) && current == old(current)
      ensures store.Stored? ==>
                r == Ok(id) && current == Some(id)
                && Registered() == Prune(Registry(old(checkpoints)[id := Checkpoint(id, name, timestamp, None, None, CollectCheckpointData())],
                                                  old(order) + [id]), config.maxCheckpoints)
    {
      var checkpoint := Checkpoint(id, name, timestamp, None, None, CollectCheckpointData());
      var stored := StoreCheckpoint(checkpoint, store);
      if stored.Err? {
        return Err(stored.error);
      }
      ghost var registered := Registry(checkpoints[id := checkpoint], order + [id]);
      RegisterPreservesValid(Registered(), checkpoint);
      PrunePreservesValid(registered, config.maxCheckpoints);
      if config.maxCheckpoints >= 1 {
        SaveKeepsNewest(Registered(), checkpoint, config.maxCheckpoints);
      }
      checkpoints := checkpoints[id := checkpoint];
      order := order + [id];
      current := Some(id);
      PruneCheckpoints();
      r := Ok(id);
    }

    /** `checkpoint_turn`: refused while auto-checkpointing is off; otherwise
        as `save`, for an unnamed checkpoint of `taskId` at `turnNumber`, and
        the turn index learns the new checkpoint before pruning. */
    method CheckpointTurn(taskId: TaskId, turnNumber: u32, id: CheckpointId, timestamp: Timestamp, store: StoreOutcome)
      returns (r: Result<CheckpointId, CheckpointError>)
      requires Valid()
      requires id !in checkpoints && id !in order
      requires config.autoCheckpoint && store.Stored? ==> turnNumber < U32_MAX
      modifies this`checkpoints, this`order, this`current, turnTracker
      ensures Valid()
      ensures !config.autoCheckpoint ==>
                r == Err(AutoCheckpointDisabled)
                && checkpoints == old(checkpoints) && order == old(order) && current == old(current)
                && unchanged(turnTracker)
      ensures config.autoCheckpoint && store.StoreFailed? ==>
                r == Err(StorageError(store.detail))
                && checkpoints == old(checkpoints) && order == old(order) && current == old(current)
                && unchanged(turnTracker)
      ensures config.autoCheckpoint && store.Stored? ==>
                r == Ok(id) && current == Some(id)
                && Registered() == Prune(Registry(old(checkpoints)[id := Checkpoint(id, None, timestamp, Some(taskId), Some(turnNumber), CollectCheckpointData())],
                                                  old(order) + [id]), config.maxCheckpoints)
                && turnTracker.CheckpointForTurn(turnNumber) == Some(id)
                && turnTracker.turns == old(turnTracker.turns)[turnNumber := id]
                && turnTracker.currentTurn == turnNumber
                && turnTracker.count == if old(turnTracker.count) > turnNumber + 1 then old(turnTracker.count) else turnNumber + 1
    {
      if !config.autoCheckpoint {
        return Err(AutoCheckpointDisabled);
      }
      var checkpoint := Checkpoint(id, None, timestamp, Some(taskId), Some(turnNumber), CollectCheckpointData());
      var stored := StoreCheckpoint(checkpoint, store);
      if stored.Err? {
        return Err(stored.error);
      }
      ghost var registered := Registry(checkpoints[id := checkpoint], order + [id]);
      RegisterPreservesValid(Registered(), checkpoint);
      PrunePreservesValid(registered, config.maxCheckpoints);
      if config.maxCheckpoints >= 1 {
        SaveKeepsNewest(Registered(), checkpoint, config.maxCheckpoints);
      }
      checkpoints := checkpoints[id := checkpoint];
      order := order + [id];
      current := Some(id);
      turnTracker.RecordTurn(turnNumber, id);
      PruneCheckpoints();
      r := Ok(id);
    }

    /** `restore_files`: write every file of the snapshot, in HashMap order,
        stopping at the first failure; only when all writes succeed is the
        tracker reset to the snapshot. */
    method RestoreFiles(data: CheckpointData, fs: FileSystem) returns (r: Result<(), CheckpointError>, ghost written: set<Path>)
      modifies fileTracker, fs`files
      ensures WroteBack(data.fileStates, fs.failures, old(fs.files), fs.files, Failure(r), written)
      ensures r.Ok? ==> fileTracker.states == data.fileStates && fileTracker.pending == [] && fileTracker.Valid()
      ensures r.Err? ==> unchanged(fileTracker)
    {
      var files := data.fileStates;
      written := {};
      var rest := files.Keys;
      while rest != {}
        invariant rest <= files.Keys && written == files.Keys - rest
        invariant written !! fs.failures.Keys
        invariant fs.files == old(fs.files) + Restrict(files, written)
        invariant unchanged(fileTracker)
        decreases rest
      {
        var p :| p in rest;
        var w := fs.Write(p, files[p]);
        if w.Err? {
          return Err(RestoreError(p, w.error)), written;
        }
        assert Restrict(files, written + {p}) == Restrict(files, written)[p := files[p]];
        written := written + {p};
        rest := rest - {p};
      }
      assert Restrict(files, written) == files;
      fileTracker.ResetTo(files);
      r := Ok(());
    }

    /** `restore`: refuse an unknown identity; otherwise write the snapshot
        back and, on full success, make the checkpoint current. Writes made
        before a failure stay on disk. */
    method Restore(id: CheckpointId, fs: FileSystem) returns (r: Result<CheckpointId, CheckpointError>, ghost written: set<Path>)
      requires Valid()
      modifies this`current, fileTracker, fs`files
      ensures Valid()
      ensures id !in checkpoints ==>
                r == Err(NotFound(id)) && current == old(current) && unchanged(fileTracker) && fs.files == old(fs.files)
      ensures id in checkpoints ==>
                && WroteBack(checkpoints[id].data.fileStates, fs.failures, old(fs.files), fs.files, Failure(r), written)
                && (r.Ok? ==> r.value == id && current == Some(id)
                              && fileTracker.states == checkpoints[id].data.fileStates && fileTracker.pending == [])
                && (r.Err? ==> current == old(current) && unchanged(fileTracker))
    {
      if id !in checkpoints {
        return Err(NotFound(id)), {};
      }
      var checkpoint := checkpoints[id];
      var restored;
      restored, written := RestoreFiles(checkpoint.data, fs);
      if restored.Err? {
        return Err(restored.error), written;
      }
      current := Some(id);
      r := Ok(id);
    }

    /** `undo`: restore the entry before the current one in creation order. */
    method Undo(fs: FileSystem) returns (r: Result<CheckpointId, CheckpointError>, ghost written: set<Path>)
      requires Valid()
      modifies this`current, fileTracker, fs`files
      ensures Valid()
      ensures UndoTarget(order, old(current)).Err? ==>
                r == Err(NothingToUndo) && current == old(current) && unchanged(fileTracker) && fs.files == old(fs.files)
      ensures UndoTarget(order, old(current)).Ok? ==>
                var target := UndoTarget(order, old(current)).value;
                && target in checkpoints
                && WroteBack(checkpoints[target].data.fileStates, fs.failures, old(fs.files), fs.files, Failure(r), written)
                && (r.Ok? ==> r.value == target && current == Some(target)
                              && fileTracker.states == checkpoints[target].data.fileStates && fileTracker.pending == [])
                && (r.Err? ==> current == old(current) && unchanged(fileTracker))
    {
      var target := UndoTarget(order, current);
      if target.Err? {
        return target, {};
      }
      r, written := Restore(target.value, fs);
    }

    /** `list()`: one metadata record per entry of `order`, in order. */
    ghost function List(): (metas: seq<CheckpointMeta>)
      reads this
      ensures |metas| <= |order|
      ensures RegistryValid(Registered()) ==>
                |metas| == |order|
                && forall i :: 0 <= i < |order| ==> metas[i] == checkpoints[order[i]].ToMeta() && metas[i].id == order[i]
    {
      ListMetas(checkpoints, order)
    }

    /** `get`: the checkpoint filed under `id`, which carries that identity. */
    function Get(id: CheckpointId): (r: Option<Checkpoint>)
      reads this
      ensures r.Some? <==> id in checkpoints
      ensures r.Some? ==> r.value == checkpoints[id]
      ensures RegistryValid(Registered()) && r.Some? ==> r.value.id == id
    {
      if id in checkpoints then Some(checkpoints[id]) else None
    }

    /** `current()`: under the manager's invariant and a ceiling of at
        least one, a registered checkpoint or none. */
    function Current(): (c: Option<CheckpointId>)
      reads this
      ensures CurrentRegistered() && config.maxCheckpoints >= 1 && c.Some? ==> c.value in checkpoints
    {
      current
    }

    /** `count()`: the number of registered checkpoints, which covers every
        entry of `order` and may exceed it. */
    function Count(): (n: nat)
      reads this
      ensures n == |checkpoints|
      ensures RegistryValid(Registered()) ==> |order| <= n
    {
      if RegistryValid(Registered()) then
        assert Elements(order) <= checkpoints.Keys;
        CountCovers(order, checkpoints);
        |checkpoints|
      else
        |checkpoints|
    }

    /** `record_file_change`: handed to the file tracker, whatever `trackFiles` says. */
    method RecordFileChange(path: Path, oldContent: Option<string>, newContent: string, at: Instant)
      requires Valid()
      modifies fileTracker
      ensures Valid()
      ensures fileTracker.pending == old(fileTracker.pending) + [FileChange(path, oldContent, newContent, at)]
      ensures fileTracker.states == old(fileTracker.states)[path := newContent]
    {
      fileTracker.RecordChange(path, oldContent, newContent, at);
    }
  }

  /** Two named saves on a default manager: both registered and listed, the
      second current. */
  method SaveTwoNamed(first: CheckpointId, second: CheckpointId, t1: Timestamp, t2: Timestamp, size1: nat, size2: nat)
    returns (m: CheckpointManager)
    requires first != second
    ensures m.Valid()
    ensures m.Count() == 2 && m.Current() == Some(second) && |m.List()| == 2
    ensures m.Get(first).Some? && m.Get(first).value.name == Some("first")
  {
    m := new CheckpointManager(DefaultConfig);
    assert m.Count() == 0;
    ghost var one := Registry(m.checkpoints[first := Checkpoint(first, Some("first"), t1, None, None, m.CollectCheckpointData())], [first]);
    DefaultConfiguration(one);
    var r1 := m.Save(Some("first"), first, t1, Stored(size1));
    assert m.Registered() == one;
    ghost var two := Registry(m.checkpoints[second := Checkpoint(second, Some("second"), t2, None, None, m.CollectCheckpointData())], [first, second]);
    DefaultConfiguration(two);
    var r2 := m.Save(Some("second"), second, t2, Stored(size2));
    assert m.Registered() == two;
    assert m.checkpoints.Keys == {first, second};
  }

  /** A duplicate-free order whose entries are all registered is no longer
      than the registry. */
  lemma CountCovers(order: seq<CheckpointId>, checkpoints: map<CheckpointId, Checkpoint>)
    requires Distinct(order) && Elements(order) <= checkpoints.Keys
    ensures |order| <= |checkpoints|
  {
    DistinctCardinality(order);
    var keys := checkpoints.Keys;
    assert keys == Elements(order) + (keys - Elements(order));
  }
}
