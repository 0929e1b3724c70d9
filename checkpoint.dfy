/** Checkpoint records and their read-only projections: the summary line,
    the size estimate and the metadata view (`src/checkpoint.rs`). */
module Checkpoints {
  import opened Wrappers
  import opened Basics
  import opened Text

  /** One message of a conversation snapshot. */
  datatype ConversationMessage = ConversationMessage(role: string, content: string, timestamp: Timestamp)

  /** A conversation history snapshot; reserved, the engine never fills one in. */
  datatype ConversationSnapshot = ConversationSnapshot(messages: seq<ConversationMessage>, tokenCount: nat)

  /** An agent-state blob (`serde_json::Value`), kept as its JSON text. */
  type JsonText = string

  /** The payload of a checkpoint: a full snapshot of the tracked files plus
      two reserved slots. */
  datatype CheckpointData = CheckpointData(
    fileStates: map<Path, string>,
    conversationSnapshot: Option<ConversationSnapshot>,
    agentStates: map<string, JsonText>)

  /** `CheckpointData::default()`: no files, no conversation, no agent state. */
  function DefaultData(): (d: CheckpointData)
    ensures d.fileStates == map[] && d.conversationSnapshot.None? && d.agentStates == map[]
  {
    CheckpointData(map[], None, map[])
  }

  /** The protocol-level view of a checkpoint, as `list()` reports it. */
  datatype CheckpointMeta = CheckpointMeta(
    id: CheckpointId,
    name: Option<string>,
    timestamp: Timestamp,
    sizeBytes: nat,
    taskId: Option<TaskId>,
    summary: string)

  /** Sum of the UTF-8 byte lengths of all values of `files`. HashMap order is
      not fixed, so the definition picks any key; TotalByteLengthRemove shows
      every pick gives the same sum. */
  ghost function TotalByteLength(files: map<Path, string>): nat
    decreases |files|
  {
    if files == map[] then 0
    else
      var p :| p in files;
      ByteLength(files[p]) + TotalByteLength(files - {p})
  }

  /** Any file can be taken out of the sum first. */
  lemma {:induction false} TotalByteLengthRemove(files: map<Path, string>, p: Path)
    requires p in files
    ensures TotalByteLength(files) == ByteLength(files[p]) + TotalByteLength(files - {p})
    decreases |files|
  {
    var q :| q in files && TotalByteLength(files) == ByteLength(files[q]) + TotalByteLength(files - {q});
    if q != p {
      TotalByteLengthRemove(files - {q}, p);
      TotalByteLengthRemove(files - {p}, q);
      assert files - {q} - {p} == files - {p} - {q};
    }
  }

  /** Adding a new file adds its byte length to the sum. */
  lemma TotalByteLengthInsert(files: map<Path, string>, p: Path, content: string)
    requires p !in files
    ensures TotalByteLength(files[p := content]) == TotalByteLength(files) + ByteLength(content)
  {
    TotalByteLengthRemove(files[p := content], p);
    assert files[p := content] - {p} == files;
  }

  /** A checkpoint. Created once and never mutated afterwards. */
  datatype Checkpoint = Checkpoint(
    id: CheckpointId,
    name: Option<string>,
    timestamp: Timestamp,
    taskId: Option<TaskId>,
    turnNumber: Option<u32>,
    data: CheckpointData)
  {
    /** The one-line description: the name if there is one, otherwise the
        turn, otherwise the creation time of day. */
    function Summary(): (s: string)
      ensures name.Some? ==> s == name.value
      ensures name.None? && turnNumber.Some? ==> s == "Turn " + Decimal(turnNumber.value as nat)
      ensures name.None? && turnNumber.None? ==> |s| == 22 && s[..14] == "Checkpoint at "
    {
      if name.Some? then name.value
      else if turnNumber.Some? then "Turn " + Decimal(turnNumber.value as nat)
      else "Checkpoint at " + ClockText(timestamp.unixSeconds % SECONDS_PER_DAY)
    }

    /** Estimated size: the sum of the byte lengths of the snapshot's file contents. */
    ghost function EstimatedSize(): (n: nat)
      ensures data.fileStates == map[] ==> n == 0
      ensures forall p :: p in data.fileStates ==> ByteLength(data.fileStates[p]) <= n
    {
      forall p | p in data.fileStates
        ensures ByteLength(data.fileStates[p]) <= TotalByteLength(data.fileStates)
      {
        TotalByteLengthRemove(data.fileStates, p);
      }
      TotalByteLength(data.fileStates)
    }

    /** The metadata view: identity, name, time and task copied, size and
        summary derived. */
    ghost function ToMeta(): (m: CheckpointMeta)
      ensures m.id == id && m.name == name && m.timestamp == timestamp && m.taskId == taskId
      ensures m.sizeBytes == EstimatedSize() && m.summary == Summary()
    {
      CheckpointMeta(id, name, timestamp, EstimatedSize(), taskId, Summary())
    }
  }

  /** A turn summary reads back as the turn number it was made from. */
  lemma TurnSummaryParses(c: Checkpoint)
    requires c.name.None? && c.turnNumber.Some?
    ensures |c.Summary()| > 5 && c.Summary()[..5] == "Turn "
    ensures AllDigits(c.Summary()[5..]) && DecimalValue(c.Summary()[5..]) == c.turnNumber.value as nat
  {
    var n := c.turnNumber.value as nat;
    assert c.Summary()[5..] == Decimal(n);
    DecimalRoundTrip(n);
  }

  /** A time summary shows the UTC time of day of the checkpoint as `HH:MM:SS`. */
  lemma TimestampSummaryParses(c: Checkpoint)
    requires c.name.None? && c.turnNumber.None?
    ensures IsClockText(c.Summary()[14..])
    ensures ClockValue(c.Summary()[14..]) == c.timestamp.unixSeconds % SECONDS_PER_DAY
  {
    var sod := c.timestamp.unixSeconds % SECONDS_PER_DAY;
    assert c.Summary()[14..] == ClockText(sod);
    ClockRoundTrip(sod);
  }

  /** Two five-byte files give an estimate of ten bytes. */
  lemma EstimatedSizeOfTwoFiles(c: Checkpoint)
    requires c.data.fileStates == map["/a.txt" := "hello", "/b.txt" := "world"]
    ensures c.EstimatedSize() == 10
  {
    TotalByteLengthInsert(map["/a.txt" := "hello"], "/b.txt", "world");
    TotalByteLengthInsert(map[], "/a.txt", "hello");
    assert map[]["/a.txt" := "hello"] == map["/a.txt" := "hello"];
  }

  /** The metadata of an unnamed turn-1 checkpoint holding one seven-byte file. */
  lemma MetaOfTurnCheckpoint(c: Checkpoint)
    requires c.name.None? && c.turnNumber == Some(1)
    requires c.data.fileStates == map["/test.txt" := "content"]
    ensures c.ToMeta().sizeBytes == 7 && c.ToMeta().summary == "Turn 1"
  {
    TotalByteLengthInsert(map[], "/test.txt", "content");
    assert map[]["/test.txt" := "content"] == map["/test.txt" := "content"];
  }
}
