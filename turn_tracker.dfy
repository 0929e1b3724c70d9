/** The turn index: which checkpoint was taken at which conversation turn,
    the most recent turn and the turn count (`src/turn_tracker.rs`). */
module TurnTracking {
  import opened Wrappers
  import opened Basics

  /** `n` is the least turn number of `s`. */
  predicate IsLeast(n: u32, s: set<u32>)
  {
    n in s && forall m :: m in s ==> n <= m
  }

  /** A non-empty set of turn numbers has a least element. */
  lemma {:induction false} MinimumExists(s: set<u32>)
    requires s != {}
    ensures exists n :: IsLeast(n, s)
    decreases |s|
  {
    var x :| x in s;
    var rest := s - {x};
    if rest == {} {
      assert s == {x};
      assert IsLeast(x, s);
    } else {
      MinimumExists(rest);
      var y :| IsLeast(y, rest);
      var least := if x < y then x else y;
      forall m | m in s ensures least <= m {
        if m != x { assert m in rest; }
      }
      assert IsLeast(least, s);
    }
  }

  class TurnTracker {
    /** Turn number to checkpoint; one association per turn, latest write wins. */
    var turns: map<u32, CheckpointId>
    /** The turn recorded last. */
    var currentTurn: u32
    /** One more than the highest turn recorded. */
    var count: u32

    /** Every recorded turn lies below `count`; once a turn is recorded, the
        current turn is one of them; with nothing recorded both counters are 0. */
    ghost predicate Valid()
      reads this
    {
      && (forall n :: n in turns ==> n < count)
      && (turns == map[] ==> currentTurn == 0 && count == 0)
      && (turns != map[] ==> currentTurn in turns)
    }

    /** `TurnTracker::new`. */
    constructor ()
      ensures Valid() && turns == map[] && currentTurn == 0 && count == 0
    {
      turns := map[];
      currentTurn := 0;
      count := 0;
    }

    /** Associates `turnNumber` with `id`, makes it the current turn even when
        it is lower than before, and raises `count` to cover it. */
    method RecordTurn(turnNumber: u32, id: CheckpointId)
      requires Valid()
      requires turnNumber < U32_MAX
      modifies this
      ensures Valid()
      ensures turns == old(turns)[turnNumber := id]
      ensures currentTurn == turnNumber
      ensures count == if old(count) > turnNumber + 1 then old(count) else turnNumber + 1
      ensures old(count) <= count && turnNumber < count
    {
      turns := turns[turnNumber := id];
      currentTurn := turnNumber;
      count := if count > turnNumber + 1 then count else turnNumber + 1;
      assert turnNumber in turns;
    }

    /** The checkpoint of a turn; a recorded turn is always below `count`. */
    function CheckpointForTurn(turnNumber: u32): (r: Option<CheckpointId>)
      reads this
      ensures r.Some? <==> turnNumber in turns
      ensures r.Some? ==> r.value == turns[turnNumber]
      ensures Valid() && r.Some? ==> turnNumber < count
    {
      if turnNumber in turns then Some(turns[turnNumber]) else None
    }

    /** The current turn; once anything is recorded it has a checkpoint. */
    function CurrentTurn(): (n: u32)
      reads this
      ensures Valid() && turns != map[] ==> CheckpointForTurn(n).Some?
    {
      currentTurn
    }

    /** The turn count; it exceeds every recorded turn. */
    function Count(): (c: u32)
      reads this
      ensures Valid() ==> forall n :: n in turns ==> n < c
    {
      count
    }

    /** The checkpoint of the turn before the current one: none at turn 0 or
        when that turn was never recorded. */
    function PreviousCheckpoint(): (r: Option<CheckpointId>)
      reads this
      ensures currentTurn == 0 ==> r.None?
      ensures currentTurn > 0 ==> r == CheckpointForTurn(currentTurn - 1)
      ensures r.Some? ==> currentTurn > 0 && currentTurn - 1 in turns && turns[currentTurn - 1] == r.value
    {
      if currentTurn == 0 then None else CheckpointForTurn(currentTurn - 1)
    }

    /** All associations, ascending by turn. The source collects the entries
        and sorts them; here each step takes the least turn not yet taken. */
    method AllTurns() returns (entries: seq<(u32, CheckpointId)>)
      ensures |entries| == |turns|
      ensures forall i, j :: 0 <= i < j < |entries| ==> entries[i].0 < entries[j].0
      ensures forall i :: 0 <= i < |entries| ==> entries[i].0 in turns && turns[entries[i].0] == entries[i].1
      ensures forall n :: n in turns ==> (n, turns[n]) in entries
    {
      entries := [];
      var rest := turns.Keys;
      while rest != {}
        invariant rest <= turns.Keys
        invariant |entries| + |rest| == |turns|
        invariant forall i, j :: 0 <= i < j < |entries| ==> entries[i].0 < entries[j].0
        invariant forall i :: 0 <= i < |entries| ==>
                    entries[i].0 in turns && turns[entries[i].0] == entries[i].1 && entries[i].0 !in rest
        invariant forall i, n :: 0 <= i < |entries| && n in rest ==> entries[i].0 < n
        invariant forall n :: n in turns && n !in rest ==> (n, turns[n]) in entries
        decreases rest
      {
        MinimumExists(rest);
        var n :| IsLeast(n, rest);
        entries := entries + [(n, turns[n])];
        rest := rest - {n};
      }
    }

    /** Back to the initial state. */
    method Clear()
      modifies this
      ensures Valid() && turns == map[] && currentTurn == 0 && count == 0
    {
      turns := map[];
      currentTurn := 0;
      count := 0;
    }
  }

  /** Turns 0 and 1 recorded in order: turn 1 is current, the count is 2, and
      the previous checkpoint is the one of turn 0. */
  method TwoTurns(first: CheckpointId, second: CheckpointId) returns (t: TurnTracker)
    ensures t.Valid()
    ensures t.CurrentTurn() == 1 && t.Count() == 2
    ensures t.CheckpointForTurn(0) == Some(first) && t.PreviousCheckpoint() == Some(first)
  {
    t := new TurnTracker();
    t.RecordTurn(0, first);
    t.RecordTurn(1, second);
  }
}
