/** Value types shared by every component: fixed-width integers, paths and
    the opaque identities and clock readings that are minted outside the core. */
module Basics {

  /** Rust's `u32`. */
  newtype u32 = x: int | 0 <= x < 0x1_0000_0000

  const U32_MAX: u32 := 0xFFFF_FFFF

  /** A 128-bit UUID, the representation of checkpoint and task identities. */
  newtype Uuid = x: int | 0 <= x < 0x1_0000_0000_0000_0000_0000_0000_0000_0000

  /** A file path (`PathBuf`), modelled as Unicode text. */
  type Path = string

  /** Identity of a checkpoint; compared by equality only. */
  datatype CheckpointId = CheckpointId(uuid: Uuid)

  /** Identity of the task that owns a turn checkpoint. */
  datatype TaskId = TaskId(uuid: Uuid)

  /** A UTC wall-clock time (`DateTime<Utc>`), in whole seconds since the Unix epoch. */
  datatype Timestamp = Timestamp(unixSeconds: int)

  /** A monotonic clock reading (`std::time::Instant`). */
  datatype Instant = Instant(ticks: nat)

  /** The elements of a sequence, as a set. */
  function Elements<T>(s: seq<T>): set<T>
  {
    set x | x in s
  }

  /** No element occurs twice. */
  predicate Distinct<T(==)>(s: seq<T>)
  {
    forall i, j :: 0 <= i < j < |s| ==> s[i] != s[j]
  }

  /** A sequence without duplicates has as many elements as its set of elements. */
  lemma {:induction false} DistinctCardinality<T>(s: seq<T>)
    requires Distinct(s)
    ensures |Elements(s)| == |s|
  {
    if s != [] {
      var t := s[1..];
      assert Distinct(t) by {
        forall i, j | 0 <= i < j < |t| ensures t[i] != t[j] {
          assert t[i] == s[i + 1] && t[j] == s[j + 1];
        }
      }
      DistinctCardinality(t);
      forall k | 0 <= k < |t| ensures t[k] != s[0] {
        assert t[k] == s[k + 1];
      }
      assert Elements(s) == {s[0]} + Elements(t) by {
        assert s == [s[0]] + t;
      }
    }
  }

  /** Appending an element adds it to the set of elements. */
  lemma ElementsAppend<T>(s: seq<T>, x: T)
    ensures Elements(s + [x]) == Elements(s) + {x}
  {
    assert forall y :: y in s + [x] <==> y in s || y == x;
  }

  /** Appending an element not yet present keeps a sequence free of duplicates. */
  lemma DistinctAppend<T>(s: seq<T>, x: T)
    requires Distinct(s) && x !in s
    ensures Distinct(s + [x])
  {
    var t := s + [x];
    forall i, j | 0 <= i < j < |t| ensures t[i] != t[j] {
      if j == |s| { assert t[i] == s[i]; } else { assert t[i] == s[i] && t[j] == s[j]; }
    }
  }

  /** Splitting a sequence without repeats gives two halves without repeats
      and with no element in common. */
  lemma DistinctSplit<T>(s: seq<T>, k: nat)
    requires Distinct(s) && k <= |s|
    ensures Distinct(s[k..])
    ensures forall x :: x in s[k..] ==> x !in s[..k]
  {
    var t := s[k..];
    forall i, j | 0 <= i < j < |t| ensures t[i] != t[j] {
      assert t[i] == s[k + i] && t[j] == s[k + j];
    }
    forall x | x in t ensures x !in s[..k] {
      var i :| 0 <= i < |t| && t[i] == x;
      forall j | 0 <= j < k ensures s[..k][j] != x {
        assert s[j] != s[k + i];
      }
    }
  }

  /** Three pairwise disjoint subsets of `u` have at most `|u|` elements together. */
  lemma DisjointSubsetsCardinality<T>(a: set<T>, b: set<T>, c: set<T>, u: set<T>)
    requires a !! b && a !! c && b !! c
    requires a <= u && b <= u && c <= u
    ensures |a| + |b| + |c| <= |u|
  {
    var ab := a + b;
    assert |ab| == |a| + |b|;
    var abc := ab + c;
    assert ab !! c;
    assert |abc| == |ab| + |c|;
    assert u == abc + (u - abc);
  }

  /** Only the empty sequence has no elements. */
  lemma ElementsEmpty<T>(s: seq<T>)
    ensures Elements(s) == {} <==> s == []
  {
    if s != [] {
      assert s[0] in Elements(s);
    }
  }
}
